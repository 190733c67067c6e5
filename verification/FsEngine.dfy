/** Every interleaving of the request handlers with the serial worker. Each step is one stretch of
    code between two `await`s (server/src/main/kernel.js, `enqueueFsOperation` and the tracker;
    server/src/handlers/files-handlers.js). What a step leaves open (which fields a worker writes,
    when, and how the clock reads) is an argument of the step. */
module FsEngine {
  import opened Options
  import opened Numbers
  import opened Clock
  import opened FsJob
  import opened FsConflict
  import opened UploadManifest

  type Id = string
  type RequestId = nat

  /** A link of the promise chain. `stop` is the worker's own `cancelled` flag. */
  datatype Link = Link(id: Id, phase: LinkPhase)
  datatype LinkPhase = Pending | Busy(tracker: TrackerState, stop: bool) | Settled

  /** An upload request whose body is still arriving; `refused` once it has failed with a
      cancellation that its `catch` has yet to handle. */
  datatype Incoming = Incoming(id: Id, path: string, refused: bool)

  datatype Engine = Engine(
    disk: map<Id, Job>,
    chain: seq<Link>,
    incoming: map<RequestId, Incoming>,
    kinds: map<Id, Kind>,
    dismissed: set<Id>)

  const EMPTY := Engine(map[], [], map[], map[], {})

  datatype Step =
    | CreateTransfer(id: Id, job: Job)
    | CreateUpload(id: Id, job: Job)
    | Cancel(id: Id)
    | Dismiss(id: Id)
    | Resolve(id: Id, decision: Decision)
    | UploadBegin(request: RequestId, id: Id, path: string)
    | UploadChunk(request: RequestId, bytes: nat, write: bool)
    | UploadEnd(request: RequestId)
    | UploadCatch(request: RequestId)
    | UploadBroken(request: RequestId)
    | Finalize(id: Id)
    | WorkerStart(link: nat)
    | WorkerWrite(link: nat, values: Job, now: Instant, force: bool)
    | WorkerRefresh(link: nat)
    | WorkerCheck(link: nat)
    | WorkerPause(link: nat, values: Job, now: Instant)
    | WorkerFinish(link: nat, values: Job, outcome: Status, now: Instant)
    | WorkerThrow(link: nat)

  function ReadDisk(e: Engine, id: Id): Disk {
    if id in e.disk then Some(e.disk[id]) else None
  }

  function WithStatus(e: Engine, id: Id, status: Status): Engine
    requires id in e.disk
  {
    e.(disk := e.disk[id := e.disk[id].(status := status)])
  }

  function Enqueue(e: Engine, id: Id): Engine {
    e.(chain := e.chain + [Link(id, Pending)])
  }

  function DoCancel(e: Engine, id: Id): Engine {
    if id !in e.disk then e
    else
      var job := e.disk[id];
      if IsTerminal(job.status) then e
      else if job.status == Queued || job.status == Standby || (job.kind == Upload && job.status == Receiving) then
        WithStatus(e, id, Cancelled)
      else WithStatus(e, id, Cancelling)
  }

  function DoDismiss(e: Engine, id: Id): Engine {
    if id in e.disk && IsTerminal(e.disk[id].status) then
      e.(disk := e.disk - {id}, dismissed := e.dismissed + {id})
    else e
  }

  function DoResolve(e: Engine, id: Id, d: Decision): Engine {
    if id in e.disk && Resolvable(e.disk[id], d) then
      Enqueue(e.(disk := e.disk[id := Resumed(e.disk[id], d)]), id)
    else e
  }

  predicate InManifest(job: Job, path: string) {
    exists i :: 0 <= i < |job.manifest| && job.manifest[i].relativePath == path
  }

  predicate FullyUploaded(job: Job) {
    forall i :: 0 <= i < |job.manifest| ==> job.manifest[i].relativePath in job.uploadedFiles
  }

  function DoFinalize(e: Engine, id: Id): Engine {
    if id in e.disk && e.disk[id].kind == Upload && e.disk[id].status == Receiving && FullyUploaded(e.disk[id]) then
      Enqueue(WithStatus(e, id, Queued), id)
    else e
  }

  function DoUploadBegin(e: Engine, r: RequestId, id: Id, path: string): Engine {
    if r !in e.incoming && id in e.disk && e.disk[id].kind == Upload && e.disk[id].status == Receiving
       && InManifest(e.disk[id], path)
    then e.(incoming := e.incoming[r := Incoming(id, path, false)])
    else e
  }

  function TotalSize(manifest: seq<ManifestEntry>): nat {
    if manifest == [] then 0 else manifest[0].size + TotalSize(manifest[1..])
  }

  /** The record of a new upload. */
  function NewUpload(destination: Path, manifest: seq<ManifestEntry>): Job {
    Job(Upload, Receiving, destination, [], 0, None, Policy(false, false), Undecided, [], 0, 0,
        TotalSize(manifest), |manifest|, manifest, [])
  }

  predicate FreshUpload(job: Job) {
    job == NewUpload(job.destination, job.manifest) && job.manifest != [] && DistinctPaths(job.manifest)
  }

  function UploadedBytes(job: Job, uploaded: seq<string>): nat {
    SumSizes(job.manifest, uploaded)
  }

  function SumSizes(manifest: seq<ManifestEntry>, uploaded: seq<string>): nat {
    if manifest == [] then 0
    else (if manifest[0].relativePath in uploaded then manifest[0].size else 0) + SumSizes(manifest[1..], uploaded)
  }

  /** A data event: refuse after a cancellation, otherwise perhaps note the progress. */
  function DoUploadChunk(e: Engine, r: RequestId, bytes: nat, write: bool): Engine {
    if r !in e.incoming || e.incoming[r].refused then e
    else
      var id := e.incoming[r].id;
      if CancellationRequested(ReadDisk(e, id)) then e.(incoming := e.incoming[r := e.incoming[r].(refused := true)])
      else if write then
        var job := e.disk[id];
        var received := UploadedBytes(job, job.uploadedFiles) + bytes;
        e.(disk := e.disk[id := job.(processedBytes := Min(job.totalBytes, received))])
      else e
  }

  function WithUploaded(job: Job, path: string): Job {
    var uploaded := if path in job.uploadedFiles then job.uploadedFiles else job.uploadedFiles + [path];
    job.(uploadedFiles := uploaded,
         processedBytes := Min(job.totalBytes, UploadedBytes(job, uploaded)),
         processedItems := Min(job.totalItems, |uploaded|))
  }

  function DropRequest(e: Engine, r: RequestId): Engine {
    e.(incoming := e.incoming - {r})
  }

  /** The stream has finished: store the file unless a cancellation came in. */
  function DoUploadEnd(e: Engine, r: RequestId): Engine {
    if r !in e.incoming || e.incoming[r].refused then e
    else
      var id := e.incoming[r].id;
      if CancellationRequested(ReadDisk(e, id)) then DoUploadRefused(e, r)
      else DropRequest(e.(disk := e.disk[id := WithUploaded(e.disk[id], e.incoming[r].path)]), r)
  }

  /** The `catch` of a refused upload marks the whole operation cancelled. */
  function DoUploadRefused(e: Engine, r: RequestId): Engine
    requires r in e.incoming
  {
    var id := e.incoming[r].id;
    DropRequest(if id in e.disk && e.disk[id].status != Cancelled then WithStatus(e, id, Cancelled) else e, r)
  }

  function DoUploadCatch(e: Engine, r: RequestId): Engine {
    if r in e.incoming && e.incoming[r].refused then DoUploadRefused(e, r) else e
  }

  function DoUploadBroken(e: Engine, r: RequestId): Engine {
    if r in e.incoming && !e.incoming[r].refused then DropRequest(e, r) else e
  }

  /** A link may start once the promise before it has settled. */
  predicate MayStart(e: Engine, k: nat) {
    k < |e.chain| && e.chain[k].phase.Pending? && (k == 0 || e.chain[k - 1].phase.Settled?)
  }

  function SetPhase(e: Engine, k: nat, phase: LinkPhase): Engine
    requires k < |e.chain|
  {
    e.(chain := e.chain[k := e.chain[k].(phase := phase)])
  }

  function DoStart(e: Engine, k: nat): Engine {
    if !MayStart(e, k) then e
    else
      var id := e.chain[k].id;
      if id !in e.disk || IsTerminal(e.disk[id].status) then SetPhase(e, k, Settled)
      else
        var job := e.disk[id].(status := Running);
        SetPhase(e.(disk := e.disk[id := job]), k, Busy(TrackerState(job, 0), false))
  }

  predicate IsBusy(e: Engine, k: nat) {
    k < |e.chain| && e.chain[k].phase.Busy?
  }

  /** The tracker's next write, with its view of the disk and its throttle. */
  function PersistLink(e: Engine, k: nat, current: Job, now: Instant, force: bool): Engine
    requires IsBusy(e, k)
  {
    var link := e.chain[k];
    var r := Persist(ReadDisk(e, link.id), link.phase.tracker.(current := current), now, force);
    var disk := if r.0.Some? then e.disk[link.id := r.0.value] else e.disk;
    SetPhase(e.(disk := disk), k, Busy(r.1, link.phase.stop))
  }

  function RefreshLink(e: Engine, k: nat): Engine
    requires IsBusy(e, k)
  {
    var link := e.chain[k];
    SetPhase(e, k, Busy(AfterRefresh(ReadDisk(e, link.id), link.phase.tracker), link.phase.stop))
  }

  function Current(e: Engine, k: nat): Job
    requires IsBusy(e, k)
  {
    e.chain[k].phase.tracker.current
  }

  /** `fail`, `tick` and `set` without a status: any fields, but never the status or the kind. */
  function DoWrite(e: Engine, k: nat, values: Job, now: Instant, force: bool): Engine {
    if !IsBusy(e, k) then e
    else PersistLink(e, k, values.(kind := Current(e, k).kind, status := Current(e, k).status), now, force)
  }

  function DoRefresh(e: Engine, k: nat): Engine {
    if IsBusy(e, k) then RefreshLink(e, k) else e
  }

  function DoCheck(e: Engine, k: nat): Engine {
    if IsBusy(e, k) && CancellationRequested(ReadDisk(e, e.chain[k].id)) then
      SetPhase(e, k, e.chain[k].phase.(stop := true))
    else e
  }

  /** Winding up: refresh, then a forced write of `cancelled` or of the outcome. */
  function DoFinish(e: Engine, k: nat, values: Job, outcome: Status, now: Instant): Engine {
    if !IsBusy(e, k) then e
    else
      var latest := RefreshLink(e, k);
      var job := Current(latest, k);
      var status := if e.chain[k].phase.stop || IsCancellation(job.status) then Cancelled
                    else if IsTerminal(outcome) && outcome != Cancelled then outcome else Status.Failed;
      SetPhase(PersistLink(latest, k, values.(kind := job.kind, status := status), now, true), k, Settled)
  }

  /** The forced write of `standby`, which a cancellation on disk outdoes. */
  function PauseWritten(e: Engine, k: nat, values: Job, now: Instant): Engine
    requires IsBusy(e, k)
  {
    PersistLink(e, k, values.(kind := Current(e, k).kind, status := Standby), now, true)
  }

  /** A transfer pauses: a forced write of `standby`; if a cancellation won, it winds up instead. */
  function DoPause(e: Engine, k: nat, values: Job, now: Instant): Engine {
    if !IsBusy(e, k) || e.chain[k].phase.stop || Current(e, k).kind == Upload || Current(e, k).kind == Delete then e
    else
      var paused := PauseWritten(e, k, values, now);
      if ReadDisk(paused, e.chain[k].id).value.status == Standby then SetPhase(paused, k, Settled)
      else DoFinish(paused, k, values, Status.Failed, now)
  }

  /** The worker threw: `cancelled` after a cancellation, otherwise `failed`. */
  function DoThrow(e: Engine, k: nat): Engine {
    if !IsBusy(e, k) then e
    else
      var id := e.chain[k].id;
      var settled := SetPhase(e, k, Settled);
      if id !in e.disk then settled
      else if IsCancellation(e.disk[id].status) then WithStatus(settled, id, Cancelled)
      else WithStatus(settled, id, Status.Failed)
  }

  function Apply(e: Engine, s: Step): Engine {
    match s
    case CreateTransfer(id, job) =>
      if id in e.kinds || job.status != Queued || job.kind == Upload then e
      else Enqueue(e.(disk := e.disk[id := job], kinds := e.kinds[id := job.kind]), id)
    case CreateUpload(id, job) =>
      if id in e.kinds || !FreshUpload(job) then e
      else e.(disk := e.disk[id := job], kinds := e.kinds[id := Upload])
    case Cancel(id) => DoCancel(e, id)
    case Dismiss(id) => DoDismiss(e, id)
    case Resolve(id, d) => DoResolve(e, id, d)
    case UploadBegin(r, id, path) => DoUploadBegin(e, r, id, path)
    case UploadChunk(r, bytes, write) => DoUploadChunk(e, r, bytes, write)
    case UploadEnd(r) => DoUploadEnd(e, r)
    case UploadCatch(r) => DoUploadCatch(e, r)
    case UploadBroken(r) => DoUploadBroken(e, r)
    case Finalize(id) => DoFinalize(e, id)
    case WorkerStart(k) => DoStart(e, k)
    case WorkerWrite(k, values, now, force) => DoWrite(e, k, values, now, force)
    case WorkerRefresh(k) => DoRefresh(e, k)
    case WorkerCheck(k) => DoCheck(e, k)
    case WorkerPause(k, values, now) => DoPause(e, k, values, now)
    case WorkerFinish(k, values, outcome, now) => DoFinish(e, k, values, outcome, now)
    case WorkerThrow(k) => DoThrow(e, k)
  }

  /** The status graph. */
  predicate MayBecome(a: Status, b: Status) {
    || a == b
    || (a == Receiving && (b == Queued || b == Cancelled))
    || (a == Queued && (b == Running || b == Cancelled))
    || (a == Running && (b == Standby || b == Cancelling || b == Success || b == Partial || b == Status.Failed))
    || (a == Standby && (b == Queued || b == Cancelled))
    || (a == Cancelling && b == Cancelled)
  }

  /** Links settle from the front: at most one is busy, everything before it has settled. */
  ghost predicate Serial(chain: seq<Link>) {
    && (forall i, j :: 0 <= i < j < |chain| && !chain[j].phase.Pending? ==> chain[i].phase.Settled?)
    && (forall i, j :: 0 <= i < j < |chain| && !chain[i].phase.Settled? && !chain[j].phase.Settled? ==>
          chain[i].id != chain[j].id)
  }

  ghost predicate HasLink(e: Engine, id: Id, busy: bool) {
    exists k :: 0 <= k < |e.chain| && e.chain[k].id == id
      && if busy then e.chain[k].phase.Busy? else e.chain[k].phase.Pending?
  }

  ghost predicate RecordOk(e: Engine, id: Id)
    requires id in e.disk && id in e.kinds
  {
    var job := e.disk[id];
    && job.kind == e.kinds[id]
    && (job.status == Receiving ==> job.kind == Upload && id !in e.dismissed)
    && (job.status == Standby ==> job.kind == Copy || job.kind == Move)
    && (job.status == Queued ==> HasLink(e, id, false))
    && (job.status == Running && id !in e.dismissed ==> HasLink(e, id, true))
  }

  predicate UnderWay(s: Status) {
    s == Running || IsCancellation(s)
  }

  /** What a link still to run, or running, may assume about its record. */
  ghost predicate LinkOk(e: Engine, link: Link)
    requires link.id in e.kinds
  {
    match link.phase
    case Settled => true
    case Pending =>
      && (link.id in e.dismissed ==> link.id !in e.disk)
      && (link.id in e.disk ==> e.disk[link.id].status == Queued || e.disk[link.id].status == Cancelled)
    case Busy(tracker, stop) =>
      && tracker.current.kind == e.kinds[link.id]
      && UnderWay(tracker.current.status)
      && (link.id in e.disk ==> UnderWay(e.disk[link.id].status))
      && (e.kinds[link.id] != Upload ==> link.id in e.disk && e.disk[link.id].status != Cancelled)
      && (link.id in e.disk && link.id !in e.dismissed && (stop || IsCancellation(tracker.current.status)) ==>
            IsCancellation(e.disk[link.id].status))
  }

  ghost predicate RequestOk(e: Engine, q: Incoming) {
    && q.id in e.kinds && e.kinds[q.id] == Upload
    && (q.refused && q.id in e.disk && q.id !in e.dismissed ==> IsCancellation(e.disk[q.id].status))
  }

  /** What there is: known operations have a record until they are dismissed. */
  ghost predicate Shaped(e: Engine) {
    && Serial(e.chain)
    && e.disk.Keys <= e.kinds.Keys && e.dismissed <= e.kinds.Keys
    && (forall id :: id in e.kinds && id !in e.dismissed ==> id in e.disk)
    && (forall id :: id in e.dismissed && e.kinds[id] != Upload ==> id !in e.disk)
  }

  ghost predicate RecordsOk(e: Engine)
    requires Shaped(e)
  {
    forall id :: id in e.disk ==> RecordOk(e, id)
  }

  ghost predicate LinksOk(e: Engine) {
    forall k :: 0 <= k < |e.chain| ==> e.chain[k].id in e.kinds && LinkOk(e, e.chain[k])
  }

  ghost predicate RequestsOk(e: Engine) {
    forall r :: r in e.incoming ==> RequestOk(e, e.incoming[r])
  }

  ghost predicate Inv(e: Engine) {
    Shaped(e) && RecordsOk(e) && LinksOk(e) && RequestsOk(e)
  }

  /** Records that are not dismissed stay, keep their kind, and move along the status graph. */
  ghost predicate Follows(e: Engine, f: Engine) {
    && e.kinds.Keys <= f.kinds.Keys && e.dismissed <= f.dismissed
    && (forall id :: id in e.kinds ==> f.kinds[id] == e.kinds[id])
    && (forall id :: id in e.disk && id !in f.dismissed ==>
          id in f.disk && MayBecome(e.disk[id].status, f.disk[id].status))
  }

  function PutRecord(e: Engine, id: Id, job: Job): Engine {
    e.(disk := e.disk[id := job])
  }

  /** Status changes that a handler may make, whatever the worker is doing. */
  ghost predicate HandlerMay(e: Engine, id: Id, status: Status)
    requires id in e.disk && id in e.kinds
  {
    var was := e.disk[id].status;
    || status == was
    || (status == Cancelled && (was == Queued || was == Standby || was == Receiving))
    || (status == Cancelling && was == Running)
    || (status == Cancelled && was == Cancelling && e.kinds[id] == Upload)
    || (status == Cancelled && id in e.dismissed && e.kinds[id] == Upload)
  }

  lemma HandlerKeepsLinks(e: Engine, id: Id, job: Job)
    requires Inv(e) && id in e.disk
    requires job.kind == e.disk[id].kind && HandlerMay(e, id, job.status)
    ensures LinksOk(PutRecord(e, id, job))
  {
    var f := PutRecord(e, id, job);
    forall k | 0 <= k < |f.chain|
      ensures LinkOk(f, f.chain[k])
    {
      assert LinkOk(e, e.chain[k]);
    }
  }

  lemma HandlerKeepsRecords(e: Engine, id: Id, job: Job)
    requires Inv(e) && id in e.disk
    requires job.kind == e.disk[id].kind && HandlerMay(e, id, job.status)
    ensures Shaped(PutRecord(e, id, job)) && RecordsOk(PutRecord(e, id, job))
  {
    var f := PutRecord(e, id, job);
    forall i | i in f.disk
      ensures RecordOk(f, i)
    {
      assert RecordOk(e, i);
      LinksSame(e, f, i);
    }
  }

  lemma HandlerKeepsRequests(e: Engine, id: Id, job: Job)
    requires Inv(e) && id in e.disk
    requires job.kind == e.disk[id].kind && HandlerMay(e, id, job.status)
    ensures RequestsOk(PutRecord(e, id, job))
  {
    var f := PutRecord(e, id, job);
    forall r | r in f.incoming
      ensures RequestOk(f, f.incoming[r])
    {
      assert RequestOk(e, e.incoming[r]);
    }
  }

  lemma HandlerKeeps(e: Engine, id: Id, job: Job)
    requires Inv(e) && id in e.disk
    requires job.kind == e.disk[id].kind && HandlerMay(e, id, job.status)
    ensures Inv(PutRecord(e, id, job)) && Follows(e, PutRecord(e, id, job))
  {
    HandlerKeepsLinks(e, id, job);
    HandlerKeepsRecords(e, id, job);
    HandlerKeepsRequests(e, id, job);
  }

  lemma LinksSame(e: Engine, f: Engine, id: Id)
    requires e.chain == f.chain
    ensures HasLink(e, id, true) == HasLink(f, id, true) && HasLink(e, id, false) == HasLink(f, id, false)
  {
  }

  lemma RequestsKeep(e: Engine, incoming: map<RequestId, Incoming>)
    requires Inv(e)
    requires forall r :: r in incoming ==> RequestOk(e, incoming[r])
    ensures Inv(e.(incoming := incoming)) && Follows(e, e.(incoming := incoming))
  {
    var f := e.(incoming := incoming);
    forall id | id in f.disk
      ensures RecordOk(f, id)
    {
      assert RecordOk(e, id);
      LinksSame(e, f, id);
    }
    forall k | 0 <= k < |f.chain|
      ensures LinkOk(f, f.chain[k])
    {
      assert LinkOk(e, e.chain[k]);
    }
    forall r | r in f.incoming
      ensures RequestOk(f, f.incoming[r])
    {
      assert RequestOk(e, incoming[r]);
    }
  }

  lemma CancelKeeps(e: Engine, id: Id)
    requires Inv(e)
    ensures Inv(DoCancel(e, id)) && Follows(e, DoCancel(e, id))
  {
    if id in e.disk && !IsTerminal(e.disk[id].status) {
      assert RecordOk(e, id);
      var f := DoCancel(e, id);
      HandlerKeeps(e, id, f.disk[id]);
    }
  }

  lemma DismissKeeps(e: Engine, id: Id)
    requires Inv(e)
    ensures Inv(DoDismiss(e, id)) && Follows(e, DoDismiss(e, id))
  {
    if id in e.disk && IsTerminal(e.disk[id].status) {
      var f := DoDismiss(e, id);
      forall k | 0 <= k < |f.chain|
        ensures LinkOk(f, f.chain[k])
      {
        assert LinkOk(e, e.chain[k]);
      }
      forall i | i in f.disk
        ensures RecordOk(f, i)
      {
        assert RecordOk(e, i);
        LinksSame(e, f, i);
      }
      forall r | r in f.incoming
        ensures RequestOk(f, f.incoming[r])
      {
        assert RequestOk(e, e.incoming[r]);
      }
    }
  }

  /** A record that is queued has no link under way. */
  ghost predicate Queueable(e: Engine, id: Id, job: Job) {
    && id in e.disk && job.kind == e.disk[id].kind && job.status == Queued
    && (e.disk[id].status == Receiving || e.disk[id].status == Standby)
  }

  lemma EnqueuedLinks(e: Engine, id: Id, job: Job)
    requires Inv(e) && Queueable(e, id, job)
    ensures var f := Enqueue(PutRecord(e, id, job), id);
      && LinksOk(f)
      && forall k :: 0 <= k < |e.chain| ==>
           f.chain[k] == e.chain[k] && (e.chain[k].phase.Settled? || e.chain[k].id != id)
  {
    var f := Enqueue(PutRecord(e, id, job), id);
    forall k | 0 <= k < |f.chain|
      ensures f.chain[k].id in f.kinds && LinkOk(f, f.chain[k])
      ensures k < |e.chain| ==> f.chain[k] == e.chain[k] && (e.chain[k].phase.Settled? || e.chain[k].id != id)
    {
      assert RecordOk(e, id);
      if k < |e.chain| {
        assert LinkOk(e, e.chain[k]);
      }
    }
  }

  lemma EnqueuedShape(e: Engine, id: Id, job: Job)
    requires Inv(e) && Queueable(e, id, job)
    ensures Shaped(Enqueue(PutRecord(e, id, job), id))
  {
    EnqueuedLinks(e, id, job);
  }

  lemma EnqueuedRecords(e: Engine, id: Id, job: Job)
    requires Inv(e) && Queueable(e, id, job) && Shaped(Enqueue(PutRecord(e, id, job), id))
    ensures RecordsOk(Enqueue(PutRecord(e, id, job), id))
  {
    var f := Enqueue(PutRecord(e, id, job), id);
    assert f.chain[|e.chain|] == Link(id, Pending);
    forall i | i in f.disk
      ensures RecordOk(f, i)
    {
      assert RecordOk(e, i);
      LinksGrow(e, f, i);
    }
  }

  lemma EnqueuedRequests(e: Engine, id: Id, job: Job)
    requires Inv(e) && Queueable(e, id, job)
    ensures RequestsOk(Enqueue(PutRecord(e, id, job), id))
  {
    var f := Enqueue(PutRecord(e, id, job), id);
    forall r | r in f.incoming
      ensures RequestOk(f, f.incoming[r])
    {
      assert RequestOk(e, e.incoming[r]);
    }
  }

  lemma EnqueueKeeps(e: Engine, id: Id, job: Job)
    requires Inv(e) && Queueable(e, id, job)
    ensures var f := Enqueue(PutRecord(e, id, job), id);
      Inv(f) && Follows(e, f)
  {
    EnqueuedLinks(e, id, job);
    EnqueuedShape(e, id, job);
    EnqueuedRecords(e, id, job);
    EnqueuedRequests(e, id, job);
  }

  lemma LinksGrow(e: Engine, f: Engine, id: Id)
    requires e.chain <= f.chain
    ensures HasLink(e, id, true) ==> HasLink(f, id, true)
    ensures HasLink(e, id, false) ==> HasLink(f, id, false)
  {
    assert forall k :: 0 <= k < |e.chain| ==> f.chain[k] == e.chain[k];
  }

  lemma ResolveKeeps(e: Engine, id: Id, d: Decision)
    requires Inv(e)
    ensures Inv(DoResolve(e, id, d)) && Follows(e, DoResolve(e, id, d))
  {
    if id in e.disk && Resolvable(e.disk[id], d) {
      EnqueueKeeps(e, id, DoResolve(e, id, d).disk[id]);
    }
  }

  lemma FinalizeKeeps(e: Engine, id: Id)
    requires Inv(e)
    ensures Inv(DoFinalize(e, id)) && Follows(e, DoFinalize(e, id))
  {
    if DoFinalize(e, id) != e {
      EnqueueKeeps(e, id, e.disk[id].(status := Queued));
    }
  }

  lemma CreateKeeps(e: Engine, id: Id, job: Job)
    requires Inv(e)
    ensures Inv(Apply(e, CreateTransfer(id, job))) && Follows(e, Apply(e, CreateTransfer(id, job)))
    ensures Inv(Apply(e, CreateUpload(id, job))) && Follows(e, Apply(e, CreateUpload(id, job)))
  {
    if id !in e.kinds {
      CreatedOk(e, Apply(e, CreateTransfer(id, job)), id);
      CreatedOk(e, Apply(e, CreateUpload(id, job)), id);
    }
  }

  /** A record has been made for a new operation, and a transfer has been queued. */
  ghost predicate Created(e: Engine, f: Engine, id: Id) {
    && id !in e.kinds && id in f.disk
    && f == e.(disk := e.disk[id := f.disk[id]], kinds := e.kinds[id := f.disk[id].kind], chain := f.chain)
    && ((f.disk[id].status == Queued && f.disk[id].kind != Upload && f.chain == e.chain + [Link(id, Pending)])
        || (f.disk[id].status == Receiving && f.disk[id].kind == Upload && f.chain == e.chain))
  }

  lemma CreatedOk(e: Engine, f: Engine, id: Id)
    requires Inv(e) && (f == e || Created(e, f, id))
    ensures Inv(f) && Follows(e, f)
  {
    if f != e {
      CreatedLinks(e, f, id);
      CreatedShape(e, f, id);
      CreatedRecords(e, f, id);
      CreatedRequests(e, f, id);
    }
  }

  lemma CreatedLinks(e: Engine, f: Engine, id: Id)
    requires Inv(e) && Created(e, f, id)
    ensures LinksOk(f)
    ensures forall k :: 0 <= k < |e.chain| ==> f.chain[k] == e.chain[k] && e.chain[k].id != id
  {
    forall k | 0 <= k < |f.chain|
      ensures f.chain[k].id in f.kinds && LinkOk(f, f.chain[k])
      ensures k < |e.chain| ==> f.chain[k] == e.chain[k] && e.chain[k].id != id
    {
      if k < |e.chain| {
        assert LinkOk(e, e.chain[k]);
      }
    }
  }

  lemma CreatedShape(e: Engine, f: Engine, id: Id)
    requires Inv(e) && Created(e, f, id)
    ensures Shaped(f)
  {
    CreatedLinks(e, f, id);
  }

  lemma CreatedRecords(e: Engine, f: Engine, id: Id)
    requires Inv(e) && Created(e, f, id) && Shaped(f)
    ensures RecordsOk(f)
  {
    forall i | i in f.disk
      ensures RecordOk(f, i)
    {
      if i != id {
        assert RecordOk(e, i);
        LinksGrow(e, f, i);
      } else if f.disk[id].status == Queued {
        assert f.chain[|e.chain|] == Link(id, Pending);
      }
    }
  }

  lemma CreatedRequests(e: Engine, f: Engine, id: Id)
    requires Inv(e) && Created(e, f, id)
    ensures RequestsOk(f)
  {
    forall r | r in f.incoming
      ensures RequestOk(f, f.incoming[r])
    {
      assert RequestOk(e, e.incoming[r]);
    }
  }

  lemma UploadKeeps(e: Engine, r: RequestId, id: Id, path: string, bytes: nat, write: bool)
    requires Inv(e)
    ensures Inv(DoUploadBegin(e, r, id, path)) && Follows(e, DoUploadBegin(e, r, id, path))
    ensures Inv(DoUploadChunk(e, r, bytes, write)) && Follows(e, DoUploadChunk(e, r, bytes, write))
    ensures Inv(DoUploadBroken(e, r)) && Follows(e, DoUploadBroken(e, r))
  {
    if DoUploadBegin(e, r, id, path) != e {
      assert RecordOk(e, id);
      RequestsKeep(e, e.incoming[r := Incoming(id, path, false)]);
    }
    RequestsKeep(e, e.incoming - {r});
    if r in e.incoming && !e.incoming[r].refused {
      assert RequestOk(e, e.incoming[r]);
      var id := e.incoming[r].id;
      if CancellationRequested(ReadDisk(e, id)) {
        RequestsKeep(e, e.incoming[r := e.incoming[r].(refused := true)]);
      } else if write {
        HandlerKeeps(e, id, DoUploadChunk(e, r, bytes, write).disk[id]);
      }
    }
  }

  lemma RefusedKeeps(e: Engine, r: RequestId)
    requires Inv(e) && r in e.incoming
    requires e.incoming[r].refused || CancellationRequested(ReadDisk(e, e.incoming[r].id))
    ensures Inv(DoUploadRefused(e, r)) && Follows(e, DoUploadRefused(e, r))
  {
    var id := e.incoming[r].id;
    assert RequestOk(e, e.incoming[r]);
    if id in e.disk && e.disk[id].status != Cancelled {
      HandlerKeeps(e, id, e.disk[id].(status := Cancelled));
      var f := WithStatus(e, id, Cancelled);
      RequestsKeep(f, f.incoming - {r});
    } else {
      RequestsKeep(e, e.incoming - {r});
    }
  }

  lemma UploadEndKeeps(e: Engine, r: RequestId)
    requires Inv(e)
    ensures Inv(DoUploadEnd(e, r)) && Follows(e, DoUploadEnd(e, r))
    ensures Inv(DoUploadCatch(e, r)) && Follows(e, DoUploadCatch(e, r))
  {
    if r in e.incoming {
      var id := e.incoming[r].id;
      if e.incoming[r].refused || CancellationRequested(ReadDisk(e, id)) {
        RefusedKeeps(e, r);
      } else {
        var job := WithUploaded(e.disk[id], e.incoming[r].path);
        HandlerKeeps(e, id, job);
        var f := PutRecord(e, id, job);
        RequestsKeep(f, f.incoming - {r});
      }
    }
  }

  /** What one worker step does: maybe write its record, and set the phase of its link. */
  function Update(e: Engine, k: nat, written: Disk, phase: LinkPhase): Engine
    requires k < |e.chain|
  {
    var id := e.chain[k].id;
    SetPhase(if written.Some? then PutRecord(e, id, written.value) else e, k, phase)
  }

  ghost predicate WorkerMay(e: Engine, k: nat, written: Disk, phase: LinkPhase)
    requires Inv(e) && IsBusy(e, k)
  {
    var id := e.chain[k].id;
    && (written.Some? ==>
          && written.value.kind == e.kinds[id]
          && written.value.status != Receiving && written.value.status != Queued
          && (written.value.status == Standby ==> written.value.kind == Copy || written.value.kind == Move)
          && (id !in e.dismissed ==>
                && MayBecome(e.disk[id].status, written.value.status)
                && (IsCancellation(e.disk[id].status) ==> IsCancellation(written.value.status))))
    && (phase.Settled? && id !in e.dismissed ==>
          (if written.Some? then written.value.status else e.disk[id].status) != Running)
    && !phase.Pending?
  }

  lemma WorkerLinks(e: Engine, k: nat, written: Disk, phase: LinkPhase)
    requires Inv(e) && IsBusy(e, k) && WorkerMay(e, k, written, phase)
    requires LinkOk(Update(e, k, written, phase), Link(e.chain[k].id, phase))
    ensures LinksOk(Update(e, k, written, phase))
  {
    var f := Update(e, k, written, phase);
    forall j | 0 <= j < |f.chain|
      ensures f.chain[j].id in f.kinds && LinkOk(f, f.chain[j])
    {
      assert LinkOk(e, e.chain[j]);
      if j != k {
        assert f.chain[j] == e.chain[j];
        assert e.chain[j].phase.Settled? || e.chain[j].id != e.chain[k].id;
      }
    }
  }

  lemma WorkerShape(e: Engine, k: nat, written: Disk, phase: LinkPhase)
    requires Inv(e) && IsBusy(e, k) && WorkerMay(e, k, written, phase)
    ensures Shaped(Update(e, k, written, phase)) && Follows(e, Update(e, k, written, phase))
  {
    assert LinkOk(e, e.chain[k]);
  }

  lemma WorkerRequests(e: Engine, k: nat, written: Disk, phase: LinkPhase)
    requires Inv(e) && IsBusy(e, k) && WorkerMay(e, k, written, phase)
    ensures RequestsOk(Update(e, k, written, phase))
  {
    var f := Update(e, k, written, phase);
    forall r | r in f.incoming
      ensures RequestOk(f, f.incoming[r])
    {
      assert RequestOk(e, e.incoming[r]);
    }
  }

  lemma WorkerKeeps(e: Engine, k: nat, written: Disk, phase: LinkPhase)
    requires Inv(e) && IsBusy(e, k) && WorkerMay(e, k, written, phase)
    requires LinkOk(Update(e, k, written, phase), Link(e.chain[k].id, phase))
    ensures Inv(Update(e, k, written, phase)) && Follows(e, Update(e, k, written, phase))
  {
    var f := Update(e, k, written, phase);
    WorkerLinks(e, k, written, phase);
    WorkerShape(e, k, written, phase);
    WorkerRequests(e, k, written, phase);
    forall i | i in f.disk
      ensures RecordOk(f, i)
    {
      WorkerRecord(e, k, written, phase, i);
    }
  }

  lemma WorkerRecord(e: Engine, k: nat, written: Disk, phase: LinkPhase, i: Id)
    requires Inv(e) && IsBusy(e, k) && WorkerMay(e, k, written, phase)
    requires i in Update(e, k, written, phase).disk
    ensures RecordOk(Update(e, k, written, phase), i)
  {
    var f := Update(e, k, written, phase);
    assert LinkOk(e, e.chain[k]);
    assert forall j :: 0 <= j < |e.chain| && j != k ==> f.chain[j] == e.chain[j];
    if i == e.chain[k].id {
      assert f.chain[k].id == i;
      if i in e.disk {
        assert RecordOk(e, i);
      }
    } else {
      assert RecordOk(e, i);
      OnlyOneBusy(e, k, i);
      if HasLink(e, i, false) {
        var j :| 0 <= j < |e.chain| && e.chain[j].id == i && e.chain[j].phase.Pending?;
        assert f.chain[j] == e.chain[j];
      }
    }
  }

  lemma OnlyOneBusy(e: Engine, k: nat, i: Id)
    requires Serial(e.chain) && IsBusy(e, k) && i != e.chain[k].id
    ensures !HasLink(e, i, true)
  {
  }

  lemma WriteKeeps(e: Engine, k: nat, values: Job, now: Instant, force: bool)
    requires Inv(e)
    ensures Inv(DoWrite(e, k, values, now, force)) && Follows(e, DoWrite(e, k, values, now, force))
  {
    if IsBusy(e, k) {
      var link := e.chain[k];
      assert LinkOk(e, link);
      if link.id in e.disk { assert RecordOk(e, link.id); }
      var current := values.(kind := Current(e, k).kind, status := Current(e, k).status);
      var r := Persist(ReadDisk(e, link.id), link.phase.tracker.(current := current), now, force);
      var phase := Busy(r.1, link.phase.stop);
      assert DoWrite(e, k, values, now, force) == Update(e, k, r.0, phase);
      WorkerKeeps(e, k, r.0, phase);
    }
  }

  lemma RefreshAndCheckKeep(e: Engine, k: nat)
    requires Inv(e)
    ensures Inv(DoRefresh(e, k)) && Follows(e, DoRefresh(e, k))
    ensures Inv(DoCheck(e, k)) && Follows(e, DoCheck(e, k))
  {
    if IsBusy(e, k) {
      var link := e.chain[k];
      assert LinkOk(e, link);
      if link.id in e.disk { assert RecordOk(e, link.id); }
      WorkerKeeps(e, k, None, Busy(AfterRefresh(ReadDisk(e, link.id), link.phase.tracker), link.phase.stop));
      if CancellationRequested(ReadDisk(e, link.id)) {
        WorkerKeeps(e, k, None, link.phase.(stop := true));
      }
    }
  }

  lemma FinishMay(e: Engine, k: nat, values: Job, outcome: Status, now: Instant)
    requires Inv(e) && IsBusy(e, k) && e.chain[k].id in DoFinish(e, k, values, outcome, now).disk
    ensures WorkerMay(e, k, Some(DoFinish(e, k, values, outcome, now).disk[e.chain[k].id]), Settled)
  {
    var link := e.chain[k];
    assert LinkOk(e, link);
    if link.id in e.disk { assert RecordOk(e, link.id); }
  }

  lemma FinishKeeps(e: Engine, k: nat, values: Job, outcome: Status, now: Instant)
    requires Inv(e)
    ensures Inv(DoFinish(e, k, values, outcome, now)) && Follows(e, DoFinish(e, k, values, outcome, now))
  {
    if IsBusy(e, k) {
      FinishIsUpdate(e, k, values, outcome, now);
      FinishMay(e, k, values, outcome, now);
      WorkerKeeps(e, k, Some(DoFinish(e, k, values, outcome, now).disk[e.chain[k].id]), Settled);
    }
  }

  lemma FinishIsUpdate(e: Engine, k: nat, values: Job, outcome: Status, now: Instant)
    requires IsBusy(e, k)
    ensures var f, id := DoFinish(e, k, values, outcome, now), e.chain[k].id;
      id in f.disk && f == Update(e, k, Some(f.disk[id]), Settled)
  {
    var f, id := DoFinish(e, k, values, outcome, now), e.chain[k].id;
    assert f.chain == e.chain[k := Link(id, Settled)];
  }

  lemma PauseSettlesKeeps(e: Engine, k: nat, values: Job, now: Instant)
    requires Inv(e) && IsBusy(e, k) && (Current(e, k).kind == Copy || Current(e, k).kind == Move)
    requires ReadDisk(PauseWritten(e, k, values, now), e.chain[k].id).value.status == Standby
    ensures var f := SetPhase(PauseWritten(e, k, values, now), k, Settled); Inv(f) && Follows(e, f)
  {
    var link := e.chain[k];
    assert LinkOk(e, link);
    assert RecordOk(e, link.id);
    var f := SetPhase(PauseWritten(e, k, values, now), k, Settled);
    var written := Some(f.disk[link.id]);
    assert f.chain == e.chain[k := Link(link.id, Settled)];
    assert f == Update(e, k, written, Settled);
    WorkerKeeps(e, k, written, Settled);
  }

  lemma PauseWriteKeeps(e: Engine, k: nat, values: Job, now: Instant)
    requires Inv(e) && IsBusy(e, k) && (Current(e, k).kind == Copy || Current(e, k).kind == Move)
    requires ReadDisk(PauseWritten(e, k, values, now), e.chain[k].id).value.status != Standby
    ensures Inv(PauseWritten(e, k, values, now)) && Follows(e, PauseWritten(e, k, values, now))
  {
    var link := e.chain[k];
    assert LinkOk(e, link);
    assert RecordOk(e, link.id);
    var paused := PauseWritten(e, k, values, now);
    var written := Some(paused.disk[link.id]);
    assert paused == Update(e, k, written, paused.chain[k].phase);
    WorkerKeeps(e, k, written, paused.chain[k].phase);
  }

  lemma PauseKeeps(e: Engine, k: nat, values: Job, now: Instant)
    requires Inv(e)
    ensures Inv(DoPause(e, k, values, now)) && Follows(e, DoPause(e, k, values, now))
  {
    if DoPause(e, k, values, now) != e {
      var paused := PauseWritten(e, k, values, now);
      if ReadDisk(paused, e.chain[k].id).value.status == Standby {
        PauseSettlesKeeps(e, k, values, now);
      } else {
        PauseWriteKeeps(e, k, values, now);
        FinishKeeps(paused, k, values, Status.Failed, now);
      }
    }
  }

  lemma ThrowKeeps(e: Engine, k: nat)
    requires Inv(e)
    ensures Inv(DoThrow(e, k)) && Follows(e, DoThrow(e, k))
  {
    if IsBusy(e, k) {
      var link := e.chain[k];
      assert LinkOk(e, link);
      if link.id in e.disk {
        assert RecordOk(e, link.id);
        var f := DoThrow(e, k);
        assert f == Update(e, k, Some(f.disk[link.id]), Settled);
        WorkerKeeps(e, k, Some(f.disk[link.id]), Settled);
      } else {
        WorkerKeeps(e, k, None, Settled);
      }
    }
  }

  lemma StartKeeps(e: Engine, k: nat)
    requires Inv(e)
    ensures Inv(DoStart(e, k)) && Follows(e, DoStart(e, k))
  {
    if MayStart(e, k) {
      var f := DoStart(e, k);
      StartedShape(e, k);
      StartedLinks(e, k);
      StartedRequests(e, k);
      forall i | i in f.disk
        ensures RecordOk(f, i)
      {
        StartRecord(e, k, i);
      }
    }
  }

  lemma StartedShape(e: Engine, k: nat)
    requires Inv(e) && MayStart(e, k)
    ensures Shaped(DoStart(e, k)) && Follows(e, DoStart(e, k))
  {
    assert LinkOk(e, e.chain[k]);
  }

  lemma StartedRequests(e: Engine, k: nat)
    requires Inv(e) && MayStart(e, k)
    ensures RequestsOk(DoStart(e, k))
  {
    var f := DoStart(e, k);
    forall r | r in f.incoming
      ensures RequestOk(f, f.incoming[r])
    {
      assert RequestOk(e, e.incoming[r]) && LinkOk(e, e.chain[k]);
    }
  }

  lemma StartedLinks(e: Engine, k: nat)
    requires Inv(e) && MayStart(e, k)
    ensures LinksOk(DoStart(e, k))
  {
    var f, id := DoStart(e, k), e.chain[k].id;
    forall j | 0 <= j < |f.chain|
      ensures f.chain[j].id in f.kinds && LinkOk(f, f.chain[j])
    {
      assert LinkOk(e, e.chain[j]);
      if j != k {
        assert f.chain[j] == e.chain[j];
        assert e.chain[j].phase.Settled? || e.chain[j].id != id;
      } else if id in e.disk {
        assert RecordOk(e, id);
      }
    }
  }

  lemma StartRecord(e: Engine, k: nat, i: Id)
    requires Inv(e) && MayStart(e, k) && i in DoStart(e, k).disk
    ensures RecordOk(DoStart(e, k), i)
  {
    var f := DoStart(e, k);
    assert LinkOk(e, e.chain[k]);
    assert RecordOk(e, i);
    assert forall j :: 0 <= j < |e.chain| && j != k ==> f.chain[j] == e.chain[j];
    if i == e.chain[k].id {
      assert f.chain[k].id == i;
    } else {
      NobodyBusy(e, k, i);
      if HasLink(e, i, false) {
        var j :| 0 <= j < |e.chain| && e.chain[j].id == i && e.chain[j].phase.Pending?;
        assert f.chain[j] == e.chain[j];
      }
    }
  }

  lemma NobodyBusy(e: Engine, k: nat, i: Id)
    requires Inv(e) && MayStart(e, k)
    ensures !HasLink(e, i, true)
  {
  }

  predicate IsWorkerStep(s: Step) {
    s.WorkerStart? || s.WorkerWrite? || s.WorkerRefresh? || s.WorkerCheck? || IsWorkerEnd(s)
  }

  predicate IsWorkerEnd(s: Step) {
    s.WorkerPause? || s.WorkerFinish? || s.WorkerThrow?
  }

  predicate IsRequestStep(s: Step) {
    s.UploadChunk? || s.UploadEnd? || s.UploadCatch? || s.UploadBroken?
  }

  lemma WorkerEndKeeps(e: Engine, s: Step)
    requires Inv(e) && IsWorkerEnd(s)
    ensures Inv(Apply(e, s)) && Follows(e, Apply(e, s))
  {
    match s
    case WorkerPause(k, values, now) => PauseKeeps(e, k, values, now);
    case WorkerFinish(k, values, outcome, now) => FinishKeeps(e, k, values, outcome, now);
    case WorkerThrow(k) => ThrowKeeps(e, k);
  }

  lemma WorkerStepKeeps(e: Engine, s: Step)
    requires Inv(e) && IsWorkerStep(s)
    ensures Inv(Apply(e, s)) && Follows(e, Apply(e, s))
  {
    match s
    case WorkerStart(k) => StartKeeps(e, k);
    case WorkerWrite(k, values, now, force) => WriteKeeps(e, k, values, now, force);
    case WorkerRefresh(k) => RefreshAndCheckKeep(e, k);
    case WorkerCheck(k) => RefreshAndCheckKeep(e, k);
    case _ => WorkerEndKeeps(e, s);
  }

  lemma HandlerStepKeeps(e: Engine, s: Step)
    requires Inv(e) && !IsWorkerStep(s)
    ensures Inv(Apply(e, s)) && Follows(e, Apply(e, s))
  {
    match s
    case CreateTransfer(id, job) => CreateKeeps(e, id, job);
    case CreateUpload(id, job) => CreateKeeps(e, id, job);
    case Cancel(id) => CancelKeeps(e, id);
    case Dismiss(id) => DismissKeeps(e, id);
    case Resolve(id, d) => ResolveKeeps(e, id, d);
    case UploadBegin(r, id, path) => UploadKeeps(e, r, id, path, 0, false);
    case UploadChunk(r, bytes, write) => UploadKeeps(e, r, "", "", bytes, write);
    case UploadEnd(r) => UploadEndKeeps(e, r);
    case UploadCatch(r) => UploadEndKeeps(e, r);
    case UploadBroken(r) => UploadKeeps(e, r, "", "", 0, false);
    case Finalize(id) => FinalizeKeeps(e, id);
  }

  /** Whatever happens next, the invariant holds and records follow the status graph. */
  lemma StepKeeps(e: Engine, s: Step)
    requires Inv(e)
    ensures Inv(Apply(e, s)) && Follows(e, Apply(e, s))
  {
    if IsWorkerStep(s) { WorkerStepKeeps(e, s); } else { HandlerStepKeeps(e, s); }
  }

  /** The state after a whole run from an empty server. */
  function Run(steps: seq<Step>): Engine {
    if steps == [] then EMPTY else Apply(Run(steps[..|steps| - 1]), steps[|steps| - 1])
  }

  lemma {:induction false} RunInvariant(steps: seq<Step>)
    ensures Inv(Run(steps))
  {
    if steps != [] {
      RunInvariant(steps[..|steps| - 1]);
      StepKeeps(Run(steps[..|steps| - 1]), steps[|steps| - 1]);
    }
  }

  /** At any moment of any run one worker at most is at work, and no record has two links ahead. */
  lemma OneWorkerAtATime(steps: seq<Step>, i: nat, j: nat)
    requires i < |Run(steps).chain| && j < |Run(steps).chain| && i != j
    ensures !(Run(steps).chain[i].phase.Busy? && Run(steps).chain[j].phase.Busy?)
    ensures !Run(steps).chain[i].phase.Settled? && !Run(steps).chain[j].phase.Settled? ==>
      Run(steps).chain[i].id != Run(steps).chain[j].id
  {
    RunInvariant(steps);
  }

  /** Until it is dismissed, a record that has reached a final status keeps it, and one that has
      been asked to stop never gets out of it, whatever a worker still writes. */
  lemma {:induction false} CancellationSticks(steps: seq<Step>, n: nat, id: Id)
    requires n <= |steps| && id in Run(steps[..n]).disk && id !in Run(steps).dismissed
    ensures id in Run(steps).disk
    ensures IsCancellation(Run(steps[..n]).disk[id].status) ==> IsCancellation(Run(steps).disk[id].status)
    ensures IsTerminal(Run(steps[..n]).disk[id].status) ==>
      Run(steps).disk[id].status == Run(steps[..n]).disk[id].status
    decreases |steps|
  {
    if n == |steps| {
      assert steps[..n] == steps;
    } else {
      var front := steps[..|steps| - 1];
      assert front[..n] == steps[..n];
      RunInvariant(front);
      StepKeeps(Run(front), steps[|steps| - 1]);
      assert id !in Run(front).dismissed;
      CancellationSticks(front, n, id);
    }
  }

  /** A dismissed copy, move or delete never comes back. */
  lemma {:induction false} DismissedStaysAway(steps: seq<Step>, n: nat, id: Id)
    requires n <= |steps| && id in Run(steps[..n]).dismissed
    requires id in Run(steps[..n]).kinds && Run(steps[..n]).kinds[id] != Upload
    ensures id !in Run(steps).disk
  {
    StaysDismissed(steps, n, id);
    RunInvariant(steps);
  }

  lemma {:induction false} StaysDismissed(steps: seq<Step>, n: nat, id: Id)
    requires n <= |steps| && id in Run(steps[..n]).dismissed
    ensures id in Run(steps).dismissed
    ensures id in Run(steps[..n]).kinds && id in Run(steps).kinds
    ensures Run(steps).kinds[id] == Run(steps[..n]).kinds[id]
    decreases |steps|
  {
    RunInvariant(steps[..n]);
    if n == |steps| {
      assert steps[..n] == steps;
    } else {
      var front := steps[..|steps| - 1];
      assert front[..n] == steps[..n];
      StaysDismissed(front, n, id);
      RunInvariant(front);
      StepKeeps(Run(front), steps[|steps| - 1]);
    }
  }

  /** A worker step touches no more than its own record and its own link. */
  lemma WorkerTouches(e: Engine, s: Step) returns (written: Disk, phase: LinkPhase)
    requires IsWorkerStep(s)
    ensures Apply(e, s) == e
      || (s.link < |e.chain| && !e.chain[s.link].phase.Settled? && Apply(e, s) == Update(e, s.link, written, phase))
  {
    written, phase := None, Settled;
    if s.link < |e.chain| {
      written, phase := ReadDisk(Apply(e, s), e.chain[s.link].id), TouchedPhase(e, s);
      if Apply(e, s) != e {
        if IsWorkerEnd(s) { WorkerEndTouches(e, s); } else { WorkerGoesOn(e, s); }
      }
    }
  }

  lemma WorkerGoesOn(e: Engine, s: Step)
    requires IsWorkerStep(s) && !IsWorkerEnd(s) && s.link < |e.chain| && Apply(e, s) != e
    ensures !e.chain[s.link].phase.Settled?
    ensures Apply(e, s) == Update(e, s.link, ReadDisk(Apply(e, s), e.chain[s.link].id), TouchedPhase(e, s))
  {
    assert Apply(e, s).chain == e.chain[s.link := Link(e.chain[s.link].id, TouchedPhase(e, s))];
  }

  lemma PauseTouches(e: Engine, k: nat, values: Job, now: Instant)
    requires k < |e.chain| && DoPause(e, k, values, now) != e
    ensures var f, id := DoPause(e, k, values, now), e.chain[k].id;
      e.chain[k].phase.Busy? && id in f.disk && f == Update(e, k, Some(f.disk[id]), Settled)
  {
    var f := DoPause(e, k, values, now);
    assert f.chain == e.chain[k := Link(e.chain[k].id, Settled)];
  }

  lemma WorkerEndTouches(e: Engine, s: Step)
    requires IsWorkerEnd(s) && s.link < |e.chain| && Apply(e, s) != e
    ensures e.chain[s.link].phase.Busy?
    ensures Apply(e, s) == Update(e, s.link, ReadDisk(Apply(e, s), e.chain[s.link].id), TouchedPhase(e, s))
  {
    match s
    case WorkerPause(k, values, now) => PauseTouches(e, k, values, now);
    case WorkerFinish(k, values, outcome, now) => FinishIsUpdate(e, k, values, outcome, now);
    case WorkerThrow(k) => assert DoThrow(e, k).chain == e.chain[k := Link(e.chain[k].id, Settled)];
  }

  lemma TouchedPhaseHolds(e: Engine, s: Step)
    requires IsWorkerStep(s) && s.link < |e.chain|
    ensures |Apply(e, s).chain| == |e.chain|
  {
  }

  function TouchedPhase(e: Engine, s: Step): LinkPhase
    requires IsWorkerStep(s) && s.link < |e.chain|
  {
    TouchedPhaseHolds(e, s);
    Apply(e, s).chain[s.link].phase
  }

  /** A worker step leaves the records of other links alone. */
  lemma WorkerElsewhere(e: Engine, s: Step, id: Id)
    requires IsWorkerStep(s)
    requires s.link < |e.chain| ==> e.chain[s.link].id != id || e.chain[s.link].phase.Settled?
    ensures ReadDisk(Apply(e, s), id) == ReadDisk(e, id)
  {
    var written, phase := WorkerTouches(e, s);
  }

  /** A dismissed record reappears exactly when a worker that is still finalizing it writes again. */
  lemma ReappearsByItsWorker(e: Engine, s: Step, id: Id)
    requires Inv(e) && id in e.dismissed && id !in e.disk
    ensures id in Apply(e, s).disk <==>
      && (s.WorkerWrite? || s.WorkerFinish?) && IsBusy(e, s.link) && e.chain[s.link].id == id
      && (s.WorkerWrite? ==> s.force || s.now - e.chain[s.link].phase.tracker.lastWriteAt >= WRITE_INTERVAL_MS)
  {
    if IsRequestStep(s) {
      RequestsCreateNothing(e, s, id);
    } else if IsWorkerStep(s) {
      if s.link < |e.chain| && e.chain[s.link].id == id {
        assert LinkOk(e, e.chain[s.link]);
      } else {
        WorkerElsewhere(e, s, id);
      }
    }
  }

  lemma RequestsCreateNothing(e: Engine, s: Step, id: Id)
    requires IsRequestStep(s) && id !in e.disk
    ensures id !in Apply(e, s).disk
  {
  }

  lemma RunPrefix(steps: seq<Step>, n: nat)
    requires n < |steps|
    ensures Run(steps[..n + 1]) == Apply(Run(steps[..n]), steps[n])
  {
    assert steps[..n + 1][..n] == steps[..n];
  }

  lemma TwoMoreSteps(steps: seq<Step>, n: nat, e: Engine, first: Step, second: Step)
    requires n + 2 <= |steps| && Run(steps[..n]) == e && steps[n] == first && steps[n + 1] == second
    ensures Run(steps[..n + 2]) == Apply(Apply(e, first), second)
  {
    RunPrefix(steps, n);
    RunPrefix(steps, n + 1);
  }

  function OneFile(path: string): Job {
    NewUpload([], [ManifestEntry(path, 0)])
  }

  /** Two requests carry the same file; the second outlives its operation's cancellation, is
      refused, and marks the operation cancelled under the worker, so that it can be dismissed
      and then written back. */
  function ResurrectingRun(id: Id, path: string, now: Instant): seq<Step> {
    var upload := OneFile(path);
    [CreateUpload(id, upload), UploadBegin(0, id, path), UploadBegin(1, id, path), UploadEnd(0), Finalize(id),
     WorkerStart(0), Cancel(id), UploadEnd(1), Dismiss(id), WorkerFinish(0, upload, Success, now)]
  }

  /** The record while both requests send its only file. */
  function BothReceiving(id: Id, path: string): Engine {
    EMPTY.(disk := map[id := OneFile(path)], kinds := map[id := Upload],
           incoming := map[0 := Incoming(id, path, false), 1 := Incoming(id, path, false)])
  }

  lemma BothSending(id: Id, path: string, now: Instant)
    ensures Run(ResurrectingRun(id, path, now)[..3]) == BothReceiving(id, path)
  {
    var steps := ResurrectingRun(id, path, now);
    RunPrefix(steps, 0);
    RunPrefix(steps, 1);
    RunPrefix(steps, 2);
    var e := Run(steps[..1]);
    assert steps[..0] == [];
    assert e == EMPTY.(disk := map[id := OneFile(path)], kinds := map[id := Upload]);
    assert OneFile(path).manifest[0].relativePath == path;
  }

  lemma FirstStored(id: Id, path: string)
    ensures var e := DoUploadEnd(BothReceiving(id, path), 0);
      && id in e.disk && e.disk[id] == WithUploaded(OneFile(path), path) && e.chain == []
      && 1 in e.incoming && e.incoming[1] == Incoming(id, path, false)
  {
  }

  lemma FirstFinalized(e: Engine, id: Id, path: string)
    requires id in e.disk && e.disk[id] == WithUploaded(OneFile(path), path) && e.chain == []
    ensures var f := DoFinalize(e, id);
      && id in f.disk && f.disk[id].status == Queued && f.disk[id].kind == Upload
      && f.chain == [Link(id, Pending)] && f.incoming == e.incoming
  {
  }

  lemma FirstStoredAndFinalized(id: Id, path: string) returns (e: Engine)
    ensures e == DoFinalize(DoUploadEnd(BothReceiving(id, path), 0), id)
    ensures id in e.disk && e.disk[id].status == Queued && e.disk[id].kind == Upload
    ensures e.chain == [Link(id, Pending)] && 1 in e.incoming && e.incoming[1] == Incoming(id, path, false)
  {
    var stored := DoUploadEnd(BothReceiving(id, path), 0);
    FirstStored(id, path);
    FirstFinalized(stored, id, path);
    e := DoFinalize(stored, id);
  }

  lemma FirstDelivered(id: Id, path: string, now: Instant) returns (e: Engine)
    ensures e == Run(ResurrectingRun(id, path, now)[..5])
    ensures id in e.disk && e.disk[id].status == Queued && e.disk[id].kind == Upload
    ensures e.chain == [Link(id, Pending)] && 1 in e.incoming && e.incoming[1] == Incoming(id, path, false)
  {
    var steps := ResurrectingRun(id, path, now);
    BothSending(id, path, now);
    e := FirstStoredAndFinalized(id, path);
    TwoMoreSteps(steps, 3, BothReceiving(id, path), UploadEnd(0), Finalize(id));
  }

  lemma StartedAndAskedToStop(e: Engine, id: Id)
    requires id in e.disk && e.disk[id].status == Queued && e.disk[id].kind == Upload && e.chain == [Link(id, Pending)]
    ensures var f := DoCancel(DoStart(e, 0), id);
      && id in f.disk && f.disk[id].status == Cancelling && IsBusy(f, 0) && f.chain[0].id == id
      && f.incoming == e.incoming
  {
    assert DoStart(e, 0).disk[id].status == Running;
  }

  lemma AskedToStopMidway(id: Id, path: string, now: Instant) returns (e: Engine)
    ensures e == Run(ResurrectingRun(id, path, now)[..7])
    ensures id in e.disk && e.disk[id].status == Cancelling && IsBusy(e, 0) && e.chain[0].id == id
    ensures 1 in e.incoming && e.incoming[1] == Incoming(id, path, false)
  {
    var steps := ResurrectingRun(id, path, now);
    e := FirstDelivered(id, path, now);
    StartedAndAskedToStop(e, id);
    RunPrefix(steps, 5);
    RunPrefix(steps, 6);
    e := DoCancel(DoStart(e, 0), id);
  }

  lemma CancelledMidway(id: Id, path: string, now: Instant) returns (e: Engine)
    ensures e == Run(ResurrectingRun(id, path, now)[..8])
    ensures id in e.disk && e.disk[id].status == Cancelled && IsBusy(e, 0) && e.chain[0].id == id
  {
    e := AskedToStopMidway(id, path, now);
    RunPrefix(ResurrectingRun(id, path, now), 7);
    e := DoUploadEnd(e, 1);
  }

  lemma DismissedUploadReturns(id: Id, path: string, now: Instant)
    ensures id in Run(ResurrectingRun(id, path, now)).dismissed
    ensures id in Run(ResurrectingRun(id, path, now)).disk
  {
    var steps := ResurrectingRun(id, path, now);
    var e := CancelledMidway(id, path, now);
    RunPrefix(steps, 8);
    RunPrefix(steps, 9);
    assert steps[..10] == steps;
  }

  /** While a transfer's worker is at work, no other code does more to its record than ask it to
      stop: what FsTransfer assumes at every `await`. */
  lemma OthersOnlyAskToStop(e: Engine, k: nat, s: Step)
    requires Inv(e) && IsBusy(e, k) && e.kinds[e.chain[k].id] != Upload
    requires IsWorkerStep(s) ==> s.link != k
    ensures Interference(ReadDisk(e, e.chain[k].id), ReadDisk(Apply(e, s), e.chain[k].id))
  {
    var id := e.chain[k].id;
    assert LinkOk(e, e.chain[k]) && RecordOk(e, id);
    if IsWorkerStep(s) {
      OtherLinks(e, k, s.link);
      WorkerElsewhere(e, s, id);
    } else if IsRequestStep(s) {
      RequestElsewhere(e, id, s);
    } else {
      HandlersOnlyAskToStop(e, id, s);
    }
  }

  lemma OtherLinks(e: Engine, k: nat, j: nat)
    requires Serial(e.chain) && IsBusy(e, k) && j != k
    ensures j < |e.chain| ==> e.chain[j].id != e.chain[k].id || e.chain[j].phase.Settled?
  {
  }

  lemma HandlersOnlyAskToStop(e: Engine, id: Id, s: Step)
    requires id in e.disk && id in e.kinds && !IsWorkerStep(s) && !IsRequestStep(s)
    requires e.disk[id].status == Running || e.disk[id].status == Cancelling
    ensures Interference(ReadDisk(e, id), ReadDisk(Apply(e, s), id))
  {
  }

  /** The worker of a copy, move or delete that has been asked to stop. */
  ghost predicate Stopping(e: Engine, k: nat) {
    && IsBusy(e, k) && e.chain[k].id in e.disk && e.disk[e.chain[k].id].status == Cancelling
  }

  ghost predicate StillCancelling(e: Engine, id: Id) {
    id in e.disk && e.disk[id].status == Cancelling
  }

  lemma PersistKeepsCancelling(e: Engine, k: nat, current: Job, now: Instant, force: bool)
    requires Stopping(e, k)
    ensures StillCancelling(PersistLink(e, k, current, now, force), e.chain[k].id)
    ensures IsBusy(PersistLink(e, k, current, now, force), k)
    ensures PersistLink(e, k, current, now, force).chain[k].id == e.chain[k].id
  {
  }

  lemma FinishKeepsCancelling(e: Engine, k: nat, values: Job, outcome: Status, now: Instant)
    requires Stopping(e, k)
    ensures StillCancelling(DoFinish(e, k, values, outcome, now), e.chain[k].id)
  {
  }

  lemma PauseKeepsCancelling(e: Engine, k: nat, values: Job, now: Instant)
    requires Stopping(e, k)
    ensures StillCancelling(DoPause(e, k, values, now), e.chain[k].id)
  {
    PersistKeepsCancelling(e, k, values.(kind := Current(e, k).kind, status := Standby), now, true);
    FinishKeepsCancelling(PauseWritten(e, k, values, now), k, values, Status.Failed, now);
  }

  /** A worker that writes, refreshes, pauses or winds up leaves `cancelling` as it finds it. */
  lemma OwnWorkerKeepsCancelling(e: Engine, k: nat, s: Step)
    requires Stopping(e, k) && IsWorkerStep(s) && s.link == k && !s.WorkerThrow?
    ensures StillCancelling(Apply(e, s), e.chain[k].id)
  {
    match s
    case WorkerWrite(_, values, now, force) =>
      PersistKeepsCancelling(e, k, values.(kind := Current(e, k).kind, status := Current(e, k).status), now, force);
    case WorkerPause(_, values, now) => PauseKeepsCancelling(e, k, values, now);
    case WorkerFinish(_, values, outcome, now) => FinishKeepsCancelling(e, k, values, outcome, now);
    case _ => ReadingKeepsDisk(e, s);
  }

  lemma ReadingKeepsDisk(e: Engine, s: Step)
    requires (s.WorkerStart? && IsBusy(e, s.link)) || s.WorkerRefresh? || s.WorkerCheck?
    ensures Apply(e, s).disk == e.disk
  {
  }

  lemma CancellingNotPending(e: Engine, k: nat)
    requires Inv(e) && k < |e.chain| && !IsBusy(e, k)
    requires e.chain[k].id in e.disk && e.disk[e.chain[k].id].status == Cancelling
    ensures e.chain[k].phase.Settled?
  {
    assert LinkOk(e, e.chain[k]);
  }

  lemma OtherWorkersKeepCancelling(e: Engine, id: Id, s: Step)
    requires Inv(e) && id in e.disk && e.disk[id].status == Cancelling && IsWorkerStep(s)
    requires !(IsBusy(e, s.link) && e.chain[s.link].id == id)
    ensures ReadDisk(Apply(e, s), id) == ReadDisk(e, id)
  {
    if s.link < |e.chain| && e.chain[s.link].id == id {
      CancellingNotPending(e, s.link);
    }
    WorkerElsewhere(e, s, id);
  }

  /** Which step finishes the cancellation of a copy, move or delete that is under way: an error that
      its worker does not catch, and nothing else. */
  lemma CancellationFinishedExactly(e: Engine, id: Id, s: Step)
    requires Inv(e) && id in e.disk && e.kinds[id] != Upload && e.disk[id].status == Cancelling
    ensures id in Apply(e, s).disk
    ensures Apply(e, s).disk[id].status == Cancelled <==>
      s.WorkerThrow? && IsBusy(e, s.link) && e.chain[s.link].id == id
  {
    if IsWorkerStep(s) {
      if IsBusy(e, s.link) && e.chain[s.link].id == id {
        if !s.WorkerThrow? {
          OwnWorkerKeepsCancelling(e, s.link, s);
        }
      } else {
        OtherWorkersKeepCancelling(e, id, s);
      }
    } else if IsRequestStep(s) {
      RequestElsewhere(e, id, s);
    } else {
      HandlersOnlyAskToStop(e, id, s);
    }
  }

  /** Asked to stop, wound up, and stranded: no worker is left to finish the cancellation. */
  ghost predicate Stranded(e: Engine, id: Id) {
    && id in e.disk && id in e.kinds && id !in e.dismissed && e.kinds[id] != Upload
    && e.disk[id].status == Cancelling
    && !HasLink(e, id, true) && !HasLink(e, id, false)
  }

  /** A worker that notices a cancellation writes `cancelled`, but its own write takes over the
      `cancelling` it finds on disk. */
  lemma CancellationStrands(e: Engine, k: nat, values: Job, outcome: Status, now: Instant)
    requires Inv(e) && IsBusy(e, k)
    requires var id := e.chain[k].id; e.kinds[id] != Upload && id in e.disk && e.disk[id].status == Cancelling
    ensures Stranded(DoFinish(e, k, values, outcome, now), e.chain[k].id)
  {
    var id := e.chain[k].id;
    assert LinkOk(e, e.chain[k]);
    FinishKeeps(e, k, values, outcome, now);
    var f := DoFinish(e, k, values, outcome, now);
    forall j | 0 <= j < |f.chain| && f.chain[j].id == id
      ensures f.chain[j].phase.Settled?
    {
      assert e.chain[j].id == id;
    }
  }

  /** It then stays `cancelling` for good: it can be neither finished nor dismissed. */
  lemma StrandedForGood(e: Engine, id: Id, s: Step)
    requires Inv(e) && Stranded(e, id)
    ensures Stranded(Apply(e, s), id)
  {
    if IsWorkerStep(s) {
      var written, phase := WorkerTouches(e, s);
      if Apply(e, s) != e {
        StrandedElsewhere(e, id, s.link, written, phase);
      }
    } else {
      StrandedHandlers(e, id, s);
    }
  }

  lemma StrandedElsewhere(e: Engine, id: Id, k: nat, written: Disk, phase: LinkPhase)
    requires Stranded(e, id) && k < |e.chain| && !e.chain[k].phase.Settled?
    ensures Stranded(Update(e, k, written, phase), id)
  {
    StillNoLink(e, Update(e, k, written, phase), id);
  }

  lemma StillNoLink(e: Engine, f: Engine, id: Id)
    requires !HasLink(e, id, true) && !HasLink(e, id, false)
    requires forall j :: 0 <= j < |f.chain| && f.chain[j].id == id ==> j < |e.chain| && f.chain[j] == e.chain[j]
    ensures !HasLink(f, id, true) && !HasLink(f, id, false)
  {
  }

  lemma StrandedHandlers(e: Engine, id: Id, s: Step)
    requires Inv(e) && Stranded(e, id) && !IsWorkerStep(s)
    ensures Stranded(Apply(e, s), id)
  {
    if IsRequestStep(s) {
      RequestElsewhere(e, id, s);
      StillNoLink(e, Apply(e, s), id);
    } else {
      HandlerAgainstStranded(e, id, s);
    }
  }

  lemma HandlerAgainstStranded(e: Engine, id: Id, s: Step)
    requires Inv(e) && Stranded(e, id) && !IsWorkerStep(s) && !IsRequestStep(s)
    ensures Stranded(Apply(e, s), id)
  {
    StillNoLink(e, Apply(e, s), id);
  }

  /** Only the record of an upload is touched by a request. */
  ghost predicate Elsewhere(e: Engine, f: Engine, id: Id) {
    f.chain == e.chain && f.dismissed == e.dismissed && f.kinds == e.kinds && ReadDisk(f, id) == ReadDisk(e, id)
  }

  lemma RefusedElsewhere(e: Engine, id: Id, r: RequestId)
    requires r in e.incoming && e.incoming[r].id != id
    ensures Elsewhere(e, DoUploadRefused(e, r), id)
  {
  }

  lemma ChunkElsewhere(e: Engine, id: Id, r: RequestId, bytes: nat, write: bool)
    requires r in e.incoming ==> e.incoming[r].id != id
    ensures Elsewhere(e, DoUploadChunk(e, r, bytes, write), id)
  {
  }

  lemma RequestElsewhere(e: Engine, id: Id, s: Step)
    requires Inv(e) && IsRequestStep(s) && id in e.kinds && e.kinds[id] != Upload
    ensures Elsewhere(e, Apply(e, s), id)
  {
    if s.request in e.incoming {
      assert RequestOk(e, e.incoming[s.request]);
      RefusedElsewhere(e, id, s.request);
    }
    if s.UploadChunk? {
      ChunkElsewhere(e, id, s.request, s.bytes, s.write);
    }
  }
}
