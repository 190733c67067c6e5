/** The request handlers of filesystem operations (server/src/handlers/files-handlers.js). Each method
    is one stretch of code between two awaits and performs one step of FsEngine; its result is the
    status code of the response, or `PENDING` while the request goes on. */
module FsServer {
  import opened Options
  import opened FsJob
  import opened FsTree
  import opened FsConflict
  import opened FsEngine
  import opened UploadManifest
  import opened UploadListing
  import opened FsUpload

  type Code = nat

  const OK: Code := 200
  const ACCEPTED: Code := 202
  const BAD_REQUEST: Code := 400
  const NOT_FOUND: Code := 404
  const CONFLICT: Code := 409
  const PENDING: Code := 0

  ghost predicate Good(e: Engine) {
    Inv(e) && UploadsSound(e)
  }

  /** Every upload known in `e` has at most grown since. */
  ghost predicate GrownSince(e: Engine, f: Engine) {
    && e.kinds.Keys <= f.kinds.Keys
    && forall id :: id in e.kinds ==> Grown(e, f, id)
  }

  lemma StepIsGood(e: Engine, s: Step)
    requires Good(e)
    ensures Good(Apply(e, s)) && GrownSince(e, Apply(e, s))
  {
    StepKeeps(e, s);
    UploadsKeep(e, s);
  }

  lemma GrownTransitive(e: Engine, f: Engine, g: Engine)
    requires GrownSince(e, f) && GrownSince(f, g)
    ensures GrownSince(e, g)
  {
    forall id | id in e.kinds
      ensures Grown(e, g, id)
    {
      assert Grown(e, f, id) && Grown(f, g, id);
    }
  }

  predicate IsUpload(e: Engine, id: Id) {
    id in e.disk && e.disk[id].kind == Upload
  }

  class FsOperationServer {
    var disk: map<Id, Job>
    var chain: seq<Link>
    var incoming: map<RequestId, Incoming>
    /** Every operation ever created, and those dismissed: what the state directory no longer shows. */
    var kinds: map<Id, Kind>
    var dismissed: set<Id>

    constructor ()
      ensures State() == EMPTY && Good(State())
    {
      disk, chain, incoming, kinds, dismissed := map[], [], map[], map[], {};
    }

    function State(): Engine
      reads this
    {
      Engine(disk, chain, incoming, kinds, dismissed)
    }

    /** Any other step: the worker, or a request that this model does not follow in detail. */
    method Perform(s: Step)
      requires Good(State())
      modifies this
      ensures State() == Apply(old(State()), s) && Good(State()) && GrownSince(old(State()), State())
    {
      StepIsGood(State(), s);
      var e := Apply(State(), s);
      disk, chain, incoming, kinds, dismissed := e.disk, e.chain, e.incoming, e.kinds, e.dismissed;
    }

    method CancelOperation(id: Id) returns (code: Code)
      requires Good(State())
      modifies this`disk
      ensures State() == Apply(old(State()), Cancel(id)) && Good(State()) && GrownSince(old(State()), State())
      ensures code == NOT_FOUND <==> id !in old(disk)
      ensures code == CONFLICT <==>
        id in old(disk) && IsTerminal(old(disk)[id].status) && old(disk)[id].status != Cancelled
      ensures code == OK || code == NOT_FOUND || code == CONFLICT
      ensures code == OK ==>
        var job := old(disk)[id];
        var unstarted :=
          job.status == Queued || job.status == Standby || (job.kind == Upload && job.status == Receiving);
        disk == old(disk)[id := job.(
          status := if unstarted || job.status == Cancelled then Cancelled else Cancelling)]
      ensures code != OK ==> disk == old(disk)
    {
      StepIsGood(State(), Cancel(id));
      if id !in disk {
        return NOT_FOUND;
      }
      var job := disk[id];
      if job.status == Cancelled {
        return OK;
      }
      if IsTerminal(job.status) {
        return CONFLICT;
      }
      if job.status == Queued || job.status == Standby || (job.kind == Upload && job.status == Receiving) {
        disk := disk[id := job.(status := Cancelled)];
        return OK;
      }
      if job.status != Cancelling {
        disk := disk[id := job.(status := Cancelling)];
      }
      code := OK;
    }

    method DismissOperation(id: Id) returns (code: Code)
      requires Good(State())
      modifies this`disk, this`dismissed
      ensures State() == Apply(old(State()), Dismiss(id)) && Good(State()) && GrownSince(old(State()), State())
      ensures code == NOT_FOUND <==> id !in old(disk)
      ensures code == OK <==>
        id in old(disk) && old(disk)[id].status in {Success, Partial, Status.Failed, Cancelled}
      ensures code == OK || code == NOT_FOUND || code == CONFLICT
      ensures disk == if code == OK then old(disk) - {id} else old(disk)
    {
      StepIsGood(State(), Dismiss(id));
      if id !in disk {
        return NOT_FOUND;
      }
      if !IsTerminal(disk[id].status) {
        return CONFLICT;
      }
      disk := disk - {id};
      dismissed := dismissed + {id};
      code := OK;
    }

    method ResolveConflict(id: Id, decision: Decision) returns (code: Code)
      requires Good(State())
      modifies this`disk, this`chain
      ensures State() == Apply(old(State()), Resolve(id, decision))
      ensures Good(State()) && GrownSince(old(State()), State())
      ensures code == NOT_FOUND <==> id !in old(disk)
      ensures id in old(disk) ==> var job := old(disk)[id];
        (code == OK <==>
          && (job.kind == Copy || job.kind == Move) && job.status == Standby && job.conflict.Some?
          && (decision == ReplaceAllDifferent ==> job.conflict.value.relation == Different)
          && (decision == SkipAllSame ==> job.conflict.value.relation == Same))
      ensures code == OK || code == NOT_FOUND || code == CONFLICT
      ensures code == OK ==> var job := old(disk)[id];
        && disk == old(disk)[id := job.(
             conflict := None,
             resolution := match decision {
               case ReplaceOne => Replace
               case ReplaceAllDifferent => Replace
               case SkipOne => Skip
               case SkipAllSame => Skip
             },
             policy := Policy(job.policy.replaceAllDifferentSize || decision == ReplaceAllDifferent,
                              job.policy.skipAllSameSize || decision == SkipAllSame),
             status := Queued)]
        && chain == old(chain) + [Link.Link(id, Pending)]
      ensures code != OK ==> State() == old(State())
    {
      StepIsGood(State(), Resolve(id, decision));
      if id !in disk {
        return NOT_FOUND;
      }
      var job := disk[id];
      if !Resolvable(job, decision) {
        return CONFLICT;
      }
      disk := disk[id := Resumed(job, decision)];
      chain := chain + [Link.Link(id, Pending)];
      code := OK;
    }

    /** `allowed` is the answer of the share checks, `volume` the tree at that moment. */
    method CreateUploadOperation(id: Id, destination: Path, files: seq<ManifestEntry>, allowed: bool, volume: Tree)
      returns (code: Code)
      requires Good(State()) && id !in kinds
      modifies this`disk, this`kinds
      ensures Good(State()) && GrownSince(old(State()), State())
      ensures code == ACCEPTED || code == BAD_REQUEST
      ensures code == BAD_REQUEST <==>
        destination == [] || Nameless(files) || !allowed || !HasDir(volume, destination)
      ensures code == BAD_REQUEST ==> State() == old(State())
      ensures code == ACCEPTED ==>
        && id in kinds && id in disk && Awaits(disk[id], destination, files)
        && disk[id].manifest == Dedupe(Cleaned(files))
        && State() == Apply(old(State()), CreateUpload(id, disk[id]))
    {
      ManifestReady(destination, files);
      var manifest := Cleaned(files);
      if destination == [] {
        return BAD_REQUEST;
      }
      if manifest == [] {
        return BAD_REQUEST;
      }
      if !allowed {
        return BAD_REQUEST;
      }
      if destination !in volume || !volume[destination].Dir? {
        return BAD_REQUEST;
      }
      var deduped := DedupeUploadFiles(manifest);
      var job := NewUpload(destination, deduped);
      UploadCreated(State(), id, job);
      disk := disk[id := job];
      kinds := kinds[id := Upload];
      code := ACCEPTED;
    }

    /** The part of the upload request that precedes the data. */
    method BeginFile(request: RequestId, id: Id, path: string) returns (code: Code)
      requires Good(State()) && request !in incoming
      modifies this`incoming
      ensures Good(State()) && GrownSince(old(State()), State())
      ensures State() ==
        if NormalizeRelativePath(path) == "" then old(State())
        else Apply(old(State()), UploadBegin(request, id, NormalizeRelativePath(path)))
      ensures code == PENDING <==>
        && IsUpload(old(State()), id) && IsReceiving(old(State()), id)
        && NormalizeRelativePath(path) != "" && InManifest(old(disk)[id], NormalizeRelativePath(path))
      ensures code == CONFLICT <==> IsUpload(old(State()), id) && !IsReceiving(old(State()), id)
      ensures code == BAD_REQUEST <==>
        IsUpload(old(State()), id) && IsReceiving(old(State()), id) && NormalizeRelativePath(path) == ""
      ensures code == PENDING || code == CONFLICT || code == BAD_REQUEST || code == NOT_FOUND
      ensures code == PENDING <==> request in incoming
      ensures code == PENDING ==> incoming[request] == Incoming(id, NormalizeRelativePath(path), false) && id in kinds
    {
      var relativePath := NormalizeRelativePath(path);
      StepIsGood(State(), UploadBegin(request, id, relativePath));
      if id !in disk || disk[id].kind != Upload {
        return NOT_FOUND;
      }
      var job := disk[id];
      if job.status == Cancelling || job.status == Cancelled {
        return CONFLICT;
      }
      if job.status != Receiving {
        return CONFLICT;
      }
      if relativePath == "" {
        return BAD_REQUEST;
      }
      if !InManifest(job, relativePath) {
        return NOT_FOUND;
      }
      incoming := incoming[request := Incoming(id, relativePath, false)];
      code := PENDING;
    }

    /** The part that follows it. */
    method EndFile(request: RequestId) returns (code: Code)
      requires Good(State()) && request in incoming && !incoming[request].refused
      modifies this`disk, this`incoming
      ensures State() == Apply(old(State()), UploadEnd(request)) && Good(State()) && GrownSince(old(State()), State())
      ensures request !in incoming
      ensures code == OK ==> var q := old(incoming)[request];
        && q.id in disk && q.id in old(disk) && disk[q.id].status == old(disk)[q.id].status
        && disk[q.id].uploadedFiles ==
             old(disk)[q.id].uploadedFiles + (if q.path in old(disk)[q.id].uploadedFiles then [] else [q.path])
        && !IsCancellation(disk[q.id].status)
      ensures code == OK || code == CONFLICT
      ensures code == CONFLICT <==> var id := old(incoming)[request].id;
        id !in old(disk) || old(disk)[id].status == Cancelling || old(disk)[id].status == Cancelled
      ensures incoming == old(incoming) - {request}
      ensures var q := old(incoming)[request];
        disk ==
          if q.id !in old(disk) then old(disk)
          else if code == CONFLICT then old(disk)[q.id := old(disk)[q.id].(status := Cancelled)]
          else old(disk)[q.id := WithUploaded(old(disk)[q.id], q.path)]
    {
      StepIsGood(State(), UploadEnd(request));
      var q := incoming[request];
      incoming := incoming - {request};
      if q.id !in disk {
        return CONFLICT;
      }
      if IsCancellation(disk[q.id].status) {
        if disk[q.id].status != Cancelled {
          disk := disk[q.id := disk[q.id].(status := Cancelled)];
        }
        return CONFLICT;
      }
      disk := disk[q.id := WithUploaded(disk[q.id], q.path)];
      code := OK;
    }

    /** `missing` lists the manifest's paths that have not arrived. */
    method MissingFiles(job: Job) returns (missing: seq<string>)
      ensures missing == [] <==> FullyUploaded(job)
      ensures forall p :: p in missing <==> InManifest(job, p) && p !in job.uploadedFiles
    {
      missing := [];
      for i := 0 to |job.manifest|
        invariant missing == [] <==> forall k :: 0 <= k < i ==> job.manifest[k].relativePath in job.uploadedFiles
        invariant forall p :: p in missing ==> InManifest(job, p) && p !in job.uploadedFiles
        invariant forall k :: 0 <= k < i && job.manifest[k].relativePath !in job.uploadedFiles ==>
          job.manifest[k].relativePath in missing
      {
        var path := job.manifest[i].relativePath;
        if path !in job.uploadedFiles {
          missing := missing + [path];
        }
      }
    }

    method FinalizeUpload(id: Id) returns (code: Code, missing: seq<string>)
      requires Good(State())
      modifies this`disk, this`chain
      ensures State() == Apply(old(State()), Finalize(id)) && Good(State()) && GrownSince(old(State()), State())
      ensures code == NOT_FOUND <==> !IsUpload(old(State()), id)
      ensures code == CONFLICT <==> IsUpload(old(State()), id) && !IsReceiving(old(State()), id)
      ensures code == BAD_REQUEST <==>
        IsUpload(old(State()), id) && IsReceiving(old(State()), id) && !FullyUploaded(old(disk)[id])
      ensures code == ACCEPTED <==>
        IsUpload(old(State()), id) && IsReceiving(old(State()), id) && FullyUploaded(old(disk)[id])
      ensures code == ACCEPTED ==>
        disk == old(disk)[id := old(disk)[id].(status := Queued)] && chain == old(chain) + [Link.Link(id, Pending)]
      ensures code == BAD_REQUEST ==> missing != [] && forall p :: p in missing <==>
        InManifest(old(disk)[id], p) && p !in old(disk)[id].uploadedFiles
    {
      StepIsGood(State(), Finalize(id));
      missing := [];
      if id !in disk || disk[id].kind != Upload {
        code := NOT_FOUND;
        return;
      }
      var job := disk[id];
      if job.status != Receiving {
        code := CONFLICT;
        return;
      }
      missing := MissingFiles(job);
      if missing != [] {
        code := BAD_REQUEST;
        return;
      }
      disk := disk[id := job.(status := Queued)];
      chain := chain + [Link.Link(id, Pending)];
      code := ACCEPTED;
    }
  }

  /** As long as it is receiving, an upload takes exactly the files that were listed, each under the
      normalized path. */
  lemma TakesWhatWasListed(e: Engine, f: Engine, id: Id, files: seq<ManifestEntry>, path: string)
    requires id in e.kinds && id in e.disk && StoredAs(files, e.disk[id].manifest)
    requires GrownSince(e, f) && IsReceiving(f, id)
    ensures InManifest(f.disk[id], path) <==>
      path != "" && exists i :: 0 <= i < |files| && NormalizeRelativePath(files[i].relativePath) == path
  {
    assert Grown(e, f, id);
    StoredExactly(files, e.disk[id].manifest, path);
  }

  lemma UploadCreated(e: Engine, id: Id, job: Job)
    requires Good(e) && id !in e.kinds && FreshUpload(job)
    ensures var f := e.(disk := e.disk[id := job], kinds := e.kinds[id := Upload]);
      Apply(e, CreateUpload(id, job)) == f && Good(f) && GrownSince(e, f)
  {
    StepIsGood(e, CreateUpload(id, job));
  }

  /** An upload to which nothing has been sent, of exactly the files listed. */
  ghost predicate Awaits(job: Job, destination: Path, files: seq<ManifestEntry>) {
    && StoredAs(files, job.manifest)
    && job.kind == Upload && job.status == Receiving && job.destination == destination
    && job.totalBytes == TotalSize(job.manifest) && job.totalItems == |job.manifest|
    && job.uploadedFiles == [] && job.processedBytes == 0 && job.processedItems == 0
  }

  lemma ManifestReady(destination: Path, files: seq<ManifestEntry>)
    ensures var job := NewUpload(destination, Dedupe(Cleaned(files)));
      Awaits(job, destination, files) && FreshUpload(job) == (Cleaned(files) != [])
    ensures Cleaned(files) == [] <==> Nameless(files)
  {
    var cleaned := Cleaned(files);
    ManifestStored(files);
    EmptyExactly(files, Dedupe(cleaned));
    DedupeKeepsTheLast(cleaned);
    if cleaned != [] {
      assert Put(Dedupe(cleaned[..|cleaned| - 1]), cleaned[|cleaned| - 1]) != [];
    }
  }
}
