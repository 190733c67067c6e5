/** Uploads: what every interleaving keeps while files are still being received, and the browser's
    upload sequence against such a server (dashboard/app/files/filesystem-operations.ts,
    `runFsUploadSequence`; server/src/handlers/files-handlers.js, the upload handlers). */
module FsUpload {
  import opened Options
  import opened FsJob
  import opened FsEngine
  import opened UploadManifest

  predicate NoRepeats(paths: seq<string>) {
    forall i, j :: 0 <= i < j < |paths| ==> paths[i] != paths[j]
  }

  /** The record of an upload while it is receiving. */
  ghost predicate UploadSound(job: Job) {
    && DistinctPaths(job.manifest)
    && job.totalBytes == TotalSize(job.manifest) && job.totalItems == |job.manifest|
    && NoRepeats(job.uploadedFiles) && (forall p :: p in job.uploadedFiles ==> InManifest(job, p))
    && job.processedBytes <= job.totalBytes && job.processedItems == |job.uploadedFiles|
  }

  lemma {:induction false} SizesWithinTotal(manifest: seq<ManifestEntry>, uploaded: seq<string>)
    ensures SumSizes(manifest, uploaded) <= TotalSize(manifest)
    ensures (forall i :: 0 <= i < |manifest| ==> manifest[i].relativePath in uploaded) ==>
      SumSizes(manifest, uploaded) == TotalSize(manifest)
  {
    if manifest != [] {
      SizesWithinTotal(manifest[1..], uploaded);
    }
  }

  function PathSet(manifest: seq<ManifestEntry>): set<string> {
    set i | 0 <= i < |manifest| :: manifest[i].relativePath
  }

  lemma {:induction false} PathSetSize(manifest: seq<ManifestEntry>)
    ensures |PathSet(manifest)| <= |manifest|
  {
    if manifest != [] {
      var front, last := manifest[..|manifest| - 1], manifest[|manifest| - 1];
      PathSetSize(front);
      assert PathSet(manifest) == PathSet(front) + {last.relativePath};
    }
  }

  lemma {:induction false} NoRepeatsSize(paths: seq<string>, all: set<string>)
    requires NoRepeats(paths) && forall p :: p in paths ==> p in all
    ensures |paths| <= |all|
  {
    if paths != [] {
      var front, last := paths[..|paths| - 1], paths[|paths| - 1];
      NoRepeatsSize(front, all - {last});
    }
  }

  /** Storing a file of the manifest: the clamps never cut, nothing is counted twice. */
  lemma StoredSound(job: Job, path: string)
    requires UploadSound(job) && InManifest(job, path)
    ensures var f := WithUploaded(job, path);
      && UploadSound(f) && job.uploadedFiles <= f.uploadedFiles && path in f.uploadedFiles
      && f.manifest == job.manifest && f.processedBytes == SumSizes(f.manifest, f.uploadedFiles)
      && (FullyUploaded(f) ==> f.processedBytes == f.totalBytes)
  {
    var f := WithUploaded(job, path);
    SizesWithinTotal(job.manifest, f.uploadedFiles);
    PathSetSize(job.manifest);
    forall p | p in f.uploadedFiles
      ensures p in PathSet(job.manifest) && InManifest(f, p)
    {
      assert InManifest(job, p);
      var i :| 0 <= i < |job.manifest| && job.manifest[i].relativePath == p;
      assert f.manifest[i].relativePath == p;
    }
    NoRepeatsSize(f.uploadedFiles, PathSet(job.manifest));
  }

  predicate IsReceiving(e: Engine, id: Id) {
    id in e.disk && e.disk[id].status == Receiving
  }

  /** Uploads that are receiving are sound, and requests under way are for files of the manifest. */
  ghost predicate UploadsSound(e: Engine) {
    && (forall id :: IsReceiving(e, id) ==> UploadSound(e.disk[id]))
    && (forall r :: r in e.incoming && IsReceiving(e, e.incoming[r].id) ==>
          InManifest(e.disk[e.incoming[r].id], e.incoming[r].path))
  }

  /** Since then the upload has only been receiving, and only received more. */
  ghost predicate Grown(e: Engine, f: Engine, id: Id) {
    IsReceiving(f, id) ==>
      && IsReceiving(e, id)
      && f.disk[id].manifest == e.disk[id].manifest
      && e.disk[id].uploadedFiles <= f.disk[id].uploadedFiles
  }

  /** Nothing becomes receiving but a new upload. */
  lemma ReceivingBefore(e: Engine, s: Step, id: Id)
    requires Inv(e) && id in e.kinds && IsReceiving(Apply(e, s), id)
    ensures IsReceiving(e, id)
  {
    StepKeeps(e, s);
    ReceivingWas(e, Apply(e, s), id);
  }

  lemma ReceivingWas(e: Engine, f: Engine, id: Id)
    requires Inv(e) && Inv(f) && Follows(e, f) && id in e.kinds && IsReceiving(f, id)
    ensures IsReceiving(e, id)
  {
    assert RecordOk(f, id);
  }

  lemma WorkerLeavesReceiving(e: Engine, s: Step, id: Id)
    requires Inv(e) && IsWorkerStep(s) && IsReceiving(e, id)
    ensures ReadDisk(Apply(e, s), id) == ReadDisk(e, id) && Apply(e, s).incoming == e.incoming
  {
    var written, phase := WorkerTouches(e, s);
    if Apply(e, s) != e {
      NotAtWork(e, s.link, id);
      TouchesElsewhere(e, s.link, written, phase, id);
    }
  }

  lemma NotAtWork(e: Engine, k: nat, id: Id)
    requires Inv(e) && k < |e.chain| && !e.chain[k].phase.Settled? && IsReceiving(e, id)
    ensures e.chain[k].id != id
  {
    assert LinkOk(e, e.chain[k]);
  }

  lemma TouchesElsewhere(e: Engine, k: nat, written: Disk, phase: LinkPhase, id: Id)
    requires k < |e.chain| && e.chain[k].id != id
    ensures var f := Update(e, k, written, phase);
      ReadDisk(f, id) == ReadDisk(e, id) && f.incoming == e.incoming
  {
  }

  /** What one step does to an upload that is receiving before and after it. */
  lemma ReceivingStep(e: Engine, s: Step, id: Id)
    requires Inv(e) && UploadsSound(e) && IsReceiving(e, id) && IsReceiving(Apply(e, s), id)
    ensures UploadSound(Apply(e, s).disk[id]) && Grown(e, Apply(e, s), id)
  {
    if IsWorkerStep(s) {
      WorkerLeavesReceiving(e, s, id);
    } else if IsRequestStep(s) {
      RequestReceives(e, s, id);
    }
  }

  lemma RequestReceives(e: Engine, s: Step, id: Id)
    requires Inv(e) && UploadsSound(e) && IsRequestStep(s) && IsReceiving(e, id) && IsReceiving(Apply(e, s), id)
    ensures UploadSound(Apply(e, s).disk[id]) && Grown(e, Apply(e, s), id)
  {
    match s
    case UploadEnd(r) => EndReceives(e, r, id);
    case UploadChunk(r, bytes, write) => ChunkReceives(e, r, bytes, write, id);
    case UploadCatch(r) => CatchReceives(e, r, id);
    case UploadBroken(r) =>
  }

  lemma EndReceives(e: Engine, r: RequestId, id: Id)
    requires Inv(e) && UploadsSound(e) && IsReceiving(e, id) && IsReceiving(DoUploadEnd(e, r), id)
    ensures UploadSound(DoUploadEnd(e, r).disk[id]) && Grown(e, DoUploadEnd(e, r), id)
  {
    if r in e.incoming && e.incoming[r].id == id {
      StoredSound(e.disk[id], e.incoming[r].path);
    }
  }

  lemma ChunkReceives(e: Engine, r: RequestId, bytes: nat, write: bool, id: Id)
    requires Inv(e) && UploadsSound(e) && IsReceiving(e, id) && IsReceiving(DoUploadChunk(e, r, bytes, write), id)
    ensures UploadSound(DoUploadChunk(e, r, bytes, write).disk[id]) && Grown(e, DoUploadChunk(e, r, bytes, write), id)
  {
    assert forall p :: InManifest(DoUploadChunk(e, r, bytes, write).disk[id], p) == InManifest(e.disk[id], p);
  }

  lemma CatchReceives(e: Engine, r: RequestId, id: Id)
    requires Inv(e) && UploadsSound(e) && IsReceiving(e, id) && IsReceiving(DoUploadCatch(e, r), id)
    ensures UploadSound(DoUploadCatch(e, r).disk[id]) && Grown(e, DoUploadCatch(e, r), id)
  {
  }

  /** Requests under way are still for files of the manifest. */
  lemma RequestsStillListed(e: Engine, s: Step, r: RequestId)
    requires Inv(e) && UploadsSound(e)
    requires r in Apply(e, s).incoming && IsReceiving(Apply(e, s), Apply(e, s).incoming[r].id)
    ensures InManifest(Apply(e, s).disk[Apply(e, s).incoming[r].id], Apply(e, s).incoming[r].path)
  {
    var f := Apply(e, s);
    var q := f.incoming[r];
    StepKeeps(e, s);
    IncomingFrom(e, s, r);
    if r in e.incoming {
      assert RequestOk(e, e.incoming[r]);
      ReceivingBefore(e, s, q.id);
      ReceivingStep(e, s, q.id);
      assert f.disk[q.id].manifest == e.disk[q.id].manifest;
      assert InManifest(e.disk[q.id], q.path);
    }
  }

  lemma IncomingFrom(e: Engine, s: Step, r: RequestId)
    requires r in Apply(e, s).incoming
    ensures r in e.incoming ==>
      Apply(e, s).incoming[r].id == e.incoming[r].id && Apply(e, s).incoming[r].path == e.incoming[r].path
    ensures r !in e.incoming ==>
      s.UploadBegin? && Apply(e, s).disk == e.disk && Apply(e, s).incoming[r] == Incoming(s.id, s.path, false)
      && s.id in e.disk && InManifest(e.disk[s.id], s.path)
  {
    if IsWorkerStep(s) {
      var written, phase := WorkerTouches(e, s);
    }
  }

  /** In every interleaving: while an upload is receiving, its files only grow, inside its manifest,
      without repetition, and it never claims more bytes than it has. */
  lemma UploadsKeep(e: Engine, s: Step)
    requires Inv(e) && UploadsSound(e)
    ensures UploadsSound(Apply(e, s))
    ensures forall id :: id in e.kinds ==> Grown(e, Apply(e, s), id)
  {
    var f := Apply(e, s);
    forall id | id in e.kinds
      ensures Grown(e, f, id) && (IsReceiving(f, id) ==> UploadSound(f.disk[id]))
    {
      if IsReceiving(f, id) {
        ReceivingBefore(e, s, id);
        ReceivingStep(e, s, id);
      }
    }
    forall id | IsReceiving(f, id) && id !in e.kinds
      ensures UploadSound(f.disk[id])
    {
      NewIsFresh(e, s, id);
    }
    forall r | r in f.incoming && IsReceiving(f, f.incoming[r].id)
      ensures InManifest(f.disk[f.incoming[r].id], f.incoming[r].path)
    {
      RequestsStillListed(e, s, r);
    }
  }

  lemma NewIsFresh(e: Engine, s: Step, id: Id)
    requires Inv(e) && id !in e.kinds && IsReceiving(Apply(e, s), id)
    ensures FreshUpload(Apply(e, s).disk[id])
  {
    if IsWorkerStep(s) {
      WorkersKnowTheirs(e, s, id);
    } else if IsRequestStep(s) {
      RequestsCreateNothing(e, s, id);
    }
  }

  lemma WorkersKnowTheirs(e: Engine, s: Step, id: Id)
    requires Inv(e) && id !in e.kinds && IsWorkerStep(s)
    ensures id !in Apply(e, s).disk
  {
    if s.link < |e.chain| { assert LinkOk(e, e.chain[s.link]); }
    WorkerElsewhere(e, s, id);
    assert ReadDisk(e, id) == None;
  }

  lemma {:induction false} RunUploadsSound(steps: seq<Step>)
    ensures Inv(Run(steps)) && UploadsSound(Run(steps))
  {
    RunInvariant(steps);
    if steps != [] {
      var front := steps[..|steps| - 1];
      RunUploadsSound(front);
      UploadsKeep(Run(front), steps[|steps| - 1]);
    }
  }
}
