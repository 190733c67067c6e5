/** The browser's upload sequence (dashboard/app/files/filesystem-operations.ts,
    `runFsUploadSequence`) against a server that others use at the same time. */
module UploadClient {
  import opened Options
  import opened Sequences
  import opened FsJob
  import opened FsTree
  import opened FsEngine
  import opened UploadManifest
  import opened UploadListing
  import opened FsUpload
  import opened FsServer

  /** What this client sends; a `Put` carries the bytes it says came before the file. */
  datatype Sent = Create | Put(path: string, uploadedBytesBefore: nat) | Finish | Abandon

  /** The part of a reply that the sequence looks at. */
  datatype Operation = Operation(id: Id, processedBytes: nat, uploadedFiles: seq<string>)

  /** If the upload is still receiving, the file with this normalized path has arrived. */
  ghost predicate HasArrived(e: Engine, id: Id, path: string) {
    id in e.kinds && (IsReceiving(e, id) ==> path in e.disk[id].uploadedFiles)
  }

  ghost predicate HasManifest(e: Engine, id: Id, manifest: seq<ManifestEntry>) {
    id in e.kinds && (IsReceiving(e, id) ==> e.disk[id].manifest == manifest)
  }

  lemma ArrivedStays(e: Engine, f: Engine, id: Id, path: string)
    requires GrownSince(e, f) && HasArrived(e, id, path)
    ensures HasArrived(f, id, path)
  {
    assert Grown(e, f, id);
  }

  lemma ManifestStays(e: Engine, f: Engine, id: Id, manifest: seq<ManifestEntry>)
    requires GrownSince(e, f) && HasManifest(e, id, manifest)
    ensures HasManifest(f, id, manifest)
  {
    assert Grown(e, f, id);
  }

  /** Steps that do not end a request of this client. */
  predicate Foreign(s: Step, mine: set<RequestId>) {
    s.UploadEnd? || s.UploadCatch? || s.UploadBroken? ==> s.request !in mine
  }

  lemma RequestStays(e: Engine, s: Step, mine: set<RequestId>, r: RequestId)
    requires Foreign(s, mine) && r in mine && r in e.incoming
    ensures var f := Apply(e, s);
      r in f.incoming && f.incoming[r].id == e.incoming[r].id && f.incoming[r].path == e.incoming[r].path
  {
    if IsWorkerStep(s) {
      var written, phase := WorkerTouches(e, s);
    }
  }

  lemma {:induction false} LongerThanAll(ids: set<string>) returns (n: nat)
    ensures forall id :: id in ids ==> |id| < n
  {
    if ids == {} {
      n := 0;
    } else {
      var id :| id in ids;
      var m := LongerThanAll(ids - {id});
      n := if m <= |id| then |id| + 1 else m;
    }
  }

  lemma {:induction false} GreaterThanAll(numbers: set<nat>) returns (n: nat)
    ensures forall k :: k in numbers ==> k < n
  {
    if numbers == {} {
      n := 0;
    } else {
      var k :| k in numbers;
      var m := GreaterThanAll(numbers - {k});
      n := if m <= k then k + 1 else m;
      assert forall j: nat :: j in numbers ==> j == k || j in numbers - {k};
    }
  }

  class UploadSession {
    const server: FsOperationServer
    ghost var sent: seq<Sent>

    constructor (server: FsOperationServer)
      ensures this.server == server && sent == []
    {
      this.server, sent := server, [];
    }

    /** Meanwhile, anything may happen on the server. */
    method Others(mine: set<RequestId>)
      requires Good(server.State())
      modifies server
      ensures Good(server.State()) && GrownSince(old(server.State()), server.State())
      ensures forall r :: r in mine && r in old(server.incoming) ==>
        r in server.incoming && server.incoming[r].id == old(server.incoming)[r].id
        && server.incoming[r].path == old(server.incoming)[r].path
    {
      var n: nat :| n >= 0;
      while n > 0
        invariant Good(server.State()) && GrownSince(old(server.State()), server.State())
        invariant forall r :: r in mine && r in old(server.incoming) ==>
          r in server.incoming && server.incoming[r].id == old(server.incoming)[r].id
          && server.incoming[r].path == old(server.incoming)[r].path
      {
        var s: Step := *;
        ghost var before := server.State();
        if Foreign(s, mine) {
          forall r | r in mine && r in before.incoming
            ensures r in Apply(before, s).incoming && Apply(before, s).incoming[r].id == before.incoming[r].id
              && Apply(before, s).incoming[r].path == before.incoming[r].path
          {
            RequestStays(before, s, mine, r);
          }
          server.Perform(s);
          GrownTransitive(old(server.State()), before, server.State());
        }
        n := n - 1;
      }
    }

    /** `None` stands for an error, of the server or on the way. */
    method CreateFsOperation(destination: Path, files: seq<ManifestEntry>) returns (reply: Option<Operation>)
      requires Good(server.State())
      modifies this`sent, server
      ensures Good(server.State()) && sent == old(sent) + [Create]
      ensures reply.Some? ==>
        && HasManifest(server.State(), reply.value.id, Dedupe(Cleaned(files)))
        && forall p :: p in reply.value.uploadedFiles ==>
             HasArrived(server.State(), reply.value.id, NormalizeRelativePath(p))
    {
      sent := sent + [Create];
      Others({});
      var lost, lostReply: bool := *, *;
      if lost {
        return None;
      }
      ghost var longer := LongerThanAll(server.kinds.Keys);
      assert seq(longer, _ => 'x') !in server.kinds;
      var id: Id :| id !in server.kinds;
      var volume: Tree, allowed: bool := *, *;
      var code := server.CreateUploadOperation(id, destination, files, allowed, volume);
      if code != ACCEPTED || lostReply {
        return None;
      }
      reply := Some(Operation(id, server.disk[id].processedBytes, server.disk[id].uploadedFiles));
    }

    method UploadFileToOperation(operation: Operation, file: ManifestEntry, uploadedBytesBefore: nat)
      returns (reply: Option<Operation>)
      requires Good(server.State()) && operation.id in server.kinds
      modifies this`sent, server
      ensures Good(server.State()) && GrownSince(old(server.State()), server.State())
      ensures sent == old(sent) + [Put(file.relativePath, uploadedBytesBefore)]
      ensures reply.Some? ==>
        && reply.value.id == operation.id
        && HasArrived(server.State(), operation.id, NormalizeRelativePath(file.relativePath))
    {
      sent := sent + [Put(file.relativePath, uploadedBytesBefore)];
      ghost var path := NormalizeRelativePath(file.relativePath);
      var accepted, request := SendFile(operation.id, file, path);
      if !accepted {
        return None;
      }
      reply := FinishFile(operation.id, request, path);
    }

    method SendFile(id: Id, file: ManifestEntry, ghost path: string) returns (accepted: bool, request: RequestId)
      requires Good(server.State()) && path == NormalizeRelativePath(file.relativePath)
      modifies server
      ensures Good(server.State()) && GrownSince(old(server.State()), server.State())
      ensures accepted ==>
        request in server.incoming && server.incoming[request].id == id && server.incoming[request].path == path
    {
      Others({});
      var lost: bool := *;
      ghost var larger := GreaterThanAll(server.incoming.Keys);
      assert larger !in server.incoming;
      request :| request !in server.incoming;
      if lost {
        return false, request;
      }
      ghost var first := server.State();
      var code := server.BeginFile(request, id, file.relativePath);
      ghost var second := server.State();
      GrownTransitive(old(server.State()), first, second);
      if code != PENDING {
        return false, request;
      }
      Others({request});
      GrownTransitive(old(server.State()), second, server.State());
      accepted := true;
    }

    method FinishFile(id: Id, request: RequestId, ghost path: string) returns (reply: Option<Operation>)
      requires Good(server.State()) && request in server.incoming && server.incoming[request].id == id
      requires server.incoming[request].path == path
      modifies server
      ensures Good(server.State()) && GrownSince(old(server.State()), server.State())
      ensures reply.Some? ==> reply.value.id == id && HasArrived(server.State(), id, path)
    {
      var broken, lostReply: bool := *, *;
      if server.incoming[request].refused {
        server.Perform(UploadCatch(request));
        return None;
      }
      if broken {
        server.Perform(UploadBroken(request));
        return None;
      }
      var code := server.EndFile(request);
      if code != OK || lostReply {
        return None;
      }
      reply := Some(Operation(id, server.disk[id].processedBytes, server.disk[id].uploadedFiles));
    }

    method FinalizeFsOperation(id: Id) returns (code: Code, ghost before: Engine)
      requires Good(server.State())
      modifies this`sent, server
      ensures sent == old(sent) + [Finish]
      ensures GrownSince(old(server.State()), before)
      ensures code == BAD_REQUEST ==> IsReceiving(before, id) && !FullyUploaded(before.disk[id])
    {
      sent := sent + [Finish];
      Others({});
      before := server.State();
      var missing;
      code, missing := server.FinalizeUpload(id);
    }

    /** Best effort: its outcome is ignored. */
    method CancelFsOperation(id: Id)
      requires Good(server.State())
      modifies this`sent, server
      ensures sent == old(sent) + [Abandon]
    {
      sent := sent + [Abandon];
      Others({});
      var code := server.CancelOperation(id);
    }
  }

  /** A file that is there already is not sent. */
  function PutOf(file: ManifestEntry, skip: seq<string>, before: nat): seq<Sent> {
    if file.relativePath in skip then [] else [Put(file.relativePath, before)]
  }

  /** The sizes of the first `n` files. */
  function SizesOf(files: seq<ManifestEntry>, n: nat): nat
    requires n <= |files|
  {
    if n == 0 then 0 else SizesOf(files, n - 1) + files[n - 1].size
  }

  /** The bytes that come before a file, and those from it on, are all there are. */
  lemma {:induction false} SizesAddUp(files: seq<ManifestEntry>, n: nat)
    requires n <= |files|
    ensures SizesOf(files, n) + TotalSize(files[n..]) == TotalSize(files)
  {
    if n == 0 {
      assert files[0..] == files;
    } else {
      SizesAddUp(files, n - 1);
      assert files[n - 1..][1..] == files[n..];
    }
  }

  /** The uploads of the first `n` files, given what the creation reply says is there already. */
  function PutsOf(files: seq<ManifestEntry>, n: nat, skip: seq<string>, before: nat): seq<Sent>
    requires n <= |files|
  {
    if n == 0 then []
    else PutsOf(files, n - 1, skip, before) + PutOf(files[n - 1], skip, before + SizesOf(files, n - 1))
  }

  datatype Outcome =
    | NothingToDo
    | NotCreated
    | Interrupted(created: Operation, files: nat)
    | Finalized(created: Operation, code: Code)

  /** What has been sent once the operation is over, if `start` was sent before its first file. */
  ghost predicate SentInAll(start: seq<Sent>, sent: seq<Sent>, uploads: seq<ManifestEntry>, outcome: Outcome) {
    match outcome
    case NothingToDo => false
    case NotCreated => false
    case Interrupted(created, n) =>
      && 0 < n <= |uploads|
      && sent == start + (PutsOf(uploads, n, created.uploadedFiles, created.processedBytes) + [Abandon])
    case Finalized(created, code) =>
      && sent == start + (PutsOf(uploads, |uploads|, created.uploadedFiles, created.processedBytes) + [Finish])
      && code != BAD_REQUEST
  }

  /** All that a sequence may send. */
  ghost predicate Script(sent: seq<Sent>, files: seq<ManifestEntry>, outcome: Outcome) {
    if outcome.NothingToDo? then Dedupe(files) == [] && sent == []
    else if outcome.NotCreated? then sent == [Create]
    else SentInAll([Create], sent, Dedupe(files), outcome)
  }

  lemma {:induction false} PutsAreOfFiles(files: seq<ManifestEntry>, n: nat, skip: seq<string>, before: nat)
    requires n <= |files|
    ensures forall put :: put in PutsOf(files, n, skip, before) ==>
      put.Put? && exists k :: 0 <= k < n && files[k].relativePath == put.path
  {
    if n > 0 {
      PutsAreOfFiles(files, n - 1, skip, before);
      assert forall put :: put in PutOf(files[n - 1], skip, before + SizesOf(files, n - 1)) ==>
        put.Put? && files[n - 1].relativePath == put.path;
    }
  }

  /** Uploads only, of different paths. */
  ghost predicate DifferentPuts(puts: seq<Sent>) {
    && (forall i :: 0 <= i < |puts| ==> puts[i].Put?)
    && (forall i, j :: 0 <= i < j < |puts| ==> puts[i].path != puts[j].path)
  }

  lemma OneMorePut(puts: seq<Sent>, put: Sent)
    requires put.Put? && DifferentPuts(puts) && forall p :: p in puts ==> p.path != put.path
    ensures DifferentPuts(puts + [put])
  {
  }

  /** No path is uploaded twice. */
  lemma {:induction false} EachPathOnce(files: seq<ManifestEntry>, n: nat, skip: seq<string>, before: nat)
    requires DistinctPaths(files) && n <= |files|
    ensures DifferentPuts(PutsOf(files, n, skip, before))
  {
    if n > 0 {
      EachPathOnce(files, n - 1, skip, before);
      PutsAreOfFiles(files, n - 1, skip, before);
      var puts := PutsOf(files, n - 1, skip, before);
      OneMorePut(puts, Put(files[n - 1].relativePath, before + SizesOf(files, n - 1)));
      assert puts + [] == puts;
    }
  }

  /** What a whole sequence sends: at most one upload a path; finalizing or cancelling comes last,
      never both. */
  ghost predicate WellOrdered(sent: seq<Sent>) {
    && (forall i, j :: 0 <= i < j < |sent| && sent[i].Put? && sent[j].Put? ==> sent[i].path != sent[j].path)
    && (forall i :: 0 <= i < |sent| && (sent[i].Finish? || sent[i].Abandon?) ==> i == |sent| - 1)
  }

  lemma Surrounded(puts: seq<Sent>, last: Sent)
    requires DifferentPuts(puts) && (last.Finish? || last.Abandon?)
    ensures WellOrdered([Create] + (puts + [last]))
  {
    var sent := [Create] + (puts + [last]);
    assert forall i :: 0 < i < |sent| - 1 ==> sent[i] == puts[i - 1];
  }

  lemma SequenceIsWellOrdered(sent: seq<Sent>, files: seq<ManifestEntry>, outcome: Outcome)
    requires Script(sent, files, outcome)
    ensures WellOrdered(sent)
  {
    var uploads := Dedupe(files);
    DedupeKeepsTheLast(files);
    match outcome
    case NothingToDo =>
    case NotCreated =>
    case Interrupted(created, n) =>
      EachPathOnce(uploads, n, created.uploadedFiles, created.processedBytes);
      Surrounded(PutsOf(uploads, n, created.uploadedFiles, created.processedBytes), Abandon);
    case Finalized(created, code) =>
      EachPathOnce(uploads, |uploads|, created.uploadedFiles, created.processedBytes);
      Surrounded(PutsOf(uploads, |uploads|, created.uploadedFiles, created.processedBytes), Finish);
  }

  /** Every path of the manifest is the normalized path of a listed file. */
  lemma ManifestKeys(uploads: seq<ManifestEntry>)
    ensures forall m :: m in Dedupe(Cleaned(uploads)) ==> m.relativePath in KeysOf(uploads)
  {
    forall m | m in Dedupe(Cleaned(uploads))
      ensures m.relativePath in KeysOf(uploads)
    {
      ManifestStored(uploads);
      assert LastListed(KeysOf(uploads), uploads, m);
    }
  }

  /** When every listed file has arrived, nothing in the manifest is missing. */
  lemma AllArrived(e: Engine, id: Id, manifest: seq<ManifestEntry>, keys: seq<string>)
    requires IsReceiving(e, id) && SentSoFar(e, id, manifest, keys, |keys|)
    requires forall m :: m in manifest ==> m.relativePath in keys
    ensures FullyUploaded(e.disk[id])
  {
    forall k | 0 <= k < |manifest|
      ensures manifest[k].relativePath in e.disk[id].uploadedFiles
    {
      assert manifest[k] in manifest;
      var i :| 0 <= i < |keys| && keys[i] == manifest[k].relativePath;
      assert HasArrived(e, id, keys[i]);
    }
  }

  /** What holds after the first `n` files. */
  ghost predicate SentSoFar(e: Engine, id: Id, manifest: seq<ManifestEntry>, keys: seq<string>, n: nat)
    requires n <= |keys|
  {
    && HasManifest(e, id, manifest)
    && forall i :: 0 <= i < n ==> HasArrived(e, id, keys[i])
  }

  lemma SentSoFarStays(e: Engine, f: Engine, id: Id, manifest: seq<ManifestEntry>, keys: seq<string>, n: nat)
    requires n <= |keys| && GrownSince(e, f) && SentSoFar(e, id, manifest, keys, n)
    ensures SentSoFar(f, id, manifest, keys, n)
  {
    ManifestStays(e, f, id, manifest);
    forall i | 0 <= i < n
      ensures HasArrived(f, id, keys[i])
    {
      ArrivedStays(e, f, id, keys[i]);
    }
  }

  /** All that has been sent after the first `n` files. */
  function SentAfter(start: seq<Sent>, files: seq<ManifestEntry>, n: nat, skip: seq<string>, before: nat): seq<Sent>
    requires n <= |files|
  {
    if n == 0 then start
    else SentAfter(start, files, n - 1, skip, before) + PutOf(files[n - 1], skip, before + SizesOf(files, n - 1))
  }

  lemma {:induction false} SentAfterIsPuts(
      start: seq<Sent>, files: seq<ManifestEntry>, n: nat, skip: seq<string>, before: nat)
    requires n <= |files|
    ensures SentAfter(start, files, n, skip, before) == start + PutsOf(files, n, skip, before)
  {
    if n > 0 {
      SentAfterIsPuts(start, files, n - 1, skip, before);
      Associates(start, PutsOf(files, n - 1, skip, before), PutOf(files[n - 1], skip, before + SizesOf(files, n - 1)));
    }
  }

  /** One turn of the loop over the files: number `n` is uploaded unless it is there. */
  method UploadNext(session: UploadSession, operation: Operation, uploadFiles: seq<ManifestEntry>, n: nat,
      uploadedSet: seq<string>, uploadedBytes: nat, ghost manifest: seq<ManifestEntry>, ghost keys: seq<string>,
      ghost skipped: set<string>, ghost start: seq<Sent>, ghost before: nat)
    returns (next: Option<Operation>)
    requires n < |keys| == |uploadFiles| && Keyed(uploadFiles[n], keys[n], uploadedSet, skipped)
    requires Good(session.server.State())
    requires Underway(session.server.State(), operation.id, manifest, keys, n, skipped)
    requires session.sent == SentAfter(start, uploadFiles, n, uploadedSet, before)
    requires uploadedBytes == before + SizesOf(uploadFiles, n)
    modifies session`sent, session.server
    ensures Good(session.server.State())
    ensures session.sent == SentAfter(start, uploadFiles, n + 1, uploadedSet, before)
    ensures next.Some? ==> next.value.id == operation.id
    ensures next.Some? ==> Underway(session.server.State(), operation.id, manifest, keys, n + 1, skipped)
  {
    var file := uploadFiles[n];
    if file.relativePath in uploadedSet {
      OneMoreIsThere(session.server.State(), operation.id, manifest, keys, n + 1, skipped, keys[n]);
      NoneSent(session.sent);
      return Some(operation);
    }
    ghost var was := session.server.State();
    next := session.UploadFileToOperation(operation, file, uploadedBytes);
    UnderwayStays(was, session.server.State(), operation.id, manifest, keys, n, skipped);
    if next.Some? {
      OneMoreIsThere(session.server.State(), operation.id, manifest, keys, n + 1, skipped, keys[n]);
    }
  }

  lemma FirstSent(first: Sent)
    ensures [] + [first] == [first]
  {
  }

  lemma NoneSent(sent: seq<Sent>)
    ensures sent + [] == sent
  {
  }

  /** The loop over the files; `n` is how many it got to. */
  method UploadAll(session: UploadSession, created: Operation, uploadFiles: seq<ManifestEntry>,
                   ghost manifest: seq<ManifestEntry>, ghost keys: seq<string>, ghost skipped: set<string>)
    returns (failed: bool, operation: Operation, n: nat)
    requires |keys| == |uploadFiles|
    requires forall i :: 0 <= i < |keys| ==> Keyed(uploadFiles[i], keys[i], created.uploadedFiles, skipped)
    requires Good(session.server.State())
    requires Underway(session.server.State(), created.id, manifest, keys, 0, skipped)
    modifies session`sent, session.server
    ensures Good(session.server.State()) && operation.id == created.id && n <= |uploadFiles|
    ensures session.sent ==
      SentAfter(old(session.sent), uploadFiles, n, created.uploadedFiles, created.processedBytes)
    ensures failed ==> n > 0
    ensures !failed ==> n == |uploadFiles|
    ensures !failed ==> Underway(session.server.State(), created.id, manifest, keys, n, skipped)
  {
    operation := created;
    var uploadedBytes := operation.processedBytes;
    var uploadedSet := operation.uploadedFiles;
    ghost var start, before := session.sent, operation.processedBytes;
    n := 0;
    while n < |uploadFiles|
      invariant n <= |uploadFiles| && operation.id == created.id
      invariant Good(session.server.State())
      invariant Underway(session.server.State(), created.id, manifest, keys, n, skipped)
      invariant uploadedBytes == before + SizesOf(uploadFiles, n)
      invariant session.sent == SentAfter(start, uploadFiles, n, uploadedSet, before)
    {
      var next := UploadNext(
        session, operation, uploadFiles, n, uploadedSet, uploadedBytes, manifest, keys, skipped, start, before);
      uploadedBytes := uploadedBytes + uploadFiles[n].size;
      n := n + 1;
      if next.None? {
        failed := true;
        return;
      }
      operation := next.value;
    }
    failed := false;
  }

  lemma OneMoreIsThere(e: Engine, id: Id, manifest: seq<ManifestEntry>, keys: seq<string>, n: nat,
                       skipped: set<string>, key: string)
    requires 0 < n <= |keys| && Underway(e, id, manifest, keys, n - 1, skipped)
    requires keys[n - 1] == key && (key in skipped || HasArrived(e, id, key))
    ensures Underway(e, id, manifest, keys, n, skipped)
  {
  }

  /** What the loop keeps: the files sent, and those that were there from the start, are there. */
  ghost predicate Underway(
      e: Engine, id: Id, manifest: seq<ManifestEntry>, keys: seq<string>, n: nat, skipped: set<string>)
    requires n <= |keys|
  {
    SentSoFar(e, id, manifest, keys, n) && AllArrivedAlready(e, id, skipped)
  }

  /** The path under which a file is stored, and whether it is among those that were there. */
  predicate Keyed(file: ManifestEntry, key: string, there: seq<string>, skipped: set<string>) {
    key == NormalizeRelativePath(file.relativePath) && (file.relativePath in there ==> key in skipped)
  }

  lemma UnderwayFromTheStart(e: Engine, id: Id, manifest: seq<ManifestEntry>, uploads: seq<ManifestEntry>,
      there: seq<string>)
    requires HasManifest(e, id, manifest)
    requires forall p :: p in there ==> HasArrived(e, id, NormalizeRelativePath(p))
    ensures Underway(e, id, manifest, KeysOf(uploads), 0, Normalized(there))
    ensures forall i :: 0 <= i < |uploads| ==> Keyed(uploads[i], KeysOf(uploads)[i], there, Normalized(there))
  {
    forall i | 0 <= i < |uploads|
      ensures Keyed(uploads[i], KeysOf(uploads)[i], there, Normalized(there))
    {
      KeyAt(uploads, i);
    }
  }

  lemma UnderwayStays(e: Engine, f: Engine, id: Id, manifest: seq<ManifestEntry>, keys: seq<string>, n: nat,
                      skipped: set<string>)
    requires n <= |keys| && GrownSince(e, f) && Underway(e, id, manifest, keys, n, skipped)
    ensures Underway(f, id, manifest, keys, n, skipped)
  {
    SentSoFarStays(e, f, id, manifest, keys, n);
    AllStay(e, f, id, skipped);
  }

  ghost function Normalized(paths: seq<string>): set<string> {
    set p | p in paths :: NormalizeRelativePath(p)
  }

  ghost predicate AllArrivedAlready(e: Engine, id: Id, paths: set<string>) {
    forall p :: p in paths ==> HasArrived(e, id, p)
  }

  lemma AllStay(e: Engine, f: Engine, id: Id, paths: set<string>)
    requires GrownSince(e, f) && AllArrivedAlready(e, id, paths)
    ensures AllArrivedAlready(f, id, paths)
  {
    forall p | p in paths
      ensures HasArrived(f, id, p)
    {
      ArrivedStays(e, f, id, p);
    }
  }

  /** Every path is uploaded at most once; the operation is finalized only when all of them have
      arrived, so the server never finds it incomplete; any upload error leads to a cancellation. */
  method RunFsUploadSequence(session: UploadSession, destination: Path, files: seq<ManifestEntry>)
    returns (outcome: Outcome)
    requires Good(session.server.State()) && session.sent == []
    modifies session`sent, session.server
    ensures Script(session.sent, files, outcome)
  {
    var uploadFiles := DedupeUploadFiles(files);
    if uploadFiles == [] {
      return NothingToDo;
    }
    var reply := session.CreateFsOperation(destination, uploadFiles);
    if reply.None? {
      return NotCreated;
    }
    assert session.sent == [Create] by { FirstSent(Create); }
    outcome := SendAll(session, reply.value, uploadFiles);
  }

  /** Everything after the operation has been created. */
  method SendAll(session: UploadSession, created: Operation, uploadFiles: seq<ManifestEntry>)
    returns (outcome: Outcome)
    requires Good(session.server.State())
    requires HasManifest(session.server.State(), created.id, Dedupe(Cleaned(uploadFiles)))
    requires forall p :: p in created.uploadedFiles ==>
      HasArrived(session.server.State(), created.id, NormalizeRelativePath(p))
    modifies session`sent, session.server
    ensures SentInAll(old(session.sent), session.sent, uploadFiles, outcome)
  {
    ghost var manifest := Dedupe(Cleaned(uploadFiles));
    UnderwayFromTheStart(session.server.State(), created.id, manifest, uploadFiles, created.uploadedFiles);
    var failed, operation, n := UploadAll(session, created, uploadFiles, manifest, KeysOf(uploadFiles),
      Normalized(created.uploadedFiles));
    ghost var puts := PutsOf(uploadFiles, n, created.uploadedFiles, created.processedBytes);
    SentAfterIsPuts(old(session.sent), uploadFiles, n, created.uploadedFiles, created.processedBytes);
    if failed {
      Associates(old(session.sent), puts, [Abandon]);
      session.CancelFsOperation(operation.id);
      return Interrupted(created, n);
    }
    Associates(old(session.sent), puts, [Finish]);
    ManifestKeys(uploadFiles);
    var code := FinalizeSent(session, operation.id, manifest, KeysOf(uploadFiles));
    outcome := Finalized(created, code);
  }

  /** When every file of the manifest has been sent, the server does not find any missing. */
  method FinalizeSent(session: UploadSession, id: Id, ghost manifest: seq<ManifestEntry>, ghost keys: seq<string>)
    returns (code: Code)
    requires Good(session.server.State())
    requires SentSoFar(session.server.State(), id, manifest, keys, |keys|)
    requires forall m :: m in manifest ==> m.relativePath in keys
    modifies session`sent, session.server
    ensures session.sent == old(session.sent) + [Finish] && code != BAD_REQUEST
  {
    ghost var sure := session.server.State();
    ghost var before;
    code, before := session.FinalizeFsOperation(id);
    SentSoFarStays(sure, before, id, manifest, keys, |keys|);
    if IsReceiving(before, id) {
      AllArrived(before, id, manifest, keys);
    }
  }
}
