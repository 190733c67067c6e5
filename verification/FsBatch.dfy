/** Delete and upload-finalize jobs (server/src/main/kernel.js, `processFsDeleteJob` and
    `processFsUploadFinalizeJob`): a failure is noted at once but written at most every 200 ms, and
    the outcome is judged on what was written. */
module FsBatch {
  import opened Options
  import opened Numbers
  import opened Clock
  import opened FsJob
  import opened FsTree
  import opened FsVolume
  import opened FsScan

  /** What a job notes: a failed entry, or a recycled one, whose tick is always written. */
  datatype Note = Failure(path: Path, at: Instant) | Recycled(at: Instant)

  function LastWrite(notes: seq<Note>): int {
    if notes == [] then 0
    else
      var before := LastWrite(notes[..|notes| - 1]);
      if Writes(notes[|notes| - 1], before) then notes[|notes| - 1].at else before
  }

  predicate Writes(note: Note, lastWriteAt: int) {
    note.Recycled? || note.at - lastWriteAt >= WRITE_INTERVAL_MS
  }

  /** Every entry that failed. */
  function Failures(notes: seq<Note>): seq<Path> {
    if notes == [] then []
    else Failures(notes[..|notes| - 1]) + if notes[|notes| - 1].Failure? then [notes[|notes| - 1].path] else []
  }

  /** The failures that reached the disk. */
  function Recorded(notes: seq<Note>): seq<Path> {
    if notes == [] then []
    else if Writes(notes[|notes| - 1], LastWrite(notes[..|notes| - 1])) then Failures(notes)
    else Recorded(notes[..|notes| - 1])
  }

  /** Failures are lost from the end, and only those after the last write. */
  lemma {:induction false} RecordedIsAPrefix(notes: seq<Note>)
    ensures Recorded(notes) <= Failures(notes)
  {
    if notes != [] {
      RecordedIsAPrefix(notes[..|notes| - 1]);
    }
  }

  /** Nothing is lost exactly when the last note was written. */
  lemma NothingLostExactly(notes: seq<Note>)
    requires notes != []
    ensures var last := notes[|notes| - 1];
      Recorded(notes) == Failures(notes) <==> Writes(last, LastWrite(notes[..|notes| - 1]))
  {
    RecordedIsAPrefix(notes[..|notes| - 1]);
  }

  /** The first failure is always written unless an entry was recycled before it. */
  lemma {:induction false} FirstFailureRecorded(notes: seq<Note>)
    requires forall i :: 0 <= i < |notes| ==> notes[i].Failure?
    ensures Recorded(notes) == [] <==> notes == []
    ensures notes == [] ==> LastWrite(notes) == 0
    ensures Failures(notes) == [] <==> notes == []
  {
    if notes != [] {
      FirstFailureRecorded(notes[..|notes| - 1]);
    }
  }

  /** Processed and total bytes, processed and total items. */
  function Accounts(job: Job): (nat, nat, nat, nat) {
    (job.processedBytes, job.totalBytes, job.processedItems, job.totalItems)
  }

  /** What is known of the tracker and the disk while a job is under way. */
  ghost predicate Noted(tracker: FsOperationTracker, notes: seq<Note>)
    reads tracker, tracker.file
  {
    && tracker.file.disk.Some?
    && tracker.current.failures == Failures(notes)
    && tracker.file.disk.value.failures == Recorded(notes)
    && tracker.lastWriteAt == LastWrite(notes)
    && Accounts(tracker.file.disk.value) == Accounts(tracker.current) && Within(tracker.current)
    && StatusLag(tracker.current.status, tracker.file.disk.value.status)
  }

  lemma NotesGrow(notes: seq<Note>, note: Note)
    ensures (notes + [note])[..|notes|] == notes
  {
  }

  /** Clamping charge by charge is clamping the sum. */
  function Accrued(a: (nat, nat, nat, nat), bytes: nat, items: nat): (nat, nat, nat, nat) {
    (Min(a.1, a.0 + bytes), a.1, Min(a.3, a.2 + items), a.3)
  }

  method NoteFailure(tracker: FsOperationTracker, path: Path, ghost notes: seq<Note>) returns (ghost after: seq<Note>)
    requires Noted(tracker, notes)
    modifies tracker`current, tracker`lastWriteAt, tracker.file
    ensures Noted(tracker, after) && after == notes + [Failure(path, tracker.file.clock)]
    ensures Failures(after) == Failures(notes) + [path]
    ensures Accounts(tracker.current) == old(Accounts(tracker.current))
    ensures IsCancellation(old(tracker.file.disk.value.status)) ==> IsCancellation(tracker.file.disk.value.status)
  {
    tracker.Fail(path);
    after := notes + [Failure(path, tracker.file.clock)];
    NotesGrow(notes, Failure(path, tracker.file.clock));
  }

  method NoteRecycled(tracker: FsOperationTracker, bytes: nat, items: nat, ghost notes: seq<Note>)
    returns (ghost after: seq<Note>)
    requires Noted(tracker, notes)
    modifies tracker`current, tracker`lastWriteAt, tracker.file
    ensures Noted(tracker, after) && after == notes + [Recycled(tracker.file.clock)]
    ensures Failures(after) == Failures(notes)
    ensures Accounts(tracker.current) == Accrued(old(Accounts(tracker.current)), bytes, items)
    ensures IsCancellation(old(tracker.file.disk.value.status)) ==> IsCancellation(tracker.file.disk.value.status)
  {
    tracker.Tick(bytes, items, true);
    after := notes + [Recycled(tracker.file.clock)];
    NotesGrow(notes, Recycled(tracker.file.clock));
  }

  /** The status that an uncancelled delete reports. */
  function DeleteStatus(recorded: seq<Path>, anyProcessed: bool): Status {
    if recorded == [] then Success else if anyProcessed then Partial else Status.Failed
  }

  /** The status that an uncancelled finalize reports. */
  function FinalizeStatus(recorded: seq<Path>, entries: nat): Status {
    if recorded == [] then Success else if |recorded| < entries then Partial else Status.Failed
  }

  /** The entries that did not go well, in order. */
  function Bad(paths: seq<Path>, well: seq<bool>): seq<Path>
    requires |well| <= |paths|
  {
    if well == [] then []
    else
      var n := |well| - 1;
      Bad(paths, well[..n]) + if well[n] then [] else [paths[n]]
  }

  lemma BadOneMore(paths: seq<Path>, well: seq<bool>, b: bool)
    requires |well| < |paths|
    ensures Bad(paths, well + [b]) == Bad(paths, well) + if b then [] else [paths[|well|]]
  {
    assert (well + [b])[..|well|] == well;
  }

  lemma {:induction false} BadExactly(paths: seq<Path>, well: seq<bool>)
    requires |well| <= |paths|
    ensures Bad(paths, well) == [] <==> false !in well
    ensures |Bad(paths, well)| == |well| <==> true !in well
    ensures |Bad(paths, well)| <= |well|
  {
    if well != [] {
      BadExactly(paths, well[..|well| - 1]);
      assert well == well[..|well| - 1] + [well[|well| - 1]];
    }
  }

  /** The pre-scan of a delete: sources that are not there fail. */
  method ScanSources(vol: Volume, tracker: FsOperationTracker, sources: seq<Path>)
    returns (known: Totals, cancelled: bool, ghost notes: seq<Note>, ghost present: seq<bool>)
    requires WellFormed(vol.nodes) && Noted(tracker, [])
    modifies tracker`current, tracker`lastWriteAt, tracker.file
    ensures Noted(tracker, notes) && |present| <= |sources|
    ensures Failures(notes) == Bad(sources, present)
    ensures Accounts(tracker.current) == old(Accounts(tracker.current))
    ensures if cancelled then IsCancellation(tracker.file.disk.value.status) else
      && SawTree(vol.leads, known, sources, vol.nodes)
      && |present| == |sources|
      && forall i :: 0 <= i < |sources| ==> present[i] == Exists(vol.leads, vol.nodes, sources[i])
  {
    known, notes, present := map[], [], [];
    for i := 0 to |sources|
      invariant Noted(tracker, notes) && Accounts(tracker.current) == old(Accounts(tracker.current))
      invariant |present| == i
      invariant forall j :: 0 <= j < i ==> present[j] == Exists(vol.leads, vol.nodes, sources[j])
      invariant Failures(notes) == Bad(sources, present)
      invariant SawFirst(vol.leads, known, sources, i, vol.nodes)
    {
      var stop := tracker.file.IsCancelled();
      if stop {
        return known, true, notes, present;
      }
      var isPresent := vol.ExistsSync(sources[i]);
      BadOneMore(sources, present, isPresent);
      present := present + [isPresent];
      if !isPresent {
        SawAbsent(vol.leads, known, sources, i, vol.nodes);
        notes := NoteFailure(tracker, sources[i], notes);
        continue;
      }
      ghost var depth := Longest(vol.nodes.Keys);
      var bytes, items := vol.CollectFsEntryStats(sources[i], depth);
      SawPresent(vol.leads, known, sources, i, vol.nodes, (bytes, items));
      known := known[sources[i] := (bytes, items)];
    }
    cancelled := false;
  }

  /** What the recycled sources held on the tree `t`, as far as they were seen there. */
  ghost function RecycledBytes(leads: Resolver, t: Tree, sources: seq<Path>, recycled: seq<bool>): nat
    requires |recycled| <= |sources|
  {
    if recycled == [] then 0
    else
      var n := |recycled| - 1;
      RecycledBytes(leads, t, sources, recycled[..n]) +
        if recycled[n] && Exists(leads, t, sources[n]) then TotalBytes(t, sources[n]) else 0
  }

  ghost function RecycledItems(leads: Resolver, t: Tree, sources: seq<Path>, recycled: seq<bool>): nat
    requires |recycled| <= |sources|
  {
    if recycled == [] then 0
    else
      var n := |recycled| - 1;
      RecycledItems(leads, t, sources, recycled[..n]) +
        if recycled[n] && Exists(leads, t, sources[n]) then TotalItems(t, sources[n]) else 0
  }

  lemma RecycledOneMore(leads: Resolver, t: Tree, sources: seq<Path>, recycled: seq<bool>, ok: bool)
    requires |recycled| < |sources|
    ensures var n := |recycled|;
      && RecycledBytes(leads, t, sources, recycled + [ok]) ==
           RecycledBytes(leads, t, sources, recycled) +
             (if ok && Exists(leads, t, sources[n]) then TotalBytes(t, sources[n]) else 0)
      && RecycledItems(leads, t, sources, recycled + [ok]) ==
           RecycledItems(leads, t, sources, recycled) +
             (if ok && Exists(leads, t, sources[n]) then TotalItems(t, sources[n]) else 0)
  {
    assert (recycled + [ok])[..|recycled|] == recycled;
  }

  predicate AtOrBelow(sources: seq<Path>, n: nat, x: Path)
    requires n <= |sources|
  {
    exists i :: 0 <= i < n && sources[i] <= x
  }

  /** Nothing but what lies under a source tried has left the volume, and everything under a
      recycled one has. */
  ghost predicate Emptied(t: Tree, u: Tree, sources: seq<Path>, recycled: seq<bool>) {
    && |recycled| <= |sources|
    && (forall x {:trigger At(u, x)} ::
          At(u, x) == At(t, x) || (At(u, x) == None && AtOrBelow(sources, |recycled|, x)))
    && (forall i :: 0 <= i < |recycled| && recycled[i] ==> sources[i] in t && Below(u, sources[i]) == {})
  }

  lemma EmptiedOneMore(t: Tree, u: Tree, v: Tree, sources: seq<Path>, recycled: seq<bool>, ok: bool)
    requires Emptied(t, u, sources, recycled) && |recycled| < |sources|
    requires forall x {:trigger At(v, x)} ::
      At(v, x) == At(u, x) || (sources[|recycled|] <= x && At(v, x) == None)
    requires ok ==> sources[|recycled|] in u && Below(v, sources[|recycled|]) == {}
    ensures Emptied(t, v, sources, recycled + [ok])
  {
    var n := |recycled|;
    forall x
      ensures At(v, x) == At(t, x) || (At(v, x) == None && AtOrBelow(sources, n + 1, x))
    {
      assert At(v, x) == At(u, x) || (sources[n] <= x && At(v, x) == None);
      assert AtOrBelow(sources, n, x) ==> AtOrBelow(sources, n + 1, x);
    }
    assert ok ==> At(u, sources[n]) == At(t, sources[n]);
    forall i | 0 <= i < n && recycled[i]
      ensures Below(v, sources[i]) == {}
    {
      forall x | x in Below(v, sources[i])
        ensures x in Below(u, sources[i])
      {
        assert At(v, x) == At(u, x);
      }
    }
  }

  /** The `try` block for one source. What the recycle bin takes leaves the volume; a failing
      attempt may have removed a part. The root is protected. */
  method Recycle(vol: Volume, tracker: FsOperationTracker, source: Path) returns (ok: bool)
    requires WellFormed(vol.nodes)
    modifies vol, tracker.file`disk
    ensures WellFormed(vol.nodes) && Interference(old(tracker.file.disk), tracker.file.disk)
    ensures ok ==> source in old(vol.nodes) && Below(vol.nodes, source) == {}
    ensures forall x {:trigger At(vol.nodes, x)} ::
      At(vol.nodes, x) == At(old(vol.nodes), x) || (source <= x && At(vol.nodes, x) == None)
  {
    tracker.file.Yield();
    var isProtected: bool := *;
    var there := vol.ExistsSync(source);
    if isProtected || source == [] || !there {
      return false;
    }
    ok := vol.RmSync(source);
  }

  /** The books of a delete that has tried the first `|recycled|` sources of the tree `t`. */
  ghost predicate DeleteBooked(leads: Resolver, t: Tree, u: Tree, sources: seq<Path>, tracker: FsOperationTracker,
      start: (nat, nat, nat, nat), before: seq<Note>, notes: seq<Note>, recycled: seq<bool>)
    reads tracker, tracker.file
  {
    && WellFormed(u) && Noted(tracker, notes) && Emptied(t, u, sources, recycled)
    && Failures(notes) == Failures(before) + Bad(sources, recycled)
    && Accounts(tracker.current) ==
         Accrued(start, RecycledBytes(leads, t, sources, recycled), RecycledItems(leads, t, sources, recycled))
  }

  /** One source is recycled or fails. */
  method RecycleSource(vol: Volume, tracker: FsOperationTracker, sources: seq<Path>, known: Totals, i: nat,
      ghost t: Tree, ghost start: (nat, nat, nat, nat), ghost before: seq<Note>, ghost notes: seq<Note>,
      ghost recycled: seq<bool>)
    returns (ghost notes': seq<Note>, ghost recycled': seq<bool>)
    requires |recycled| == i < |sources|
    requires DeleteBooked(vol.leads, t, vol.nodes, sources, tracker, start, before, notes, recycled)
    requires SawTree(vol.leads, known, sources, t)
    modifies vol, tracker`current, tracker`lastWriteAt, tracker.file
    ensures |recycled'| == i + 1
    ensures DeleteBooked(vol.leads, t, vol.nodes, sources, tracker, start, before, notes', recycled')
  {
    ghost var u := vol.nodes;
    var ok := Recycle(vol, tracker, sources[i]);
    EmptiedOneMore(t, u, vol.nodes, sources, recycled, ok);
    BadOneMore(sources, recycled, ok);
    RecycledOneMore(vol.leads, t, sources, recycled, ok);
    recycled' := recycled + [ok];
    if ok {
      var totals := KnownTotals(known, sources[i]);
      notes' := NoteRecycled(tracker, totals.0, totals.1, notes);
    } else {
      notes' := NoteFailure(tracker, sources[i], notes);
    }
  }

  /** The main loop of a delete; a cancelled pre-scan stops it at once. */
  method RecycleSources(vol: Volume, tracker: FsOperationTracker, sources: seq<Path>, known: Totals,
      ghost scanned: bool, ghost before: seq<Note>)
    returns (cancelled: bool, ghost notes: seq<Note>, ghost recycled: seq<bool>)
    requires WellFormed(vol.nodes) && Noted(tracker, before)
    requires if scanned then SawTree(vol.leads, known, sources, vol.nodes)
             else IsCancellation(tracker.file.disk.value.status)
    modifies vol, tracker`current, tracker`lastWriteAt, tracker.file
    ensures DeleteBooked(vol.leads, old(vol.nodes), vol.nodes, sources, tracker,
      old(Accounts(tracker.current)), before, notes, recycled)
    ensures if cancelled then IsCancellation(tracker.file.disk.value.status) else |recycled| == |sources|
  {
    ghost var t, start := vol.nodes, Accounts(tracker.current);
    notes, recycled := before, [];
    for i := 0 to |sources|
      invariant |recycled| == i
      invariant DeleteBooked(vol.leads, t, vol.nodes, sources, tracker, start, before, notes, recycled)
      invariant scanned || IsCancellation(tracker.file.disk.value.status)
    {
      var stop := tracker.file.IsCancelled();
      if stop {
        return true, notes, recycled;
      }
      notes, recycled := RecycleSource(vol, tracker, sources, known, i, t, start, before, notes, recycled);
    }
    cancelled := false;
  }

  ghost function AllOf(sources: seq<Path>): (r: seq<bool>)
    ensures |r| == |sources|
  {
    seq(|sources|, i => true)
  }

  /** A delete record as the creation handler writes it, on the tree `t`. */
  ghost predicate FreshDelete(leads: Resolver, job: Job, t: Tree) {
    && (forall i :: 0 <= i < |job.sourcePaths| ==> Exists(leads, t, job.sourcePaths[i]))
    && job.processedBytes == 0 && job.totalBytes == RecycledBytes(leads, t, job.sourcePaths, AllOf(job.sourcePaths))
    && job.processedItems == 0 && job.totalItems == RecycledItems(leads, t, job.sourcePaths, AllOf(job.sourcePaths))
  }

  /** Every recycled source counts for at least one item, and all of them for no more than the total. */
  lemma {:induction false} RecycledWithinTotals(leads: Resolver, t: Tree, sources: seq<Path>, recycled: seq<bool>)
    requires |recycled| <= |sources|
    ensures RecycledBytes(leads, t, sources, recycled) <= RecycledBytes(leads, t, sources, AllOf(sources)[..|recycled|])
    ensures RecycledItems(leads, t, sources, recycled) <= RecycledItems(leads, t, sources, AllOf(sources)[..|recycled|])
    ensures (forall i :: 0 <= i < |recycled| && recycled[i] ==> Exists(leads, t, sources[i])) ==>
      (RecycledItems(leads, t, sources, recycled) > 0 <==> true in recycled)
  {
    if recycled != [] {
      var n := |recycled| - 1;
      RecycledWithinTotals(leads, t, sources, recycled[..n]);
      assert AllOf(sources)[..n + 1][..n] == AllOf(sources)[..n];
      assert recycled == recycled[..n] + [recycled[n]];
      if recycled[n] && sources[n] in t {
        assert sources[n] in Below(t, sources[n]);
      }
    }
  }

  /** The clamps of a delete that starts fresh never cut, and it has processed something exactly if it
      has recycled something. */
  lemma FreshDeleteUnclamped(leads: Resolver, job: Job, t: Tree, recycled: seq<bool>)
    requires |recycled| <= |job.sourcePaths|
    ensures var bytes, items := RecycledBytes(leads, t, job.sourcePaths, recycled),
                                RecycledItems(leads, t, job.sourcePaths, recycled);
      FreshDelete(leads, job, t) && |recycled| == |job.sourcePaths| ==>
        && Accrued(Accounts(job), bytes, items) == (bytes, job.totalBytes, items, job.totalItems)
        && (items > 0 <==> true in recycled)
  {
    RecycledWithinTotals(leads, t, job.sourcePaths, recycled);
    assert AllOf(job.sourcePaths)[..|job.sourcePaths|] == AllOf(job.sourcePaths);
  }

  /** What a delete that nobody cancelled comes to. */
  ghost predicate DeleteResult(leads: Resolver, t: Tree, before: Job, after: Job,
      notes: seq<Note>, present: seq<bool>, recycled: seq<bool>) {
    var sources := before.sourcePaths;
    && |present| == |recycled| == |sources|
    && (forall i :: 0 <= i < |sources| ==> present[i] == Exists(leads, t, sources[i]))
    && Failures(notes) == Bad(sources, present) + Bad(sources, recycled)
    && Accounts(after) ==
         Accrued(Accounts(before),
                 RecycledBytes(leads, t, sources, recycled), RecycledItems(leads, t, sources, recycled))
    && (after.status == Success <==> Recorded(notes) == [])
    && (after.status == Partial <==> Recorded(notes) != [] && after.processedItems > 0)
    && (after.status == Status.Failed <==> Recorded(notes) != [] && after.processedItems == 0)
    && (FreshDelete(leads, before, t) ==>
          && after.processedBytes == RecycledBytes(leads, t, sources, recycled)
          && after.processedItems == RecycledItems(leads, t, sources, recycled)
          && (after.status == Partial <==> Recorded(notes) != [] && true in recycled)
          && (after.status == Status.Failed <==> Recorded(notes) != [] && true !in recycled))
  }

  /** `notes` tells all that happened; the outcome is that of the recorded part. */
  method ProcessFsDeleteJob(vol: Volume, file: OperationFile)
    returns (ghost notes: seq<Note>, ghost present: seq<bool>, ghost recycled: seq<bool>)
    requires WellFormed(vol.nodes)
    requires file.disk.Some? && !IsCancellation(file.disk.value.status)
    requires file.disk.value.failures == [] && Within(file.disk.value)
    modifies vol, file
    ensures file.disk.Some? && file.disk.value.failures == Recorded(notes)
    ensures Emptied(old(vol.nodes), vol.nodes, old(file.disk.value.sourcePaths), recycled)
    ensures IsCancellation(file.disk.value.status) ||
      DeleteResult(vol.leads, old(vol.nodes), old(file.disk.value), file.disk.value, notes, present, recycled)
  {
    file.disk := Some(file.disk.value.(status := Running));
    var tracker := new FsOperationTracker(file, file.disk.value);
    var sources := tracker.current.sourcePaths;
    var known, scanCancelled, cancelled;
    known, scanCancelled, notes, present := ScanSources(vol, tracker, sources);
    cancelled, notes, recycled := RecycleSources(vol, tracker, sources, known, !scanCancelled, notes);
    FreshDeleteUnclamped(vol.leads, old(file.disk.value), old(vol.nodes), recycled);
    FinishDelete(tracker, scanCancelled || cancelled, notes);
  }

  method FinishDelete(tracker: FsOperationTracker, cancelled: bool, ghost notes: seq<Note>)
    requires Noted(tracker, notes)
    modifies tracker`current, tracker`lastWriteAt, tracker.file
    ensures tracker.file.disk.Some? && tracker.file.disk.value.failures == Recorded(notes)
    ensures Accounts(tracker.file.disk.value) == old(Accounts(tracker.current))
    ensures IsCancellation(tracker.file.disk.value.status) ||
      (!cancelled && tracker.file.disk.value.status ==
         DeleteStatus(Recorded(notes), tracker.file.disk.value.processedItems > 0))
  {
    tracker.Refresh();
    var job := tracker.current;
    if cancelled || IsCancellation(job.status) {
      tracker.Set(job.(status := Cancelled), true);
      return;
    }
    tracker.Set(job.(status := DeleteStatus(job.failures, job.processedItems > 0)), true);
  }

  function EntryPaths(manifest: seq<ManifestEntry>): (r: seq<Path>)
    ensures |r| == |manifest| && forall i :: 0 <= i < |r| ==> r[i] == [manifest[i].relativePath]
  {
    seq(|manifest|, i requires 0 <= i < |manifest| => [manifest[i].relativePath])
  }

  /** Only uploaded files can be placed. */
  ghost predicate OnlyUploaded(manifest: seq<ManifestEntry>, uploaded: seq<string>, placed: seq<bool>) {
    |placed| <= |manifest| && forall i :: 0 <= i < |placed| && placed[i] ==> manifest[i].relativePath in uploaded
  }

  /** An entry fails when it was not uploaded, or cannot be put in place. */
  method PlaceFiles(tracker: FsOperationTracker, manifest: seq<ManifestEntry>, uploaded: seq<string>)
    returns (cancelled: bool, ghost notes: seq<Note>, ghost placed: seq<bool>)
    requires Noted(tracker, [])
    modifies tracker`current, tracker`lastWriteAt, tracker.file
    ensures Noted(tracker, notes) && OnlyUploaded(manifest, uploaded, placed)
    ensures forall i :: 0 <= i < |notes| ==> notes[i].Failure?
    ensures Failures(notes) == Bad(EntryPaths(manifest), placed)
    ensures Accounts(tracker.current) == old(Accounts(tracker.current))
    ensures if cancelled then IsCancellation(tracker.file.disk.value.status) else |placed| == |manifest|
  {
    notes, placed := [], [];
    for i := 0 to |manifest|
      invariant Noted(tracker, notes) && |placed| == i && OnlyUploaded(manifest, uploaded, placed)
      invariant Accounts(tracker.current) == old(Accounts(tracker.current))
      invariant forall i :: 0 <= i < |notes| ==> notes[i].Failure?
      invariant Failures(notes) == Bad(EntryPaths(manifest), placed)
    {
      var stop := tracker.file.IsCancelled();
      if stop {
        return true, notes, placed;
      }
      var path := manifest[i].relativePath;
      if path !in uploaded {
        BadOneMore(EntryPaths(manifest), placed, false);
        placed := placed + [false];
        notes := NoteFailure(tracker, [path], notes);
        continue;
      }
      tracker.file.Yield();
      var ok: bool := *;
      BadOneMore(EntryPaths(manifest), placed, ok);
      placed := placed + [ok];
      if !ok {
        notes := NoteFailure(tracker, [path], notes);
      }
    }
    cancelled := false;
  }

  /** The last note reached the disk. */
  predicate LastWritten(notes: seq<Note>) {
    notes != [] && Writes(notes[|notes| - 1], LastWrite(notes[..|notes| - 1]))
  }

  function Larger(a: int, b: int): int {
    if a >= b then a else b
  }

  /** Success is reported exactly when every file was placed, a complete failure exactly when none
      was and the last failure was written. */
  method ProcessFsUploadFinalizeJob(file: OperationFile) returns (ghost notes: seq<Note>, ghost placed: seq<bool>)
    requires file.disk.Some? && !IsCancellation(file.disk.value.status)
    requires file.disk.value.failures == [] && Within(file.disk.value)
    modifies file
    ensures file.disk.Some? && file.disk.value.failures == Recorded(notes)
    ensures OnlyUploaded(old(file.disk.value.manifest), old(file.disk.value.uploadedFiles), placed)
    ensures var job, manifest := file.disk.value, old(file.disk.value.manifest);
      IsCancellation(job.status) ||
      (&& |placed| == |manifest| && Failures(notes) == Bad(EntryPaths(manifest), placed)
       && (job.status == Success || job.status == Partial || job.status == Status.Failed)
       && job.processedBytes == job.totalBytes && job.totalBytes == old(file.disk.value.totalBytes)
       && job.processedItems ==
            Min(job.totalItems, Larger(old(file.disk.value.processedItems), |manifest| - |job.failures|))
       && (job.status == Success <==> false !in placed)
       && (job.status == Status.Failed <==> true !in placed && LastWritten(notes)))
  {
    file.disk := Some(file.disk.value.(status := Running));
    var tracker := new FsOperationTracker(file, file.disk.value);
    var manifest := tracker.current.manifest;
    var cancelled;
    cancelled, notes, placed := PlaceFiles(tracker, manifest, tracker.current.uploadedFiles);
    FirstFailureRecorded(notes);
    RecordedIsAPrefix(notes);
    if notes != [] {
      NothingLostExactly(notes);
    }
    BadExactly(EntryPaths(manifest), placed);
    tracker.Refresh();
    var job := tracker.current;
    if cancelled || IsCancellation(job.status) {
      tracker.Set(job.(status := Cancelled), true);
      return;
    }
    var successful := |manifest| - |job.failures|;
    tracker.Set(job.(processedBytes := job.totalBytes, processedItems := Larger(job.processedItems, successful),
                     status := FinalizeStatus(job.failures, |manifest|)), true);
  }

  /** A delete can report success although an entry failed: the failure came right after another
      entry was recycled, and nothing was written after it. */
  lemma DeleteMayHideAFailure(path: Path, at: Instant, anyProcessed: bool)
    ensures var notes := [Recycled(at), Failure(path, at + 199)];
      Failures(notes) == [path] && DeleteStatus(Recorded(notes), anyProcessed) == Success
    ensures var later := [Recycled(at), Failure(path, at + 200)];
      Failures(later) == [path] == Recorded(later)
  {
    var later := [Recycled(at), Failure(path, at + 200)];
    assert later[..1] == [Recycled(at)];
    var notes := [Recycled(at), Failure(path, at + 199)];
    var front := notes[..1];
    assert front == [Recycled(at)] && front[..0] == [];
    assert LastWrite(front) == at && Failures(front) == [] && Recorded(front) == [];
  }

  /** Two files, both of which fail, the second within the write interval: reported as `partial`. */
  lemma CompleteFailureMayBePartial(p: Path, q: Path, at: Instant)
    ensures var notes := [Failure(p, at), Failure(q, at + 199)];
      Failures(notes) == [p, q] && FinalizeStatus(Recorded(notes), 2) == Partial
  {
    var notes := [Failure(p, at), Failure(q, at + 199)];
    var front := notes[..1];
    assert front == [Failure(p, at)] && front[..0] == [];
    assert LastWrite(front) == at && Failures(front) == [p] && Recorded(front) == [p];
  }

  /** Which notes were written. */
  function Written(notes: seq<Note>): (r: seq<bool>)
    ensures |r| == |notes|
  {
    if notes == [] then []
    else
      var front := notes[..|notes| - 1];
      Written(front) + [Writes(notes[|notes| - 1], LastWrite(front))]
  }

  /** By which notes some entry had failed. */
  function HadFailed(notes: seq<Note>): (r: seq<bool>)
    ensures |r| == |notes|
  {
    if notes == [] then [] else HadFailed(notes[..|notes| - 1]) + [Failures(notes) != []]
  }

  /** From the first failure on, no note was written. */
  predicate SilentSinceFailing(notes: seq<Note>) {
    forall j :: 0 <= j < |notes| ==> !HadFailed(notes)[j] || !Written(notes)[j]
  }

  lemma SilenceStep(notes: seq<Note>)
    requires notes != []
    ensures var front, last := notes[..|notes| - 1], notes[|notes| - 1];
      SilentSinceFailing(notes) <==>
        SilentSinceFailing(front) && (Failures(notes) == [] || !Writes(last, LastWrite(front)))
  {
    var front, last := notes[..|notes| - 1], notes[|notes| - 1];
    var n, written, failed := |front|, Written(front), HadFailed(front);
    assert Written(notes) == written + [Writes(last, LastWrite(front))];
    assert HadFailed(notes) == failed + [Failures(notes) != []];
    if SilentSinceFailing(notes) {
      forall j | 0 <= j < n
        ensures !failed[j] || !written[j]
      {
        assert !HadFailed(notes)[j] || !Written(notes)[j];
      }
      assert !HadFailed(notes)[n] || !Written(notes)[n];
    }
  }

  /** A delete hides every failure exactly when no note was written from the first of them on. */
  lemma {:induction false} DeleteHidesExactly(notes: seq<Note>)
    ensures Recorded(notes) == [] <==> SilentSinceFailing(notes)
  {
    if notes != [] {
      DeleteHidesExactly(notes[..|notes| - 1]);
      SilenceStep(notes);
      if Failures(notes) == [] {
        FailedEarlier(notes);
      }
    }
  }

  /** Without failures at the end there were none before. */
  lemma {:induction false} FailedEarlier(notes: seq<Note>)
    requires Failures(notes) == []
    ensures forall j :: 0 <= j < |notes| ==> !HadFailed(notes)[j]
  {
    if notes != [] {
      FailedEarlier(notes[..|notes| - 1]);
    }
  }
}
