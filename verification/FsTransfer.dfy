/** Copy and move operations from start to end (server/src/main/kernel.js, `processFsTransferJob`;
    server/src/handlers/files-handlers.js, conflict resolution). */
module FsTransfer {
  import opened Options
  import opened Numbers
  import opened FsJob
  import opened FsTree
  import opened FsVolume
  import opened FsConflict
  import opened FsLedger
  import opened FsScan

  function PlanOf(job: Job): Plan {
    Plan(job.kind, job.destination, job.sourcePaths, job.totalBytes, job.totalItems)
  }

  /** How using up source `i` changes the record. */
  ghost predicate RecordAdvances(before: Job, after: Job, i: nat, how: How, nb: nat, ni: nat) {
    && PlanOf(before) == PlanOf(after)
    && i < |before.sourcePaths| && before.cursor == i && after.cursor == i + 1
    && after.failures == before.failures + (if how == Errored then [before.sourcePaths[i]] else [])
    && after.processedBytes == Min(before.totalBytes, before.processedBytes + nb)
    && after.processedItems == Min(before.totalItems, before.processedItems + ni)
  }

  /** Clearing a target leaves the source alone, or destroys it if the target holds it. */
  lemma ClearedSource(u: Tree, src: Path, dst: Path)
    requires !(src <= dst)
    ensures At(Cleared(u, dst), src) == if dst <= src then None else At(u, src)
    ensures !(dst <= src) ==>
      TotalBytes(Cleared(u, dst), src) == TotalBytes(u, src) && TotalItems(Cleared(u, dst), src) == TotalItems(u, src)
    ensures dst <= src ==> TotalBytes(Cleared(u, dst), src) == 0 && TotalItems(Cleared(u, dst), src) == 0
  {
    var mid := Cleared(u, dst);
    ClearedAt(u, dst, src);
    if dst <= src {
      forall x | src <= x
        ensures x !in mid
      {
        PrefixTransitive(dst, src, x);
      }
      assert Below(mid, src) == {};
    } else {
      forall x | src <= x
        ensures At(mid, x) == At(u, x)
      {
        ApartBelow(src, dst, x);
        ClearedAt(u, dst, x);
      }
      TotalsSame(mid, u, src);
    }
  }

  /** Clearing a target that holds the source destroys the source; no other target does. */
  lemma ReplaceKeepsSource(u: Tree, src: Path, dst: Path)
    requires src in u
    ensures src in Cleared(u, dst) <==> !(dst <= src)
  {
    ClearedAt(u, dst, src);
  }

  /** The decision for an existing target: the one-shot answer first, then the sticky policies. */
  function Resolve(job: Job, relation: SizeRelation): Resolution {
    if job.resolution != Undecided then job.resolution
    else if job.policy.replaceAllDifferentSize && relation == Different then Replace
    else if job.policy.skipAllSameSize && relation == Same then Skip
    else Undecided
  }

  /** How the `try` block for one source ends. */
  datatype Attempt = Finished(how: How) | Conflicted(conflict: Conflict) | Threw | Stopped

  ghost predicate Settles(before: Job, after: Job, i: nat, how: How, nb: nat, ni: nat) {
    && RecordAdvances(before, after, i, how, nb, ni)
    && after.conflict == None && after.resolution == Undecided && after.policy == before.policy
    && (after.status == Running || IsCancellation(after.status))
  }

  ghost predicate Reasoned(job: Job, how: How) {
    && how != Errored
    && (how == Skipped ==> job.resolution == Skip || (job.resolution == Undecided && job.policy.skipAllSameSize))
    && (how == Replaced ==>
          job.resolution == Replace || (job.resolution == Undecided && job.policy.replaceAllDifferentSize))
  }

  method Await(tracker: FsOperationTracker, ghost base: Job, ghost nb: nat, ghost ni: nat)
    requires tracker.Ticking(base, nb, ni)
    modifies tracker.file`disk
    ensures tracker.Ticking(base, nb, ni)
  {
    tracker.file.Yield();
  }

  method IsProtectedFsPath(tracker: FsOperationTracker, ghost base: Job, ghost nb: nat, ghost ni: nat) returns (r: bool)
    requires tracker.Ticking(base, nb, ni)
    modifies tracker.file`disk
    ensures tracker.Ticking(base, nb, ni)
  {
    Await(tracker, base, nb, ni);
    r := *;
  }

  method ForgetConflict(tracker: FsOperationTracker, ghost record: Job) returns (ghost base: Job)
    requires tracker.Ticking(record, 0, 0) && Within(record)
    modifies tracker`current, tracker`lastWriteAt, tracker.file
    ensures base == record.(conflict := None, resolution := Undecided) && tracker.Ticking(base, 0, 0)
  {
    tracker.Set(tracker.current.(conflict := None, resolution := Undecided), false);
    base := record.(conflict := None, resolution := Undecided);
  }

  method Advance(tracker: FsOperationTracker, index: nat, how: How, ghost record: Job, ghost nb: nat, ghost ni: nat)
    requires index == record.cursor < |record.sourcePaths| && how != Errored
    requires tracker.Ticking(record.(conflict := None, resolution := Undecided), nb, ni)
    modifies tracker`current, tracker`lastWriteAt, tracker.file
    ensures tracker.file.disk.Some? && Settles(record, tracker.file.disk.value, index, how, nb, ni)
  {
    tracker.Set(tracker.current.(cursor := index + 1), true);
  }

  /** Copying or moving to a free target, then advancing the cursor. */
  method CopyAndAdvance(vol: Volume, tracker: FsOperationTracker, index: nat, src: Path, dst: Path,
      known: (nat, nat), how: How, ghost record: Job)
    returns (a: Attempt, ghost base: Job, ghost nb: nat, ghost ni: nat)
    requires WellFormed(vol.nodes) && dst !in vol.nodes && dst != [] && HasDir(vol.nodes, Parent(dst))
    requires !(src <= dst) && index < |record.sourcePaths| && record.cursor == index
    requires tracker.Ticking(record, 0, 0) && Within(record)
    requires how == Delivered || how == Replaced
    modifies vol, tracker`current, tracker`lastWriteAt, tracker.file
    ensures WellFormed(vol.nodes)
    ensures InTransit(old(vol.nodes), vol.nodes, src, dst, record.kind == Move)
    ensures a == Finished(how) || a.Threw? || a.Stopped?
    ensures a.Threw? || a.Stopped? ==>
      tracker.Ticking(base, nb, ni) && base == record.(conflict := None, resolution := Undecided)
    ensures a.Stopped? ==> IsCancellation(tracker.file.disk.value.status)
    ensures a.Finished? ==> IsTransfer(old(vol.nodes), vol.nodes, src, dst, record.kind == Move)
    ensures a.Finished? ==> tracker.file.disk.Some? && Settles(record, tracker.file.disk.value, index, how, nb, ni)
    ensures a.Finished? ==>
      src in old(vol.nodes) && (Holds(old(vol.nodes), src, nb, ni) || (record.kind == Move && known == (nb, ni)))
    ensures !a.Finished? ==> nb <= TotalBytes(old(vol.nodes), src) && ni <= TotalItems(old(vol.nodes), src)
  {
    nb, ni := 0, 0;
    base := ForgetConflict(tracker, record);
    if src !in vol.nodes {
      AbsentSource(vol.nodes, src, dst, record.kind == Move);
      return Threw, base, 0, 0;
    }
    ghost var depth := Longest(vol.nodes.Keys);
    var r: CopyResult;
    r, nb, ni := vol.CopyFsEntryWithProgress(
      src, dst, tracker, tracker.current.kind == Move, Some(known), base, 0, 0, depth);
    match r
    case CopyCancelled =>
      a := Stopped;
    case CopyFailed =>
      a := Threw;
    case Copied =>
      Advance(tracker, index, how, record, nb, ni);
      a := Finished(how);
  }

  /** The same for a target that is a link that was not seen. */
  method LinkAndAdvance(vol: Volume, tracker: FsOperationTracker, index: nat, src: Path, dst: Path,
      known: (nat, nat), ghost record: Job)
    returns (a: Attempt, ghost base: Job, ghost nb: nat, ghost ni: nat)
    requires WellFormed(vol.nodes) && src in vol.nodes && !(src <= dst)
    requires dst != [] && dst in vol.nodes && vol.nodes[dst].Link?
    requires index < |record.sourcePaths| && record.cursor == index
    requires tracker.Ticking(record, 0, 0) && Within(record)
    modifies vol, tracker`current, tracker`lastWriteAt, tracker.file
    ensures WellFormed(vol.nodes)
    ensures Confined(old(vol.nodes), vol.nodes, src, dst)
    ensures a == Finished(Delivered) || a.Threw? || a.Stopped?
    ensures a.Threw? || a.Stopped? ==>
      tracker.Ticking(base, nb, ni) && base == record.(conflict := None, resolution := Undecided)
    ensures a.Stopped? ==> IsCancellation(tracker.file.disk.value.status)
    ensures a.Finished? ==>
      && record.kind == Move && !old(vol.nodes)[src].Dir? && known == (nb, ni)
      && !(dst <= src) && Arrived(old(vol.nodes), vol.nodes, src, dst, true)
    ensures a.Finished? ==>
      tracker.file.disk.Some? && Settles(record, tracker.file.disk.value, index, Delivered, nb, ni)
    ensures !a.Finished? ==>
      vol.nodes == old(vol.nodes) || (old(vol.nodes)[src].File? && vol.nodes == old(vol.nodes) - {dst})
    ensures !a.Finished? ==> nb <= TotalBytes(old(vol.nodes), src) && ni <= TotalItems(old(vol.nodes), src)
  {
    ghost var u := vol.nodes;
    LinkCleared(u, src, dst);
    base := ForgetConflict(tracker, record);
    if !vol.nodes[src].Dir? {
      BelowLeaf(u, src);
    }
    var r: CopyResult;
    r, nb, ni := vol.CopyOntoLink(src, dst, tracker, tracker.current.kind == Move, known, base, 0, 0);
    match r
    case CopyCancelled =>
      a := Stopped;
    case CopyFailed =>
      a := Threw;
    case Copied =>
      TransferIsInTransit(Cleared(u, dst), vol.nodes, src, dst, true);
      EntryEffect(u, Cleared(u, dst), vol.nodes, src, dst, true);
      Advance(tracker, index, Delivered, record, nb, ni);
      a := Finished(Delivered);
  }

  lemma AbsentSource(t: Tree, src: Path, dst: Path, move: bool)
    requires WellFormed(t) && dst !in t
    ensures InTransit(t, t, src, dst, move)
  {
    forall p
      ensures InTransitAt(t, t, src, dst, move, p)
    {
      if dst <= p && p in t {
        NothingBelow(t, dst, p);
      }
    }
  }

  /** The record as it pauses, unless a cancellation got there first. */
  ghost predicate PausesWith(before: Job, after: Job, c: Conflict) {
    && before.resolution == Undecided && !Covers(before.policy, c.relation)
    && after == before.(conflict := Some(c), resolution := Undecided, status := after.status)
    && (after.status == Standby || IsCancellation(after.status))
  }

  ghost predicate Undercharged(u: Tree, plan: Plan, index: nat, nb: nat, ni: nat)
    requires plan.Valid() && index < |plan.sources|
  {
    && nb <= TotalBytes(u, plan.sources[index]) && ni <= TotalItems(u, plan.sources[index])
    && (plan.Doomed(index) ==> nb == 0 && ni == 0)
  }

  /** The charge is what the source holds, or, for what is not copied, what the pre-scan saw. */
  ghost predicate Charges(u: Tree, src: Path, how: How, move: bool, known: (nat, nat), nb: nat, ni: nat) {
    (Holds(u, src, nb, ni) && how != Skipped) || ((move || how == Skipped) && known == (nb, ni))
  }

  function HowOf(a: Attempt): How {
    if a.Finished? then a.how else Errored
  }

  /** What the attempt at source `index` did to the tree `u`, and what was charged for it. */
  ghost predicate Used(leads: Resolver, plan: Plan, u: Tree, turn: Turn, index: nat, known: (nat, nat))
    requires plan.Valid() && index < |plan.sources|
  {
    var src, dst, move := plan.sources[index], plan.Target(index), plan.kind == Move;
    && Confined(u, turn.after, src, dst) && Spares(leads, u, turn, src, dst, move)
    && if turn.how == Errored then
         Undercharged(u, plan, index, turn.bytes, turn.items)
       else
         && Succeeds(leads, u, turn, src, dst, move)
         && Charges(u, src, turn.how, move, known, turn.bytes, turn.items)
  }

  /** The conflict is that of source `index` with what is at its target, of the kind their sizes make it. */
  ghost predicate Asked(leads: Resolver, plan: Plan, u: Tree, index: nat, c: Conflict)
    requires plan.Valid() && index < |plan.sources|
  {
    var src, dst := plan.sources[index], plan.Target(index);
    && c.sourcePath == src && c.targetPath == dst
    && Exists(leads, u, src) && Exists(leads, u, dst)
    && SizesCompare(u[src], u[dst], c.relation)
  }

  method PauseFor(tracker: FsOperationTracker, conflict: Conflict, index: nat, ghost record: Job)
    requires tracker.Ticking(record, 0, 0) && Within(record) && index == record.cursor
    requires record.resolution == Undecided && !Covers(record.policy, conflict.relation)
    modifies tracker`current, tracker`lastWriteAt, tracker.file
    ensures tracker.file.disk.Some? && PausesWith(record, tracker.file.disk.value, conflict)
  {
    tracker.Set(tracker.current.(
      conflict := Some(conflict), resolution := Undecided, cursor := index, status := Standby), true);
  }

  method SkipAndAdvance(tracker: FsOperationTracker, index: nat, known: (nat, nat), ghost record: Job)
    requires tracker.Ticking(record, 0, 0) && Within(record) && index == record.cursor < |record.sourcePaths|
    modifies tracker`current, tracker`lastWriteAt, tracker.file
    ensures tracker.file.disk.Some?
    ensures Settles(record, tracker.file.disk.value, index, Skipped, known.0, known.1)
  {
    tracker.Tick(known.0, known.1, true);
    tracker.Set(tracker.current.(conflict := None, resolution := Undecided, cursor := index + 1), true);
  }

  /** How an attempt ends: what it did to the tree `u`, and the record it leaves. */
  ghost predicate Ended(vol: Volume, tracker: FsOperationTracker, u: Tree, record: Job, index: nat, known: (nat, nat),
      a: Attempt, base: Job, nb: nat, ni: nat)
    requires PlanOf(record).Valid() && index < |record.sourcePaths|
    reads vol, tracker, tracker.file
  {
    && WellFormed(vol.nodes) && HasDir(vol.nodes, record.destination)
    && (if a.Conflicted? then
          && vol.nodes == u && tracker.file.disk.Some? && PausesWith(record, tracker.file.disk.value, a.conflict)
          && Asked(vol.leads, PlanOf(record), u, index, a.conflict)
        else
          Used(vol.leads, PlanOf(record), u, Turn(HowOf(a), nb, ni, 0, ProtocolOf(record), vol.nodes), index, known))
    && (a.Threw? || a.Stopped? ==>
          && tracker.Ticking(base, nb, ni)
          && (base == record || base == record.(conflict := None, resolution := Undecided)))
    && (a.Stopped? ==> IsCancellation(tracker.file.disk.value.status))
    && (a.Finished? ==>
          && tracker.file.disk.Some? && Reasoned(record, a.how)
          && Settles(record, tracker.file.disk.value, index, a.how, nb, ni))
  }

  /** A copy or move to a free target, or one that came to nothing. */
  lemma FreeTargetUsed(leads: Resolver, plan: Plan, u: Tree, turn: Turn, index: nat, known: (nat, nat))
    requires plan.Valid() && index < |plan.sources| && WellFormed(u) && HasDir(u, plan.destination)
    requires var src, dst, move := plan.sources[index], plan.Target(index), plan.kind == Move;
      && Exists(leads, u, src) && !(src <= dst) && dst !in u && InTransit(u, turn.after, src, dst, move)
      && if turn.how == Errored then turn.bytes <= TotalBytes(u, src) && turn.items <= TotalItems(u, src)
         else turn.how == Delivered && IsTransfer(u, turn.after, src, dst, move)
              && Charges(u, src, Delivered, move, known, turn.bytes, turn.items)
    ensures Used(leads, plan, u, turn, index, known) && HasDir(turn.after, plan.destination)
  {
    var src, dst, move := plan.sources[index], plan.Target(index), plan.kind == Move;
    assert Parent(dst) == plan.destination;
    Untouched(u, src, dst, move);
    EntryEffect(u, u, turn.after, src, dst, move);
    DestinationKept(u, turn.after, src, dst);
  }

  /** A target that was not free. */
  lemma TakenTargetUsed(leads: Resolver, plan: Plan, u: Tree, turn: Turn, index: nat, known: (nat, nat))
    requires plan.Valid() && index < |plan.sources| && HasDir(u, plan.destination)
    requires var src, dst, move := plan.sources[index], plan.Target(index), plan.kind == Move;
      && Exists(leads, u, src) && !(src <= dst) && dst in u && Confined(u, turn.after, src, dst)
      && (if Exists(leads, u, dst) then GivenUp(turn.under, Relation(u[src], u[dst]))
          else turn.after == u || (Unseen(leads, u, src, dst, move) && DoesAway(u, turn, src, dst)))
      && (if turn.how == Errored then turn.bytes <= TotalBytes(u, src) && turn.items <= TotalItems(u, src)
          else turn.how == (if Exists(leads, u, dst) then Replaced else Delivered)
               && (turn.how == Delivered ==> move && Unseen(leads, u, src, dst, move))
               && !(dst <= src) && Arrived(u, turn.after, src, dst, move)
               && Charges(u, src, turn.how, move, known, turn.bytes, turn.items))
    ensures Used(leads, plan, u, turn, index, known) && HasDir(turn.after, plan.destination)
  {
    var src, dst := plan.sources[index], plan.Target(index);
    assert Parent(dst) == plan.destination;
    DestinationKept(u, turn.after, src, dst);
  }

  /** The target is not seen: it is free, or a link that leads nowhere. */
  method DeliverSource(vol: Volume, tracker: FsOperationTracker, index: nat, src: Path, dst: Path,
      known: (nat, nat), ghost record: Job)
    returns (a: Attempt, ghost base: Job, ghost nb: nat, ghost ni: nat)
    requires WellFormed(vol.nodes) && HasDir(vol.nodes, record.destination) && PlanOf(record).Valid()
    requires index == record.cursor < |record.sourcePaths| && Within(record)
    requires tracker.Ticking(record, 0, 0) && record.conflict == None
    requires src == record.sourcePaths[index] && dst == PlanOf(record).Target(index)
    requires Exists(vol.leads, vol.nodes, src) && !(src <= dst) && !Exists(vol.leads, vol.nodes, dst)
    modifies vol, tracker`current, tracker`lastWriteAt, tracker.file
    ensures Ended(vol, tracker, old(vol.nodes), record, index, known, a, base, nb, ni)
  {
    ghost var u := vol.nodes;
    assert Parent(dst) == record.destination;
    if dst !in vol.nodes {
      a, base, nb, ni := CopyAndAdvance(vol, tracker, index, src, dst, known, Delivered, record);
      FreeTargetUsed(vol.leads, PlanOf(record), u,
        Turn(HowOf(a), nb, ni, 0, ProtocolOf(record), vol.nodes), index, known);
    } else {
      a, base, nb, ni := LinkAndAdvance(vol, tracker, index, src, dst, known, record);
      TakenTargetUsed(vol.leads, PlanOf(record), u,
        Turn(HowOf(a), nb, ni, 0, ProtocolOf(record), vol.nodes), index, known);
    }
  }

  /** The target is seen: pause, skip it or replace it. */
  method SettleConflict(vol: Volume, tracker: FsOperationTracker, index: nat, src: Path, dst: Path,
      known: (nat, nat), ghost record: Job)
    returns (a: Attempt, ghost base: Job, ghost nb: nat, ghost ni: nat)
    requires WellFormed(vol.nodes) && HasDir(vol.nodes, record.destination) && PlanOf(record).Valid()
    requires index == record.cursor < |record.sourcePaths| && Within(record)
    requires tracker.Ticking(record, 0, 0) && record.conflict == None
    requires src == record.sourcePaths[index] && dst == PlanOf(record).Target(index)
    requires Exists(vol.leads, vol.nodes, src) && !(src <= dst) && Exists(vol.leads, vol.nodes, dst)
    modifies vol, tracker`current, tracker`lastWriteAt, tracker.file
    ensures Ended(vol, tracker, old(vol.nodes), record, index, known, a, base, nb, ni)
  {
    base, nb, ni := record, 0, 0;
    ghost var u := vol.nodes;
    var relation := Relation(vol.nodes[src], vol.nodes[dst]);
    var resolution := Resolve(tracker.current, relation);
    match resolution
    case Undecided =>
      var conflict := Conflict(src, dst, relation);
      PauseFor(tracker, conflict, index, record);
      a := Conflicted(conflict);
    case Skip =>
      SkipAndAdvance(tracker, index, known, record);
      a, nb, ni := Finished(Skipped), known.0, known.1;
    case Replace =>
      assert Parent(dst) == record.destination;
      a, base, nb, ni := ReplaceAndAdvance(vol, tracker, index, src, dst, known, record);
      TakenTargetUsed(vol.leads, PlanOf(record), u,
        Turn(HowOf(a), nb, ni, 0, ProtocolOf(record), vol.nodes), index, known);
  }

  method AttemptSource(vol: Volume, tracker: FsOperationTracker, index: nat, known: (nat, nat), ghost record: Job)
    returns (a: Attempt, ghost base: Job, ghost nb: nat, ghost ni: nat)
    requires WellFormed(vol.nodes) && HasDir(vol.nodes, record.destination) && PlanOf(record).Valid()
    requires index == record.cursor < |record.sourcePaths| && Within(record)
    requires tracker.Ticking(record, 0, 0) && record.conflict == None
    modifies vol, tracker`current, tracker`lastWriteAt, tracker.file
    ensures Ended(vol, tracker, old(vol.nodes), record, index, known, a, base, nb, ni)
  {
    base, nb, ni := record, 0, 0;
    var job := tracker.current;
    var src := job.sourcePaths[index];
    var dst := PlanOf(job).Target(index);
    var there := vol.ExistsSync(src);
    if !there {
      return Threw, record, 0, 0;
    }
    var protected := IsProtectedFsPath(tracker, record, 0, 0);
    if protected {
      return Threw, record, 0, 0;
    }
    protected := IsProtectedFsPath(tracker, record, 0, 0);
    if protected || src <= dst {
      return Threw, record, 0, 0;
    }
    there := vol.ExistsSync(dst);
    if there {
      a, base, nb, ni := SettleConflict(vol, tracker, index, src, dst, known, record);
    } else {
      a, base, nb, ni := DeliverSource(vol, tracker, index, src, dst, known, record);
    }
  }

  method ReplaceAndAdvance(vol: Volume, tracker: FsOperationTracker, index: nat, src: Path, dst: Path,
      known: (nat, nat), ghost record: Job)
    returns (a: Attempt, ghost base: Job, ghost nb: nat, ghost ni: nat)
    requires WellFormed(vol.nodes) && dst != [] && HasDir(vol.nodes, Parent(dst))
    requires src in vol.nodes && !(src <= dst) && index == record.cursor < |record.sourcePaths|
    requires tracker.Ticking(record, 0, 0) && Within(record)
    modifies vol, tracker`current, tracker`lastWriteAt, tracker.file
    ensures WellFormed(vol.nodes)
    ensures Confined(old(vol.nodes), vol.nodes, src, dst)
    ensures a == Finished(Replaced) || a.Threw? || a.Stopped?
    ensures a.Finished? ==>
      && !(dst <= src) && Arrived(old(vol.nodes), vol.nodes, src, dst, record.kind == Move)
      && Charges(old(vol.nodes), src, Replaced, record.kind == Move, known, nb, ni)
    ensures !a.Finished? ==> nb <= TotalBytes(old(vol.nodes), src) && ni <= TotalItems(old(vol.nodes), src)
    ensures a.Threw? || a.Stopped? ==>
      && tracker.Ticking(base, nb, ni)
      && (base == record || base == record.(conflict := None, resolution := Undecided))
    ensures a.Stopped? ==> IsCancellation(tracker.file.disk.value.status)
    ensures a.Finished? ==>
      && tracker.file.disk.Some?
      && Settles(record, tracker.file.disk.value, index, Replaced, nb, ni)
  {
    ghost var u := vol.nodes;
    var removed := vol.RmSync(dst);
    if !removed {
      assert forall x :: !(dst <= x) ==> At(vol.nodes, x) == At(u, x);
      return Threw, record, 0, 0;
    }
    ghost var mid := vol.nodes;
    assert mid == Cleared(u, dst);
    ClearedSource(u, src, dst);
    assert HasDir(mid, Parent(dst)) by { ClearedAt(u, dst, Parent(dst)); }
    a, base, nb, ni := CopyAndAdvance(vol, tracker, index, src, dst, known, Replaced, record);
    EntryEffect(u, mid, vol.nodes, src, dst, record.kind == Move);
  }

  /** The record of a transfer that a worker is busy with. */
  ghost predicate Active(u: Tree, plan: Plan, disk: Disk) {
    && plan.Valid() && WellFormed(u) && HasDir(u, plan.destination)
    && disk.Some? && PlanOf(disk.value) == plan
    && Within(disk.value) && disk.value.cursor <= |plan.sources|
    && (disk.value.status == Running || IsCancellation(disk.value.status))
  }

  /** The protocol state that a record stands for. */
  function PhaseOf(job: Job): Phase {
    if job.conflict.Some? then Waiting(job.conflict.value.relation)
    else if job.resolution == Undecided then Working
    else Decided(job.resolution)
  }

  function ProtocolOf(job: Job): Protocol {
    Protocol(job.cursor, PhaseOf(job), job.policy)
  }

  /** The destination folder survives every entry, as no source may hold its own target. */
  lemma DestinationKept(u: Tree, v: Tree, src: Path, dst: Path)
    requires dst != [] && (u == v || (Confined(u, v, src, dst) && !(src <= dst)))
    ensures At(v, Parent(dst)) == At(u, Parent(dst))
  {
    ParentAbove(src, dst);
  }

  /** The `catch` block: note the failure, then move on. */
  method RecordFailure(tracker: FsOperationTracker, source: Path, index: nat,
      ghost record: Job, ghost base: Job, ghost nb: nat, ghost ni: nat)
    requires index == record.cursor < |record.sourcePaths| && source == record.sourcePaths[index]
    requires tracker.Ticking(base, nb, ni)
    requires base == record || base == record.(conflict := None, resolution := Undecided)
    modifies tracker`current, tracker`lastWriteAt, tracker.file
    ensures tracker.file.disk.Some? && Settles(record, tracker.file.disk.value, index, Errored, nb, ni)
  {
    tracker.Fail(source);
    tracker.Set(tracker.current.(conflict := None, resolution := Undecided, cursor := index + 1), true);
  }

  lemma TakeFollowsProtocol(before: Job, after: Job, i: nat, how: How, nb: nat, ni: nat)
    requires before.conflict == None && Settles(before, after, i, how, nb, ni)
    requires how == Errored || Reasoned(before, how)
    ensures Step(ProtocolOf(before), Took(i, how)) == Some(ProtocolOf(after))
    ensures before.failures <= after.failures && Within(after)
  {
  }

  /** The turns account for the tree and for the record. */
  ghost predicate Booked(leads: Resolver, t: Tree, u: Tree, plan: Plan, job: Job, turns: seq<Turn>) {
    && plan.Valid() && PlanOf(job) == plan
    && |turns| == job.cursor <= |plan.sources|
    && AllFit(leads, plan, t, turns) && TreeAt(t, turns, |turns|) == u
    && job.processedBytes == Min(plan.totalBytes, PaidBytes(turns))
    && job.processedItems == Min(plan.totalItems, PaidItems(turns))
  }

  /** Which pre-scan the charge of a turn goes back to; its own tree if it was copied. */
  ghost function SeenAt(u: Tree, src: Path, used: Turn, now: nat, start: nat): nat {
    if Holds(u, src, used.bytes, used.items) && used.how != Skipped then now else start
  }

  lemma UsedFits(leads: Resolver, plan: Plan, t: Tree, turns: seq<Turn>, used: Turn, known: (nat, nat), start: nat)
    requires plan.Valid() && start <= |turns| < |plan.sources|
    requires Used(leads, plan, TreeAt(t, turns, |turns|), used, |turns|, known)
    requires Seen(leads, TreeAt(t, turns, start), plan.sources[|turns|], known.0, known.1)
    ensures var u, src := TreeAt(t, turns, |turns|), plan.sources[|turns|];
      Fits(leads, plan, t, turns + [used.(seen := SeenAt(u, src, used, |turns|, start))], |turns|)
  {
    var u, src := TreeAt(t, turns, |turns|), plan.sources[|turns|];
    var turn := used.(seen := SeenAt(u, src, used, |turns|, start));
    var all := turns + [turn];
    assert all[..|turns|] == turns;
    TreesBefore(t, all, |turns|, |turns|);
    TreesBefore(t, all, |turns|, turn.seen);
  }

  lemma TurnBooked(leads: Resolver, t: Tree, u: Tree, plan: Plan, before: Job, after: Job, turns: seq<Turn>,
      used: Turn, known: (nat, nat), start: nat) returns (turn: Turn)
    requires Booked(leads, t, u, plan, before, turns) && before.cursor < |plan.sources|
    requires Used(leads, plan, u, used, before.cursor, known)
    requires RecordAdvances(before, after, before.cursor, used.how, used.bytes, used.items)
    requires start <= |turns|
    requires Seen(leads, TreeAt(t, turns, start), plan.sources[before.cursor], known.0, known.1)
    ensures turn == used.(seen := turn.seen) && (turn.seen == start || turn.seen == |turns|)
    ensures Booked(leads, t, used.after, plan, after, turns + [turn])
  {
    turn := used.(seen := SeenAt(u, plan.sources[|turns|], used, |turns|, start));
    UsedFits(leads, plan, t, turns, used, known, start);
    OneMoreFits(leads, plan, t, turns, turn);
    OneMorePaid(turns, turn);
  }

  /** One turn of the main loop, with its `catch`. `start` sources had been used up at the pre-scan. */
  method TransferSource(vol: Volume, tracker: FsOperationTracker, index: nat, known: Totals,
      ghost t: Tree, ghost plan: Plan, ghost turns: seq<Turn>, ghost start: nat)
    returns (a: Attempt, ghost turn: Turn)
    requires Active(vol.nodes, plan, tracker.file.disk)
    requires index == tracker.file.disk.value.cursor < |plan.sources| && tracker.file.disk.value.conflict == None
    requires Booked(vol.leads, t, vol.nodes, plan, tracker.file.disk.value, turns)
    requires start <= index && SawTree(vol.leads, known, plan.sources, TreeAt(t, turns, start))
    modifies vol, tracker`current, tracker`lastWriteAt, tracker.file
    ensures Active(vol.nodes, plan, tracker.file.disk) || a.Conflicted?
    ensures WellFormed(vol.nodes) && HasDir(vol.nodes, plan.destination)
    ensures a.Finished? || a.Conflicted? || a.Stopped?
    ensures a.Stopped? ==> IsCancellation(tracker.file.disk.value.status)
    ensures var before := old(tracker.file.disk.value);
      && (a.Finished? ==>
            var after := tracker.file.disk.value;
            && turn.how == a.how && turn.under == ProtocolOf(before) && turn.after == vol.nodes
            && (turn.seen == start || turn.seen == |turns|)
            && Step(ProtocolOf(before), Took(index, a.how)) == Some(ProtocolOf(after))
            && after.conflict == None && after.resolution == Undecided
            && after.failures == before.failures + (if a.how == Errored then [plan.sources[index]] else [])
            && Booked(vol.leads, t, vol.nodes, plan, after, turns + [turn]))
      && (a.Conflicted? ==>
            && vol.nodes == old(vol.nodes)
            && tracker.file.disk.Some? && PausesWith(before, tracker.file.disk.value, a.conflict)
            && Asked(vol.leads, plan, vol.nodes, index, a.conflict))
      && (a.Stopped? ==> before.failures <= tracker.file.disk.value.failures && tracker.file.disk.value.cursor == index)
  {
    ghost var u := vol.nodes;
    tracker.Refresh();
    ghost var record := tracker.current;
    var source := tracker.current.sourcePaths[index];
    ghost var base, nb, ni;
    a, base, nb, ni := AttemptSource(vol, tracker, index, KnownTotals(known, source), record);
    if a.Threw? {
      RecordFailure(tracker, source, index, record, base, nb, ni);
      a := Finished(Errored);
    }
    turn := Turn(HowOf(a), nb, ni, 0, ProtocolOf(record), vol.nodes);
    if a.Finished? {
      TakeFollowsProtocol(record, tracker.file.disk.value, index, a.how, nb, ni);
      turn := TurnBooked(
        vol.leads, t, u, plan, record, tracker.file.disk.value, turns, turn, KnownTotals(known, source), start);
    }
  }

  /** The pre-scan has added these failures to the record it started from; some may not have reached
      the disk yet, but the first has. */
  ghost predicate Scanned(tracker: FsOperationTracker, record: Job, missing: seq<Path>)
    reads tracker, tracker.file
  {
    && tracker.file.disk.Some?
    && var failures := tracker.file.disk.value.failures;
       && tracker.file.disk.value == record.(failures := failures)
       && tracker.current == record.(failures := record.failures + missing)
       && record.failures <= failures <= record.failures + missing
       && (missing != [] || tracker.lastWriteAt != 0 ==> failures != [])
  }

  method NoteMissing(tracker: FsOperationTracker, source: Path, ghost record: Job, ghost missing: seq<Path>)
    requires record.status == Running && Scanned(tracker, record, missing)
    modifies tracker`current, tracker`lastWriteAt, tracker.file
    ensures Scanned(tracker, record, missing + [source])
  {
    assert (record.failures + missing) + [source] == record.failures + (missing + [source]);
    tracker.Fail(source);
  }

  /** Re-run at every resume: a source that is no longer there is a failure, even one that an
      earlier run has moved away. The first failure always reaches the disk; without one nothing
      changes. */
  method PreScan(vol: Volume, tracker: FsOperationTracker, ghost record: Job)
    returns (known: Totals, cancelled: bool)
    requires WellFormed(vol.nodes) && PlanOf(record).Valid()
    requires tracker.State() == TrackerState(record, 0) && tracker.file.disk == Some(record)
    requires record.status == Running
    modifies tracker`current, tracker`lastWriteAt, tracker.file
    ensures Scanned(tracker, record, Missing(vol.leads, vol.nodes, record.sourcePaths, |record.sourcePaths|))
    ensures !cancelled && SawTree(vol.leads, known, record.sourcePaths, vol.nodes)
    ensures PlanOf(record).AllExist(vol.leads, vol.nodes) ==>
      tracker.file.disk.value.failures == record.failures && tracker.current.failures == record.failures
    ensures !PlanOf(record).AllExist(vol.leads, vol.nodes) ==> tracker.file.disk.value.failures != []
  {
    known, cancelled := map[], false;
    var sources := tracker.current.sourcePaths;
    assert record.failures + [] == record.failures;
    var k := 0;
    while k < |sources|
      invariant 0 <= k <= |sources| && sources == record.sourcePaths
      invariant Scanned(tracker, record, Missing(vol.leads, vol.nodes, sources, k)) && !cancelled
      invariant SawFirst(vol.leads, known, sources, k, vol.nodes)
    {
      var stop := tracker.file.IsCancelled();
      if stop {
        cancelled := true;
        break;
      }
      var there := vol.ExistsSync(sources[k]);
      ghost var missing := Missing(vol.leads, vol.nodes, sources, k);
      if !there {
        SawAbsent(vol.leads, known, sources, k, vol.nodes);
        NoteMissing(tracker, sources[k], record, missing);
      } else {
        ghost var depth := Longest(vol.nodes.Keys);
        var bytes, items := vol.CollectFsEntryStats(sources[k], depth);
        SawPresent(vol.leads, known, sources, k, vol.nodes, (bytes, items));
        known := known[sources[k] := (bytes, items)];
        assert missing + [] == missing;
      }
      k := k + 1;
    }
    NoneMissing(vol.leads, vol.nodes, sources, |sources|);
    assert record.failures + [] == record.failures;
  }

  /** An answer is only ever stored for a source still to come. */
  predicate AnswerPending(plan: Plan, job: Job) {
    job.resolution != Undecided ==> job.cursor < |plan.sources|
  }

  predicate TookMatches(log: seq<Event>, turns: seq<Turn>, i: nat)
    requires i < |log| && log[i].Took?
  {
    var k := log[i].index;
    k < |turns| && turns[k].how == log[i].how && Replay(log[..i]) == Some(turns[k].under)
  }

  /** The turns are what the log says about each index used up so far. */
  predicate LogMatches(log: seq<Event>, turns: seq<Turn>, cursor: nat) {
    && |turns| == cursor
    && forall i :: 0 <= i < |log| && log[i].Took? ==> TookMatches(log, turns, i)
  }

  /** The log replays to exactly what the record says. */
  ghost predicate Logged(log: seq<Event>, turns: seq<Turn>, job: Job) {
    Replay(log) == Some(ProtocolOf(job)) && LogMatches(log, turns, job.cursor)
  }

  /** How many sources had been used up whenever a run, and so a pre-scan, began. */
  function Starts(log: seq<Event>): seq<nat> {
    if log == [] then [0]
    else
      var front := log[..|log| - 1];
      Starts(front) + if log[|log| - 1].Answered? then [|Takes(front)|] else []
  }

  /** No turn failed, and none of these pre-scans missed a source. */
  ghost predicate Faultless(leads: Resolver, plan: Plan, t: Tree, turns: seq<Turn>, starts: seq<nat>) {
    && NoneErrored(turns)
    && forall i :: 0 <= i < |starts| ==> starts[i] <= |turns| && plan.AllExist(leads, TreeAt(t, turns, starts[i]))
  }

  ghost predicate StartsWithin(starts: seq<nat>, n: nat) {
    forall i :: 0 <= i < |starts| ==> starts[i] <= n
  }

  /** The failures on record are empty exactly when there was no fault. */
  ghost predicate FailuresTold(leads: Resolver, plan: Plan, t: Tree, turns: seq<Turn>, starts: seq<nat>, job: Job) {
    && StartsWithin(starts, |turns|) && |turns| <= |plan.sources|
    && (job.failures == [] <==> Faultless(leads, plan, t, turns, starts))
    && (job.failures == [] ==> AllSeen(leads, plan, t, turns))
  }

  lemma TurnTold(leads: Resolver, plan: Plan, t: Tree, turns: seq<Turn>, turn: Turn, starts: seq<nat>,
      before: Job, after: Job, source: Path)
    requires FailuresTold(leads, plan, t, turns, starts, before) && plan.Valid() && |turns| < |plan.sources|
    requires after.failures == before.failures + if turn.how == Errored then [source] else []
    requires AllFit(leads, plan, t, turns + [turn])
    requires turn.seen == |turns| || turn.seen in starts
    ensures FailuresTold(leads, plan, t, turns + [turn], starts, after)
  {
    var all := turns + [turn];
    assert NoneErrored(all) <==> NoneErrored(turns) && turn.how != Errored by {
      assert all[|turns|] == turn;
      assert forall k :: 0 <= k < |turns| ==> all[k] == turns[k];
    }
    forall i | 0 <= i < |starts|
      ensures TreeAt(t, all, starts[i]) == TreeAt(t, turns, starts[i])
    {
    }
    if after.failures == [] {
      assert Fits(leads, plan, t, all, |turns|);
      TreesBefore(t, all, |turns|, |turns|);
      assert all[..|turns|] == turns;
      OneMoreSeen(leads, plan, t, turns, turn);
    }
  }

  lemma ScanTold(leads: Resolver, plan: Plan, t: Tree, turns: seq<Turn>, starts: seq<nat>, before: Job, after: Job)
    requires FailuresTold(leads, plan, t, turns, starts, before) && before.failures <= after.failures
    requires plan.AllExist(leads, TreeAt(t, turns, |turns|)) ==> after.failures == before.failures
    requires !plan.AllExist(leads, TreeAt(t, turns, |turns|)) ==> after.failures != []
    ensures FailuresTold(leads, plan, t, turns, starts + [|turns|], after)
  {
    var all := starts + [|turns|];
    assert all[|starts|] == |turns|;
    assert forall i :: 0 <= i < |starts| ==> all[i] == starts[i];
  }

  /** A run only appends, and it never answers for the user. */
  ghost predicate RunAppends(log: seq<Event>, log': seq<Event>) {
    log <= log' && forall i :: |log| <= i < |log'| ==> !log'[i].Answered?
  }

  /** Whatever comes after, the events so far match the same turns. */
  lemma LogStillMatches(log: seq<Event>, e: Event, turns: seq<Turn>, more: seq<Turn>)
    requires LogMatches(log, turns, |turns|)
    ensures forall i :: 0 <= i < |log| && log[i].Took? ==> TookMatches(log + [e], turns + more, i)
  {
    forall i | 0 <= i < |log| && log[i].Took?
      ensures TookMatches(log + [e], turns + more, i)
    {
      assert TookMatches(log, turns, i);
      assert (log + [e])[..i] == log[..i];
    }
  }

  lemma LogTake(log: seq<Event>, turns: seq<Turn>, turn: Turn, before: Job, after: Job, start: seq<Event>)
    requires Logged(log, turns, before) && RunAppends(start, log) && turn.under == ProtocolOf(before)
    requires Step(ProtocolOf(before), Took(before.cursor, turn.how)) == Some(ProtocolOf(after))
    ensures Logged(log + [Took(before.cursor, turn.how)], turns + [turn], after)
    ensures RunAppends(start, log + [Took(before.cursor, turn.how)])
    ensures Starts(log + [Took(before.cursor, turn.how)]) == Starts(log)
  {
    var e := Took(before.cursor, turn.how);
    ReplayAppend(log, e);
    LogStillMatches(log, e, turns, [turn]);
    assert (log + [e])[..|log|] == log;
  }

  lemma LogPause(log: seq<Event>, turns: seq<Turn>, before: Job, after: Job, c: Conflict, start: seq<Event>)
    requires Logged(log, turns, before) && RunAppends(start, log)
    requires before.conflict == None && PausesWith(before, after, c)
    ensures Logged(log + [Paused(before.cursor, c.relation)], turns, after)
    ensures RunAppends(start, log + [Paused(before.cursor, c.relation)])
    ensures Starts(log + [Paused(before.cursor, c.relation)]) == Starts(log)
  {
    var e := Paused(before.cursor, c.relation);
    ReplayAppend(log, e);
    LogStillMatches(log, e, turns, []);
    assert turns + [] == turns;
    assert (log + [e])[..|log|] == log;
  }

  ghost predicate PauseTold(leads: Resolver, plan: Plan, t: Tree, turns: seq<Turn>, e: Event)
    requires plan.Valid() && e.Paused?
  {
    && e.index <= |turns| && e.index < |plan.sources|
    && var u, src, dst := TreeAt(t, turns, e.index), plan.sources[e.index], plan.Target(e.index);
       Exists(leads, u, src) && Exists(leads, u, dst) && SizesCompare(u[src], u[dst], e.relation)
  }

  /** Every pause was for a target that was there, and told the truth about the sizes. */
  ghost predicate PausesTold(leads: Resolver, plan: Plan, t: Tree, turns: seq<Turn>, log: seq<Event>)
    requires plan.Valid()
  {
    forall i :: 0 <= i < |log| && log[i].Paused? ==> PauseTold(leads, plan, t, turns, log[i])
  }

  lemma PausesStillTold(
      leads: Resolver, plan: Plan, t: Tree, turns: seq<Turn>, more: seq<Turn>, log: seq<Event>, e: Event)
    requires plan.Valid() && PausesTold(leads, plan, t, turns, log)
    requires e.Paused? ==> PauseTold(leads, plan, t, turns, e)
    ensures PausesTold(leads, plan, t, turns + more, log + [e])
  {
    forall i | 0 <= i < |log + [e]| && (log + [e])[i].Paused?
      ensures PauseTold(leads, plan, t, turns + more, (log + [e])[i])
    {
      var pause := (log + [e])[i];
      assert i < |log| ==> pause == log[i];
      assert PauseTold(leads, plan, t, turns, pause);
      assert (turns + more)[..|turns|] == turns;
      TreesBefore(t, turns + more, |turns|, pause.index);
    }
  }

  /** All that is known of a record that no cancellation has reached. */
  ghost predicate OnTrack(leads: Resolver, t: Tree, u: Tree, plan: Plan, job: Job, turns: seq<Turn>, log: seq<Event>) {
    && Booked(leads, t, u, plan, job, turns) && Logged(log, turns, job)
    && FailuresTold(leads, plan, t, turns, Starts(log), job) && PausesTold(leads, plan, t, turns, log)
  }

  /** One more turn, in the books, in the log and in the failures. */
  lemma TurnTracked(leads: Resolver, t: Tree, plan: Plan, before: Job, after: Job,
      turns: seq<Turn>, turn: Turn, log: seq<Event>, start: seq<Event>)
    requires before.cursor < |plan.sources| && OnTrack(leads, t, TreeAt(t, turns, |turns|), plan, before, turns, log)
    requires Booked(leads, t, turn.after, plan, after, turns + [turn]) && turn.under == ProtocolOf(before)
    requires Step(ProtocolOf(before), Took(before.cursor, turn.how)) == Some(ProtocolOf(after))
    requires after.failures == before.failures + if turn.how == Errored then [plan.sources[|turns|]] else []
    requires turn.seen == |turns| || turn.seen in Starts(log)
    requires RunAppends(start, log)
    ensures var log' := log + [Took(before.cursor, turn.how)];
      && OnTrack(leads, t, turn.after, plan, after, turns + [turn], log')
      && RunAppends(start, log') && Starts(log') == Starts(log)
  {
    LogTake(log, turns, turn, before, after, start);
    PausesStillTold(leads, plan, t, turns, [turn], log, Took(before.cursor, turn.how));
    TurnTold(leads, plan, t, turns, turn, Starts(log), before, after, plan.sources[|turns|]);
  }

  /** The same for a pause. */
  lemma PauseTracked(leads: Resolver, t: Tree, u: Tree, plan: Plan, before: Job, after: Job,
      turns: seq<Turn>, c: Conflict, log: seq<Event>, start: seq<Event>)
    requires before.cursor < |plan.sources| && OnTrack(leads, t, u, plan, before, turns, log)
    requires before.conflict == None && PausesWith(before, after, c) && after.status == Standby
    requires Asked(leads, plan, u, before.cursor, c)
    requires RunAppends(start, log)
    ensures var log' := log + [Paused(before.cursor, c.relation)];
      OnTrack(leads, t, u, plan, after, turns, log') && RunAppends(start, log')
  {
    LogPause(log, turns, before, after, c, start);
    PausesStillTold(leads, plan, t, turns, [], log, Paused(before.cursor, c.relation));
    assert turns + [] == turns;
  }

  /** One turn of the main loop, in the books and in the log. */
  method TakeTurn(vol: Volume, tracker: FsOperationTracker, index: nat, known: Totals,
      ghost t: Tree, ghost plan: Plan, ghost turns: seq<Turn>, ghost log: seq<Event>, ghost first: nat,
      ghost start: seq<Event>)
    returns (a: Attempt, ghost turns': seq<Turn>, ghost log': seq<Event>)
    requires Active(vol.nodes, plan, tracker.file.disk) && tracker.file.disk.value.conflict == None
    requires index == tracker.file.disk.value.cursor < |plan.sources|
    requires RunAppends(start, log) && OnTrack(vol.leads, t, vol.nodes, plan, tracker.file.disk.value, turns, log)
    requires first <= index && first in Starts(log)
    requires SawTree(vol.leads, known, plan.sources, TreeAt(t, turns, first))
    modifies vol, tracker`current, tracker`lastWriteAt, tracker.file
    ensures Active(vol.nodes, plan, tracker.file.disk) || a.Conflicted?
    ensures WellFormed(vol.nodes) && HasDir(vol.nodes, plan.destination) && tracker.file.disk.Some?
    ensures a.Finished? || a.Conflicted? || a.Stopped?
    ensures a.Stopped? ==> IsCancellation(tracker.file.disk.value.status)
    ensures a.Stopped? ==> tracker.file.disk.value.cursor == index
    ensures var before, after := old(tracker.file.disk.value), tracker.file.disk.value;
      && before.failures <= after.failures
      && (a.Conflicted? ==> PausesWith(before, after, a.conflict))
      && (a.Finished? ==> after.cursor == index + 1 && after.conflict == None && after.resolution == Undecided)
    ensures RunAppends(start, log') && Replay(log').Some? && Starts(log') == Starts(log)
    ensures a.Finished? || (a.Conflicted? && !IsCancellation(tracker.file.disk.value.status)) ==>
      OnTrack(vol.leads, t, vol.nodes, plan, tracker.file.disk.value, turns', log')
    ensures a.Finished? ==>
      first <= |turns'| && SawTree(vol.leads, known, plan.sources, TreeAt(t, turns', first))
  {
    ghost var before := tracker.file.disk.value;
    ghost var turn;
    turns', log' := turns, log;
    a, turn := TransferSource(vol, tracker, index, known, t, plan, turns, first);
    if a.Finished? {
      TurnTracked(vol.leads, t, plan, before, tracker.file.disk.value, turns, turn, log, start);
      turns', log' := turns + [turn], log + [Took(index, a.how)];
      TreesBefore(t, turns', |turns|, first);
      assert turns'[..|turns|] == turns;
    } else if a.Conflicted? && tracker.file.disk.value.status == Standby {
      PauseTracked(vol.leads, t, vol.nodes, plan, before, tracker.file.disk.value, turns, a.conflict, log, start);
      log' := log + [Paused(index, a.conflict.relation)];
    }
  }

  /** The record when the main loop stops. */
  ghost predicate LoopEnded(plan: Plan, before: Job, after: Job, cancelled: bool, paused: bool) {
    && PlanOf(after) == plan && Within(after) && before.cursor <= after.cursor <= |plan.sources|
    && !(paused && cancelled)
    && (IsCancellation(after.status) || after.status == if paused then Standby else Running)
    && (cancelled ==> IsCancellation(after.status))
    && (paused && after.status == Standby ==> after.conflict.Some? && after.cursor < |plan.sources|)
    && (paused && after.status == Standby && before.resolution != Undecided ==> before.cursor < after.cursor)
    && (!paused && !cancelled ==>
          after.cursor == |plan.sources| && after.conflict == None && after.resolution == Undecided)
  }

  /** The main loop. `log` grows by one event per source, and by one more if it pauses. */
  method TransferSources(vol: Volume, tracker: FsOperationTracker, known: Totals,
      ghost t: Tree, ghost plan: Plan, ghost turns: seq<Turn>, ghost log: seq<Event>)
    returns (cancelled: bool, paused: bool, ghost turns': seq<Turn>, ghost log': seq<Event>)
    requires Active(vol.nodes, plan, tracker.file.disk) && tracker.file.disk.value.conflict == None
    requires tracker.current.cursor == tracker.file.disk.value.cursor && tracker.current.sourcePaths == plan.sources
    requires AnswerPending(plan, tracker.file.disk.value)
    requires OnTrack(vol.leads, t, vol.nodes, plan, tracker.file.disk.value, turns, log)
    requires SawTree(vol.leads, known, plan.sources, vol.nodes) && tracker.current.cursor in Starts(log)
    modifies vol, tracker`current, tracker`lastWriteAt, tracker.file
    ensures WellFormed(vol.nodes) && HasDir(vol.nodes, plan.destination) && tracker.file.disk.Some?
    ensures old(tracker.file.disk.value.failures) <= tracker.file.disk.value.failures
    ensures RunAppends(log, log') && Replay(log').Some?
    ensures !IsCancellation(tracker.file.disk.value.status) ==>
      OnTrack(vol.leads, t, vol.nodes, plan, tracker.file.disk.value, turns', log')
    ensures LoopEnded(plan, old(tracker.file.disk.value), tracker.file.disk.value, cancelled, paused)
  {
    cancelled, paused, turns', log' := false, false, turns, log;
    var sources := tracker.current.sourcePaths;
    var index := tracker.current.cursor;
    ghost var first := index;
    while index < |sources|
      invariant first <= index <= |sources| && !cancelled && !paused
      invariant Active(vol.nodes, plan, tracker.file.disk) && tracker.file.disk.value.conflict == None
      invariant tracker.file.disk.value.cursor == index
      invariant old(tracker.file.disk.value.failures) <= tracker.file.disk.value.failures
      invariant tracker.file.disk.value.resolution ==
        if index == first then old(tracker.file.disk.value.resolution) else Undecided
      invariant RunAppends(log, log') && OnTrack(vol.leads, t, vol.nodes, plan, tracker.file.disk.value, turns', log')
      invariant SawTree(vol.leads, known, plan.sources, TreeAt(t, turns', first)) && first in Starts(log')
    {
      cancelled := tracker.file.IsCancelled();
      if cancelled {
        break;
      }
      var a;
      a, turns', log' := TakeTurn(vol, tracker, index, known, t, plan, turns', log', first, log);
      cancelled, paused := a.Stopped?, a.Conflicted?;
      if cancelled || paused {
        break;
      }
      index := index + 1;
    }
  }

  function FinalStatus(job: Job): Status {
    if job.failures == [] then Success
    else if job.processedItems > 0 then Partial
    else Status.Failed
  }

  /** The record once the run has wound up. */
  function WoundUp(job: Job, cancelled: bool, paused: bool): Job {
    if paused && job.status == Standby then job
    else if IsCancellation(job.status) then job.(conflict := None, resolution := Undecided)
    else if cancelled then job.(conflict := None, resolution := Undecided, status := Cancelled)
    else job.(conflict := None, resolution := Undecided, status := FinalStatus(job))
  }

  method FinishTransfer(tracker: FsOperationTracker, cancelled: bool, paused: bool)
    requires tracker.file.disk.Some? && Within(tracker.file.disk.value)
    modifies tracker`current, tracker`lastWriteAt, tracker.file
    ensures tracker.file.disk == Some(WoundUp(old(tracker.file.disk.value), cancelled, paused))
  {
    tracker.Refresh();
    var completed := tracker.current;
    if paused && completed.status == Standby {
      return;
    }
    if cancelled || IsCancellation(completed.status) {
      tracker.Set(completed.(conflict := None, resolution := Undecided, status := Cancelled), true);
      return;
    }
    tracker.Set(completed.(conflict := None, resolution := Undecided, status := FinalStatus(completed)), true);
  }

  /** What a finished or paused run leaves in the record. */
  ghost predicate RunResult(leads: Resolver, t: Tree, u: Tree, plan: Plan, before: Job, after: Job,
      turns: seq<Turn>, log: seq<Event>) {
    && plan.Valid() && PlanOf(after) == plan && Within(after) && after.cursor <= |plan.sources|
    && before.failures <= after.failures
    && Replay(log).Some?
    && (after.status == Standby || after.status == Success || after.status == Partial
        || after.status == Status.Failed || IsCancellation(after.status))
    && (after.status == Standby ==> after.conflict.Some? && after.cursor < |plan.sources|)
    && (!IsCancellation(after.status) ==> OnTrack(leads, t, u, plan, after, turns, log))
    && (IsTerminal(after.status) && after.status != Cancelled ==>
          && after.cursor == |plan.sources|
          && (after.status == Success <==> after.failures == [])
          && (after.status == Partial <==> after.failures != [] && after.processedItems > 0)
          && (after.status == Status.Failed <==> after.failures != [] && after.processedItems == 0))
  }

  /** The starts up to this run, this run's own being the last. */
  ghost predicate ReadyToRun(
      leads: Resolver, t: Tree, u: Tree, plan: Plan, job: Job, turns: seq<Turn>, log: seq<Event>) {
    var starts := Starts(log);
    && Booked(leads, t, u, plan, job, turns) && Logged(log, turns, job)
    && starts != [] && starts[|starts| - 1] == |turns|
    && FailuresTold(leads, plan, t, turns, starts[..|starts| - 1], job) && PausesTold(leads, plan, t, turns, log)
  }

  method ProcessFsTransferJob(vol: Volume, file: OperationFile,
      ghost t: Tree, ghost plan: Plan, ghost turns: seq<Turn>, ghost log: seq<Event>)
    returns (ghost turns': seq<Turn>, ghost log': seq<Event>)
    requires plan.Valid() && WellFormed(vol.nodes) && HasDir(vol.nodes, plan.destination)
    requires file.disk.Some? && file.disk.value.status == Queued && file.disk.value.conflict == None
    requires Within(file.disk.value) && AnswerPending(plan, file.disk.value)
    requires ReadyToRun(vol.leads, t, vol.nodes, plan, file.disk.value, turns, log)
    modifies vol, file
    ensures WellFormed(vol.nodes) && HasDir(vol.nodes, plan.destination)
    ensures file.disk.Some?
    ensures RunResult(vol.leads, t, vol.nodes, plan, old(file.disk.value), file.disk.value, turns', log')
    ensures RunAppends(log, log') && old(file.disk.value).cursor <= file.disk.value.cursor
    ensures old(file.disk.value).resolution != Undecided && file.disk.value.status == Standby ==>
      old(file.disk.value).cursor < file.disk.value.cursor
  {
    turns', log' := turns, log;
    file.disk := Some(file.disk.value.(status := Running));
    ghost var record := file.disk.value;
    var tracker := new FsOperationTracker(file, file.disk.value);
    var known, cancelled := PreScan(vol, tracker, record);
    ghost var scanned := file.disk.value;
    ghost var starts := Starts(log);
    ScanTold(vol.leads, plan, t, turns, starts[..|starts| - 1], record, scanned);
    assert starts == starts[..|starts| - 1] + [|turns|];
    var paused: bool;
    cancelled, paused, turns', log' := TransferSources(vol, tracker, known, t, plan, turns, log);
    ghost var last := file.disk.value;
    FinishTransfer(tracker, cancelled, paused);
    RunEnds(vol.leads, t, vol.nodes, plan, old(file.disk.value), scanned, last, cancelled, paused, turns', log');
  }

  /** From the state in which the main loop stops to the result of the run. */
  lemma RunEnds(leads: Resolver, t: Tree, u: Tree, plan: Plan, before: Job, scanned: Job, last: Job,
      cancelled: bool, paused: bool, turns: seq<Turn>, log: seq<Event>)
    requires plan.Valid() && LoopEnded(plan, scanned, last, cancelled, paused)
    requires before.failures <= last.failures && Replay(log).Some?
    requires !IsCancellation(last.status) ==> OnTrack(leads, t, u, plan, last, turns, log)
    ensures RunResult(leads, t, u, plan, before, WoundUp(last, cancelled, paused), turns, log)
  {
  }

  lemma ResumeFollowsProtocol(job: Job, d: Decision)
    requires job.conflict.Some? && Allowed(d, job.conflict.value.relation)
    ensures Step(ProtocolOf(job), Answered(d)) == Some(ProtocolOf(Resumed(job, d)))
  {
  }

  /** A fresh transfer record, as the creation handler writes it. */
  ghost predicate Fresh(job: Job) {
    && job.status == Queued && job.cursor == 0 && job.conflict == None && job.resolution == Undecided
    && job.policy == Policy(false, false) && job.failures == []
    && job.processedBytes == 0 && job.processedItems == 0
  }

  ghost predicate ResumedAfterDelivery(log: seq<Event>) {
    exists i, j :: 0 <= i < j < |log| && log[i].Took? && Delivers(log[i].how) && log[j].Answered?
  }

  lemma {:induction false} TakesListed(log: seq<Event>, k: nat)
    ensures k in Takes(log) <==> exists i :: 0 <= i < |log| && log[i].Took? && log[i].index == k
  {
    if log != [] {
      var n := |log| - 1;
      var front := log[..n];
      TakesListed(front, k);
      assert forall i :: 0 <= i < n ==> front[i] == log[i];
      if i :| 0 <= i < n && front[i].Took? && front[i].index == k {
        assert log[i].Took? && log[i].index == k;
      }
    }
  }

  /** A run starts at the creation and at every answer. */
  lemma {:induction false} StartsListed(log: seq<Event>, s: nat)
    ensures s in Starts(log) <==> s == 0 || exists j :: 0 <= j < |log| && StartsAt(log, j, s)
  {
    if log != [] {
      var n := |log| - 1;
      var front := log[..n];
      StartsListed(front, s);
      forall j | 0 <= j < n
        ensures StartsAt(front, j, s) == StartsAt(log, j, s)
      {
        assert front[..j] == log[..j];
      }
      if j :| 0 <= j < |log| && StartsAt(log, j, s) {
        assert j < n ==> StartsAt(front, j, s);
      }
      if j :| 0 <= j < n && StartsAt(front, j, s) {
        assert StartsAt(log, j, s);
      }
      assert StartsAt(log, n, s) <==> log[n].Answered? && |Takes(front)| == s;
    }
  }

  predicate StartsAt(log: seq<Event>, j: nat, s: nat)
    requires j < |log|
  {
    log[j].Answered? && |Takes(log[..j])| == s
  }

  /** When run `j` begins, the sources used up are those taken in the log before it. */
  lemma UsedUpBefore(log: seq<Event>, j: nat, k: nat)
    requires Replay(log).Some? && j <= |log|
    ensures k < |Takes(log[..j])| <==> exists i :: 0 <= i < j && log[i].Took? && log[i].index == k
  {
    ReplayPrefix(log, j);
    TakenInOrder(log[..j]);
    TakesListed(log[..j], k);
    var next := Replay(log[..j]).value.next;
    assert k < next ==> Takes(log[..j])[k] == k;
    if i :| 0 <= i < j && log[i].Took? && log[i].index == k {
      assert log[..j][i] == log[i];
    }
    if i :| 0 <= i < j && log[..j][i].Took? && log[..j][i].index == k {
      assert log[i].Took? && log[i].index == k;
    }
  }

  /** Some source was delivered among the first `s` turns. */
  ghost predicate DeliveredBefore(turns: seq<Turn>, s: nat) {
    exists k: nat :: k < s && k < |turns| && Delivers(turns[k].how)
  }

  ghost predicate StartedLate(turns: seq<Turn>, starts: seq<nat>) {
    exists i :: 0 <= i < |starts| && DeliveredBefore(turns, starts[i])
  }

  lemma ResumedExactly(log: seq<Event>, turns: seq<Turn>)
    requires Replay(log).Some? && LogMatches(log, turns, |turns|)
    ensures ResumedAfterDelivery(log) <==> StartedLate(turns, Starts(log))
  {
    var starts := Starts(log);
    if ResumedAfterDelivery(log) {
      var i, j :| 0 <= i < j < |log| && log[i].Took? && Delivers(log[i].how) && log[j].Answered?;
      var s := |Takes(log[..j])|;
      UsedUpBefore(log, j, log[i].index);
      StartsListed(log, s);
      assert StartsAt(log, j, s);
      var n :| 0 <= n < |starts| && starts[n] == s;
      assert DeliveredBefore(turns, starts[n]);
    }
    if StartedLate(turns, starts) {
      var n :| 0 <= n < |starts| && DeliveredBefore(turns, starts[n]);
      var k: nat :| k < starts[n] && k < |turns| && Delivers(turns[k].how);
      StartsListed(log, starts[n]);
      var j :| 0 <= j < |log| && StartsAt(log, j, starts[n]);
      UsedUpBefore(log, j, k);
    }
  }

  /** While nothing has failed, a pre-scan sees every source exactly if none has been moved away and
      none that is left has become a link that leads nowhere. */
  lemma PresentAtStart(leads: Resolver, plan: Plan, t: Tree, turns: seq<Turn>, s: nat)
    requires plan.Valid() && plan.Separate() && s <= |turns| <= |plan.sources| && AllFit(leads, plan, t, turns)
    requires NoneErrored(turns) && plan.AllExist(leads, t)
    ensures plan.AllExist(leads, TreeAt(t, turns, s)) <==>
      !(plan.kind == Move && DeliveredBefore(turns, s)) && !plan.LinkLost(leads, TreeAt(t, turns, s))
    ensures plan.LinkLost(leads, TreeAt(t, turns, s)) ==> plan.SomeLink(t)
  {
    var u := TreeAt(t, turns, s);
    forall k: nat | k < |plan.sources|
      ensures plan.sources[k] in u <==> !(k < s && plan.kind == Move && Delivers(turns[k].how))
      ensures plan.sources[k] in u ==> u[plan.sources[k]] == t[plan.sources[k]]
    {
      SourceStillThere(leads, plan, t, turns, s, k);
    }
    if plan.kind == Move && DeliveredBefore(turns, s) {
      var k: nat :| k < s && k < |turns| && Delivers(turns[k].how);
      assert plan.sources[k] !in u;
    }
  }

  /** At some start, a source was a link that leads nowhere. */
  ghost predicate LinkLostAtAStart(leads: Resolver, plan: Plan, t: Tree, turns: seq<Turn>, starts: seq<nat>)
    requires StartsWithin(starts, |turns|)
  {
    exists i :: 0 <= i < |starts| && plan.LinkLost(leads, TreeAt(t, turns, starts[i]))
  }

  /** With targets apart from other sources, a transfer is without fault exactly if every source was
      there at the creation, no turn failed, it is not a move that was resumed after a delivery, and
      at no start a source had become a link that leads nowhere; without links among the sources the
      last cannot be. */
  lemma FaultlessExactly(leads: Resolver, plan: Plan, t: Tree, turns: seq<Turn>, log: seq<Event>)
    requires plan.Valid() && plan.Separate() && |turns| <= |plan.sources| && AllFit(leads, plan, t, turns)
    requires Replay(log).Some? && LogMatches(log, turns, |turns|) && StartsWithin(Starts(log), |turns|)
    ensures Faultless(leads, plan, t, turns, Starts(log)) <==>
      && NoneErrored(turns) && plan.AllExist(leads, t) && !(plan.kind == Move && ResumedAfterDelivery(log))
      && !LinkLostAtAStart(leads, plan, t, turns, Starts(log))
    ensures NoneErrored(turns) && plan.AllExist(leads, t) && !plan.SomeLink(t) ==>
      !LinkLostAtAStart(leads, plan, t, turns, Starts(log))
  {
    var starts := Starts(log);
    ResumedExactly(log, turns);
    StartsListed(log, 0);
    var first :| 0 <= first < |starts| && starts[first] == 0;
    assert TreeAt(t, turns, starts[first]) == t;
    if NoneErrored(turns) && plan.AllExist(leads, t) {
      forall i | 0 <= i < |starts|
        ensures plan.AllExist(leads, TreeAt(t, turns, starts[i])) <==>
          !(plan.kind == Move && DeliveredBefore(turns, starts[i])) &&
          !plan.LinkLost(leads, TreeAt(t, turns, starts[i]))
        ensures plan.LinkLost(leads, TreeAt(t, turns, starts[i])) ==> plan.SomeLink(t)
      {
        PresentAtStart(leads, plan, t, turns, starts[i]);
      }
    }
  }

  /** What a finished transfer comes to, given how its sources and targets lie. */
  ghost predicate Verdict(leads: Resolver, t: Tree, u: Tree, plan: Plan, done: Job, turns: seq<Turn>, log: seq<Event>)
    requires plan.Valid()
  {
    && (done.status == Success ==> |turns| == |plan.sources| && NoneErrored(turns) && plan.AllExist(leads, t))
    && (done.status == Success && plan.Clear() && plan.TotalsOf(t) ==>
          done.processedBytes == plan.totalBytes && done.processedItems == plan.totalItems)
    && (plan.Separate() && !IsCancellation(done.status) ==>
          && StartsWithin(Starts(log), |turns|)
          && (done.status == Success <==>
                && NoneErrored(turns) && plan.AllExist(leads, t)
                && !(plan.kind == Move && ResumedAfterDelivery(log))
                && !LinkLostAtAStart(leads, plan, t, turns, Starts(log))))
    && (plan.Separate() && !IsCancellation(done.status) && !plan.SomeLink(t) ==>
          (done.status == Success <==>
             NoneErrored(turns) && plan.AllExist(leads, t) && !(plan.kind == Move && ResumedAfterDelivery(log))))
    && (plan.Disjoint() && !IsCancellation(done.status) ==>
          |turns| == |plan.sources|
          && forall k :: 0 <= k < |turns| ==> EntrySettled(t, u, plan, k, turns[k].how))
  }

  lemma VerdictReached(leads: Resolver, t: Tree, u: Tree, plan: Plan, before: Job, done: Job,
      turns: seq<Turn>, log: seq<Event>)
    requires RunResult(leads, t, u, plan, before, done, turns, log) && done.status != Standby
    ensures Verdict(leads, t, u, plan, done, turns, log)
  {
    if !IsCancellation(done.status) {
      StartsListed(log, 0);
      if done.status == Success {
        var i :| 0 <= i < |Starts(log)| && Starts(log)[i] == 0;
        assert plan.AllExist(leads, TreeAt(t, turns, Starts(log)[i]));
        if plan.Clear() {
          PaidExactly(leads, plan, t, turns);
        }
      }
      if plan.Separate() {
        FaultlessExactly(leads, plan, t, turns, log);
      }
      if plan.Disjoint() {
        forall k | 0 <= k < |turns|
          ensures EntrySettled(t, u, plan, k, turns[k].how)
        {
          EntriesSettle(leads, plan, t, turns, |turns|, k);
        }
      }
    }
  }

  /** A transfer from creation to its end, over any number of pauses, with any answers. */
  method TransferToEnd(vol: Volume, file: OperationFile, ghost plan: Plan)
    returns (ghost turns: seq<Turn>, ghost log: seq<Event>)
    requires plan.Valid() && WellFormed(vol.nodes) && HasDir(vol.nodes, plan.destination)
    requires file.disk.Some? && Fresh(file.disk.value) && PlanOf(file.disk.value) == plan
    modifies vol, file
    ensures WellFormed(vol.nodes) && file.disk.Some?
    ensures RunResult(vol.leads, old(vol.nodes), vol.nodes, plan, old(file.disk.value), file.disk.value, turns, log)
    ensures file.disk.value.status != Standby
    ensures Verdict(vol.leads, old(vol.nodes), vol.nodes, plan, file.disk.value, turns, log)
  {
    ghost var t := vol.nodes;
    ghost var first := file.disk.value;
    assert Starts([])[..0] == [];
    turns, log := ProcessFsTransferJob(vol, file, t, plan, [], []);
    while file.disk.value.status == Standby
      invariant WellFormed(vol.nodes) && HasDir(vol.nodes, plan.destination)
      invariant file.disk.Some?
      invariant RunResult(vol.leads, t, vol.nodes, plan, first, file.disk.value, turns, log)
      decreases |plan.sources| - file.disk.value.cursor, file.disk.value.status == Standby
    {
      var giveUp: bool := *;
      if giveUp {
        file.disk := Some(file.disk.value.(status := Cancelled));
        break;
      }
      var relation := file.disk.value.conflict.value.relation;
      var d: Decision :| Allowed(d, relation);
      turns, log := ResumeOnce(vol, file, d, t, plan, first, turns, log);
    }
    VerdictReached(vol.leads, t, vol.nodes, plan, first, file.disk.value, turns, log);
  }

  /** An answer and the run it starts. The run gets past the source that asked. */
  method ResumeOnce(vol: Volume, file: OperationFile, d: Decision,
      ghost t: Tree, ghost plan: Plan, ghost first: Job, ghost turns: seq<Turn>, ghost log: seq<Event>)
    returns (ghost turns': seq<Turn>, ghost log': seq<Event>)
    requires plan.Valid() && WellFormed(vol.nodes) && HasDir(vol.nodes, plan.destination)
    requires file.disk.Some?
    requires RunResult(vol.leads, t, vol.nodes, plan, first, file.disk.value, turns, log)
    requires file.disk.value.status == Standby && Allowed(d, file.disk.value.conflict.value.relation)
    modifies vol, file
    ensures WellFormed(vol.nodes) && HasDir(vol.nodes, plan.destination)
    ensures file.disk.Some?
    ensures RunResult(vol.leads, t, vol.nodes, plan, first, file.disk.value, turns', log')
    ensures old(file.disk.value).cursor <= file.disk.value.cursor
    ensures file.disk.value.status == Standby ==> old(file.disk.value).cursor < file.disk.value.cursor
  {
    ghost var waiting := file.disk.value;
    ResumeFollowsProtocol(waiting, d);
    ResumeReady(vol.leads, t, vol.nodes, plan, waiting, d, turns, log);
    file.disk := Some(Resumed(file.disk.value, d));
    turns', log' := ProcessFsTransferJob(vol, file, t, plan, turns, log + [Answered(d)]);
  }

  lemma ResumeReady(leads: Resolver, t: Tree, u: Tree, plan: Plan, waiting: Job, d: Decision,
      turns: seq<Turn>, log: seq<Event>)
    requires OnTrack(leads, t, u, plan, waiting, turns, log)
    requires waiting.conflict.Some? && Allowed(d, waiting.conflict.value.relation)
    ensures ReadyToRun(leads, t, u, plan, Resumed(waiting, d), turns, log + [Answered(d)])
  {
    var asked := log + [Answered(d)];
    ReplayAppend(log, Answered(d));
    LogStillMatches(log, Answered(d), turns, []);
    PausesStillTold(leads, plan, t, turns, [], log, Answered(d));
    assert turns + [] == turns && asked[..|log|] == log;
    TakenInOrder(log);
    assert Starts(asked) == Starts(log) + [|turns|];
    assert Starts(asked)[..|Starts(asked)| - 1] == Starts(log);
  }
}
