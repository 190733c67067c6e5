/** Stored service records (backend/state/engine.js). */
module ServiceState {
  import opened Options

  datatype Desired = Unset | WantRunning | WantStopped

  datatype Record = Record(
    restartCount: nat,
    desired: Desired,
    running: bool,
    status: string,
    startedAt: Option<int>)

  /** The fields a caller may pass to `updateService`; `None` leaves a field alone. */
  datatype Patch = Patch(
    desired: Option<Desired>,
    restarted: bool,
    running: Option<bool>,
    status: Option<string>,
    restartCount: Option<nat>)

  const NO_PATCH := Patch(None, false, None, None, None)
  const NEW_RECORD := Record(0, Unset, false, "", None)

  predicate SaysRunning(r: Record) {
    r.running || r.status == "running"
  }

  function NextStatus(r: Record, p: Patch): string {
    if p.status.Some? && p.status.value != "" then p.status.value else r.status
  }

  predicate BecomesRunning(r: Record, p: Patch) {
    p.running == Some(true) || NextStatus(r, p) == "running"
  }

  /** A `restart` action counts on top of whatever count the patch itself carries. */
  function Apply(r: Record, p: Patch, now: int): Record {
    Record(
      if p.restarted then r.restartCount + 1
      else if p.restartCount.Some? then p.restartCount.value else r.restartCount,
      if p.desired.Some? then p.desired.value else r.desired,
      if p.running.Some? then p.running.value else r.running,
      if p.status.Some? then p.status.value else r.status,
      if !BecomesRunning(r, p) then r.startedAt
      else if SaysRunning(r) && r.startedAt.Some? then r.startedAt
      else Some(now))
  }

  function CountIn(records: map<string, Record>, name: string): nat {
    if name in records then records[name].restartCount else 0
  }

  function RecordOf(records: map<string, Record>, name: string): Record {
    if name in records then records[name] else NEW_RECORD
  }

  /** The only restart count that changed is that of `name`, by `raise`. */
  ghost predicate CountRaised(before: map<string, Record>, after: map<string, Record>, name: string, raise: nat) {
    forall n {:trigger CountIn(after, n)} ::
      CountIn(after, n) == CountIn(before, n) + (if n == name then raise else 0)
  }

  ghost predicate CountsKept(before: map<string, Record>, after: map<string, Record>) {
    forall n {:trigger CountIn(after, n)} :: CountIn(after, n) == CountIn(before, n)
  }

  class StateEngine {
    var records: map<string, Record>

    constructor ()
      ensures records == map[]
    {
      records := map[];
    }

    function Get(name: string): Record
      reads this
    {
      RecordOf(records, name)
    }

    method UpdateService(name: string, patch: Patch, now: int)
      modifies this
      ensures records == old(records)[name := Apply(old(Get(name)), patch, now)]
    {
      var current := Get(name);
      var nextStatus := NextStatus(current, patch);
      var isRunning := patch.running == Some(true) || nextStatus == "running";
      var startedAt := current.startedAt;
      if isRunning && !(SaysRunning(current) && current.startedAt.Some?) {
        startedAt := Some(now);
      }
      var count := if patch.restartCount.Some? then patch.restartCount.value else current.restartCount;
      if patch.restarted {
        count := current.restartCount + 1;
      }
      records := records[name := Record(
        count,
        if patch.desired.Some? then patch.desired.value else current.desired,
        if patch.running.Some? then patch.running.value else current.running,
        if patch.status.Some? then patch.status.value else current.status,
        startedAt)];
    }
  }

  /** The records after a run of updates at the given times. */
  function ApplyAll(r: Record, patches: seq<(Patch, int)>): Record {
    if patches == [] then r
    else Apply(ApplyAll(r, patches[..|patches| - 1]), patches[|patches| - 1].0, patches[|patches| - 1].1)
  }

  /** Within one uninterrupted spell of running the start time is set once and kept. */
  lemma {:induction false} StartTimeStable(r: Record, patches: seq<(Patch, int)>)
    requires r.startedAt.Some?
    requires forall i :: 0 <= i <= |patches| ==> SaysRunning(ApplyAll(r, patches[..i]))
    ensures ApplyAll(r, patches).startedAt == r.startedAt
    ensures SaysRunning(ApplyAll(r, patches))
  {
    if patches != [] {
      var n := |patches| - 1;
      var front := patches[..n];
      assert forall i :: 0 <= i <= n ==> front[..i] == patches[..i];
      assert patches[..|patches|] == patches;
      StartTimeStable(r, front);
    }
  }

  /** In a spell of running, the start time is that of the update that began the spell. */
  lemma StartTimeOfSpell(r: Record, p: Patch, began: int, patches: seq<(Patch, int)>)
    requires !r.running && r.status != "running" && (p.running == Some(true) || p.status == Some("running"))
    requires var first := Apply(r, p, began);
      forall i :: 0 <= i <= |patches| ==>
        ApplyAll(first, patches[..i]).running || ApplyAll(first, patches[..i]).status == "running"
    ensures ApplyAll(Apply(r, p, began), patches).startedAt == Some(began)
  {
    StartTimeStable(Apply(r, p, began), patches);
  }

  function Restarts(patches: seq<(Patch, int)>): nat {
    if patches == [] then 0
    else Restarts(patches[..|patches| - 1]) + if patches[|patches| - 1].0.restarted then 1 else 0
  }

  predicate NoneSetsTheCount(patches: seq<(Patch, int)>) {
    forall i :: 0 <= i < |patches| ==> patches[i].0.restartCount.None?
  }

  lemma {:induction false} RestartsCount(r: Record, patches: seq<(Patch, int)>)
    requires NoneSetsTheCount(patches)
    ensures ApplyAll(r, patches).restartCount == r.restartCount + Restarts(patches)
  {
    if patches != [] {
      RestartsCount(r, patches[..|patches| - 1]);
    }
  }

  /** The read and the write of a repair are separate. After any updates in between, the write leaves
      the right count exactly if they hold one restart, that of the repair itself. */
  lemma WrittenCountRightExactly(r: Record, between: seq<(Patch, int)>, now: int)
    requires NoneSetsTheCount(between)
    ensures var write := (NO_PATCH.(restartCount := Some(r.restartCount + 1)), now);
      ApplyAll(r, between + [write]).restartCount == r.restartCount + Restarts(between) <==> Restarts(between) == 1
  {
    var write := (NO_PATCH.(restartCount := Some(r.restartCount + 1)), now);
    assert (between + [write])[..|between|] == between;
    RestartsCount(r, between);
  }

  /** Two restarts between a read and its write: one is lost from the count. */
  lemma InterleavedRestartLost(r: Record, now: int)
    ensures var c := r.restartCount;
      var restart := NO_PATCH.(restarted := true);
      var write := NO_PATCH.(restartCount := Some(c + 1));
      && ApplyAll(r, [(restart, now), (restart, now)]).restartCount == c + 2
      && ApplyAll(r, [(restart, now), (restart, now), (write, now)]).restartCount == c + 1
  {
    var restart := NO_PATCH.(restarted := true);
    var write := NO_PATCH.(restartCount := Some(r.restartCount + 1));
    var three := [(restart, now), (restart, now), (write, now)];
    var two := [(restart, now), (restart, now)];
    assert three[..2] == two && two[..1] == [(restart, now)] && [(restart, now)][..0] == [];
    assert ApplyAll(r, two[..1]).restartCount == r.restartCount + 1;
  }
}
