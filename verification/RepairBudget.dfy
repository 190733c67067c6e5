/** Automatic repairs of one service when health sweeps overlap, as two processes can make them
    (backend/orchestrator/index.js, `healthSweep`): each sweep reads the restart count, restarts,
    and then writes the count it read plus one. */
module RepairBudget {
  import opened Options
  import opened ServiceState

  datatype Sweep = Idle | Repairing(read: nat, restarted: bool)

  /** `repairs` counts those completed. */
  datatype State = State(record: Record, sweeps: seq<Sweep>, repairs: nat)

  /** `Other` is what anyone else may do to the record: commands, status and health updates. */
  datatype Step =
    | Read(sweep: nat)
    | Restart(sweep: nat, now: int)
    | Write(sweep: nat, now: int)
    | GiveUp(sweep: nat)
    | Other(patch: Patch, now: int)

  /** What a completed restart writes; the status found after it is a matter of its own. */
  const RESTARTED := NO_PATCH.(restarted := true, desired := Some(WantRunning))

  function Written(read: nat): Patch {
    NO_PATCH.(restartCount := Some(read + 1))
  }

  function Next(s: State, step: Step, max: nat): Option<State> {
    match step
    case Read(i) =>
      if i < |s.sweeps| && s.sweeps[i].Idle? && s.record.desired == WantRunning && s.record.restartCount < max then
        Some(s.(sweeps := s.sweeps[i := Repairing(s.record.restartCount, false)]))
      else None
    case Restart(i, now) =>
      if i < |s.sweeps| && s.sweeps[i].Repairing? && !s.sweeps[i].restarted then
        Some(s.(record := Apply(s.record, RESTARTED, now), sweeps := s.sweeps[i := s.sweeps[i].(restarted := true)]))
      else None
    case Write(i, now) =>
      if i < |s.sweeps| && s.sweeps[i].Repairing? && s.sweeps[i].restarted then
        Some(State(Apply(s.record, Written(s.sweeps[i].read), now), s.sweeps[i := Idle], s.repairs + 1))
      else None
    case GiveUp(i) =>
      if i < |s.sweeps| then Some(s.(sweeps := s.sweeps[i := Idle])) else None
    case Other(patch, now) =>
      if patch.restartCount.None? then Some(s.(record := Apply(s.record, patch, now))) else None
  }

  function Run(s: State, steps: seq<Step>, max: nat): Option<State> {
    if steps == [] then Some(s)
    else
      var before := Run(s, steps[..|steps| - 1], max);
      if before.None? then None else Next(before.value, steps[|steps| - 1], max)
  }

  /** In how many ways `m` things can be drawn from `n` kinds: `n + m - 1` choose `m`. */
  function Multichoose(n: nat, m: nat): nat {
    if m == 0 then 1 else if n == 0 then 0 else Multichoose(n - 1, m) + Multichoose(n, m - 1)
  }

  lemma {:induction false} MultichooseGrows(a: nat, b: nat, m: nat)
    requires a <= b
    ensures Multichoose(a, m) <= Multichoose(b, m)
  {
    if a < b {
      MultichooseGrows(a, b - 1, m);
    }
  }

  /** The lowest count that a sweep may still write, less one. */
  function Level(sweep: Sweep, count: nat): nat {
    if sweep.Repairing? && sweep.read < count then sweep.read else count
  }

  function Levels(s: State): (r: seq<nat>)
    ensures |r| == |s.sweeps|
    ensures forall i :: 0 <= i < |r| ==> r[i] == Level(s.sweeps[i], s.record.restartCount)
  {
    seq(|s.sweeps|, i requires 0 <= i < |s.sweeps| => Level(s.sweeps[i], s.record.restartCount))
  }

  function Above(levels: seq<nat>, v: nat): (n: nat)
    ensures n <= |levels|
  {
    if levels == [] then 0
    else Above(levels[..|levels| - 1], v) + if levels[|levels| - 1] > v then 1 else 0
  }

  lemma {:induction false} AboveGrows(a: seq<nat>, b: seq<nat>, v: nat)
    requires |a| == |b| && forall i :: 0 <= i < |a| && a[i] > v ==> b[i] > v
    ensures Above(a, v) <= Above(b, v)
    ensures (exists i :: 0 <= i < |a| && a[i] <= v < b[i]) ==> Above(a, v) < Above(b, v)
  {
    if a != [] {
      var n := |a| - 1;
      var x, y := a[..n], b[..n];
      AboveGrows(x, y, v);
      if i :| 0 <= i < |a| && a[i] <= v < b[i] {
        assert i < n ==> x[i] <= v < y[i];
      }
    }
  }

  /** What has been used up: `v` is the count from which the sweeps started. */
  function Spent(levels: seq<nat>, v: nat, max: nat): nat
    requires v <= max
    decreases max - v
  {
    if v == max then 0 else Multichoose(Above(levels, v), max - v) + Spent(levels, v + 1, max)
  }

  lemma {:induction false} SpentGrows(a: seq<nat>, b: seq<nat>, v: nat, max: nat)
    requires |a| == |b| && (forall i :: 0 <= i < |a| ==> a[i] <= b[i]) && v <= max
    ensures Spent(a, v, max) <= Spent(b, v, max)
    decreases max - v
  {
    if v < max {
      AboveGrows(a, b, v);
      MultichooseGrows(Above(a, v), Above(b, v), max - v);
      SpentGrows(a, b, v + 1, max);
    }
  }

  lemma {:induction false} SpentAtMost(levels: seq<nat>, n: nat, v: nat, max: nat)
    requires v <= max && forall u: nat {:trigger Above(levels, u)} :: v <= u ==> Above(levels, u) <= n
    ensures Spent(levels, v, max) < Multichoose(n + 1, max - v)
    decreases max - v
  {
    if v < max {
      MultichooseGrows(Above(levels, v), n, max - v);
      SpentAtMost(levels, n, v + 1, max);
    }
  }

  lemma {:induction false} AboveShrinks(levels: seq<nat>, v: nat, u: nat)
    requires v <= u
    ensures Above(levels, u) <= Above(levels, v)
  {
    if levels != [] {
      AboveShrinks(levels[..|levels| - 1], v, u);
    }
  }

  /** Raising one level past `at` pays for everything that was spent above, and for one more. */
  lemma {:induction false} RaisePays(a: seq<nat>, b: seq<nat>, i: nat, at: nat, v: nat, max: nat)
    requires |a| == |b| && v <= at < max && i < |a| && a[i] <= at < b[i]
    requires forall k :: 0 <= k < |a| ==> a[k] <= b[k] || at < b[k]
    ensures Spent(a, v, max) < Spent(b, v, max)
    decreases max - v
  {
    AboveGrows(a, b, v);
    if v < at {
      MultichooseGrows(Above(a, v), Above(b, v), max - v);
      RaisePays(a, b, i, at, v + 1, max);
    } else {
      var n := Above(a, at);
      forall u: nat | at + 1 <= u
        ensures Above(a, u) <= n
      {
        AboveShrinks(a, at, u);
      }
      SpentAtMost(a, n, at + 1, max);
      MultichooseGrows(n + 1, Above(b, at), max - at);
    }
  }

  /** Every count in play is at least `low`, and the repairs so far are paid for. */
  ghost predicate Paid(s: State, low: nat, max: nat) {
    && low <= max && low <= s.record.restartCount
    && (forall i :: 0 <= i < |s.sweeps| && s.sweeps[i].Repairing? ==> low <= s.sweeps[i].read < max)
    && s.repairs <= Spent(Levels(s), low, max)
  }

  lemma StepPays(s: State, step: Step, low: nat, max: nat)
    requires Paid(s, low, max) && Next(s, step, max).Some?
    ensures Paid(Next(s, step, max).value, low, max)
    ensures |Next(s, step, max).value.sweeps| == |s.sweeps|
  {
    var s' := Next(s, step, max).value;
    var a, b := Levels(s), Levels(s');
    if step.Write? {
      RaisePays(a, b, step.sweep, a[step.sweep], low, max);
    } else {
      SpentGrows(a, b, low, max);
    }
  }

  lemma {:induction false} RunPays(s: State, steps: seq<Step>, low: nat, max: nat)
    requires Paid(s, low, max) && Run(s, steps, max).Some?
    ensures Paid(Run(s, steps, max).value, low, max)
    ensures |Run(s, steps, max).value.sweeps| == |s.sweeps|
  {
    if steps != [] {
      var n := |steps| - 1;
      RunPays(s, steps[..n], low, max);
      StepPays(Run(s, steps[..n], max).value, steps[n], low, max);
    }
  }

  /** Nothing under way, and the count still within the budget. */
  predicate AtRest(s: State, max: nat) {
    && s.record.restartCount <= max && s.repairs == 0
    && forall i :: 0 <= i < |s.sweeps| ==> s.sweeps[i].Idle?
  }

  /** However `k` sweeps interleave, with each other and with anyone else's commands, they complete
      fewer than `k + m` choose `m` repairs, where `m` is what the budget leaves. */
  lemma RepairsBounded(s: State, steps: seq<Step>, max: nat)
    requires AtRest(s, max) && Run(s, steps, max).Some?
    ensures Run(s, steps, max).value.repairs < Multichoose(|s.sweeps| + 1, max - s.record.restartCount)
  {
    var low := s.record.restartCount;
    RunPays(s, steps, low, max);
    SpentAtMost(Levels(Run(s, steps, max).value), |s.sweeps|, low, max);
  }

  lemma {:induction false} RunAppend(s: State, a: seq<Step>, b: seq<Step>, max: nat)
    requires Run(s, a, max).Some?
    ensures Run(s, a + b, max) == Run(Run(s, a, max).value, b, max)
  {
    if b == [] {
      assert a + b == a;
    } else {
      var n := |b| - 1;
      RunAppend(s, a, b[..n], max);
      assert (a + b)[..|a + b| - 1] == a + b[..n];
    }
  }

  lemma RunOne(s: State, step: Step, max: nat)
    ensures Run(s, [step], max) == Next(s, step, max)
  {
    assert [step][..0] == [];
  }

  /** The first `j` sweeps all read the same count. */
  lemma {:induction false} AllRead(s: State, j: nat, max: nat) returns (steps: seq<Step>, end: State)
    requires j <= |s.sweeps| && forall i :: 0 <= i < j ==> s.sweeps[i].Idle?
    requires s.record.desired == WantRunning && s.record.restartCount < max
    ensures Run(s, steps, max) == Some(end)
    ensures end.record == s.record && end.repairs == s.repairs && |end.sweeps| == |s.sweeps|
    ensures forall i :: 0 <= i < j ==> end.sweeps[i] == Repairing(s.record.restartCount, false)
    ensures forall i :: j <= i < |s.sweeps| ==> end.sweeps[i] == s.sweeps[i]
  {
    steps, end := [], s;
    if j > 0 {
      var front, mid := AllRead(s, j - 1, max);
      RunAppend(s, front, [Read(j - 1)], max);
      RunOne(mid, Read(j - 1), max);
      steps, end := front + [Read(j - 1)], Next(mid, Read(j - 1), max).value;
    }
  }

  /** A run in which the first `j` sweeps complete as many repairs as they can. */
  lemma {:induction false} WorstRun(s: State, j: nat, max: nat) returns (steps: seq<Step>, end: State)
    requires j <= |s.sweeps| && forall i :: 0 <= i < j ==> s.sweeps[i].Idle?
    requires s.record.desired == WantRunning && s.record.restartCount <= max
    ensures Run(s, steps, max) == Some(end) && |end.sweeps| == |s.sweeps| && end.record.desired == WantRunning
    ensures end.repairs + 1 == s.repairs + Multichoose(j + 1, max - s.record.restartCount)
    ensures forall i :: 0 <= i < j ==> end.sweeps[i].Idle?
    ensures forall i :: j <= i < |s.sweeps| ==> end.sweeps[i] == s.sweeps[i]
    decreases max - s.record.restartCount, j + 1
  {
    steps, end := [], s;
    if s.record.restartCount < max {
      var reading, held := AllRead(s, j, max);
      var rest;
      rest, end := Releases(held, j, j, s.record.restartCount, max);
      RunAppend(s, reading, rest, max);
      steps := reading + rest;
    }
  }

  /** Of `j` sweeps that have read `count`, the first `k` write one after the other; after each write
      the sweeps that are free again do their worst before the next. */
  lemma {:induction false} Releases(s: State, k: nat, j: nat, count: nat, max: nat)
    returns (steps: seq<Step>, end: State)
    requires k <= j <= |s.sweeps| && count < max && s.record.desired == WantRunning
    requires forall i :: 0 <= i < j ==> s.sweeps[i] == Repairing(count, false)
    ensures Run(s, steps, max) == Some(end) && |end.sweeps| == |s.sweeps| && end.record.desired == WantRunning
    ensures end.repairs + 1 == s.repairs + Multichoose(k + 1, max - count)
    ensures forall i :: 0 <= i < k ==> end.sweeps[i].Idle?
    ensures forall i :: k <= i < |s.sweeps| ==> end.sweeps[i] == s.sweeps[i]
    decreases max - count, k
  {
    steps, end := [], s;
    if k == 0 {
      OneKind(max - count);
    } else {
      var front, mid := Releases(s, k - 1, j, count, max);
      var rest;
      rest, end := Release(mid, k, count, max);
      RunAppend(s, front, rest, max);
      steps := front + rest;
    }
  }

  /** One of them writes, and the `k` sweeps that are free then do their worst. */
  lemma {:induction false} Release(s: State, k: nat, count: nat, max: nat) returns (steps: seq<Step>, end: State)
    requires 0 < k <= |s.sweeps| && count < max && s.sweeps[k - 1] == Repairing(count, false)
    requires forall i :: 0 <= i < k - 1 ==> s.sweeps[i].Idle?
    ensures Run(s, steps, max) == Some(end) && |end.sweeps| == |s.sweeps| && end.record.desired == WantRunning
    ensures end.repairs == s.repairs + Multichoose(k + 1, max - count - 1)
    ensures forall i :: 0 <= i < k ==> end.sweeps[i].Idle?
    ensures forall i :: k <= i < |s.sweeps| ==> end.sweeps[i] == s.sweeps[i]
    decreases max - count, 0
  {
    var own, after := RestartAndWrite(s, k - 1, max);
    var worst;
    worst, end := WorstRun(after, k, max);
    RunAppend(s, own, worst, max);
    steps := own + worst;
  }

  lemma {:induction false} OneKind(m: nat)
    ensures Multichoose(1, m) == 1
  {
    if m > 0 {
      OneKind(m - 1);
    }
  }

  lemma RestartAndWrite(s: State, i: nat, max: nat) returns (steps: seq<Step>, end: State)
    requires i < |s.sweeps| && s.sweeps[i].Repairing? && !s.sweeps[i].restarted
    ensures Run(s, steps, max) == Some(end)
    ensures end.record.restartCount == s.sweeps[i].read + 1 && end.record.desired == WantRunning
    ensures end.sweeps == s.sweeps[i := Idle] && end.repairs == s.repairs + 1
  {
    var mid := Next(s, Restart(i, 0), max).value;
    end := Next(mid, Write(i, 0), max).value;
    RunOne(s, Restart(i, 0), max);
    RunOne(mid, Write(i, 0), max);
    RunAppend(s, [Restart(i, 0)], [Write(i, 0)], max);
    steps := [Restart(i, 0)] + [Write(i, 0)];
  }

  /** The bound is reached, once the service is meant to be running. */
  lemma RepairsReached(s: State, max: nat) returns (steps: seq<Step>)
    requires AtRest(s, max)
    ensures Run(s, steps, max).Some?
    ensures Run(s, steps, max).value.repairs + 1 == Multichoose(|s.sweeps| + 1, max - s.record.restartCount)
  {
    var wanted := Other(NO_PATCH.(desired := Some(WantRunning)), 0);
    var first := Next(s, wanted, max).value;
    var worst, end := WorstRun(first, |s.sweeps|, max);
    steps := [wanted] + worst;
    RunOne(s, wanted, max);
    RunAppend(s, [wanted], worst, max);
  }

  lemma {:induction false} TwoKinds(m: nat)
    ensures Multichoose(2, m) == m + 1
  {
    OneKind(m);
    if m > 0 {
      TwoKinds(m - 1);
    }
  }

  lemma {:induction false} ThreeKinds(n: nat, m: nat)
    requires n >= 3 && m >= 1
    ensures Multichoose(n, m) > m + 1
  {
    TwoKinds(m);
    if n == 3 {
      MultichooseGrows(2, 3, m - 1);
      TwoKinds(m - 1);
    } else {
      ThreeKinds(n - 1, m);
    }
  }

  /** Sweeps keep to the budget, whatever else happens, exactly if no two of them can overlap or the
      budget is used up already. */
  lemma BudgetKeptExactly(s: State, max: nat)
    requires AtRest(s, max)
    ensures (forall steps :: Run(s, steps, max).Some? ==>
               Run(s, steps, max).value.repairs <= max - s.record.restartCount)
      <==> |s.sweeps| <= 1 || s.record.restartCount == max
  {
    var k, m := |s.sweeps|, max - s.record.restartCount;
    if k <= 1 || m == 0 {
      forall steps | Run(s, steps, max).Some?
        ensures Run(s, steps, max).value.repairs <= m
      {
        RepairsBounded(s, steps, max);
        MultichooseGrows(k + 1, if k <= 1 then 2 else k + 1, m);
        TwoKinds(m);
      }
    } else {
      var steps := RepairsReached(s, max);
      ThreeKinds(k + 1, m);
      assert Run(s, steps, max).value.repairs > m;
    }
  }
}
