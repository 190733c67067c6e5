/** A service that an operator has stopped, while health sweeps are under way
    (backend/orchestrator/index.js, `healthSweep`): a sweep decides on what it read, so one that has
    read the record and not yet restarted the service overrides a stop that comes in between. */
module RepairStops {
  import opened Options
  import opened ServiceState
  import opened RepairBudget

  /** Some sweep has found the service due, and has yet to restart it. */
  predicate Halfway(s: State) {
    exists i :: 0 <= i < |s.sweeps| && s.sweeps[i].Repairing? && !s.sweeps[i].restarted
  }

  predicate AsksToRun(step: Step) {
    step.Other? && step.patch.desired == Some(WantRunning)
  }

  predicate NobodyAsksToRun(steps: seq<Step>) {
    forall k :: 0 <= k < |steps| ==> !AsksToRun(steps[k])
  }

  lemma StaysStopped(s: State, step: Step, max: nat)
    requires s.record.desired != WantRunning && !Halfway(s) && !AsksToRun(step) && Next(s, step, max).Some?
    ensures !step.Restart? && !step.Read?
    ensures Next(s, step, max).value.record.desired != WantRunning && !Halfway(Next(s, step, max).value)
  {
  }

  /** With no sweep half-way, no sweep restarts a service that is not meant to run. */
  lemma {:induction false} StopHolds(s: State, steps: seq<Step>, max: nat)
    requires s.record.desired != WantRunning && !Halfway(s)
    requires Run(s, steps, max).Some? && NobodyAsksToRun(steps)
    ensures Run(s, steps, max).value.record.desired != WantRunning && !Halfway(Run(s, steps, max).value)
    ensures forall k :: 0 <= k < |steps| ==> !steps[k].Restart?
  {
    if steps != [] {
      var front, last := steps[..|steps| - 1], steps[|steps| - 1];
      StopHolds(s, front, max);
      StaysStopped(Run(s, front, max).value, last, max);
      assert forall k :: 0 <= k < |front| ==> front[k] == steps[k];
    }
  }

  /** After these steps the service is meant to run, though nobody has asked for it. */
  predicate WantedUnasked(s: State, steps: seq<Step>, max: nat) {
    && NobodyAsksToRun(steps) && Run(s, steps, max).Some?
    && Run(s, steps, max).value.record.desired == WantRunning
  }

  /** A service comes to be wanted again without anyone asking exactly if some sweep is half-way. */
  lemma StopUndoneExactly(s: State, max: nat)
    requires s.record.desired != WantRunning
    ensures Halfway(s) <==> exists steps :: WantedUnasked(s, steps, max)
  {
    if Halfway(s) {
      var i :| 0 <= i < |s.sweeps| && s.sweeps[i].Repairing? && !s.sweeps[i].restarted;
      var steps := [Restart(i, 0)];
      assert steps[..0] == [] && Run(s, [], max) == Some(s);
      assert WantedUnasked(s, steps, max);
    } else if steps :| WantedUnasked(s, steps, max) {
      StopHolds(s, steps, max);
    }
  }
}
