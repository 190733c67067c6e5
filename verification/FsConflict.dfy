/** The conflict protocol of a transfer, as an acceptor of its visible events. It is written down
    independently of the code: FsTransfer proves that every run is accepted, and the lemmas here
    say what acceptance means. */
module FsConflict {
  import opened Options
  import opened FsJob

  datatype Decision = ReplaceOne | SkipOne | ReplaceAllDifferent | SkipAllSame

  /** How a source index was used up. */
  datatype How = Delivered | Replaced | Skipped | Errored

  datatype Event =
    | Took(index: nat, how: How)
    | Paused(index: nat, relation: SizeRelation)
    | Answered(decision: Decision)

  datatype Phase = Working | Waiting(relation: SizeRelation) | Decided(resolution: Resolution)

  datatype Protocol = Protocol(next: nat, phase: Phase, policy: Policy)

  const START := Protocol(0, Working, Policy(false, false))

  /** A sticky policy that settles conflicts of this kind without asking. */
  predicate Covers(policy: Policy, relation: SizeRelation) {
    || (policy.replaceAllDifferentSize && relation == Different)
    || (policy.skipAllSameSize && relation == Same)
  }

  /** The bulk decisions are only offered for the kind of conflict they name. */
  predicate Allowed(decision: Decision, relation: SizeRelation) {
    && (decision == ReplaceAllDifferent ==> relation == Different)
    && (decision == SkipAllSame ==> relation == Same)
  }

  function ResolutionOf(decision: Decision): Resolution {
    if decision == ReplaceOne || decision == ReplaceAllDifferent then Replace else Skip
  }

  function PolicyAfter(policy: Policy, decision: Decision): Policy {
    Policy(policy.replaceAllDifferentSize || decision == ReplaceAllDifferent,
           policy.skipAllSameSize || decision == SkipAllSame)
  }

  predicate Resolvable(job: Job, d: Decision) {
    && (job.kind == Copy || job.kind == Move) && job.status == Standby
    && job.conflict.Some? && Allowed(d, job.conflict.value.relation)
  }

  /** The record after an accepted conflict decision. */
  function Resumed(job: Job, d: Decision): Job {
    job.(conflict := None, policy := PolicyAfter(job.policy, d), resolution := ResolutionOf(d), status := Queued)
  }

  /** What happens to an existing target needs a reason: the answer to this very conflict, or, where
      there is none, a sticky policy. */
  predicate Justified(p: Protocol, how: How) {
    && (how == Skipped ==> p.phase == Decided(Skip) || (p.phase == Working && p.policy.skipAllSameSize))
    && (how == Replaced ==> p.phase == Decided(Replace) || (p.phase == Working && p.policy.replaceAllDifferentSize))
  }

  /** One event; `None` when the protocol forbids it. */
  function Step(p: Protocol, e: Event): Option<Protocol> {
    match e
    case Took(i, how) =>
      if i == p.next && !p.phase.Waiting? && Justified(p, how)
      then Some(Protocol(p.next + 1, Working, p.policy)) else None
    case Paused(i, relation) =>
      if i == p.next && p.phase.Working? && !Covers(p.policy, relation)
      then Some(p.(phase := Waiting(relation))) else None
    case Answered(d) =>
      if p.phase.Waiting? && Allowed(d, p.phase.relation)
      then Some(Protocol(p.next, Decided(ResolutionOf(d)), PolicyAfter(p.policy, d))) else None
  }

  function Replay(log: seq<Event>): Option<Protocol> {
    if log == [] then Some(START)
    else
      match Replay(log[..|log| - 1])
      case None => None
      case Some(p) => Step(p, log[|log| - 1])
  }

  lemma ReplayAppend(log: seq<Event>, e: Event)
    ensures Replay(log + [e]) == match Replay(log) { case None => None case Some(p) => Step(p, e) }
  {
    assert (log + [e])[..|log|] == log;
  }

  lemma {:induction false} ReplayPrefix(log: seq<Event>, n: nat)
    requires n <= |log| && Replay(log).Some?
    ensures Replay(log[..n]).Some?
    decreases |log| - n
  {
    if n == |log| {
      assert log[..n] == log;
    } else {
      ReplayPrefix(log, n + 1);
      assert log[..n + 1][..n] == log[..n];
    }
  }

  function Takes(log: seq<Event>): seq<nat> {
    if log == [] then []
    else
      var e := log[|log| - 1];
      Takes(log[..|log| - 1]) + if e.Took? then [e.index] else []
  }

  function Pauses(log: seq<Event>): seq<nat> {
    if log == [] then []
    else
      var e := log[|log| - 1];
      Pauses(log[..|log| - 1]) + if e.Paused? then [e.index] else []
  }

  /** Source indices are used up one after the other, none skipped and none repeated. */
  lemma {:induction false} TakenInOrder(log: seq<Event>)
    requires Replay(log).Some?
    ensures Takes(log) == seq(Replay(log).value.next, i => i)
  {
    if log != [] {
      var n := |log| - 1;
      ReplayPrefix(log, n);
      TakenInOrder(log[..n]);
    }
  }

  /** Pauses come at strictly increasing indices: no index pauses twice, however often the
      transfer is resumed. */
  lemma {:induction false} PausedOnceEach(log: seq<Event>)
    requires Replay(log).Some?
    ensures forall i, j :: 0 <= i < j < |Pauses(log)| ==> Pauses(log)[i] < Pauses(log)[j]
    ensures var p := Replay(log).value;
      forall i :: 0 <= i < |Pauses(log)| ==>
        Pauses(log)[i] < p.next || (Pauses(log)[i] == p.next && !p.phase.Working?)
  {
    if log != [] {
      var n := |log| - 1;
      ReplayPrefix(log, n);
      PausedOnceEach(log[..n]);
    }
  }

  /** Sticky policies are never withdrawn. */
  lemma {:induction false} PolicySticks(log: seq<Event>, n: nat)
    requires n <= |log| && Replay(log).Some?
    ensures Replay(log[..n]).Some?
    ensures Replay(log[..n]).value.policy.replaceAllDifferentSize ==> Replay(log).value.policy.replaceAllDifferentSize
    ensures Replay(log[..n]).value.policy.skipAllSameSize ==> Replay(log).value.policy.skipAllSameSize
    decreases |log|
  {
    ReplayPrefix(log, n);
    if n < |log| {
      ReplayPrefix(log, |log| - 1);
      assert log[..|log| - 1][..n] == log[..n];
      PolicySticks(log[..|log| - 1], n);
    } else {
      assert log[..n] == log;
    }
  }

  /** Once a bulk decision is given, no later conflict of its kind stops the transfer. */
  lemma BulkDecisionHolds(log: seq<Event>, n: nat, m: nat)
    requires Replay(log).Some? && n < m < |log|
    requires log[n].Answered? && log[m].Paused?
    ensures log[n].decision == ReplaceAllDifferent ==> log[m].relation != Different
    ensures log[n].decision == SkipAllSame ==> log[m].relation != Same
  {
    ReplayPrefix(log, m + 1);
    assert log[..m + 1][..m] == log[..m];
    ReplayPrefix(log, m);
    assert log[..m][..n + 1] == log[..n + 1];
    PolicySticks(log[..m], n + 1);
    assert log[..n + 1][..n] == log[..n];
    ReplayPrefix(log, n);
  }

  /** An answer is consumed by the very source that asked: the next event takes its index. */
  lemma AnswerUsedAtOnce(log: seq<Event>, n: nat)
    requires Replay(log).Some? && 0 < n && n + 1 < |log| && log[n].Answered?
    ensures log[n - 1].Paused? && log[n + 1].Took? && log[n + 1].index == log[n - 1].index
  {
    ReplayPrefix(log, n + 2);
    ReplayPrefix(log, n + 1);
    ReplayPrefix(log, n);
    ReplayPrefix(log, n - 1);
    assert log[..n + 2][..n + 1] == log[..n + 1];
    assert log[..n + 1][..n] == log[..n];
    assert log[..n][..n - 1] == log[..n - 1];
  }

  /** The answers that let a target go, and those that keep it. */
  predicate SaysReplace(e: Event) {
    e == Answered(ReplaceOne) || e == Answered(ReplaceAllDifferent)
  }

  predicate SaysSkip(e: Event) {
    e == Answered(SkipOne) || e == Answered(SkipAllSame)
  }

  /** A source is decided on by the answer just given for it, never by an older one, and by the answer
      that it was: a bulk decision decides its own conflict too. */
  lemma DecidedByAnswer(log: seq<Event>, n: nat)
    requires Replay(log).Some? && n <= |log|
    ensures Replay(log[..n]).Some?
    ensures Replay(log[..n]).value.phase == Decided(Replace) <==> n > 0 && SaysReplace(log[n - 1])
    ensures Replay(log[..n]).value.phase == Decided(Skip) <==> n > 0 && SaysSkip(log[n - 1])
    ensures Replay(log[..n]).value.phase.Decided? ==> Replay(log[..n]).value.phase.resolution != Undecided
  {
    ReplayPrefix(log, n);
    if n > 0 {
      ReplayPrefix(log, n - 1);
      assert log[..n][..n - 1] == log[..n - 1];
    }
  }

  /** A sticky policy is in force exactly if its bulk decision has been given. */
  lemma {:induction false} PolicyGivenExactly(log: seq<Event>)
    requires Replay(log).Some?
    ensures Replay(log).value.policy.replaceAllDifferentSize <==> Answered(ReplaceAllDifferent) in log
    ensures Replay(log).value.policy.skipAllSameSize <==> Answered(SkipAllSame) in log
  {
    if log != [] {
      var n := |log| - 1;
      ReplayPrefix(log, n);
      PolicyGivenExactly(log[..n]);
      assert log == log[..n] + [log[n]];
    }
  }

  /** A bulk decision answers a conflict of the kind it names. */
  lemma BulkAnswersItsKind(log: seq<Event>, n: nat)
    requires Replay(log).Some? && n < |log| && log[n].Answered?
    ensures n > 0 && log[n - 1].Paused?
    ensures log[n].decision == ReplaceAllDifferent ==> log[n - 1].relation == Different
    ensures log[n].decision == SkipAllSame ==> log[n - 1].relation == Same
  {
    ReplayPrefix(log, n + 1);
    ReplayPrefix(log, n);
    assert log[..n + 1][..n] == log[..n];
    if n > 0 {
      ReplayPrefix(log, n - 1);
      assert log[..n][..n - 1] == log[..n - 1];
    }
  }

  /** A source taken right after an answer is dealt with as the answer says; one taken without is
      skipped or replaces its target only if the bulk decision for that was given before. */
  lemma TakesHaveReasons(log: seq<Event>, n: nat)
    requires Replay(log).Some? && n < |log| && log[n].Took?
    ensures n > 0 && SaysSkip(log[n - 1]) ==> log[n].how != Replaced
    ensures n > 0 && SaysReplace(log[n - 1]) ==> log[n].how != Skipped
    ensures log[n].how == Skipped && !(n > 0 && log[n - 1].Answered?) ==> Answered(SkipAllSame) in log[..n]
    ensures log[n].how == Replaced && !(n > 0 && log[n - 1].Answered?) ==> Answered(ReplaceAllDifferent) in log[..n]
  {
    ReplayPrefix(log, n + 1);
    DecidedByAnswer(log, n);
    PolicyGivenExactly(log[..n]);
    assert log[..n + 1][..n] == log[..n];
  }

  /** How far a transfer of `n` sources is from its end. */
  function Remaining(p: Protocol, n: nat): (int, nat) {
    (n - p.next, if p.phase.Working? then 2 else if p.phase.Waiting? then 1 else 0)
  }

  /** Every event brings the transfer closer to its end, so no run is endless. */
  lemma EventsDescend(p: Protocol, e: Event, n: nat)
    requires Step(p, e).Some?
    ensures var (a, b) := Remaining(p, n); var (c, d) := Remaining(Step(p, e).value, n);
      c < a || (c == a && d < b)
  {
  }
}
