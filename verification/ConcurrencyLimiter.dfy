/** The concurrency limiter (server/src/main/kernel.js, `createConcurrencyLimiter`). Jobs are named by
    the order in which they arrive. */
module ConcurrencyLimiter {
  import opened Numbers

  type Ticket = nat

  datatype State = State(
    active: nat,
    queue: seq<Ticket>,
    arrived: nat,
    started: seq<Ticket>,
    settled: map<Ticket, bool>)

  const IDLE := State(0, [], 0, [], map[])

  datatype Event = Arrive | Settle(job: Ticket, ok: bool)

  function RunNext(s: State, max: nat): State {
    if s.active >= max || s.queue == [] then s
    else s.(active := s.active + 1, queue := s.queue[1..], started := s.started + [s.queue[0]])
  }

  function Step(s: State, e: Event, max: nat): State {
    match e
    case Arrive => RunNext(s.(queue := s.queue + [s.arrived], arrived := s.arrived + 1), max)
    case Settle(job, ok) =>
      RunNext(s.(active := if s.active > 0 then s.active - 1 else 0, settled := s.settled[job := ok]), max)
  }

  function After(events: seq<Event>, max: nat): State {
    if events == [] then IDLE else Step(After(events[..|events| - 1], max), events[|events| - 1], max)
  }

  /** Only a job that is running can settle. */
  predicate Possible(s: State, e: Event) {
    e.Settle? ==> e.job in s.started && e.job !in s.settled
  }

  ghost predicate PossibleRun(events: seq<Event>, max: nat) {
    forall n :: 0 <= n < |events| ==> Possible(After(events[..n], max), events[n])
  }

  function Tickets(from: nat, to: nat): seq<Ticket>
    requires from <= to
  {
    seq(to - from, i requires 0 <= i => from + i)
  }

  /** The whole state, given how many jobs have arrived and which have settled: every job that has
      arrived is started as soon as a slot is free, in order of arrival. */
  ghost predicate Lawful(s: State, max: nat) {
    var n := Min(s.arrived, |s.settled| + max);
    && s.started == Tickets(0, n)
    && s.queue == Tickets(n, s.arrived)
    && |s.settled| <= n && s.active == n - |s.settled|
    && forall t :: t in s.settled ==> t < n
  }

  /** Lawful, but that one job has just arrived or one slot has just become free. */
  ghost predicate AlmostLawful(s: State, max: nat, n: nat)
    requires n <= s.arrived
  {
    && s.started == Tickets(0, n) && s.queue == Tickets(n, s.arrived)
    && |s.settled| <= n && s.active == n - |s.settled| <= max
    && (s.active + 1 < max ==> n + 1 >= s.arrived)
    && forall t :: t in s.settled ==> t < n
  }

  lemma RunNextLawful(s: State, max: nat, n: nat)
    requires n <= s.arrived && AlmostLawful(s, max, n)
    ensures Lawful(RunNext(s, max), max)
  {
    var f := RunNext(s, max);
    if s.active >= max || s.queue == [] {
      assert n == Min(s.arrived, |s.settled| + max);
    } else {
      assert s.queue[0] == n;
      assert s.queue[1..] == Tickets(n + 1, s.arrived);
      assert s.started + [n] == Tickets(0, n + 1);
    }
  }

  lemma ArriveLawful(s: State, max: nat)
    requires Lawful(s, max)
    ensures Lawful(Step(s, Arrive, max), max)
  {
    var n := Min(s.arrived, |s.settled| + max);
    var t := s.(queue := s.queue + [s.arrived], arrived := s.arrived + 1);
    assert t.queue == Tickets(n, t.arrived);
    RunNextLawful(t, max, n);
  }

  lemma SettleLawful(s: State, job: Ticket, ok: bool, max: nat)
    requires Lawful(s, max) && Possible(s, Settle(job, ok))
    ensures Lawful(Step(s, Settle(job, ok), max), max)
  {
    var n := Min(s.arrived, |s.settled| + max);
    RunningCount(s, job, n);
    var t := s.(active := s.active - 1, settled := s.settled[job := ok]);
    assert t.settled.Keys == s.settled.Keys + {job};
    RunNextLawful(t, max, n);
  }

  lemma StepLawful(s: State, e: Event, max: nat)
    requires Lawful(s, max) && Possible(s, e)
    ensures Lawful(Step(s, e, max), max)
  {
    match e
    case Arrive => ArriveLawful(s, max);
    case Settle(job, ok) => SettleLawful(s, job, ok, max);
  }

  /** A running job occupies a slot. */
  lemma RunningCount(s: State, job: Ticket, n: nat)
    requires s.started == Tickets(0, n) && forall t :: t in s.settled ==> t < n
    requires job in s.started && job !in s.settled
    ensures |s.settled| < n && job < n
  {
    assert job in Range(n);
    ProperSubsetSmaller(s.settled.Keys, Range(n));
  }

  ghost function Range(n: nat): (r: set<nat>)
    ensures |r| == n && forall t: nat :: t in r <==> t < n
  {
    if n == 0 then {} else Range(n - 1) + {n - 1}
  }

  lemma ProperSubsetSmaller<T>(a: set<T>, b: set<T>)
    requires a < b
    ensures |a| < |b|
  {
    var x :| x in b && x !in a;
    SubsetNoLarger(a, b - {x});
  }

  lemma {:induction false} SubsetNoLarger<T>(a: set<T>, b: set<T>)
    requires a <= b
    ensures |a| <= |b|
  {
    if a != {} {
      var x :| x in a;
      SubsetNoLarger(a - {x}, b - {x});
    }
  }

  /** At every moment of every run: jobs have started in order of arrival, none is lost, at most
      `max` are running, and as many as possible are. */
  lemma {:induction false} EveryRunIsLawful(events: seq<Event>, max: nat)
    requires PossibleRun(events, max)
    ensures Lawful(After(events, max), max)
  {
    if events != [] {
      var front := events[..|events| - 1];
      forall n | 0 <= n < |front|
        ensures Possible(After(front[..n], max), front[n])
      {
        assert front[..n] == events[..n];
      }
      EveryRunIsLawful(front, max);
      StepLawful(After(front, max), events[|events| - 1], max);
    }
  }

  lemma LawfulSlots(s: State, max: nat)
    requires Lawful(s, max)
    ensures s.active <= max && (s.queue != [] ==> s.active == max)
    ensures s.started + s.queue == Tickets(0, s.arrived)
    ensures forall job: Ticket :: job < s.arrived ==> (job in s.started <==> job < |s.settled| + max)
  {
    var n := Min(s.arrived, |s.settled| + max);
    forall job: Ticket | job < n
      ensures job in s.started
    {
      assert Tickets(0, n)[job] == job;
    }
  }

  /** Never more than `max` at once; none idle while a job waits; none waits unless it came later;
      a job starts as soon as all but `max - 1` of those before it could have settled. */
  lemma SlotsWellUsed(events: seq<Event>, max: nat)
    requires PossibleRun(events, max)
    ensures var s := After(events, max);
      && s.active <= max
      && (s.queue != [] ==> s.active == max)
      && s.started + s.queue == Tickets(0, s.arrived)
      && forall job: Ticket :: job < s.arrived ==> (job in s.started <==> job < |s.settled| + max)
  {
    EveryRunIsLawful(events, max);
    LawfulSlots(After(events, max), max);
  }

  class Limiter {
    const maxConcurrency: nat
    var active: nat
    var queue: seq<Ticket>
    ghost var arrived: nat
    ghost var started: seq<Ticket>
    ghost var settled: map<Ticket, bool>

    constructor (maxConcurrency: nat)
      ensures this.maxConcurrency == maxConcurrency && Now() == IDLE
    {
      this.maxConcurrency := maxConcurrency;
      active, queue, arrived, started, settled := 0, [], 0, [], map[];
    }

    ghost function Now(): State
      reads this
    {
      State(active, queue, arrived, started, settled)
    }

    method StartNext() returns (ran: bool)
      modifies this`active, this`queue, this`started
      ensures Now() == RunNext(old(Now()), maxConcurrency)
      ensures ran <==> Now() != old(Now())
    {
      if active >= maxConcurrency || queue == [] {
        return false;
      }
      var job := queue[0];
      queue := queue[1..];
      active := active + 1;
      started := started + [job];
      ran := true;
    }

    method Submit(job: Ticket)
      requires job == arrived && Lawful(Now(), maxConcurrency)
      modifies this
      ensures Now() == Step(old(Now()), Arrive, maxConcurrency) && Lawful(Now(), maxConcurrency)
    {
      StepLawful(Now(), Arrive, maxConcurrency);
      queue := queue + [job];
      arrived := arrived + 1;
      var ran := StartNext();
    }

    /** The `finally` of a job, whether it succeeded or failed. */
    method Finish(job: Ticket, ok: bool)
      requires Possible(Now(), Settle(job, ok)) && Lawful(Now(), maxConcurrency)
      modifies this
      ensures Now() == Step(old(Now()), Settle(job, ok), maxConcurrency) && Lawful(Now(), maxConcurrency)
    {
      StepLawful(Now(), Settle(job, ok), maxConcurrency);
      active := if active > 0 then active - 1 else 0;
      settled := settled[job := ok];
      var ran := StartNext();
    }
  }
}
