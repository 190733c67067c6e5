/** What pruning drops from a bucket in every reachable state (server/src/main/kernel.js,
    `pruneUiSnapshotBucket`, lines 2109-2141), in terms of when each entry was last used. */
module SnapshotPruning {
  import opened Clock
  import opened Options
  import opened SnapshotCache

  /** Every entry in the bucket has been used, at some time. */
  ghost predicate AllTouched(c: Cache) {
    forall s :: s in c.slots ==> s.entry < |c.entries| && c.entries[s.entry].touchedAt >= EARLIEST
  }

  lemma TouchedStays(c: Cache, s: Step, settings: Settings)
    requires Inv(c) && AllTouched(c)
    ensures AllTouched(Apply(c, s, settings).0)
  {
    match s
    case Call(r, now, later) =>
      CallTouches(c, r, now, later, settings);
    case End(b, ok, truthy, now) =>
    case Drop(keys) =>
  }

  lemma CallTouches(c: Cache, r: Request, now: Instant, later: Instant, settings: Settings)
    requires Inv(c) && AllTouched(c)
    ensures AllTouched(Get(c, r, now, later, settings).0)
  {
    PrunedFairly(c.slots, c.entries, later, settings.maxEntries);
    EnterKeeps(c, r.key, later, settings);
    var (p, id) := Enter(c, r.key, later, settings);
    var d := Look(p, id, r, now).0;
    assert d.slots == p.slots && |d.entries| == |p.entries|;
    assert forall k :: 0 <= k < |p.entries| && k != id ==> d.entries[k] == p.entries[k];
    assert d.entries[id].touchedAt == now;
    assert forall s :: s in p.slots ==> s in c.slots || s == Slot(r.key, id);
  }

  lemma {:induction false} RunTouches(steps: seq<Step>, settings: Settings)
    ensures Inv(After(steps, settings)) && AllTouched(After(steps, settings))
  {
    RunKeeps(steps, settings);
    if steps != [] {
      RunTouches(steps[..|steps| - 1], settings);
      TouchedStays(After(steps[..|steps| - 1], settings), steps[|steps| - 1], settings);
    }
  }

  /** The slots that are in flight, or not past the time for which their value may be served stale; an
      entry without a value has no such time. */
  ghost function Alive(c: Cache, now: Instant): set<Slot> {
    set s | s in c.slots && s.entry < |c.entries| &&
      (c.entries[s.entry].promise.Some? || c.entries[s.entry].staleUntil <= 0 || c.entries[s.entry].staleUntil > now)
  }

  lemma {:induction false} DifferenceCount(a: set<Slot>, b: set<Slot>)
    requires b <= a
    ensures |a - b| == |a| - |b|
  {
    assert a == (a - b) + b;
  }

  lemma FilteredSet(slots: seq<Slot>, victims: seq<Slot>)
    requires forall s :: s in victims ==> s in slots
    ensures ToSet(Filter(slots, NoneOf(victims))) == ToSet(slots) - ToSet(victims)
  {
  }

  lemma VictimCount(left: seq<Slot>, entries: seq<Entry>, maxEntries: nat)
    ensures |Victims(left, entries, maxEntries)| <= if |left| <= maxEntries then 0 else |left| - maxEntries
  {
  }

  lemma KeptAtLeast(left: seq<Slot>, entries: seq<Entry>, maxEntries: nat)
    requires Distinct(left)
    ensures var kept := ToSet(Filter(left, NoneOf(Victims(left, entries, maxEntries))));
      && kept <= ToSet(left)
      && if |ToSet(left)| <= maxEntries then kept == ToSet(left) else |kept| >= maxEntries
  {
    var victims := Victims(left, entries, maxEntries);
    VictimCount(left, entries, maxEntries);
    VictimsAreOldest(left, entries, maxEntries);
    VictimsCounted(left, entries, maxEntries);
    FilteredSet(left, victims);
    DistinctCount(left);
    DistinctCount(victims);
    DifferenceCount(ToSet(left), ToSet(victims));
  }

  lemma LeftIsAlive(c: Cache, now: Instant)
    requires Inv(c)
    ensures ToSet(Filter(c.slots, Unspent(c.entries, now))) == Alive(c, now)
  {
  }

  /** Of the slots that are alive, just as many idle ones go as it takes to meet the limit, or all of
      them. */
  lemma PrunedToTheLimit(c: Cache, now: Instant, maxEntries: nat)
    requires Inv(c)
    ensures var alive, kept := Alive(c, now), ToSet(Pruned(c.slots, c.entries, now, maxEntries));
      && kept <= alive
      && (|alive| <= maxEntries ==> kept == alive)
      && (|alive| > maxEntries ==>
            |kept| == maxEntries
            || (|kept| > maxEntries && forall s :: s in kept ==> c.entries[s.entry].promise.Some?))
  {
    LeftIsAlive(c, now);
    FilterDistinct(c.slots, Unspent(c.entries, now));
    KeptAtLeast(Filter(c.slots, Unspent(c.entries, now)), c.entries, maxEntries);
    PrunedToSize(c.slots, c.entries, now, maxEntries);
    DistinctCount(Pruned(c.slots, c.entries, now, maxEntries));
  }

  /** They are idle, and none that stays and is idle was last used before them. */
  lemma PrunedByAge(c: Cache, now: Instant, maxEntries: nat)
    requires Inv(c) && AllTouched(c)
    ensures var alive, kept := Alive(c, now), ToSet(Pruned(c.slots, c.entries, now, maxEntries));
      && (forall s :: s in alive - kept ==> c.entries[s.entry].promise.None?)
      && (forall s, t :: s in alive - kept && t in kept && c.entries[t.entry].promise.None? ==>
            c.entries[s.entry].touchedAt <= c.entries[t.entry].touchedAt)
  {
    var alive, kept := Alive(c, now), ToSet(Pruned(c.slots, c.entries, now, maxEntries));
    PrunedFairly(c.slots, c.entries, now, maxEntries);
    forall s, t | s in alive - kept && t in kept && c.entries[t.entry].promise.None?
      ensures c.entries[s.entry].touchedAt <= c.entries[t.entry].touchedAt
    {
      assert Touch(c.entries, s) <= Touch(c.entries, t);
    }
  }

  /** Pruning is due once its interval has passed. It drops the slots that are not alive, and, if more
      are left than the limit, just as many idle ones as it takes to meet the limit (or all of them),
      those last used the longest ago. */
  lemma PrunedExactly(steps: seq<Step>, now: Instant, settings: Settings)
    ensures var c := After(steps, settings);
      var d := Prune(c, now, settings);
      var alive, kept := Alive(c, now), ToSet(d.slots);
      && d.entries == c.entries && d.builds == c.builds
      && (now - c.pruneAt < settings.pruneInterval ==> d == c)
      && (now - c.pruneAt >= settings.pruneInterval ==>
            && d.pruneAt == now && kept <= alive
            && (|alive| <= settings.maxEntries ==> kept == alive)
            && (|alive| > settings.maxEntries ==>
                  |kept| == settings.maxEntries
                  || (|kept| > settings.maxEntries && forall s :: s in kept ==> c.entries[s.entry].promise.Some?))
            && (forall s :: s in alive - kept ==> c.entries[s.entry].promise.None?)
            && (forall s, t :: s in alive - kept && t in kept && c.entries[t.entry].promise.None? ==>
                  c.entries[s.entry].touchedAt <= c.entries[t.entry].touchedAt))
  {
    var c := After(steps, settings);
    RunTouches(steps, settings);
    PrunedToTheLimit(c, now, settings.maxEntries);
    PrunedByAge(c, now, settings.maxEntries);
  }
}
