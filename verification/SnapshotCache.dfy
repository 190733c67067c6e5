/** The stale-while-revalidate snapshot cache, one bucket of it (server/src/main/kernel.js,
    `getUiSnapshotFromCache`, `pruneUiSnapshotBucket`, `invalidateUiSnapshotCache`). An entry outlives
    its place in the bucket while a build still holds it, so entries are numbered and kept. */
module SnapshotCache {
  import opened Clock
  import opened Numbers
  import opened Options

  type Key = string
  type EntryId = nat
  type BuildId = nat

  /** What a build produced and when; only a truthy value is ever served from an entry. */
  datatype Snapshot = Snapshot(build: BuildId, truthy: bool, finishedAt: int)

  datatype Entry = Entry(
    key: Key,
    expiresAt: int,
    staleUntil: int,
    promise: Option<BuildId>,
    value: Option<Snapshot>,
    touchedAt: int)

  /** A request for a fresh value: its lifetimes are those its caller gave. */
  datatype Build = Build(entry: EntryId, ttl: nat, maxStale: nat, force: bool, allowStale: bool, running: bool)

  /** A key of the bucket, in insertion order. */
  datatype Slot = Slot(key: Key, entry: EntryId)

  datatype Cache = Cache(slots: seq<Slot>, entries: seq<Entry>, builds: seq<Build>, pruneAt: int)

  const EMPTY := Cache([], [], [], 0)

  /** `UI_SNAPSHOT_CACHE_PRUNE_INTERVAL_MS`, `UI_SNAPSHOT_CACHE_MAX_ENTRIES`. */
  datatype Settings = Settings(pruneInterval: nat, maxEntries: nat)

  function Filter(slots: seq<Slot>, keep: Slot -> bool): (r: seq<Slot>)
    ensures forall s :: s in r <==> s in slots && keep(s)
  {
    if slots == [] then []
    else
      var last := slots[|slots| - 1];
      Filter(slots[..|slots| - 1], keep) + if keep(last) then [last] else []
  }

  predicate InFlight(entries: seq<Entry>, s: Slot) {
    s.entry < |entries| && entries[s.entry].promise.Some?
  }

  predicate Spent(entries: seq<Entry>, s: Slot, now: int) {
    s.entry < |entries| && entries[s.entry].promise.None? && 0 < entries[s.entry].staleUntil <= now
  }

  function Unspent(entries: seq<Entry>, now: int): Slot -> bool {
    s => !Spent(entries, s, now)
  }

  function Idle(entries: seq<Entry>): Slot -> bool {
    s => !InFlight(entries, s)
  }

  function NoneOf(slots: seq<Slot>): Slot -> bool {
    s => s !in slots
  }

  function NoKeyOf(keys: set<Key>): Slot -> bool {
    (s: Slot) => s.key !in keys
  }

  /** When a slot was last used, as the pruning order has it. */
  function Touch(entries: seq<Entry>, s: Slot): int {
    if s.entry >= |entries| then 0
    else if entries[s.entry].touchedAt != 0 then entries[s.entry].touchedAt
    else entries[s.entry].staleUntil
  }

  /** A stable insertion into slots sorted by last use. */
  function Insert(sorted: seq<Slot>, s: Slot, entries: seq<Entry>): seq<Slot> {
    if sorted == [] || Touch(entries, sorted[|sorted| - 1]) <= Touch(entries, s) then sorted + [s]
    else Insert(sorted[..|sorted| - 1], s, entries) + [sorted[|sorted| - 1]]
  }

  function SortByTouch(slots: seq<Slot>, entries: seq<Entry>): seq<Slot> {
    if slots == [] then [] else Insert(SortByTouch(slots[..|slots| - 1], entries), slots[|slots| - 1], entries)
  }

  /** The least recently used slots beyond the limit, never one with a build in flight. */
  function Victims(slots: seq<Slot>, entries: seq<Entry>, maxEntries: nat): seq<Slot> {
    if |slots| <= maxEntries then []
    else
      var candidates := SortByTouch(Filter(slots, Idle(entries)), entries);
      candidates[..Min(|slots| - maxEntries, |candidates|)]
  }

  function Pruned(slots: seq<Slot>, entries: seq<Entry>, now: int, maxEntries: nat): seq<Slot> {
    var left := Filter(slots, Unspent(entries, now));
    var victims := Victims(left, entries, maxEntries);
    Filter(left, NoneOf(victims))
  }

  function Prune(c: Cache, now: Instant, settings: Settings): Cache {
    if now - c.pruneAt < settings.pruneInterval then c
    else c.(slots := Pruned(c.slots, c.entries, now, settings.maxEntries), pruneAt := now)
  }

  ghost predicate Sorted(slots: seq<Slot>, entries: seq<Entry>) {
    forall i, j :: 0 <= i <= j < |slots| ==> Touch(entries, slots[i]) <= Touch(entries, slots[j])
  }

  ghost predicate Distinct(slots: seq<Slot>) {
    forall i, j :: 0 <= i < j < |slots| ==> slots[i] != slots[j]
  }

  lemma {:induction false} InsertSorts(sorted: seq<Slot>, s: Slot, entries: seq<Entry>)
    requires Sorted(sorted, entries)
    ensures Sorted(Insert(sorted, s, entries), entries)
    ensures forall t :: t in Insert(sorted, s, entries) <==> t in sorted || t == s
  {
    if sorted != [] && Touch(entries, sorted[|sorted| - 1]) > Touch(entries, s) {
      var front, last := sorted[..|sorted| - 1], sorted[|sorted| - 1];
      assert sorted == front + [last];
      InsertSorts(front, s, entries);
      SortedPush(Insert(front, s, entries), last, entries);
    }
  }

  lemma SortedPush(sorted: seq<Slot>, last: Slot, entries: seq<Entry>)
    requires Sorted(sorted, entries)
    requires forall t :: t in sorted ==> Touch(entries, t) <= Touch(entries, last)
    ensures Sorted(sorted + [last], entries)
  {
  }

  lemma {:induction false} InsertDistinct(sorted: seq<Slot>, s: Slot, entries: seq<Entry>)
    requires Distinct(sorted) && s !in sorted
    ensures Distinct(Insert(sorted, s, entries))
    ensures forall t :: t in Insert(sorted, s, entries) <==> t in sorted || t == s
  {
    if sorted != [] && Touch(entries, sorted[|sorted| - 1]) > Touch(entries, s) {
      var front, last := sorted[..|sorted| - 1], sorted[|sorted| - 1];
      assert sorted == front + [last];
      InsertDistinct(front, s, entries);
      assert last !in front && last in sorted;
      var r := Insert(front, s, entries);
      assert last !in r;
      assert Distinct(r + [last]);
    }
  }

  lemma {:induction false} SortSorts(slots: seq<Slot>, entries: seq<Entry>)
    ensures Sorted(SortByTouch(slots, entries), entries)
    ensures forall t :: t in SortByTouch(slots, entries) <==> t in slots
    ensures Distinct(slots) ==> Distinct(SortByTouch(slots, entries))
  {
    if slots != [] {
      var front, last := slots[..|slots| - 1], slots[|slots| - 1];
      assert slots == front + [last];
      SortSorts(front, entries);
      InsertSorts(SortByTouch(front, entries), last, entries);
      if Distinct(slots) {
        InsertDistinct(SortByTouch(front, entries), last, entries);
      }
    }
  }

  lemma VictimsAreOldest(slots: seq<Slot>, entries: seq<Entry>, maxEntries: nat)
    ensures var victims := Victims(slots, entries, maxEntries);
      && (forall s :: s in victims ==> s in slots && !InFlight(entries, s))
      && (forall s, t :: s in victims && t in slots && t !in victims && !InFlight(entries, t) ==>
            Touch(entries, s) <= Touch(entries, t))
  {
    var idle := Filter(slots, Idle(entries));
    SortSorts(idle, entries);
    var sorted, victims := SortByTouch(idle, entries), Victims(slots, entries, maxEntries);
    assert victims <= sorted;
    assert forall s :: s in victims ==> s in sorted;
    forall s, t | s in victims && t in sorted && t !in victims
      ensures Touch(entries, s) <= Touch(entries, t)
    {
      var i :| 0 <= i < |victims| && victims[i] == s;
      var k :| 0 <= k < |sorted| && sorted[k] == t;
      assert k < |victims| ==> victims[k] == t;
    }
  }

  /** Pruning never drops a slot whose entry has a promise, and among the others drops, besides the
      spent ones, those least recently used. */
  lemma PrunedFairly(slots: seq<Slot>, entries: seq<Entry>, now: int, maxEntries: nat)
    ensures var kept := Pruned(slots, entries, now, maxEntries);
      && (forall s :: s in kept ==> s in slots)
      && (forall s :: s in slots && InFlight(entries, s) ==> s in kept)
      && (forall s, t :: s in slots && s !in kept && !Spent(entries, s, now) && t in kept && !InFlight(entries, t) ==>
            Touch(entries, s) <= Touch(entries, t))
  {
    var left := Filter(slots, Unspent(entries, now));
    VictimsAreOldest(left, entries, maxEntries);
  }

  function ToSet(slots: seq<Slot>): set<Slot> {
    set s | s in slots
  }

  lemma {:induction false} DistinctCount(slots: seq<Slot>)
    requires Distinct(slots)
    ensures |ToSet(slots)| == |slots|
  {
    if slots != [] {
      var front, last := slots[..|slots| - 1], slots[|slots| - 1];
      DistinctCount(front);
      assert ToSet(slots) == ToSet(front) + {last};
    }
  }

  lemma {:induction false} FilterDistinct(slots: seq<Slot>, keep: Slot -> bool)
    requires Distinct(slots)
    ensures Distinct(Filter(slots, keep))
  {
    if slots != [] {
      FilterDistinct(slots[..|slots| - 1], keep);
    }
  }

  /** After pruning the bucket is within its limit, or has nothing but builds in flight. */
  lemma PrunedToSize(slots: seq<Slot>, entries: seq<Entry>, now: int, maxEntries: nat)
    requires Distinct(slots)
    ensures var kept := Pruned(slots, entries, now, maxEntries);
      Distinct(kept) && (|kept| <= maxEntries || forall s :: s in kept ==> InFlight(entries, s))
  {
    var left := Filter(slots, Unspent(entries, now));
    FilterDistinct(slots, Unspent(entries, now));
    var victims := Victims(left, entries, maxEntries);
    var kept := Filter(left, NoneOf(victims));
    FilterDistinct(left, NoneOf(victims));
    VictimsCounted(left, entries, maxEntries);
    VictimsAreOldest(left, entries, maxEntries);
    DistinctCount(left);
    DistinctCount(kept);
    DistinctCount(victims);
    assert ToSet(kept) == ToSet(left) - ToSet(victims) && ToSet(victims) <= ToSet(left);
  }

  lemma VictimsCounted(slots: seq<Slot>, entries: seq<Entry>, maxEntries: nat)
    requires Distinct(slots)
    ensures var victims := Victims(slots, entries, maxEntries);
      && Distinct(victims)
      && (|slots| - |victims| <= maxEntries || forall s :: s in slots && !InFlight(entries, s) ==> s in victims)
  {
    var idle := Filter(slots, Idle(entries));
    FilterDistinct(slots, Idle(entries));
    SortSorts(idle, entries);
    var sorted := SortByTouch(idle, entries);
    assert sorted[..|sorted|] == sorted;
  }

  function IndexOf(slots: seq<Slot>, key: Key): int
    ensures -1 <= IndexOf(slots, key) < |slots|
    ensures IndexOf(slots, key) >= 0 ==> slots[IndexOf(slots, key)].key == key
    ensures IndexOf(slots, key) == -1 ==> forall s :: s in slots ==> s.key != key
  {
    if slots == [] then -1
    else if slots[|slots| - 1].key == key then |slots| - 1
    else IndexOf(slots[..|slots| - 1], key)
  }

  const FRESH_ENTRY := Entry("", 0, 0, None, None, 0)

  /** `getUiSnapshotCacheEntry`. */
  function Enter(c: Cache, key: Key, now: Instant, settings: Settings): (Cache, EntryId) {
    var d := Prune(c, now, settings);
    var i := IndexOf(d.slots, key);
    if i >= 0 then (d, d.slots[i].entry)
    else
      var id := |d.entries|;
      (d.(slots := d.slots + [Slot(key, id)], entries := d.entries + [FRESH_ENTRY.(key := key)]), id)
  }

  datatype Reply = Served(snapshot: Snapshot) | Awaits(build: BuildId) | Failed | Silent

  /** A value that may be served: falsy results are rebuilt each time. */
  predicate Usable(e: Entry, until: int, now: int) {
    e.value.Some? && e.value.value.truthy && until > now
  }

  datatype Request = Request(key: Key, ttl: nat, maxStale: nat, force: bool, allowStale: bool)

  function Look(c: Cache, id: EntryId, r: Request, now: Instant): (Cache, Reply)
    requires id < |c.entries|
  {
    var e := c.entries[id].(touchedAt := now);
    var touched := c.(entries := c.entries[id := e]);
    var build := |c.builds|;
    var building := touched.(
      entries := c.entries[id := e.(promise := Some(build))],
      builds := c.builds + [Build(id, r.ttl, r.maxStale, r.force, r.allowStale, true)]);
    if !r.force && Usable(e, e.expiresAt, now) then (touched, Served(e.value.value))
    else
      var stale := !r.force && r.allowStale && Usable(e, e.staleUntil, now);
      if !r.force && e.promise.Some? then
        (touched, if stale then Served(e.value.value) else Awaits(e.promise.value))
      else (building, if stale then Served(e.value.value) else Awaits(build))
  }

  /** `getUiSnapshotFromCache`: the clock is read once by the call and once more by pruning. */
  function Get(c: Cache, r: Request, now: Instant, later: Instant, settings: Settings): (Cache, Reply) {
    var (d, id) := Enter(c, r.key, later, settings);
    if id < |d.entries| then Look(d, id, r, now) else (d, Silent)
  }

  predicate Running(c: Cache, b: BuildId) {
    b < |c.builds| && c.builds[b].running && c.builds[b].entry < |c.entries|
  }

  /** The end of a build: what those who await it get. */
  function Settle(c: Cache, b: BuildId, ok: bool, truthy: bool, now: Instant): (Cache, Reply) {
    if !Running(c, b) then (c, Silent)
    else
      var build := c.builds[b];
      var e := c.entries[build.entry];
      var d := c.(builds := c.builds[b := build.(running := false)]);
      if ok then
        var s := Snapshot(b, truthy, now);
        var f := e.(value := Some(s), expiresAt := now + build.ttl, staleUntil := now + build.maxStale,
                    promise := None, touchedAt := now);
        (d.(entries := c.entries[build.entry := f]), Served(s))
      else
        (d.(entries := c.entries[build.entry := e.(promise := None)]),
         if !build.force && build.allowStale && Usable(e, e.staleUntil, now) then Served(e.value.value) else Failed)
  }

  function Invalidate(c: Cache, keys: set<Key>): Cache {
    c.(slots := Filter(c.slots, NoKeyOf(keys)))
  }

  datatype Step =
    | Call(request: Request, now: Instant, later: Instant)
    | End(build: BuildId, ok: bool, truthy: bool, now: Instant)
    | Drop(keys: set<Key>)

  function Apply(c: Cache, s: Step, settings: Settings): (Cache, Reply) {
    match s
    case Call(r, now, later) => Get(c, r, now, later, settings)
    case End(b, ok, truthy, now) => Settle(c, b, ok, truthy, now)
    case Drop(keys) => (Invalidate(c, keys), Silent)
  }

  /** A slot leads to its own entry, and no key has two or is listed twice. */
  ghost predicate SlotsOk(c: Cache) {
    && Distinct(c.slots)
    && (forall s :: s in c.slots ==> s.entry < |c.entries| && c.entries[s.entry].key == s.key)
    && (forall s, t :: s in c.slots && t in c.slots && s.key == t.key ==> s == t)
  }

  /** An entry's promise is one of its own builds, and its value came from one, with its lifetimes. */
  ghost predicate EntryOk(c: Cache, id: EntryId)
    requires id < |c.entries|
  {
    var e := c.entries[id];
    && (e.promise.Some? ==> Running(c, e.promise.value) && c.builds[e.promise.value].entry == id)
    && (e.value.Some? ==>
          var s := e.value.value;
          s.build < |c.builds| && !c.builds[s.build].running && c.builds[s.build].entry == id
          && e.expiresAt == s.finishedAt + c.builds[s.build].ttl
          && e.staleUntil == s.finishedAt + c.builds[s.build].maxStale)
  }

  ghost predicate NeverForced(c: Cache, id: EntryId) {
    forall b :: 0 <= b < |c.builds| && c.builds[b].entry == id ==> !c.builds[b].force
  }

  ghost predicate BuildOk(c: Cache, b: BuildId)
    requires b < |c.builds|
  {
    && c.builds[b].entry < |c.entries|
    && (c.builds[b].running && NeverForced(c, c.builds[b].entry) ==> c.entries[c.builds[b].entry].promise == Some(b))
  }

  ghost predicate Inv(c: Cache) {
    && SlotsOk(c)
    && (forall id :: 0 <= id < |c.entries| ==> EntryOk(c, id))
    && (forall b :: 0 <= b < |c.builds| ==> BuildOk(c, b))
  }

  lemma PruneKeeps(c: Cache, now: Instant, settings: Settings)
    requires Inv(c)
    ensures Inv(Prune(c, now, settings))
  {
    var d := Prune(c, now, settings);
    PrunedFairly(c.slots, c.entries, now, settings.maxEntries);
    PrunedToSize(c.slots, c.entries, now, settings.maxEntries);
    SameBuilds(c, d);
  }

  /** Entries and builds alone decide what they are about. */
  lemma SameBuilds(c: Cache, d: Cache)
    requires Inv(c) && SlotsOk(d) && d.entries == c.entries && d.builds == c.builds
    ensures Inv(d)
  {
    forall id | 0 <= id < |d.entries|
      ensures EntryOk(d, id)
    {
      assert EntryOk(c, id);
    }
    forall b | 0 <= b < |d.builds|
      ensures BuildOk(d, b)
    {
      assert BuildOk(c, b);
      assert NeverForced(d, c.builds[b].entry) ==> NeverForced(c, c.builds[b].entry);
    }
  }

  lemma EnterKeeps(c: Cache, key: Key, now: Instant, settings: Settings)
    requires Inv(c)
    ensures var (d, id) := Enter(c, key, now, settings);
      Inv(d) && id < |d.entries| && Slot(key, id) in d.slots && d.builds == c.builds
  {
    PruneKeeps(c, now, settings);
    var p := Prune(c, now, settings);
    var (d, id) := Enter(c, key, now, settings);
    if IndexOf(p.slots, key) >= 0 {
      assert p.slots[IndexOf(p.slots, key)] in p.slots;
    } else {
      forall i | 0 <= i < |d.entries|
        ensures EntryOk(d, i)
      {
        assert i < |p.entries| ==> EntryOk(p, i);
      }
      forall b | 0 <= b < |d.builds|
        ensures BuildOk(d, b)
      {
        assert BuildOk(p, b);
        assert NeverForced(d, p.builds[b].entry) ==> NeverForced(p, p.builds[b].entry);
      }
    }
  }

  /** Without forced calls an entry has at most one build in flight. */
  lemma SingleFlight(c: Cache, id: EntryId, b: BuildId)
    requires Inv(c) && NeverForced(c, id) && Running(c, b) && c.builds[b].entry == id
    ensures c.entries[id].promise == Some(b)
    ensures forall k: BuildId :: Running(c, k) && c.builds[k].entry == id ==> k == b
  {
    assert BuildOk(c, b);
    forall k: BuildId | Running(c, k) && c.builds[k].entry == id
      ensures k == b
    {
      assert BuildOk(c, k);
    }
  }

  /** Storing one of an entry's own values, or touching it, disturbs no other entry. */
  lemma EntryChanged(c: Cache, d: Cache, id: EntryId)
    requires Inv(c) && id < |c.entries| && d.slots == c.slots
    requires |d.entries| == |c.entries|
    requires d.entries == c.entries[id := d.entries[id]] && d.entries[id].key == c.entries[id].key
    requires |c.builds| <= |d.builds| && forall b :: |c.builds| <= b < |d.builds| ==> d.builds[b].entry == id
    requires forall b :: 0 <= b < |c.builds| ==>
      d.builds[b] == c.builds[b] || (c.builds[b].entry == id && d.builds[b] == c.builds[b].(running := false))
    requires EntryOk(d, id)
    requires forall b :: 0 <= b < |d.builds| && d.builds[b].running && d.builds[b].entry == id && NeverForced(d, id) ==>
      d.entries[id].promise == Some(b)
    ensures Inv(d)
  {
    forall i | 0 <= i < |d.entries|
      ensures EntryOk(d, i)
    {
      if i != id {
        assert EntryOk(c, i);
      }
    }
    forall b | 0 <= b < |d.builds|
      ensures BuildOk(d, b)
    {
      if d.builds[b].entry != id {
        assert BuildOk(c, b);
        if NeverForced(d, d.builds[b].entry) {
          OthersForced(c, d, id, d.builds[b].entry);
        }
      }
    }
  }

  lemma OthersForced(c: Cache, d: Cache, id: EntryId, other: EntryId)
    requires other != id && |c.builds| <= |d.builds| && NeverForced(d, other)
    requires forall b :: 0 <= b < |c.builds| ==>
      d.builds[b] == c.builds[b] || (c.builds[b].entry == id && d.builds[b] == c.builds[b].(running := false))
    ensures NeverForced(c, other)
  {
    forall b | 0 <= b < |c.builds| && c.builds[b].entry == other
      ensures !c.builds[b].force
    {
      assert d.builds[b] == c.builds[b];
    }
  }

  lemma LookKeeps(c: Cache, id: EntryId, r: Request, now: Instant)
    requires Inv(c) && id < |c.entries|
    ensures Inv(Look(c, id, r, now).0)
  {
    var d := Look(c, id, r, now).0;
    assert EntryOk(c, id);
    forall b | 0 <= b < |d.builds| && d.builds[b].running && d.builds[b].entry == id && NeverForced(d, id)
      ensures d.entries[id].promise == Some(b)
    {
      if b < |c.builds| {
        assert BuildOk(c, b);
        NeverForcedBefore(c, d, id);
      }
    }
    EntryChanged(c, d, id);
  }

  lemma NeverForcedBefore(c: Cache, d: Cache, id: EntryId)
    requires |c.builds| <= |d.builds| && NeverForced(d, id)
    requires forall b :: 0 <= b < |c.builds| ==> d.builds[b] == c.builds[b]
    ensures NeverForced(c, id)
  {
    forall b | 0 <= b < |c.builds| && c.builds[b].entry == id
      ensures !c.builds[b].force
    {
      assert d.builds[b] == c.builds[b];
    }
  }

  lemma SettleKeeps(c: Cache, b: BuildId, ok: bool, truthy: bool, now: Instant)
    requires Inv(c)
    ensures Inv(Settle(c, b, ok, truthy, now).0)
  {
    if Running(c, b) {
      var d, id := Settle(c, b, ok, truthy, now).0, c.builds[b].entry;
      assert EntryOk(c, id) && BuildOk(c, b);
      if NeverForced(d, id) {
        forall j | 0 <= j < |c.builds| && c.builds[j].entry == id
          ensures !c.builds[j].force
        {
          assert d.builds[j].entry == id;
        }
        SingleFlight(c, id, b);
      }
      EntryChanged(c, d, id);
    }
  }

  lemma StepKeeps(c: Cache, s: Step, settings: Settings)
    requires Inv(c)
    ensures Inv(Apply(c, s, settings).0)
  {
    match s
    case Call(r, now, later) =>
      EnterKeeps(c, r.key, later, settings);
      var (d, id) := Enter(c, r.key, later, settings);
      LookKeeps(d, id, r, now);
    case End(b, ok, truthy, now) => SettleKeeps(c, b, ok, truthy, now);
    case Drop(keys) =>
      FilterDistinct(c.slots, NoKeyOf(keys));
      SameBuilds(c, Invalidate(c, keys));
  }

  function After(steps: seq<Step>, settings: Settings): Cache {
    if steps == [] then EMPTY
    else Apply(After(steps[..|steps| - 1], settings), steps[|steps| - 1], settings).0
  }

  lemma {:induction false} RunKeeps(steps: seq<Step>, settings: Settings)
    ensures Inv(After(steps, settings))
  {
    if steps != [] {
      RunKeeps(steps[..|steps| - 1], settings);
      StepKeeps(After(steps[..|steps| - 1], settings), steps[|steps| - 1], settings);
    }
  }

  predicate Prunes(c: Cache, s: Step, settings: Settings) {
    s.Call? && s.later - c.pruneAt >= settings.pruneInterval
  }

  function InFlightSlots(c: Cache): set<Slot> {
    set s | s in c.slots && InFlight(c.entries, s)
  }

  /** The calls among the steps from the `n`-th on. */
  function CallsSince(steps: seq<Step>, n: nat): nat {
    if |steps| <= n then 0
    else CallsSince(steps[..|steps| - 1], n) + if steps[|steps| - 1].Call? then 1 else 0
  }

  lemma {:induction false} FilterShortens(slots: seq<Slot>, keep: Slot -> bool)
    ensures |Filter(slots, keep)| <= |slots|
  {
    if slots != [] {
      FilterShortens(slots[..|slots| - 1], keep);
    }
  }

  lemma PruneShortens(slots: seq<Slot>, entries: seq<Entry>, now: int, maxEntries: nat)
    ensures |Pruned(slots, entries, now, maxEntries)| <= |slots|
  {
    var left := Filter(slots, Unspent(entries, now));
    FilterShortens(slots, Unspent(entries, now));
    FilterShortens(left, NoneOf(Victims(left, entries, maxEntries)));
  }

  lemma LookKeepsSlots(c: Cache, id: EntryId, r: Request, now: Instant)
    requires id < |c.entries|
    ensures Look(c, id, r, now).0.slots == c.slots
  {
  }

  lemma CallGrows(c: Cache, r: Request, now: Instant, later: Instant, settings: Settings)
    ensures |Get(c, r, now, later, settings).0.slots| <= |Prune(c, later, settings).slots| + 1
  {
    var (d, id) := Enter(c, r.key, later, settings);
    if id < |d.entries| {
      LookKeepsSlots(d, id, r, now);
    }
  }

  /** Only a call adds a slot, and no more than one. */
  lemma StepGrows(c: Cache, s: Step, settings: Settings)
    ensures |Apply(c, s, settings).0.slots| <= |c.slots| + if s.Call? then 1 else 0
  {
    match s
    case Call(r, now, later) =>
      PruneShortens(c.slots, c.entries, later, settings.maxEntries);
      CallGrows(c, r, now, later, settings);
    case End(b, ok, truthy, now) =>
    case Drop(keys) => FilterShortens(c.slots, NoKeyOf(keys));
  }

  lemma PrunedCount(slots: seq<Slot>, entries: seq<Entry>, now: int, maxEntries: nat)
    requires Distinct(slots)
    ensures var size := |Pruned(slots, entries, now, maxEntries)|;
      size <= maxEntries || size <= |set s | s in slots && InFlight(entries, s)|
  {
    var kept := Pruned(slots, entries, now, maxEntries);
    PrunedToSize(slots, entries, now, maxEntries);
    PrunedFairly(slots, entries, now, maxEntries);
    if |kept| > maxEntries {
      DistinctCount(kept);
      SubsetCount(ToSet(kept), set s | s in slots && InFlight(entries, s));
    }
  }

  lemma PruningShrinks(c: Cache, s: Step, settings: Settings)
    requires Inv(c) && Prunes(c, s, settings)
    ensures var size := |Apply(c, s, settings).0.slots|;
      size <= settings.maxEntries + 1 || size <= |InFlightSlots(c)| + 1
  {
    PrunedCount(c.slots, c.entries, s.later, settings.maxEntries);
    EnterKeeps(c, s.request.key, s.later, settings);
  }

  lemma {:induction false} SubsetCount(a: set<Slot>, b: set<Slot>)
    requires a <= b
    ensures |a| <= |b|
  {
    assert b == a + (b - a);
  }

  /** Ever after a call that prunes, the bucket holds no more than its limit, or what was in flight
      then, and one entry for each call since. */
  lemma {:induction false} BucketBounded(steps: seq<Step>, n: nat, settings: Settings)
    requires n < |steps| && Prunes(After(steps[..n], settings), steps[n], settings)
    ensures var size := |After(steps, settings).slots|;
      || size <= settings.maxEntries + CallsSince(steps, n)
      || size <= |InFlightSlots(After(steps[..n], settings))| + CallsSince(steps, n)
    decreases |steps|
  {
    var front, last := steps[..|steps| - 1], steps[|steps| - 1];
    if n == |steps| - 1 {
      RunKeeps(front, settings);
      PruningShrinks(After(front, settings), last, settings);
    } else {
      assert front[..n] == steps[..n];
      BucketBounded(front, n, settings);
      StepGrows(After(front, settings), last, settings);
    }
  }

  /** In every run of unforced calls, an entry's builds do not overlap, and while one is in flight the
      entry keeps its place, whatever is pruned, until it is invalidated. */
  lemma InFlightKeepsItsPlace(steps: seq<Step>, s: Step, slot: Slot, b: BuildId, settings: Settings)
    requires var c := After(steps, settings);
      && slot in c.slots && Running(c, b) && c.builds[b].entry == slot.entry && NeverForced(c, slot.entry)
    ensures slot in Apply(After(steps, settings), s, settings).0.slots || (s.Drop? && slot.key in s.keys)
    ensures forall k: BuildId ::
      Running(After(steps, settings), k) && After(steps, settings).builds[k].entry == slot.entry ==> k == b
  {
    var c := After(steps, settings);
    RunKeeps(steps, settings);
    SingleFlight(c, slot.entry, b);
    PlaceKept(c, s, slot, settings);
  }

  lemma PlaceKept(c: Cache, s: Step, slot: Slot, settings: Settings)
    requires slot in c.slots && InFlight(c.entries, slot)
    ensures slot in Apply(c, s, settings).0.slots || (s.Drop? && slot.key in s.keys)
  {
    match s
    case Call(r, now, later) =>
      PlaceSurvivesEnter(c, r.key, later, slot, settings);
    case End(b, ok, truthy, now) =>
    case Drop(keys) =>
  }

  lemma PlaceSurvivesEnter(c: Cache, key: Key, now: Instant, slot: Slot, settings: Settings)
    requires slot in c.slots && InFlight(c.entries, slot)
    ensures slot in Enter(c, key, now, settings).0.slots
  {
    PrunedFairly(c.slots, c.entries, now, settings.maxEntries);
  }

  /** No build asked for before `since` belongs to the entry. */
  ghost predicate Newer(c: Cache, id: EntryId, since: BuildId) {
    since <= |c.builds| && forall b :: 0 <= b < since ==> c.builds[b].entry != id
  }

  ghost predicate Renewed(c: Cache, key: Key, since: BuildId) {
    since <= |c.builds| && forall s :: s in c.slots && s.key == key ==> Newer(c, s.entry, since)
  }

  lemma RenewedKeeps(c: Cache, s: Step, key: Key, since: BuildId, settings: Settings)
    requires Inv(c) && Renewed(c, key, since)
    ensures Renewed(Apply(c, s, settings).0, key, since)
  {
    if s.Call? {
      PruneKeeps(c, s.later, settings);
      PrunedFairly(c.slots, c.entries, s.later, settings.maxEntries);
      EnterRenewed(c, s.request.key, s.later, key, since, settings);
      EnterKeeps(c, s.request.key, s.later, settings);
    }
    var d := Apply(c, s, settings).0;
    forall t | t in d.slots && t.key == key
      ensures Newer(d, t.entry, since)
    {
      assert Newer(d, t.entry, since);
    }
  }

  lemma EnterRenewed(c: Cache, asked: Key, now: Instant, key: Key, since: BuildId, settings: Settings)
    requires Inv(c) && Renewed(c, key, since)
    ensures Renewed(Enter(c, asked, now, settings).0, key, since)
  {
    PrunedFairly(c.slots, c.entries, now, settings.maxEntries);
    var p := Prune(c, now, settings);
    forall b | 0 <= b < since
      ensures c.builds[b].entry != |c.entries|
    {
      assert BuildOk(c, b);
    }
  }

  /** Entries are only added, and a build stays with its entry. */
  ghost predicate Extends(c: Cache, d: Cache) {
    && |c.entries| <= |d.entries| && |c.builds| <= |d.builds|
    && forall b :: 0 <= b < |c.builds| ==> d.builds[b].entry == c.builds[b].entry
  }

  lemma LookExtends(c: Cache, id: EntryId, r: Request, now: Instant)
    requires id < |c.entries|
    ensures Extends(c, Look(c, id, r, now).0)
  {
  }

  lemma StepExtends(c: Cache, s: Step, settings: Settings)
    requires Inv(c)
    ensures Extends(c, Apply(c, s, settings).0)
  {
    match s
    case Call(r, now, later) =>
      EnterKeeps(c, r.key, later, settings);
      var (d, id) := Enter(c, r.key, later, settings);
      LookExtends(d, id, r, now);
    case End(b, ok, truthy, now) =>
    case Drop(keys) =>
  }

  lemma NewerKeeps(c: Cache, s: Step, id: EntryId, since: BuildId, settings: Settings)
    requires Inv(c) && id < |c.entries| && Newer(c, id, since)
    ensures var d := Apply(c, s, settings).0;
      id < |d.entries| && Newer(d, id, since) && Extends(c, d)
  {
    StepExtends(c, s, settings);
  }

  lemma InvalidationRenews(c: Cache, keys: set<Key>, key: Key)
    requires Inv(c) && key in keys
    ensures Renewed(Invalidate(c, keys), key, |c.builds|)
  {
  }

  lemma {:induction false} RunRenewed(steps: seq<Step>, n: nat, key: Key, settings: Settings)
    requires n < |steps| && steps[n].Drop? && key in steps[n].keys
    ensures Renewed(After(steps, settings), key, |After(steps[..n + 1], settings).builds|)
    decreases |steps|
  {
    var front, last := steps[..|steps| - 1], steps[|steps| - 1];
    var c := After(front, settings);
    RunKeeps(front, settings);
    if n == |steps| - 1 {
      assert steps[..n + 1] == steps;
      InvalidationRenews(c, last.keys, key);
    } else {
      assert front[..n + 1] == steps[..n + 1];
      RunRenewed(front, n, key, settings);
      RenewedKeeps(c, last, key, |After(steps[..n + 1], settings).builds|, settings);
    }
  }

  /** What a call gets, at once or from the build it awaits, comes from its key's current entry. */
  lemma ReplyIsNewer(c: Cache, r: Request, now: Instant, later: Instant, since: BuildId, settings: Settings)
    requires Inv(c) && Renewed(c, r.key, since)
    ensures var (d, reply) := Get(c, r, now, later, settings);
      && (reply.Served? ==> reply.snapshot.build >= since)
      && (reply.Awaits? ==>
            since <= reply.build < |d.builds| && d.builds[reply.build].entry < |d.entries|
            && Newer(d, d.builds[reply.build].entry, since))
  {
    EnterKeeps(c, r.key, later, settings);
    EnterRenewed(c, r.key, later, r.key, since, settings);
    var (d, id) := Enter(c, r.key, later, settings);
    assert Newer(d, id, since);
    assert EntryOk(d, id);
  }

  lemma OutcomeIsNewer(c: Cache, b: BuildId, ok: bool, truthy: bool, now: Instant, since: BuildId)
    requires Inv(c) && since <= b < |c.builds| && Newer(c, c.builds[b].entry, since)
    ensures var reply := Settle(c, b, ok, truthy, now).1;
      reply.Served? ==> reply.snapshot.build >= since
  {
    if Running(c, b) {
      assert EntryOk(c, c.builds[b].entry);
    }
  }

  /** Once a key is invalidated, no later call for it is answered by a build asked for before: not
      at once, and not through the build it awaits, however that ends. */
  lemma InvalidationIsFinal(steps: seq<Step>, n: nat, m: nat, settings: Settings)
    requires n < m < |steps| && steps[n].Drop? && steps[m].Call? && steps[m].request.key in steps[n].keys
    ensures var since := |After(steps[..n + 1], settings).builds|;
      var (d, reply) := Apply(After(steps[..m], settings), steps[m], settings);
      && (reply.Served? ==> reply.snapshot.build >= since)
      && (reply.Awaits? ==> reply.build >= since)
  {
    assert steps[..m][..n + 1] == steps[..n + 1];
    RunKeeps(steps[..m], settings);
    RunRenewed(steps[..m], n, steps[m].request.key, settings);
    ReplyIsNewer(After(steps[..m], settings), steps[m].request, steps[m].now, steps[m].later,
                 |After(steps[..n + 1], settings).builds|, settings);
  }

  lemma {:induction false} AwaitedIsNewer(steps: seq<Step>, m: nat, b: BuildId, since: BuildId, settings: Settings)
    requires m <= |steps|
    requires var c := After(steps[..m], settings);
      since <= b < |c.builds| && c.builds[b].entry < |c.entries| && Newer(c, c.builds[b].entry, since)
    ensures var c := After(steps, settings);
      b < |c.builds| && c.builds[b].entry < |c.entries| && Newer(c, c.builds[b].entry, since)
    decreases |steps|
  {
    if m == |steps| {
      assert steps[..m] == steps;
    } else {
      var front := steps[..|steps| - 1];
      assert front[..m] == steps[..m];
      AwaitedIsNewer(front, m, b, since, settings);
      RunKeeps(front, settings);
      var c := After(front, settings);
      NewerKeeps(c, steps[|steps| - 1], c.builds[b].entry, since, settings);
    }
  }

  lemma InvalidationIsFinalForAwaited(steps: seq<Step>, n: nat, m: nat, k: nat, settings: Settings)
    requires n < m < k < |steps| && steps[n].Drop? && steps[m].Call? && steps[m].request.key in steps[n].keys
    requires steps[k].End? && Apply(After(steps[..m], settings), steps[m], settings).1 == Awaits(steps[k].build)
    ensures var since := |After(steps[..n + 1], settings).builds|;
      var reply := Apply(After(steps[..k], settings), steps[k], settings).1;
      reply.Served? ==> reply.snapshot.build >= since
  {
    var since, b := |After(steps[..n + 1], settings).builds|, steps[k].build;
    AwaitedFromANewEntry(steps[..m], steps[m], n, b, settings);
    StillNewer(steps, n, m, k, b, since, settings);
    RunKeeps(steps[..k], settings);
    OutcomeIsNewer(After(steps[..k], settings), b, steps[k].ok, steps[k].truthy, steps[k].now, since);
  }

  /** The build belongs to an entry of which no build was asked for before `since`. */
  ghost predicate OfANewEntry(c: Cache, b: BuildId, since: BuildId) {
    since <= b < |c.builds| && c.builds[b].entry < |c.entries| && Newer(c, c.builds[b].entry, since)
  }

  /** A call after an invalidation awaits a build of an entry made since. */
  lemma AwaitedFromANewEntry(before: seq<Step>, call: Step, n: nat, b: BuildId, settings: Settings)
    requires n < |before| && before[n].Drop? && call.Call? && call.request.key in before[n].keys
    requires Apply(After(before, settings), call, settings).1 == Awaits(b)
    ensures OfANewEntry(Apply(After(before, settings), call, settings).0, b, |After(before[..n + 1], settings).builds|)
  {
    RunKeeps(before, settings);
    RunRenewed(before, n, call.request.key, settings);
    ReplyIsNewer(After(before, settings), call.request, call.now, call.later,
      |After(before[..n + 1], settings).builds|, settings);
  }

  lemma StillNewer(steps: seq<Step>, n: nat, m: nat, k: nat, b: BuildId, since: BuildId, settings: Settings)
    requires n < m < k < |steps| && since == |After(steps[..n + 1], settings).builds|
    requires OfANewEntry(Apply(After(steps[..m], settings), steps[m], settings).0, b,
      |After(steps[..m][..n + 1], settings).builds|)
    ensures OfANewEntry(After(steps[..k], settings), b, since)
  {
    assert steps[..m][..n + 1] == steps[..n + 1];
    assert steps[..m + 1][..m] == steps[..m] && steps[..k][..m + 1] == steps[..m + 1];
    AwaitedIsNewer(steps[..k], m + 1, b, since, settings);
  }

  /** Lifetimes as the callers give them. */
  predicate Patient(s: Step) {
    s.Call? ==> s.request.ttl <= s.request.maxStale && 0 < s.request.maxStale
  }

  lemma {:induction false} PatientBuilds(steps: seq<Step>, settings: Settings)
    requires forall i :: 0 <= i < |steps| ==> Patient(steps[i])
    ensures forall b :: 0 <= b < |After(steps, settings).builds| ==>
      After(steps, settings).builds[b].ttl <= After(steps, settings).builds[b].maxStale
      && 0 < After(steps, settings).builds[b].maxStale
  {
    if steps != [] {
      PatientBuilds(steps[..|steps| - 1], settings);
      PatientStep(After(steps[..|steps| - 1], settings), steps[|steps| - 1], settings);
    }
  }

  /** A step adds a build only as its caller asks, and leaves the lifetimes of the others. */
  lemma PatientStep(c: Cache, s: Step, settings: Settings)
    requires Patient(s)
    requires forall b :: 0 <= b < |c.builds| ==> c.builds[b].ttl <= c.builds[b].maxStale && 0 < c.builds[b].maxStale
    ensures var d := Apply(c, s, settings).0;
      forall b :: 0 <= b < |d.builds| ==> d.builds[b].ttl <= d.builds[b].maxStale && 0 < d.builds[b].maxStale
  {
  }

  /** Whatever is served, at once or at the end of a build, was built less than `maxStale` ago. */
  lemma NothingTooStale(steps: seq<Step>, s: Step, settings: Settings)
    requires Patient(s) && forall i :: 0 <= i < |steps| ==> Patient(steps[i])
    requires !s.Drop?
    ensures var (d, reply) := Apply(After(steps, settings), s, settings);
      reply.Served? ==>
        reply.snapshot.build < |d.builds| && s.now - reply.snapshot.finishedAt < d.builds[reply.snapshot.build].maxStale
  {
    var c := After(steps, settings);
    RunKeeps(steps, settings);
    PatientBuilds(steps, settings);
    match s
    case Call(r, now, later) =>
      EnterKeeps(c, r.key, later, settings);
      var (d, id) := Enter(c, r.key, later, settings);
      assert EntryOk(d, id);
    case End(b, ok, truthy, now) =>
      if Running(c, b) {
        assert EntryOk(c, c.builds[b].entry);
      }
  }

  /** A forced call starts a second build; when the first ends, the promise of the second is gone. */
  lemma ForcedBuildsOverlap(c: Cache, id: EntryId, a: BuildId, r: Request, now: Instant, truthy: bool, end: Instant)
    requires Inv(c) && id < |c.entries| && c.entries[id].promise == Some(a) && r.force
    ensures var d := Look(c, id, r, now).0;
      && Running(d, a) && Running(d, |c.builds|) && d.builds[|c.builds|].entry == id
      && var f := Settle(d, a, true, truthy, end).0;
         f.entries[id].promise.None? && Running(f, |c.builds|)
  {
    assert EntryOk(c, id);
  }

  lemma {:induction false} FilterTwice(slots: seq<Slot>, first: Slot -> bool, second: Slot -> bool, both: Slot -> bool)
    requires forall s :: both(s) <==> first(s) && second(s)
    ensures Filter(Filter(slots, first), second) == Filter(slots, both)
  {
    if slots != [] {
      var front, last := slots[..|slots| - 1], slots[|slots| - 1];
      FilterTwice(front, first, second, both);
      if first(last) {
        var kept := Filter(front, first);
        assert (kept + [last])[..|kept|] == kept;
      } else {
        assert Filter(slots, first) == Filter(front, first);
      }
    }
  }

  lemma OneMoreGone(slots: seq<Slot>, victims: seq<Slot>, i: nat)
    requires i < |victims|
    ensures Filter(Filter(slots, NoneOf(victims[..i])), NoneOf([victims[i]])) == Filter(slots, NoneOf(victims[..i + 1]))
  {
    assert victims[..i + 1] == victims[..i] + [victims[i]];
    FilterTwice(slots, NoneOf(victims[..i]), NoneOf([victims[i]]), NoneOf(victims[..i + 1]));
  }

  lemma VictimsTaken(slots: seq<Slot>, entries: seq<Entry>, maxEntries: nat)
    requires |slots| > maxEntries
    ensures var candidates := SortByTouch(Filter(slots, Idle(entries)), entries);
      Victims(slots, entries, maxEntries) == candidates[..Min(|slots| - maxEntries, |candidates|)]
  {
  }

  class SnapshotBucket {
    const settings: Settings
    var slots: seq<Slot>
    var entries: seq<Entry>
    var builds: seq<Build>
    var pruneAt: int

    constructor (settings: Settings)
      ensures this.settings == settings && State() == EMPTY
    {
      this.settings := settings;
      slots, entries, builds, pruneAt := [], [], [], 0;
    }

    function State(): Cache
      reads this
    {
      Cache(slots, entries, builds, pruneAt)
    }

    method PruneBucket(now: Instant)
      modifies this`slots, this`pruneAt
      ensures State() == Prune(old(State()), now, settings)
    {
      if now - pruneAt < settings.pruneInterval {
        return;
      }
      pruneAt := now;
      DropSpent(now);
      if |slots| <= settings.maxEntries {
        KeepAll(slots, NoneOf([]));
        return;
      }
      DropLeastUsed(|slots| - settings.maxEntries);
    }

    method DropSpent(now: Instant)
      modifies this`slots
      ensures slots == Filter(old(slots), Unspent(entries, now))
    {
      var all := slots;
      var left: seq<Slot> := [];
      for i := 0 to |all|
        invariant left == Filter(all[..i], Unspent(entries, now))
      {
        assert all[..i + 1][..i] == all[..i];
        var s := all[i];
        if !(s.entry < |entries| && entries[s.entry].promise.None? && 0 < entries[s.entry].staleUntil
             && entries[s.entry].staleUntil <= now) {
          left := left + [s];
        }
      }
      assert all[..|all|] == all;
      slots := left;
    }

    method DropLeastUsed(overflow: nat)
      requires 0 < overflow == |slots| - settings.maxEntries
      modifies this`slots
      ensures slots == Filter(old(slots), NoneOf(Victims(old(slots), entries, settings.maxEntries)))
    {
      VictimsTaken(slots, entries, settings.maxEntries);
      var candidates := SortByTouch(Filter(slots, Idle(entries)), entries);
      DropFirst(candidates, Min(overflow, |candidates|));
    }

    method DropFirst(candidates: seq<Slot>, count: nat)
      requires count <= |candidates|
      modifies this`slots
      ensures slots == Filter(old(slots), NoneOf(candidates[..count]))
    {
      KeepAll(slots, NoneOf(candidates[..0]));
      for idx := 0 to count
        invariant slots == Filter(old(slots), NoneOf(candidates[..idx]))
      {
        OneMoreGone(old(slots), candidates, idx);
        slots := Filter(slots, NoneOf([candidates[idx]]));
      }
    }

    method GetEntry(key: Key, now: Instant) returns (id: EntryId)
      requires Inv(State())
      modifies this`slots, this`entries, this`pruneAt
      ensures (State(), id) == Enter(old(State()), key, now, settings)
      ensures Inv(State()) && id < |entries|
    {
      EnterKeeps(State(), key, now, settings);
      PruneBucket(now);
      var i := IndexOf(slots, key);
      if i >= 0 {
        return slots[i].entry;
      }
      id := |entries|;
      slots := slots + [Slot(key, id)];
      entries := entries + [FRESH_ENTRY.(key := key)];
    }

    method GetSnapshot(r: Request, now: Instant, later: Instant) returns (reply: Reply)
      requires Inv(State())
      modifies this
      ensures (State(), reply) == Get(old(State()), r, now, later, settings) && Inv(State())
    {
      var id := GetEntry(r.key, later);
      reply := LookUp(id, r, now);
    }

    method LookUp(id: EntryId, r: Request, now: Instant) returns (reply: Reply)
      requires Inv(State()) && id < |entries|
      modifies this`entries, this`builds
      ensures (State(), reply) == Look(old(State()), id, r, now) && Inv(State())
    {
      LookKeeps(State(), id, r, now);
      ghost var before := entries;
      entries := entries[id := entries[id].(touchedAt := now)];
      var entry := entries[id];
      var hasValue := entry.value.Some? && entry.value.value.truthy;
      if !r.force && hasValue && entry.expiresAt > now {
        return Served(entry.value.value);
      }
      if !r.force && entry.promise.Some? {
        if r.allowStale && hasValue && entry.staleUntil > now {
          return Served(entry.value.value);
        }
        return Awaits(entry.promise.value);
      }
      var build := |builds|;
      builds := builds + [Build(id, r.ttl, r.maxStale, r.force, r.allowStale, true)];
      entries := entries[id := entry.(promise := Some(build))];
      assert entries == before[id := entry.(promise := Some(build))];
      if !r.force && r.allowStale && hasValue && entry.staleUntil > now {
        return Served(entry.value.value);
      }
      reply := Awaits(build);
    }

    method BuildSucceeded(b: BuildId, truthy: bool, now: Instant) returns (reply: Reply)
      requires Inv(State()) && Running(State(), b)
      modifies this`entries, this`builds
      ensures (State(), reply) == Settle(old(State()), b, true, truthy, now) && Inv(State())
    {
      SettleKeeps(State(), b, true, truthy, now);
      var build := builds[b];
      var entry := entries[build.entry];
      var snapshot := Snapshot(b, truthy, now);
      builds := builds[b := build.(running := false)];
      entry := entry.(value := Some(snapshot), expiresAt := now + build.ttl, staleUntil := now + build.maxStale);
      entry := entry.(promise := None, touchedAt := now);
      entries := entries[build.entry := entry];
      reply := Served(snapshot);
    }

    method BuildFailed(b: BuildId, now: Instant) returns (reply: Reply)
      requires Inv(State()) && Running(State(), b)
      modifies this`entries, this`builds
      ensures (State(), reply) == Settle(old(State()), b, false, false, now) && Inv(State())
    {
      SettleKeeps(State(), b, false, false, now);
      var build := builds[b];
      builds := builds[b := build.(running := false)];
      entries := entries[build.entry := entries[build.entry].(promise := None)];
      var entry := entries[build.entry];
      if !build.force && build.allowStale && entry.value.Some? && entry.value.value.truthy && entry.staleUntil > now {
        return Served(entry.value.value);
      }
      reply := Failed;
    }

    method InvalidateKeys(keys: set<Key>)
      requires Inv(State())
      modifies this`slots
      ensures State() == Invalidate(old(State()), keys) && Inv(State())
      ensures forall s :: s in slots <==> s in old(slots) && s.key !in keys
    {
      FilterDistinct(slots, NoKeyOf(keys));
      SameBuilds(State(), Invalidate(State(), keys));
      var all := slots;
      var left: seq<Slot> := [];
      for i := 0 to |all|
        invariant left == Filter(all[..i], NoKeyOf(keys))
      {
        assert all[..i + 1][..i] == all[..i];
        if all[i].key !in keys {
          left := left + [all[i]];
        }
      }
      assert all[..|all|] == all;
      slots := left;
    }
  }

  lemma {:induction false} KeepAll(slots: seq<Slot>, keep: Slot -> bool)
    requires forall s :: s in slots ==> keep(s)
    ensures Filter(slots, keep) == slots
  {
    if slots != [] {
      var front, last := slots[..|slots| - 1], slots[|slots| - 1];
      assert slots == front + [last];
      KeepAll(front, keep);
    }
  }
}
