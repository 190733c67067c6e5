/** What a call for a snapshot gets, and what it leaves behind, in every reachable state of a bucket
    (server/src/main/kernel.js, `getUiSnapshotFromCache`, lines 2158-2229). Ages are told from when a
    value was built and from the lifetimes its own caller gave. */
module SnapshotFreshness {
  import opened Clock
  import opened Numbers
  import opened Options
  import opened SnapshotCache

  /** The value that is there for a key when a call has pruned the bucket. */
  ghost predicate There(c: Cache, key: Key, later: Instant, settings: Settings, v: Snapshot) {
    exists s :: s in Prune(c, later, settings).slots && s.key == key && s.entry < |c.entries|
      && c.entries[s.entry].value == Some(v) && v.truthy
  }

  ghost predicate Fresh(c: Cache, v: Snapshot, now: int) {
    v.build < |c.builds| && v.finishedAt + c.builds[v.build].ttl > now
  }

  ghost predicate NotTooStale(c: Cache, v: Snapshot, now: int) {
    v.build < |c.builds| && v.finishedAt + c.builds[v.build].maxStale > now
  }

  lemma EntryThere(c: Cache, key: Key, later: Instant, settings: Settings)
    requires Inv(c)
    ensures var (d, id) := Enter(c, key, later, settings);
      && Inv(d) && id < |d.entries| && Slot(key, id) in d.slots && d.builds == c.builds
      && (forall v :: There(c, key, later, settings, v) <==> d.entries[id].value == Some(v) && v.truthy)
      && (forall v :: d.entries[id].value == Some(v) ==>
            v.build < |d.builds| && d.entries[id].expiresAt == v.finishedAt + d.builds[v.build].ttl
            && d.entries[id].staleUntil == v.finishedAt + d.builds[v.build].maxStale)
  {
    EnterKeeps(c, key, later, settings);
    PruneKeeps(c, later, settings);
    var (d, id) := Enter(c, key, later, settings);
    var p := Prune(c, later, settings);
    assert EntryOk(d, id);
    forall v
      ensures There(c, key, later, settings, v) <==> d.entries[id].value == Some(v) && v.truthy
    {
      if IndexOf(p.slots, key) >= 0 {
        assert p.slots[IndexOf(p.slots, key)] in p.slots;
      }
    }
  }

  /** Values are served to unforced calls only: a fresh one always, one that has expired exactly if the
      call takes stale values and it is not too stale. */
  lemma ServedExactly(steps: seq<Step>, r: Request, now: Instant, later: Instant, settings: Settings, v: Snapshot)
    ensures var c := After(steps, settings);
      Get(c, r, now, later, settings).1 == Served(v) <==>
        && !r.force && There(c, r.key, later, settings, v)
        && (Fresh(c, v, now) || (r.allowStale && NotTooStale(c, v, now)))
  {
    var c := After(steps, settings);
    RunKeeps(steps, settings);
    EntryThere(c, r.key, later, settings);
  }

  ghost predicate FreshThere(c: Cache, r: Request, now: Instant, later: Instant, settings: Settings) {
    exists v :: There(c, r.key, later, settings, v) && Fresh(c, v, now)
  }

  ghost predicate Unawaited(c: Cache, id: EntryId) {
    id < |c.entries| ==> c.entries[id].promise.None?
  }

  lemma LookBuilds(c: Cache, id: EntryId, r: Request, now: Instant)
    requires id < |c.entries|
    ensures var d := Look(c, id, r, now).0;
      && d.slots == c.slots && |d.entries| == |c.entries| && d.entries[id].touchedAt == now
      && (forall k :: 0 <= k < |c.entries| && k != id ==> d.entries[k] == c.entries[k])
      && d.builds ==
           if r.force || (c.entries[id].promise.None? && !Usable(c.entries[id], c.entries[id].expiresAt, now))
           then c.builds + [Build(id, r.ttl, r.maxStale, r.force, r.allowStale, true)] else c.builds
  {
  }

  lemma FreshFound(c: Cache, r: Request, now: Instant, later: Instant, settings: Settings)
    requires Inv(c)
    ensures var (d, id) := Enter(c, r.key, later, settings);
      && id < |d.entries| && (d.entries[id].promise.None? <==> Unawaited(c, id))
      && (Usable(d.entries[id], d.entries[id].expiresAt, now) <==> FreshThere(c, r, now, later, settings))
      && forall k :: 0 <= k < |c.entries| ==> d.entries[k] == c.entries[k]
  {
    EntryThere(c, r.key, later, settings);
    var (d, id) := Enter(c, r.key, later, settings);
    if Usable(d.entries[id], d.entries[id].expiresAt, now) {
      assert There(c, r.key, later, settings, d.entries[id].value.value);
    }
  }

  /** A new build is asked for exactly by a forced call, or when there is neither a fresh value nor a
      build in flight that the entry waits for; its lifetimes are those of the call. No other entry is
      touched. */
  lemma BuiltExactly(steps: seq<Step>, r: Request, now: Instant, later: Instant, settings: Settings)
    ensures var c := After(steps, settings);
      var (d, reply) := Get(c, r, now, later, settings);
      exists s :: s in d.slots && s.key == r.key && s.entry < |d.entries| && d.entries[s.entry].touchedAt == now
        && (forall k :: 0 <= k < |c.entries| && k != s.entry ==> k < |d.entries| && d.entries[k] == c.entries[k])
        && d.builds ==
             if r.force || (Unawaited(c, s.entry) && !FreshThere(c, r, now, later, settings))
             then c.builds + [Build(s.entry, r.ttl, r.maxStale, r.force, r.allowStale, true)]
             else c.builds
  {
    var c := After(steps, settings);
    RunKeeps(steps, settings);
    EntryThere(c, r.key, later, settings);
    FreshFound(c, r, now, later, settings);
    var (p, id) := Enter(c, r.key, later, settings);
    LookBuilds(p, id, r, now);
    var d := Get(c, r, now, later, settings).0;
    assert Slot(r.key, id) in d.slots && d.entries[id].touchedAt == now;
  }

  /** A call that is not served a fresh value leaves a build in flight for its key, its own or one that
      was asked for before; a stale value is never served without. */
  lemma RevalidatedUnlessFresh(steps: seq<Step>, r: Request, now: Instant, later: Instant, settings: Settings)
    ensures var c := After(steps, settings);
      var (d, reply) := Get(c, r, now, later, settings);
      || (reply.Served? && Fresh(c, reply.snapshot, now) && d.builds == c.builds)
      || exists s :: s in d.slots && s.key == r.key && s.entry < |d.entries| && d.entries[s.entry].promise.Some?
           && var b := d.entries[s.entry].promise.value;
              Running(d, b) && d.builds[b].entry == s.entry && (reply.Served? || reply == Awaits(b))
  {
    var c := After(steps, settings);
    RunKeeps(steps, settings);
    EntryThere(c, r.key, later, settings);
    var (p, id) := Enter(c, r.key, later, settings);
    LookKeeps(p, id, r, now);
    var (d, reply) := Get(c, r, now, later, settings);
    assert EntryOk(d, id);
    assert Slot(r.key, id) in d.slots;
  }

  /** A forced call waits for a build of its own. */
  lemma ForcedBuilds(steps: seq<Step>, r: Request, now: Instant, later: Instant, settings: Settings)
    requires r.force
    ensures var c := After(steps, settings);
      var (d, reply) := Get(c, r, now, later, settings);
      && reply == Awaits(|c.builds|) && Running(d, |c.builds|)
      && exists s :: s in d.slots && s.key == r.key && s.entry < |d.entries|
           && d.entries[s.entry].promise == Some(|c.builds|)
           && d.builds == c.builds + [Build(s.entry, r.ttl, r.maxStale, true, r.allowStale, true)]
  {
    var c := After(steps, settings);
    RunKeeps(steps, settings);
    EntryThere(c, r.key, later, settings);
    var (p, id) := Enter(c, r.key, later, settings);
    assert Slot(r.key, id) in Get(c, r, now, later, settings).0.slots;
  }

  /** A build that fails leaves the value alone, and its entry without a promise; those who await it
      get that value if the call that asked was not forced, takes stale values, and it is not too
      stale, and an error otherwise. */
  lemma FailureFallsBackExactly(steps: seq<Step>, b: BuildId, now: Instant, settings: Settings, v: Snapshot)
    requires Running(After(steps, settings), b)
    ensures var c := After(steps, settings);
      var (d, reply) := Settle(c, b, false, false, now);
      var id := c.builds[b].entry;
      && !Running(d, b) && d.entries == c.entries[id := c.entries[id].(promise := None)]
      && (reply.Served? || reply.Failed?)
      && (reply == Served(v) <==>
            && !c.builds[b].force && c.builds[b].allowStale
            && c.entries[id].value == Some(v) && v.truthy && NotTooStale(c, v, now))
  {
    var c := After(steps, settings);
    RunKeeps(steps, settings);
    assert EntryOk(c, c.builds[b].entry);
  }

  /** A build that succeeds is stored as its entry's value and handed to those who await it. */
  lemma SuccessIsStored(steps: seq<Step>, b: BuildId, truthy: bool, now: Instant, settings: Settings)
    requires Running(After(steps, settings), b)
    ensures var c := After(steps, settings);
      var (d, reply) := Settle(c, b, true, truthy, now);
      var id := c.builds[b].entry;
      && reply == Served(Snapshot(b, truthy, now)) && !Running(d, b)
      && id < |d.entries| && d.entries[id].value == Some(Snapshot(b, truthy, now)) && d.entries[id].promise == None
      && d.entries[id].touchedAt == now && d.slots == c.slots
      && (forall v :: Fresh(d, Snapshot(b, truthy, now), v) <==> now + c.builds[b].ttl > v)
      && forall k :: 0 <= k < |c.entries| && k != id ==> d.entries[k] == c.entries[k]
  {
    RunKeeps(steps, settings);
  }
}
