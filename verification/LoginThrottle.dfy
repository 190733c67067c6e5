/** The login throttle (server/src/main/kernel.js, `pruneLoginAttempts`, `registerLoginFailure`;
    server/src/handlers/auth-handlers.js, `loginHandler`). */
module LoginThrottle {
  import opened Clock
  import opened Options

  type Address = string

  datatype Attempt = Attempt(count: nat, windowStartedAt: int, blockedUntil: int)

  /** The settings: window, block duration, attempts allowed. */
  datatype Limits = Limits(window: nat, block: nat, maxAttempts: nat)

  /** What pruning may drop. */
  predicate Expired(a: Attempt, now: int, limits: Limits) {
    now - a.windowStartedAt > limits.window && a.blockedUntil <= now
  }

  /** `registerLoginFailure`. */
  function AfterFailure(existing: Option<Attempt>, now: Instant, limits: Limits): Attempt {
    var within := existing.Some? && now - existing.value.windowStartedAt <= limits.window;
    var count := if within then existing.value.count + 1 else 1;
    Attempt(count, if within then existing.value.windowStartedAt else now,
            if count >= limits.maxAttempts then now + limits.block else 0)
  }

  /** The state after these failures, with no success among them. */
  function AttemptAfter(failures: seq<Instant>, limits: Limits): Option<Attempt> {
    if failures == [] then None
    else Some(AfterFailure(AttemptAfter(failures[..|failures| - 1], limits), failures[|failures| - 1], limits))
  }

  predicate IsBlocked(attempt: Option<Attempt>, now: int) {
    attempt.Some? && attempt.value.blockedUntil > now
  }

  /** A block is on exactly while the last failure, being the last one allowed in its window, is less
      than a block's length ago. */
  lemma BlockedExactly(failures: seq<Instant>, now: Instant, limits: Limits)
    ensures IsBlocked(AttemptAfter(failures, limits), now) <==>
      && failures != [] && AttemptAfter(failures, limits).value.count >= limits.maxAttempts
      && now < failures[|failures| - 1] + limits.block
  {
  }

  /** Failures in order, none of them evaluated during a block. */
  ghost predicate Evaluated(failures: seq<Instant>, limits: Limits) {
    && (forall i, j :: 0 <= i <= j < |failures| ==> failures[i] <= failures[j])
    && (forall i :: 0 <= i < |failures| ==> !IsBlocked(AttemptAfter(failures[..i], limits), failures[i]))
  }

  /** Failures counted in the half-open interval of one window length that begins at `start`. */
  function CountFrom(failures: seq<Instant>, start: int, limits: Limits): nat {
    if failures == [] then 0
    else
      var last := failures[|failures| - 1];
      CountFrom(failures[..|failures| - 1], start, limits) + if start <= last < start + limits.window then 1 else 0
  }

  function Bound(limits: Limits): int {
    if limits.maxAttempts == 1 then 1 else 2 * limits.maxAttempts - 2
  }

  lemma EvaluatedPrefix(failures: seq<Instant>, n: nat, limits: Limits)
    requires n <= |failures| && Evaluated(failures, limits)
    ensures Evaluated(failures[..n], limits)
  {
    forall i | 0 <= i < n
      ensures !IsBlocked(AttemptAfter(failures[..n][..i], limits), failures[..n][i])
    {
      assert failures[..n][..i] == failures[..i];
    }
  }

  /** The attempt record describes a run of failures at the end of the list: it began with the
      first of them, all of them fall within one window, and the last one began any block. */
  ghost predicate Describes(a: Attempt, failures: seq<Instant>, limits: Limits) {
    && 1 <= a.count <= |failures| && a.count <= limits.maxAttempts
    && failures[|failures| - a.count] == a.windowStartedAt
    && failures[|failures| - 1] - a.windowStartedAt <= limits.window
    && a.blockedUntil == (if a.count == limits.maxAttempts then failures[|failures| - 1] + limits.block else 0)
  }

  lemma {:induction false} AttemptDescribes(failures: seq<Instant>, limits: Limits)
    requires limits.maxAttempts >= 1 && limits.block > limits.window
    requires failures != [] && Evaluated(failures, limits)
    ensures Describes(AttemptAfter(failures, limits).value, failures, limits)
  {
    var n := |failures| - 1;
    if n > 0 {
      EvaluatedPrefix(failures, n, limits);
      AttemptDescribes(failures[..n], limits);
      assert !IsBlocked(AttemptAfter(failures[..n], limits), failures[n]);
    }
  }

  /** Two failures less than a window apart have few failures between them. */
  lemma FewWithinAWindow(failures: seq<Instant>, i: nat, j: nat, limits: Limits)
    requires limits.maxAttempts >= 1 && limits.block > limits.window && Evaluated(failures, limits)
    requires i <= j < |failures| && failures[j] - failures[i] < limits.window
    ensures j - i + 1 <= Bound(limits)
  {
    var upto := failures[..j + 1];
    EvaluatedPrefix(failures, j + 1, limits);
    AttemptDescribes(upto, limits);
    var count := AttemptAfter(upto, limits).value.count;
    var first := j + 1 - count;
    if i < first {
      WindowOpens(upto, limits);
      var before := failures[..first];
      assert upto[..first] == before;
      EvaluatedPrefix(failures, first, limits);
      AttemptDescribes(before, limits);
      var earlier := AttemptAfter(before, limits).value;
      assert !IsBlocked(AttemptAfter(before, limits), failures[first]);
      assert failures[first - earlier.count] == earlier.windowStartedAt;
      assert earlier.count < limits.maxAttempts;
      assert first - earlier.count < i;
    }
  }

  /** Where the current window begins. */
  ghost function WindowStart(failures: seq<Instant>, limits: Limits): int {
    if failures == [] then 0 else |failures| - AttemptAfter(failures, limits).value.count
  }

  /** The first failure of the current window came after the window before it. */
  lemma {:induction false} WindowOpens(failures: seq<Instant>, limits: Limits)
    requires limits.maxAttempts >= 1 && limits.block > limits.window
    requires failures != [] && Evaluated(failures, limits)
    ensures var first := WindowStart(failures, limits);
      0 <= first < |failures| &&
      (first > 0 ==> failures[first] - AttemptAfter(failures[..first], limits).value.windowStartedAt > limits.window)
  {
    AttemptDescribes(failures, limits);
    var n, first := |failures| - 1, WindowStart(failures, limits);
    if first < n {
      var front := failures[..n];
      assert AttemptAfter(failures, limits).value.count == AttemptAfter(front, limits).value.count + 1;
      assert WindowStart(front, limits) == first;
      EvaluatedPrefix(failures, n, limits);
      WindowOpens(front, limits);
      assert front[..first] == failures[..first];
    }
  }

  /** Counted failures lie between the first and the last of them. */
  lemma {:induction false} CountSpans(failures: seq<Instant>, start: int, limits: Limits) returns (i: nat, j: nat)
    requires forall i, j :: 0 <= i <= j < |failures| ==> failures[i] <= failures[j]
    requires CountFrom(failures, start, limits) > 0
    ensures i <= j < |failures| && j - i + 1 >= CountFrom(failures, start, limits)
    ensures start <= failures[i] && failures[j] < start + limits.window
  {
    var n := |failures| - 1;
    if CountFrom(failures[..n], start, limits) == 0 {
      i, j := n, n;
    } else {
      i, j := CountSpans(failures[..n], start, limits);
      if start <= failures[n] < start + limits.window {
        j := n;
      }
    }
  }

  /** With a block longer than the window, no interval of one window length holds more than
      `2 * max - 2` evaluated failures (one, when `max` is one). */
  lemma FailuresBounded(failures: seq<Instant>, start: int, limits: Limits)
    requires limits.maxAttempts >= 1 && limits.block > limits.window && Evaluated(failures, limits)
    ensures CountFrom(failures, start, limits) <= Bound(limits)
  {
    if CountFrom(failures, start, limits) > 0 {
      var i, j := CountSpans(failures, start, limits);
      FewWithinAWindow(failures, i, j, limits);
    }
  }

  function Repeat(t: Instant, n: nat): seq<Instant> {
    seq(n, _ => t)
  }

  /** One failure opens a window, `max - 2` follow at its very end, and `max` just after it. */
  function Worst(limits: Limits): seq<Instant>
    requires limits.maxAttempts >= 2
  {
    [EARLIEST] + Repeat(EARLIEST + limits.window, limits.maxAttempts - 2)
      + Repeat(EARLIEST + limits.window + 1, limits.maxAttempts)
  }

  lemma {:induction false} WorstPrefix(limits: Limits, n: nat)
    requires limits.maxAttempts >= 2 && limits.block > limits.window && 1 <= n <= |Worst(limits)|
    ensures var m := limits.maxAttempts - 1;
      AttemptAfter(Worst(limits)[..n], limits) == Some(
        if n <= m then Attempt(n, EARLIEST, 0)
        else
          var again := EARLIEST + limits.window + 1;
          Attempt(n - m, again, if n - m >= limits.maxAttempts then again + limits.block else 0))
  {
    var worst := Worst(limits);
    assert worst[..n][..n - 1] == worst[..n - 1];
    if n > 1 {
      WorstPrefix(limits, n - 1);
    } else {
      assert worst[..0] == [];
    }
  }

  lemma {:induction false} CountRepeat(front: seq<Instant>, t: Instant, n: nat, start: int, limits: Limits)
    ensures CountFrom(front + Repeat(t, n), start, limits) ==
      CountFrom(front, start, limits) + if start <= t < start + limits.window then n else 0
  {
    if n == 0 {
      assert front + Repeat(t, n) == front;
    } else {
      var all := front + Repeat(t, n);
      assert all[..|all| - 1] == front + Repeat(t, n - 1);
      CountRepeat(front, t, n - 1, start, limits);
    }
  }

  lemma WorstIsEvaluated(limits: Limits)
    requires limits.maxAttempts >= 2 && limits.block > limits.window
    ensures Evaluated(Worst(limits), limits)
  {
    var worst := Worst(limits);
    forall i | 0 <= i < |worst|
      ensures !IsBlocked(AttemptAfter(worst[..i], limits), worst[i])
    {
      if i > 0 {
        WorstPrefix(limits, i);
      }
    }
  }

  /** The bound is reached. */
  lemma BoundIsSharp(limits: Limits)
    requires limits.maxAttempts >= 2 && limits.block > limits.window >= 2
    ensures Evaluated(Worst(limits), limits)
    ensures CountFrom(Worst(limits), EARLIEST + limits.window, limits) == Bound(limits)
  {
    WorstIsEvaluated(limits);
    var max, start := limits.maxAttempts, EARLIEST + limits.window;
    var early := [EARLIEST] + Repeat(start, max - 2);
    CountRepeat(early, start + 1, max, start, limits);
    CountRepeat([EARLIEST], start, max - 2, start, limits);
    assert CountFrom([EARLIEST], start, limits) == 0 by {
      assert [EARLIEST][..0] == [];
    }
  }

  function EntryOf<T>(table: map<Address, T>, key: Address): Option<T> {
    if key in table then Some(table[key]) else None
  }

  function FailuresOf(failures: map<Address, seq<Instant>>, key: Address): seq<Instant> {
    if key in failures then failures[key] else []
  }

  /** The entry is what the failures come to; it may be missing once it no longer matters. */
  ghost predicate Tracks(failures: seq<Instant>, entry: Option<Attempt>, now: int, limits: Limits) {
    && Evaluated(failures, limits)
    && (failures != [] ==> failures[|failures| - 1] <= now)
    && (entry.Some? ==> entry == AttemptAfter(failures, limits))
    && (entry.None? && failures != [] ==> Expired(AttemptAfter(failures, limits).value, now, limits))
  }

  /** A missing entry answers as the one that was pruned would. */
  lemma PrunedIsAsGood(failures: seq<Instant>, entry: Option<Attempt>, now: Instant, limits: Limits)
    requires Tracks(failures, entry, now, limits)
    ensures IsBlocked(entry, now) <==> IsBlocked(AttemptAfter(failures, limits), now)
    ensures AfterFailure(entry, now, limits) == AfterFailure(AttemptAfter(failures, limits), now, limits)
  {
  }

  lemma FailureTracked(failures: seq<Instant>, entry: Option<Attempt>, now: Instant, limits: Limits)
    requires Tracks(failures, entry, now, limits) && !IsBlocked(entry, now)
    ensures AttemptAfter(failures + [now], limits) == Some(AfterFailure(entry, now, limits))
    ensures Tracks(failures + [now], Some(AfterFailure(entry, now, limits)), now, limits)
  {
    var all := failures + [now];
    assert all[..|failures|] == failures;
    forall i | 0 <= i < |all|
      ensures !IsBlocked(AttemptAfter(all[..i], limits), all[i])
    {
      if i < |failures| {
        assert all[..i] == failures[..i];
      }
    }
  }

  ghost predicate AllTracked(
      failures: map<Address, seq<Instant>>, entries: map<Address, Attempt>, now: int, limits: Limits) {
    forall key :: Tracks(FailuresOf(failures, key), EntryOf(entries, key), now, limits)
  }

  lemma OneMoreTracked(failures: map<Address, seq<Instant>>, entries: map<Address, Attempt>, key: Address,
                       all: seq<Instant>, entry: Attempt, now: int, limits: Limits)
    requires AllTracked(failures, entries, now, limits) && Tracks(all, Some(entry), now, limits)
    ensures AllTracked(failures[key := all], entries[key := entry], now, limits)
  {
    var newFailures, newEntries := failures[key := all], entries[key := entry];
    forall k
      ensures Tracks(FailuresOf(newFailures, k), EntryOf(newEntries, k), now, limits)
    {
      assert Tracks(FailuresOf(failures, k), EntryOf(entries, k), now, limits);
    }
  }

  lemma FailureKeepsTrack(failures: map<Address, seq<Instant>>, entries: map<Address, Attempt>, key: Address,
                          now: Instant, limits: Limits)
    requires AllTracked(failures, entries, now, limits) && !IsBlocked(EntryOf(entries, key), now)
    ensures var all, entry := FailuresOf(failures, key) + [now], AfterFailure(EntryOf(entries, key), now, limits);
      && AllTracked(failures[key := all], entries[key := entry], now, limits)
      && AttemptAfter(all, limits) == Some(entry)
  {
    assert Tracks(FailuresOf(failures, key), EntryOf(entries, key), now, limits);
    FailureTracked(FailuresOf(failures, key), EntryOf(entries, key), now, limits);
    OneMoreTracked(failures, entries, key, FailuresOf(failures, key) + [now],
                   AfterFailure(EntryOf(entries, key), now, limits), now, limits);
  }

  /** The table answers as the failures do. */
  lemma TableAnswers(failures: map<Address, seq<Instant>>, entries: map<Address, Attempt>, key: Address, now: Instant,
                     limits: Limits)
    requires AllTracked(failures, entries, now, limits)
    ensures IsBlocked(EntryOf(entries, key), now) <==> IsBlocked(AttemptAfter(FailuresOf(failures, key), limits), now)
    ensures limits.maxAttempts >= 1 && limits.block > limits.window && FailuresOf(failures, key) != [] ==>
      AttemptAfter(FailuresOf(failures, key), limits).value.count <= limits.maxAttempts
  {
    var all := FailuresOf(failures, key);
    assert Tracks(all, EntryOf(entries, key), now, limits);
    PrunedIsAsGood(all, EntryOf(entries, key), now, limits);
    if limits.maxAttempts >= 1 && limits.block > limits.window && all != [] {
      AttemptDescribes(all, limits);
    }
  }

  lemma OneLessTracked(failures: map<Address, seq<Instant>>, entries: map<Address, Attempt>, key: Address, now: int,
                       limits: Limits)
    requires AllTracked(failures, entries, now, limits)
    ensures AllTracked(failures - {key}, entries - {key}, now, limits)
  {
    var newFailures, newEntries := failures - {key}, entries - {key};
    forall k
      ensures Tracks(FailuresOf(newFailures, k), EntryOf(newEntries, k), now, limits)
    {
      assert Tracks(FailuresOf(failures, k), EntryOf(entries, k), now, limits);
    }
  }

  datatype Outcome = TooMany | Wrong(remaining: nat) | LoggedIn

  class LoginGate {
    const limits: Limits
    var loginAttempts: map<Address, Attempt>
    var clock: Instant
    /** The evaluated failures of each address since its last success. */
    ghost var failures: map<Address, seq<Instant>>

    constructor (limits: Limits, clock: Instant)
      requires limits.maxAttempts >= 1 && limits.block > limits.window
      ensures this.limits == limits && this.clock == clock && Valid() && failures == map[]
    {
      this.limits, this.clock := limits, clock;
      loginAttempts, failures := map[], map[];
    }

    ghost predicate Valid()
      reads this
    {
      && limits.maxAttempts >= 1 && limits.block > limits.window
      && AllTracked(failures, loginAttempts, clock, limits)
    }

    /** `Date.now()`. */
    method Now() returns (now: Instant)
      requires Valid()
      modifies this`clock
      ensures Valid() && old(clock) <= now == clock
    {
      var passed: nat :| passed >= 0;
      clock := clock + passed;
      now := clock;
    }

    method PruneLoginAttempts()
      requires Valid()
      modifies this`clock, this`loginAttempts
      ensures Valid() && old(clock) <= clock
      ensures loginAttempts == map key | key in old(loginAttempts) && (
        || clock - old(loginAttempts)[key].windowStartedAt <= limits.window
        || old(loginAttempts)[key].blockedUntil > clock) :: old(loginAttempts)[key]
    {
      var now := Now();
      var keys := loginAttempts.Keys;
      var kept: map<Address, Attempt> := map[];
      while keys != {}
        invariant keys <= loginAttempts.Keys
        invariant kept == map key | key in loginAttempts && key !in keys && !Expired(loginAttempts[key], now, limits)
                            :: loginAttempts[key]
        decreases |keys|
      {
        var key :| key in keys;
        keys := keys - {key};
        var attempt := loginAttempts[key];
        var expiredWindow := now - attempt.windowStartedAt > limits.window;
        var expiredBlock := attempt.blockedUntil <= now;
        if !(expiredWindow && expiredBlock) {
          kept := kept[key := attempt];
        }
      }
      forall key
        ensures Tracks(FailuresOf(failures, key), EntryOf(kept, key), now, limits)
      {
        assert Tracks(FailuresOf(failures, key), EntryOf(loginAttempts, key), now, limits);
      }
      loginAttempts := kept;
    }

    method RegisterLoginFailure(key: Address) returns (attempt: Attempt)
      requires Valid() && !IsBlocked(EntryOf(loginAttempts, key), clock)
      modifies this
      ensures Valid() && old(clock) <= clock
      ensures failures == old(failures)[key := FailuresOf(old(failures), key) + [clock]]
      ensures AttemptAfter(FailuresOf(failures, key), limits) == Some(attempt)
    {
      var now := Now();
      attempt := NextAttempt(EntryOf(loginAttempts, key), now);
      FailureKeepsTrack(failures, loginAttempts, key, now, limits);
      ghost var all := FailuresOf(failures, key) + [now];
      loginAttempts := loginAttempts[key := attempt];
      failures := failures[key := all];
      assert FailuresOf(failures, key) == all;
    }

    method NextAttempt(existing: Option<Attempt>, now: Instant) returns (attempt: Attempt)
      ensures attempt == AfterFailure(existing, now, limits)
    {
      var withinWindow := existing.Some? && now - existing.value.windowStartedAt <= limits.window;
      var nextCount := if withinWindow then existing.value.count + 1 else 1;
      attempt := Attempt(nextCount, if withinWindow then existing.value.windowStartedAt else now,
                         if nextCount >= limits.maxAttempts then now + limits.block else 0);
    }

    method ClearLoginFailures(key: Address)
      requires Valid()
      modifies this`loginAttempts, this`failures
      ensures Valid() && failures == old(failures) - {key} && loginAttempts == old(loginAttempts) - {key}
    {
      OneLessTracked(failures, loginAttempts, key, clock, limits);
      loginAttempts := loginAttempts - {key};
      failures := failures - {key};
    }

    /** One request. A password is evaluated exactly when no block is on, and the failures it adds to
        are those that FailuresBounded is about. */
    method Login(key: Address, valid: bool) returns (outcome: Outcome, ghost checkedAt: Instant)
      requires Valid()
      modifies this
      ensures Valid() && old(clock) <= checkedAt <= clock
      ensures outcome.TooMany? <==> IsBlocked(AttemptAfter(FailuresOf(old(failures), key), limits), checkedAt)
      ensures outcome.TooMany? <==> var past := FailuresOf(old(failures), key);
        && past != [] && AttemptAfter(past, limits).value.count >= limits.maxAttempts
        && checkedAt < past[|past| - 1] + limits.block
      ensures outcome.TooMany? ==> failures == old(failures)
      ensures outcome.LoggedIn? ==> valid && failures == old(failures) - {key}
      ensures outcome.Wrong? ==> !valid && failures == old(failures)[key := FailuresOf(old(failures), key) + [clock]]
      ensures outcome.Wrong? ==>
        limits.maxAttempts - outcome.remaining == AttemptAfter(FailuresOf(failures, key), limits).value.count
    {
      PruneLoginAttempts();
      var existing := EntryOf(loginAttempts, key);
      var now := Now();
      checkedAt := now;
      TableAnswers(failures, loginAttempts, key, now, limits);
      BlockedExactly(FailuresOf(failures, key), now, limits);
      if existing.Some? && existing.value.blockedUntil > now {
        outcome := TooMany;
        return;
      }
      if !valid {
        var attempt := RegisterLoginFailure(key);
        TableAnswers(failures, loginAttempts, key, clock, limits);
        outcome := Wrong(if attempt.count <= limits.maxAttempts then limits.maxAttempts - attempt.count else 0);
        return;
      }
      ClearLoginFailures(key);
      outcome := LoggedIn;
    }
  }
}
