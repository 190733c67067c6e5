/** What a pre-scan learns: the totals of each source that is there (server/src/main/kernel.js,
    lines 7606-7617 and 7779-7790). */
module FsScan {
  import opened FsJob
  import opened FsTree

  ghost predicate Holds(t: Tree, src: Path, bytes: nat, items: nat) {
    bytes == TotalBytes(t, src) && items == TotalItems(t, src)
  }

  /** What a scan of the tree notes for a source: nothing if it does not see it. */
  ghost predicate Seen(leads: Resolver, t: Tree, src: Path, bytes: nat, items: nat) {
    if Exists(leads, t, src) then Holds(t, src, bytes, items) else bytes == 0 && items == 0
  }

  type Totals = map<Path, (nat, nat)>

  function KnownTotals(known: Totals, source: Path): (nat, nat) {
    if source in known then known[source] else (0, 0)
  }

  /** The pre-scan saw the tree `seen`. */
  ghost predicate SawTree(leads: Resolver, known: Totals, sources: seq<Path>, seen: Tree) {
    SawFirst(leads, known, sources, |sources|, seen)
  }

  ghost predicate SawFirst(leads: Resolver, known: Totals, sources: seq<Path>, n: nat, seen: Tree)
    requires n <= |sources|
  {
    && (forall s :: s in known ==> Exists(leads, seen, s))
    && forall k :: 0 <= k < n ==>
         Seen(leads, seen, sources[k], KnownTotals(known, sources[k]).0, KnownTotals(known, sources[k]).1)
  }

  /** One source that is there, with its totals. */
  lemma SawPresent(leads: Resolver, known: Totals, sources: seq<Path>, n: nat, seen: Tree, totals: (nat, nat))
    requires n < |sources| && SawFirst(leads, known, sources, n, seen)
    requires Exists(leads, seen, sources[n]) && Holds(seen, sources[n], totals.0, totals.1)
    ensures SawFirst(leads, known[sources[n] := totals], sources, n + 1, seen)
  {
  }

  lemma SawAbsent(leads: Resolver, known: Totals, sources: seq<Path>, n: nat, seen: Tree)
    requires n < |sources| && SawFirst(leads, known, sources, n, seen) && !Exists(leads, seen, sources[n])
    ensures SawFirst(leads, known, sources, n + 1, seen)
  {
  }

  /** Those of the first `n` sources that are not seen, in order. */
  ghost function Missing(leads: Resolver, t: Tree, sources: seq<Path>, n: nat): seq<Path>
    requires n <= |sources|
  {
    if n == 0 then []
    else Missing(leads, t, sources, n - 1) + if Exists(leads, t, sources[n - 1]) then [] else [sources[n - 1]]
  }

  lemma {:induction false} NoneMissing(leads: Resolver, t: Tree, sources: seq<Path>, n: nat)
    requires n <= |sources|
    ensures Missing(leads, t, sources, n) == [] <==> forall j :: 0 <= j < n ==> Exists(leads, t, sources[j])
  {
    if n > 0 {
      NoneMissing(leads, t, sources, n - 1);
    }
  }

  /** A bound on the depth of the tree, for termination only. */
  ghost function Longest(s: set<Path>): (n: nat)
    ensures forall p :: p in s ==> |p| <= n
  {
    if s == {} then 0
    else
      var p :| p in s;
      var rest := Longest(s - {p});
      if |p| > rest then |p| else rest
  }
}
