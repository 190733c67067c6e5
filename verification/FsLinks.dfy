/** What links that lead nowhere do to a transfer, as `existsSync` does not see them
    (server/src/main/kernel.js, `processFsTransferJob` and `copyFileWithProgress`). */
module FsLinks {
  import opened Options
  import opened FsJob
  import opened FsTree
  import opened FsVolume
  import opened FsConflict
  import opened FsLedger
  import opened FsScan
  import opened FsTransfer

  /** Nobody has decided that a target may go. */
  predicate Unasked(p: Protocol) {
    p.phase != Decided(Replace) && !p.policy.replaceAllDifferentSize
  }

  /** The unseen link is renamed over. */
  lemma RenamedOver(leads: Resolver, u: Tree, src: Path, dst: Path) returns (v: Tree)
    requires WellFormed(u) && dst != [] && Unseen(leads, u, src, dst, true)
    ensures Confined(u, v, src, dst) && Arrived(u, v, src, dst, true) && !(dst <= src)
    ensures At(v, dst) == At(u, src)
  {
    var mid := Cleared(u, dst);
    LinkCleared(u, src, dst);
    v := mid[dst := mid[src]] - {src};
    LeafMoved(mid, v, src, dst);
    TransferIsInTransit(mid, v, src, dst, true);
    EntryEffect(u, mid, v, src, dst, true);
  }

  /** The turn that does away with what is at its target although nobody was asked. */
  lemma UnseenLost(leads: Resolver, plan: Plan, t: Tree, turns: seq<Turn>, p: Protocol) returns (turn: Turn)
    requires plan.Valid() && |turns| < |plan.sources|
    requires var u, src, dst := TreeAt(t, turns, |turns|), plan.sources[|turns|], plan.Target(|turns|);
      WellFormed(u) && Unseen(leads, u, src, dst, plan.kind == Move) && u[src] != u[dst]
    ensures turn.under == p && Fits(leads, plan, t, turns + [turn], |turns|)
    ensures Touches(TreeAt(t, turns, |turns|), turn, plan.Target(|turns|))
  {
    var n := |turns|;
    var u, src, dst := TreeAt(t, turns, n), plan.sources[n], plan.Target(n);
    if plan.kind == Move {
      var v := RenamedOver(leads, u, src, dst);
      turn := Turn(Delivered, TotalBytes(u, src), TotalItems(u, src), n, p, v);
      assert At(v, dst) != At(u, dst);
    } else {
      turn := Turn(Errored, 0, 0, 0, p, u - {dst});
      assert At(turn.after, dst) != At(u, dst);
    }
    assert (turns + [turn])[..n] == turns;
    TreesBefore(t, turns + [turn], n, n);
  }

  /** Where nobody was asked, a turn can change what is at its target exactly if that is a link that
      leads nowhere, other than the one to be put there, and the source is a file, or a link that is
      moved. */
  lemma TouchedUnaskedExactly(leads: Resolver, plan: Plan, t: Tree, turns: seq<Turn>, p: Protocol)
    requires plan.Valid() && |turns| < |plan.sources| && WellFormed(TreeAt(t, turns, |turns|)) && Unasked(p)
    ensures var u, src, dst := TreeAt(t, turns, |turns|), plan.sources[|turns|], plan.Target(|turns|);
      (exists turn: Turn :: turn.under == p && Fits(leads, plan, t, turns + [turn], |turns|) && Touches(u, turn, dst))
      <==> Unseen(leads, u, src, dst, plan.kind == Move) && u[src] != u[dst]
  {
    var n := |turns|;
    var u, src, dst := TreeAt(t, turns, n), plan.sources[n], plan.Target(n);
    forall turn: Turn | turn.under == p && Fits(leads, plan, t, turns + [turn], n) && Touches(u, turn, dst)
      ensures Unseen(leads, u, src, dst, plan.kind == Move) && u[src] != u[dst]
    {
      assert (turns + [turn])[..n] == turns;
      TreesBefore(t, turns + [turn], n, n);
      if turn.how != Errored && u[src] == u[dst] {
        ReplacedByItself(u, turn.after, src, dst);
      }
    }
    if Unseen(leads, u, src, dst, plan.kind == Move) && u[src] != u[dst] {
      var turn := UnseenLost(leads, plan, t, turns, p);
    }
  }

  /** A link in the place of an equal one changes nothing there. */
  lemma ReplacedByItself(u: Tree, v: Tree, src: Path, dst: Path)
    requires WellFormed(u) && src in u && dst in u && u[src] == u[dst] && u[src].Link?
    requires Arrived(u, v, src, dst, true)
    ensures SameUnder(u, v, dst)
  {
    forall x | dst <= x
      ensures At(v, x) == At(u, x)
    {
      if x == dst {
        assert src + x[|dst|..] == src;
      } else {
        if x in u { NothingBelow(u, dst, x); }
        if src + x[|dst|..] in u { NothingBelow(u, src, src + x[|dst|..]); }
        assert src + x[|dst|..] != src;
      }
    }
  }

  /** A link into a folder, that folder's namesake, and a file: all three are copied into `d`. */
  const LINK := ["s", "l"]
  const FOLDER := ["s", "a"]
  const OTHER := ["s", "c"]
  const INSIDE := ["d", "a", "x"]

  function ThreeSources(): Plan {
    Plan(Copy, ["d"], [LINK, FOLDER, OTHER], 0, 3)
  }

  /** Links lead into the folder that is about to be replaced. */
  function Inside(): Resolver {
    (t: Tree, p: Path) => INSIDE in t
  }

  function FirstTree(): Tree {
    map[[] := Dir, ["s"] := Dir, ["d"] := Dir, ["d", "a"] := Dir, FOLDER := Dir, LINK := Link("../d/a/x"),
        INSIDE := File([]), ["d", "c"] := File([]), OTHER := File([])]
  }

  function LinkedTree(): Tree {
    FirstTree()[["d", "l"] := Link("../d/a/x")]
  }

  function LastTree(): Tree {
    LinkedTree() - {INSIDE}
  }

  /** The link is copied, the folder replaces its namesake, the file is skipped. */
  function LinkLosingTurns(): seq<Turn> {
    [Turn(Delivered, 0, 1, 0, START, LinkedTree()),
     Turn(Replaced, 0, 1, 1, Protocol(1, Decided(Replace), START.policy), LastTree()),
     Turn(Skipped, 0, 1, 2, Protocol(2, Decided(Skip), START.policy), LastTree())]
  }

  function LinkLosingLog(): seq<Event> {
    [Took(0, Delivered), Paused(1, Unknown), Answered(ReplaceOne), Took(1, Replaced),
     Paused(2, Same), Answered(SkipOne), Took(2, Skipped)]
  }

  lemma ReplayLast(log: seq<Event>)
    requires log != []
    ensures Replay(log) == match Replay(log[..|log| - 1]) { case None => None case Some(p) => Step(p, log[|log| - 1]) }
    ensures Starts(log) == Starts(log[..|log| - 1]) +
      if log[|log| - 1].Answered? then [|Takes(log[..|log| - 1])|] else []
    ensures |Takes(log)| == |Takes(log[..|log| - 1])| + if log[|log| - 1].Took? then 1 else 0
  {
  }

  lemma LinkLosingReplay()
    ensures var log := LinkLosingLog();
      && Replay(log) == Some(Protocol(3, Working, START.policy)) && Starts(log) == [0, 1, 2]
      && LogMatches(log, LinkLosingTurns(), 3)
  {
    var log := LinkLosingLog();
    assert log[..0] == [] && log[..7] == log;
    forall n | 0 < n <= 7
      ensures log[..n][..n - 1] == log[..n - 1]
    {
    }
    FirstHalf();
    ReplayLast(log[..5]);
    ReplayLast(log[..6]);
    ReplayLast(log[..7]);
  }

  lemma FirstHalf()
    ensures var log := LinkLosingLog();
      && Replay(log[..1]) == Some(Protocol(1, Working, START.policy))
      && Replay(log[..3]) == Some(Protocol(1, Decided(Replace), START.policy))
      && Replay(log[..4]) == Some(Protocol(2, Working, START.policy))
      && Starts(log[..4]) == [0, 1] && |Takes(log[..4])| == 2
  {
    var log := LinkLosingLog();
    assert log[..0] == [];
    forall n | 0 < n <= 4
      ensures log[..n][..n - 1] == log[..n - 1]
    {
    }
    ReplayLast(log[..1]);
    ReplayLast(log[..2]);
    ReplayLast(log[..3]);
    ReplayLast(log[..4]);
  }

  lemma FirstTreeWellFormed()
    ensures WellFormed(FirstTree()) && WellFormed(LinkedTree()) && WellFormed(LastTree())
  {
    assert Parent(["s"]) == [] && Parent(["d"]) == [];
    assert Parent(["d", "a"]) == ["d"] && Parent(["d", "c"]) == ["d"] && Parent(["d", "l"]) == ["d"];
    assert Parent(FOLDER) == ["s"] && Parent(LINK) == ["s"] && Parent(OTHER) == ["s"];
    assert Parent(INSIDE) == ["d", "a"];
  }

  lemma ApartWhereTheyDiffer(p: Path, q: Path, n: nat)
    requires n < |p| && n < |q| && p[n] != q[n]
    ensures Apart(p, q)
  {
  }

  lemma ThreeSourcesSeparate()
    ensures ThreeSources().Valid() && ThreeSources().Separate()
    ensures ThreeSources().Target(0) == ["d", "l"] && ThreeSources().Target(1) == ["d", "a"]
    ensures ThreeSources().Target(2) == ["d", "c"]
    ensures forall i :: 0 <= i < 3 ==> Apart(ThreeSources().sources[i], ThreeSources().Target(i))
  {
    var plan := ThreeSources();
    forall i, k | 0 <= i < 3 && 0 <= k < 3
      ensures Apart(plan.sources[i], plan.Target(k))
    {
      ApartWhereTheyDiffer(plan.sources[i], plan.Target(k), 0);
    }
    forall i, k | 0 <= i < 3 && 0 <= k < 3 && i != k
      ensures Apart(plan.sources[i], plan.sources[k])
    {
      ApartWhereTheyDiffer(plan.sources[i], plan.sources[k], 1);
    }
  }

  lemma OnlyItself(t: Tree, p: Path)
    requires WellFormed(t) && p in t && forall q :: q in t && |q| == |p| + 1 ==> !(p <= q)
    ensures Below(t, p) == {p}
  {
    forall q | q in Below(t, p)
      ensures q == p
    {
      if q != p {
        PrefixesExist(t, q, |p| + 1);
      }
    }
  }

  /** A leaf or an empty folder put in place of another. */
  lemma AloneArrives(u: Tree, v: Tree, src: Path, dst: Path)
    requires src in u && dst in v && v[dst] == u[src] && Below(u, src) == {src} && Below(v, dst) == {dst}
    requires forall x :: !(dst <= x) ==> At(v, x) == At(u, x)
    requires Apart(src, dst)
    ensures Confined(u, v, src, dst) && Arrived(u, v, src, dst, false)
  {
    forall x | dst <= x
      ensures At(v, x) == At(u, src + x[|dst|..])
    {
      var from := src + x[|dst|..];
      assert from[|src|..] == x[|dst|..];
      if x == dst {
        assert from == src;
      } else {
        assert x !in Below(v, dst);
        assert |from| > |src|;
        assert from !in Below(u, src);
      }
    }
  }

  lemma LinkArrives()
    ensures Confined(FirstTree(), LinkedTree(), LINK, ["d", "l"])
    ensures Arrived(FirstTree(), LinkedTree(), LINK, ["d", "l"], false)
  {
    FirstTreeWellFormed();
    ApartWhereTheyDiffer(["d", "l"], INSIDE, 1);
    ApartWhereTheyDiffer(LINK, ["d", "l"], 0);
    OnlyItself(FirstTree(), LINK);
    OnlyItself(LinkedTree(), ["d", "l"]);
    AloneArrives(FirstTree(), LinkedTree(), LINK, ["d", "l"]);
  }

  lemma LinkTurnFits()
    ensures ThreeSources().Valid() && Fits(Inside(), ThreeSources(), FirstTree(), LinkLosingTurns(), 0)
  {
    FirstTreeWellFormed();
    ThreeSourcesSeparate();
    BelowLeaf(FirstTree(), LINK);
    LinkArrives();
  }

  lemma FolderTurnFits()
    ensures ThreeSources().Valid() && Fits(Inside(), ThreeSources(), FirstTree(), LinkLosingTurns(), 1)
  {
    var u, v, dst := LinkedTree(), LastTree(), ["d", "a"];
    FirstTreeWellFormed();
    ThreeSourcesSeparate();
    OnlyItself(u, FOLDER);
    OnlyItself(v, dst);
    assert dst <= INSIDE;
    AloneArrives(u, v, FOLDER, dst);
    assert Bytes(u, {FOLDER}) == 0 by { BytesRemove(u, {FOLDER}, FOLDER); }
  }

  lemma OtherTurnFits()
    ensures ThreeSources().Valid() && Fits(Inside(), ThreeSources(), FirstTree(), LinkLosingTurns(), 2)
  {
    FirstTreeWellFormed();
    ThreeSourcesSeparate();
    BelowLeaf(LastTree(), OTHER);
  }

  lemma ThreeTurnsFit()
    ensures ThreeSources().Valid() && AllFit(Inside(), ThreeSources(), FirstTree(), LinkLosingTurns())
  {
    LinkTurnFits();
    FolderTurnFits();
    OtherTurnFits();
  }

  lemma SeenAtFirstOnly()
    ensures ThreeSources().AllExist(Inside(), FirstTree()) && !ThreeSources().AllExist(Inside(), LastTree())
  {
    assert ThreeSources().sources[0] == LINK;
    assert LINK in LastTree() && LastTree()[LINK].Link? && INSIDE !in LastTree();
  }

  lemma SecondResumeFaulty(starts: seq<nat>)
    requires starts == [0, 1, 2]
    ensures !Faultless(Inside(), ThreeSources(), FirstTree(), LinkLosingTurns(), starts)
  {
    SeenAtFirstOnly();
    assert starts[2] == 2 && TreeAt(FirstTree(), LinkLosingTurns(), 2) == LastTree();
  }

  /** Targets are apart from other sources, every source was there, no turn failed, and it is a copy:
      yet the second resume misses a source. */
  lemma LinkLosesItsDestination()
    ensures var plan, t, turns, log := ThreeSources(), FirstTree(), LinkLosingTurns(), LinkLosingLog();
      && plan.Valid() && plan.kind == Copy && plan.Separate() && WellFormed(t) && plan.AllExist(Inside(), t)
      && AllFit(Inside(), plan, t, turns) && NoneErrored(turns)
      && Replay(log).Some? && LogMatches(log, turns, |turns|)
      && !Faultless(Inside(), plan, t, turns, Starts(log))
  {
    LinkLosingReplay();
    FirstTreeWellFormed();
    ThreeSourcesSeparate();
    ThreeTurnsFit();
    SeenAtFirstOnly();
    SecondResumeFaulty(Starts(LinkLosingLog()));
  }
}
