/** The ledger of a transfer: what every source did to the tree and what it was charged, whatever
    the sources and targets are; and what the ledger comes to when they keep clear of each other
    (server/src/main/kernel.js, `processFsTransferJob`). */
module FsLedger {
  import opened Options
  import opened FsJob
  import opened FsTree
  import opened FsVolume
  import opened FsConflict
  import opened FsScan

  /** The parts of a transfer record that never change. */
  datatype Plan = Plan(kind: Kind, destination: Path, sources: seq<Path>, totalBytes: nat, totalItems: nat) {
    /** What the creation handler guarantees. */
    ghost predicate Valid() {
      && (kind == Copy || kind == Move)
      && (forall k :: 0 <= k < |sources| ==> sources[k] != [])
    }

    function Target(k: nat): Path
      requires k < |sources| && sources[k] != []
    {
      destination + [sources[k][|sources[k]| - 1]]
    }

    ghost predicate SourcesApart() {
      forall i, k :: 0 <= i < |sources| && 0 <= k < |sources| && i != k ==> Apart(sources[i], sources[k])
    }

    /** A source that would be put into itself: every attempt at it is an error. */
    predicate Doomed(i: nat)
      requires i < |sources| && sources[i] != []
    {
      sources[i] <= Target(i)
    }

    /** The target of entry `k` lies strictly above source `i`, without lying at or above source
        `k` itself: replacing it replaces source `i` too. */
    predicate Covers(k: nat, i: nat)
      requires k < |sources| && i < |sources| && sources[k] != []
    {
      Target(k) < sources[i] && !(Target(k) <= sources[k])
    }

    /** No source is replaced, or moved away with another, before its turn. */
    ghost predicate Clear()
      requires Valid()
    {
      && (kind == Copy || SourcesApart())
      && (forall k, i :: 0 <= k < i < |sources| ==> !Covers(k, i))
    }

    /** No target touches another entry's source. */
    ghost predicate Separate()
      requires Valid()
    {
      && SourcesApart()
      && (forall i, k :: 0 <= i < |sources| && 0 <= k < |sources| && i != k ==> Apart(sources[i], Target(k)))
    }

    /** Nor another entry's target. */
    ghost predicate Disjoint()
      requires Valid()
    {
      && Separate()
      && (forall i, k :: 0 <= i < |sources| && 0 <= k < |sources| && i != k ==> Apart(Target(i), Target(k)))
    }

    ghost function Bytes(t: Tree, n: nat): nat
      requires n <= |sources|
    {
      if n == 0 then 0 else Bytes(t, n - 1) + TotalBytes(t, sources[n - 1])
    }

    ghost function Items(t: Tree, n: nat): nat
      requires n <= |sources|
    {
      if n == 0 then 0 else Items(t, n - 1) + TotalItems(t, sources[n - 1])
    }

    /** The totals in the record are those of the tree it was created on. */
    ghost predicate TotalsOf(t: Tree) {
      totalBytes == Bytes(t, |sources|) && totalItems == Items(t, |sources|)
    }

    /** Every source is seen. */
    ghost predicate AllExist(leads: Resolver, t: Tree) {
      forall k :: 0 <= k < |sources| ==> Exists(leads, t, sources[k])
    }

    ghost predicate SomeLink(t: Tree) {
      exists k :: 0 <= k < |sources| && sources[k] in t && t[sources[k]].Link?
    }

    /** Some source is still there, but is a link that leads nowhere. */
    ghost predicate LinkLost(leads: Resolver, t: Tree) {
      exists k :: 0 <= k < |sources| && sources[k] in t && !Exists(leads, t, sources[k])
    }
  }

  predicate Apart(p: Path, q: Path) {
    !(p <= q) && !(q <= p)
  }

  ghost predicate SameUnder(t: Tree, u: Tree, p: Path) {
    forall x {:trigger At(u, x)} :: p <= x ==> At(u, x) == At(t, x)
  }

  /** Nothing outside one source and one target differs. */
  ghost predicate Confined(t: Tree, u: Tree, src: Path, dst: Path) {
    forall x {:trigger At(u, x)} :: !(src <= x) && !(dst <= x) ==> At(u, x) == At(t, x)
  }

  /** `src` sits at `dst` as it was; a moved source is gone, a copied one untouched. */
  ghost predicate Arrived(t: Tree, u: Tree, src: Path, dst: Path, move: bool) {
    && (forall x {:trigger At(u, x)} :: dst <= x ==> At(u, x) == At(t, src + x[|dst|..]))
    && (forall x {:trigger At(u, x)} :: src <= x && !(dst <= x) ==> At(u, x) == if move then None else At(t, x))
  }

  /** One source used up: how, what was charged for it, and the tree it left. The charge of a
      skipped source, and of a renamed one, is what the pre-scan saw, when `seen` sources were
      used up; that of a copied one is what was copied. `under` is what had been decided. */
  datatype Turn = Turn(how: How, bytes: nat, items: nat, seen: nat, under: Protocol, after: Tree)

  /** The tree after the first `k` turns. */
  function TreeAt(t: Tree, turns: seq<Turn>, k: nat): Tree
    requires k <= |turns|
  {
    if k == 0 then t else turns[k - 1].after
  }

  function Relation(source: Node, target: Node): SizeRelation {
    if source.File? && target.File? then
      if |source.data| == |target.data| then Same else Different
    else Unknown
  }

  /** What a relation of sizes says of a source and what is at its target. */
  predicate SizesCompare(source: Node, target: Node, relation: SizeRelation) {
    && (relation == Same <==> source.File? && target.File? && |source.data| == |target.data|)
    && (relation == Different <==> source.File? && target.File? && |source.data| != |target.data|)
  }

  /** A target may be replaced: by the answer just given, or by a sticky policy. */
  predicate GivenUp(p: Protocol, relation: SizeRelation) {
    || p.phase == Decided(Replace)
    || (p.phase == Working && p.policy.replaceAllDifferentSize && relation == Different)
  }

  /** A source may be passed over: by the answer just given, or by a sticky policy. */
  predicate PassedOver(p: Protocol, relation: SizeRelation) {
    || p.phase == Decided(Skip)
    || (p.phase == Working && p.policy.skipAllSameSize && relation == Same)
  }

  /** What is at the target is a link that leads nowhere and so is not seen, and the source is one that
      can do away with it. */
  predicate Unseen(leads: Resolver, u: Tree, src: Path, dst: Path, move: bool) {
    && Exists(leads, u, src) && !(src <= dst)
    && dst in u && !Exists(leads, u, dst)
    && (u[src].File? || (move && u[src].Link?))
  }

  ghost predicate Touches(u: Tree, turn: Turn, dst: Path) {
    dst in u && !SameUnder(u, turn.after, dst)
  }

  /** Whatever becomes of the turn, what is at its target stays as it is, unless it was given up or
      not seen. */
  ghost predicate Spares(leads: Resolver, u: Tree, turn: Turn, src: Path, dst: Path, move: bool) {
    Touches(u, turn, dst) ==>
      || (Exists(leads, u, src) && Exists(leads, u, dst) && GivenUp(turn.under, Relation(u[src], u[dst])))
      || (Unseen(leads, u, src, dst, move) && DoesAway(u, turn, src, dst))
  }

  /** A rename replaces an unseen link; the clean-up after a copy that could not begin removes it. */
  predicate DoesAway(u: Tree, turn: Turn, src: Path, dst: Path)
    requires src in u
  {
    if turn.how == Errored then u[src].File? && turn.after == u - {dst} else turn.how == Delivered
  }

  /** What a turn that did not fail may do, from tree `u`. */
  ghost predicate Succeeds(leads: Resolver, u: Tree, turn: Turn, src: Path, dst: Path, move: bool) {
    && Exists(leads, u, src) && !(src <= dst)
    && (turn.how == Skipped ==>
          Exists(leads, u, dst) && turn.after == u && PassedOver(turn.under, Relation(u[src], u[dst])))
    && (turn.how == Delivered ==> dst !in u || (move && Unseen(leads, u, src, dst, move)))
    && (turn.how == Replaced ==> Exists(leads, u, dst) && GivenUp(turn.under, Relation(u[src], u[dst])))
    && (turn.how == Delivered || turn.how == Replaced ==> !(dst <= src) && Arrived(u, turn.after, src, dst, move))
  }

  /** Turn `k` fits the plan and the turns before it. */
  ghost predicate Fits(leads: Resolver, plan: Plan, t: Tree, turns: seq<Turn>, k: nat)
    requires plan.Valid() && k < |turns| <= |plan.sources|
  {
    var turn, u, src, dst := turns[k], TreeAt(t, turns, k), plan.sources[k], plan.Target(k);
    && Confined(u, turn.after, src, dst)
    && Spares(leads, u, turn, src, dst, plan.kind == Move)
    && turn.seen <= k
    && if turn.how == Errored then
         && turn.bytes <= TotalBytes(u, src) && turn.items <= TotalItems(u, src)
         && (src <= dst ==> turn.bytes == 0 && turn.items == 0)
       else
         && Succeeds(leads, u, turn, src, dst, plan.kind == Move)
         && Seen(leads, TreeAt(t, turns, turn.seen), src, turn.bytes, turn.items)
         && (plan.kind == Copy && turn.how != Skipped ==> turn.seen == k)
  }

  ghost predicate AllFit(leads: Resolver, plan: Plan, t: Tree, turns: seq<Turn>)
    requires plan.Valid() && |turns| <= |plan.sources|
  {
    forall k :: 0 <= k < |turns| ==> Fits(leads, plan, t, turns, k)
  }

  function PaidBytes(turns: seq<Turn>): nat {
    if turns == [] then 0 else PaidBytes(turns[..|turns| - 1]) + turns[|turns| - 1].bytes
  }

  function PaidItems(turns: seq<Turn>): nat {
    if turns == [] then 0 else PaidItems(turns[..|turns| - 1]) + turns[|turns| - 1].items
  }

  ghost predicate WasSeen(leads: Resolver, plan: Plan, t: Tree, turns: seq<Turn>, k: nat)
    requires k < |turns| <= |plan.sources|
  {
    turns[k].seen <= k && Exists(leads, TreeAt(t, turns, turns[k].seen), plan.sources[k])
  }

  /** No charge stems from a pre-scan that did not see its source. */
  ghost predicate AllSeen(leads: Resolver, plan: Plan, t: Tree, turns: seq<Turn>)
    requires |turns| <= |plan.sources|
  {
    forall k :: 0 <= k < |turns| ==> WasSeen(leads, plan, t, turns, k)
  }

  predicate NoneErrored(turns: seq<Turn>) {
    forall k :: 0 <= k < |turns| ==> turns[k].how != Errored
  }

  lemma TreesBefore(t: Tree, turns: seq<Turn>, n: nat, k: nat)
    requires k <= n <= |turns|
    ensures TreeAt(t, turns[..n], k) == TreeAt(t, turns, k)
  {
  }

  lemma TurnBefore(leads: Resolver, plan: Plan, t: Tree, turns: seq<Turn>, n: nat, k: nat)
    requires plan.Valid() && k < n <= |turns| <= |plan.sources|
    ensures Fits(leads, plan, t, turns[..n], k) == Fits(leads, plan, t, turns, k)
    ensures WasSeen(leads, plan, t, turns[..n], k) == WasSeen(leads, plan, t, turns, k)
  {
    TreesBefore(t, turns, n, k);
    if turns[k].seen <= k {
      TreesBefore(t, turns, n, turns[k].seen);
    }
  }

  lemma TurnsBefore(leads: Resolver, plan: Plan, t: Tree, turns: seq<Turn>, n: nat)
    requires plan.Valid() && n <= |turns| <= |plan.sources| && AllFit(leads, plan, t, turns)
    ensures AllFit(leads, plan, t, turns[..n])
    ensures NoneErrored(turns) ==> NoneErrored(turns[..n])
    ensures AllSeen(leads, plan, t, turns) ==> AllSeen(leads, plan, t, turns[..n])
  {
    forall k | 0 <= k < n
      ensures Fits(leads, plan, t, turns[..n], k)
      ensures WasSeen(leads, plan, t, turns, k) ==> WasSeen(leads, plan, t, turns[..n], k)
    {
      TurnBefore(leads, plan, t, turns, n, k);
    }
  }

  /** Later turns do not change whether a turn fits. */
  lemma FitsAnyway(leads: Resolver, plan: Plan, t: Tree, turns: seq<Turn>, turn: Turn, k: nat)
    requires plan.Valid() && k < |turns| < |plan.sources|
    ensures Fits(leads, plan, t, turns + [turn], k) == Fits(leads, plan, t, turns, k)
  {
    var all := turns + [turn];
    assert all[k] == turns[k] && TreeAt(t, all, k) == TreeAt(t, turns, k);
    assert turns[k].seen <= k ==> TreeAt(t, all, turns[k].seen) == TreeAt(t, turns, turns[k].seen);
  }

  /** One more turn that fits. */
  lemma OneMoreFits(leads: Resolver, plan: Plan, t: Tree, turns: seq<Turn>, turn: Turn)
    requires plan.Valid() && |turns| < |plan.sources| && AllFit(leads, plan, t, turns)
    requires Fits(leads, plan, t, turns + [turn], |turns|)
    ensures AllFit(leads, plan, t, turns + [turn])
  {
    forall k | 0 <= k < |turns|
      ensures Fits(leads, plan, t, turns + [turn], k)
    {
      FitsAnyway(leads, plan, t, turns, turn, k);
    }
  }

  lemma OneMoreSeen(leads: Resolver, plan: Plan, t: Tree, turns: seq<Turn>, turn: Turn)
    requires |turns| < |plan.sources| && AllSeen(leads, plan, t, turns)
    requires turn.seen <= |turns| && Exists(leads, TreeAt(t, turns, turn.seen), plan.sources[|turns|])
    ensures AllSeen(leads, plan, t, turns + [turn])
  {
    var all := turns + [turn];
    forall k | 0 <= k < |all|
      ensures WasSeen(leads, plan, t, all, k)
    {
      if k < |turns| {
        assert WasSeen(leads, plan, t, turns, k);
        TreesBefore(t, all, |turns|, turns[k].seen);
      } else {
        TreesBefore(t, all, |turns|, turn.seen);
      }
      assert all[..|turns|] == turns;
    }
  }

  lemma OneMorePaid(turns: seq<Turn>, turn: Turn)
    ensures PaidBytes(turns + [turn]) == PaidBytes(turns) + turn.bytes
    ensures PaidItems(turns + [turn]) == PaidItems(turns) + turn.items
  {
    assert (turns + [turn])[..|turns|] == turns;
  }

  lemma ApartBelow(p: Path, q: Path, x: Path)
    requires Apart(p, q) && p <= x
    ensures !(q <= x)
  {
    if q <= x {
      PrefixesCompare(p, q, x);
    }
  }

  lemma SameUnderChain(t: Tree, u: Tree, v: Tree, p: Path)
    requires SameUnder(t, u, p) && SameUnder(u, v, p)
    ensures SameUnder(t, v, p)
  {
    forall x | p <= x
      ensures At(v, x) == At(t, x)
    {
      assert At(u, x) == At(t, x);
    }
  }

  lemma ConfinedElsewhere(u: Tree, v: Tree, src: Path, dst: Path, p: Path)
    requires Confined(u, v, src, dst) && Apart(p, src) && Apart(p, dst)
    ensures SameUnder(u, v, p)
  {
    forall x | p <= x
      ensures At(v, x) == At(u, x)
    {
      ApartBelow(p, src, x);
      ApartBelow(p, dst, x);
    }
  }

  /** A copy changes nothing but its target. */
  lemma CopySpares(u: Tree, v: Tree, src: Path, dst: Path, p: Path)
    requires Confined(u, v, src, dst) && Arrived(u, v, src, dst, false) && Apart(p, dst)
    ensures SameUnder(u, v, p)
  {
    forall x | p <= x
      ensures At(v, x) == At(u, x)
    {
      ApartBelow(p, dst, x);
    }
  }

  lemma TotalsUnder(t: Tree, u: Tree, p: Path)
    requires SameUnder(t, u, p)
    ensures TotalBytes(u, p) == TotalBytes(t, p) && TotalItems(u, p) == TotalItems(t, p)
    ensures At(u, p) == At(t, p)
  {
    forall x | p <= x
      ensures At(t, x) == At(u, x)
    {
      assert At(u, x) == At(t, x);
    }
    TotalsSame(t, u, p);
  }

  /** Only a doomed source lies at or above a target. */
  lemma AboveATarget(plan: Plan, k: nat, i: nat)
    requires plan.Valid() && k < |plan.sources| && i < |plan.sources| && plan.sources[i] <= plan.Target(k)
    ensures plan.Doomed(i)
  {
    var src, dst := plan.sources[i], plan.Target(k);
    assert plan.Target(i)[..|plan.destination|] == dst[..|plan.destination|];
    if |src| == |dst| {
      assert src == dst;
    } else {
      assert src == dst[..|src|] == plan.destination[..|src|];
    }
  }

  /** A turn without failure leaves a source alone unless its target covers it. */
  lemma TurnSpares(leads: Resolver, plan: Plan, t: Tree, turns: seq<Turn>, k: nat, i: nat)
    requires plan.Valid() && (plan.kind == Copy || plan.SourcesApart())
    requires k < |turns| <= |plan.sources| && Fits(leads, plan, t, turns, k)
    requires turns[k].how != Errored && i < |plan.sources| && i != k && !plan.Doomed(i) && !plan.Covers(k, i)
    ensures SameUnder(TreeAt(t, turns, k), TreeAt(t, turns, k + 1), plan.sources[i])
  {
    if plan.sources[i] <= plan.Target(k) { AboveATarget(plan, k, i); }
    if turns[k].how != Skipped {
      if plan.kind == Copy {
        CopySpares(TreeAt(t, turns, k), turns[k].after, plan.sources[k], plan.Target(k), plan.sources[i]);
      } else {
        ConfinedElsewhere(TreeAt(t, turns, k), turns[k].after, plan.sources[k], plan.Target(k), plan.sources[i]);
      }
    }
  }

  /** While nothing fails, pending sources are as they were at the start. */
  lemma {:induction false} PendingUntouched(leads: Resolver, plan: Plan, t: Tree, turns: seq<Turn>, k: nat, i: nat)
    requires plan.Valid() && plan.Clear() && |turns| <= |plan.sources|
    requires AllFit(leads, plan, t, turns) && NoneErrored(turns)
    requires k <= |turns| && k <= i < |plan.sources| && !plan.Doomed(i)
    ensures SameUnder(t, TreeAt(t, turns, k), plan.sources[i])
  {
    if k > 0 {
      PendingUntouched(leads, plan, t, turns, k - 1, i);
      TurnSpares(leads, plan, t, turns, k - 1, i);
      SameUnderChain(t, TreeAt(t, turns, k - 1), TreeAt(t, turns, k), plan.sources[i]);
    }
  }

  lemma TurnPaid(leads: Resolver, plan: Plan, t: Tree, turns: seq<Turn>, k: nat)
    requires plan.Valid() && plan.Clear() && k < |turns| <= |plan.sources| && AllFit(leads, plan, t, turns)
    requires NoneErrored(turns) && AllSeen(leads, plan, t, turns)
    ensures turns[k].bytes == TotalBytes(t, plan.sources[k]) && turns[k].items == TotalItems(t, plan.sources[k])
  {
    assert WasSeen(leads, plan, t, turns, k);
    assert Fits(leads, plan, t, turns, k);
    PendingUntouched(leads, plan, t, turns, turns[k].seen, k);
    TotalsUnder(t, TreeAt(t, turns, turns[k].seen), plan.sources[k]);
  }

  /** When no source is replaced before its turn, a run without failures is charged exactly what the
      sources held when the transfer was created. */
  lemma {:induction false} PaidExactly(leads: Resolver, plan: Plan, t: Tree, turns: seq<Turn>)
    requires plan.Valid() && plan.Clear() && |turns| <= |plan.sources| && AllFit(leads, plan, t, turns)
    requires NoneErrored(turns) && AllSeen(leads, plan, t, turns)
    ensures PaidBytes(turns) == plan.Bytes(t, |turns|) && PaidItems(turns) == plan.Items(t, |turns|)
  {
    if turns != [] {
      var n := |turns| - 1;
      TurnPaid(leads, plan, t, turns, n);
      TurnsBefore(leads, plan, t, turns, n);
      PaidExactly(leads, plan, t, turns[..n]);
    }
  }

  /** With targets apart from other sources, a turn leaves the other sources alone even if it fails. */
  lemma OthersSpared(leads: Resolver, plan: Plan, t: Tree, turns: seq<Turn>, k: nat, i: nat)
    requires plan.Valid() && plan.Separate() && k < |turns| <= |plan.sources| && Fits(leads, plan, t, turns, k)
    requires i < |plan.sources| && i != k
    ensures SameUnder(TreeAt(t, turns, k), TreeAt(t, turns, k + 1), plan.sources[i])
  {
    ConfinedElsewhere(TreeAt(t, turns, k), turns[k].after, plan.sources[k], plan.Target(k), plan.sources[i]);
  }

  /** A source is as it was until its turn, and from its turn on as that left it. */
  lemma {:induction false} SourceOnlyByItsTurn(
      leads: Resolver, plan: Plan, t: Tree, turns: seq<Turn>, from: nat, k: nat, i: nat)
    requires plan.Valid() && plan.Separate() && |turns| <= |plan.sources| && AllFit(leads, plan, t, turns)
    requires from <= k <= |turns| && i < |plan.sources| && (i < from || k <= i)
    ensures SameUnder(TreeAt(t, turns, from), TreeAt(t, turns, k), plan.sources[i])
    decreases k
  {
    if from < k {
      SourceOnlyByItsTurn(leads, plan, t, turns, from, k - 1, i);
      OthersSpared(leads, plan, t, turns, k - 1, i);
      SameUnderChain(TreeAt(t, turns, from), TreeAt(t, turns, k - 1), TreeAt(t, turns, k), plan.sources[i]);
    }
  }

  /** Failed or not, no prefix of the sources is charged more than it held. */
  lemma {:induction false} PaidWithinPlan(leads: Resolver, plan: Plan, t: Tree, turns: seq<Turn>)
    requires plan.Valid() && plan.Separate() && |turns| <= |plan.sources| && AllFit(leads, plan, t, turns)
    ensures PaidBytes(turns) <= plan.Bytes(t, |turns|) && PaidItems(turns) <= plan.Items(t, |turns|)
  {
    if turns != [] {
      var n := |turns| - 1;
      TurnsBefore(leads, plan, t, turns, n);
      PaidWithinPlan(leads, plan, t, turns[..n]);
      assert Fits(leads, plan, t, turns, n);
      var at := if turns[n].how == Errored then n else turns[n].seen;
      SourceOnlyByItsTurn(leads, plan, t, turns, 0, at, n);
      TotalsUnder(t, TreeAt(t, turns, at), plan.sources[n]);
    }
  }

  /** From the tree before a replaced target was cleared to the tree after the copy. */
  lemma EntryEffect(u: Tree, mid: Tree, v: Tree, src: Path, dst: Path, move: bool)
    requires mid == u || mid == Cleared(u, dst)
    requires InTransit(mid, v, src, dst, move)
    ensures Confined(u, v, src, dst)
    ensures IsTransfer(mid, v, src, dst, move) && Apart(src, dst) ==> Arrived(u, v, src, dst, move)
  {
    forall x | !(src <= x) && !(dst <= x)
      ensures At(v, x) == At(u, x)
    {
      assert InTransitAt(mid, v, src, dst, move, x);
      ClearedAt(u, dst, x);
    }
    if IsTransfer(mid, v, src, dst, move) && Apart(src, dst) {
      forall x
        ensures dst <= x ==> At(v, x) == At(u, src + x[|dst|..])
        ensures src <= x && !(dst <= x) ==> At(v, x) == if move then None else At(u, x)
      {
        assert At(v, x) == Transferred(mid, src, dst, move, x);
        if dst <= x {
          ApartBelow(src, dst, src + x[|dst|..]);
          ClearedAt(u, dst, src + x[|dst|..]);
        } else {
          ClearedAt(u, dst, x);
        }
      }
    }
  }

  predicate Delivers(how: How) {
    how == Delivered || how == Replaced
  }

  /** Where the sources are while nothing has failed: all there but the moved ones. */
  lemma SourceStillThere(leads: Resolver, plan: Plan, t: Tree, turns: seq<Turn>, k: nat, i: nat)
    requires plan.Valid() && plan.Separate() && |turns| <= |plan.sources|
    requires AllFit(leads, plan, t, turns) && NoneErrored(turns)
    requires k <= |turns| && i < |plan.sources| && plan.sources[i] in t
    ensures plan.sources[i] in TreeAt(t, turns, k) <==> !(i < k && plan.kind == Move && Delivers(turns[i].how))
    ensures plan.sources[i] in TreeAt(t, turns, k) ==> TreeAt(t, turns, k)[plan.sources[i]] == t[plan.sources[i]]
  {
    var src := plan.sources[i];
    if i < k {
      assert Fits(leads, plan, t, turns, i);
      SourceOnlyByItsTurn(leads, plan, t, turns, 0, i, i);
      TotalsUnder(t, TreeAt(t, turns, i), src);
      SourceOnlyByItsTurn(leads, plan, t, turns, i + 1, k, i);
      TotalsUnder(TreeAt(t, turns, i + 1), TreeAt(t, turns, k), src);
      assert Delivers(turns[i].how) ==>
        At(turns[i].after, src) == if plan.kind == Move then None else At(TreeAt(t, turns, i), src);
    } else {
      SourceOnlyByItsTurn(leads, plan, t, turns, 0, k, i);
      TotalsUnder(t, TreeAt(t, turns, k), src);
    }
  }

  /** What has become of entry `k` in tree `u`, for a transfer created on tree `t`. */
  ghost predicate EntrySettled(t: Tree, u: Tree, plan: Plan, k: nat, how: How)
    requires plan.Valid() && k < |plan.sources|
  {
    match how
    case Delivered => Arrived(t, u, plan.sources[k], plan.Target(k), plan.kind == Move)
    case Replaced => Arrived(t, u, plan.sources[k], plan.Target(k), plan.kind == Move)
    case Skipped => SameUnder(t, u, plan.sources[k])
    case Errored => true
  }

  lemma ArrivedFromStart(t: Tree, u: Tree, v: Tree, src: Path, dst: Path, move: bool)
    requires SameUnder(t, u, src) && Arrived(u, v, src, dst, move)
    ensures Arrived(t, v, src, dst, move)
  {
    forall x
      ensures dst <= x ==> At(v, x) == At(t, src + x[|dst|..])
      ensures src <= x && !(dst <= x) ==> At(v, x) == if move then None else At(t, x)
    {
      if dst <= x {
        assert At(u, src + x[|dst|..]) == At(t, src + x[|dst|..]);
      } else if src <= x {
        assert At(u, x) == At(t, x);
      }
    }
  }

  lemma SettledStays(t: Tree, u: Tree, v: Tree, plan: Plan, k: nat, how: How)
    requires plan.Valid() && k < |plan.sources| && EntrySettled(t, u, plan, k, how)
    requires SameUnder(u, v, plan.sources[k]) && SameUnder(u, v, plan.Target(k))
    ensures EntrySettled(t, v, plan, k, how)
  {
    match how
    case Skipped => SameUnderChain(t, u, v, plan.sources[k]);
    case Errored =>
    case _ =>
      var src, dst := plan.sources[k], plan.Target(k);
      forall x
        ensures dst <= x ==> At(v, x) == At(t, src + x[|dst|..])
        ensures src <= x && !(dst <= x) ==> At(v, x) == if plan.kind == Move then None else At(t, x)
      {
        assert dst <= x || src <= x ==> At(u, x) == At(v, x);
      }
  }

  /** With disjoint entries each ends up where its turn put it, and stays there. */
  lemma {:induction false} EntriesSettle(leads: Resolver, plan: Plan, t: Tree, turns: seq<Turn>, n: nat, k: nat)
    requires plan.Valid() && plan.Disjoint() && |turns| <= |plan.sources| && AllFit(leads, plan, t, turns)
    requires k < n <= |turns|
    ensures EntrySettled(t, TreeAt(t, turns, n), plan, k, turns[k].how)
    decreases n
  {
    var u := TreeAt(t, turns, n - 1);
    assert Fits(leads, plan, t, turns, n - 1);
    if k == n - 1 {
      SourceOnlyByItsTurn(leads, plan, t, turns, 0, k, k);
      if Delivers(turns[k].how) {
        ArrivedFromStart(t, u, turns[k].after, plan.sources[k], plan.Target(k), plan.kind == Move);
      }
    } else {
      EntriesSettle(leads, plan, t, turns, n - 1, k);
      OthersSpared(leads, plan, t, turns, n - 1, k);
      ConfinedElsewhere(u, turns[n - 1].after, plan.sources[n - 1], plan.Target(n - 1), plan.Target(k));
      SettledStays(t, u, turns[n - 1].after, plan, k, turns[k].how);
    }
  }
}
