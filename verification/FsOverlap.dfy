/** Why the sources of a transfer must keep clear of earlier targets: any plan in which one does not
    has a tree on which the transfer succeeds and its charges are wrong. */
module FsOverlap {
  import opened Options
  import opened FsJob
  import opened FsTree
  import opened FsVolume
  import opened FsConflict
  import opened FsLedger
  import opened FsScan

  /** The trees that the creation handler accepts. */
  ghost predicate Accepted(leads: Resolver, plan: Plan, t: Tree) {
    WellFormed(t) && HasDir(t, plan.destination) && plan.AllExist(leads, t)
  }

  ghost predicate CompleteRun(leads: Resolver, plan: Plan, t: Tree, turns: seq<Turn>)
    requires plan.Valid()
  {
    && |turns| == |plan.sources| && AllFit(leads, plan, t, turns)
    && NoneErrored(turns) && AllSeen(leads, plan, t, turns)
  }

  ghost predicate ChargedRight(plan: Plan, t: Tree, turns: seq<Turn>) {
    PaidBytes(turns) == plan.Bytes(t, |plan.sources|) && PaidItems(turns) == plan.Items(t, |plan.sources|)
  }

  /** A plan of which some source is replaced before its turn. */
  ghost predicate Overlaps(plan: Plan, k: nat, i: nat) {
    && plan.Valid() && plan.SourcesApart()
    && (forall j :: 0 <= j < |plan.sources| ==> !plan.Doomed(j))
    && k < i < |plan.sources| && plan.Covers(k, i)
  }

  /** Where the replacement for source `j`, which lies below target `k`, is taken from. */
  function Image(plan: Plan, k: nat, j: nat): Path
    requires k < |plan.sources| && j < |plan.sources| && plan.sources[k] != [] && plan.Target(k) <= plan.sources[j]
  {
    plan.sources[k] + plan.sources[j][|plan.Target(k)|..]
  }

  /** Every source but `k` is a file, and so is its image, if it has one. */
  function Files(plan: Plan, k: nat): set<Path>
    requires k < |plan.sources| && plan.sources[k] != []
  {
    (set j | 0 <= j < |plan.sources| && j != k :: plan.sources[j])
    + (set j | 0 <= j < |plan.sources| && j != k && plan.Target(k) <= plan.sources[j] :: Image(plan, k, j))
  }

  function Prefixes(paths: set<Path>): set<Path> {
    set p, n | p in paths && 0 <= n <= |p| :: p[..n]
  }

  /** Those files, all empty but source `i`, and the directories they need. */
  function Hostile(plan: Plan, k: nat, i: nat): Tree
    requires k < |plan.sources| && i < |plan.sources| && plan.sources[k] != []
  {
    map p | p in Prefixes(Files(plan, k) + {plan.destination}) ::
      if p == plan.sources[i] then File([0]) else if p in Files(plan, k) then File([]) else Dir
  }

  lemma AboveTheDestination(plan: Plan, j: nat)
    requires plan.Valid() && j < |plan.sources|
    ensures plan.sources[j] <= plan.destination ==> plan.Doomed(j)
  {
    PrefixTransitive(plan.sources[j], plan.destination, plan.Target(j));
  }

  /** A source other than `k` is neither the destination nor below or above another file. */
  lemma SourceStandsAlone(plan: Plan, k: nat, i: nat, j: nat, p: Path)
    requires Overlaps(plan, k, i) && j < |plan.sources| && j != k
    requires p in Files(plan, k) + {plan.destination}
    ensures plan.sources[j] <= p ==> p == plan.sources[j]
  {
    AboveTheDestination(plan, j);
    if plan.sources[j] <= p && plan.sources[k] <= p {
      PrefixesCompare(plan.sources[j], plan.sources[k], p);
    }
  }

  lemma ImageStandsAlone(plan: Plan, k: nat, i: nat, j: nat, p: Path)
    requires Overlaps(plan, k, i) && j < |plan.sources| && j != k && plan.Target(k) <= plan.sources[j]
    requires p in Files(plan, k) + {plan.destination}
    ensures Image(plan, k, j) <= p ==> p == Image(plan, k, j)
  {
    AboveTheDestination(plan, k);
    var src, dst, image := plan.sources[k], plan.Target(k), Image(plan, k, j);
    if image <= p {
      PrefixTransitive(src, image, p);
      if l :| 0 <= l < |plan.sources| && l != k && dst <= plan.sources[l] && p == Image(plan, k, l) {
        SamePrefix(src, plan.sources[j][|dst|..], plan.sources[l][|dst|..]);
        SamePrefix(dst, plan.sources[j][|dst|..], plan.sources[l][|dst|..]);
        assert dst + plan.sources[j][|dst|..] == plan.sources[j];
        assert dst + plan.sources[l][|dst|..] == plan.sources[l];
      }
    }
  }

  lemma SamePrefix(p: Path, a: Path, b: Path)
    ensures p + a <= p + b <==> a <= b
  {
    assert (p + a)[|p|..] == a && (p + b)[|p|..] == b;
    if a <= b {
      assert (p + b)[..|p + a|] == p + b[..|a|];
    }
  }

  lemma FilesStandAlone(plan: Plan, k: nat, i: nat, f: Path, p: Path)
    requires Overlaps(plan, k, i) && f in Files(plan, k) && p in Files(plan, k) + {plan.destination}
    ensures f <= p ==> p == f
  {
    if j :| 0 <= j < |plan.sources| && j != k && f == plan.sources[j] {
      SourceStandsAlone(plan, k, i, j, p);
    } else {
      var j :| 0 <= j < |plan.sources| && j != k && plan.Target(k) <= plan.sources[j] && f == Image(plan, k, j);
      ImageStandsAlone(plan, k, i, j, p);
    }
  }

  lemma HostileWellFormed(plan: Plan, k: nat, i: nat)
    requires Overlaps(plan, k, i)
    ensures WellFormed(Hostile(plan, k, i)) && HasDir(Hostile(plan, k, i), plan.destination)
  {
    var t, all := Hostile(plan, k, i), Files(plan, k) + {plan.destination};
    forall p, n | p in all && 0 <= n <= |p|
      ensures p[..n] in Prefixes(all)
      ensures n < |p| || p == plan.destination ==> HasDir(t, p[..n])
    {
      if p[..n] in Files(plan, k) {
        FilesStandAlone(plan, k, i, p[..n], p);
      }
      if p == plan.destination && n == |p| {
        assert p[..n] == p;
      }
    }
    assert plan.destination[..0] == [] && plan.destination[..|plan.destination|] == plan.destination;
    assert plan.destination in all;
    forall q {:trigger Parent(q)} | q in t && q != []
      ensures HasDir(t, Parent(q))
    {
      var p, n :| p in all && 0 <= n <= |p| && q == p[..n];
      assert Parent(q) == p[..n - 1];
    }
  }

  /** The tree before turn `m` of the run: nothing is left to transfer but empty files, once source
      `i` has been replaced. */
  ghost predicate Ready(plan: Plan, k: nat, i: nat, u: Tree, m: nat)
    requires Overlaps(plan, k, i)
  {
    && WellFormed(u) && HasDir(u, plan.destination)
    && (forall j :: m <= j < |plan.sources| && j != k ==> plan.sources[j] in u && u[plan.sources[j]].File?)
    && (m <= k ==> SameUnder(Hostile(plan, k, i), u, plan.sources[k]))
    && (forall p :: p in u && Size(u[p]) > 0 ==> p == plan.sources[i] && m <= k)
    && (forall p :: p in u ==> !u[p].Link?)
  }

  lemma HostileReady(leads: Resolver, plan: Plan, k: nat, i: nat)
    requires Overlaps(plan, k, i)
    ensures Ready(plan, k, i, Hostile(plan, k, i), 0)
    ensures Accepted(leads, plan, Hostile(plan, k, i))
  {
    var t := Hostile(plan, k, i);
    HostileWellFormed(plan, k, i);
    forall j | 0 <= j < |plan.sources| && j != k
      ensures plan.sources[j] in t && t[plan.sources[j]].File?
    {
      InFiles(plan, k, i, plan.sources[j]);
    }
    ImageThere(plan, k, i, i);
    NothingBelow(t, plan.sources[k], Image(plan, k, i));
  }

  lemma InFiles(plan: Plan, k: nat, i: nat, f: Path)
    requires Overlaps(plan, k, i) && f in Files(plan, k)
    ensures f in Hostile(plan, k, i) && Hostile(plan, k, i)[f].File?
    ensures f != plan.sources[i] ==> Hostile(plan, k, i)[f] == File([])
  {
    assert f[..|f|] == f && f in Files(plan, k) + {plan.destination};
  }

  /** Source `k` holds an empty file in place of every source that its target covers. */
  lemma ImageThere(plan: Plan, k: nat, i: nat, j: nat)
    requires Overlaps(plan, k, i) && j < |plan.sources| && j != k && plan.Target(k) <= plan.sources[j]
    ensures plan.sources[k] <= Image(plan, k, j)
    ensures At(Hostile(plan, k, i), Image(plan, k, j)) == Some(File([]))
  {
    var f := Image(plan, k, j);
    assert f in Files(plan, k);
    InFiles(plan, k, i, f);
    assert Apart(plan.sources[k], plan.sources[i]);
  }

  lemma {:induction false} NoBytes(t: Tree, s: set<Path>)
    requires s <= t.Keys && forall p :: p in s ==> Size(t[p]) == 0
    ensures Bytes(t, s) == 0
    decreases |s|
  {
    if s != {} {
      var p :| p in s;
      BytesRemove(t, s, p);
      NoBytes(t, s - {p});
    }
  }

  /** Every source but a first one in line holds nothing when its turn comes. */
  lemma NothingToCharge(plan: Plan, k: nat, i: nat, u: Tree, m: nat)
    requires Overlaps(plan, k, i) && m < |plan.sources| && Ready(plan, k, i, u, m)
    ensures TotalBytes(u, plan.sources[m]) == 0
  {
    forall p | p in Below(u, plan.sources[m])
      ensures Size(u[p]) == 0
    {
      assert m <= k ==> m != i && Apart(plan.sources[m], plan.sources[i]);
    }
    NoBytes(u, Below(u, plan.sources[m]));
  }

  /** The answer that lets a turn do what it does. */
  function Under(m: nat, resolution: Resolution): Protocol {
    Protocol(m, Decided(resolution), Policy(false, false))
  }

  /** A source that is copied or moved to a free target. */
  function Placed(u: Tree, src: Path, dst: Path, move: bool): Tree
    requires src in u
  {
    if move then u[dst := u[src]] - {src} else u[dst := u[src]]
  }

  lemma PlacedTransfers(u: Tree, src: Path, dst: Path, move: bool)
    requires WellFormed(u) && src in u && u[src].File? && dst !in u && !(src <= dst)
    requires dst != [] && HasDir(u, Parent(dst))
    ensures var v := Placed(u, src, dst, move);
      && IsTransfer(u, v, src, dst, move) && InTransit(u, v, src, dst, move)
      && Apart(src, dst) && WellFormed(v)
  {
    var v := Placed(u, src, dst, move);
    Untouched(u, src, dst, move);
    if move {
      LeafMoved(u, v, src, dst);
    } else {
      LeafCopied(u, v, src, dst, false);
    }
    TransferWellFormed(u, v, src, dst, move);
  }

  /** A turn without failure that is charged what its source holds as it begins. */
  ghost predicate FreshTurn(leads: Resolver, plan: Plan, u: Tree, turn: Turn, m: nat)
    requires plan.Valid() && m < |plan.sources|
  {
    var src, dst, move := plan.sources[m], plan.Target(m), plan.kind == Move;
    && turn.seen == m && turn.how != Errored
    && Exists(leads, u, src) && Seen(leads, u, src, turn.bytes, turn.items)
    && Succeeds(leads, u, turn, src, dst, move) && Spares(leads, u, turn, src, dst, move)
    && Confined(u, turn.after, src, dst)
  }

  /** The turn of any source but `k`: skipped where something is in the way, transferred otherwise. */
  lemma OtherTurn(leads: Resolver, plan: Plan, k: nat, i: nat, u: Tree, m: nat) returns (turn: Turn)
    requires Overlaps(plan, k, i) && m < |plan.sources| && m != k && Ready(plan, k, i, u, m)
    ensures FreshTurn(leads, plan, u, turn, m) && turn.bytes == 0
    ensures Ready(plan, k, i, turn.after, m + 1)
  {
    var src, dst, move := plan.sources[m], plan.Target(m), plan.kind == Move;
    assert !plan.Doomed(m);
    NothingToCharge(plan, k, i, u, m);
    var items := TotalItems(u, src);
    if dst in u {
      turn := Turn(Skipped, 0, items, m, Under(m, Skip), u);
    } else {
      assert Parent(dst) == plan.destination;
      PlacedTransfers(u, src, dst, move);
      var v := Placed(u, src, dst, move);
      turn := Turn(Delivered, 0, items, m, Under(m, Undecided), v);
      EntryEffect(u, u, v, src, dst, move);
      PlacedReady(plan, k, i, u, v, m);
    }
  }

  lemma PlacedReady(plan: Plan, k: nat, i: nat, u: Tree, v: Tree, m: nat)
    requires Overlaps(plan, k, i) && m < |plan.sources| && m != k && Ready(plan, k, i, u, m)
    requires plan.Target(m) !in u && WellFormed(v)
    requires v == Placed(u, plan.sources[m], plan.Target(m), plan.kind == Move)
    ensures Ready(plan, k, i, v, m + 1)
  {
    var src, dst := plan.sources[m], plan.Target(m);
    if plan.sources[k] <= dst { AboveATarget(plan, m, k); }
    if m < k {
      forall x | plan.sources[k] <= x
        ensures At(v, x) == At(Hostile(plan, k, i), x)
      {
        assert At(u, x) == At(Hostile(plan, k, i), x);
        ApartBelow(plan.sources[k], src, x);
      }
    }
    assert m <= k ==> m != i;
    assert Size(u[src]) == 0;
    assert src != plan.destination;
  }

  /** The tree with the subtree at `src` put in place of what is at `dst`. */
  function Regraft(u: Tree, src: Path, dst: Path, move: bool): Tree {
    map p | p in (set q | q in u && !(dst <= q) && !(move && src <= q))
               + (set q | q in u && src <= q :: dst + q[|src|..]) ::
      if dst <= p && src + p[|dst|..] in u then u[src + p[|dst|..]] else if p in u then u[p] else Dir
  }

  lemma RegraftAt(u: Tree, src: Path, dst: Path, move: bool)
    requires Apart(src, dst)
    ensures IsTransfer(Cleared(u, dst), Regraft(u, src, dst, move), src, dst, move)
    ensures (forall p :: p in u ==> !u[p].Link?) ==>
      forall p :: p in Regraft(u, src, dst, move) ==> !Regraft(u, src, dst, move)[p].Link?
  {
    var mid, v := Cleared(u, dst), Regraft(u, src, dst, move);
    forall p
      ensures At(v, p) == Transferred(mid, src, dst, move, p)
    {
      ClearedAt(u, dst, p);
      if dst <= p {
        var from := src + p[|dst|..];
        ApartBelow(src, dst, from);
        ClearedAt(u, dst, from);
        assert p == dst + from[|src|..];
        if q :| q in u && src <= q && p == dst + q[|src|..] {
          assert q == src + q[|src|..] == from;
        }
      }
    }
  }

  /** The turn of source `k`: what was at its target, source `i` included, is replaced. */
  lemma ReplacingTurn(leads: Resolver, plan: Plan, k: nat, i: nat, u: Tree) returns (turn: Turn)
    requires Overlaps(plan, k, i) && Ready(plan, k, i, u, k)
    ensures FreshTurn(leads, plan, u, turn, k) && turn.bytes == 0
    ensures Ready(plan, k, i, turn.after, k + 1)
  {
    var src, dst, move := plan.sources[k], plan.Target(k), plan.kind == Move;
    assert !plan.Doomed(k);
    NothingToCharge(plan, k, i, u, k);
    NothingBelow(u, dst, plan.sources[i]);
    ImageThere(plan, k, i, i);
    var image := Image(plan, k, i);
    assert At(u, image) == At(Hostile(plan, k, i), image);
    NothingBelow(u, src, image);
    var v := Regraft(u, src, dst, move);
    RegraftAt(u, src, dst, move);
    RegraftedWell(plan, k, u, v);
    turn := Turn(Replaced, 0, TotalItems(u, src), k, Under(k, Replace), v);
    ReplacedReady(plan, k, i, u, v);
  }

  lemma RegraftedWell(plan: Plan, k: nat, u: Tree, v: Tree)
    requires plan.Valid() && k < |plan.sources| && WellFormed(u) && HasDir(u, plan.destination)
    requires plan.sources[k] in u && Apart(plan.sources[k], plan.Target(k))
    requires IsTransfer(Cleared(u, plan.Target(k)), v, plan.sources[k], plan.Target(k), plan.kind == Move)
    ensures WellFormed(v) && Confined(u, v, plan.sources[k], plan.Target(k))
    ensures Arrived(u, v, plan.sources[k], plan.Target(k), plan.kind == Move)
  {
    var src, dst, move := plan.sources[k], plan.Target(k), plan.kind == Move;
    var mid := Cleared(u, dst);
    ClearedWellFormed(u, dst);
    ClearedAt(u, dst, src);
    assert Parent(dst) == plan.destination;
    ClearedAt(u, dst, plan.destination);
    TransferWellFormed(mid, v, src, dst, move);
    TransferIsInTransit(mid, v, src, dst, move);
    EntryEffect(u, mid, v, src, dst, move);
  }

  lemma ReplacedReady(plan: Plan, k: nat, i: nat, u: Tree, v: Tree)
    requires Overlaps(plan, k, i) && Ready(plan, k, i, u, k) && WellFormed(v)
    requires Confined(u, v, plan.sources[k], plan.Target(k))
    requires Arrived(u, v, plan.sources[k], plan.Target(k), plan.kind == Move)
    requires forall p :: p in v ==> !v[p].Link?
    ensures Ready(plan, k, i, v, k + 1)
  {
    var src, dst := plan.sources[k], plan.Target(k);
    assert !plan.Doomed(k);
    AboveTheDestination(plan, k);
    assert At(v, plan.destination) == At(u, plan.destination);
    forall j | k < j < |plan.sources|
      ensures plan.sources[j] in v && v[plan.sources[j]].File?
    {
      SourceAfterReplacement(plan, k, i, u, v, j);
    }
    forall p | p in v
      ensures Size(v[p]) == 0
    {
      NothingLeft(plan, k, i, u, v, p);
    }
  }

  lemma SourceAfterReplacement(plan: Plan, k: nat, i: nat, u: Tree, v: Tree, j: nat)
    requires Overlaps(plan, k, i) && Ready(plan, k, i, u, k) && k < j < |plan.sources|
    requires Confined(u, v, plan.sources[k], plan.Target(k))
    requires Arrived(u, v, plan.sources[k], plan.Target(k), plan.kind == Move)
    ensures plan.sources[j] in v && v[plan.sources[j]].File?
  {
    if plan.Target(k) <= plan.sources[j] {
      ImageThere(plan, k, i, j);
      assert At(u, Image(plan, k, j)) == At(Hostile(plan, k, i), Image(plan, k, j));
      assert At(v, plan.sources[j]) == At(u, Image(plan, k, j));
    } else {
      assert At(v, plan.sources[j]) == At(u, plan.sources[j]);
    }
  }

  lemma NothingLeft(plan: Plan, k: nat, i: nat, u: Tree, v: Tree, p: Path)
    requires Overlaps(plan, k, i) && Ready(plan, k, i, u, k) && p in v
    requires Confined(u, v, plan.sources[k], plan.Target(k))
    requires Arrived(u, v, plan.sources[k], plan.Target(k), plan.kind == Move)
    ensures Size(v[p]) == 0
  {
    var src, dst := plan.sources[k], plan.Target(k);
    if dst <= p {
      var from := src + p[|dst|..];
      assert At(v, p) == At(u, from);
      ApartBelow(src, plan.sources[i], from);
    } else {
      assert At(v, p) == At(u, p) || (src <= p && At(v, p) == None);
    }
  }

  lemma FreshTurnFits(leads: Resolver, plan: Plan, t: Tree, front: seq<Turn>, turn: Turn)
    requires plan.Valid() && |front| < |plan.sources|
    requires FreshTurn(leads, plan, TreeAt(t, front, |front|), turn, |front|)
    ensures Fits(leads, plan, t, front + [turn], |front|)
  {
    assert (front + [turn])[..|front|] == front;
    TreesBefore(t, front + [turn], |front|, |front|);
  }

  lemma TurnAt(leads: Resolver, plan: Plan, k: nat, i: nat, u: Tree, m: nat) returns (turn: Turn)
    requires Overlaps(plan, k, i) && m < |plan.sources| && Ready(plan, k, i, u, m)
    ensures FreshTurn(leads, plan, u, turn, m) && turn.bytes == 0
    ensures Ready(plan, k, i, turn.after, m + 1)
  {
    if m == k {
      turn := ReplacingTurn(leads, plan, k, i, u);
    } else {
      turn := OtherTurn(leads, plan, k, i, u, m);
    }
  }

  /** One more turn of the run. */
  lemma NextTurn(leads: Resolver, plan: Plan, k: nat, i: nat, t: Tree, front: seq<Turn>) returns (turns: seq<Turn>)
    requires Overlaps(plan, k, i) && |front| < |plan.sources|
    requires AllFit(leads, plan, t, front) && NoneErrored(front) && AllSeen(leads, plan, t, front)
    requires Ready(plan, k, i, TreeAt(t, front, |front|), |front|) && PaidBytes(front) == 0
    ensures |turns| == |front| + 1 && AllFit(leads, plan, t, turns)
    ensures NoneErrored(turns) && AllSeen(leads, plan, t, turns)
    ensures Ready(plan, k, i, TreeAt(t, turns, |turns|), |turns|) && PaidBytes(turns) == 0
  {
    var m := |front|;
    var turn := TurnAt(leads, plan, k, i, TreeAt(t, front, m), m);
    turns := front + [turn];
    FreshTurnFits(leads, plan, t, front, turn);
    OneMoreFits(leads, plan, t, front, turn);
    OneMoreSeen(leads, plan, t, front, turn);
    OneMorePaid(front, turn);
  }

  /** The first `m` turns of the run. */
  lemma {:induction false} HostileRun(leads: Resolver, plan: Plan, k: nat, i: nat, m: nat) returns (turns: seq<Turn>)
    requires Overlaps(plan, k, i) && m <= |plan.sources|
    ensures |turns| == m && AllFit(leads, plan, Hostile(plan, k, i), turns) && NoneErrored(turns)
    ensures AllSeen(leads, plan, Hostile(plan, k, i), turns) && PaidBytes(turns) == 0
    ensures Ready(plan, k, i, TreeAt(Hostile(plan, k, i), turns, m), m)
  {
    turns := [];
    if m == 0 {
      HostileReady(leads, plan, k, i);
    } else {
      var front := HostileRun(leads, plan, k, i, m - 1);
      turns := NextTurn(leads, plan, k, i, Hostile(plan, k, i), front);
    }
  }

  lemma {:induction false} PlanHolds(plan: Plan, t: Tree, i: nat, n: nat)
    requires i < n <= |plan.sources|
    ensures plan.Bytes(t, n) >= TotalBytes(t, plan.sources[i])
    decreases n
  {
    if i < n - 1 {
      PlanHolds(plan, t, i, n - 1);
    }
  }

  /** On the hostile tree everything succeeds and nothing is charged, though source `i` holds a byte. */
  lemma OverlapMischarges(leads: Resolver, plan: Plan, k: nat, i: nat) returns (t: Tree, turns: seq<Turn>)
    requires Overlaps(plan, k, i)
    ensures Accepted(leads, plan, t) && CompleteRun(leads, plan, t, turns) && !ChargedRight(plan, t, turns)
  {
    t := Hostile(plan, k, i);
    HostileReady(leads, plan, k, i);
    turns := HostileRun(leads, plan, k, i, |plan.sources|);
    var src := plan.sources[i];
    InFiles(plan, k, i, src);
    BelowLeaf(t, src);
    PlanHolds(plan, t, i, |plan.sources|);
  }

  /** Such a plan: a folder, and then a file of the folder it replaces. */
  lemma FolderThenItsNamesake(
      kind: Kind, s: string, d: string, a: string, x: string, bytes: nat, items: nat)
    requires s != d && (kind == Copy || kind == Move)
    ensures Overlaps(Plan(kind, [d], [[s, a], [d, a, x]], bytes, items), 0, 1)
  {
    var plan := Plan(kind, [d], [[s, a], [d, a, x]], bytes, items);
    assert plan.sources[0][0] != plan.sources[1][0];
    assert plan.Target(0) == [d, a] && plan.Target(1) == [d, x];
    assert [d, a] == plan.sources[1][..2];
  }

  ghost predicate AlwaysChargedRight(leads: Resolver, plan: Plan)
    requires plan.Valid()
  {
    forall t, turns :: Accepted(leads, plan, t) && CompleteRun(leads, plan, t, turns) ==> ChargedRight(plan, t, turns)
  }

  ghost predicate SomeDoomed(plan: Plan)
    requires plan.Valid()
  {
    exists i :: 0 <= i < |plan.sources| && plan.Doomed(i)
  }

  lemma NoneDoomed(leads: Resolver, plan: Plan, t: Tree, turns: seq<Turn>)
    requires plan.Valid() && CompleteRun(leads, plan, t, turns)
    ensures !SomeDoomed(plan)
  {
    forall i | 0 <= i < |plan.sources|
      ensures !plan.Doomed(i)
    {
      assert Fits(leads, plan, t, turns, i);
    }
  }

  /** Every successful transfer, from whatever tree, is charged what its sources held if no source is
      replaced before its turn or some source is doomed anyway; for disjoint sources only if so. */
  lemma ChargesExactly(leads: Resolver, plan: Plan)
    requires plan.Valid()
    ensures plan.Clear() || SomeDoomed(plan) ==> AlwaysChargedRight(leads, plan)
    ensures plan.SourcesApart() ==> (AlwaysChargedRight(leads, plan) <==> plan.Clear() || SomeDoomed(plan))
  {
    forall t, turns | CompleteRun(leads, plan, t, turns)
      ensures !SomeDoomed(plan) && (plan.Clear() ==> ChargedRight(plan, t, turns))
    {
      NoneDoomed(leads, plan, t, turns);
      if plan.Clear() {
        PaidExactly(leads, plan, t, turns);
      }
    }
    if !plan.Clear() && plan.SourcesApart() && !SomeDoomed(plan) {
      var k, i :| 0 <= k < i < |plan.sources| && plan.Covers(k, i);
      var t, turns := OverlapMischarges(leads, plan, k, i);
    }
  }
}
