/** Directory trees as prefix-closed maps from paths to nodes, and what it means to move or
    copy an entry in one. */
module FsTree {
  import opened Options
  import opened FsJob

  type Byte = b: int | 0 <= b < 256

  datatype Node = Dir | File(data: seq<Byte>) | Link(target: string)

  type Tree = map<Path, Node>

  function At(t: Tree, p: Path): Option<Node> {
    if p in t then Some(t[p]) else None
  }

  /** Whether the link at a path of a tree leads somewhere: a matter of the tree and of what lies
      outside it, and so left open. */
  type Resolver = (Tree, Path) -> bool

  /** `existsSync`: links are followed, and one that leads nowhere is not seen. */
  predicate Exists(leads: Resolver, t: Tree, p: Path) {
    p in t && (t[p].Link? ==> leads(t, p))
  }

  function Parent(p: Path): Path
    requires p != []
  {
    p[..|p| - 1]
  }

  lemma PrefixTransitive(a: Path, b: Path, c: Path)
    ensures a <= b && b <= c ==> a <= c
  {
    if a <= b && b <= c {
      assert a == b[..|a|] == c[..|a|];
    }
  }

  lemma ParentAbove(p: Path, q: Path)
    requires q != []
    ensures p <= Parent(q) ==> p <= q
  {
    PrefixTransitive(p, Parent(q), q);
  }

  predicate HasDir(t: Tree, p: Path) {
    p in t && t[p].Dir?
  }

  ghost predicate WellFormed(t: Tree) {
    && HasDir(t, [])
    && forall p {:trigger Parent(p)} :: p in t && p != [] ==> HasDir(t, Parent(p))
  }

  lemma {:induction false} PrefixesExist(t: Tree, p: Path, k: nat)
    requires WellFormed(t) && p in t && k <= |p|
    ensures p[..k] in t
    ensures k < |p| ==> HasDir(t, p[..k])
    decreases |p| - k
  {
    if k == |p| {
      assert p[..k] == p;
    } else {
      PrefixesExist(t, p, k + 1);
      assert Parent(p[..k + 1]) == p[..k];
    }
  }

  /** Nothing lives below a path that is absent or not a directory. */
  lemma NothingBelow(t: Tree, p: Path, q: Path)
    requires WellFormed(t) && q in t && p <= q
    ensures p in t && (p != q ==> HasDir(t, p))
  {
    PrefixesExist(t, q, |p|);
    assert q[..|p|] == p;
  }

  /** The node at `p` once `src` has been renamed to `dst`. */
  function Moved(t: Tree, src: Path, dst: Path, p: Path): Option<Node> {
    if dst <= p then At(t, src + p[|dst|..])
    else if src <= p then None
    else At(t, p)
  }

  /** The node at `p` once `src` has been grafted at `dst`. */
  function Grafted(t: Tree, src: Path, dst: Path, p: Path): Option<Node> {
    if dst <= p then At(t, src + p[|dst|..]) else At(t, p)
  }

  function Transferred(t: Tree, src: Path, dst: Path, move: bool, p: Path): Option<Node> {
    if move then Moved(t, src, dst, p) else Grafted(t, src, dst, p)
  }

  ghost predicate IsTransfer(t: Tree, u: Tree, src: Path, dst: Path, move: bool) {
    forall p {:trigger At(u, p)} :: At(u, p) == Transferred(t, src, dst, move, p)
  }

  /** A tree is determined by its nodes, so there is only one outcome of a transfer. */
  lemma TransferUnique(t: Tree, u: Tree, v: Tree, src: Path, dst: Path, move: bool)
    requires IsTransfer(t, u, src, dst, move) && IsTransfer(t, v, src, dst, move)
    ensures u == v
  {
    forall p
      ensures (p in u <==> p in v) && (p in u ==> u[p] == v[p])
    {
      assert At(u, p) == At(v, p);
    }
  }

  /** Absent, complete, or a file that stops short. */
  predicate CopySoFar(copy: Option<Node>, original: Option<Node>) {
    || copy == None
    || copy == original
    || (copy.Some? && copy.value.File? && original.Some? && original.value.File?
        && copy.value.data <= original.value.data)
  }

  /** What an interrupted transfer may leave: the target holds nothing but copies so far, other
      paths are untouched, and anything gone from the source is complete at the target. */
  ghost predicate InTransitAt(t: Tree, u: Tree, src: Path, dst: Path, move: bool, p: Path) {
    if dst <= p then
      CopySoFar(At(u, p), At(t, src + p[|dst|..]))
    else if src <= p then
      || At(u, p) == At(t, p)
      || (move && At(u, p) == None && At(u, dst + p[|src|..]) == At(t, p))
    else
      At(u, p) == At(t, p)
  }

  ghost predicate InTransit(t: Tree, u: Tree, src: Path, dst: Path, move: bool) {
    forall p {:trigger At(u, p)} :: InTransitAt(t, u, src, dst, move, p)
  }

  /** In particular every file of the source is still in one of the two places. */
  lemma NothingLost(t: Tree, u: Tree, src: Path, dst: Path, move: bool, below: Path)
    requires InTransit(t, u, src, dst, move) && !(dst <= src + below)
    ensures At(u, src + below) == At(t, src + below) || At(u, dst + below) == At(t, src + below)
  {
    assert InTransitAt(t, u, src, dst, move, src + below);
    assert (src + below)[|src|..] == below;
  }

  lemma TransferIsInTransit(t: Tree, u: Tree, src: Path, dst: Path, move: bool)
    requires IsTransfer(t, u, src, dst, move) && !(src <= dst)
    ensures InTransit(t, u, src, dst, move)
  {
    forall p
      ensures InTransitAt(t, u, src, dst, move, p)
    {
      if !(dst <= p) && src <= p && move {
        var q := dst + p[|src|..];
        assert q[|dst|..] == p[|src|..];
        assert src + q[|dst|..] == p;
        assert At(u, q) == At(t, p);
      }
    }
  }

  /** The transfer once the children named in `done` have been transferred into the new directory. */
  function Halfway(t: Tree, src: Path, dst: Path, move: bool, done: set<string>, p: Path): Option<Node> {
    if dst == p then Some(Dir)
    else if dst <= p then
      if p[|dst|] in done then At(t, src + p[|dst|..]) else None
    else if move && src <= p && src != p && p[|src|] in done then None
    else At(t, p)
  }

  ghost predicate IsHalfway(t: Tree, u: Tree, src: Path, dst: Path, move: bool, done: set<string>) {
    forall p {:trigger At(u, p)} :: At(u, p) == Halfway(t, src, dst, move, done, p)
  }

  lemma ChildPrefix(p: Path, n: string, q: Path)
    ensures p + [n] <= q <==> p <= q && p != q && q[|p|] == n
  {
    if p <= q && p != q && q[|p|] == n {
      assert q[..|p|] == p;
      assert p + [n] == q[..|p| + 1];
    }
  }

  /** Transferring one more child is one more step of the transfer of the directory. */
  lemma HalfwayStep(t: Tree, mid: Tree, u: Tree, src: Path, dst: Path, move: bool, done: set<string>, n: string)
    requires IsHalfway(t, mid, src, dst, move, done) && n !in done
    requires !(src <= dst) && !(dst <= src)
    requires IsTransfer(mid, u, src + [n], dst + [n], move)
    ensures IsHalfway(t, u, src, dst, move, done + {n})
  {
    forall p
      ensures At(u, p) == Halfway(t, src, dst, move, done + {n}, p)
    {
      ChildPrefix(dst, n, p);
      ChildPrefix(src, n, p);
      if dst + [n] <= p {
        var q := (src + [n]) + p[|dst| + 1..];
        assert q == src + p[|dst|..];
        assert At(u, p) == At(mid, q);
        ChildPrefix(src, n, q);
        assert q[|src|] == n;
        OutsideTarget(src, dst, q);
      } else {
        assert At(u, p) == if move && src + [n] <= p then None else At(mid, p);
      }
    }
  }

  lemma HalfwayIsInTransit(t: Tree, u: Tree, src: Path, dst: Path, move: bool, done: set<string>)
    requires IsHalfway(t, u, src, dst, move, done)
    requires !(src <= dst) && !(dst <= src) && HasDir(t, src)
    ensures InTransit(t, u, src, dst, move)
  {
    forall p
      ensures InTransitAt(t, u, src, dst, move, p)
    {
      if dst <= p {
        assert p == dst ==> src + p[|dst|..] == src;
      } else if src <= p {
        var q := dst + p[|src|..];
        assert q[|dst|..] == p[|src|..] && src + q[|dst|..] == p;
        assert At(u, q) == Halfway(t, src, dst, move, done, q);
      }
    }
  }

  /** An interrupted child leaves the whole directory in transit. */
  lemma InterruptedChild(t: Tree, mid: Tree, u: Tree, src: Path, dst: Path, move: bool, done: set<string>, n: string)
    requires IsHalfway(t, mid, src, dst, move, done) && n !in done
    requires !(src <= dst) && !(dst <= src) && HasDir(t, src)
    requires InTransit(mid, u, src + [n], dst + [n], move)
    ensures InTransit(t, u, src, dst, move)
  {
    HalfwayIsInTransit(t, mid, src, dst, move, done);
    forall p
      ensures InTransitAt(t, u, src, dst, move, p)
    {
      InterruptedChildAt(t, mid, u, src, dst, move, done, n, p);
    }
  }

  lemma InterruptedChildAt(
      t: Tree, mid: Tree, u: Tree, src: Path, dst: Path, move: bool, done: set<string>, n: string, p: Path)
    requires IsHalfway(t, mid, src, dst, move, done) && n !in done
    requires InTransit(t, mid, src, dst, move)
    requires !(src <= dst) && !(dst <= src) && HasDir(t, src)
    requires InTransit(mid, u, src + [n], dst + [n], move)
    ensures InTransitAt(t, u, src, dst, move, p)
  {
    ChildPrefix(dst, n, p);
    ChildPrefix(src, n, p);
    assert InTransitAt(mid, u, src + [n], dst + [n], move, p);
    assert InTransitAt(t, mid, src, dst, move, p);
    assert At(mid, p) == Halfway(t, src, dst, move, done, p);
    if dst + [n] <= p {
      var q := src + [n] + p[|dst| + 1..];
      assert q == src + p[|dst|..];
      OutsideTarget(src, dst, q);
      ChildPrefix(src, n, q);
      assert At(mid, q) == Halfway(t, src, dst, move, done, q) == At(t, q);
    } else if !(dst <= p) && src <= p {
      var q := dst + p[|src|..];
      assert q[|dst|..] == p[|src|..];
      assert At(mid, q) == Halfway(t, src, dst, move, done, q);
      ChildPrefix(dst, n, q);
      if src + [n] <= p {
        assert dst + [n] + p[|src| + 1..] == q;
      } else {
        OutsideSource(src, dst, q);
        ChildPrefix(src, n, q);
        assert InTransitAt(mid, u, src + [n], dst + [n], move, q);
      }
    }
  }

  lemma PrefixesCompare(p: Path, q: Path, x: Path)
    requires p <= x && q <= x
    ensures p <= q || q <= p
  {
    assert p == x[..|p|] && q == x[..|q|];
  }

  lemma OutsideTarget(src: Path, dst: Path, q: Path)
    requires !(src <= dst) && !(dst <= src) && src <= q
    ensures !(dst <= q)
  {
    if dst <= q {
      PrefixesCompare(src, dst, q);
    }
  }

  lemma OutsideSource(src: Path, dst: Path, q: Path)
    requires !(src <= dst) && !(dst <= src) && dst <= q
    ensures !(src <= q)
  {
    OutsideTarget(dst, src, q);
  }

  /** With every child done and, for a move, the emptied source removed, the transfer is complete. */
  lemma HalfwayComplete(t: Tree, mid: Tree, u: Tree, src: Path, dst: Path, move: bool, done: set<string>)
    requires WellFormed(t) && HasDir(t, src) && !(src <= dst) && !(dst <= src)
    requires IsHalfway(t, mid, src, dst, move, done)
    requires forall n :: src + [n] in t ==> n in done
    requires forall p {:trigger At(u, p)} :: At(u, p) == if move && p == src then None else At(mid, p)
    ensures IsTransfer(t, u, src, dst, move)
  {
    forall p
      ensures At(u, p) == Transferred(t, src, dst, move, p)
    {
      assert At(u, p) == if move && p == src then None else At(mid, p);
      if dst <= p {
        var q := src + p[|dst|..];
        OutsideSource(src, dst, p);
        if p == dst {
          assert q == src;
        } else if q in t {
          ChildExists(t, src, q);
          assert q[|src|] == p[|dst|];
        }
      } else if src <= p && p != src && p in t {
        ChildExists(t, src, p);
      }
    }
  }

  lemma ChildExists(t: Tree, src: Path, q: Path)
    requires WellFormed(t) && q in t && src <= q && src != q
    ensures src + [q[|src|]] in t
  {
    PrefixesExist(t, q, |src| + 1);
    assert q[..|src| + 1] == src + [q[|src|]];
  }

  function Size(n: Node): nat {
    if n.File? then |n.data| else 0
  }

  ghost function Bytes(t: Tree, s: set<Path>): nat
    requires s <= t.Keys
  {
    if s == {} then 0
    else
      var p :| p in s;
      Size(t[p]) + Bytes(t, s - {p})
  }

  lemma {:induction false} BytesRemove(t: Tree, s: set<Path>, p: Path)
    requires s <= t.Keys && p in s
    ensures Bytes(t, s) == Size(t[p]) + Bytes(t, s - {p})
    decreases |s|
  {
    var q :| q in s && Bytes(t, s) == Size(t[q]) + Bytes(t, s - {q});
    if q != p {
      BytesRemove(t, s - {q}, p);
      BytesRemove(t, s - {p}, q);
      assert s - {q} - {p} == s - {p} - {q};
    }
  }

  lemma {:induction false} BytesUnion(t: Tree, a: set<Path>, b: set<Path>)
    requires a <= t.Keys && b <= t.Keys && a !! b
    ensures Bytes(t, a + b) == Bytes(t, a) + Bytes(t, b)
    decreases |a|
  {
    if a == {} {
      assert a + b == b;
    } else {
      var p :| p in a;
      BytesRemove(t, a, p);
      BytesRemove(t, a + b, p);
      assert a + b - {p} == (a - {p}) + b;
      BytesUnion(t, a - {p}, b);
    }
  }

  lemma {:induction false} BytesEqual(t: Tree, u: Tree, s: set<Path>)
    requires s <= t.Keys && s <= u.Keys && forall p :: p in s ==> t[p] == u[p]
    ensures Bytes(t, s) == Bytes(u, s)
    decreases |s|
  {
    if s != {} {
      var p :| p in s;
      BytesRemove(t, s, p);
      BytesRemove(u, s, p);
      BytesEqual(t, u, s - {p});
    }
  }

  /** The entries at or below a path. */
  function Below(t: Tree, p: Path): set<Path> {
    set q | q in t && p <= q
  }

  ghost function TotalBytes(t: Tree, p: Path): nat {
    Bytes(t, Below(t, p))
  }

  function TotalItems(t: Tree, p: Path): nat {
    |Below(t, p)|
  }

  /** What lies under the children of `p` named in `names`. */
  function BelowChildren(t: Tree, p: Path, names: set<string>): set<Path> {
    set q | q in t && p <= q && p != q && q[|p|] in names
  }

  lemma BelowChildrenStep(t: Tree, p: Path, names: set<string>, n: string)
    requires n !in names
    ensures Bytes(t, BelowChildren(t, p, names + {n})) == Bytes(t, BelowChildren(t, p, names)) + TotalBytes(t, p + [n])
    ensures |BelowChildren(t, p, names + {n})| == |BelowChildren(t, p, names)| + TotalItems(t, p + [n])
  {
    var a := BelowChildren(t, p, names);
    var b := Below(t, p + [n]);
    forall q
      ensures q in BelowChildren(t, p, names + {n}) <==> q in a || q in b
    {
      ChildPrefix(p, n, q);
    }
    forall q | q in b
      ensures q !in a
    {
      ChildPrefix(p, n, q);
    }
    assert BelowChildren(t, p, names + {n}) == a + b;
    BytesUnion(t, a, b);
  }

  lemma BelowDirectory(t: Tree, p: Path, names: set<string>)
    requires WellFormed(t) && HasDir(t, p) && forall n :: p + [n] in t ==> n in names
    ensures TotalBytes(t, p) == Bytes(t, BelowChildren(t, p, names))
    ensures TotalItems(t, p) == 1 + |BelowChildren(t, p, names)|
  {
    var a := BelowChildren(t, p, names);
    forall q
      ensures q in Below(t, p) <==> q == p || q in a
    {
      if q in Below(t, p) && q != p {
        ChildExists(t, p, q);
      }
    }
    assert Below(t, p) == a + {p};
    BytesRemove(t, Below(t, p), p);
    assert Below(t, p) - {p} == a;
  }

  lemma BelowChildrenBound(t: Tree, p: Path, names: set<string>)
    requires HasDir(t, p)
    ensures Bytes(t, BelowChildren(t, p, names)) <= TotalBytes(t, p)
    ensures 1 + |BelowChildren(t, p, names)| <= TotalItems(t, p)
  {
    var a := BelowChildren(t, p, names);
    var rest := Below(t, p) - a;
    assert p in rest;
    assert Below(t, p) == a + rest;
    BytesUnion(t, a, rest);
    assert |Below(t, p)| == |a| + |rest|;
    assert |rest| == 1 + |rest - {p}|;
  }

  lemma BelowLeaf(t: Tree, p: Path)
    requires WellFormed(t) && p in t && !t[p].Dir?
    ensures TotalBytes(t, p) == Size(t[p]) && TotalItems(t, p) == 1
  {
    forall q | q in Below(t, p)
      ensures q == p
    {
      NothingBelow(t, p, q);
    }
    assert Below(t, p) == {p};
    BytesRemove(t, {p}, p);
  }

  /** Totals depend only on the nodes under the path. */
  lemma TotalsSame(t: Tree, u: Tree, p: Path)
    requires forall x :: p <= x ==> At(t, x) == At(u, x)
    ensures TotalBytes(t, p) == TotalBytes(u, p) && TotalItems(t, p) == TotalItems(u, p)
  {
    forall x
      ensures x in Below(t, p) <==> x in Below(u, p)
      ensures x in Below(t, p) ==> t[x] == u[x]
    {
      if p <= x {
        assert At(t, x) == At(u, x);
      }
    }
    assert Below(t, p) == Below(u, p);
    BytesEqual(t, u, Below(t, p));
  }

  /** The tree without what is at or below `p`. */
  function Cleared(t: Tree, p: Path): Tree {
    t - Below(t, p)
  }

  lemma ClearedAt(t: Tree, p: Path, x: Path)
    ensures At(Cleared(t, p), x) == if p <= x then None else At(t, x)
  {
  }

  lemma ClearedWellFormed(t: Tree, p: Path)
    requires WellFormed(t) && p != []
    ensures WellFormed(Cleared(t, p))
  {
    var u := Cleared(t, p);
    forall q {:trigger Parent(q)} | q in u && q != []
      ensures HasDir(u, Parent(q))
    {
      ParentAbove(p, q);
    }
  }
}
