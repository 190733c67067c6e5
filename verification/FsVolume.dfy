/** The recursive copy and move of `copyFsEntryWithProgress` (server/src/main/kernel.js) over a
    mutable directory tree. System calls may fail at any time; a rename may also report that the
    two paths are on different devices, which sends a move down the copy-then-delete path. */
module FsVolume {
  import opened Options
  import opened FsJob
  import opened FsTree

  datatype RenameResult = Renamed | CrossDevice | RenameFailed

  datatype CopyResult = Copied | CopyCancelled | CopyFailed

  class Volume {
    const leads: Resolver
    var nodes: Tree

    constructor (nodes: Tree, leads: Resolver)
      ensures this.nodes == nodes && this.leads == leads
    {
      this.nodes, this.leads := nodes, leads;
    }

    method ExistsSync(p: Path) returns (there: bool)
      ensures there == Exists(leads, nodes, p)
    {
      there := p in nodes && (!nodes[p].Link? || leads(nodes, p));
    }

    method RenameSync(src: Path, dst: Path) returns (r: RenameResult)
      requires WellFormed(nodes) && src in nodes && dst !in nodes && !(src <= dst)
      requires dst != [] && HasDir(nodes, Parent(dst))
      modifies this
      ensures r.Renamed? ==> WellFormed(nodes) && IsTransfer(old(nodes), nodes, src, dst, true)
      ensures !r.Renamed? ==> nodes == old(nodes)
    {
      var succeeds: bool, crossDevice: bool := *, *;
      if !succeeds {
        return if crossDevice then CrossDevice else RenameFailed;
      }
      ghost var t := nodes;
      var moved := set p | p in nodes && src <= p :: dst + p[|src|..];
      var kept := set p | p in nodes && !(src <= p);
      forall p | p in moved
        ensures dst <= p && src + p[|dst|..] in nodes
      {
        var q :| q in nodes && src <= q && p == dst + q[|src|..];
        assert p[|dst|..] == q[|src|..] && src + q[|src|..] == q;
      }
      nodes := map p | p in kept + moved :: if p in moved then nodes[src + p[|dst|..]] else nodes[p];
      forall p
        ensures At(nodes, p) == Moved(t, src, dst, p)
      {
        if dst <= p {
          var q := src + p[|dst|..];
          assert p == dst + q[|src|..];
          if p in t {
            NothingBelow(t, dst, p);
          }
        }
      }
      TransferWellFormed(t, nodes, src, dst, true);
      return Renamed;
    }

    /** A rename onto a link, which it replaces; a directory cannot take the place of a link. */
    method RenameOntoLink(src: Path, dst: Path) returns (r: RenameResult)
      requires WellFormed(nodes) && src in nodes && !(src <= dst)
      requires dst != [] && dst in nodes && nodes[dst].Link?
      modifies this
      ensures r.Renamed? ==> !old(nodes)[src].Dir? && WellFormed(nodes)
      ensures r.Renamed? ==> IsTransfer(Cleared(old(nodes), dst), nodes, src, dst, true)
      ensures !r.Renamed? ==> nodes == old(nodes)
    {
      var succeeds: bool, crossDevice: bool := *, *;
      if !succeeds || nodes[src].Dir? {
        return if crossDevice then CrossDevice else RenameFailed;
      }
      ghost var t, mid := nodes, Cleared(nodes, dst);
      LinkCleared(t, src, dst);
      nodes := (nodes - {src})[dst := nodes[src]];
      assert nodes == mid[dst := mid[src]] - {src};
      LeafMoved(mid, nodes, src, dst);
      TransferWellFormed(mid, nodes, src, dst, true);
      return Renamed;
    }

    method MkdirSync(p: Path) returns (ok: bool)
      requires WellFormed(nodes) && p != [] && HasDir(nodes, Parent(p))
      requires p in nodes ==> nodes[p].Dir?
      modifies this
      ensures ok ==> nodes == old(nodes)[p := Dir] && WellFormed(nodes)
      ensures !ok ==> nodes == old(nodes)
    {
      ok := *;
      if ok {
        nodes := nodes[p := Dir];
      }
    }

    method SymlinkSync(target: string, p: Path) returns (ok: bool)
      requires WellFormed(nodes) && p !in nodes && p != [] && HasDir(nodes, Parent(p))
      modifies this
      ensures ok ==> nodes == old(nodes)[p := Link(target)] && WellFormed(nodes)
      ensures !ok ==> nodes == old(nodes)
    {
      ok := *;
      if ok {
        nodes := nodes[p := Link(target)];
      }
    }

    method UnlinkSync(p: Path) returns (ok: bool)
      requires WellFormed(nodes) && p in nodes && !nodes[p].Dir?
      modifies this
      ensures ok ==> nodes == old(nodes) - {p} && WellFormed(nodes)
      ensures !ok ==> nodes == old(nodes)
    {
      ok := *;
      if ok {
        nodes := nodes - {p};
      }
    }

    method RmdirSync(p: Path) returns (ok: bool)
      requires WellFormed(nodes) && HasDir(nodes, p) && p != []
      modifies this
      ensures ok ==> nodes == old(nodes) - {p} && WellFormed(nodes)
      ensures !ok ==> nodes == old(nodes)
    {
      ok := *;
      var empty := forall q | q in nodes :: p <= q ==> q == p;
      if ok && empty {
        nodes := nodes - {p};
        forall q {:trigger Parent(q)} | q in nodes && q != []
          ensures HasDir(nodes, Parent(q))
        {
          ParentAbove(p, q);
        }
      } else {
        ok := false;
      }
    }

    /** `rmSync(p, { force: true, recursive: true })`; a failing call may have removed a part. */
    method RmSync(p: Path) returns (ok: bool)
      requires WellFormed(nodes) && p != []
      modifies this
      ensures WellFormed(nodes)
      ensures ok ==> nodes == old(nodes) - Below(old(nodes), p)
      ensures forall x {:trigger At(nodes, x)} ::
        At(nodes, x) == At(old(nodes), x) || (p <= x && At(nodes, x) == None)
    {
      ok := *;
      var any: set<Path> := *;
      var gone := if ok then {p} else set g | g in any && p <= g;
      nodes := map q | q in nodes && !IsGone(gone, q) :: nodes[q];
      assert ok ==> nodes == old(nodes) - Below(old(nodes), p);
      forall x
        ensures At(nodes, x) == At(old(nodes), x) || (p <= x && At(nodes, x) == None)
      {
        if g :| g in gone && g <= x {
          PrefixTransitive(p, g, x);
        }
      }
      forall q {:trigger Parent(q)} | q in nodes && q != []
        ensures HasDir(nodes, Parent(q))
      {
        forall g | g in gone
          ensures !(g <= Parent(q))
        {
          ParentAbove(g, q);
        }
      }
    }

    /** The names in a directory, in some order. */
    method ReaddirSync(p: Path) returns (names: seq<string>)
      ensures forall n :: n in names <==> p + [n] in nodes
      ensures forall i, j :: 0 <= i < j < |names| ==> names[i] != names[j]
    {
      var todo := set q | q in nodes && p <= q && |q| == |p| + 1 :: q[|p|];
      forall n
        ensures n in todo <==> p + [n] in nodes
      {
        if p + [n] in nodes {
          assert (p + [n])[|p|] == n;
        }
        if n in todo {
          var q :| q in nodes && p <= q && |q| == |p| + 1 && n == q[|p|];
          assert q == p + [n];
        }
      }
      ghost var all := todo;
      names := [];
      while todo != {}
        invariant todo <= all
        invariant forall n :: n in names <==> n in all && n !in todo
        invariant forall i, j :: 0 <= i < j < |names| ==> names[i] != names[j]
        decreases |todo|
      {
        var n :| n in todo;
        todo := todo - {n};
        names := names + [n];
      }
    }

    method CollectFsEntryStats(p: Path, ghost depth: nat) returns (bytes: nat, items: nat)
      requires WellFormed(nodes) && p in nodes
      requires forall q :: q in nodes && p <= q ==> |q| <= |p| + depth
      ensures bytes == TotalBytes(nodes, p) && items == TotalItems(nodes, p)
      decreases depth
    {
      if !nodes[p].Dir? {
        BelowLeaf(nodes, p);
        return Size(nodes[p]), 1;
      }
      bytes, items := 0, 1;
      var names := ReaddirSync(p);
      var i := 0;
      ghost var done := {};
      assert BelowChildren(nodes, p, {}) == {};
      while i < |names|
        invariant 0 <= i <= |names|
        invariant forall n :: n in done <==> n in names[..i]
        invariant bytes == Bytes(nodes, BelowChildren(nodes, p, done))
        invariant items == 1 + |BelowChildren(nodes, p, done)|
      {
        var n := names[i];
        assert names[..i + 1] == names[..i] + [n];
        var childBytes, childItems := CollectFsEntryStats(p + [n], depth - 1);
        BelowChildrenStep(nodes, p, done, n);
        bytes, items := bytes + childBytes, items + childItems;
        done := done + {n};
        i := i + 1;
      }
      assert names[..i] == names;
      BelowDirectory(nodes, p, done);
    }

    /** Streams one file; an interrupted copy is removed on a best-effort basis. */
    method CopyFileWithProgress(src: Path, dst: Path, tracker: FsOperationTracker,
        ghost base: Job, ghost b: nat, ghost i: nat)
      returns (r: CopyResult, ghost nb: nat)
      requires WellFormed(nodes) && src in nodes && nodes[src].File?
      requires dst !in nodes && dst != [] && HasDir(nodes, Parent(dst))
      requires tracker.Ticking(base, b, i)
      modifies this, tracker`current, tracker`lastWriteAt, tracker.file
      ensures WellFormed(nodes)
      ensures tracker.Ticking(base, b + nb, i) && nb <= Size(old(nodes[src]))
      ensures r.Copied? ==> nodes == old(nodes)[dst := old(nodes[src])] && nb == Size(old(nodes[src]))
      ensures nodes == old(nodes) || (dst in nodes && nodes == old(nodes)[dst := nodes[dst]]
        && CopySoFar(Some(nodes[dst]), Some(old(nodes[src]))))
      ensures r.CopyCancelled? ==> CancellationRequested(tracker.file.disk)
    {
      nb := 0;
      var cancelled := tracker.file.IsCancelled();
      if cancelled {
        return CopyCancelled, 0;
      }
      var created: bool := *;
      if !created {
        return CopyFailed, 0;
      }
      var data := nodes[src].data;
      ghost var t := nodes;
      var sent := 0;
      nodes := nodes[dst := File([])];
      while sent < |data|
        invariant 0 <= sent <= |data| && nb == sent
        invariant nodes == t[dst := File(data[..sent])]
        invariant tracker.Ticking(base, b + nb, i)
      {
        tracker.file.Yield();
        cancelled := tracker.file.IsCancelled();
        var broken: bool := *;
        if cancelled || broken {
          DropPartial(dst, t);
          return if cancelled then CopyCancelled else CopyFailed, nb;
        }
        var n: nat :| 1 <= n <= |data| - sent;
        tracker.TickOn(n, 0, false, base, b + nb, i);
        sent, nb := sent + n, nb + n;
        nodes := nodes[dst := File(data[..sent])];
      }
      assert data[..sent] == data;
      tracker.file.Yield();
      cancelled := tracker.file.IsCancelled();
      if cancelled {
        DropPartial(dst, t);
        return CopyCancelled, nb;
      }
      return Copied, nb;
    }

    /** The same call for a target that is a link: nothing is written, as the target may not exist,
        but chunks may be read and counted before that comes out, and the clean-up removes the link. */
    method CopyFileOntoLink(src: Path, dst: Path, tracker: FsOperationTracker,
        ghost base: Job, ghost b: nat, ghost i: nat)
      returns (r: CopyResult, ghost nb: nat)
      requires WellFormed(nodes) && src in nodes && nodes[src].File?
      requires dst in nodes && nodes[dst].Link?
      requires tracker.Ticking(base, b, i)
      modifies this, tracker`current, tracker`lastWriteAt, tracker.file
      ensures WellFormed(nodes) && !r.Copied?
      ensures tracker.Ticking(base, b + nb, i) && nb <= Size(old(nodes[src]))
      ensures nodes == old(nodes) || nodes == old(nodes) - {dst}
      ensures r.CopyCancelled? ==> CancellationRequested(tracker.file.disk)
    {
      nb := 0;
      var cancelled := tracker.file.IsCancelled();
      if cancelled {
        return CopyCancelled, 0;
      }
      var readable: bool := *;
      if !readable {
        return CopyFailed, 0;
      }
      var length, sent := |nodes[src].data|, 0;
      while sent < length
        invariant 0 <= sent <= length && nb == sent && nodes == old(nodes)
        invariant tracker.Ticking(base, b + nb, i) && !cancelled
      {
        tracker.file.Yield();
        cancelled := tracker.file.IsCancelled();
        var refused: bool := *;
        if cancelled || refused {
          break;
        }
        var n: nat :| 1 <= n <= length - sent;
        tracker.TickOn(n, 0, false, base, b + nb, i);
        sent, nb := sent + n, nb + n;
      }
      DropLink(dst);
      r := if cancelled then CopyCancelled else CopyFailed;
    }

    method DropLink(dst: Path)
      requires WellFormed(nodes) && dst in nodes && nodes[dst].Link?
      modifies this
      ensures WellFormed(nodes) && (nodes == old(nodes) || nodes == old(nodes) - {dst})
    {
      var removed: bool := *;
      if removed {
        nodes := nodes - {dst};
      }
    }

    method DropPartial(dst: Path, ghost t: Tree)
      requires WellFormed(t) && dst !in t && dst != [] && HasDir(t, Parent(dst))
      requires dst in nodes && nodes[dst].File? && nodes == t[dst := nodes[dst]]
      modifies this
      ensures nodes == t || nodes == old(nodes)
      ensures WellFormed(nodes)
    {
      var removed: bool := *;
      if removed {
        nodes := nodes - {dst};
        assert nodes == t;
      }
    }

    /** Whatever mixture of renames and copies is taken at whatever depth, a completed call has
        the effect of one rename or one graft; an interrupted one loses nothing. Its ticks add
        up to the totals of the source; only a rename trusts the totals it is given. */
    method CopyFsEntryWithProgress(src: Path, dst: Path, tracker: FsOperationTracker, move: bool,
        known: Option<(nat, nat)>, ghost base: Job, ghost b: nat, ghost i: nat, ghost depth: nat)
      returns (r: CopyResult, ghost nb: nat, ghost ni: nat)
      requires WellFormed(nodes) && src in nodes && !(src <= dst)
      requires dst !in nodes && dst != [] && HasDir(nodes, Parent(dst))
      requires forall q :: q in nodes && src <= q ==> |q| <= |src| + depth
      requires tracker.Ticking(base, b, i)
      modifies this, tracker`current, tracker`lastWriteAt, tracker.file
      ensures WellFormed(nodes)
      ensures r.Copied? ==> IsTransfer(old(nodes), nodes, src, dst, move)
      ensures r.Copied? ==>
        (nb == TotalBytes(old(nodes), src) && ni == TotalItems(old(nodes), src)) || (move && known == Some((nb, ni)))
      ensures !r.Copied? ==> nb <= TotalBytes(old(nodes), src) && ni <= TotalItems(old(nodes), src)
      ensures InTransit(old(nodes), nodes, src, dst, move)
      ensures tracker.Ticking(base, b + nb, i + ni)
      ensures r.CopyCancelled? ==> CancellationRequested(tracker.file.disk)
      decreases depth, 3
    {
      nb, ni := 0, 0;
      ghost var t := nodes;
      Untouched(t, src, dst, move);
      var cancelled := tracker.file.IsCancelled();
      if cancelled {
        return CopyCancelled, 0, 0;
      }
      var node := nodes[src];
      var bytes, items := 0, 0;
      if known.Some? {
        bytes, items := known.value.0, known.value.1;
      } else {
        bytes, items := CollectFsEntryStats(src, depth);
      }
      if move {
        var renamed := RenameSync(src, dst);
        if renamed.Renamed? {
          TransferIsInTransit(t, nodes, src, dst, true);
          tracker.TickOn(bytes, items, true, base, b, i);
          return Copied, bytes, items;
        }
        if renamed.RenameFailed? {
          return CopyFailed, 0, 0;
        }
      }
      if node.Dir? {
        r, nb, ni := CopyDirectory(src, dst, tracker, move, base, b, i, depth);
      } else {
        BelowLeaf(t, src);
        if node.Link? {
          r, ni := CopyLink(src, dst, tracker, move, base, b, i);
        } else {
          r, nb, ni := CopyFile(src, dst, tracker, move, base, b, i);
        }
      }
    }

    /** The same call for a target that is a link its caller did not see, as it leads nowhere: a rename
        replaces the link, a failed copy of a file removes it, everything else leaves it. */
    method CopyOntoLink(src: Path, dst: Path, tracker: FsOperationTracker, move: bool, known: (nat, nat),
        ghost base: Job, ghost b: nat, ghost i: nat)
      returns (r: CopyResult, ghost nb: nat, ghost ni: nat)
      requires WellFormed(nodes) && src in nodes && !(src <= dst)
      requires dst != [] && dst in nodes && nodes[dst].Link?
      requires tracker.Ticking(base, b, i)
      modifies this, tracker`current, tracker`lastWriteAt, tracker.file
      ensures WellFormed(nodes)
      ensures r.Copied? ==> move && !old(nodes)[src].Dir? && known == (nb, ni)
      ensures r.Copied? ==> IsTransfer(Cleared(old(nodes), dst), nodes, src, dst, true)
      ensures !r.Copied? ==> nodes == old(nodes) || (old(nodes)[src].File? && nodes == old(nodes) - {dst})
      ensures !r.Copied? ==> nb <= Size(old(nodes)[src]) && ni == 0
      ensures tracker.Ticking(base, b + nb, i + ni)
      ensures r.CopyCancelled? ==> CancellationRequested(tracker.file.disk)
    {
      nb, ni := 0, 0;
      var cancelled := tracker.file.IsCancelled();
      if cancelled {
        return CopyCancelled, 0, 0;
      }
      var node := nodes[src];
      if move {
        var renamed := RenameOntoLink(src, dst);
        if renamed.Renamed? {
          tracker.TickOn(known.0, known.1, true, base, b, i);
          return Copied, known.0, known.1;
        }
        if renamed.RenameFailed? {
          return CopyFailed, 0, 0;
        }
      }
      if !node.File? {
        return CopyFailed, 0, 0;  // EEXIST from `symlinkSync` or `mkdirSync`
      }
      r, nb := CopyFileOntoLink(src, dst, tracker, base, b, i);
    }

    method CopyLink(src: Path, dst: Path, tracker: FsOperationTracker, move: bool,
        ghost base: Job, ghost b: nat, ghost i: nat)
      returns (r: CopyResult, ghost ni: nat)
      requires WellFormed(nodes) && src in nodes && nodes[src].Link? && !(src <= dst) && !(dst <= src)
      requires dst !in nodes && dst != [] && HasDir(nodes, Parent(dst))
      requires tracker.Ticking(base, b, i)
      modifies this, tracker`current, tracker`lastWriteAt, tracker.file
      ensures WellFormed(nodes) && !r.CopyCancelled?
      ensures r.Copied? ==> IsTransfer(old(nodes), nodes, src, dst, move)
      ensures ni == if r.Copied? then 1 else 0
      ensures InTransit(old(nodes), nodes, src, dst, move)
      ensures tracker.Ticking(base, b, i + ni)
    {
      ghost var t := nodes;
      var linked := SymlinkSync(nodes[src].target, dst);
      LeafCopied(t, nodes, src, dst, move);
      if !linked {
        return CopyFailed, 0;
      }
      if move {
        var unlinked := UnlinkSync(src);
        if !unlinked {
          return CopyFailed, 0;
        }
        LeafMoved(t, nodes, src, dst);
      }
      tracker.TickOn(0, 1, true, base, b, i);
      return Copied, 1;
    }

    method CopyFile(src: Path, dst: Path, tracker: FsOperationTracker, move: bool,
        ghost base: Job, ghost b: nat, ghost i: nat)
      returns (r: CopyResult, ghost nb: nat, ghost ni: nat)
      requires WellFormed(nodes) && src in nodes && nodes[src].File? && !(src <= dst) && !(dst <= src)
      requires dst !in nodes && dst != [] && HasDir(nodes, Parent(dst))
      requires tracker.Ticking(base, b, i)
      modifies this, tracker`current, tracker`lastWriteAt, tracker.file
      ensures WellFormed(nodes)
      ensures r.Copied? ==> IsTransfer(old(nodes), nodes, src, dst, move)
      ensures r.Copied? ==> nb == Size(old(nodes[src])) && ni == 1
      ensures nb <= Size(old(nodes[src])) && ni <= 1
      ensures InTransit(old(nodes), nodes, src, dst, move)
      ensures tracker.Ticking(base, b + nb, i + ni)
      ensures r.CopyCancelled? ==> CancellationRequested(tracker.file.disk)
    {
      ghost var t := nodes;
      ni := 0;
      r, nb := CopyFileWithProgress(src, dst, tracker, base, b, i);
      LeafCopied(t, nodes, src, dst, move);
      if !r.Copied? {
        return;
      }
      tracker.TickOn(0, 1, true, base, b + nb, i);
      ni := 1;
      if move {
        var unlinked := UnlinkSync(src);
        if !unlinked {
          return CopyFailed, nb, ni;
        }
        LeafMoved(t, nodes, src, dst);
      }
    }

    /** Creates the directory, transfers the children one by one, then removes a moved source. */
    method CopyDirectory(src: Path, dst: Path, tracker: FsOperationTracker, move: bool,
        ghost base: Job, ghost b: nat, ghost i: nat, ghost depth: nat)
      returns (r: CopyResult, ghost nb: nat, ghost ni: nat)
      requires WellFormed(nodes) && HasDir(nodes, src) && !(src <= dst) && !(dst <= src)
      requires dst !in nodes && dst != [] && HasDir(nodes, Parent(dst))
      requires forall q :: q in nodes && src <= q ==> |q| <= |src| + depth
      requires tracker.Ticking(base, b, i)
      modifies this, tracker`current, tracker`lastWriteAt, tracker.file
      ensures WellFormed(nodes)
      ensures r.Copied? ==> IsTransfer(old(nodes), nodes, src, dst, move)
      ensures r.Copied? ==> nb == TotalBytes(old(nodes), src) && ni == TotalItems(old(nodes), src)
      ensures nb <= TotalBytes(old(nodes), src) && ni <= TotalItems(old(nodes), src)
      ensures InTransit(old(nodes), nodes, src, dst, move)
      ensures tracker.Ticking(base, b + nb, i + ni)
      ensures r.CopyCancelled? ==> CancellationRequested(tracker.file.disk)
      decreases depth, 2
    {
      nb, ni := 0, 0;
      ghost var t := nodes;
      Untouched(t, src, dst, move);
      var made := MkdirSync(dst);
      if !made {
        return CopyFailed, 0, 0;
      }
      DirectoryMade(t, nodes, src, dst, move);
      tracker.TickOn(0, 1, false, base, b, i);
      ni := 1;
      assert BelowChildren(t, src, {}) == {};
      ghost var done;
      r, nb, ni, done := CopyChildren(src, dst, tracker, move, base, b, i, depth, t);
      if !r.Copied? {
        return;
      }
      ChildrenDoneTotals(t, nodes, src, dst, move, done, nb, ni);
      BelowDirectory(t, src, done);
      ghost var mid := nodes;
      if move {
        HalfwaySource(t, nodes, src, dst, move, done);
        var removed := RmdirSync(src);
        if !removed {
          return CopyFailed, nb, ni;
        }
      }
      HalfwayComplete(t, mid, nodes, src, dst, move, done);
      TransferIsInTransit(t, nodes, src, dst, move);
    }

    /** The loop over the children of a directory just created at the target. */
    method CopyChildren(src: Path, dst: Path, tracker: FsOperationTracker, move: bool,
        ghost base: Job, ghost b: nat, ghost i: nat, ghost depth: nat, ghost t: Tree)
      returns (r: CopyResult, ghost nb: nat, ghost ni: nat, ghost done: set<string>)
      requires WellFormed(t) && HasDir(t, src) && !(src <= dst) && !(dst <= src)
      requires forall q :: q in t && src <= q ==> |q| <= |src| + depth
      requires ChildrenDone(t, nodes, src, dst, move, {}, 0, 1)
      requires tracker.Ticking(base, b, i + 1)
      modifies this, tracker`current, tracker`lastWriteAt, tracker.file
      ensures WellFormed(nodes)
      ensures r.Copied? ==> ChildrenDone(t, nodes, src, dst, move, done, nb, ni)
      ensures r.Copied? ==> forall n :: src + [n] in t ==> n in done
      ensures !r.Copied? ==> InTransit(t, nodes, src, dst, move)
      ensures nb <= TotalBytes(t, src) && ni <= TotalItems(t, src)
      ensures tracker.Ticking(base, b + nb, i + ni)
      ensures r.CopyCancelled? ==> CancellationRequested(tracker.file.disk)
      decreases depth, 1
    {
      nb, ni, done := 0, 1, {};
      var names := ReaddirSync(src);
      ChildrenKept(t, nodes, src, dst, move, names);
      var k := 0;
      while k < |names|
        invariant 0 <= k <= |names|
        invariant forall n :: n in done <==> n in names[..k]
        invariant ChildrenDone(t, nodes, src, dst, move, done, nb, ni)
        invariant tracker.Ticking(base, b + nb, i + ni)
      {
        assert names[..k + 1] == names[..k] + [names[k]];
        r, nb, ni := CopyChild(names[k], src, dst, tracker, move, base, b, i, depth, t, done, nb, ni);
        if !r.Copied? {
          return;
        }
        done := done + {names[k]};
        k := k + 1;
      }
      assert names[..k] == names;
      ChildrenDoneTotals(t, nodes, src, dst, move, done, nb, ni);
      r := Copied;
    }

    /** One turn of the loop over the children. */
    method CopyChild(n: string, src: Path, dst: Path, tracker: FsOperationTracker, move: bool,
        ghost base: Job, ghost b: nat, ghost i: nat, ghost depth: nat,
        ghost t: Tree, ghost done: set<string>, ghost nb: nat, ghost ni: nat)
      returns (r: CopyResult, ghost nb': nat, ghost ni': nat)
      requires WellFormed(t) && HasDir(t, src) && !(src <= dst) && !(dst <= src)
      requires forall q :: q in t && src <= q ==> |q| <= |src| + depth
      requires ChildrenDone(t, nodes, src, dst, move, done, nb, ni)
      requires n !in done && src + [n] in t
      requires tracker.Ticking(base, b + nb, i + ni)
      modifies this, tracker`current, tracker`lastWriteAt, tracker.file
      ensures WellFormed(nodes)
      ensures r.Copied? ==> ChildrenDone(t, nodes, src, dst, move, done + {n}, nb', ni')
      ensures !r.Copied? ==> InTransit(t, nodes, src, dst, move)
      ensures nb' <= TotalBytes(t, src) && ni' <= TotalItems(t, src)
      ensures tracker.Ticking(base, b + nb', i + ni')
      ensures r.CopyCancelled? ==> CancellationRequested(tracker.file.disk)
      decreases depth, 0
    {
      nb', ni' := nb, ni;
      ghost var mid := nodes;
      ChildrenDoneTotals(t, mid, src, dst, move, done, nb, ni);
      var cancelled := tracker.file.IsCancelled();
      if cancelled {
        return CopyCancelled, nb, ni;
      }
      ChildReady(t, mid, src, dst, move, done, n, depth);
      BelowChildrenStep(t, src, done, n);
      BelowChildrenBound(t, src, done + {n});
      ghost var cb, ci;
      r, cb, ci := CopyFsEntryWithProgress(src + [n], dst + [n], tracker, move, None, base, b + nb, i + ni, depth - 1);
      nb', ni' := nb + cb, ni + ci;
      if r.Copied? {
        HalfwayStep(t, mid, nodes, src, dst, move, done, n);
      } else {
        InterruptedChild(t, mid, nodes, src, dst, move, done, n);
      }
    }
  }

  predicate IsGone(gone: set<Path>, q: Path) {
    exists g :: g in gone && g <= q
  }

  /** The directory exists and exactly the children in `done` have been transferred and ticked. */
  ghost predicate ChildrenDone(
      t: Tree, u: Tree, src: Path, dst: Path, move: bool, done: set<string>, nb: int, ni: int) {
    && WellFormed(u)
    && IsHalfway(t, u, src, dst, move, done)
    && nb == Bytes(t, BelowChildren(t, src, done))
    && ni == 1 + |BelowChildren(t, src, done)|
  }

  lemma ChildrenDoneTotals(t: Tree, u: Tree, src: Path, dst: Path, move: bool, done: set<string>, nb: int, ni: int)
    requires WellFormed(t) && HasDir(t, src) && !(src <= dst) && !(dst <= src)
    requires ChildrenDone(t, u, src, dst, move, done, nb, ni)
    ensures InTransit(t, u, src, dst, move)
    ensures nb <= TotalBytes(t, src) && ni <= TotalItems(t, src)
  {
    HalfwayIsInTransit(t, u, src, dst, move, done);
    BelowChildrenBound(t, src, done);
  }

  lemma Untouched(t: Tree, src: Path, dst: Path, move: bool)
    requires WellFormed(t) && src in t && dst !in t
    ensures !(dst <= src)
    ensures InTransit(t, t, src, dst, move)
    ensures TotalItems(t, src) >= 1
  {
    forall p
      ensures InTransitAt(t, t, src, dst, move, p)
    {
      if dst <= p && p in t {
        NothingBelow(t, dst, p);
      }
    }
    if dst <= src {
      NothingBelow(t, dst, src);
    }
    assert Below(t, src) == {src} + (Below(t, src) - {src});
  }

  lemma TransferWellFormed(t: Tree, u: Tree, src: Path, dst: Path, move: bool)
    requires WellFormed(t) && IsTransfer(t, u, src, dst, move)
    requires src in t && dst !in t && !(src <= dst) && dst != [] && HasDir(t, Parent(dst))
    ensures WellFormed(u)
  {
    assert At(u, []) == At(t, []);
    forall p {:trigger Parent(p)} | p in u && p != []
      ensures HasDir(u, Parent(p))
    {
      assert At(u, p) == Transferred(t, src, dst, move, p);
      assert At(u, Parent(p)) == Transferred(t, src, dst, move, Parent(p));
      if dst <= p {
        if p == dst {
          assert !(src <= Parent(dst));
        } else {
          assert dst <= Parent(p) by { assert Parent(p)[..|dst|] == dst; }
          var q := src + p[|dst|..];
          assert q in t && Parent(q) == src + Parent(p)[|dst|..];
        }
      } else {
        assert p in t;
        ParentAbove(dst, p);
        ParentAbove(src, p);
      }
    }
  }

  lemma LinkCleared(t: Tree, src: Path, dst: Path)
    requires WellFormed(t) && src in t && dst in t && !t[dst].Dir? && dst != [] && !(src <= dst)
    ensures Cleared(t, dst) == t - {dst} && WellFormed(Cleared(t, dst)) && !(dst <= src)
    ensures HasDir(Cleared(t, dst), Parent(dst))
  {
    forall q | q in Below(t, dst)
      ensures q == dst
    {
      NothingBelow(t, dst, q);
    }
    assert Below(t, dst) == {dst};
    ClearedWellFormed(t, dst);
    if dst <= src {
      NothingBelow(t, dst, src);
    }
  }

  lemma LeafCopied(t: Tree, u: Tree, src: Path, dst: Path, move: bool)
    requires WellFormed(t) && src in t && !t[src].Dir? && dst !in t && !(src <= dst) && !(dst <= src)
    requires u == t || (dst in u && u == t[dst := u[dst]] && CopySoFar(Some(u[dst]), Some(t[src])))
    ensures InTransit(t, u, src, dst, move)
    ensures dst in u && u[dst] == t[src] ==> IsTransfer(t, u, src, dst, false)
  {
    forall p
      ensures InTransitAt(t, u, src, dst, move, p)
      ensures dst in u && u[dst] == t[src] ==> At(u, p) == Grafted(t, src, dst, p)
    {
      LeafOnly(t, src, dst, p);
    }
  }

  /** Under a leaf, and under an absent path, there is nothing but the path itself. */
  lemma LeafOnly(t: Tree, src: Path, dst: Path, p: Path)
    requires WellFormed(t) && src in t && !t[src].Dir? && dst !in t
    ensures dst <= p ==> p !in t && (p == dst ==> src + p[|dst|..] == src) && (p != dst ==> src + p[|dst|..] !in t)
    ensures src <= p && p != src ==> p !in t
  {
    if dst <= p {
      if p in t {
        NothingBelow(t, dst, p);
      }
      if p != dst && src + p[|dst|..] in t {
        NothingBelow(t, src, src + p[|dst|..]);
      }
    }
    if src <= p && p != src && p in t {
      NothingBelow(t, src, p);
    }
  }

  lemma LeafMoved(t: Tree, u: Tree, src: Path, dst: Path)
    requires WellFormed(t) && src in t && !t[src].Dir? && dst !in t && !(src <= dst) && !(dst <= src)
    requires u == t[dst := t[src]] - {src}
    ensures IsTransfer(t, u, src, dst, true)
    ensures InTransit(t, u, src, dst, true)
  {
    forall p
      ensures At(u, p) == Moved(t, src, dst, p)
    {
      LeafOnly(t, src, dst, p);
    }
    TransferIsInTransit(t, u, src, dst, true);
  }

  lemma DirectoryMade(t: Tree, u: Tree, src: Path, dst: Path, move: bool)
    requires WellFormed(t) && dst !in t && u == t[dst := Dir]
    ensures IsHalfway(t, u, src, dst, move, {})
  {
    forall p
      ensures At(u, p) == Halfway(t, src, dst, move, {}, p)
    {
      if dst <= p && p in t {
        NothingBelow(t, dst, p);
      }
    }
  }

  lemma ChildrenKept(t: Tree, u: Tree, src: Path, dst: Path, move: bool, names: seq<string>)
    requires IsHalfway(t, u, src, dst, move, {}) && !(src <= dst) && !(dst <= src)
    requires forall n :: n in names <==> src + [n] in u
    ensures forall n :: n in names <==> src + [n] in t
  {
    forall n
      ensures n in names <==> src + [n] in t
    {
      OutsideTarget(src, dst, src + [n]);
      assert At(u, src + [n]) == Halfway(t, src, dst, move, {}, src + [n]);
    }
  }

  /** The next child is where it was, its target is free, and its subtree is no deeper. */
  lemma ChildReady(t: Tree, mid: Tree, src: Path, dst: Path, move: bool, done: set<string>, n: string, depth: nat)
    requires IsHalfway(t, mid, src, dst, move, done) && n !in done
    requires WellFormed(t) && src + [n] in t && !(src <= dst) && !(dst <= src)
    requires forall q :: q in t && src <= q ==> |q| <= |src| + depth
    ensures depth > 0
    ensures src + [n] in mid && dst + [n] !in mid && !(src + [n] <= dst + [n])
    ensures HasDir(mid, Parent(dst + [n]))
    ensures forall q :: q in mid && src + [n] <= q ==> |q| <= |src + [n]| + (depth - 1)
    ensures TotalBytes(mid, src + [n]) == TotalBytes(t, src + [n])
    ensures TotalItems(mid, src + [n]) == TotalItems(t, src + [n])
  {
    assert Parent(dst + [n]) == dst;
    assert At(mid, dst) == Some(Dir);
    assert At(mid, dst + [n]) == None;
    ChildPrefix(src, n, dst + [n]);
    if src <= dst + [n] && src != dst + [n] {
      PrefixesCompare(src, dst, dst + [n]);
    }
    forall q | src + [n] <= q
      ensures At(t, q) == At(mid, q) && src <= q
    {
      ChildPrefix(src, n, q);
      OutsideTarget(src, dst, q);
      assert At(mid, q) == Halfway(t, src, dst, move, done, q);
    }
    assert At(mid, src + [n]) == At(t, src + [n]);
    forall q | q in mid && src + [n] <= q
      ensures |q| <= |src + [n]| + (depth - 1)
    {
      assert At(t, q) == At(mid, q);
    }
    TotalsSame(t, mid, src + [n]);
  }

  lemma HalfwaySource(t: Tree, u: Tree, src: Path, dst: Path, move: bool, done: set<string>)
    requires IsHalfway(t, u, src, dst, move, done) && HasDir(t, src) && !(src <= dst) && !(dst <= src)
    ensures HasDir(u, src)
  {
    assert At(u, src) == At(t, src);
  }
}
