/** The formatter's bookkeeping as one value: file tree, inodes, deferred and
    deleted block ranges. This module says what must hold between calls, and
    proves that detaching a name and adding one keep it. */
module Namespace {
  import opened Basics
  import opened OnDisk
  import opened Extents
  import opened Trees

  const ROOT_INODE: nat := 2
  /** Inodes 1 to 10 are reserved; number 11 is the first one handed out. */
  const RESERVED: nat := 10

  /** `origin[n - 11]` is the node `create` made for inode `n`: bookkeeping of
      the model only, the code never needs to look it up. */
  datatype Fs = Fs(
    nodes: Nodes,
    inodes: seq<Inode>,
    deleted: seq<BlockRange>,
    deferred: map<nat, seq<BlockRange>>,
    origin: seq<nat>)

  /** The inode a name stands for: a hard link's own number is a placeholder. */
  function Target(node: Node): nat {
    if node.link.Some? then node.link.value else node.inode
  }

  /** The block ranges recorded in a node, as `unlink` collects them. */
  function NodeRanges(node: Node): seq<BlockRange> {
    (if node.blocks.Some? && node.blocks.value.start != node.blocks.value.end then [node.blocks.value] else [])
    + node.additional
  }

  // ---- What holds between calls ----

  predicate NumberedNode(fs: Fs, i: nat)
    requires 0 < i < |fs.nodes|
  {
    var node := fs.nodes[i];
    match node.link
    case None => RESERVED < node.inode <= |fs.inodes| && node.inode - 11 < |fs.origin| && fs.origin[node.inode - 11] == i
    case Some(t) => node.inode == ROOT_INODE && RESERVED < t <= |fs.inodes| && NodeRanges(node) == []
  }

  predicate NumberedInode(fs: Fs, n: nat)
    requires RESERVED < n && n - 11 < |fs.origin|
  {
    var i := fs.origin[n - 11];
    0 < i < |fs.nodes| && fs.nodes[i].link == None && fs.nodes[i].inode == n
  }

  /** Every name stands for an existing inode, and every inode that was handed
      out has exactly one node of its own. */
  predicate Numbered(fs: Fs) {
    && WellFormed(fs.nodes) && UniqueNames(fs.nodes)
    && |fs.inodes| == RESERVED + |fs.origin|
    && fs.nodes[0].inode == ROOT_INODE && fs.nodes[0].link == None && NodeRanges(fs.nodes[0]) == []
    && (forall i :: 0 < i < |fs.nodes| ==> NumberedNode(fs, i))
    && (forall n :: RESERVED < n <= |fs.inodes| ==> NumberedInode(fs, n))
  }

  lemma Shaped(fs: Fs)
    requires Numbered(fs)
    ensures WellFormed(fs.nodes) && UniqueNames(fs.nodes) && |fs.nodes| > 0 && |fs.inodes| == RESERVED + |fs.origin|
  {
  }

  /** The inode a node carries in its own right (the root's, for a hard link). */
  function OwnInode(fs: Fs, i: nat): Inode
    requires Numbered(fs) && i < |fs.nodes|
  {
    assert i > 0 ==> NumberedNode(fs, i);
    fs.inodes[fs.nodes[i].inode - 1]
  }

  function TargetInode(fs: Fs, i: nat): Inode
    requires Numbered(fs) && i < |fs.nodes|
  {
    assert i > 0 ==> NumberedNode(fs, i);
    fs.inodes[Target(fs.nodes[i]) - 1]
  }

  predicate KindOk(fs: Fs, i: nat)
    requires Numbered(fs) && i < |fs.nodes|
  {
    && (fs.nodes[i].children != [] ==> Attached(fs.nodes, i) && OwnInode(fs, i).IsDir())
    && (fs.nodes[i].link.Some? && Attached(fs.nodes, i) ==> !TargetInode(fs, i).IsDir())
  }

  /** Only directories have children, no hard link names a directory, and a
      detached node keeps nothing below it. */
  predicate Kinds(fs: Fs)
    requires Numbered(fs)
  {
    && fs.inodes[ROOT_INODE - 1].IsDir() && fs.inodes[ROOT_INODE - 1].links >= 2
    && forall i :: 0 <= i < |fs.nodes| ==> KindOk(fs, i)
  }

  /** The attached names of inode `n`. */
  function Names(nodes: Nodes, n: nat): set<nat>
    requires WellFormed(nodes)
  {
    set i | 0 < i < |nodes| && Attached(nodes, i) && Target(nodes[i]) == n
  }

  predicate CountOk(fs: Fs, extra: nat, n: nat)
    requires Numbered(fs) && RESERVED < n <= |fs.inodes|
  {
    assert NumberedInode(fs, n);
    var inode := fs.inodes[n - 1];
    if inode.IsDir()
    then inode.links >= if Attached(fs.nodes, fs.origin[n - 11]) then 2 else 1
    else inode.links == |Names(fs.nodes, n)| + if n == extra then 1 else 0
  }

  /** A file's or symlink's link count is its number of attached names. `extra`
      is an inode that holds one count more (0 for none): `link` raises the
      target's count before it adds the name. */
  predicate Counts(fs: Fs, extra: nat)
    requires Numbered(fs)
  {
    forall n :: RESERVED < n <= |fs.inodes| ==> CountOk(fs, extra, n)
  }

  /** The data ranges ever given to inode `n`. */
  function OwnRanges(fs: Fs, n: nat): seq<BlockRange>
    requires Numbered(fs) && RESERVED < n <= |fs.inodes|
  {
    assert NumberedInode(fs, n);
    NodeRanges(fs.nodes[fs.origin[n - 11]])
  }

  /** Who holds the ranges of inode `n` now. */
  datatype Holder = LiveNode | Deferred | Deleted

  function HolderOf(fs: Fs, n: nat): Holder
    requires Numbered(fs) && RESERVED < n <= |fs.inodes|
  {
    assert NumberedInode(fs, n);
    if Attached(fs.nodes, fs.origin[n - 11]) then LiveNode
    else if fs.inodes[n - 1].links > 0 then Deferred
    else Deleted
  }

  /** All ranges of the inodes numbered 11 to `upto` that `h` holds. */
  ghost function RangesHeld(fs: Fs, h: Holder, upto: nat): multiset<BlockRange>
    requires Numbered(fs) && RESERVED <= upto <= |fs.inodes|
  {
    if upto == RESERVED then multiset{}
    else RangesHeld(fs, h, upto - 1) + if HolderOf(fs, upto) == h then multiset(OwnRanges(fs, upto)) else multiset{}
  }

  predicate DeferredOk(fs: Fs, n: nat)
    requires Numbered(fs)
  {
    if RESERVED < n <= |fs.inodes| && HolderOf(fs, n) == Deferred && OwnRanges(fs, n) != []
    then n in fs.deferred && fs.deferred[n] == OwnRanges(fs, n)
    else n !in fs.deferred
  }

  /** `deleted_blocks` holds the ranges of freed inodes and nothing else, each
      once; `deferred_blocks` those of inodes that lost their own node but
      still have a name. */
  ghost predicate Ownership(fs: Fs)
    requires Numbered(fs)
  {
    && multiset(fs.deleted) == RangesHeld(fs, Deleted, |fs.inodes|)
    && forall n: nat :: DeferredOk(fs, n)
  }

  ghost predicate Inv(fs: Fs, extra: nat) {
    Numbered(fs) && Kinds(fs) && Counts(fs, extra) && Ownership(fs)
  }

  // ---- Conservation ----

  /** Every range ever allocated is held in exactly one place. */
  lemma {:induction false} RangesPartition(fs: Fs, upto: nat)
    requires Numbered(fs) && RESERVED <= upto <= |fs.inodes|
    ensures AllRanges(fs, upto)
         == RangesHeld(fs, LiveNode, upto) + RangesHeld(fs, Deferred, upto) + RangesHeld(fs, Deleted, upto)
  {
    hide Numbered, OwnRanges, HolderOf;
    if upto > RESERVED {
      RangesPartition(fs, upto - 1);
      match HolderOf(fs, upto) {
        case LiveNode =>
        case Deferred =>
        case Deleted =>
      }
    }
  }

  ghost function AllRanges(fs: Fs, upto: nat): multiset<BlockRange>
    requires Numbered(fs) && RESERVED <= upto <= |fs.inodes|
  {
    if upto == RESERVED then multiset{} else AllRanges(fs, upto - 1) + multiset(OwnRanges(fs, upto))
  }

  /** What `deferred_blocks` holds altogether. */
  ghost function DeferredRanges(deferred: map<nat, seq<BlockRange>>, upto: nat): multiset<BlockRange> {
    if upto == 0 then multiset{}
    else DeferredRanges(deferred, upto - 1) + if upto in deferred then multiset(deferred[upto]) else multiset{}
  }

  lemma {:induction false} DeferredIsHeld(fs: Fs, upto: nat)
    requires Numbered(fs) && Ownership(fs) && RESERVED <= upto <= |fs.inodes|
    ensures DeferredRanges(fs.deferred, upto) == RangesHeld(fs, Deferred, upto)
  {
    assert DeferredOk(fs, upto);
    if upto == RESERVED {
      NothingDeferredBelow(fs, upto);
    } else {
      DeferredIsHeld(fs, upto - 1);
    }
  }

  lemma {:induction false} NothingDeferredBelow(fs: Fs, upto: nat)
    requires Numbered(fs) && Ownership(fs) && upto <= RESERVED
    ensures DeferredRanges(fs.deferred, upto) == multiset{}
  {
    if upto > 0 {
      assert DeferredOk(fs, upto);
      NothingDeferredBelow(fs, upto - 1);
    }
  }

  /** No leak and no double free: the ranges of attached nodes, of
      `deferred_blocks` and of `deleted_blocks` together are exactly the ranges
      ever allocated, each counted once. */
  lemma Conservation(fs: Fs, extra: nat)
    requires Inv(fs, extra)
    ensures AllRanges(fs, |fs.inodes|)
         == RangesHeld(fs, LiveNode, |fs.inodes|) + DeferredRanges(fs.deferred, |fs.inodes|) + multiset(fs.deleted)
  {
    RangesPartition(fs, |fs.inodes|);
    DeferredIsHeld(fs, |fs.inodes|);
  }

  // ---- Detaching one name ----

  /** The parent loses a link when the inode recorded in the node is a directory
      (for a hard link that inode is the root: see README) and has some to spare. */
  function ParentDropped(fs: Fs, v: nat): (inodes: seq<Inode>)
    requires Numbered(fs) && 0 < v < |fs.nodes|
    ensures |inodes| == |fs.inodes|
  {
    var p := fs.nodes[v].parent.value;
    assert p > 0 ==> NumberedNode(fs, p);
    var k := fs.nodes[p].inode - 1;
    if OwnInode(fs, v).IsDir() && fs.inodes[k].links > 2
    then fs.inodes[k := fs.inodes[k].(links := fs.inodes[k].links - 1)]
    else fs.inodes
  }

  /** The inode whose name went away, one link down; freed when none is left. */
  function Dropped(inode: Inode): Inode {
    if inode.links <= 1 then EMPTY_INODE else inode.(links := inode.links - 1)
  }

  /** The ranges set aside for inode `n`, if any. */
  function HeldFor(deferred: map<nat, seq<BlockRange>>, n: nat): seq<BlockRange> {
    if n in deferred then deferred[n] else []
  }

  /** Take one link from inode `t`, whose name held `ranges`. With the last link
      the inode is freed and its ranges are deleted, those set aside earlier
      included; otherwise `ranges` are set aside for it. */
  function DropName(fs: Fs, t: nat, ranges: seq<BlockRange>): (r: Fs)
    requires 0 < t <= |fs.inodes|
    ensures r.nodes == fs.nodes && |r.inodes| == |fs.inodes| && r.origin == fs.origin
  {
    var left := Dropped(fs.inodes[t - 1]);
    var held := HeldFor(fs.deferred, t);
    var inodes := fs.inodes[t - 1 := left];
    if left.links == 0
    then fs.(inodes := inodes, deleted := fs.deleted + ranges + held, deferred := fs.deferred - {t})
    else fs.(inodes := inodes, deferred := if ranges == [] then fs.deferred else fs.deferred[t := held + ranges])
  }

  /** `unlink` of node `v` once nothing is left below it. */
  function Detach(fs: Fs, v: nat): (r: Fs)
    requires Numbered(fs) && 0 < v < |fs.nodes|
    ensures |r.nodes| == |fs.nodes| && |r.inodes| == |fs.inodes| && r.origin == fs.origin
  {
    assert NumberedNode(fs, v);
    var p := fs.nodes[v].parent.value;
    assert KidsOk(fs.nodes, p);
    DropName(fs.(nodes := WithoutChild(fs.nodes, p, fs.nodes[v].name), inodes := ParentDropped(fs, v)),
             Target(fs.nodes[v]), NodeRanges(fs.nodes[v]))
  }

  /** What `unlink` may do to one inode: nothing, lower its count, or free it. */
  predicate InodeStep(a: Inode, b: Inode) {
    || (b == a.(links := b.links) && b.links <= a.links && (b.links > 0 || b == a))
    || (b == EMPTY_INODE && !a.IsDir())
  }

  /** Node `v` is listed by its parent and has nothing below it. */
  predicate Removable(fs: Fs, v: nat)
    requires Numbered(fs)
  {
    0 < v < |fs.nodes| && Attached(fs.nodes, v) && fs.nodes[v].children == []
  }

  // The tree after detaching.

  lemma DetachTree(nodes: Nodes, v: nat)
    requires WellFormed(nodes) && UniqueNames(nodes) && 0 < v < |nodes| && Attached(nodes, v)
    ensures var p := nodes[v].parent.value;
      && InRange(nodes, nodes[p].children)
      && var nodes' := WithoutChild(nodes, p, nodes[v].name);
         && WellFormed(nodes') && UniqueNames(nodes')
         && (forall x :: x in nodes'[p].children <==> x in nodes[p].children && x != v)
  {
    var p, name := nodes[v].parent.value, nodes[v].name;
    DetachFirst(nodes, v);
    var nodes' := WithoutChild(nodes, p, name);
    hide *;
    RemoveKeepsWellFormed(nodes, p, name);
    DropKids(nodes, p, name);
    DropFirstMembers(nodes, nodes[p].children, name, v);
    DroppedUnique(nodes, nodes', p);
  }

  lemma DetachFirst(nodes: Nodes, v: nat)
    requires WellFormed(nodes) && UniqueNames(nodes) && 0 < v < |nodes| && Attached(nodes, v)
    ensures var p := nodes[v].parent.value;
      && p < |nodes| && InRange(nodes, nodes[p].children) && Distinct(nodes[p].children)
      && FirstNamed(nodes, nodes[p].children, nodes[v].name) == Some(v)
  {
    var p := nodes[v].parent.value;
    assert KidsOk(nodes, p) && KidsUnique(nodes, p);
    FirstUnique(nodes, p, v);
  }

  lemma DropKids(nodes: Nodes, p: nat, name: Name)
    requires p < |nodes| && InRange(nodes, nodes[p].children)
    ensures var nodes' := WithoutChild(nodes, p, name);
      && |nodes'| == |nodes| && nodes'[p].children == DropFirst(nodes, nodes[p].children, name)
      && (forall q :: 0 <= q < |nodes| && q != p ==> nodes'[q] == nodes[q])
      && (forall q :: 0 <= q < |nodes| ==> nodes'[q].name == nodes[q].name)
  {
  }

  lemma DroppedUnique(nodes: Nodes, nodes': Nodes, p: nat)
    requires WellFormed(nodes) && UniqueNames(nodes) && WellFormed(nodes') && |nodes| == |nodes'| && p < |nodes|
    requires forall q :: 0 <= q < |nodes| && q != p ==> nodes'[q] == nodes[q]
    requires forall q :: 0 <= q < |nodes| ==> nodes'[q].name == nodes[q].name
    requires forall x :: x in nodes'[p].children ==> x in nodes[p].children
    ensures UniqueNames(nodes')
  {
    forall q | 0 <= q < |nodes'| ensures KidsUnique(nodes', q) {
      assert KidsUnique(nodes, q) && KidsOk(nodes, q) && KidsOk(nodes', q);
      if q == p {
        SublistUnique(nodes, nodes', p);
      }
    }
  }

  lemma SublistUnique(nodes: Nodes, nodes': Nodes, p: nat)
    requires WellFormed(nodes) && WellFormed(nodes') && |nodes| == |nodes'| && p < |nodes| && KidsUnique(nodes, p)
    requires forall i :: 0 <= i < |nodes| ==> nodes[i].name == nodes'[i].name
    requires forall x :: x in nodes'[p].children ==> x in nodes[p].children
    ensures KidsUnique(nodes', p)
  {
    assert KidsOk(nodes, p) && KidsOk(nodes', p);
    var a, b := nodes[p].children, nodes'[p].children;
    forall j, k | 0 <= j < k < |b| ensures nodes'[b[j]].name != nodes'[b[k]].name {
      assert b[j] in b && b[k] in b;
      var j' :| 0 <= j' < |a| && a[j'] == b[j];
      var k' :| 0 <= k' < |a| && a[k'] == b[k];
      assert j' != k';
    }
  }

  /** Only `v` stops being attached: nothing hung below it. */
  lemma {:induction false} DetachAttached(nodes: Nodes, nodes': Nodes, v: nat, i: nat)
    requires WellFormed(nodes) && WellFormed(nodes') && |nodes| == |nodes'| && 0 < v < |nodes| && i < |nodes|
    requires nodes[v].children == []
    requires forall k :: 0 <= k < |nodes| ==> nodes[k].parent == nodes'[k].parent
    requires forall k, x :: 0 <= k < |nodes| ==> (x in nodes'[k].children <==> x in nodes[k].children && x != v)
    ensures Attached(nodes', i) == (Attached(nodes, i) && i != v)
    decreases i
  {
    if i > 0 {
      DetachAttached(nodes, nodes', v, nodes[i].parent.value);
    }
  }

  /** The nodes after detaching: one child list is shorter, nothing else. */
  ghost predicate NodesWithout(nodes: Nodes, nodes': Nodes, v: nat)
    requires WellFormed(nodes) && 0 < v < |nodes|
  {
    && WellFormed(nodes') && UniqueNames(nodes') && |nodes'| == |nodes|
    && (forall k :: 0 <= k < |nodes| ==> nodes'[k] == nodes[k].(children := nodes'[k].children))
    && (forall k :: 0 <= k < |nodes| && k != nodes[v].parent.value ==> nodes'[k].children == nodes[k].children)
    && (forall k, x :: 0 <= k < |nodes| ==> (x in nodes'[k].children <==> x in nodes[k].children && x != v))
    && (forall i :: 0 <= i < |nodes| ==> (Attached(nodes', i) <==> Attached(nodes, i) && i != v))
  }

  lemma DetachShape(fs: Fs, v: nat)
    requires Numbered(fs) && Removable(fs, v)
    ensures NodesWithout(fs.nodes, Detach(fs, v).nodes, v)
  {
    var nodes, nodes' := fs.nodes, Detach(fs, v).nodes;
    DetachTree(nodes, v);
    forall k, x | 0 <= k < |nodes| ensures x in nodes'[k].children <==> x in nodes[k].children && x != v {
      assert KidsOk(nodes, k);
    }
    forall i | 0 <= i < |nodes| ensures Attached(nodes', i) <==> Attached(nodes, i) && i != v {
      DetachAttached(nodes, nodes', v, i);
    }
  }

  lemma DetachNode(fs: Fs, v: nat, i: nat)
    requires Numbered(fs) && Removable(fs, v) && i < |fs.nodes|
    ensures var nodes' := Detach(fs, v).nodes;
      && WellFormed(nodes') && nodes'[i] == fs.nodes[i].(children := nodes'[i].children)
      && (Attached(nodes', i) <==> Attached(fs.nodes, i) && i != v)
  {
    DetachShape(fs, v);
  }

  lemma DetachNumbered(fs: Fs, v: nat)
    requires Numbered(fs) && Removable(fs, v)
    ensures Numbered(Detach(fs, v))
  {
    hide Detach;
    DetachShape(fs, v);
    var fs' := Detach(fs, v);
    forall i | 0 < i < |fs'.nodes| ensures NumberedNode(fs', i) {
      assert NumberedNode(fs, i);
    }
    forall n | RESERVED < n <= |fs'.inodes| ensures NumberedInode(fs', n) {
      assert NumberedInode(fs, n);
    }
  }

  lemma DetachNames(fs: Fs, v: nat, n: nat)
    requires Numbered(fs) && Removable(fs, v)
    ensures WellFormed(Detach(fs, v).nodes)
    ensures Names(Detach(fs, v).nodes, n) == Names(fs.nodes, n) - {v}
    ensures v in Names(fs.nodes, n) <==> n == Target(fs.nodes[v])
    ensures |Names(Detach(fs, v).nodes, n)| == |Names(fs.nodes, n)| - if n == Target(fs.nodes[v]) then 1 else 0
  {
    hide Detach;
    DetachShape(fs, v);
    assert Names(Detach(fs, v).nodes, n) == Names(fs.nodes, n) - {v};
  }

  /** The inode a detach charges is not the parent's, and it has a count to
      give up: a directory in its own node at least two. */
  lemma DetachTarget(fs: Fs, extra: nat, v: nat)
    requires Numbered(fs) && Kinds(fs) && Counts(fs, extra) && Removable(fs, v)
    ensures var t, p := Target(fs.nodes[v]), fs.nodes[v].parent.value;
      && RESERVED < t <= |fs.inodes| && t != fs.nodes[p].inode
      && OwnInode(fs, p).IsDir() && OwnInode(fs, p).links >= 2
      && fs.inodes[t - 1].links >= (if fs.inodes[t - 1].IsDir() then 2 else 1)
      && (fs.inodes[t - 1].IsDir() ==> fs.nodes[v].link == None)
      && (t == extra && !fs.inodes[t - 1].IsDir() ==> fs.inodes[t - 1].links >= 2)
  {
    var t, p := Target(fs.nodes[v]), fs.nodes[v].parent.value;
    assert NumberedNode(fs, v) && KindOk(fs, v) && KindOk(fs, p);
    assert p > 0 ==> NumberedNode(fs, p);
    assert CountOk(fs, extra, t) && NumberedInode(fs, t);
    if !fs.inodes[t - 1].IsDir() {
      assert v in Names(fs.nodes, t);
    }
    if RESERVED < fs.nodes[p].inode {
      assert CountOk(fs, extra, fs.nodes[p].inode);
    }
  }

  /** The inodes after a detach, one by one. */
  lemma DetachInodes(fs: Fs, extra: nat, v: nat, n: nat)
    requires Numbered(fs) && Kinds(fs) && Counts(fs, extra) && Removable(fs, v) && 0 < n <= |fs.inodes|
    ensures var t, p, a, b := Target(fs.nodes[v]), fs.nodes[v].parent.value, fs.inodes[n - 1], Detach(fs, v).inodes[n - 1];
      && InodeStep(a, b)
      && (n == t ==> b == Dropped(a))
      && (n != t && n != fs.nodes[p].inode ==> b == a)
      && (n == fs.nodes[p].inode ==>
          && b.links >= 2 && b == a.(links := b.links)
          && b.links == if OwnInode(fs, v).IsDir() && a.links > 2 then a.links - 1 else a.links)
  {
    DetachTarget(fs, extra, v);
  }

  lemma DetachKinds(fs: Fs, extra: nat, v: nat)
    requires Numbered(fs) && Kinds(fs) && Counts(fs, extra) && Removable(fs, v)
    ensures Numbered(Detach(fs, v)) && Kinds(Detach(fs, v))
  {
    hide Detach, Dropped;
    DetachNumbered(fs, v);
    DetachShape(fs, v);
    var fs' := Detach(fs, v);
    DetachRoot(fs, extra, v);
    forall i | 0 <= i < |fs'.nodes| ensures KindOk(fs', i) {
      DetachKind(fs, extra, v, i);
    }
  }

  lemma DetachRoot(fs: Fs, extra: nat, v: nat)
    requires Numbered(fs) && Kinds(fs) && Counts(fs, extra) && Removable(fs, v)
    ensures |Detach(fs, v).inodes| == |fs.inodes|
    ensures Detach(fs, v).inodes[ROOT_INODE - 1].IsDir() && Detach(fs, v).inodes[ROOT_INODE - 1].links >= 2
  {
    DetachTarget(fs, extra, v);
    DetachInodes(fs, extra, v, ROOT_INODE);
  }

  lemma DetachKind(fs: Fs, extra: nat, v: nat, i: nat)
    requires Numbered(fs) && Kinds(fs) && Counts(fs, extra) && Removable(fs, v)
    requires Numbered(Detach(fs, v)) && i < |fs.nodes|
    ensures |Detach(fs, v).nodes| == |fs.nodes| && KindOk(Detach(fs, v), i)
  {
    hide Detach, Dropped;
    DetachShape(fs, v);
    var fs' := Detach(fs, v);
    assert KindOk(fs, i);
    assert i > 0 ==> NumberedNode(fs, i);
    DetachRoot(fs, extra, v);
    DetachInodes(fs, extra, v, fs.nodes[i].inode);
    DetachInodes(fs, extra, v, Target(fs.nodes[i]));
    if fs'.nodes[i].children != [] {
      assert fs'.nodes[i].children[0] in fs'.nodes[i].children;
      assert fs.nodes[i].children != [];
      DetachTarget(fs, extra, v);
    }
  }

  lemma DetachCounts(fs: Fs, extra: nat, v: nat)
    requires Numbered(fs) && Kinds(fs) && Counts(fs, extra) && Removable(fs, v)
    ensures Numbered(Detach(fs, v)) && Counts(Detach(fs, v), extra)
  {
    hide Detach, Dropped;
    DetachNumbered(fs, v);
    DetachRoot(fs, extra, v);
    var fs' := Detach(fs, v);
    forall n | RESERVED < n <= |fs'.inodes| ensures CountOk(fs', extra, n) {
      DetachCount(fs, extra, v, n);
    }
  }

  lemma DetachCount(fs: Fs, extra: nat, v: nat, n: nat)
    requires Numbered(fs) && Kinds(fs) && Counts(fs, extra) && Removable(fs, v)
    requires Numbered(Detach(fs, v)) && RESERVED < n <= |fs.inodes|
    ensures CountOk(Detach(fs, v), extra, n)
  {
    hide Detach, Names, Attached, WellFormed, UniqueNames, Kinds, KindOk;
    DetachTarget(fs, extra, v);
    DetachInodes(fs, extra, v, n);
    DetachNames(fs, v, n);
    var fs' := Detach(fs, v);
    assert CountOk(fs, extra, n) && NumberedInode(fs, n) && NumberedInode(fs', n);
    assert fs'.inodes[n - 1].IsDir() ==> fs.inodes[n - 1].IsDir();
    if fs.inodes[n - 1].IsDir() {
      DetachShape(fs, v);
      assert NumberedNode(fs, v);
    }
  }

  // Ownership after detaching.

  /** Detaching a name moves at most the ranges of the inode it stood for. */
  lemma DetachHolder(fs: Fs, extra: nat, v: nat, n: nat)
    requires Numbered(fs) && Kinds(fs) && Counts(fs, extra) && Removable(fs, v)
    requires Numbered(Detach(fs, v)) && RESERVED < n <= |fs.inodes|
    ensures OwnRanges(Detach(fs, v), n) == OwnRanges(fs, n)
    ensures n != Target(fs.nodes[v]) ==> HolderOf(Detach(fs, v), n) == HolderOf(fs, n)
  {
    hide Detach, Names, Attached, WellFormed, UniqueNames, Kinds, KindOk, Counts;
    var fs' := Detach(fs, v);
    assert NumberedInode(fs, n) && NumberedInode(fs', n) && NumberedNode(fs, v);
    DetachShape(fs, v);
    DetachInodes(fs, extra, v, n);
    DetachTarget(fs, extra, v);
  }

  /** What the invariant says of one inode. */
  lemma InvAt(fs: Fs, extra: nat, n: nat)
    requires Inv(fs, extra) && RESERVED < n <= |fs.inodes|
    ensures NumberedInode(fs, n) && CountOk(fs, extra, n) && DeferredOk(fs, n)
  {
  }

  /** While its own node is attached, an inode has a count. */
  lemma AttachedHasLinks(fs: Fs, extra: nat, n: nat)
    requires Numbered(fs) && RESERVED < n <= |fs.inodes| && CountOk(fs, extra, n)
    requires HolderOf(fs, n) == LiveNode
    ensures fs.inodes[n - 1].links > 0
  {
    assert NumberedInode(fs, n);
    assert fs.inodes[n - 1].IsDir() || fs.origin[n - 11] in Names(fs.nodes, n);
  }

  /** A name's own node is that of its inode exactly when it is no hard link. */
  lemma OwnNode(fs: Fs, v: nat)
    requires Numbered(fs) && 0 < v < |fs.nodes|
    ensures var t := Target(fs.nodes[v]);
      && RESERVED < t <= |fs.inodes| && NumberedInode(fs, t)
      && (fs.nodes[v].link == None <==> fs.origin[t - 11] == v)
      && (fs.nodes[v].link.Some? ==> NodeRanges(fs.nodes[v]) == [])
      && (fs.nodes[v].link == None ==> NodeRanges(fs.nodes[v]) == OwnRanges(fs, t))
  {
    assert NumberedNode(fs, v);
    assert NumberedInode(fs, Target(fs.nodes[v]));
  }

  /** The holder of the ranges before and after the name goes. */
  lemma DetachTargetHolder(fs: Fs, extra: nat, v: nat)
    requires Inv(fs, extra) && Removable(fs, v) && Numbered(Detach(fs, v))
    ensures var t, fs' := Target(fs.nodes[v]), Detach(fs, v);
      && RESERVED < t <= |fs.inodes|
      && HolderOf(fs, t) != Deleted
      && (HolderOf(fs', t) == LiveNode <==> HolderOf(fs, t) == LiveNode && fs.nodes[v].link.Some?)
      && (HolderOf(fs', t) == Deleted <==> fs'.inodes[t - 1].links == 0)
  {
    hide Detach, RangesHeld, Attached, KindOk, CountOk, Names, NodeRanges, DeferredOk, OwnRanges, KidsOk, KidsUnique, NumberedNode;
    OwnNode(fs, v);
    var t, fs' := Target(fs.nodes[v]), Detach(fs, v);
    DetachTarget(fs, extra, v);
    DetachNode(fs, v, fs.origin[t - 11]);
    DetachCount(fs, extra, v, t);
    if HolderOf(fs', t) == LiveNode {
      AttachedHasLinks(fs', extra, t);
    }
  }

  /** Whatever the detached name was, its inode's ranges are either in the node
      itself or already deferred, never both. */
  lemma DetachSources(fs: Fs, extra: nat, v: nat)
    requires Inv(fs, extra) && Removable(fs, v) && Numbered(Detach(fs, v))
    ensures var t, fs' := Target(fs.nodes[v]), Detach(fs, v);
      && RESERVED < t <= |fs.inodes|
      && HolderOf(fs, t) != Deleted
      && (HolderOf(fs', t) == LiveNode ==> NodeRanges(fs.nodes[v]) == [] && HeldFor(fs.deferred, t) == [])
      && (HolderOf(fs', t) != LiveNode ==>
          && HeldFor(fs.deferred, t) + NodeRanges(fs.nodes[v]) == OwnRanges(fs, t)
          && NodeRanges(fs.nodes[v]) + HeldFor(fs.deferred, t) == OwnRanges(fs, t))
      && (HolderOf(fs', t) == Deleted <==> fs'.inodes[t - 1].links == 0)
  {
    hide *;
    RemovableIs(fs, extra, v);
    OwnNode(fs, v);
    InvAt(fs, extra, Target(fs.nodes[v]));
    DetachTargetHolder(fs, extra, v);
    var t := Target(fs.nodes[v]);
    OwnNodeHolds(fs, v);
    HeldIs(fs, t);
  }

  lemma RemovableIs(fs: Fs, extra: nat, v: nat)
    requires Inv(fs, extra) && Removable(fs, v)
    ensures Numbered(fs) && 0 < v < |fs.nodes|
  {
  }

  /** An attached own node means its inode's ranges are held by it. */
  lemma OwnNodeHolds(fs: Fs, v: nat)
    requires Numbered(fs) && Removable(fs, v) && RESERVED < Target(fs.nodes[v]) <= |fs.inodes|
    ensures fs.nodes[v].link == None ==> HolderOf(fs, Target(fs.nodes[v])) == LiveNode
  {
    OwnNode(fs, v);
  }

  lemma HeldIs(fs: Fs, n: nat)
    requires Numbered(fs) && RESERVED < n <= |fs.inodes| && DeferredOk(fs, n)
    ensures HeldFor(fs.deferred, n) == if HolderOf(fs, n) == Deferred then OwnRanges(fs, n) else []
  {
  }

  lemma {:induction false} HeldAfterDetach(fs: Fs, extra: nat, v: nat, upto: nat)
    requires Inv(fs, extra) && Removable(fs, v) && Numbered(Detach(fs, v)) && RESERVED <= upto <= |fs.inodes|
    ensures var t, fs' := Target(fs.nodes[v]), Detach(fs, v);
      && RESERVED < t <= |fs.inodes|
      && RangesHeld(fs', Deleted, upto) == RangesHeld(fs, Deleted, upto)
           + if t <= upto && HolderOf(fs', t) == Deleted then multiset(OwnRanges(fs, t)) else multiset{}
  {
    hide Detach, WellFormed, UniqueNames, Attached, Names, HolderOf, OwnRanges, Numbered, Kinds, Counts, Ownership;
    DetachSources(fs, extra, v);
    if upto > RESERVED {
      HeldAfterDetach(fs, extra, v, upto - 1);
      DetachHolder(fs, extra, v, upto);
    }
  }

  lemma DetachOwnership(fs: Fs, extra: nat, v: nat)
    requires Inv(fs, extra) && Removable(fs, v)
    ensures Numbered(Detach(fs, v)) && Ownership(Detach(fs, v))
  {
    hide WellFormed, UniqueNames, Attached, Names, HolderOf, OwnRanges;
    DetachNumbered(fs, v);
    DetachSources(fs, extra, v);
    HeldAfterDetach(fs, extra, v, |fs.inodes|);
    var fs' := Detach(fs, v);
    forall n: nat ensures DeferredOk(fs', n) {
      DetachDeferred(fs, extra, v, n);
    }
  }

  lemma DetachDeferred(fs: Fs, extra: nat, v: nat, n: nat)
    requires Inv(fs, extra) && Removable(fs, v) && Numbered(Detach(fs, v))
    ensures DeferredOk(Detach(fs, v), n)
  {
    hide WellFormed, UniqueNames, Attached, Names, HolderOf, OwnRanges, RangesHeld;
    DetachSources(fs, extra, v);
    assert DeferredOk(fs, n);
    if RESERVED < n <= |fs.inodes| {
      DetachHolder(fs, extra, v, n);
    }
  }

  /** Removing one name keeps all of it. */
  lemma DetachKeeps(fs: Fs, extra: nat, v: nat)
    requires Inv(fs, extra) && Removable(fs, v)
    ensures Inv(Detach(fs, v), extra)
  {
    DetachKinds(fs, extra, v);
    DetachCounts(fs, extra, v);
    DetachOwnership(fs, extra, v);
  }

  // ---- Adding one name ----

  /** Node `p` is attached, its inode is a directory, and no child has `name`. */
  predicate FreeSlot(fs: Fs, p: nat, name: Name)
    requires Numbered(fs)
  {
    && p < |fs.nodes| && Attached(fs.nodes, p) && OwnInode(fs, p).IsDir()
    && (assert KidsOk(fs.nodes, p); FirstNamed(fs.nodes, fs.nodes[p].children, name) == None)
  }

  lemma {:induction false} AddAttached(nodes: Nodes, p: nat, node: Node, i: nat)
    requires WellFormed(nodes) && p < |nodes| && i < |nodes| && WellFormed(WithChild(nodes, p, node))
    ensures Attached(WithChild(nodes, p, node), i) == Attached(nodes, i)
    decreases i
  {
    if i > 0 {
      var q := nodes[i].parent.value;
      AddAttached(nodes, p, node, q);
      assert KidsOk(nodes, q);
    }
  }

  lemma AddUniqueAt(nodes: Nodes, p: nat, node: Node)
    requires WellFormed(nodes) && p < |nodes| && KidsUnique(nodes, p) && InRange(nodes, nodes[p].children)
    requires FirstNamed(nodes, nodes[p].children, node.name) == None
    requires WellFormed(WithChild(nodes, p, node))
    ensures KidsUnique(WithChild(nodes, p, node), p)
  {
    hide WellFormed;
    var nodes', kids := WithChild(nodes, p, node), nodes[p].children;
    FirstIsKid(nodes, kids, node.name);
    var kids' := nodes'[p].children;
    forall j, k | 0 <= j < k < |kids'| ensures nodes'[kids'[j]].name != nodes'[kids'[k]].name {
      assert kids'[j] == kids[j];
      assert nodes'[kids[j]].name == nodes[kids[j]].name;
    }
  }

  lemma AddUnique(nodes: Nodes, p: nat, node: Node)
    requires WellFormed(nodes) && UniqueNames(nodes) && p < |nodes| && node.children == []
    requires InRange(nodes, nodes[p].children) && FirstNamed(nodes, nodes[p].children, node.name) == None
    requires WellFormed(WithChild(nodes, p, node))
    ensures UniqueNames(WithChild(nodes, p, node))
  {
    var nodes' := WithChild(nodes, p, node);
    forall q | 0 <= q < |nodes'| ensures KidsUnique(nodes', q) {
      if q == p {
        assert KidsUnique(nodes, p);
        AddUniqueAt(nodes, p, node);
      } else if q < |nodes| {
        assert KidsUnique(nodes, q) && KidsOk(nodes, q);
        assert nodes'[q] == nodes[q];
      }
    }
  }

  lemma AddShape(fs: Fs, p: nat, node: Node)
    requires Numbered(fs) && FreeSlot(fs, p, node.name) && node.children == []
    ensures var nodes' := WithChild(fs.nodes, p, node);
      && WellFormed(nodes') && UniqueNames(nodes')
      && Attached(nodes', |fs.nodes|)
      && forall i :: 0 <= i < |fs.nodes| ==> (Attached(nodes', i) <==> Attached(fs.nodes, i))
  {
    var nodes' := WithChild(fs.nodes, p, node);
    AddKeepsWellFormed(fs.nodes, p, node);
    assert KidsOk(fs.nodes, p);
    AddUnique(fs.nodes, p, node);
    forall i | 0 <= i < |fs.nodes| ensures Attached(nodes', i) <==> Attached(fs.nodes, i) {
      AddAttached(fs.nodes, p, node, i);
    }
    assert |fs.nodes| in nodes'[p].children;
  }

  lemma SlotParent(fs: Fs, p: nat, name: Name)
    requires Numbered(fs) && FreeSlot(fs, p, name)
    ensures WellFormed(fs.nodes) && p < |fs.nodes|
  {
  }

  lemma AddNames(fs: Fs, p: nat, node: Node, n: nat)
    requires Numbered(fs) && FreeSlot(fs, p, node.name) && node.children == []
    ensures WellFormed(WithChild(fs.nodes, p, node))
    ensures |Names(WithChild(fs.nodes, p, node), n)| == |Names(fs.nodes, n)| + if n == Target(node) then 1 else 0
  {
    hide *;
    AddShape(fs, p, node);
    SlotParent(fs, p, node.name);
    var nodes', v := WithChild(fs.nodes, p, node), |fs.nodes|;
    forall i: nat ensures i in Names(nodes', n) <==> i in Names(fs.nodes, n) || (n == Target(node) && i == v) {
      IsName(nodes', n, i);
      IsName(fs.nodes, n, i);
      if i <= v {
        AddTargets(fs.nodes, p, node, i);
      }
    }
    IsName(fs.nodes, n, v);
    OneMore(Names(fs.nodes, n), Names(nodes', n), v, n == Target(node));
  }

  lemma AddTargets(nodes: Nodes, p: nat, node: Node, i: nat)
    requires 0 < |nodes| && p < |nodes| && i <= |nodes|
    ensures Target(WithChild(nodes, p, node)[i]) == if i < |nodes| then Target(nodes[i]) else Target(node)
  {
  }

  lemma OneMore(a: set<nat>, b: set<nat>, v: nat, more: bool)
    requires v !in a && forall i :: i in b <==> i in a || (more && i == v)
    ensures |b| == |a| + if more then 1 else 0
  {
    assert b == if more then a + {v} else a;
  }

  lemma IsName(nodes: Nodes, n: nat, i: nat)
    requires WellFormed(nodes)
    ensures i in Names(nodes, n) <==> 0 < i < |nodes| && Attached(nodes, i) && Target(nodes[i]) == n
  {
  }

  /** The node `create` adds. */
  function NewNode(inode: nat, name: Name, blocks: Option<BlockRange>): Node {
    Node(inode, name, [], None, blocks, [], None)
  }

  /** The node `link` adds: its own number is the root's, as a placeholder. */
  function LinkNode(name: Name, target: nat): Node {
    Node(ROOT_INODE, name, [], None, None, [], Some(target))
  }

  /** `create`'s last step: a new inode under a new name; a directory also
      raises its parent's count. */
  function Attach(fs: Fs, p: nat, name: Name, inode: Inode, blocks: Option<BlockRange>): (r: Fs)
    requires Numbered(fs) && p < |fs.nodes|
    ensures |r.nodes| == |fs.nodes| + 1 && |r.inodes| == |fs.inodes| + 1 && r.origin == fs.origin + [|fs.nodes|]
    ensures r.inodes[|fs.inodes|] == inode && r.deleted == fs.deleted && r.deferred == fs.deferred
  {
    assert p > 0 ==> NumberedNode(fs, p);
    var k := fs.nodes[p].inode - 1;
    var inodes := if inode.IsDir() then fs.inodes[k := fs.inodes[k].(links := fs.inodes[k].links + 1)] else fs.inodes;
    fs.(nodes := WithChild(fs.nodes, p, NewNode(|fs.inodes| + 1, name, blocks)),
        inodes := inodes + [inode],
        origin := fs.origin + [|fs.nodes|])
  }

  /** `link`'s last step. */
  function AddLink(fs: Fs, p: nat, name: Name, target: nat): Fs
    requires p < |fs.nodes|
  {
    fs.(nodes := WithChild(fs.nodes, p, LinkNode(name, target)))
  }

  lemma AttachNumbered(fs: Fs, p: nat, name: Name, inode: Inode, blocks: Option<BlockRange>)
    requires Numbered(fs) && FreeSlot(fs, p, name)
    ensures Numbered(Attach(fs, p, name, inode, blocks))
  {
    hide WellFormed, UniqueNames, NodeRanges, Attached;
    AddShape(fs, p, NewNode(|fs.inodes| + 1, name, blocks));
    var fs' := Attach(fs, p, name, inode, blocks);
    forall i | 0 < i < |fs'.nodes| ensures NumberedNode(fs', i) {
      if i < |fs.nodes| {
        SameNumbers(fs, fs', i);
      }
    }
    forall n | RESERVED < n <= |fs'.inodes| ensures NumberedInode(fs', n) {
      if n <= |fs.inodes| {
        assert NumberedInode(fs, n);
      }
    }
    SameRanges(fs.nodes[0], fs'.nodes[0]);
  }

  lemma SameRanges(a: Node, b: Node)
    requires a.blocks == b.blocks && a.additional == b.additional
    ensures NodeRanges(a) == NodeRanges(b)
  {
  }

  lemma SameNumbers(fs: Fs, fs': Fs, i: nat)
    requires 0 < i < |fs.nodes| <= |fs'.nodes| && NumberedNode(fs, i)
    requires fs'.nodes[i] == fs.nodes[i].(children := fs'.nodes[i].children)
    requires |fs.inodes| <= |fs'.inodes| && fs.origin <= fs'.origin
    ensures NumberedNode(fs', i)
  {
  }

  lemma AttachInode(fs: Fs, p: nat, name: Name, inode: Inode, blocks: Option<BlockRange>, n: nat)
    requires Numbered(fs) && FreeSlot(fs, p, name) && 0 < n <= |fs.inodes|
    ensures var a, b := fs.inodes[n - 1], Attach(fs, p, name, inode, blocks).inodes[n - 1];
      && (b == a || (a.IsDir() && b == a.(links := a.links + 1)))
  {
    assert p > 0 ==> NumberedNode(fs, p);
  }

  lemma AttachKinds(fs: Fs, p: nat, name: Name, inode: Inode, blocks: Option<BlockRange>)
    requires Numbered(fs) && Kinds(fs) && FreeSlot(fs, p, name)
    ensures Numbered(Attach(fs, p, name, inode, blocks)) && Kinds(Attach(fs, p, name, inode, blocks))
  {
    AttachNumbered(fs, p, name, inode, blocks);
    AddShape(fs, p, NewNode(|fs.inodes| + 1, name, blocks));
    AttachInode(fs, p, name, inode, blocks, ROOT_INODE);
    var fs' := Attach(fs, p, name, inode, blocks);
    forall i | 0 <= i < |fs'.nodes| ensures KindOk(fs', i) {
      AttachKind(fs, p, name, inode, blocks, i);
    }
  }

  lemma AttachSameKinds(fs: Fs, p: nat, name: Name, inode: Inode, blocks: Option<BlockRange>, i: nat)
    requires Numbered(fs) && FreeSlot(fs, p, name)
    requires Numbered(Attach(fs, p, name, inode, blocks)) && i < |fs.nodes|
    ensures var fs' := Attach(fs, p, name, inode, blocks);
      && fs'.nodes[i] == fs.nodes[i].(children := fs'.nodes[i].children)
      && (i != p ==> fs'.nodes[i].children == fs.nodes[i].children)
      && OwnInode(fs', i).IsDir() == OwnInode(fs, i).IsDir()
      && TargetInode(fs', i).IsDir() == TargetInode(fs, i).IsDir()
  {
    hide UniqueNames, WellFormed, Attached, FreeSlot, IsDirMode;
    assert i > 0 ==> NumberedNode(fs, i);
    AttachInode(fs, p, name, inode, blocks, fs.nodes[i].inode);
    AttachInode(fs, p, name, inode, blocks, Target(fs.nodes[i]));
  }

  lemma AttachKind(fs: Fs, p: nat, name: Name, inode: Inode, blocks: Option<BlockRange>, i: nat)
    requires Numbered(fs) && Kinds(fs) && FreeSlot(fs, p, name)
    requires Numbered(Attach(fs, p, name, inode, blocks)) && i <= |fs.nodes|
    ensures KindOk(Attach(fs, p, name, inode, blocks), i)
  {
    hide UniqueNames, WellFormed, Attached, Numbered, OwnInode, TargetInode;
    AddShape(fs, p, NewNode(|fs.inodes| + 1, name, blocks));
    if i < |fs.nodes| {
      assert KindOk(fs, i);
      AttachSameKinds(fs, p, name, inode, blocks, i);
    }
  }

  /** A file starts with one link, a directory with two. */
  predicate FreshCount(inode: Inode) {
    inode.links == if inode.IsDir() then 2 else 1
  }

  lemma AttachCount(fs: Fs, p: nat, name: Name, inode: Inode, blocks: Option<BlockRange>, n: nat)
    requires Numbered(fs) && Counts(fs, 0) && FreeSlot(fs, p, name) && FreshCount(inode)
    requires Numbered(Attach(fs, p, name, inode, blocks)) && RESERVED < n <= |fs.inodes| + 1
    ensures CountOk(Attach(fs, p, name, inode, blocks), 0, n)
  {
    hide UniqueNames, WellFormed, Attached, Names, WithChild;
    var node := NewNode(|fs.inodes| + 1, name, blocks);
    AddShape(fs, p, node);
    AddNames(fs, p, node, n);
    if n <= |fs.inodes| {
      assert CountOk(fs, 0, n) && NumberedInode(fs, n);
      AttachInode(fs, p, name, inode, blocks, n);
    } else {
      NoNamesYet(fs, n);
    }
  }

  lemma NoNamesYet(fs: Fs, n: nat)
    requires Numbered(fs) && n > |fs.inodes|
    ensures Names(fs.nodes, n) == {}
  {
    forall i | 0 < i < |fs.nodes| ensures Target(fs.nodes[i]) <= |fs.inodes| {
      assert NumberedNode(fs, i);
    }
  }

  /** Inode `n` keeps its ranges and who holds them. */
  predicate SameHolding(fs: Fs, fs': Fs, n: nat)
    requires Numbered(fs) && Numbered(fs') && RESERVED < n <= |fs.inodes| && n <= |fs'.inodes|
  {
    OwnRanges(fs', n) == OwnRanges(fs, n) && HolderOf(fs', n) == HolderOf(fs, n)
  }

  lemma {:induction false} HeldSame(fs: Fs, fs': Fs, h: Holder, upto: nat)
    requires Numbered(fs) && Numbered(fs') && RESERVED <= upto <= |fs.inodes| <= |fs'.inodes|
    requires forall n :: RESERVED < n <= upto ==> SameHolding(fs, fs', n)
    ensures RangesHeld(fs', h, upto) == RangesHeld(fs, h, upto)
  {
    hide Numbered, OwnRanges, HolderOf;
    if upto > RESERVED {
      HeldSame(fs, fs', h, upto - 1);
      assert SameHolding(fs, fs', upto);
    }
  }

  lemma AttachHolder(fs: Fs, p: nat, name: Name, inode: Inode, blocks: Option<BlockRange>, n: nat)
    requires Numbered(fs) && FreeSlot(fs, p, name)
    requires Numbered(Attach(fs, p, name, inode, blocks)) && RESERVED < n <= |fs.inodes|
    requires CountOk(fs, 0, n)
    ensures SameHolding(fs, Attach(fs, p, name, inode, blocks), n)
  {
    hide UniqueNames, WellFormed, Attached, OwnInode, TargetInode, IsDirMode;
    var fs' := Attach(fs, p, name, inode, blocks);
    assert NumberedInode(fs, n) && NumberedInode(fs', n);
    AddShape(fs, p, NewNode(|fs.inodes| + 1, name, blocks));
    AttachInode(fs, p, name, inode, blocks, n);
    SameRanges(fs.nodes[fs.origin[n - 11]], fs'.nodes[fs.origin[n - 11]]);
  }

  lemma AttachOwnership(fs: Fs, p: nat, name: Name, inode: Inode, blocks: Option<BlockRange>)
    requires Inv(fs, 0) && FreeSlot(fs, p, name)
    requires Numbered(Attach(fs, p, name, inode, blocks))
    ensures Ownership(Attach(fs, p, name, inode, blocks))
  {
    var fs', n' := Attach(fs, p, name, inode, blocks), |fs.inodes| + 1;
    forall n | RESERVED < n <= |fs.inodes| ensures SameHolding(fs, fs', n) {
      InvAt(fs, 0, n);
      AttachHolder(fs, p, name, inode, blocks, n);
    }
    HeldSame(fs, fs', Deleted, |fs.inodes|);
    NewIsLive(fs, p, name, inode, blocks);
    hide Attach, Numbered, OwnRanges, HolderOf, Attached;
    forall n: nat ensures DeferredOk(fs', n) {
      assert DeferredOk(fs, n);
      if RESERVED < n <= |fs.inodes| {
        assert SameHolding(fs, fs', n);
      }
    }
  }

  lemma NewIsLive(fs: Fs, p: nat, name: Name, inode: Inode, blocks: Option<BlockRange>)
    requires Numbered(fs) && FreeSlot(fs, p, name) && Numbered(Attach(fs, p, name, inode, blocks))
    ensures HolderOf(Attach(fs, p, name, inode, blocks), |fs.inodes| + 1) == LiveNode
  {
    AddShape(fs, p, NewNode(|fs.inodes| + 1, name, blocks));
    assert NumberedInode(Attach(fs, p, name, inode, blocks), |fs.inodes| + 1);
  }

  /** Adding a name for a new inode keeps all of it. */
  lemma AttachKeeps(fs: Fs, p: nat, name: Name, inode: Inode, blocks: Option<BlockRange>)
    requires Inv(fs, 0) && FreeSlot(fs, p, name) && FreshCount(inode)
    ensures Inv(Attach(fs, p, name, inode, blocks), 0)
  {
    AttachKinds(fs, p, name, inode, blocks);
    AttachOwnership(fs, p, name, inode, blocks);
    hide Attach;
    var fs' := Attach(fs, p, name, inode, blocks);
    forall n | RESERVED < n <= |fs'.inodes| ensures CountOk(fs', 0, n) {
      AttachCount(fs, p, name, inode, blocks, n);
    }
  }

  // ---- Changing one inode in place ----

  /** Inode `n` rewritten: `link` raises its count; `create` over an existing
      directory gives it a new mode and owner. */
  function SetInode(fs: Fs, n: nat, inode: Inode): Fs
    requires 0 < n <= |fs.inodes|
  {
    fs.(inodes := fs.inodes[n - 1 := inode])
  }

  /** It stays what it was, and stays in use or out of use; a directory keeps
      its two links. */
  predicate SameUse(a: Inode, b: Inode) {
    a.IsDir() == b.IsDir() && (a.links > 0 <==> b.links > 0) && (a.IsDir() ==> (a.links >= 2 <==> b.links >= 2))
  }

  lemma SetInodeNumbered(fs: Fs, n: nat, inode: Inode)
    requires Numbered(fs) && 0 < n <= |fs.inodes|
    ensures Numbered(SetInode(fs, n, inode))
  {
    hide WellFormed, UniqueNames, NodeRanges;
    var fs' := SetInode(fs, n, inode);
    forall i | 0 < i < |fs'.nodes| ensures NumberedNode(fs', i) {
      assert NumberedNode(fs, i);
    }
    forall m | RESERVED < m <= |fs'.inodes| ensures NumberedInode(fs', m) {
      assert NumberedInode(fs, m);
    }
  }

  lemma SetInodeKinds(fs: Fs, n: nat, inode: Inode)
    requires Numbered(fs) && Kinds(fs) && 0 < n <= |fs.inodes| && SameUse(fs.inodes[n - 1], inode)
    requires Numbered(SetInode(fs, n, inode))
    ensures Kinds(SetInode(fs, n, inode))
  {
    hide WellFormed, UniqueNames, Attached, IsDirMode;
    var fs' := SetInode(fs, n, inode);
    forall i | 0 <= i < |fs'.nodes| ensures KindOk(fs', i) {
      assert KindOk(fs, i);
      assert i > 0 ==> NumberedNode(fs, i);
    }
  }

  lemma SetInodeOwnership(fs: Fs, n: nat, inode: Inode)
    requires Numbered(fs) && Ownership(fs) && 0 < n <= |fs.inodes| && SameUse(fs.inodes[n - 1], inode)
    requires Numbered(SetInode(fs, n, inode))
    ensures Ownership(SetInode(fs, n, inode))
  {
    hide WellFormed, UniqueNames, Attached, IsDirMode;
    var fs' := SetInode(fs, n, inode);
    forall m | RESERVED < m <= |fs.inodes| ensures SameHolding(fs, fs', m) {
      assert NumberedInode(fs, m) && NumberedInode(fs', m);
    }
    OwnershipFollows(fs, fs');
  }

  /** Ownership carries over when every inode keeps its ranges and holder. */
  lemma OwnershipFollows(fs: Fs, fs': Fs)
    requires Numbered(fs) && Numbered(fs') && Ownership(fs) && |fs'.inodes| == |fs.inodes|
    requires fs'.deleted == fs.deleted && fs'.deferred == fs.deferred
    requires forall n :: RESERVED < n <= |fs.inodes| ==> SameHolding(fs, fs', n)
    ensures Ownership(fs')
  {
    HeldSame(fs, fs', Deleted, |fs.inodes|);
    hide HolderOf, OwnRanges, Numbered;
    forall m: nat ensures DeferredOk(fs', m) {
      assert DeferredOk(fs, m);
      assert RESERVED < m <= |fs.inodes| ==> SameHolding(fs, fs', m);
    }
  }

  /** `link`'s first step: the extra count is accounted for. */
  function Bump(fs: Fs, n: nat): Fs
    requires 0 < n <= |fs.inodes|
  {
    SetInode(fs, n, fs.inodes[n - 1].(links := fs.inodes[n - 1].links + 1))
  }

  lemma BumpKeeps(fs: Fs, n: nat)
    requires Inv(fs, 0) && RESERVED < n <= |fs.inodes|
    requires !fs.inodes[n - 1].IsDir() && fs.inodes[n - 1].links > 0
    ensures Inv(Bump(fs, n), n)
  {
    var inode := fs.inodes[n - 1].(links := fs.inodes[n - 1].links + 1);
    var fs' := SetInode(fs, n, inode);
    SetInodeNumbered(fs, n, inode);
    SetInodeKinds(fs, n, inode);
    SetInodeOwnership(fs, n, inode);
    hide WellFormed, UniqueNames, Attached, Names, Kinds, Ownership;
    forall m | RESERVED < m <= |fs.inodes| ensures CountOk(fs', n, m) {
      assert CountOk(fs, 0, m);
      assert NumberedInode(fs, m) && NumberedInode(fs', m);
    }
  }

  lemma SetInodeCounts(fs: Fs, n: nat, inode: Inode, extra: nat)
    requires Numbered(fs) && Counts(fs, extra) && 0 < n <= |fs.inodes| && Numbered(SetInode(fs, n, inode))
    requires fs.inodes[n - 1].IsDir() && SameUse(fs.inodes[n - 1], inode)
    ensures Counts(SetInode(fs, n, inode), extra)
  {
    var fs' := SetInode(fs, n, inode);
    hide WellFormed, UniqueNames, Attached, Names, Kinds, Ownership, IsDirMode;
    forall m | RESERVED < m <= |fs.inodes| ensures CountOk(fs', extra, m) {
      assert CountOk(fs, extra, m);
      assert NumberedInode(fs, m) && NumberedInode(fs', m);
    }
  }

  lemma ChmodKeeps(fs: Fs, n: nat, inode: Inode)
    requires Inv(fs, 0) && 0 < n <= |fs.inodes| && fs.inodes[n - 1].IsDir()
    requires inode.IsDir() && inode.links == fs.inodes[n - 1].links
    ensures Inv(SetInode(fs, n, inode), 0)
  {
    SetInodeNumbered(fs, n, inode);
    SetInodeKinds(fs, n, inode);
    SetInodeOwnership(fs, n, inode);
    SetInodeCounts(fs, n, inode, 0);
  }

  // ---- Hard links ----

  lemma AddLinkNumbered(fs: Fs, p: nat, name: Name, t: nat)
    requires Numbered(fs) && FreeSlot(fs, p, name) && RESERVED < t <= |fs.inodes|
    ensures Numbered(AddLink(fs, p, name, t))
  {
    hide WellFormed, UniqueNames, NodeRanges, Attached;
    AddShape(fs, p, LinkNode(name, t));
    var fs' := AddLink(fs, p, name, t);
    NoRanges(fs'.nodes[|fs.nodes|]);
    forall i | 0 < i < |fs'.nodes| ensures NumberedNode(fs', i) {
      if i < |fs.nodes| {
        SameNumbers(fs, fs', i);
      }
    }
    forall n | RESERVED < n <= |fs'.inodes| ensures NumberedInode(fs', n) {
      assert NumberedInode(fs, n);
    }
    SameRanges(fs.nodes[0], fs'.nodes[0]);
  }

  lemma NoRanges(a: Node)
    requires a.blocks == None && a.additional == []
    ensures NodeRanges(a) == []
  {
  }

  lemma AddLinkKind(fs: Fs, p: nat, name: Name, t: nat, i: nat)
    requires Numbered(fs) && Kinds(fs) && FreeSlot(fs, p, name) && RESERVED < t <= |fs.inodes|
    requires !fs.inodes[t - 1].IsDir() && Numbered(AddLink(fs, p, name, t)) && i <= |fs.nodes|
    ensures KindOk(AddLink(fs, p, name, t), i)
  {
    hide WellFormed, UniqueNames, Attached, IsDirMode;
    AddShape(fs, p, LinkNode(name, t));
    if i < |fs.nodes| {
      AddLinkOldKind(fs, p, name, t, i);
    }
  }

  lemma AddLinkOldKind(fs: Fs, p: nat, name: Name, t: nat, i: nat)
    requires Numbered(fs) && i < |fs.nodes| && KindOk(fs, i) && FreeSlot(fs, p, name) && RESERVED < t <= |fs.inodes|
    requires Numbered(AddLink(fs, p, name, t))
    ensures KindOk(AddLink(fs, p, name, t), i)
  {
    hide *;
    var node := LinkNode(name, t);
    SlotParent(fs, p, name);
    LinkNodes(fs, p, name, t, i);
    AddShape(fs, p, node);
    NumbersOf(fs, i);
    NumbersOf(AddLink(fs, p, name, t), i);
    KindFollows(fs, AddLink(fs, p, name, t), i);
  }

  lemma LinkNodes(fs: Fs, p: nat, name: Name, t: nat, i: nat)
    requires p < |fs.nodes| && i < |fs.nodes| && Numbered(fs) && FreeSlot(fs, p, name)
    ensures LinkNode(name, t).children == [] && LinkNode(name, t).name == name
    ensures var fs' := AddLink(fs, p, name, t);
      && fs'.nodes == WithChild(fs.nodes, p, LinkNode(name, t)) && fs'.inodes == fs.inodes && i < |fs'.nodes|
      && fs'.nodes[i].inode == fs.nodes[i].inode && fs'.nodes[i].link == fs.nodes[i].link
      && (fs'.nodes[i].children != [] ==> fs.nodes[i].children != [] || (i == p && Attached(fs.nodes, i) && OwnInode(fs, i).IsDir()))
  {
  }

  /** The inode numbers of a node are in range. */
  lemma NumbersOf(fs: Fs, i: nat)
    requires Numbered(fs) && i < |fs.nodes|
    ensures WellFormed(fs.nodes) && 0 < fs.nodes[i].inode <= |fs.inodes| && 0 < Target(fs.nodes[i]) <= |fs.inodes|
    ensures OwnInode(fs, i) == fs.inodes[fs.nodes[i].inode - 1] && TargetInode(fs, i) == fs.inodes[Target(fs.nodes[i]) - 1]
  {
    assert i > 0 ==> NumberedNode(fs, i);
  }

  lemma KindFollows(a: Fs, b: Fs, i: nat)
    requires Numbered(a) && Numbered(b) && i < |a.nodes| && i < |b.nodes| && KindOk(a, i)
    requires WellFormed(a.nodes) && WellFormed(b.nodes) && a.inodes == b.inodes
    requires b.nodes[i].inode == a.nodes[i].inode && b.nodes[i].link == a.nodes[i].link
    requires Attached(b.nodes, i) == Attached(a.nodes, i)
    requires b.nodes[i].children != [] ==> a.nodes[i].children != [] || (Attached(a.nodes, i) && OwnInode(a, i).IsDir())
    ensures KindOk(b, i)
  {
    NumbersOf(a, i);
    NumbersOf(b, i);
    hide Numbered, WellFormed, Attached, IsDirMode, OwnInode, TargetInode;
  }

  lemma AddLinkHolding(fs: Fs, p: nat, name: Name, t: nat, n: nat)
    requires Numbered(fs) && FreeSlot(fs, p, name) && RESERVED < t <= |fs.inodes|
    requires Numbered(AddLink(fs, p, name, t)) && RESERVED < n <= |fs.inodes| && CountOk(fs, t, n)
    ensures SameHolding(fs, AddLink(fs, p, name, t), n) && CountOk(AddLink(fs, p, name, t), 0, n)
  {
    hide WellFormed, UniqueNames, Attached, Names, WithChild;
    var fs' := AddLink(fs, p, name, t);
    AddShape(fs, p, LinkNode(name, t));
    AddNames(fs, p, LinkNode(name, t), n);
    assert NumberedInode(fs, n) && NumberedInode(fs', n);
    AddSameNode(fs.nodes, p, LinkNode(name, t), fs.origin[n - 11]);
  }

  lemma AddSameNode(nodes: Nodes, p: nat, node: Node, i: nat)
    requires p < |nodes| && i < |nodes|
    ensures NodeRanges(WithChild(nodes, p, node)[i]) == NodeRanges(nodes[i])
    ensures WithChild(nodes, p, node)[i].inode == nodes[i].inode && WithChild(nodes, p, node)[i].link == nodes[i].link
  {
  }

  /** Adding the name for which the count was raised settles the account. */
  lemma AddLinkKeeps(fs: Fs, p: nat, name: Name, t: nat)
    requires Inv(fs, t) && FreeSlot(fs, p, name) && RESERVED < t <= |fs.inodes| && !fs.inodes[t - 1].IsDir()
    ensures Inv(AddLink(fs, p, name, t), 0)
  {
    AddLinkNumbered(fs, p, name, t);
    var fs' := AddLink(fs, p, name, t);
    forall n | RESERVED < n <= |fs.inodes| ensures SameHolding(fs, fs', n) && CountOk(fs', 0, n) {
      InvAt(fs, t, n);
      AddLinkHolding(fs, p, name, t, n);
    }
    OwnershipFollows(fs, fs');
    forall i | 0 <= i < |fs'.nodes| ensures KindOk(fs', i) {
      AddLinkKind(fs, p, name, t, i);
    }
  }
}
