/** `commit_directories`: every directory gets its entries written out, its
    blocks recorded and its extent tree built, in breadth-first order. */
module Committing {
  import opened Basics
  import opened Image
  import opened OnDisk
  import opened Extents
  import opened Directory
  import opened Trees
  import opened Namespace
  import opened Unlinking
  import opened Contents
  import opened Writing
  import opened Listing
  import opened Traversal
  import opened Sums
  import opened Requests
  import opened Formatting

  /** A directory of that many names is far below the 128 GiB an extent tree of
      this format can map. */
  const MAX_NAMES: nat := 0x1FF_FFF0

  // ---- What a committed directory looks like ----

  /** Node `i` is a directory in its own right, not a hard link. */
  predicate IsOwnDir(fs: Fs, i: nat)
    requires Numbered(fs)
  {
    i < |fs.nodes| && fs.nodes[i].link == None && OwnInode(fs, i).IsDir()
  }

  /** The inode of a directory once `bytes` bytes of entries are on disk. */
  function DirInode(inode: Inode, bytes: nat, block: seq<byte>): Inode {
    inode.(size := bytes, block := block, blocksLo := BlocksCharged(HUGE_FILE, bytes), flags := WithFlag(HUGE_FILE, EXTENTS))
  }

  predicate DirCommitted(fs: Fs, i: nat, node: Node, inode: Inode, img: seq<byte>, lo: nat, limit: nat)
    requires Numbered(fs) && Listable(fs) && i < |fs.nodes|
  {
    DirListFits(fs, i);
    var d := DirBytes(DirList(fs, i));
    && node.blocks.Some? && node == fs.nodes[i].(blocks := node.blocks)
    && inode == DirInode(OwnInode(fs, i), |d|, inode.block)
    && var r := node.blocks.value;
       && lo <= r.start * 4096 && r.start < r.end && Reach(r) * 4096 <= limit
       && DataStored(img, limit, inode.block, d, [r])
  }

  /** Node `i` and its inode: written out if it is a directory already dealt
      with, as they were otherwise. */
  predicate NodeState(fs: Fs, done: seq<nat>, i: nat, nodes: Nodes, inodes: seq<Inode>, img: seq<byte>, lo: nat, limit: nat)
    requires Numbered(fs) && Listable(fs) && |nodes| == |fs.nodes| && |inodes| == |fs.inodes| && i < |fs.nodes|
  {
    NumbersOf(fs, i);
    if IsOwnDir(fs, i) && i in done then DirCommitted(fs, i, nodes[i], inodes[fs.nodes[i].inode - 1], img, lo, limit)
    else nodes[i] == fs.nodes[i] && (fs.nodes[i].link == None ==> inodes[fs.nodes[i].inode - 1] == OwnInode(fs, i))
  }

  ghost predicate Progress(fs: Fs, done: seq<nat>, nodes: Nodes, inodes: seq<Inode>, img: seq<byte>, lo: nat, limit: nat)
    requires Numbered(fs) && Listable(fs)
  {
    && |nodes| == |fs.nodes| && |inodes| == |fs.inodes|
    && (forall i :: 0 <= i < |nodes| ==> NodeState(fs, done, i, nodes, inodes, img, lo, limit))
    && (forall k :: 0 <= k < RESERVED && k != ROOT_INODE - 1 ==> inodes[k] == fs.inodes[k])
  }

  /** Everything that is about to be listed is in use. */
  predicate KidsInUse(fs: Fs, i: nat)
    requires Numbered(fs) && i < |fs.nodes|
  {
    forall c :: c in fs.nodes[i].children ==> c < |fs.nodes| && TargetInode(fs, c).links > 0
  }

  // ---- While directories are being written ----

  /** Names, numbers, kinds and counts are those of `fs`. */
  ghost predicate Agrees(fs: Fs, nodes: Nodes, inodes: seq<Inode>) {
    && SameShape(fs.nodes, nodes)
    && |inodes| == |fs.inodes|
    && forall k :: 0 <= k < |inodes| ==> inodes[k].mode == fs.inodes[k].mode && inodes[k].links == fs.inodes[k].links
  }

  lemma ProgressAgrees(fs: Fs, done: seq<nat>, nodes: Nodes, inodes: seq<Inode>, img: seq<byte>, lo: nat, limit: nat)
    requires Numbered(fs) && Listable(fs) && Progress(fs, done, nodes, inodes, img, lo, limit)
    ensures Agrees(fs, nodes, inodes)
  {
    forall i | 0 <= i < |nodes| ensures nodes[i] == fs.nodes[i].(blocks := nodes[i].blocks) {
      assert NodeState(fs, done, i, nodes, inodes, img, lo, limit);
      hide DataStored, DirBytes, DirList, OwnInode, Numbered, Reach;
    }
    forall k | 0 <= k < |inodes| ensures inodes[k].mode == fs.inodes[k].mode && inodes[k].links == fs.inodes[k].links {
      InodeAgrees(fs, done, nodes, inodes, img, lo, limit, k);
    }
  }

  /** The node of an inode: the root's for number 2. */
  function NodeOfInode(fs: Fs, n: nat): (i: nat)
    requires Numbered(fs) && (n == ROOT_INODE || RESERVED < n <= |fs.inodes|)
    ensures i < |fs.nodes| && fs.nodes[i].link == None && fs.nodes[i].inode == n && OwnInode(fs, i) == fs.inodes[n - 1]
  {
    if n == ROOT_INODE then 0
    else
      assert NumberedInode(fs, n);
      fs.origin[n - 11]
  }

  lemma InodeAgrees(fs: Fs, done: seq<nat>, nodes: Nodes, inodes: seq<Inode>, img: seq<byte>, lo: nat, limit: nat, k: nat)
    requires Numbered(fs) && Listable(fs) && Progress(fs, done, nodes, inodes, img, lo, limit) && k < |inodes|
    ensures inodes[k].mode == fs.inodes[k].mode && inodes[k].links == fs.inodes[k].links
  {
    hide DirCommitted, Numbered, Listable;
    if k + 1 == ROOT_INODE || k >= RESERVED {
      Shaped(fs);
      var i := NodeOfInode(fs, k + 1);
      assert NodeState(fs, done, i, nodes, inodes, img, lo, limit);
      if IsOwnDir(fs, i) && i in done {
        CommittedKeeps(fs, i, nodes[i], inodes[k], img, lo, limit);
      }
    }
  }

  lemma CommittedKeeps(fs: Fs, i: nat, node: Node, inode: Inode, img: seq<byte>, lo: nat, limit: nat)
    requires Numbered(fs) && Listable(fs) && i < |fs.nodes| && DirCommitted(fs, i, node, inode, img, lo, limit)
    ensures inode.mode == OwnInode(fs, i).mode && inode.links == OwnInode(fs, i).links
    ensures node == fs.nodes[i].(blocks := node.blocks)
  {
    hide DataStored, DirBytes, DirList, Numbered, Reach, OwnInode, Listable;
  }

  lemma SortAgrees(nodes: Nodes, nodes': Nodes, kids: seq<nat>)
    requires SameShape(nodes, nodes') && InRange(nodes, kids)
    ensures InRange(nodes', kids) && SortChildren(nodes', kids) == SortChildren(nodes, kids)
  {
    if kids != [] {
      var n := |kids| - 1;
      SortAgrees(nodes, nodes', kids[..n]);
      InsertAgrees(nodes, nodes', SortChildren(nodes, kids[..n]), kids[n]);
    }
  }

  lemma InsertAgrees(nodes: Nodes, nodes': Nodes, sorted: seq<nat>, c: nat)
    requires SameShape(nodes, nodes') && InRange(nodes, sorted) && c < |nodes|
    ensures InRange(nodes', sorted) && InsertChild(nodes', sorted, c) == InsertChild(nodes, sorted, c)
  {
    if sorted != [] {
      InsertAgrees(nodes, nodes', sorted[..|sorted| - 1], c);
    }
  }

  /** What the writer looks up for a child is what the listing needs. */
  lemma ChildLookups(fs: Fs, nodes: Nodes, inodes: seq<Inode>, c: nat)
    requires Numbered(fs) && Listable(fs) && Agrees(fs, nodes, inodes) && 0 < c < |fs.nodes|
    ensures c < |nodes| && nodes[c].name == fs.nodes[c].name && nodes[c].link == fs.nodes[c].link && nodes[c].inode == fs.nodes[c].inode
    ensures 0 < nodes[c].inode <= |inodes| && (nodes[c].link.Some? ==> 0 < nodes[c].link.value <= |inodes|)
    ensures var t := if nodes[c].link.Some? then nodes[c].link.value else nodes[c].inode;
      && 0 < t <= |inodes| && inodes[t - 1].links == TargetInode(fs, c).links
      && ChildEntry(fs, c) == Entry(nodes[c].name, t, inodes[t - 1].mode) && ChildEntry(fs, c).Fits()
  {
    NumbersOf(fs, c);
    EntryFits(fs, c);
    hide Numbered, WellFormed;
  }

  /** What the writer looks up for a node itself is what "." and ".." need. */
  lemma DotLookup(fs: Fs, nodes: Nodes, inodes: seq<Inode>, i: nat)
    requires Numbered(fs) && Agrees(fs, nodes, inodes) && i < |fs.nodes|
    ensures i < |nodes| && nodes[i].inode == fs.nodes[i].inode && 0 < nodes[i].inode <= |inodes|
    ensures inodes[nodes[i].inode - 1].mode == OwnInode(fs, i).mode
    ensures nodes[i].children == fs.nodes[i].children
  {
    NumbersOf(fs, i);
    hide Numbered, WellFormed, OwnInode, TargetInode;
  }

  lemma SortLookup(fs: Fs, nodes: Nodes, inodes: seq<Inode>, i: nat)
    requires Numbered(fs) && Agrees(fs, nodes, inodes) && i < |fs.nodes|
    ensures i < |nodes| && InRange(nodes, nodes[i].children) && SortChildren(nodes, nodes[i].children) == SortedKids(fs, i)
  {
    assert KidsOk(fs.nodes, i);
    hide Numbered, WellFormed, SortChildren;
    SortAgrees(fs.nodes, nodes, fs.nodes[i].children);
  }

  lemma DotsAre(fs: Fs, i: nat)
    requires Numbered(fs) && i < |fs.nodes|
    ensures var up := if i == 0 then 0 else fs.nodes[i].parent.value;
      && up < |fs.nodes| && fs.nodes[i].parent == (if i == 0 then None else Some(up))
      && Dots(fs, i) == [Entry(DOT, fs.nodes[i].inode, OwnInode(fs, i).mode),
                         Entry(DOTDOT, fs.nodes[up].inode, OwnInode(fs, up).mode)]
  {
  }

  // ---- Writing one directory ----

  /** Entry `e` goes behind those packed into `d` so far. */
  method WriteNext(file: ImageFile, name: Name, inode: nat, mode: nat, linkInode: Option<nat>, linkMode: Option<nat>, left: int,
                   ghost base: seq<byte>, ghost at: nat, ghost es: seq<Entry>, ghost e: Entry)
    returns (left': int)
    requires AllFit(es) && left == Pack(es).Left() && e.Fits()
    requires e == Entry(name, if linkInode.Some? then linkInode.value else inode, if linkMode.Some? then linkMode.value else mode)
    requires Appended(base, at, file.bytes, file.pos, Pack(es).Bytes())
    modifies file
    ensures AllFit(es + [e]) && left' == Pack(es + [e]).Left()
    ensures Appended(base, at, file.bytes, file.pos, Pack(es + [e]).Bytes())
  {
    PackRoom(es);
    FitsAnyMode(e, mode);
    PackSnoc(es, e);
    hide *;
    ghost var was, pos := file.bytes, file.pos;
    ghost var d';
    left', d' := WriteDirEntry(file, name, inode, mode, linkInode, linkMode, left, Pack(es));
    PackOneBytes(Pack(es), e);
    AppendedTwice(base, at, was, pos, file.bytes, file.pos, Pack(es).Bytes(), Gain(Pack(es), e));
  }

  lemma PackRoom(es: seq<Entry>)
    requires AllFit(es)
    ensures MIN_TRAILING <= Pack(es).Left() <= 4096 && Pack(es).Left() >= 12
  {
    hide Pack;
  }

  lemma FitsAnyMode(e: Entry, mode: nat)
    requires e.Fits()
    ensures Entry(e.name, e.inode, mode).Fits()
  {
  }

  lemma PackSnoc(es: seq<Entry>, e: Entry)
    requires AllFit(es) && e.Fits()
    ensures AllFit(es + [e]) && Pack(es + [e]) == PackOne(Pack(es), e)
  {
    assert (es + [e])[..|es|] == es;
    hide PackOne;
  }

  lemma NothingPacked(base: seq<byte>, at: nat)
    ensures AllFit([]) && Pack([]).Left() == 4096
    ensures Appended(base, at, base, at, Pack([]).Bytes())
  {
    assert Pack([]).Bytes() == [];
  }

  /** The "." and ".." entries. */
  method WriteDots(f: Formatter, parent: Option<nat>, i: nat, ghost fs: Fs) returns (left: int)
    requires Numbered(fs) && Listable(fs) && Agrees(fs, f.tree.nodes, f.inodes) && i < |fs.nodes| && parent == fs.nodes[i].parent
    modifies f.file
    ensures AllFit(Dots(fs, i)) && left == Pack(Dots(fs, i)).Left()
    ensures Appended(old(f.file.bytes), old(f.file.pos), f.file.bytes, f.file.pos, Pack(Dots(fs, i)).Bytes())
  {
    hide *;
    DotsAre(fs, i);
    DotsFit(fs, i);
    DotLookup(fs, f.tree.nodes, f.inodes, i);
    DotLookup(fs, f.tree.nodes, f.inodes, if i == 0 then 0 else fs.nodes[i].parent.value);
    ghost var base, at, es := f.file.bytes, f.file.pos, Dots(fs, i);
    NothingPacked(base, at);
    var number := f.tree.nodes[i].inode;
    left := WriteNext(f.file, DOT, number, f.inodes[number - 1].mode, None, None, 4096, base, at, [], es[0]);
    assert [] + [es[0]] == [es[0]] && [es[0]] + [es[1]] == es;
    var up := if parent.Some? then f.tree.nodes[parent.value].inode else number;
    left := WriteNext(f.file, DOTDOT, up, f.inodes[up - 1].mode, None, None, left, base, at, [es[0]], es[1]);
  }

  /** The entry of one child; a name without an inode in use would be skipped,
      but there is none. */
  method WriteChild(f: Formatter, c: nat, left: int, ghost fs: Fs, ghost base: seq<byte>, ghost at: nat, ghost es: seq<Entry>)
    returns (left': int)
    requires Numbered(fs) && Listable(fs) && Agrees(fs, f.tree.nodes, f.inodes) && 0 < c < |fs.nodes|
    requires TargetInode(fs, c).links > 0
    requires AllFit(es) && left == Pack(es).Left()
    requires Appended(base, at, f.file.bytes, f.file.pos, Pack(es).Bytes())
    modifies f.file
    ensures AllFit(es + [ChildEntry(fs, c)]) && left' == Pack(es + [ChildEntry(fs, c)]).Left()
    ensures Appended(base, at, f.file.bytes, f.file.pos, Pack(es + [ChildEntry(fs, c)]).Bytes())
  {
    hide *;
    ChildLookups(fs, f.tree.nodes, f.inodes, c);
    var node := f.tree.nodes[c];
    var effective := if node.link.Some? then node.link.value else node.inode;
    left' := left;
    if f.inodes[effective - 1].links > 0 {
      var linkInode, linkMode := None, None;
      if node.link.Some? {
        linkInode, linkMode := Some(effective), Some(f.inodes[effective - 1].mode);
      }
      left' := WriteNext(f.file, node.name, node.inode, f.inodes[node.inode - 1].mode, linkInode, linkMode, left,
                         base, at, es, ChildEntry(fs, c));
    }
  }

  lemma ListingPart(fs: Fs, i: nat, k: nat)
    requires Numbered(fs) && Listable(fs) && i < |fs.nodes| && k <= |SortedKids(fs, i)|
    ensures |DirList(fs, i)| == 2 + |SortedKids(fs, i)| && DirList(fs, i)[..2] == Dots(fs, i)
    ensures k < |SortedKids(fs, i)| ==>
      && SortedKids(fs, i)[k] < |fs.nodes|
      && DirList(fs, i)[..2 + k] + [ChildEntry(fs, SortedKids(fs, i)[k])] == DirList(fs, i)[..2 + k + 1]
  {
    hide Numbered, Listable, Dots, SortedKids, ChildEntry;
  }

  lemma KidInUse(fs: Fs, i: nat, k: nat)
    requires Numbered(fs) && i < |fs.nodes| && KidsInUse(fs, i) && k < |SortedKids(fs, i)|
    ensures 0 < SortedKids(fs, i)[k] < |fs.nodes| && TargetInode(fs, SortedKids(fs, i)[k]).links > 0
  {
    SortedKidsAreKids(fs, i);
    hide Numbered, SortedKids, TargetInode;
  }

  lemma Finished(base: seq<byte>, at: nat, was: seq<byte>, pos: nat, img: seq<byte>, pos': nat, es: seq<Entry>)
    requires AllFit(es) && Appended(base, at, was, pos, Pack(es).Bytes())
    requires Pack(es).Left() >= 8 && Appended(was, pos, img, pos', Terminator(Pack(es).Left()))
    ensures Appended(base, at, img, pos', DirBytes(es))
  {
    hide *;
    AppendedTwice(base, at, was, pos, img, pos', Pack(es).Bytes(), Terminator(Pack(es).Left()));
    ClosedBytes(es);
  }

  lemma ClosedBytes(es: seq<Entry>)
    requires AllFit(es) && Pack(es).Left() >= 8
    ensures DirBytes(es) == Pack(es).Bytes() + Terminator(Pack(es).Left())
  {
    hide Pack, Terminator, Record, Records, AllFit, Holds;
    var d := Pack(es);
    assert d.Left() == 4096 - |Records(d.open)|;
    assert d.Bytes() + Terminator(d.Left()) == d.closed + (Records(d.open) + Terminator(d.Left()));
  }

  /** The entries of directory `i`, from "." to the closing record. */
  method WriteListing(f: Formatter, parent: Option<nat>, i: nat, ghost fs: Fs)
    requires Numbered(fs) && Listable(fs) && Agrees(fs, f.tree.nodes, f.inodes) && i < |fs.nodes| && parent == fs.nodes[i].parent
    requires KidsInUse(fs, i)
    modifies f.file
    ensures AllFit(DirList(fs, i))
    ensures Appended(old(f.file.bytes), old(f.file.pos), f.file.bytes, f.file.pos, DirBytes(DirList(fs, i)))
  {
    hide *;
    DirListFits(fs, i);
    SortLookup(fs, f.tree.nodes, f.inodes, i);
    ghost var base, at, es := f.file.bytes, f.file.pos, DirList(fs, i);
    var left := WriteDots(f, parent, i, fs);
    var sorted := SortChildren(f.tree.nodes, f.tree.nodes[i].children);
    ListingPart(fs, i, 0);
    for k := 0 to |sorted|
      invariant sorted == SortedKids(fs, i) && |es| == 2 + |sorted|
      invariant AllFit(es[..2 + k]) && left == Pack(es[..2 + k]).Left()
      invariant Appended(base, at, f.file.bytes, f.file.pos, Pack(es[..2 + k]).Bytes())
    {
      ListingPart(fs, i, k);
      KidInUse(fs, i, k);
      left := WriteChild(f, sorted[k], left, fs, base, at, es[..2 + k]);
    }
    assert es[..|es|] == es;
    PackRoom(es);
    ghost var was, pos := f.file.bytes, f.file.pos;
    left := FinishBlock(f.file, left);
    Finished(base, at, was, pos, f.file.bytes, f.file.pos, es);
  }

  // ---- Committing one directory ----

  lemma AlignedAt(at: nat, len: nat)
    requires at % 4096 == 0 && len % 4096 == 0
    ensures (at + len) / 4096 * 4096 == at + len && at / 4096 * 4096 == at
    ensures (at + len) / 4096 - at / 4096 == len / 4096 && (at + len) / 4096 == at / 4096 + len / 4096
    ensures BlocksFor(len) == len / 4096 && (len / 4096) * 4096 == len
  {
  }

  /** The bytes of a listing: whole blocks, few enough for an extent tree. */
  lemma ListingSize(fs: Fs, i: nat)
    requires Numbered(fs) && Listable(fs) && i < |fs.nodes| <= MAX_NAMES && AllFit(DirList(fs, i))
    ensures var d := DirBytes(DirList(fs, i));
      d != [] && |d| % 4096 == 0 && 0 < |d| / 4096 <= MAX_FILE_BLOCKS
  {
    var es := DirList(fs, i);
    DirectoryRoundTrip(es);
    PackedSize(es);
    ListingPart(fs, i, 0);
    KidsBound(fs, i);
    assert |DirBytes(es)| == |Pack(es).closed| + 4096 by {
      hide Pack, Terminator, Record, Records;
    }
  }

  lemma KidsBound(fs: Fs, i: nat)
    requires Numbered(fs) && i < |fs.nodes|
    ensures |SortedKids(fs, i)| <= |fs.nodes|
  {
    assert KidsOk(fs.nodes, i);
    DistinctBound(fs.nodes[i].children, |fs.nodes|);
  }

  /** What appending the listing at the block boundary `at` did. */
  lemma ListingThere(was: seq<byte>, at: nat, img: seq<byte>, pos: nat, d: seq<byte>)
    requires Appended(was, at, img, pos, d) && d != []
    ensures AtBelow(img, pos, at, d) && SameBelow(was, img, at) && pos == at + |d|
  {
    WriteReadsBack(was, at, d);
    WriteAbove(was, at, d, at);
    hide WriteAt, SameBelow, At;
  }

  /** Blocks a directory takes: its entries and its extent tree. */
  function ListingBlocks(fs: Fs, i: nat): nat
    requires Numbered(fs) && Listable(fs) && i < |fs.nodes|
  {
    DirListFits(fs, i);
    var n := BlocksFor(|DirBytes(DirList(fs, i))|);
    n + TreeBlocks(n)
  }

  /** For every node, the blocks it takes when the directories are written. */
  function Weights(fs: Fs): (w: seq<nat>)
    requires Numbered(fs) && Listable(fs)
    ensures |w| == |fs.nodes|
  {
    seq(|fs.nodes|, i requires 0 <= i < |fs.nodes| =>
      if Attached(fs.nodes, i) && IsOwnDir(fs, i) then ListingBlocks(fs, i) else 0)
  }

  /** All attached directories together. */
  function DirectoryBlocks(fs: Fs): nat
    requires Numbered(fs) && Listable(fs)
  {
    Sum(Weights(fs))
  }

  /** Where the directories end that are written behind `pos`, in blocks. */
  function DirectoriesEnd(fs: Fs, pos: nat): nat
    requires Numbered(fs) && Listable(fs)
  {
    DivCeil(pos, 4096) + DirectoryBlocks(fs)
  }

  lemma WeightAt(fs: Fs, i: nat)
    requires Numbered(fs) && Listable(fs) && i < |fs.nodes| && Attached(fs.nodes, i)
    ensures |Weights(fs)| == |fs.nodes| && Weights(fs)[i] == if IsOwnDir(fs, i) then ListingBlocks(fs, i) else 0
  {
    hide Numbered, Listable, Attached, IsOwnDir, ListingBlocks;
  }

  /** A directory as `create` left it: no data yet. */
  predicate Blank(inode: Inode) {
    inode.size == 0 && inode.block == Zeros(60) && inode.blocksLo == 0 && inode.flags == HUGE_FILE
  }

  lemma TreeOfDir(inode: Inode, bytes: nat, start: nat, idx: nat)
    requires Blank(inode) && 0 < bytes && 0 < BlocksFor(bytes) <= MAX_FILE_BLOCKS
    ensures WithTree(inode.(size := bytes), start, BlocksFor(bytes), idx)
         == DirInode(inode, bytes, Root(start, BlocksFor(bytes), idx))
  {
    hide Root, Charge, WithFlag;
  }

  lemma CommittedNow(fs: Fs, i: nat, node: Node, inode: Inode, before: seq<byte>, img: seq<byte>, lo: nat, start: nat, pos: nat,
                     d: seq<byte>, n: nat)
    requires Numbered(fs) && Listable(fs) && i < |fs.nodes| && Blank(OwnInode(fs, i)) && AllFit(DirList(fs, i))
    requires d == DirBytes(DirList(fs, i)) && n == BlocksFor(|d|) && 0 < n <= MAX_FILE_BLOCKS && |d| > 0
    requires AtBelow(before, start * 4096 + |d|, start * 4096, d) && SameBelow(before, img, (start + n) * 4096)
    requires TreeStored(img, pos, inode.block, start, n, start + n)
    requires pos == (start + n + TreeBlocks(n)) * 4096 && lo <= start * 4096
    requires inode == WithTree(OwnInode(fs, i).(size := |d|), start, n, start + n)
    requires node == fs.nodes[i].(blocks := Some(BlockRange(start, start + n)))
    ensures DirCommitted(fs, i, node, inode, img, lo, pos)
  {
    hide *;
    assert d != [];
    DataNow(before, img, pos, start, n, inode.block, d);
    DirInodeNow(OwnInode(fs, i), |d|, start, n, inode, img, pos);
    ReachOf(start, n);
    CommittedIs(fs, i, node, inode, img, lo, pos, d, BlockRange(start, start + n));
  }

  lemma DirInodeNow(inode: Inode, bytes: nat, start: nat, n: nat, inode': Inode, img: seq<byte>, pos: nat)
    requires Blank(inode) && 0 < bytes && n == BlocksFor(bytes) && 0 < n <= MAX_FILE_BLOCKS
    requires inode' == WithTree(inode.(size := bytes), start, n, start + n)
    requires TreeStored(img, pos, inode'.block, start, n, start + n)
    ensures inode' == DirInode(inode, bytes, inode'.block)
  {
    hide *;
    TreeOfDir(inode, bytes, start, start + n);
    RootOf(img, pos, inode'.block, start, n, start + n);
  }

  lemma RootOf(img: seq<byte>, limit: nat, block: seq<byte>, start: nat, n: nat, idx: nat)
    requires TreeStored(img, limit, block, start, n, idx)
    ensures 0 < n <= MAX_FILE_BLOCKS && block == Root(start, n, idx)
  {
  }

  lemma ReachOf(start: nat, n: nat)
    ensures Reach(BlockRange(start, start + n)) == start + n + TreeBlocks(n)
  {
  }

  lemma CommittedIs(fs: Fs, i: nat, node: Node, inode: Inode, img: seq<byte>, lo: nat, limit: nat, d: seq<byte>, r: BlockRange)
    requires Numbered(fs) && Listable(fs) && i < |fs.nodes| && AllFit(DirList(fs, i)) && d == DirBytes(DirList(fs, i))
    requires node == fs.nodes[i].(blocks := Some(r)) && inode == DirInode(OwnInode(fs, i), |d|, inode.block)
    requires lo <= r.start * 4096 && r.start < r.end && Reach(r) * 4096 <= limit && DataStored(img, limit, inode.block, d, [r])
    ensures DirCommitted(fs, i, node, inode, img, lo, limit)
  {
    hide Numbered, Listable, DirBytes, DirList, DataStored, Reach, DirInode;
  }

  /** Directory `i` is written at the cursor; its blocks and extent tree are
      recorded. */
  method CommitDirectory(f: Formatter, parent: Option<nat>, i: nat, ghost fs: Fs, ghost done: seq<nat>, ghost lo: nat)
    requires Numbered(fs) && Listable(fs) && f.tree.Valid() && IsOwnDir(fs, i) && i < |fs.nodes| <= MAX_NAMES && i !in done
    requires Progress(fs, done, f.tree.nodes, f.inodes, f.file.bytes, lo, f.file.pos) && lo <= f.file.pos
    requires parent == fs.nodes[i].parent && KidsInUse(fs, i) && Blank(OwnInode(fs, i))
    modifies f`inodes, f.tree, f.file
    ensures f.tree.Valid()
    ensures Progress(fs, done + [i], f.tree.nodes, f.inodes, f.file.bytes, lo, f.file.pos)
    ensures SameBelow(old(f.file.bytes), f.file.bytes, old(f.file.pos)) && old(f.file.pos) <= f.file.pos
    ensures f.file.pos == (DivCeil(old(f.file.pos), 4096) + ListingBlocks(fs, i)) * 4096
  {
    hide *;
    ghost var nodes, inodes, img, pos := f.tree.nodes, f.inodes, f.file.bytes, f.file.pos;
    ProgressAgrees(fs, done, nodes, inodes, img, lo, pos);
    NotYet(fs, done, nodes, inodes, img, lo, pos, i);
    f.file.AlignToBlock();
    var start := f.file.pos / 4096;
    ghost var at := f.file.pos;
    WriteListing(f, parent, i, fs);
    ghost var d, before := DirBytes(DirList(fs, i)), f.file.bytes;
    ListingSize(fs, i);
    ListingThere(img, at, before, f.file.pos, d);
    AlignedAt(at, |d|);
    var end := f.file.pos / 4096;
    var number := f.tree.nodes[i].inode;
    f.inodes := f.inodes[number - 1 := f.inodes[number - 1].(size := (end - start) * 4096)];
    f.tree.SetBlocks(i, BlockRange(start, end));
    f.file.AlignToBlock();
    var current := f.file.pos / 4096;
    var inode, current' := WriteExtents(f.inodes[number - 1], BlockRange(start, end), f.file, current);
    f.inodes := f.inodes[number - 1 := inode];
    ListingBlocksIs(fs, i, end - start);
    CommittedNow(fs, i, f.tree.nodes[i], inode, before, f.file.bytes, lo, start, f.file.pos, d, end - start);
    SameBelowTrans(img, before, f.file.bytes, at, current * 4096);
    SameBelowLess(img, f.file.bytes, pos, at);
    ProgressStep(fs, done, nodes, inodes, img, pos, f.tree.nodes, f.inodes, f.file.bytes, f.file.pos, lo, i);
  }

  lemma ListingBlocksIs(fs: Fs, i: nat, n: nat)
    requires Numbered(fs) && Listable(fs) && i < |fs.nodes| && AllFit(DirList(fs, i)) && n == BlocksFor(|DirBytes(DirList(fs, i))|)
    ensures ListingBlocks(fs, i) == n + TreeBlocks(n)
  {
    hide Numbered, Listable, DirBytes, DirList, TreeBlocks, BlocksFor;
  }

  lemma SameBelowLess(was: seq<byte>, img: seq<byte>, lo: nat, hi: nat)
    requires SameBelow(was, img, hi) && lo <= hi
    ensures SameBelow(was, img, lo)
  {
    var m := Min(lo, |was|);
    assert was[..Min(hi, |was|)][..m] == was[..m] && img[..Min(hi, |was|)][..m] == img[..m];
  }

  /** A directory not dealt with is as it was. */
  lemma NotYet(fs: Fs, done: seq<nat>, nodes: Nodes, inodes: seq<Inode>, img: seq<byte>, lo: nat, limit: nat, i: nat)
    requires Numbered(fs) && Listable(fs) && Progress(fs, done, nodes, inodes, img, lo, limit)
    requires IsOwnDir(fs, i) && i !in done
    ensures i < |nodes| == |fs.nodes| && |inodes| == |fs.inodes| && nodes[i] == fs.nodes[i]
    ensures 0 < nodes[i].inode <= |inodes| && inodes[nodes[i].inode - 1] == OwnInode(fs, i)
  {
    NumbersOf(fs, i);
    assert NodeState(fs, done, i, nodes, inodes, img, lo, limit);
    hide DirCommitted, Numbered, Listable;
  }

  lemma ProgressStep(fs: Fs, done: seq<nat>, nodes: Nodes, inodes: seq<Inode>, img: seq<byte>, pos: nat,
                     nodes': Nodes, inodes': seq<Inode>, img': seq<byte>, pos': nat, lo: nat, i: nat)
    requires Numbered(fs) && Listable(fs) && Progress(fs, done, nodes, inodes, img, lo, pos) && IsOwnDir(fs, i)
    requires i < |fs.nodes| && |nodes| == |fs.nodes| == |nodes'| && |inodes| == |fs.inodes| == |inodes'|
    requires 0 < fs.nodes[i].inode <= |inodes|
    requires nodes' == nodes[i := nodes'[i]] && inodes' == inodes[fs.nodes[i].inode - 1 := inodes'[fs.nodes[i].inode - 1]]
    requires DirCommitted(fs, i, nodes'[i], inodes'[fs.nodes[i].inode - 1], img', lo, pos')
    requires SameBelow(img, img', pos) && pos <= pos'
    ensures Progress(fs, done + [i], nodes', inodes', img', lo, pos')
  {
    forall j | 0 <= j < |nodes'| ensures NodeState(fs, done + [i], j, nodes', inodes', img', lo, pos') {
      assert NodeState(fs, done, j, nodes, inodes, img, lo, pos);
      NodeStateStep(fs, done, nodes, inodes, img, pos, nodes', inodes', img', pos', lo, i, j);
    }
    hide NodeState, DirCommitted, Listable;
    ReservedStay(fs, i);
  }

  lemma ReservedStay(fs: Fs, i: nat)
    requires Numbered(fs) && IsOwnDir(fs, i)
    ensures fs.nodes[i].inode == ROOT_INODE || fs.nodes[i].inode > RESERVED
  {
    assert i > 0 ==> NumberedNode(fs, i);
  }

  /** Two nodes in their own right have different inodes. */
  lemma OwnNumbersDiffer(fs: Fs, i: nat, j: nat)
    requires Numbered(fs) && i < |fs.nodes| && j < |fs.nodes| && i != j && fs.nodes[i].link == None && fs.nodes[j].link == None
    ensures fs.nodes[i].inode != fs.nodes[j].inode
  {
    assert i > 0 ==> NumberedNode(fs, i);
    assert j > 0 ==> NumberedNode(fs, j);
  }

  lemma NodeStateStep(fs: Fs, done: seq<nat>, nodes: Nodes, inodes: seq<Inode>, img: seq<byte>, pos: nat,
                      nodes': Nodes, inodes': seq<Inode>, img': seq<byte>, pos': nat, lo: nat, i: nat, j: nat)
    requires Numbered(fs) && Listable(fs) && IsOwnDir(fs, i)
    requires i < |fs.nodes| && j < |fs.nodes| && |nodes| == |fs.nodes| == |nodes'| && |inodes| == |fs.inodes| == |inodes'|
    requires 0 < fs.nodes[i].inode <= |inodes| && NodeState(fs, done, j, nodes, inodes, img, lo, pos)
    requires nodes' == nodes[i := nodes'[i]] && inodes' == inodes[fs.nodes[i].inode - 1 := inodes'[fs.nodes[i].inode - 1]]
    requires DirCommitted(fs, i, nodes'[i], inodes'[fs.nodes[i].inode - 1], img', lo, pos')
    requires SameBelow(img, img', pos) && pos <= pos'
    ensures NodeState(fs, done + [i], j, nodes', inodes', img', lo, pos')
  {
    hide *;
    NumbersOf(fs, j);
    NumbersOf(fs, i);
    OwnDirIs(fs, i);
    if i == j {
      StateOfNew(fs, done, i, nodes', inodes', img', pos', lo);
    } else {
      if fs.nodes[j].link == None {
        OwnNumbersDiffer(fs, i, j);
      }
      if IsOwnDir(fs, j) && j in done {
        StateWhenDone(fs, done, j, nodes, inodes, img, lo, pos);
        OwnDirIs(fs, j);
        CommittedStays(fs, j, nodes[j], inodes[fs.nodes[j].inode - 1], img, pos, img', pos', lo);
        StateWhenDone(fs, done + [i], j, nodes', inodes', img', lo, pos');
      } else {
        StateWhenNot(fs, done, j, nodes, inodes, img, lo, pos);
        StateWhenNot(fs, done + [i], j, nodes', inodes', img', lo, pos');
      }
    }
  }

  lemma OwnDirIs(fs: Fs, i: nat)
    requires Numbered(fs) && IsOwnDir(fs, i)
    ensures i < |fs.nodes| && fs.nodes[i].link == None
  {
  }

  lemma StateOfNew(fs: Fs, done: seq<nat>, i: nat, nodes: Nodes, inodes: seq<Inode>, img: seq<byte>, pos: nat, lo: nat)
    requires Numbered(fs) && Listable(fs) && IsOwnDir(fs, i) && i < |fs.nodes| == |nodes| && |inodes| == |fs.inodes|
    requires 0 < fs.nodes[i].inode <= |inodes| && DirCommitted(fs, i, nodes[i], inodes[fs.nodes[i].inode - 1], img, lo, pos)
    ensures NodeState(fs, done + [i], i, nodes, inodes, img, lo, pos)
  {
    hide DirCommitted, Numbered, Listable;
    assert (done + [i])[|done|] == i;
  }

  lemma StateWhenDone(fs: Fs, done: seq<nat>, i: nat, nodes: Nodes, inodes: seq<Inode>, img: seq<byte>, lo: nat, limit: nat)
    requires Numbered(fs) && Listable(fs) && IsOwnDir(fs, i) && i in done && i < |fs.nodes| == |nodes| && |inodes| == |fs.inodes|
    requires 0 < fs.nodes[i].inode <= |inodes|
    ensures NodeState(fs, done, i, nodes, inodes, img, lo, limit)
        <==> DirCommitted(fs, i, nodes[i], inodes[fs.nodes[i].inode - 1], img, lo, limit)
  {
    hide DirCommitted, Numbered, Listable;
  }

  lemma StateWhenNot(fs: Fs, done: seq<nat>, i: nat, nodes: Nodes, inodes: seq<Inode>, img: seq<byte>, lo: nat, limit: nat)
    requires Numbered(fs) && Listable(fs) && i < |fs.nodes| == |nodes| && |inodes| == |fs.inodes| && !(IsOwnDir(fs, i) && i in done)
    requires 0 < fs.nodes[i].inode <= |inodes|
    ensures NodeState(fs, done, i, nodes, inodes, img, lo, limit)
        <==> nodes[i] == fs.nodes[i] && (fs.nodes[i].link == None ==> inodes[fs.nodes[i].inode - 1] == OwnInode(fs, i))
  {
    hide DirCommitted, Numbered, Listable;
  }

  lemma CommittedStays(fs: Fs, j: nat, node: Node, inode: Inode, img: seq<byte>, pos: nat, img': seq<byte>, pos': nat, lo: nat)
    requires Numbered(fs) && Listable(fs) && j < |fs.nodes| && DirCommitted(fs, j, node, inode, img, lo, pos)
    requires SameBelow(img, img', pos) && pos <= pos'
    ensures DirCommitted(fs, j, node, inode, img', lo, pos')
  {
    DirListFits(fs, j);
    hide Numbered, Listable, DirBytes, DirList, DataStored, Reach, DirInode, SameBelow, AllFit;
    DataSurvives(img, img', pos, pos', inode.block, DirBytes(DirList(fs, j)), [node.blocks.value]);
  }

  // ---- All directories ----

  /** Node `i` and its inode when all is done: written out if it is a directory
      below the root, as they were otherwise. */
  predicate FinalState(fs: Fs, i: nat, nodes: Nodes, inodes: seq<Inode>, img: seq<byte>, lo: nat, limit: nat)
    requires Numbered(fs) && Listable(fs) && |nodes| == |fs.nodes| && |inodes| == |fs.inodes| && i < |fs.nodes|
  {
    NumbersOf(fs, i);
    if IsOwnDir(fs, i) && Attached(fs.nodes, i) then DirCommitted(fs, i, nodes[i], inodes[fs.nodes[i].inode - 1], img, lo, limit)
    else nodes[i] == fs.nodes[i] && (fs.nodes[i].link == None ==> inodes[fs.nodes[i].inode - 1] == OwnInode(fs, i))
  }

  /** Every attached directory, and nothing else, has been written out between
      bytes `lo` and `limit`. */
  ghost predicate Committed(fs: Fs, nodes: Nodes, inodes: seq<Inode>, img: seq<byte>, lo: nat, limit: nat)
    requires Numbered(fs) && Listable(fs)
  {
    && |nodes| == |fs.nodes| && |inodes| == |fs.inodes|
    && (forall i :: 0 <= i < |nodes| ==> FinalState(fs, i, nodes, inodes, img, lo, limit))
    && (forall k :: 0 <= k < RESERVED && k != ROOT_INODE - 1 ==> inodes[k] == fs.inodes[k])
  }

  /** With no name below a hard link, the walk reaches every attached node. */
  lemma {:induction false} ReachedIsAttached(fs: Fs, i: nat)
    requires Numbered(fs) && Plain(fs) && i < |fs.nodes|
    ensures Reached(fs.nodes, i) <==> Attached(fs.nodes, i)
    decreases i
  {
    if i > 0 {
      ReachedIsAttached(fs, fs.nodes[i].parent.value);
    }
  }

  lemma CommitDone(fs: Fs, order: seq<Visit>, nodes: Nodes, inodes: seq<Inode>, img: seq<byte>, lo: nat, limit: nat)
    requires Numbered(fs) && Listable(fs) && Plain(fs) && BreadthFirstOrder(fs.nodes, order)
    requires Progress(fs, NodesOf(order), nodes, inodes, img, lo, limit)
    ensures Committed(fs, nodes, inodes, img, lo, limit)
  {
    forall i | 0 <= i < |nodes| ensures FinalState(fs, i, nodes, inodes, img, lo, limit) {
      assert NodeState(fs, NodesOf(order), i, nodes, inodes, img, lo, limit);
      VisitedIsAttached(fs, order, i);
      hide DirCommitted, Numbered, Listable, Attached;
    }
  }

  lemma VisitedIsAttached(fs: Fs, order: seq<Visit>, i: nat)
    requires Numbered(fs) && Plain(fs) && BreadthFirstOrder(fs.nodes, order) && i < |fs.nodes|
    ensures i in NodesOf(order) <==> Attached(fs.nodes, i)
  {
    ReachedIsAttached(fs, i);
    hide Numbered, Reached, Attached, WellFormed, Plain;
    forall k | 0 <= k < |order| && order[k].node == i ensures Reached(fs.nodes, i) {
      assert VisitOk(fs.nodes, order[k]);
    }
  }

  lemma SkipStep(fs: Fs, done: seq<nat>, i: nat, nodes: Nodes, inodes: seq<Inode>, img: seq<byte>, lo: nat, limit: nat)
    requires Numbered(fs) && Listable(fs) && Progress(fs, done, nodes, inodes, img, lo, limit) && !IsOwnDir(fs, i)
    ensures Progress(fs, done + [i], nodes, inodes, img, lo, limit)
  {
    forall j | 0 <= j < |nodes| ensures NodeState(fs, done + [i], j, nodes, inodes, img, lo, limit) {
      assert NodeState(fs, done, j, nodes, inodes, img, lo, limit);
      hide DirCommitted, Numbered, Listable, OwnInode;
    }
  }

  lemma ProgressStarts(fs: Fs, img: seq<byte>, lo: nat, limit: nat)
    requires Numbered(fs) && Listable(fs)
    ensures Progress(fs, [], fs.nodes, fs.inodes, img, lo, limit)
  {
    forall i | 0 <= i < |fs.nodes| ensures NodeState(fs, [], i, fs.nodes, fs.inodes, img, lo, limit) {
      NumbersOf(fs, i);
      hide DirCommitted, Numbered, Listable;
    }
  }

  /** What is known of the next node of the walk. */
  lemma NextVisit(fs: Fs, order: seq<Visit>, k: nat)
    requires Numbered(fs) && Plain(fs) && BreadthFirstOrder(fs.nodes, order) && k < |order|
    ensures order[k].node < |fs.nodes| && order[k].parent == fs.nodes[order[k].node].parent
    ensures order[k].node !in NodesOf(order[..k]) && Attached(fs.nodes, order[k].node)
    ensures NodesOf(order[..k + 1]) == NodesOf(order[..k]) + [order[k].node]
  {
    assert VisitOk(fs.nodes, order[k]);
    ReachedIsAttached(fs, order[k].node);
    hide Numbered, Reached, Attached, WellFormed, Plain;
    forall j | 0 <= j < k ensures NodesOf(order[..k])[j] != order[k].node {
      assert NodesOf(order)[j] != NodesOf(order)[k];
    }
  }

  /** An attached directory still has no data, and its children are in use. */
  lemma ReadyToCommit(fs: Fs, i: nat, contents: seq<Content>, img: seq<byte>, limit: nat, first: nat)
    requires Inv(fs, 0) && OnDiskOk(fs, contents, img, limit, first)
    requires IsOwnDir(fs, i) && Attached(fs.nodes, i)
    ensures Blank(OwnInode(fs, i)) && KidsInUse(fs, i) && OwnInode(fs, i).links > 0
  {
    hide *;
    InvNumbered(fs, 0);
    OwnDirIs(fs, i);
    forall c | c in fs.nodes[i].children ensures c < |fs.nodes| && TargetInode(fs, c).links > 0 {
      ChildInUse(fs, i, c);
    }
    UseIs(fs, i);
    DirHasLinks(fs, i);
    DirIsBlank(fs, i, contents, img, limit, first);
  }

  lemma UseIs(fs: Fs, i: nat)
    requires Numbered(fs) && i < |fs.nodes| && forall c :: c in fs.nodes[i].children ==> c < |fs.nodes| && TargetInode(fs, c).links > 0
    ensures KidsInUse(fs, i)
  {
  }

  lemma ChildInUse(fs: Fs, i: nat, c: nat)
    requires Inv(fs, 0) && i < |fs.nodes| && c in fs.nodes[i].children && Attached(fs.nodes, i)
    ensures Numbered(fs) && c < |fs.nodes| && TargetInode(fs, c).links > 0
  {
    assert KidsOk(fs.nodes, i);
    assert Attached(fs.nodes, c);
    hide Kinds, Ownership;
    AttachedInUse(fs, c);
  }

  lemma AttachedInUse(fs: Fs, c: nat)
    requires Inv(fs, 0) && 0 < c < |fs.nodes| && Attached(fs.nodes, c)
    ensures TargetInode(fs, c).links > 0
  {
    hide *;
    InvNumbered(fs, 0);
    Shaped(fs);
    NumbersOf(fs, c);
    TargetIsHandedOut(fs, c);
    InvAt(fs, 0, Target(fs.nodes[c]));
    IsName(fs.nodes, Target(fs.nodes[c]), c);
    CountPositive(fs, 0, Target(fs.nodes[c]), c);
  }

  lemma TargetIsHandedOut(fs: Fs, c: nat)
    requires Numbered(fs) && 0 < c < |fs.nodes|
    ensures RESERVED < Target(fs.nodes[c]) <= |fs.inodes|
  {
    assert NumberedNode(fs, c);
  }

  lemma CountPositive(fs: Fs, extra: nat, n: nat, c: nat)
    requires Numbered(fs) && RESERVED < n <= |fs.inodes| && CountOk(fs, extra, n) && c in Names(fs.nodes, n)
    ensures fs.inodes[n - 1].links > 0
  {
    hide Names, Attached, WellFormed, UniqueNames;
    assert |Names(fs.nodes, n)| > 0;
  }

  lemma DirHasLinks(fs: Fs, i: nat)
    requires Inv(fs, 0) && i < |fs.nodes| && Attached(fs.nodes, i) && IsOwnDir(fs, i)
    ensures OwnInode(fs, i).links > 0
  {
    hide *;
    InvNumbered(fs, 0);
    if i == 0 {
      RootHasLinks(fs);
    } else {
      OwnDirIs(fs, i);
      AttachedInUse(fs, i);
      NumbersOf(fs, i);
      NoLinkTarget(fs.nodes[i]);
    }
  }

  lemma RootHasLinks(fs: Fs)
    requires Inv(fs, 0)
    ensures Numbered(fs) && |fs.nodes| > 0 && OwnInode(fs, 0).links > 0
  {
    hide WellFormed, UniqueNames, NumberedNode, NumberedInode, KindOk, IsDirMode;
    InvNumbered(fs, 0);
    Shaped(fs);
  }

  lemma NoLinkTarget(node: Node)
    requires node.link == None
    ensures Target(node) == node.inode
  {
  }

  lemma DirIsBlank(fs: Fs, i: nat, contents: seq<Content>, img: seq<byte>, limit: nat, first: nat)
    requires Inv(fs, 0) && OnDiskOk(fs, contents, img, limit, first) && i < |fs.nodes|
    requires IsOwnDir(fs, i) && OwnInode(fs, i).links > 0
    ensures Blank(OwnInode(fs, i))
  {
    NumbersOf(fs, i);
    var n := fs.nodes[i].inode;
    ReservedStay(fs, i);
    hide Inv, Numbered, DataStored, SameBelow, ValidName, PlacedOk, AscendingOk, OwnRanges;
    if n > RESERVED {
      assert StoredOk(fs, contents, img, limit, n);
      StoredDir(img, limit, OwnInode(fs, i), contents[n - 11], OwnRanges(fs, n));
    }
  }

  lemma StoredDir(img: seq<byte>, limit: nat, inode: Inode, c: Content, ranges: seq<BlockRange>)
    requires Stored(img, limit, inode, c, ranges) && inode.IsDir()
    ensures Blank(inode) && c == Directory
  {
  }

  /** commit_directories. Every attached directory is visited and written exactly
      once; nothing is written below the cursor. */
  method CommitDirectories(f: Formatter)
    requires f.Valid(0) && Plain(f.View()) && |f.tree.nodes| <= MAX_NAMES && |f.inodes| < 0x1_0000_0000
    modifies f`inodes, f.tree, f.file
    ensures Numbered(old(f.View())) && Listable(old(f.View()))
    ensures Committed(old(f.View()), f.tree.nodes, f.inodes, f.file.bytes, old(f.file.pos), f.file.pos)
    ensures SameBelow(old(f.file.bytes), f.file.bytes, old(f.file.pos)) && old(f.file.pos) <= f.file.pos
    ensures f.file.pos == DirectoriesEnd(old(f.View()), old(f.file.pos)) * 4096
  {
    hide *;
    ghost var fs, lo, img := f.View(), f.file.pos, f.file.bytes;
    ValidFacts(f);
    var order := BreadthFirst(f.tree);
    ProgressStarts(fs, img, lo, lo);
    SameBelowRefl(img, lo);
    ghost var w := Weights(fs);
    NoneSummed(w);
    assert order[..0] == [];
    for k := 0 to |order|
      invariant f.tree.Valid() && Progress(fs, NodesOf(order[..k]), f.tree.nodes, f.inodes, f.file.bytes, lo, f.file.pos)
      invariant SameBelow(img, f.file.bytes, lo) && lo <= f.file.pos
      invariant Places(w, NodesOf(order[..k]))
      invariant DivCeil(f.file.pos, 4096) == DivCeil(lo, 4096) + SumAt(w, NodesOf(order[..k]))
      invariant 0 in NodesOf(order[..k]) ==> f.file.pos % 4096 == 0
    {
      NextVisit(fs, order, k);
      ghost var done := NodesOf(order[..k]);
      var i := order[k].node;
      ProgressAgrees(fs, done, f.tree.nodes, f.inodes, f.file.bytes, lo, f.file.pos);
      VisitLookups(fs, f.tree.nodes, f.inodes, i);
      var inode := f.inodes[f.tree.nodes[i].inode - 1];
      ghost var was, pos := f.file.bytes, f.file.pos;
      if IsOwnDir(fs, i) {
        ReadyToCommit(fs, i, f.contents, img, lo, f.first);
      } else {
        SkipStep(fs, done, i, f.tree.nodes, f.inodes, f.file.bytes, lo, f.file.pos);
        RootIsDir(fs);
      }
      WeightAt(fs, i);
      SumAtSnoc(w, done, i);
      BlocksOn(f.file.pos, ListingBlocks(fs, i));
      if inode.links > 0 && f.tree.nodes[i].link == None && inode.IsDir() {
        CommitDirectory(f, order[k].parent, i, fs, done, lo);
        SameBelowTrans(img, was, f.file.bytes, lo, pos);
      }
    }
    assert order[..|order|] == order;
    RootIsMet(fs, order);
    AllSummed(fs, order);
    DirectoryBlocksIs(fs);
    BlocksOn(f.file.pos, 0);
    CommitDone(fs, order, f.tree.nodes, f.inodes, f.file.bytes, lo, f.file.pos);
  }

  lemma NoneSummed(w: seq<nat>)
    ensures NodesOf([]) == [] && Places(w, []) && SumAt(w, []) == 0
  {
  }

  lemma BlocksOn(pos: nat, n: nat)
    ensures DivCeil((DivCeil(pos, 4096) + n) * 4096, 4096) == DivCeil(pos, 4096) + n
    ensures (DivCeil(pos, 4096) + n) * 4096 % 4096 == 0
    ensures pos % 4096 == 0 ==> pos == DivCeil(pos, 4096) * 4096
  {
  }

  lemma AllSummed(fs: Fs, order: seq<Visit>)
    requires Numbered(fs) && Listable(fs) && Plain(fs) && BreadthFirstOrder(fs.nodes, order) && Places(Weights(fs), NodesOf(order))
    ensures SumAt(Weights(fs), NodesOf(order)) == DirectoryBlocks(fs)
  {
    hide *;
    var w := Weights(fs);
    forall i | 0 <= i < |w| && w[i] > 0 ensures i in NodesOf(order) {
      VisitedIsAttached(fs, order, i);
      WeightMeans(fs, i);
    }
    OrderDistinct(fs, order);
    SumInAnyOrder(w, NodesOf(order));
    DirectoryBlocksIs(fs);
  }

  lemma OrderDistinct(fs: Fs, order: seq<Visit>)
    requires Numbered(fs) && BreadthFirstOrder(fs.nodes, order)
    ensures Distinct(NodesOf(order))
  {
    hide Numbered;
  }

  lemma WeightMeans(fs: Fs, i: nat)
    requires Numbered(fs) && Listable(fs) && i < |Weights(fs)| && Weights(fs)[i] > 0
    ensures i < |fs.nodes| && Attached(fs.nodes, i)
  {
    hide Numbered, Listable, Attached, IsOwnDir, ListingBlocks;
  }

  lemma DirectoryBlocksIs(fs: Fs)
    requires Numbered(fs) && Listable(fs)
    ensures DirectoryBlocks(fs) == Sum(Weights(fs))
    ensures forall pos :: DirectoriesEnd(fs, pos) == DivCeil(pos, 4096) + DirectoryBlocks(fs)
  {
    hide Numbered, Listable, Weights, Sum, DivCeil;
  }

  lemma RootIsDir(fs: Fs)
    requires Inv(fs, 0)
    ensures IsOwnDir(fs, 0)
  {
  }

  lemma RootIsMet(fs: Fs, order: seq<Visit>)
    requires Numbered(fs) && BreadthFirstOrder(fs.nodes, order)
    ensures 0 in NodesOf(order)
  {
    assert Reached(fs.nodes, 0);
  }

  lemma VisitLookups(fs: Fs, nodes: Nodes, inodes: seq<Inode>, i: nat)
    requires Numbered(fs) && Agrees(fs, nodes, inodes) && i < |fs.nodes|
    ensures i < |nodes| && 0 < nodes[i].inode <= |inodes|
    ensures var inode := inodes[nodes[i].inode - 1];
      && inode.links == OwnInode(fs, i).links
      && (IsOwnDir(fs, i) <==> nodes[i].link == None && inode.IsDir())
  {
    NumbersOf(fs, i);
    hide Numbered, WellFormed, OwnInode, TargetInode, TypeBits;
  }

  lemma ValidFacts(f: Formatter)
    requires f.Valid(0) && |f.inodes| < 0x1_0000_0000
    ensures Numbered(f.View()) && Listable(f.View()) && f.tree.Valid() && Inv(f.View(), 0)
    ensures f.View().nodes == f.tree.nodes && f.View().inodes == f.inodes && |f.View().nodes| > 0
    ensures OnDiskOk(f.View(), f.contents, f.file.bytes, f.file.pos, f.first)
  {
    NamesAreValid(f.View(), 0, f.contents, f.file.bytes, f.file.pos, f.first);
  }
}
