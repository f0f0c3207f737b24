/** What every inode in use holds, and where it lies in the image: the link
    between the bookkeeping and the bytes written so far. */
module Contents {
  import opened Basics
  import opened Image
  import opened OnDisk
  import opened Extents
  import opened Trees
  import opened Namespace
  import opened Unlinking

  datatype Content = Directory | File(bytes: seq<byte>) | Symlink(target: seq<byte>)

  /** Whole blocks needed for `n` bytes. */
  function BlocksFor(n: nat): nat { DivCeil(n, 4096) }

  /** Blocks that `n` bytes take, extent tree included. */
  function DataBlocks(n: nat): nat { BlocksFor(n) + TreeBlocks(BlocksFor(n)) }

  /** Blocks that storing it takes, before directories are written. */
  function ContentBlocks(c: Content): nat {
    match c
    case Directory => 0
    case File(d) => DataBlocks(|d|)
    case Symlink(t) => if |t| < 60 then 0 else DataBlocks(|t|)
  }

  /** `d` fills the one range in `ranges`, and `block` is the root of its extent
      tree; index blocks follow the data. Nothing is stored for no bytes. */
  predicate DataStored(img: seq<byte>, limit: nat, block: seq<byte>, d: seq<byte>, ranges: seq<BlockRange>) {
    if d == [] then block == Zeros(60) && ranges == []
    else
      && |ranges| == 1
      && ranges[0].end == ranges[0].start + BlocksFor(|d|)
      && TreeStored(img, limit, block, ranges[0].start, BlocksFor(|d|), ranges[0].end)
      && AtBelow(img, limit, ranges[0].start * 4096, d)
  }

  /** What the inode is charged: data and index blocks, in its own unit. */
  function BlocksCharged(flags: nat, bytes: nat): nat {
    if bytes == 0 then 0 else Charge(flags, BlocksFor(bytes) + TreeBlocks(BlocksFor(bytes)))
  }

  predicate Stored(img: seq<byte>, limit: nat, inode: Inode, c: Content, ranges: seq<BlockRange>) {
    match c
    case Directory =>
      inode.IsDir() && inode.size == 0 && inode.block == Zeros(60) && inode.blocksLo == 0
      && inode.flags == HUGE_FILE && ranges == []
    case File(d) =>
      && inode.IsReg() && inode.size == |d| <= MAX_FILE_BLOCKS * 4096
      && inode.blocksLo == BlocksCharged(HUGE_FILE, |d|)
      && DataStored(img, limit, inode.block, d, ranges)
    case Symlink(t) =>
      && inode.IsLink() && inode.size == |t| <= MAX_FILE_BLOCKS * 4096
      && inode.blocksLo == (if |t| < 60 then 0 else BlocksCharged(0, |t|))
      && if |t| < 60 then inode.block == t + Zeros(60 - |t|) && ranges == []
         else DataStored(img, limit, inode.block, t, ranges)
  }

  lemma DataSurvives(was: seq<byte>, img: seq<byte>, limit: nat, limit': nat, block: seq<byte>, d: seq<byte>, ranges: seq<BlockRange>)
    requires SameBelow(was, img, limit) && limit <= limit' && DataStored(was, limit, block, d, ranges)
    ensures DataStored(img, limit', block, d, ranges)
  {
    if d != [] {
      TreeSurvives(was, img, limit, limit', block, ranges[0].start, BlocksFor(|d|), ranges[0].end);
      AtSurvives(was, img, limit, ranges[0].start * 4096, d);
    }
  }

  /** The two inodes say the same about the data they own. */
  predicate SameData(a: Inode, b: Inode) {
    && b.size == a.size && b.block == a.block && b.blocksLo == a.blocksLo && b.flags == a.flags
    && TypeBits(b.mode) == TypeBits(a.mode)
  }

  lemma StoredSurvives(was: seq<byte>, img: seq<byte>, limit: nat, limit': nat, a: Inode, b: Inode, c: Content, ranges: seq<BlockRange>)
    requires SameBelow(was, img, limit) && limit <= limit' && Stored(was, limit, a, c, ranges) && SameData(a, b)
    ensures Stored(img, limit', b, c, ranges)
  {
    hide DataStored, TypeBits;
    match c {
      case Directory =>
      case File(d) => DataSurvives(was, img, limit, limit', a.block, d, ranges);
      case Symlink(t) =>
        if |t| >= 60 {
          DataSurvives(was, img, limit, limit', a.block, t, ranges);
        }
    }
  }

  /** A name that can stand in a directory block and in a path. */
  predicate ValidName(name: Name) {
    0 < |name| <= 255 && '/' as int !in name && name != DOT && name != DOTDOT
  }

  const DOT: Name := ['.' as int]
  const DOTDOT: Name := ['.' as int, '.' as int]
  const SLASH: Name := ['/' as int]

  predicate StoredOk(fs: Fs, contents: seq<Content>, img: seq<byte>, limit: nat, n: nat)
    requires Numbered(fs) && RESERVED < n <= |fs.inodes| && |contents| == |fs.origin|
  {
    fs.inodes[n - 1].links > 0 ==> Stored(img, limit, fs.inodes[n - 1], contents[n - 11], OwnRanges(fs, n))
  }

  /** A range and the index blocks behind it lie between `first` and `limit`. */
  predicate PlacedOk(fs: Fs, first: nat, limit: nat, n: nat)
    requires Numbered(fs) && RESERVED < n <= |fs.inodes|
  {
    var rs := OwnRanges(fs, n);
    |rs| <= 1 && (|rs| == 1 ==> first <= rs[0].start < rs[0].end && Reach(rs[0]) * 4096 <= limit)
  }

  /** First block after a range and its index blocks. */
  function Reach(r: BlockRange): nat {
    if r.start <= r.end then r.end + TreeBlocks(r.end - r.start) else r.end
  }

  predicate AscendingOk(fs: Fs, m: nat, n: nat)
    requires Numbered(fs) && RESERVED < m < n <= |fs.inodes|
  {
    var a, b := OwnRanges(fs, m), OwnRanges(fs, n);
    forall i, j :: 0 <= i < |a| && 0 <= j < |b| ==> Reach(a[i]) <= b[j].start
  }

  /** The reserved inodes: the root directory and nine empty ones. */
  predicate ReservedOk(fs: Fs)
    requires Numbered(fs)
  {
    && Stored([], 0, fs.inodes[ROOT_INODE - 1], Directory, [])
    && forall k :: 0 <= k < RESERVED && k != ROOT_INODE - 1 ==> fs.inodes[k] == EMPTY_INODE
  }

  /** Everything in use is on disk below the cursor, each thing in its own
      blocks, handed out in the order the inodes were. */
  ghost predicate OnDiskOk(fs: Fs, contents: seq<Content>, img: seq<byte>, limit: nat, first: nat)
    requires Numbered(fs)
  {
    && |contents| == |fs.origin|
    && ReservedOk(fs)
    && (forall k :: 0 <= k < |fs.inodes| ==> fs.inodes[k].Fits())
    && fs.nodes[0].name == SLASH && (forall i :: 0 < i < |fs.nodes| ==> ValidName(fs.nodes[i].name))
    && (forall n :: RESERVED < n <= |fs.inodes| ==> StoredOk(fs, contents, img, limit, n))
    && (forall n :: RESERVED < n <= |fs.inodes| ==> PlacedOk(fs, first, limit, n))
    && (forall m, n :: RESERVED < m < n <= |fs.inodes| ==> AscendingOk(fs, m, n))
  }

  predicate InodeKept(a: Inode, b: Inode) {
    && (b.links > 0 ==> a.links > 0 && SameData(a, b))
    && (a.Fits() ==> b.Fits())
  }

  /** `b` has the inodes of `a` with their ranges; those in use were in use and
      hold the same data. */
  ghost predicate DataKept(a: Fs, b: Fs)
    requires Numbered(a) && Numbered(b)
  {
    && |a.inodes| == |b.inodes|
    && (forall n :: RESERVED < n <= |a.inodes| ==> OwnRanges(b, n) == OwnRanges(a, n))
    && (forall k :: 0 <= k < |a.inodes| ==> InodeKept(a.inodes[k], b.inodes[k]))
    && SameData(a.inodes[ROOT_INODE - 1], b.inodes[ROOT_INODE - 1])
    && (forall k :: 0 <= k < RESERVED && k != ROOT_INODE - 1 ==> b.inodes[k] == a.inodes[k])
    && b.nodes[0].name == a.nodes[0].name
    && (forall i :: 0 < i < |b.nodes| ==> (i < |a.nodes| && b.nodes[i].name == a.nodes[i].name) || ValidName(b.nodes[i].name))
  }

  lemma OnDiskFollows(a: Fs, b: Fs, contents: seq<Content>, was: seq<byte>, img: seq<byte>, limit: nat, limit': nat, first: nat)
    requires Numbered(a) && Numbered(b) && DataKept(a, b) && OnDiskOk(a, contents, was, limit, first)
    requires SameBelow(was, img, limit) && limit <= limit'
    ensures OnDiskOk(b, contents, img, limit', first)
  {
    hide Numbered, Stored, TypeBits, OwnRanges, SameBelow, ValidName, Reach, SameData;
    OriginLength(a);
    OriginLength(b);
    forall n | RESERVED < n <= |b.inodes|
      ensures StoredOk(b, contents, img, limit', n) && PlacedOk(b, first, limit', n)
    {
      assert StoredOk(a, contents, was, limit, n) && PlacedOk(a, first, limit, n);
      assert OwnRanges(b, n) == OwnRanges(a, n);
      assert InodeKept(a.inodes[n - 1], b.inodes[n - 1]);
      if b.inodes[n - 1].links > 0 {
        StoredSurvives(was, img, limit, limit', a.inodes[n - 1], b.inodes[n - 1], contents[n - 11], OwnRanges(a, n));
      }
    }
    forall m, n | RESERVED < m < n <= |b.inodes| ensures AscendingOk(b, m, n) {
      assert AscendingOk(a, m, n);
      assert OwnRanges(b, n) == OwnRanges(a, n) && OwnRanges(b, m) == OwnRanges(a, m);
    }
    RootStaysStored(a, b);
  }

  lemma OriginLength(fs: Fs)
    requires Numbered(fs)
    ensures |fs.inodes| == RESERVED + |fs.origin|
  {
  }

  lemma RootStaysStored(a: Fs, b: Fs)
    requires Numbered(a) && Numbered(b) && DataKept(a, b) && ReservedOk(a)
    ensures ReservedOk(b)
  {
    hide DataStored, TypeBits;
    var r, r' := a.inodes[ROOT_INODE - 1], b.inodes[ROOT_INODE - 1];
    StoredSurvives([], [], 0, 0, r, r', Directory, []);
  }

  lemma SameNodeRanges(a: Fs, b: Fs)
    requires Numbered(a) && Numbered(b) && |b.inodes| >= |a.inodes| && a.origin <= b.origin
    requires |a.nodes| <= |b.nodes|
    requires forall i :: 0 <= i < |a.nodes| ==> b.nodes[i] == a.nodes[i].(children := b.nodes[i].children)
    ensures forall n :: RESERVED < n <= |a.inodes| ==> OwnRanges(b, n) == OwnRanges(a, n)
  {
    hide WellFormed, UniqueNames;
    forall n | RESERVED < n <= |a.inodes| ensures OwnRanges(b, n) == OwnRanges(a, n) {
      assert NumberedInode(a, n) && NumberedInode(b, n);
      var i := a.origin[n - 11];
      SameRanges(a.nodes[i], b.nodes[i]);
    }
  }

  /** `unlink` leaves every inode still in use with the data it had. */
  lemma UnlinkKeepsData(a: Fs, b: Fs, contents: seq<Content>, img: seq<byte>, limit: nat, first: nat)
    requires Numbered(a) && Numbered(b) && SameNodes(a, b) && a.inodes[ROOT_INODE - 1].IsDir()
    requires OnDiskOk(a, contents, img, limit, first)
    ensures OnDiskOk(b, contents, img, limit, first)
  {
    SameNodeRanges(a, b);
    hide Numbered, OwnRanges, IsDirMode, IsRegMode, IsLinkMode, ReservedOk;
    forall k | 0 <= k < |a.inodes| ensures InodeKept(a.inodes[k], b.inodes[k]) {
      assert InodeStep(a.inodes[k], b.inodes[k]);
    }
    UnlinkKeepsReserved(a, b);
    OnDiskFollows(a, b, contents, img, img, limit, limit, first);
  }

  lemma UnlinkKeepsReserved(a: Fs, b: Fs)
    requires Numbered(a) && SameNodes(a, b) && ReservedOk(a)
    ensures SameData(a.inodes[ROOT_INODE - 1], b.inodes[ROOT_INODE - 1])
    ensures forall k :: 0 <= k < RESERVED && k != ROOT_INODE - 1 ==> b.inodes[k] == a.inodes[k]
  {
    forall k | 0 <= k < RESERVED ensures InodeStep(a.inodes[k], b.inodes[k]) {
    }
  }

  /** Rewriting one inode in place keeps the data of all. */
  lemma SetInodeKeepsData(a: Fs, n: nat, inode: Inode, contents: seq<Content>, img: seq<byte>, limit: nat, first: nat)
    requires Numbered(a) && 0 < n <= |a.inodes| && Numbered(SetInode(a, n, inode))
    requires SameUse(a.inodes[n - 1], inode) && SameData(a.inodes[n - 1], inode) && inode.Fits()
    requires n <= RESERVED ==> n == ROOT_INODE
    requires OnDiskOk(a, contents, img, limit, first)
    ensures OnDiskOk(SetInode(a, n, inode), contents, img, limit, first)
  {
    var b := SetInode(a, n, inode);
    SameNodeRanges(a, b);
    hide Numbered, OwnRanges, IsDirMode, ReservedOk, TypeBits;
    OnDiskFollows(a, b, contents, img, img, limit, limit, first);
  }

  /** Adding a hard link touches no data. */
  lemma AddLinkKeepsData(a: Fs, p: nat, name: Name, t: nat, contents: seq<Content>, img: seq<byte>, limit: nat, first: nat)
    requires Numbered(a) && p < |a.nodes| && RESERVED < t <= |a.inodes| && Numbered(AddLink(a, p, name, t)) && ValidName(name)
    requires OnDiskOk(a, contents, img, limit, first)
    ensures OnDiskOk(AddLink(a, p, name, t), contents, img, limit, first)
  {
    var b := AddLink(a, p, name, t);
    SameNodeRanges(a, b);
    hide Numbered, OwnRanges, IsDirMode, ReservedOk, TypeBits, ValidName;
    OnDiskFollows(a, b, contents, img, img, limit, limit, first);
  }

  /** An old inode still has its data when more has been written above. */
  lemma OldStays(a: Fs, b: Fs, contents: seq<Content>, more: seq<Content>, was: seq<byte>, img: seq<byte>,
                 limit: nat, limit': nat, first: nat, n: nat)
    requires Numbered(a) && Numbered(b) && RESERVED < n <= |a.inodes| <= |b.inodes|
    requires |contents| == |a.origin| && |contents + more| == |b.origin|
    requires StoredOk(a, contents, was, limit, n) && PlacedOk(a, first, limit, n)
    requires SameBelow(was, img, limit) && limit <= limit'
    requires InodeKept(a.inodes[n - 1], b.inodes[n - 1]) && OwnRanges(b, n) == OwnRanges(a, n)
    ensures StoredOk(b, contents + more, img, limit', n) && PlacedOk(b, first, limit', n)
  {
    hide Numbered, OwnRanges, Stored, SameBelow, SameData;
    OriginLength(a);
    if b.inodes[n - 1].links > 0 {
      StoredSurvives(was, img, limit, limit', a.inodes[n - 1], b.inodes[n - 1], contents[n - 11], OwnRanges(a, n));
    }
  }

  lemma NewAscends(a: Fs, b: Fs, limit: nat, first: nat, m: nat, rs: seq<BlockRange>)
    requires Numbered(a) && Numbered(b) && RESERVED < m <= |a.inodes| < |b.inodes|
    requires PlacedOk(a, first, limit, m) && OwnRanges(b, m) == OwnRanges(a, m)
    requires OwnRanges(b, |a.inodes| + 1) == rs && forall j :: 0 <= j < |rs| ==> limit <= rs[j].start * 4096
    ensures AscendingOk(b, m, |a.inodes| + 1)
  {
    hide Numbered, OwnRanges;
  }

  /** The new inode and its range meet what `AttachStores` asks of them. */
  predicate NewStored(a: Fs, inode: Inode, blocks: Option<BlockRange>, c: Content, img: seq<byte>, limit: nat, limit': nat, first: nat) {
    && inode.Fits()
    && Stored(img, limit', inode, c, if blocks.Some? then [blocks.value] else [])
    && (blocks.Some? ==>
        && limit <= blocks.value.start * 4096 && first <= blocks.value.start < blocks.value.end
        && Reach(blocks.value) * 4096 <= limit')
  }

  lemma AttachStoredAt(a: Fs, p: nat, name: Name, inode: Inode, blocks: Option<BlockRange>,
                       contents: seq<Content>, c: Content, was: seq<byte>, img: seq<byte>, limit: nat, limit': nat, first: nat, n: nat)
    requires Numbered(a) && p < |a.nodes| && Numbered(Attach(a, p, name, inode, blocks))
    requires OnDiskOk(a, contents, was, limit, first) && SameBelow(was, img, limit) && limit <= limit'
    requires inode.IsDir() ==> OwnInode(a, p).links + 1 < 0x1_0000 && OwnInode(a, p).links > 0
    requires NewStored(a, inode, blocks, c, img, limit, limit', first)
    requires RESERVED < n <= |a.inodes| + 1
    ensures var b := Attach(a, p, name, inode, blocks);
      StoredOk(b, contents + [c], img, limit', n) && PlacedOk(b, first, limit', n)
  {
    var b := Attach(a, p, name, inode, blocks);
    SameNodeRanges(a, b);
    AttachKept(a, p, name, inode, blocks);
    NewRanges(a, p, name, inode, blocks);
    OriginLength(a);
    hide Numbered, OwnRanges, Stored, SameBelow, Attach, SameData, ValidName, Namespace.NodeRanges, Inode.Fits, Reach;
    if n <= |a.inodes| {
      assert StoredOk(a, contents, was, limit, n) && PlacedOk(a, first, limit, n);
      OldStays(a, b, contents, [c], was, img, limit, limit', first, n);
    }
  }

  lemma AttachAscendsAt(a: Fs, p: nat, name: Name, inode: Inode, blocks: Option<BlockRange>,
                        contents: seq<Content>, c: Content, was: seq<byte>, img: seq<byte>, limit: nat, limit': nat, first: nat, m: nat, n: nat)
    requires Numbered(a) && p < |a.nodes| && Numbered(Attach(a, p, name, inode, blocks))
    requires OnDiskOk(a, contents, was, limit, first)
    requires NewStored(a, inode, blocks, c, img, limit, limit', first)
    requires RESERVED < m < n <= |a.inodes| + 1
    ensures AscendingOk(Attach(a, p, name, inode, blocks), m, n)
  {
    var b := Attach(a, p, name, inode, blocks);
    hide *;
    RangeBehind(a, inode, blocks, c, img, limit, limit', first);
    AttachRanges(a, p, name, inode, blocks);
    if n <= |a.inodes| {
      AscendingAt(a, contents, was, limit, first, m, n);
      AscendingSame(a, b, m, n);
    } else {
      PlacedHere(a, contents, was, limit, first, m);
      NewAscends(a, b, limit, first, m, if blocks.Some? then [blocks.value] else []);
    }
  }

  lemma AttachRanges(a: Fs, p: nat, name: Name, inode: Inode, blocks: Option<BlockRange>)
    requires Numbered(a) && p < |a.nodes| && Numbered(Attach(a, p, name, inode, blocks))
    requires blocks.Some? ==> blocks.value.start < blocks.value.end
    ensures var b := Attach(a, p, name, inode, blocks);
      && |b.inodes| == |a.inodes| + 1
      && (forall n :: RESERVED < n <= |a.inodes| ==> OwnRanges(b, n) == OwnRanges(a, n))
      && RESERVED <= |a.inodes| && OwnRanges(b, |a.inodes| + 1) == if blocks.Some? then [blocks.value] else []
  {
    hide *;
    AttachShape(a, p, name, inode, blocks);
    SameNodeRanges(a, Attach(a, p, name, inode, blocks));
    NewRanges(a, p, name, inode, blocks);
  }

  lemma AttachShape(a: Fs, p: nat, name: Name, inode: Inode, blocks: Option<BlockRange>)
    requires Numbered(a) && p < |a.nodes|
    ensures var b := Attach(a, p, name, inode, blocks);
      && |b.nodes| == |a.nodes| + 1 && |b.inodes| == |a.inodes| + 1 && a.origin <= b.origin && RESERVED <= |a.inodes|
      && forall i :: 0 <= i < |a.nodes| ==> b.nodes[i] == a.nodes[i].(children := b.nodes[i].children)
  {
    Shaped(a);
    hide Numbered;
  }

  lemma RangeBehind(a: Fs, inode: Inode, blocks: Option<BlockRange>, c: Content, img: seq<byte>, limit: nat, limit': nat, first: nat)
    requires NewStored(a, inode, blocks, c, img, limit, limit', first)
    ensures blocks.Some? ==> limit <= blocks.value.start * 4096 && blocks.value.start < blocks.value.end
  {
    hide Stored, Reach, Inode.Fits;
  }

  lemma AscendingAt(fs: Fs, contents: seq<Content>, img: seq<byte>, limit: nat, first: nat, m: nat, n: nat)
    requires Numbered(fs) && OnDiskOk(fs, contents, img, limit, first) && RESERVED < m < n <= |fs.inodes|
    ensures AscendingOk(fs, m, n)
  {
    hide Numbered, AscendingOk, StoredOk, PlacedOk, ReservedOk, ValidName;
  }

  lemma PlacedHere(fs: Fs, contents: seq<Content>, img: seq<byte>, limit: nat, first: nat, m: nat)
    requires Numbered(fs) && OnDiskOk(fs, contents, img, limit, first) && RESERVED < m <= |fs.inodes|
    ensures PlacedOk(fs, first, limit, m)
  {
    hide Numbered, AscendingOk, StoredOk, PlacedOk, ReservedOk, ValidName;
  }

  lemma AscendingSame(a: Fs, b: Fs, m: nat, n: nat)
    requires Numbered(a) && Numbered(b) && RESERVED < m < n <= |a.inodes| <= |b.inodes|
    requires OwnRanges(b, m) == OwnRanges(a, m) && OwnRanges(b, n) == OwnRanges(a, n) && AscendingOk(a, m, n)
    ensures AscendingOk(b, m, n)
  {
    hide Numbered, OwnRanges, Reach;
  }

  /** A new inode whose data was just written above everything else. */
  lemma AttachStores(a: Fs, p: nat, name: Name, inode: Inode, blocks: Option<BlockRange>,
                     contents: seq<Content>, c: Content, was: seq<byte>, img: seq<byte>, limit: nat, limit': nat, first: nat)
    requires Numbered(a) && p < |a.nodes| && Numbered(Attach(a, p, name, inode, blocks))
    requires OnDiskOk(a, contents, was, limit, first) && SameBelow(was, img, limit) && limit <= limit'
    requires inode.IsDir() ==> OwnInode(a, p).links + 1 < 0x1_0000 && OwnInode(a, p).links > 0
    requires NewStored(a, inode, blocks, c, img, limit, limit', first) && ValidName(name)
    ensures OnDiskOk(Attach(a, p, name, inode, blocks), contents + [c], img, limit', first)
  {
    var b, k := Attach(a, p, name, inode, blocks), |a.inodes| + 1;
    AttachKept(a, p, name, inode, blocks);
    OriginLength(a);
    AttachNames(a, p, name, inode, blocks);
    hide Numbered, OwnRanges, Stored, SameBelow, Attach, SameData, ValidName, Namespace.NodeRanges, Inode.Fits, Reach;
    hide StoredOk, PlacedOk, AscendingOk;
    forall n | RESERVED < n <= k
      ensures StoredOk(b, contents + [c], img, limit', n) && PlacedOk(b, first, limit', n)
    {
      AttachStoredAt(a, p, name, inode, blocks, contents, c, was, img, limit, limit', first, n);
    }
    forall m, n | RESERVED < m < n <= k ensures AscendingOk(b, m, n) {
      AttachAscendsAt(a, p, name, inode, blocks, contents, c, was, img, limit, limit', first, m, n);
    }
    forall j | 0 <= j < k ensures b.inodes[j].Fits() {
      assert j < |a.inodes| ==> InodeKept(a.inodes[j], b.inodes[j]);
    }
  }

  lemma AttachNames(a: Fs, p: nat, name: Name, inode: Inode, blocks: Option<BlockRange>)
    requires Numbered(a) && p < |a.nodes|
    ensures var b := Attach(a, p, name, inode, blocks);
      && (forall i :: 0 <= i < |a.nodes| ==> b.nodes[i].name == a.nodes[i].name)
      && b.nodes[|a.nodes|].name == name
  {
  }

  lemma NewRanges(a: Fs, p: nat, name: Name, inode: Inode, blocks: Option<BlockRange>)
    requires Numbered(a) && p < |a.nodes| && Numbered(Attach(a, p, name, inode, blocks))
    requires blocks.Some? ==> blocks.value.start < blocks.value.end
    ensures var rs := OwnRanges(Attach(a, p, name, inode, blocks), |a.inodes| + 1);
      rs == NodeRanges(NewNode(|a.inodes| + 1, name, blocks)) && rs == if blocks.Some? then [blocks.value] else []
  {
    hide WellFormed, UniqueNames;
    assert NumberedInode(Attach(a, p, name, inode, blocks), |a.inodes| + 1);
  }

  lemma AttachKept(a: Fs, p: nat, name: Name, inode: Inode, blocks: Option<BlockRange>)
    requires Numbered(a) && p < |a.nodes|
    requires inode.IsDir() ==> OwnInode(a, p).links + 1 < 0x1_0000 && OwnInode(a, p).links > 0
    requires ReservedOk(a)
    ensures var b := Attach(a, p, name, inode, blocks);
      && (forall k :: 0 <= k < |a.inodes| ==> InodeKept(a.inodes[k], b.inodes[k]))
      && (Numbered(b) ==> ReservedOk(b))
  {
    hide WellFormed, UniqueNames, IsDirMode;
    assert p > 0 ==> NumberedNode(a, p);
  }

  lemma FitsAt(fs: Fs, contents: seq<Content>, img: seq<byte>, limit: nat, first: nat, k: nat)
    requires Numbered(fs) && OnDiskOk(fs, contents, img, limit, first) && k < |fs.inodes|
    ensures fs.inodes[k].Fits() && |fs.inodes[k].block| == 60
  {
  }
}
