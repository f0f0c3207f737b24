/** Reading a finished image: every inode is found where the inode table put it,
    every directory lists what it should, every file's extents lead to its
    bytes. */
module Volumes {
  import opened Basics
  import opened Image
  import opened OnDisk
  import opened Extents
  import opened Directory
  import opened Trees
  import opened Namespace
  import opened Contents
  import opened Layout
  import opened Bitmaps
  import opened Groups
  import opened Accounting
  import opened Listing
  import opened Committing
  import opened Closing
  import opened Finish
  import opened Reading

  // ---- Inodes ----

  /** The superblock of that image as the reader sees it. */
  function SuperFor(geo: Geometry, deleted: seq<BlockRange>, inodes: seq<Inode>): SuperBlock
    requires geo.Ok()
  {
    CandidateFits(geo);
    SuperOf(geo, TotalUsed(geo, deleted, geo.total), TotalUsedInodes(geo, inodes, geo.total))
  }

  lemma UsedIsLess(geo: Geometry, deleted: seq<BlockRange>)
    requires geo.Ok()
    ensures TotalUsed(geo, deleted, geo.total) <= geo.blocks
  {
    FreeIsRest(geo, deleted, geo.total);
    SizesSum(geo);
    hide Geometry.Ok, Regular;
  }

  lemma SuperReads(img: seq<byte>, geo: Geometry, deleted: seq<BlockRange>, inodes: seq<Inode>)
    requires geo.Ok() && SuperAt(img, geo, deleted, inodes)
    ensures ReadSuper(img) == Ok(SuperFor(geo, deleted, inodes))
    ensures var sb := SuperFor(geo, deleted, inodes);
      Supported(sb) && sb.inodesPerGroup == geo.ipg && sb.inodeSize == 256
  {
    CandidateFits(geo);
    UsedIsLess(geo, deleted);
    OkFacts(geo);
    SlotsFit(geo);
    var sb := SuperFor(geo, deleted, inodes);
    assert At(img, 1024, EncodeSuper(sb));
    hide Geometry.Ok, TotalUsed, TotalUsedInodes, EncodeSuper, DecodeSuper, DescriptorsAt, GroupsAt, TableAt, Slots;
    SuperRoundTrip(sb);
  }

  lemma MetadataSuper(img: seq<byte>, geo: Geometry, deleted: seq<BlockRange>, inodes: seq<Inode>)
    requires geo.Ok() && MetadataAt(img, geo, deleted, inodes)
    ensures SuperAt(img, geo, deleted, inodes)
  {
    hide Geometry.Ok, TotalUsed, TotalUsedInodes, EncodeSuper, At, DescriptorsAt, GroupsAt, TableAt, SuperOf;
  }

  lemma SlotsFit(geo: Geometry)
    requires geo.Ok()
    ensures Slots(geo.total, geo.ipg) < 0x1_0000_0000
  {
  }

  lemma DescriptorReads(img: seq<byte>, geo: Geometry, deleted: seq<BlockRange>, inodes: seq<Inode>, g: nat)
    requires geo.Ok() && g < geo.total && DescriptorsAt(img, AllDescriptors(geo, deleted, inodes), geo.total)
    ensures ReadDescriptor(img, g) == Ok(Descriptor(geo, deleted, inodes, g))
  {
    DescriptorThere(img, geo, deleted, inodes, g);
    DescriptorFits(geo, deleted, inodes, g);
    hide *;
    DescriptorRoundTrip(Descriptor(geo, deleted, inodes, g));
    DescriptorHere(img, g, Descriptor(geo, deleted, inodes, g));
  }

  lemma DescriptorThere(img: seq<byte>, geo: Geometry, deleted: seq<BlockRange>, inodes: seq<Inode>, g: nat)
    requires geo.Ok() && g < geo.total && DescriptorsAt(img, AllDescriptors(geo, deleted, inodes), geo.total)
    ensures At(img, 4096 + 32 * g, EncodeDescriptor(Descriptor(geo, deleted, inodes, g)))
  {
    hide Geometry.Ok, Descriptor, EncodeDescriptor, At;
    var descs := AllDescriptors(geo, deleted, inodes);
    assert DescriptorAt(img, descs, g);
  }

  lemma DescriptorHere(img: seq<byte>, g: nat, gd: GroupDescriptor)
    requires At(img, 4096 + 32 * g, EncodeDescriptor(gd)) && DecodeDescriptor(EncodeDescriptor(gd)) == gd
    ensures ReadDescriptor(img, g) == Ok(gd)
  {
    hide EncodeDescriptor, DecodeDescriptor;
  }

  /** Splitting an inode number into group and index, and joining them again. */
  lemma Address(n: nat, ipg: nat, groups: nat)
    requires 0 < n <= Slots(groups, ipg) && ipg > 0
    ensures GroupOf(n, ipg) < groups
    ensures n - 1 == Slots(GroupOf(n, ipg), ipg) + IndexOf(n, ipg)
  {
    if GroupOf(n, ipg) >= groups {
      MulGrows(groups, GroupOf(n, ipg), ipg);
    }
  }

  lemma TableBytes(ipg: nat, g: nat)
    requires ipg in {8192, 16384, 24576, 32768}
    ensures Tables(g, ipg) * 4096 == 256 * Slots(g, ipg)
  {
  }

  lemma StartIs(geo: Geometry, g: nat)
    ensures TableStart(geo, g) == geo.table + Tables(g, geo.ipg)
  {
  }

  /** The reader's address of inode `n` is where the inode table put it. */
  lemma InodeAddress(geo: Geometry, n: nat)
    requires geo.Ok() && 0 < n <= Slots(geo.groups, geo.ipg)
    ensures geo.ipg > 0 && GroupOf(n, geo.ipg) < geo.groups <= geo.total
    ensures TableStart(geo, GroupOf(n, geo.ipg)) * 4096 + IndexOf(n, geo.ipg) * 256 == geo.table * 4096 + 256 * (n - 1)
  {
    hide *;
    CandidateFits(geo);
    OkCandidate(geo);
    OkFacts(geo);
    Address(n, geo.ipg, geo.groups);
    TableBytes(geo.ipg, GroupOf(n, geo.ipg));
    StartIs(geo, GroupOf(n, geo.ipg));
  }

  lemma OkCandidate(geo: Geometry)
    requires geo.Ok()
    ensures geo.ipg in {8192, 16384, 24576, 32768}
  {
    CandidateCases(geo.ipg);
  }

  lemma InodeReads(img: seq<byte>, geo: Geometry, deleted: seq<BlockRange>, inodes: seq<Inode>, n: nat)
    requires geo.Ok() && MetadataAt(img, geo, deleted, inodes) && 0 < n <= |inodes| && inodes[n - 1].Fits()
    ensures Supported(SuperFor(geo, deleted, inodes))
    ensures ReadInode(img, SuperFor(geo, deleted, inodes), n) == Ok(inodes[n - 1])
  {
    hide *;
    MetadataSuper(img, geo, deleted, inodes);
    SuperReads(img, geo, deleted, inodes);
    MetadataParts(img, geo, deleted, inodes, n - 1);
    InodeAddress(geo, n);
    var sb, g := SuperFor(geo, deleted, inodes), GroupOf(n, geo.ipg);
    DescriptorReads(img, geo, deleted, inodes, g);
    DescriptorTable(geo, deleted, inodes, g);
    InodeHere(img, sb, n, Descriptor(geo, deleted, inodes, g), geo.table * 4096 + 256 * (n - 1), inodes[n - 1]);
  }

  lemma MetadataParts(img: seq<byte>, geo: Geometry, deleted: seq<BlockRange>, inodes: seq<Inode>, k: nat)
    requires geo.Ok() && MetadataAt(img, geo, deleted, inodes) && k < |inodes|
    ensures geo.total > 0 && DescriptorsAt(img, AllDescriptors(geo, deleted, inodes), geo.total)
    ensures |inodes| <= Slots(geo.groups, geo.ipg) && InodeAt(img, geo.table, inodes, k)
    ensures |inodes[k].block| == 60 && At(img, geo.table * 4096 + 256 * k, EncodeInode(inodes[k]))
  {
    hide Geometry.Ok, GroupsAt, At, Slots, DescriptorsAt;
    assert InodesAt(img, geo.table, inodes, |inodes|);
  }

  lemma DescriptorTable(geo: Geometry, deleted: seq<BlockRange>, inodes: seq<Inode>, g: nat)
    requires geo.Ok() && g < geo.groups <= geo.total
    ensures Descriptor(geo, deleted, inodes, g).inodeTable == TableStart(geo, g)
  {
    hide Geometry.Ok, TableStart;
  }

  lemma InodeHere(img: seq<byte>, sb: SuperBlock, n: nat, gd: GroupDescriptor, off: nat, inode: Inode)
    requires n > 0 && Supported(sb) && sb.inodesPerGroup > 0 && sb.inodeSize == 256
    requires ReadDescriptor(img, GroupOf(n, sb.inodesPerGroup)) == Ok(gd)
    requires gd.inodeTable * 4096 + IndexOf(n, sb.inodesPerGroup) * 256 == off
    requires inode.Fits() && |inode.block| == 60 && At(img, off, EncodeInode(inode))
    ensures ReadInode(img, sb, n) == Ok(inode)
  {
    hide ReadDescriptor, EncodeInode, DecodeInode, Inode.Fits, GroupOf, IndexOf;
    InodeRoundTrip(inode);
    assert InodeOffset(sb, gd, n) == off;
  }

  // ---- Extents and the bytes they lead to ----

  /** The extents recorded in `block` cover exactly the blocks `start` to
      `start + n`, and `d` lies there. */
  predicate LeadsTo(img: seq<byte>, block: seq<byte>, start: nat, n: nat, d: seq<byte>)
    requires |block| == 60
  {
    ParseExtents(block, img) == Ok(Ranges(start, n)) && n == BlocksFor(|d|) && At(img, start * 4096, d)
  }

  lemma DataLeads(img: seq<byte>, limit: nat, block: seq<byte>, d: seq<byte>, ranges: seq<BlockRange>)
    requires |block| == 60 && d != [] && DataStored(img, limit, block, d, ranges) && Reach(ranges[0]) * 4096 <= limit
    requires limit <= 0xFFFF_FE00 * 4096
    ensures LeadsTo(img, block, ranges[0].start, BlocksFor(|d|), d)
  {
    var start, n := ranges[0].start, BlocksFor(|d|);
    TreeIsShallow(n);
    ReachOf(start, n);
    hide Root, LeafBlocksStored, At, NumExtents, NumIndexBlocks;
    ExtentRoundTrip(img, limit, block, start, n, start + n);
  }

  lemma NoDataParses(img: seq<byte>)
    ensures ParseExtents(Zeros(60), img) == Ok([])
  {
  }

  // ---- Directory blocks ----

  lemma Assoc<T>(a: seq<T>, b: seq<T>, c: seq<T>)
    ensures (a + b) + c == a + (b + c)
  {
  }

  lemma SplitLast(b: seq<byte>)
    requires |b| % 4096 == 0 && b != []
    ensures |b| >= 4096 && b == b[..|b| - 4096] + b[|b| - 4096..]
    ensures |b[..|b| - 4096]| % 4096 == 0 && |b[|b| - 4096..]| == 4096
  {
  }

  lemma {:induction false} ParseJoin(a: seq<byte>, b: seq<byte>)
    requires |a| % 4096 == 0 && |b| % 4096 == 0
    ensures |a + b| % 4096 == 0 && ParseBlocks(a + b) == ParseBlocks(a) + ParseBlocks(b)
    decreases |b|
  {
    if b == [] {
      assert a + b == a;
      assert ParseBlocks(b) == [];
    } else {
      hide *;
      SplitLast(b);
      var front, last := b[..|b| - 4096], b[|b| - 4096..];
      Assoc(a, front, last);
      ParseJoin(a, front);
      AppendBlock(a + front, last);
      AppendBlock(front, last);
      Assoc(ParseBlocks(a), ParseBlocks(front), ParseFrom(last, 0));
    }
  }

  /** The part of `d` from block `lo` to block `hi`. */
  function Part(d: seq<byte>, lo: nat, hi: nat): (p: seq<byte>)
    requires lo <= hi && hi * 4096 <= |d|
    ensures |p| % 4096 == 0
  {
    d[lo * 4096..hi * 4096]
  }

  lemma PartJoin(d: seq<byte>, a: nat, b: nat, c: nat)
    requires a <= b <= c && c * 4096 <= |d|
    ensures Part(d, a, b) + Part(d, b, c) == Part(d, a, c) && |Part(d, a, c)| == (c - a) * 4096
    ensures Part(d, a, a) == []
  {
  }

  lemma EntriesNext(img: seq<byte>, start: nat, n: nat, before: seq<Found>)
    requires n > 0 && EntriesOfBlocks(img, start, n - 1) == Ok(before) && (start + n) * 4096 <= |img|
    ensures EntriesOfBlocks(img, start, n) == Ok(before + ParseFrom(img[(start + n - 1) * 4096..(start + n) * 4096], 0))
  {
    hide ParseFrom;
  }

  lemma NoEntries(img: seq<byte>, start: nat)
    ensures EntriesOfBlocks(img, start, 0) == Ok([]) && ParseBlocks([]) == []
  {
  }

  /** Reading `n` blocks of `d` one by one, from block `k` of it on. */
  lemma {:induction false} BlocksRead(img: seq<byte>, start: nat, d: seq<byte>, k: nat, n: nat)
    requires At(img, start * 4096, d) && (k + n) * 4096 <= |d|
    ensures EntriesOfBlocks(img, start + k, n) == Ok(ParseBlocks(Part(d, k, k + n)))
  {
    hide *;
    if n == 0 {
      NoEntries(img, start + k);
      PartJoin(d, k, k, k);
    } else {
      BlocksRead(img, start, d, k, n - 1);
      BlockPart(img, start, d, k + n - 1);
      PartJoin(d, k, k + n - 1, k + n);
      PartJoin(d, k + n - 1, k + n, k + n);
      AppendBlock(Part(d, k, k + n - 1), Part(d, k + n - 1, k + n));
      EntriesNext(img, start + k, n, ParseBlocks(Part(d, k, k + n - 1)));
    }
  }

  lemma BlockPart(img: seq<byte>, start: nat, d: seq<byte>, k: nat)
    requires At(img, start * 4096, d) && (k + 1) * 4096 <= |d|
    ensures (start + k + 1) * 4096 <= |img|
    ensures img[(start + k) * 4096..(start + k + 1) * 4096] == Part(d, k, k + 1)
  {
    AtPart(img, start * 4096, d, k * 4096, (k + 1) * 4096);
  }

  /** Where the `k`-th extent of `n` blocks starts. */
  function Cut(n: nat, k: nat): nat { Min(k * MAX_EXTENT, n) }

  lemma {:induction false} RangesRead(img: seq<byte>, start: nat, n: nat, d: seq<byte>, k: nat)
    requires |d| == n * 4096 && At(img, start * 4096, d) && k <= NumExtents(n)
    ensures Cut(n, k) <= n && EntriesOfRanges(img, Ranges(start, n), k) == Ok(ParseBlocks(Part(d, 0, Cut(n, k))))
  {
    hide *;
    CutBelow(n, k);
    if k == 0 {
      NoRangesRead(img, start, n);
      PartJoin(d, 0, 0, 0);
    } else {
      RangesRead(img, start, n, d, k - 1);
      RangeIs(start, n, k - 1);
      var lo, hi := Cut(n, k - 1), Cut(n, k);
      BlocksRead(img, start, d, lo, hi - lo);
      PartJoin(d, 0, lo, hi);
      ParseJoin(Part(d, 0, lo), Part(d, lo, hi));
      RangesNext(img, Ranges(start, n), k, ParseBlocks(Part(d, 0, lo)), ParseBlocks(Part(d, lo, hi)));
    }
  }

  lemma CutBelow(n: nat, k: nat)
    ensures Cut(n, k) <= n && Cut(n, 0) == 0
  {
  }

  lemma NoRangesRead(img: seq<byte>, start: nat, n: nat)
    ensures EntriesOfRanges(img, Ranges(start, n), 0) == Ok([]) && ParseBlocks([]) == []
  {
  }

  lemma RangesNext(img: seq<byte>, rs: seq<BlockRange>, k: nat, before: seq<Found>, now: seq<Found>)
    requires 0 < k <= |rs| && EntriesOfRanges(img, rs, k - 1) == Ok(before) && rs[k - 1].start <= rs[k - 1].end
    requires EntriesOfBlocks(img, rs[k - 1].start, rs[k - 1].end - rs[k - 1].start) == Ok(now)
    ensures EntriesOfRanges(img, rs, k) == Ok(before + now)
  {
    hide EntriesOfBlocks;
  }

  lemma RangeIs(start: nat, n: nat, k: nat)
    requires k < NumExtents(n)
    ensures |Ranges(start, n)| == NumExtents(n)
    ensures Cut(n, k) <= Cut(n, k + 1) <= n
    ensures Ranges(start, n)[k] == BlockRange(start + Cut(n, k), start + Cut(n, k + 1))
  {
  }

  /** The listing of a committed directory reads back, sorted by name. */
  lemma ListingReads(img: seq<byte>, sb: SuperBlock, n: nat, inode: Inode, start: nat, es: seq<Entry>)
    requires n > 0 && Supported(sb) && ReadInode(img, sb, n) == Ok(inode) && |inode.block| == 60 && AllFit(es)
    requires var d := DirBytes(es); |d| % 4096 == 0 && LeadsTo(img, inode.block, start, |d| / 4096, d)
    ensures DirEntries(img, sb, n) == Ok(SortByName(SeenAll(es)))
  {
    var d := DirBytes(es);
    var blocks := |d| / 4096;
    DirectoryRoundTrip(es);
    hide ReadInode, ParseExtents, DirBytes, ParseBlocks, SeenAll, EntriesOfRanges, Ranges, At, AllFit, SortByName;
    assert |d| == blocks * 4096 && At(img, start * 4096, d);
    RangesRead(img, start, blocks, d, NumExtents(blocks));
    AllRangesRead(start, blocks, d);
  }

  lemma AllRangesRead(start: nat, n: nat, d: seq<byte>)
    requires |d| == n * 4096
    ensures |Ranges(start, n)| == NumExtents(n) && Cut(n, NumExtents(n)) == n && Part(d, 0, n) == d
  {
  }

  // ---- The whole volume ----

  /** Directory node `i` lists itself, its parent and its children, by name. */
  predicate DirReadsAt(img: seq<byte>, sb: SuperBlock, fs: Fs, i: nat)
    requires Numbered(fs) && Supported(sb) && i < |fs.nodes|
  {
    NumbersOf(fs, i);
    IsOwnDir(fs, i) && Attached(fs.nodes, i) ==>
      DirEntries(img, sb, fs.nodes[i].inode) == Ok(SortByName(SeenAll(DirList(fs, i))))
  }

  /** What an inode in use holds can be got at through its block field. */
  ghost predicate ContentReads(img: seq<byte>, inode: Inode, c: Content) {
    && |inode.block| == 60
    && match c
       case Directory => inode.IsDir() && ParseExtents(inode.block, img).Ok?
       case File(d) => inode.IsReg() && inode.size == |d| && BytesRead(img, inode.block, d)
       case Symlink(t) =>
         && inode.IsLink() && inode.size == |t|
         && if |t| < 60 then inode.block == t + Zeros(60 - |t|) else BytesRead(img, inode.block, t)
  }

  ghost predicate BytesRead(img: seq<byte>, block: seq<byte>, d: seq<byte>)
    requires |block| == 60
  {
    if d == [] then ParseExtents(block, img) == Ok([])
    else exists start :: LeadsTo(img, block, start, BlocksFor(|d|), d)
  }

  predicate InodeReadsAt(img: seq<byte>, sb: SuperBlock, inodes: seq<Inode>, n: nat)
    requires Supported(sb) && 0 < n <= |inodes|
  {
    ReadInode(img, sb, n) == Ok(inodes[n - 1])
  }

  ghost predicate HeldReads(img: seq<byte>, fs: Fs, contents: seq<Content>, inodes: seq<Inode>, n: nat)
    requires Numbered(fs) && |contents| == |fs.origin| && |inodes| == |fs.inodes| && RESERVED < n <= |inodes|
  {
    Shaped(fs);
    fs.inodes[n - 1].links > 0 ==> ContentReads(img, inodes[n - 1], contents[n - 11])
  }

  /** Reading `img` yields the names, inodes and contents of `fs`. */
  ghost predicate ReadsAs(img: seq<byte>, sb: SuperBlock, fs: Fs, contents: seq<Content>, inodes: seq<Inode>) {
    && Numbered(fs) && Listable(fs) && Supported(sb) && |inodes| == |fs.inodes| && |contents| == |fs.origin|
    && (forall n :: 0 < n <= |inodes| ==> InodeReadsAt(img, sb, inodes, n))
    && (forall k :: 0 <= k < |inodes| ==> SameAttributes(fs.inodes[k], inodes[k]))
    && (forall i :: 0 <= i < |fs.nodes| ==> DirReadsAt(img, sb, fs, i))
    && (forall n :: RESERVED < n <= |inodes| ==> HeldReads(img, fs, contents, inodes, n))
  }

  /** Mode, owner and link count: what `close` never touches. */
  predicate SameAttributes(a: Inode, b: Inode) {
    b.mode == a.mode && b.uid == a.uid && b.gid == a.gid && b.links == a.links
  }

  lemma LimitSmall(geo: Geometry)
    requires geo.Ok()
    ensures geo.table * 4096 <= 0xFFFF_FE00 * 4096
  {
    OkFacts(geo);
    OkCandidate(geo);
    hide Geometry.Size, LastGroupViable, Candidate, Slots;
    MulGrows(1, geo.groups, TableBlocks(geo.ipg));
  }

  lemma FlagsFit()
    ensures WithFlag(HUGE_FILE, EXTENTS) == 0xC0000 && HasFlag(HUGE_FILE, HUGE_FILE)
  {
  }

  lemma DirInodeFits(inode: Inode, bytes: nat, block: seq<byte>)
    requires inode.Fits() && bytes % 4096 == 0 && 0 < bytes / 4096 <= MAX_FILE_BLOCKS && |block| == 60
    ensures DirInode(inode, bytes, block).Fits()
  {
    FlagsFit();
    TreeIsShallow(BlocksFor(bytes));
    hide TreeBlocks, HasFlag;
  }

  lemma DirDataSize(img: seq<byte>, limit: nat, block: seq<byte>, d: seq<byte>, ranges: seq<BlockRange>)
    requires DataStored(img, limit, block, d, ranges) && d != [] && |d| % 4096 == 0
    ensures 0 < |d| / 4096 <= MAX_FILE_BLOCKS && |block| == 60
  {
    hide LeafBlocksStored, At, Root;
  }

  /** One committed directory: its inode fits, and its listing reads back. */
  lemma CommittedReads(fs: Fs, i: nat, node: Node, inode: Inode, img: seq<byte>, lo: nat, limit: nat, sb: SuperBlock, n: nat)
    requires Numbered(fs) && Listable(fs) && i < |fs.nodes| && DirCommitted(fs, i, node, inode, img, lo, limit)
    requires OwnInode(fs, i).Fits() && limit <= 0xFFFF_FE00 * 4096
    ensures inode.Fits() && SameAttributes(OwnInode(fs, i), inode) && inode.IsDir() == OwnInode(fs, i).IsDir()
    ensures ParseExtents(inode.block, img).Ok?
    ensures n > 0 && Supported(sb) && ReadInode(img, sb, n) == Ok(inode) ==>
      DirEntries(img, sb, n) == Ok(SortByName(SeenAll(DirList(fs, i))))
  {
    DirListFits(fs, i);
    var es := DirList(fs, i);
    var d := DirBytes(es);
    DirectoryRoundTrip(es);
    var r := node.blocks.value;
    assert inode == DirInode(OwnInode(fs, i), |d|, inode.block) && DataStored(img, limit, inode.block, d, [r]) && Reach(r) * 4096 <= limit;
    hide *;
    DirDataSize(img, limit, inode.block, d, [r]);
    DirInodeFits(OwnInode(fs, i), |d|, inode.block);
    DirInodeSame(OwnInode(fs, i), |d|, inode.block);
    DataLeads(img, limit, inode.block, d, [r]);
    AlignedAt(0, |d|);
    LeadsParses(img, inode.block, r.start, BlocksFor(|d|), d);
    if n > 0 && Supported(sb) && ReadInode(img, sb, n) == Ok(inode) {
      ListingReads(img, sb, n, inode, r.start, es);
    }
  }

  lemma LeadsParses(img: seq<byte>, block: seq<byte>, start: nat, n: nat, d: seq<byte>)
    requires |block| == 60 && LeadsTo(img, block, start, n, d)
    ensures ParseExtents(block, img) == Ok(Ranges(start, n)) && At(img, start * 4096, d) && n == BlocksFor(|d|)
  {
  }

  lemma DirInodeSame(inode: Inode, bytes: nat, block: seq<byte>)
    ensures SameAttributes(inode, DirInode(inode, bytes, block)) && DirInode(inode, bytes, block).IsDir() == inode.IsDir()
  {
  }

  /** What `close` did to inode `n`. */
  lemma InodeFinal(fs: Fs, contents: seq<Content>, nodes: Nodes, inodes: seq<Inode>, img: seq<byte>, lo: nat, limit: nat, first: nat, n: nat)
    requires Numbered(fs) && Listable(fs) && Committed(fs, nodes, inodes, img, lo, limit) && OnDiskOk(fs, contents, img, limit, first)
    requires 0 < n <= |inodes| == |fs.inodes| && limit <= 0xFFFF_FE00 * 4096
    ensures inodes[n - 1].Fits() && SameAttributes(fs.inodes[n - 1], inodes[n - 1])
    ensures fs.inodes[n - 1].IsDir() || inodes[n - 1] == fs.inodes[n - 1]
    ensures inodes[n - 1] == fs.inodes[n - 1] || ParseExtents(inodes[n - 1].block, img).Ok?
  {
    FitsAt(fs, contents, img, limit, first, n - 1);
    if n == ROOT_INODE || n > RESERVED {
      var i := NodeOfInode(fs, n);
      assert FinalState(fs, i, nodes, inodes, img, lo, limit);
      hide Numbered, Listable, DirCommitted, Attached, OnDiskOk, Committed, Inode.Fits, ParseExtents;
      if IsOwnDir(fs, i) && Attached(fs.nodes, i) {
        CommittedReads(fs, i, nodes[i], inodes[n - 1], img, lo, limit, SuperBlock(0, 0, 0, 0, 0, 0, 0, 0), 0);
      }
    }
  }

  lemma DirFinal(fs: Fs, contents: seq<Content>, nodes: Nodes, inodes: seq<Inode>, img: seq<byte>, lo: nat, limit: nat, first: nat, sb: SuperBlock, i: nat)
    requires Numbered(fs) && Listable(fs) && Committed(fs, nodes, inodes, img, lo, limit) && OnDiskOk(fs, contents, img, limit, first)
    requires i < |fs.nodes| && limit <= 0xFFFF_FE00 * 4096 && Supported(sb) && |inodes| == |fs.inodes|
    requires forall n :: 0 < n <= |inodes| ==> InodeReadsAt(img, sb, inodes, n)
    ensures DirReadsAt(img, sb, fs, i)
  {
    NumbersOf(fs, i);
    var n := fs.nodes[i].inode;
    assert InodeReadsAt(img, sb, inodes, n);
    assert FinalState(fs, i, nodes, inodes, img, lo, limit);
    FitsAt(fs, contents, img, limit, first, n - 1);
    hide Numbered, Listable, DirCommitted, Attached, OnDiskOk, Committed, Inode.Fits, ParseExtents, ReadInode, DirEntries, DirList;
    if IsOwnDir(fs, i) && Attached(fs.nodes, i) {
      CommittedReads(fs, i, nodes[i], inodes[n - 1], img, lo, limit, sb, n);
    }
  }

  lemma StoredReads(img: seq<byte>, limit: nat, inode: Inode, c: Content, ranges: seq<BlockRange>)
    requires Stored(img, limit, inode, c, ranges) && |inode.block| == 60 && limit <= 0xFFFF_FE00 * 4096
    requires forall k :: 0 <= k < |ranges| ==> Reach(ranges[k]) * 4096 <= limit
    ensures ContentReads(img, inode, c)
  {
    NoDataParses(img);
    hide DataStored, ParseExtents, Reach, TypeBits;
    match c {
      case Directory =>
      case File(d) => StoredBytesRead(img, limit, inode.block, d, ranges);
      case Symlink(t) =>
        if |t| >= 60 {
          StoredBytesRead(img, limit, inode.block, t, ranges);
        }
    }
  }

  lemma StoredBytesRead(img: seq<byte>, limit: nat, block: seq<byte>, d: seq<byte>, ranges: seq<BlockRange>)
    requires DataStored(img, limit, block, d, ranges) && |block| == 60 && limit <= 0xFFFF_FE00 * 4096
    requires forall k :: 0 <= k < |ranges| ==> Reach(ranges[k]) * 4096 <= limit
    ensures BytesRead(img, block, d)
  {
    hide ParseExtents, Reach, TreeStored, LeadsTo;
    if d == [] {
      NoDataParses(img);
    } else {
      DataLeads(img, limit, block, d, ranges);
    }
  }

  lemma RangesReach(fs: Fs, first: nat, limit: nat, n: nat)
    requires Numbered(fs) && RESERVED < n <= |fs.inodes| && PlacedOk(fs, first, limit, n)
    ensures var rs := OwnRanges(fs, n); forall k :: 0 <= k < |rs| ==> Reach(rs[k]) * 4096 <= limit
  {
    hide Numbered, OwnRanges, Reach;
  }

  lemma HeldFinal(fs: Fs, contents: seq<Content>, nodes: Nodes, inodes: seq<Inode>, img: seq<byte>, lo: nat, limit: nat, first: nat, n: nat)
    requires Numbered(fs) && Listable(fs) && Committed(fs, nodes, inodes, img, lo, limit) && OnDiskOk(fs, contents, img, limit, first)
    requires RESERVED < n <= |inodes| == |fs.inodes| && |contents| == |fs.origin| && limit <= 0xFFFF_FE00 * 4096
    ensures HeldReads(img, fs, contents, inodes, n)
  {
    Shaped(fs);
    InodeFinal(fs, contents, nodes, inodes, img, lo, limit, first, n);
    StoredAt(fs, contents, img, limit, first, n);
    RangesReach(fs, first, limit, n);
    hide Numbered, Listable, OnDiskOk, Committed, ParseExtents, OwnRanges, Stored, Reach;
    if fs.inodes[n - 1].links > 0 {
      StoredReads(img, limit, fs.inodes[n - 1], contents[n - 11], OwnRanges(fs, n));
      HeldEither(img, limit, fs.inodes[n - 1], inodes[n - 1], contents[n - 11], OwnRanges(fs, n));
    }
  }

  lemma StoredAt(fs: Fs, contents: seq<Content>, img: seq<byte>, limit: nat, first: nat, n: nat)
    requires Numbered(fs) && OnDiskOk(fs, contents, img, limit, first) && RESERVED < n <= |fs.inodes|
    ensures |contents| == |fs.origin| && n - 11 < |contents| && PlacedOk(fs, first, limit, n) && |fs.inodes[n - 1].block| == 60
    ensures fs.inodes[n - 1].links > 0 ==> Stored(img, limit, fs.inodes[n - 1], contents[n - 11], OwnRanges(fs, n))
  {
    Shaped(fs);
    FitsAt(fs, contents, img, limit, first, n - 1);
    hide Numbered, Stored, OwnRanges, AscendingOk, PlacedOk, ValidName, ReservedOk;
    assert StoredOk(fs, contents, img, limit, n);
  }

  lemma HeldEither(img: seq<byte>, limit: nat, was: Inode, inode: Inode, c: Content, ranges: seq<BlockRange>)
    requires ContentReads(img, was, c) && Stored(img, limit, was, c, ranges) && inode.Fits() && SameAttributes(was, inode)
    requires inode == was || (was.IsDir() && ParseExtents(inode.block, img).Ok?)
    ensures ContentReads(img, inode, c)
  {
    if inode != was {
      StoredDir(img, limit, was, c, ranges);
    }
    hide BytesRead, ParseExtents, DataStored;
  }

  /** An image that `close` finished reads as the file system it was made from. */
  lemma ClosedReads(img: seq<byte>, geo: Geometry, fs: Fs, contents: seq<Content>, nodes: Nodes, inodes: seq<Inode>, lo: nat, first: nat)
    requires Closed(img, geo, fs, contents, nodes, inodes, lo, first)
    ensures geo.Ok() && ReadSuper(img) == Ok(SuperFor(geo, fs.deleted, inodes))
    ensures ReadsAs(img, SuperFor(geo, fs.deleted, inodes), fs, contents, inodes)
  {
    var sb, limit := SuperFor(geo, fs.deleted, inodes), geo.table * 4096;
    assert Committed(fs, nodes, inodes, img, lo, limit) && OnDiskOk(fs, contents, img, limit, first);
    assert MetadataAt(img, geo, fs.deleted, inodes);
    hide *;
    LimitSmall(geo);
    MetadataSuper(img, geo, fs.deleted, inodes);
    SuperReads(img, geo, fs.deleted, inodes);
    CommittedCount(fs, nodes, inodes, img, lo, limit);
    ContentsCount(fs, contents, img, limit, first);
    forall n | 0 < n <= |inodes| ensures InodeReadsAt(img, sb, inodes, n) {
      InodeFinal(fs, contents, nodes, inodes, img, lo, limit, first, n);
      InodeReads(img, geo, fs.deleted, inodes, n);
      InodeReadsIs(img, sb, inodes, n);
    }
    forall k | 0 <= k < |inodes| ensures SameAttributes(fs.inodes[k], inodes[k]) {
      InodeFinal(fs, contents, nodes, inodes, img, lo, limit, first, k + 1);
    }
    forall i | 0 <= i < |fs.nodes| ensures DirReadsAt(img, sb, fs, i) {
      DirFinal(fs, contents, nodes, inodes, img, lo, limit, first, sb, i);
    }
    forall n | RESERVED < n <= |inodes| ensures HeldReads(img, fs, contents, inodes, n) {
      HeldFinal(fs, contents, nodes, inodes, img, lo, limit, first, n);
    }
    VolumeIs(img, sb, fs, contents, inodes);
  }

  lemma InodeReadsIs(img: seq<byte>, sb: SuperBlock, inodes: seq<Inode>, n: nat)
    requires Supported(sb) && 0 < n <= |inodes| && ReadInode(img, sb, n) == Ok(inodes[n - 1])
    ensures InodeReadsAt(img, sb, inodes, n)
  {
  }

  lemma ContentsCount(fs: Fs, contents: seq<Content>, img: seq<byte>, limit: nat, first: nat)
    requires Numbered(fs) && OnDiskOk(fs, contents, img, limit, first)
    ensures |contents| == |fs.origin| && |fs.inodes| == RESERVED + |fs.origin| && |fs.nodes| > 0
  {
  }

  lemma VolumeIs(img: seq<byte>, sb: SuperBlock, fs: Fs, contents: seq<Content>, inodes: seq<Inode>)
    requires Numbered(fs) && Listable(fs) && Supported(sb) && |inodes| == |fs.inodes| && |contents| == |fs.origin|
    requires forall n :: 0 < n <= |inodes| ==> InodeReadsAt(img, sb, inodes, n)
    requires forall k :: 0 <= k < |inodes| ==> SameAttributes(fs.inodes[k], inodes[k])
    requires forall i :: 0 <= i < |fs.nodes| ==> DirReadsAt(img, sb, fs, i)
    requires forall n :: RESERVED < n <= |inodes| ==> HeldReads(img, fs, contents, inodes, n)
    ensures ReadsAs(img, sb, fs, contents, inodes)
  {
    hide Numbered, Listable, Supported, InodeReadsAt, SameAttributes, DirReadsAt, HeldReads;
  }
}
