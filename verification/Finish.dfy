/** `close` as a whole, and what an image it finished is like. */
module Finish {
  import opened Basics
  import opened Image
  import opened OnDisk
  import opened Extents
  import opened Trees
  import opened Namespace
  import opened Unlinking
  import opened Contents
  import opened Layout
  import opened Groups
  import opened Accounting
  import opened Directory
  import opened Listing
  import opened Requests
  import opened Formatting
  import opened Traversal
  import opened Committing
  import opened Closing

  // ---- Data survives whatever is written outside its area ----

  lemma TreeSurvivesIn(was: seq<byte>, img: seq<byte>, lo: nat, hi: nat, block: seq<byte>, start: nat, n: nat, idx: nat)
    requires SameIn(was, img, lo, hi) && lo <= idx * 4096 && TreeStored(was, hi, block, start, n, idx)
    ensures TreeStored(img, hi, block, start, n, idx)
  {
    hide SameIn, LeafBlock, At, Root;
    forall i | 0 <= i < TreeBlocks(n) ensures LeafBlockAt(img, hi, start, n, idx, i) {
      assert LeafBlockAt(was, hi, start, n, idx, i);
      AtIn(was, img, lo, hi, (idx + i) * 4096, LeafBlock(start, n, i));
    }
  }

  lemma DataSurvivesIn(was: seq<byte>, img: seq<byte>, lo: nat, hi: nat, block: seq<byte>, d: seq<byte>, ranges: seq<BlockRange>)
    requires SameIn(was, img, lo, hi) && DataStored(was, hi, block, d, ranges)
    requires forall k :: 0 <= k < |ranges| ==> lo <= ranges[k].start * 4096
    ensures DataStored(img, hi, block, d, ranges)
  {
    if d != [] {
      var r := ranges[0];
      hide TreeStored, SameIn, At;
      TreeSurvivesIn(was, img, lo, hi, block, r.start, BlocksFor(|d|), r.end);
      AtIn(was, img, lo, hi, r.start * 4096, d);
    }
  }

  lemma StoredSurvivesIn(was: seq<byte>, img: seq<byte>, lo: nat, hi: nat, inode: Inode, c: Content, ranges: seq<BlockRange>)
    requires SameIn(was, img, lo, hi) && Stored(was, hi, inode, c, ranges)
    requires forall k :: 0 <= k < |ranges| ==> lo <= ranges[k].start * 4096
    ensures Stored(img, hi, inode, c, ranges)
  {
    hide DataStored, SameIn, TypeBits;
    match c {
      case Directory =>
      case File(d) => DataSurvivesIn(was, img, lo, hi, inode.block, d, ranges);
      case Symlink(t) =>
        if |t| >= 60 {
          DataSurvivesIn(was, img, lo, hi, inode.block, t, ranges);
        }
    }
  }

  lemma RangesFrom(fs: Fs, first: nat, limit: nat, n: nat)
    requires Numbered(fs) && RESERVED < n <= |fs.inodes| && PlacedOk(fs, first, limit, n)
    ensures var rs := OwnRanges(fs, n); forall k :: 0 <= k < |rs| ==> first * 4096 <= rs[k].start * 4096
  {
    hide Numbered, OwnRanges, Reach;
  }

  lemma StoredOkIn(fs: Fs, contents: seq<Content>, was: seq<byte>, img: seq<byte>, limit: nat, first: nat, n: nat)
    requires Numbered(fs) && RESERVED < n <= |fs.inodes| && |contents| == |fs.origin|
    requires StoredOk(fs, contents, was, limit, n) && PlacedOk(fs, first, limit, n) && SameIn(was, img, first * 4096, limit)
    ensures StoredOk(fs, contents, img, limit, n)
  {
    Shaped(fs);
    RangesFrom(fs, first, limit, n);
    hide Numbered, OwnRanges, Stored, SameIn, PlacedOk;
    if fs.inodes[n - 1].links > 0 {
      StoredSurvivesIn(was, img, first * 4096, limit, fs.inodes[n - 1], contents[n - 11], OwnRanges(fs, n));
    }
  }

  lemma OnDiskIn(fs: Fs, contents: seq<Content>, was: seq<byte>, img: seq<byte>, limit: nat, first: nat)
    requires Numbered(fs) && OnDiskOk(fs, contents, was, limit, first) && SameIn(was, img, first * 4096, limit)
    ensures OnDiskOk(fs, contents, img, limit, first)
  {
    hide Numbered, StoredOk, PlacedOk, AscendingOk, SameIn, ValidName, ReservedOk, Inode.Fits;
    Shaped(fs);
    forall n | RESERVED < n <= |fs.inodes| ensures StoredOk(fs, contents, img, limit, n) {
      assert StoredOk(fs, contents, was, limit, n) && PlacedOk(fs, first, limit, n);
      StoredOkIn(fs, contents, was, img, limit, first, n);
    }
  }

  lemma DirCommittedIn(fs: Fs, i: nat, node: Node, inode: Inode, was: seq<byte>, img: seq<byte>, lo: nat, limit: nat)
    requires Numbered(fs) && Listable(fs) && i < |fs.nodes| && DirCommitted(fs, i, node, inode, was, lo, limit)
    requires SameIn(was, img, lo, limit)
    ensures DirCommitted(fs, i, node, inode, img, lo, limit)
  {
    DirListFits(fs, i);
    hide Numbered, Listable, DirBytes, DirList, DataStored, Reach, DirInode, SameIn, AllFit;
    DataSurvivesIn(was, img, lo, limit, inode.block, DirBytes(DirList(fs, i)), [node.blocks.value]);
  }

  lemma CommittedIn(fs: Fs, nodes: Nodes, inodes: seq<Inode>, was: seq<byte>, img: seq<byte>, lo: nat, limit: nat)
    requires Numbered(fs) && Listable(fs) && Committed(fs, nodes, inodes, was, lo, limit) && SameIn(was, img, lo, limit)
    ensures Committed(fs, nodes, inodes, img, lo, limit)
  {
    forall i | 0 <= i < |nodes| ensures FinalState(fs, i, nodes, inodes, img, lo, limit) {
      assert FinalState(fs, i, nodes, inodes, was, lo, limit);
      FinalStateIn(fs, i, nodes, inodes, was, img, lo, limit);
    }
  }

  lemma FinalStateIn(fs: Fs, i: nat, nodes: Nodes, inodes: seq<Inode>, was: seq<byte>, img: seq<byte>, lo: nat, limit: nat)
    requires Numbered(fs) && Listable(fs) && |nodes| == |fs.nodes| && |inodes| == |fs.inodes| && i < |fs.nodes|
    requires FinalState(fs, i, nodes, inodes, was, lo, limit) && SameIn(was, img, lo, limit)
    ensures FinalState(fs, i, nodes, inodes, img, lo, limit)
  {
    NumbersOf(fs, i);
    hide DirCommitted, Numbered, Listable, SameIn, Attached, OwnInode;
    if IsOwnDir(fs, i) && Attached(fs.nodes, i) {
      DirCommittedIn(fs, i, nodes[i], inodes[fs.nodes[i].inode - 1], was, img, lo, limit);
    }
  }

  // ---- Layout ----

  /** The layout `close` chose for `inodes` inodes and data up to block
      `geo.table`, in an image requested with `size0` bytes. */
  ghost predicate Laid(geo: Geometry, partial: bool, size0: nat, inodes: nat, size1: nat) {
    && geo.partial == partial && Candidate(geo.ipg)
    && geo.groups == Needed(geo.table, inodes, geo.ipg)
    && (forall c: nat :: Candidate(c) ==> geo.groups <= Needed(geo.table, inodes, c))
    && (forall c: nat :: Candidate(c) && c < geo.ipg ==> geo.groups < Needed(geo.table, inodes, c))
    && geo.bitmaps == geo.table + Tables(geo.groups, geo.ipg)
    && geo.groups > 0 && geo.bitmaps > 0
    && var raised := RaisedSize(partial, size0, geo.groups, geo.bitmaps);
       && raised >= 4096 && geo.total == TotalGroups(raised)
       && geo.blocks == FinalBlocks(partial, raised, TableBlocks(geo.ipg))
       && size1 == FinalSize(partial, raised, TableBlocks(geo.ipg)) && size1 > 0
       && geo.reserved == DescriptorBlocks(size1)
  }

  lemma TotalFacts(partial: bool, raised: nat, tableBlocks: nat)
    requires raised >= 4096 && tableBlocks <= 2048
    ensures var total, blocks, size := TotalGroups(raised), FinalBlocks(partial, raised, tableBlocks), FinalSize(partial, raised, tableBlocks);
      && total > 0 && (total - 1) * 32768 < blocks && raised / 4096 <= blocks
      && LastGroupViable(blocks, tableBlocks) && (!partial ==> blocks == total * 32768)
      && size >= 4096 && blocks <= BlockCount(size) && (partial ==> size == blocks * 4096)
      && total <= GroupCount(size) && (partial ==> GroupCount(size) == DivCeil(blocks, 32768))
      && (!partial ==> GroupCount(size) <= total + 1)
      && raised <= size
  {
    if partial {
      PartialSize(raised, tableBlocks);
      PartialGroups(raised, tableBlocks);
    } else {
      WholeGroups(raised, tableBlocks);
    }
  }

  lemma TableBlocksSmall(ipg: nat)
    requires Candidate(ipg)
    ensures 512 <= TableBlocks(ipg) <= 2048
  {
  }

  /** The counts follow from the request or from the data, whichever asks for
      more. */
  lemma TotalIsEither(partial: bool, size0: nat, groups: nat, bitmapOffset: nat)
    requires groups > 0 && bitmapOffset > 0 && size0 > 0 && bitmapOffset + 2 * groups <= groups * 32768
    ensures var raised := RaisedSize(partial, size0, groups, bitmapOffset);
      raised >= 4096 && (TotalGroups(raised) <= GroupCount(size0) || TotalGroups(raised) == groups)
  {
    RaisedIsEnough(partial, size0, groups, bitmapOffset);
  }

  lemma GroupsCovered(groups: nat, bitmapOffset: nat, partial: bool, size0: nat)
    requires groups > 0 && bitmapOffset > 0 && bitmapOffset + 2 * groups <= groups * 32768
    ensures var raised := RaisedSize(partial, size0, groups, bitmapOffset);
      raised >= 4096 && (partial ==> bitmapOffset + 2 * groups <= raised / 4096) && groups <= TotalGroups(raised)
  {
    EnoughDescriptors(partial, size0, groups, bitmapOffset);
    RaisedIsEnough(partial, size0, groups, bitmapOffset);
  }

  lemma ReservedRange(size: nat)
    requires size > 0
    ensures GroupCount(size) <= 131072 ==> DescriptorBlocks(size) <= 32768
    ensures GroupCount(size) == 1 ==> DescriptorBlocks(size) == 32
    ensures (GroupCount(size) - 1) / 128 + 1 <= DescriptorBlocks(size) && DescriptorBlocks(size) >= 32
  {
  }

  lemma UsedBelowData(total: nat, groups: nat, size0: nat, first: nat, table: nat, bitmaps: nat)
    requires size0 > 0 && total > 0 && groups > 0 && first == DescriptorBlocks(size0) + 1 && first <= table <= bitmaps
    requires total <= GroupCount(size0) || total == groups
    ensures (total - 1) / 128 + 1 < bitmaps + 2 * groups
  {
    ReservedRange(size0);
  }

  lemma ReservedBelowSize(geo: Geometry, size1: nat)
    requires size1 > 0 && geo.total > 0 && geo.reserved == DescriptorBlocks(size1) && 0 < geo.groups
    requires GroupCount(size1) <= 131072 && geo.total <= GroupCount(size1)
    requires geo.partial ==> GroupCount(size1) == DivCeil(geo.blocks, 32768)
    requires (geo.total - 1) * 32768 < geo.blocks && 32 < geo.DataSize() <= geo.blocks
    ensures geo.reserved <= geo.Size(0) && (geo.reserved == geo.Size(0) ==> geo.reserved == 32768)
  {
    ReservedRange(size1);
    if geo.partial && geo.blocks < 32768 {
      assert GroupCount(size1) == 1;
    }
  }

  lemma LaidOk(geo: Geometry, partial: bool, size0: nat, inodes: nat, size1: nat, first: nat)
    requires Laid(geo, partial, size0, inodes, size1) && size0 > 0
    requires first == DescriptorBlocks(size0) + 1 && first <= geo.table && BlockCount(size1) <= 0xFFFF_FFFF
    requires Slots(geo.total, geo.ipg) <= 0xFFFF_FFFF
    ensures geo.Ok() && inodes <= Slots(geo.groups, geo.ipg) && geo.ipg <= 32768
    ensures 256 * Slots(geo.groups, geo.ipg) == Tables(geo.groups, geo.ipg) * 4096
  {
    LayoutFits(geo.table, inodes, geo.groups, geo.ipg);
    GroupsCovered(geo.groups, geo.bitmaps, partial, size0);
    TotalIsEither(partial, size0, geo.groups, geo.bitmaps);
    TableBlocksSmall(geo.ipg);
    var raised := RaisedSize(partial, size0, geo.groups, geo.bitmaps);
    TotalFacts(partial, raised, TableBlocks(geo.ipg));
    ReservedRange(size0);
    hide DescriptorBlocks, RaisedSize, FinalSize, FinalBlocks, TotalGroups, Needed, LastGroupViable, TableBlocks, Geometry.Size, Slots;
    MulGrows(0, geo.groups, TableBlocks(geo.ipg));
    UsedBelowData(geo.total, geo.groups, size0, first, geo.table, geo.bitmaps);
    DataFits(geo, partial, raised);
    ReservedBelowSize(geo, size1);
  }

  lemma DataFits(geo: Geometry, partial: bool, raised: nat)
    requires geo.DataSize() <= geo.groups * 32768 && geo.groups <= geo.total
    requires partial ==> geo.DataSize() <= raised / 4096 <= geo.blocks
    requires !partial ==> geo.blocks == geo.total * 32768
    ensures geo.DataSize() <= geo.blocks
  {
  }

  // ---- The finished image ----

  /** What the superblock says, from the running totals of the group loops. */
  function SuperOf(geo: Geometry, usedBlocks: nat, usedInodes: nat): SuperBlock {
    var blocks := Max(geo.blocks, usedBlocks);
    SuperBlock(Slots(geo.total, geo.ipg), blocks, blocks - usedBlocks, Max(0, Slots(geo.total, geo.ipg) - usedInodes), 2, geo.ipg, SUPER_MAGIC, INODE_SIZE)
  }

  function AllDescriptors(geo: Geometry, deleted: seq<BlockRange>, inodes: seq<Inode>): (s: seq<GroupDescriptor>)
    requires geo.Ok()
    ensures |s| == geo.total
  {
    seq(geo.total, g requires 0 <= g < geo.total => Descriptor(geo, deleted, inodes, g))
  }

  /** Superblock, descriptors, bitmaps and inode table are where they belong and
      say what they should. */
  ghost predicate MetadataAt(img: seq<byte>, geo: Geometry, deleted: seq<BlockRange>, inodes: seq<Inode>)
    requires geo.Ok()
  {
    CandidateFits(geo);
    && geo.total > 0
    && At(img, 1024, EncodeSuper(SuperOf(geo, TotalUsed(geo, deleted, geo.total), TotalUsedInodes(geo, inodes, geo.total))))
    && DescriptorsAt(img, AllDescriptors(geo, deleted, inodes), geo.total)
    && GroupsAt(img, geo, deleted, inodes, geo.total)
    && TableAt(img, geo.table, inodes, Slots(geo.groups, geo.ipg))
  }

  /** Superblock and descriptors alone: they are written last, whatever happened
      before. */
  ghost predicate SuperAt(img: seq<byte>, geo: Geometry, deleted: seq<BlockRange>, inodes: seq<Inode>)
    requires geo.Ok()
  {
    CandidateFits(geo);
    && At(img, 1024, EncodeSuper(SuperOf(geo, TotalUsed(geo, deleted, geo.total), TotalUsedInodes(geo, inodes, geo.total))))
    && DescriptorsAt(img, AllDescriptors(geo, deleted, inodes), geo.total)
  }

  /** The image of `fs` after `close`: all metadata, all file data, all
      directories. `nodes` and `inodes` are the tree and inodes as written. */
  ghost predicate Closed(img: seq<byte>, geo: Geometry, fs: Fs, contents: seq<Content>, nodes: Nodes, inodes: seq<Inode>, lo: nat, first: nat) {
    && Numbered(fs) && Listable(fs) && geo.Ok()
    && MetadataAt(img, geo, fs.deleted, inodes)
    && OnDiskOk(fs, contents, img, geo.table * 4096, first)
    && Committed(fs, nodes, inodes, img, lo, geo.table * 4096)
  }

  lemma DirBlockSize(fs: Fs, i: nat, node: Node, inode: Inode, img: seq<byte>, lo: nat, limit: nat)
    requires Numbered(fs) && Listable(fs) && i < |fs.nodes| && DirCommitted(fs, i, node, inode, img, lo, limit)
    ensures |inode.block| == 60
  {
    DirListFits(fs, i);
    hide Numbered, Listable, DirBytes, DirList, Reach, DirInode, AllFit, Root;
  }

  lemma CommittedWhole(fs: Fs, contents: seq<Content>, nodes: Nodes, inodes: seq<Inode>, img: seq<byte>, lo: nat, limit: nat, img0: seq<byte>, first: nat)
    requires Numbered(fs) && Listable(fs) && Committed(fs, nodes, inodes, img, lo, limit) && OnDiskOk(fs, contents, img0, lo, first)
    ensures BlocksAreWhole(inodes) && inodes != []
  {
    Shaped(fs);
    forall k | 0 <= k < |inodes| ensures |inodes[k].block| == 60 {
      FitsAt(fs, contents, img0, lo, first, k);
      if k + 1 == ROOT_INODE || k >= RESERVED {
        var i := NodeOfInode(fs, k + 1);
        assert FinalState(fs, i, nodes, inodes, img, lo, limit);
        hide Numbered, Listable, DirCommitted, Attached;
        if IsOwnDir(fs, i) && Attached(fs.nodes, i) {
          DirBlockSize(fs, i, nodes[i], inodes[k], img, lo, limit);
        }
      }
    }
  }

  /** Everything written after the directories leaves data and directories
      alone, and the pieces of metadata leave each other alone. */
  lemma Assembled(geo: Geometry, fs: Fs, contents: seq<Content>, nodes: Nodes, inodes: seq<Inode>, lo: nat, first: nat, descs: seq<GroupDescriptor>,
                  img0: seq<byte>, img1: seq<byte>, img2: seq<byte>, img3: seq<byte>, img4: seq<byte>, img5: seq<byte>, img6: seq<byte>,
                  sb: SuperBlock)
    requires Numbered(fs) && Listable(fs) && geo.Ok() && geo.total > 0 && geo.ipg <= 32768
    requires OnDiskOk(fs, contents, img0, geo.table * 4096, first) && Committed(fs, nodes, inodes, img0, lo, geo.table * 4096)
    requires first * 4096 <= lo && 4096 + 32 * geo.total <= first * 4096 <= geo.table * 4096
    requires SameBelow(img0, img1, geo.table * 4096) && TableAt(img1, geo.table, inodes, Slots(geo.groups, geo.ipg))
    requires geo.table * 4096 + 256 * Slots(geo.groups, geo.ipg) == geo.bitmaps * 4096
    requires Extends(img1, img2)
    requires SameIn(img2, img3, 0, geo.bitmaps * 4096)
    requires SameIn(img3, img4, 0, geo.DataSize() * 4096) && GroupsAt(img4, geo, fs.deleted, inodes, geo.total)
    requires SameFrom(img4, img5, 4096 + 32 * geo.total) && |descs| == geo.total && DescriptorsAt(img5, descs, geo.total)
    requires descs == AllDescriptors(geo, fs.deleted, inodes)
    requires SameFrom(img5, img6, 4096) && At(img6, 1024, EncodeSuper(sb))
    requires sb == SuperOf(geo, TotalUsed(geo, fs.deleted, geo.total), TotalUsedInodes(geo, inodes, geo.total))
    ensures Closed(img6, geo, fs, contents, nodes, inodes, lo, first)
  {
    var f, t, b, d := first * 4096, geo.table * 4096, geo.bitmaps * 4096, geo.DataSize() * 4096;
    DataSizeBytes(geo);
    hide *;
    LaterOf(4096, 4096 + 32 * geo.total);
    SameFromTrans(img4, img5, img6, 4096 + 32 * geo.total, 4096);
    OrderOf(4096 + 32 * geo.total, 4096);
    FromIsIn(img4, img6, 4096 + 32 * geo.total, f, d);
    SameInPart(img3, img4, 0, d, f, d);
    SameInTrans(img3, img4, img6, f, d);
    SameInPart(img2, img3, 0, b, f, b);
    SameInPart(img3, img6, f, d, f, b);
    SameInTrans(img2, img3, img6, f, b);
    ExtendsIn(img1, img2, f, b);
    SameInTrans(img1, img2, img6, f, b);
    BelowIsIn(img0, img1, t, f);
    SameInPart(img1, img6, f, b, f, t);
    SameInTrans(img0, img1, img6, f, t);
    OnDiskIn(fs, contents, img0, img6, t, first);
    SameInPart(img0, img6, f, t, lo, t);
    CommittedIn(fs, nodes, inodes, img0, img6, lo, t);
    SameInPart(img1, img6, f, b, t, b);
    TableStays(img1, img6, geo.table, inodes, Slots(geo.groups, geo.ipg), b);
    GroupsStay(img4, img6, geo, fs.deleted, inodes, 4096 + 32 * geo.total);
    DescriptorsStay(img5, img6, descs);
    ClosedIs(img6, geo, fs, contents, nodes, inodes, lo, first, sb);
  }

  lemma OrderOf(a: nat, b: nat)
    requires b <= a
    ensures Max(a, b) == a
  {
  }

  lemma TableStays(was: seq<byte>, img: seq<byte>, table: nat, inodes: seq<Inode>, slots: nat, hi: nat)
    requires TableAt(was, table, inodes, slots) && SameIn(was, img, table * 4096, hi) && hi == table * 4096 + 256 * slots
    ensures TableAt(img, table, inodes, slots)
  {
    hide InodesAt, At, SameIn;
    InodesStay(was, img, table, inodes, hi);
    AtIn(was, img, table * 4096, hi, table * 4096 + 256 * |inodes|, Zeros(256 * (slots - |inodes|)));
  }

  lemma GroupsStay(was: seq<byte>, img: seq<byte>, geo: Geometry, deleted: seq<BlockRange>, inodes: seq<Inode>, lo: nat)
    requires geo.total > 0 && geo.Ok() && GroupsAt(was, geo, deleted, inodes, geo.total) && SameFrom(was, img, lo)
    requires lo <= geo.bitmaps * 4096
    ensures GroupsAt(img, geo, deleted, inodes, geo.total)
  {
    forall g | 0 <= g < geo.total ensures GroupAt(img, geo, deleted, inodes, g) {
      assert GroupAt(was, geo, deleted, inodes, g);
      BitmapsBehind(geo, g);
      hide *;
      FromIsIn(was, img, lo, lo, BitmapBlock(geo, g) * 4096 + 8192);
      GroupStays(was, img, lo, BitmapBlock(geo, g) * 4096 + 8192, geo, deleted, inodes, g);
    }
  }

  lemma BitmapsBehind(geo: Geometry, g: nat)
    requires geo.Ok() && g < geo.total
    ensures geo.bitmaps <= BitmapBlock(geo, g)
  {
    if g >= geo.groups {
      BitmapOrder(geo, g);
    }
  }

  lemma DescriptorsStay(was: seq<byte>, img: seq<byte>, descs: seq<GroupDescriptor>)
    requires DescriptorsAt(was, descs, |descs|) && SameFrom(was, img, 4096)
    ensures DescriptorsAt(img, descs, |descs|)
  {
    forall g | 0 <= g < |descs| ensures DescriptorAt(img, descs, g) {
      assert DescriptorAt(was, descs, g);
      hide EncodeDescriptor, At, SameIn, SameFrom;
      FromIsIn(was, img, 4096, 4096, 4096 + 32 * g + 32);
      AtIn(was, img, 4096, 4096 + 32 * g + 32, 4096 + 32 * g, EncodeDescriptor(descs[g]));
    }
  }

  lemma ClosedIs(img: seq<byte>, geo: Geometry, fs: Fs, contents: seq<Content>, nodes: Nodes, inodes: seq<Inode>, lo: nat, first: nat, sb: SuperBlock)
    requires Numbered(fs) && Listable(fs) && geo.Ok() && geo.total > 0 && geo.ipg <= 32768
    requires At(img, 1024, EncodeSuper(sb)) && DescriptorsAt(img, AllDescriptors(geo, fs.deleted, inodes), geo.total)
    requires sb == SuperOf(geo, TotalUsed(geo, fs.deleted, geo.total), TotalUsedInodes(geo, inodes, geo.total))
    requires GroupsAt(img, geo, fs.deleted, inodes, geo.total) && TableAt(img, geo.table, inodes, Slots(geo.groups, geo.ipg))
    requires OnDiskOk(fs, contents, img, geo.table * 4096, first) && Committed(fs, nodes, inodes, img, lo, geo.table * 4096)
    ensures Closed(img, geo, fs, contents, nodes, inodes, lo, first)
  {
    hide Numbered, Listable, Geometry.Ok, At, DescriptorsAt, GroupsAt, TableAt, OnDiskOk, Committed, AllDescriptors;
  }

  // ---- The method ----

  /** Steps 2 and 3 of `close`: choose the layout, write the inode table, settle
      the size. The directories are already written. */
  method LayOut(f: Formatter) returns (ok: bool, geo: Geometry, ghost img: seq<byte>)
    requires BlocksAreWhole(f.inodes) && f.inodes != [] && |f.inodes| <= 0x4000_0000
    requires f.size > 0 && f.first == DescriptorBlocks(f.size) + 1 && f.first * 4096 <= f.file.pos && f.file.pos % 4096 == 0
    modifies f`size, f.file
    ensures ok <==> !TooBig(f.allowPartialFinalGroup, old(f.size), old(f.file.pos) / 4096, |f.inodes|)
    ensures ok ==>
      && Laid(geo, f.allowPartialFinalGroup, old(f.size), |f.inodes|, f.size) && geo.Ok()
      && geo.table * 4096 == old(f.file.pos)
      && SameBelow(old(f.file.bytes), img, geo.table * 4096)
      && TableAt(img, geo.table, f.inodes, Slots(geo.groups, geo.ipg))
      && Extends(img, f.file.bytes) && f.file.pos == geo.bitmaps * 4096 && |f.file.bytes| >= f.size
      && geo.table * 4096 + 256 * Slots(geo.groups, geo.ipg) == geo.bitmaps * 4096
  {
    hide *;
    geo, img := Geometry(false, 0, 0, 0, 0, 0, 0, 0), [];
    var current := f.file.pos / 4096;
    if current > 0xFFFF_0000 {
      FarIsTooBig(f.allowPartialFinalGroup, f.size, current, |f.inodes|);
      return false, geo, img;
    }
    AlignedPosition(f.file.pos);
    ghost var size0 := f.size;
    var groups, ipg := OptimizeBlockGroupLayout(current, |f.inodes|);
    BestIs(current, |f.inodes|, groups, ipg);
    TooBigIs(f.allowPartialFinalGroup, size0, current, |f.inodes|, groups, ipg);
    LayoutFits(current, |f.inodes|, groups, ipg);
    OverrunsIs(f.allowPartialFinalGroup, size0, current, groups, ipg);
    TableBlocksSmall(ipg);
    var table := CommitInodeTable(f, groups, ipg);
    img := f.file.bytes;
    TableEnd(table, groups, ipg);
    f.file.AlignToBlock();
    var bitmaps := f.file.pos / 4096;
    AlignedPosition(table * 4096 + Tables(groups, ipg) * 4096);
    ExtendsSelf(img);
    var total := Resize(f, groups, bitmaps, TableBlocks(ipg));
    SizePositive(f.allowPartialFinalGroup, size0, groups, bitmaps, TableBlocks(ipg));
    BlockCountOver(f.size);
    if BlockCount(f.size) > 0xFFFF_FFFF || Slots(total, ipg) > 0xFFFF_FFFF {
      return false, geo, img;
    }
    var blocks := if f.allowPartialFinalGroup then f.size / 4096 else total * 32768;
    geo := Geometry(f.allowPartialFinalGroup, blocks, groups, total, ipg, table, bitmaps, DescriptorBlocks(f.size));
    LaidIs(geo, f.allowPartialFinalGroup, size0, |f.inodes|, f.size);
    LaidOk(geo, f.allowPartialFinalGroup, size0, |f.inodes|, f.size, f.first);
    ok := true;
  }

  lemma OverrunsIs(partial: bool, size: nat, blocks: nat, groups: nat, ipg: nat)
    requires Candidate(ipg) && groups > 0
    ensures TableBlocks(ipg) <= 2048
    ensures blocks + Tables(groups, ipg) > 0 ==>
      var raised := RaisedSize(partial, size, groups, blocks + Tables(groups, ipg));
      && raised >= 4096
      && (Overruns(partial, size, blocks, groups, ipg) <==>
            FinalSize(partial, raised, TableBlocks(ipg)) > 0xFFFF_FFFF * 4096 || Slots(TotalGroups(raised), ipg) > 0xFFFF_FFFF)
  {
    if blocks + Tables(groups, ipg) > 0 {
      RaisedIsEnough(partial, size, groups, blocks + Tables(groups, ipg));
    }
    hide RaisedSize, FinalSize, TotalGroups, Slots, Tables;
  }

  lemma AlignedPosition(pos: nat)
    requires pos % 4096 == 0
    ensures pos / 4096 * 4096 == pos && DivCeil(pos, 4096) == pos / 4096 && DivCeil(pos, 4096) * 4096 == pos
  {
  }

  lemma TableEnd(table: nat, groups: nat, ipg: nat)
    requires 256 * Slots(groups, ipg) == Tables(groups, ipg) * 4096
    ensures (table * 4096 + Tables(groups, ipg) * 4096) % 4096 == 0
    ensures (table * 4096 + Tables(groups, ipg) * 4096) / 4096 == table + Tables(groups, ipg)
    ensures table * 4096 + 256 * Slots(groups, ipg) == table * 4096 + Tables(groups, ipg) * 4096
  {
  }

  lemma SizePositive(partial: bool, size0: nat, groups: nat, bitmaps: nat, tableBlocks: nat)
    requires groups > 0 && bitmaps > 0 && tableBlocks <= 2048
    ensures var raised := RaisedSize(partial, size0, groups, bitmaps);
      raised >= 4096 && FinalSize(partial, raised, tableBlocks) > 0 && TotalGroups(raised) > 0
  {
    RaisedIsEnough(partial, size0, groups, bitmaps);
    TotalFacts(partial, RaisedSize(partial, size0, groups, bitmaps), tableBlocks);
  }

  lemma LaidIs(geo: Geometry, partial: bool, size0: nat, inodes: nat, size1: nat)
    requires geo.partial == partial && Candidate(geo.ipg) && geo.groups > 0 && geo.bitmaps > 0
    requires geo.groups == Needed(geo.table, inodes, geo.ipg)
    requires forall c: nat :: Candidate(c) ==> geo.groups <= Needed(geo.table, inodes, c)
    requires forall c: nat :: Candidate(c) && c < geo.ipg ==> geo.groups < Needed(geo.table, inodes, c)
    requires geo.bitmaps == geo.table + Tables(geo.groups, geo.ipg)
    requires var raised := RaisedSize(partial, size0, geo.groups, geo.bitmaps);
      && raised >= 4096 && geo.total == TotalGroups(raised)
      && size1 == FinalSize(partial, raised, TableBlocks(geo.ipg)) && size1 > 0
    requires geo.blocks == if partial then size1 / 4096 else geo.total * 32768
    requires geo.reserved == DescriptorBlocks(size1)
    ensures Laid(geo, partial, size0, inodes, size1)
  {
    hide Candidate, Needed, TableBlocks, RaisedSize, TotalGroups, FinalSize, DescriptorBlocks;
  }

  /** Steps 4 to 7 of `close`. */
  method WriteMetadata(f: Formatter, geo: Geometry, ghost fs: Fs, ghost contents: seq<Content>, ghost lo: nat,
                       ghost img0: seq<byte>, ghost img1: seq<byte>)
    requires Numbered(fs) && Listable(fs) && geo.Ok() && f.deletedBlocks == fs.deleted && RangesBelow(fs.deleted, geo.DataSize())
    requires OnDiskOk(fs, contents, img0, geo.table * 4096, f.first)
    requires Committed(fs, f.tree.nodes, f.inodes, img0, lo, geo.table * 4096)
    requires f.first * 4096 <= lo && f.first <= geo.table
    requires SameBelow(img0, img1, geo.table * 4096) && TableAt(img1, geo.table, f.inodes, Slots(geo.groups, geo.ipg))
    requires geo.table * 4096 + 256 * Slots(geo.groups, geo.ipg) == geo.bitmaps * 4096
    requires Extends(img1, f.file.bytes) && f.file.pos == geo.bitmaps * 4096
    modifies f.file
    ensures geo.total > 0 && SuperAt(f.file.bytes, geo, fs.deleted, f.inodes)
    ensures geo.UsedDescriptors() < f.first ==> Closed(f.file.bytes, geo, fs, contents, f.tree.nodes, f.inodes, lo, f.first)
  {
    GroupExists(geo, 0);
    CandidateFits(geo);
    GroupCounts(geo);
    hide *;
    ghost var img2 := f.file.bytes;
    var descs, usedBlocks, usedInodes := WriteDataGroups(f, geo);
    ghost var img3 := f.file.bytes;
    descs, usedBlocks := WriteEmptyGroups(f, geo, descs, usedBlocks, usedInodes);
    ghost var img4 := f.file.bytes;
    CountedAll(geo, fs.deleted, f.inodes, descs, usedBlocks, usedInodes);
    WriteDescriptors(f, descs);
    ghost var img5 := f.file.bytes;
    var inodesCount := Slots(geo.total, geo.ipg);
    var blocksCount := if geo.blocks < usedBlocks then usedBlocks else geo.blocks;
    var sb := SuperBlock(inodesCount, blocksCount, blocksCount - usedBlocks, inodesCount - usedInodes, 2, geo.ipg, SUPER_MAGIC, INODE_SIZE);
    SuperIs(geo, usedBlocks, usedInodes, sb);
    WriteSuper(f, sb);
    DescriptorsStay(img5, f.file.bytes, descs);
    SuperAtIs(f.file.bytes, geo, fs.deleted, f.inodes, sb);
    if geo.UsedDescriptors() < f.first {
      TableOfDescriptors(geo, f.first);
      Assembled(geo, fs, contents, f.tree.nodes, f.inodes, lo, f.first, descs, img0, img1, img2, img3, img4, img5, f.file.bytes, sb);
    }
  }

  lemma GroupCounts(geo: Geometry)
    requires geo.Ok()
    ensures 0 < geo.groups <= geo.total
  {
  }

  lemma CountedAll(geo: Geometry, deleted: seq<BlockRange>, inodes: seq<Inode>, descs: seq<GroupDescriptor>, usedBlocks: nat, usedInodes: nat)
    requires geo.Ok() && geo.ipg <= 32768 && Counted(geo, deleted, inodes, geo.total, descs, usedBlocks, usedInodes)
    ensures |descs| == geo.total && descs == AllDescriptors(geo, deleted, inodes)
    ensures usedBlocks == TotalUsed(geo, deleted, geo.total) && usedInodes == TotalUsedInodes(geo, inodes, geo.total)
    ensures usedInodes <= Slots(geo.total, geo.ipg)
  {
    FreeInodesAreRest(geo, deleted, inodes, geo.total);
    hide Geometry.Ok, Descriptor;
  }

  lemma SuperAtIs(img: seq<byte>, geo: Geometry, deleted: seq<BlockRange>, inodes: seq<Inode>, sb: SuperBlock)
    requires geo.Ok() && geo.ipg <= 32768 && At(img, 1024, EncodeSuper(sb))
    requires sb == SuperOf(geo, TotalUsed(geo, deleted, geo.total), TotalUsedInodes(geo, inodes, geo.total))
    requires DescriptorsAt(img, AllDescriptors(geo, deleted, inodes), geo.total)
    ensures SuperAt(img, geo, deleted, inodes)
  {
    hide Geometry.Ok, TotalUsed, TotalUsedInodes, EncodeSuper, At, SuperOf, DescriptorsAt, AllDescriptors;
  }

  /** The descriptor table reaches block `first`, where file data may begin, exactly if
      there are more groups than the blocks before it can describe; what lies there is
      then a descriptor. */
  lemma TableReaches(img: seq<byte>, geo: Geometry, deleted: seq<BlockRange>, inodes: seq<Inode>, first: nat)
    requires geo.Ok() && SuperAt(img, geo, deleted, inodes) && first > 0
    ensures geo.total > 0 && (geo.UsedDescriptors() >= first <==> geo.total > (first - 1) * 128)
    ensures geo.UsedDescriptors() >= first ==>
      At(img, first * 4096, EncodeDescriptor(AllDescriptors(geo, deleted, inodes)[(first - 1) * 128]))
  {
    GroupCounts(geo);
    if geo.total > (first - 1) * 128 {
      var g := (first - 1) * 128;
      assert 4096 + 32 * g == first * 4096;
      assert DescriptorAt(img, AllDescriptors(geo, deleted, inodes), g);
    }
    hide Geometry.Ok, At, EncodeDescriptor, AllDescriptors;
  }

  lemma SuperIs(geo: Geometry, usedBlocks: nat, usedInodes: nat, sb: SuperBlock)
    requires usedInodes <= Slots(geo.total, geo.ipg)
    requires var blocks := if geo.blocks < usedBlocks then usedBlocks else geo.blocks;
      sb == SuperBlock(Slots(geo.total, geo.ipg), blocks, blocks - usedBlocks, Slots(geo.total, geo.ipg) - usedInodes, 2, geo.ipg,
                       SUPER_MAGIC, INODE_SIZE)
    ensures sb == SuperOf(geo, usedBlocks, usedInodes)
  {
    hide Slots;
  }

  lemma TableOfDescriptors(geo: Geometry, first: nat)
    requires geo.total > 0 && geo.UsedDescriptors() < first
    ensures 4096 + 32 * geo.total <= first * 4096
  {
  }

  lemma InodeBound(fs: Fs)
    requires Numbered(fs) && |fs.nodes| <= MAX_NAMES
    ensures |fs.inodes| <= 0x4000_0000
  {
    forall j, k | 0 <= j < k < |fs.origin| ensures fs.origin[j] != fs.origin[k] {
      assert NumberedInode(fs, j + 11) && NumberedInode(fs, k + 11);
    }
    forall k | 0 <= k < |fs.origin| ensures fs.origin[k] < |fs.nodes| {
      assert NumberedInode(fs, k + 11);
    }
    DistinctBound(fs.origin, |fs.nodes|);
  }

  lemma FirstBelow(f: Formatter)
    requires f.Valid(0)
    ensures f.first * 4096 <= f.file.pos && f.first > 0 ==> f.file.pos >= 4096
    ensures f.first * 4096 <= f.file.pos && Numbered(f.View()) && f.View().deleted == f.deletedBlocks
    ensures f.View().nodes == f.tree.nodes && f.View().inodes == f.inodes
  {
  }

  lemma CommittedCount(fs: Fs, nodes: Nodes, inodes: seq<Inode>, img: seq<byte>, lo: nat, limit: nat)
    requires Numbered(fs) && Listable(fs) && Committed(fs, nodes, inodes, img, lo, limit)
    ensures |inodes| == |fs.inodes|
  {
  }

  /** A layout is settled by the request, the blocks written and the inodes. */
  lemma OneLayout(a: Geometry, b: Geometry, partial: bool, size0: nat, inodes: nat, size1: nat, size2: nat)
    requires Laid(a, partial, size0, inodes, size1) && Laid(b, partial, size0, inodes, size2) && a.table == b.table
    ensures a == b && size1 == size2
  {
    hide RaisedSize, FinalSize, FinalBlocks, TotalGroups, Needed, Candidate, TableBlocks, Tables, DescriptorBlocks;
  }

  lemma LaidIsBest(geo: Geometry, partial: bool, size0: nat, inodes: nat, size1: nat)
    requires Laid(geo, partial, size0, inodes, size1) && geo.Ok() && size1 <= 0xFFFF_FFFF * 4096 && geo.table <= 0xFFFF_0000
    ensures !TooBig(partial, size0, geo.table, inodes)
  {
    hide *;
    LaidParts(geo, partial, size0, inodes, size1);
    BestIs(geo.table, inodes, geo.groups, geo.ipg);
    TooBigIs(partial, size0, geo.table, inodes, geo.groups, geo.ipg);
  }

  lemma LaidParts(geo: Geometry, partial: bool, size0: nat, inodes: nat, size1: nat)
    requires Laid(geo, partial, size0, inodes, size1) && geo.Ok() && size1 <= 0xFFFF_FFFF * 4096
    ensures Candidate(geo.ipg) && geo.groups == Needed(geo.table, inodes, geo.ipg)
    ensures forall c: nat :: Candidate(c) ==> geo.groups <= Needed(geo.table, inodes, c)
    ensures forall c: nat :: Candidate(c) && c < geo.ipg ==> geo.groups < Needed(geo.table, inodes, c)
    ensures !Overruns(partial, size0, geo.table, geo.groups, geo.ipg)
  {
    hide RaisedSize, FinalSize, FinalBlocks, TotalGroups, Needed, Candidate, TableBlocks, Tables, DescriptorBlocks,
         Geometry.DataSize, Geometry.UsedDescriptors, LastGroupViable;
  }

  /** The check for descriptor space always passes. */
  lemma DescriptorRoom(geo: Geometry, partial: bool, size0: nat, inodes: nat, size1: nat)
    requires Laid(geo, partial, size0, inodes, size1)
    ensures geo.total > 0 && size1 > 0 && geo.UsedDescriptors() <= DescriptorBlocks(size1)
  {
    TableBlocksSmall(geo.ipg);
    var raised := RaisedSize(partial, size0, geo.groups, geo.bitmaps);
    TotalFacts(partial, raised, TableBlocks(geo.ipg));
    hide RaisedSize, FinalSize, FinalBlocks, TotalGroups, Needed, LastGroupViable, TableBlocks, GroupCount;
  }

  lemma DataBehindTable(geo: Geometry, limit: nat)
    requires geo.Ok() && limit == geo.table * 4096
    ensures limit <= geo.DataSize() * 4096 && geo.total > 0
  {
    hide Tables;
  }

  /** `close` once the directories are written. */
  method WriteRest(f: Formatter, ghost fs: Fs, ghost lo: nat) returns (r: Result<(), FormatError>, ghost geo: Geometry)
    requires BlocksAreWhole(f.inodes) && f.inodes != [] && |f.inodes| <= 0x4000_0000
    requires f.size > 0 && f.first == DescriptorBlocks(f.size) + 1 && f.first * 4096 <= lo <= f.file.pos && f.file.pos % 4096 == 0
    requires Numbered(fs) && Listable(fs) && f.deletedBlocks == fs.deleted && Inv(fs, 0)
    requires OnDiskOk(fs, f.contents, f.file.bytes, f.file.pos, f.first)
    requires Committed(fs, f.tree.nodes, f.inodes, f.file.bytes, lo, f.file.pos)
    modifies f`size, f.file
    ensures r.Err? <==> TooBig(f.allowPartialFinalGroup, old(f.size), old(f.file.pos) / 4096, |f.inodes|)
    ensures r.Err? ==> r.error == NumbersOverflow
    ensures r.Ok? ==>
      && geo.table * 4096 == old(f.file.pos)
      && Laid(geo, f.allowPartialFinalGroup, old(f.size), |f.inodes|, f.size) && geo.Ok() && geo.total > 0
      && f.size > 0 && geo.UsedDescriptors() <= DescriptorBlocks(f.size)
      && SuperAt(f.file.bytes, geo, fs.deleted, f.inodes)
      && (geo.UsedDescriptors() < f.first ==>
            Closed(f.file.bytes, geo, fs, f.contents, f.tree.nodes, f.inodes, lo, f.first))
  {
    hide *;
    ghost var img0, limit := f.file.bytes, f.file.pos;
    ghost var img1;
    var ok, g;
    ok, g, img1 := LayOut(f);
    geo := g;
    if !ok {
      return Err(NumbersOverflow), geo;
    }
    DescriptorRoom(g, f.allowPartialFinalGroup, old(f.size), |f.inodes|, f.size);
    if g.UsedDescriptors() > DescriptorBlocks(f.size) {
      return Err(InsufficientSpaceForGroupDescriptorBlocks), geo;
    }
    DataBehindTable(g, limit);
    DeletedBelow(fs, f.contents, img0, limit, f.first, g.DataSize());
    WriteMetadata(f, g, fs, f.contents, lo, img0, img1);
    r := Ok(());
  }

  /** `close`. It never runs out of descriptor space; it lays the image out with
      the fewest groups; and unless the image outgrew the space reserved for its
      descriptor table, everything that was created is on disk when it is done. */
  method Close(f: Formatter) returns (r: Result<(), FormatError>, ghost geo: Geometry)
    requires f.Valid(0) && Plain(f.View()) && |f.tree.nodes| <= MAX_NAMES
    requires f.size > 0 && f.first == DescriptorBlocks(f.size) + 1
    modifies f`size, f`inodes, f.tree, f.file
    ensures Numbered(old(f.View())) && Listable(old(f.View()))
    ensures r.Err? <==> TooBig(f.allowPartialFinalGroup, old(f.size), DirectoriesEnd(old(f.View()), old(f.file.pos)), |old(f.inodes)|)
    ensures r.Err? ==> r.error == NumbersOverflow
    ensures r.Ok? ==>
      && |f.inodes| == |old(f.inodes)| && geo.table == DirectoriesEnd(old(f.View()), old(f.file.pos))
      && Laid(geo, f.allowPartialFinalGroup, old(f.size), |f.inodes|, f.size) && geo.Ok() && geo.total > 0
      && f.size > 0 && geo.UsedDescriptors() <= DescriptorBlocks(f.size)
      && old(f.file.pos) <= geo.table * 4096
      && SuperAt(f.file.bytes, geo, old(f.View()).deleted, f.inodes)
      && (geo.UsedDescriptors() < f.first ==>
            Closed(f.file.bytes, geo, old(f.View()), f.contents, f.tree.nodes, f.inodes, old(f.file.pos), f.first))
  {
    ghost var fs, lo, img := f.View(), f.file.pos, f.file.bytes;
    hide *;
    FirstBelow(f);
    InodeBound(fs);
    ValidFacts(f);
    CommitDirectories(f);
    AllCommitted(fs, f.contents, f.tree.nodes, f.inodes, img, f.file.bytes, lo, f.file.pos, f.first);
    r, geo := WriteRest(f, fs, lo);
  }

  /** What `close` goes on with once the directories are written. */
  lemma AllCommitted(fs: Fs, contents: seq<Content>, nodes: Nodes, inodes: seq<Inode>, was: seq<byte>, img: seq<byte>,
                     lo: nat, limit: nat, first: nat)
    requires Numbered(fs) && Listable(fs) && Committed(fs, nodes, inodes, img, lo, limit) && OnDiskOk(fs, contents, was, lo, first)
    requires SameBelow(was, img, lo) && lo <= limit && limit == DirectoriesEnd(fs, lo) * 4096
    ensures OnDiskOk(fs, contents, img, limit, first) && BlocksAreWhole(inodes) && inodes != [] && |inodes| == |fs.inodes|
    ensures limit / 4096 == DirectoriesEnd(fs, lo) && limit % 4096 == 0
    ensures forall table: nat :: table * 4096 == limit ==> table == DirectoriesEnd(fs, lo)
  {
    hide *;
    MovedUp(fs, contents, was, img, lo, limit, first);
    CommittedWhole(fs, contents, nodes, inodes, img, lo, limit, was, first);
    CommittedCount(fs, nodes, inodes, img, lo, limit);
    WholeCursor(fs, lo, limit);
  }

  lemma WholeCursor(fs: Fs, lo: nat, limit: nat)
    requires Numbered(fs) && Listable(fs) && limit == DirectoriesEnd(fs, lo) * 4096
    ensures limit / 4096 == DirectoriesEnd(fs, lo) && limit % 4096 == 0
    ensures forall table: nat :: table * 4096 == limit ==> table == DirectoriesEnd(fs, lo)
  {
    hide DirectoriesEnd, Numbered, Listable;
  }

  // ---- What a finished image promises ----

  /** Every group has its descriptor exactly when the count did not miss one. */
  lemma RegularUnlessMissed(geo: Geometry, partial: bool, size0: nat, inodes: nat, size1: nat)
    requires Laid(geo, partial, size0, inodes, size1)
    ensures var raised := RaisedSize(partial, size0, geo.groups, geo.bitmaps);
      raised >= 4096 && (Regular(geo) <==> !GroupMissed(partial, raised))
  {
    TableBlocksSmall(geo.ipg);
    var raised := RaisedSize(partial, size0, geo.groups, geo.bitmaps);
    DescriptorsMatch(partial, raised, TableBlocks(geo.ipg));
    hide RaisedSize, FinalBlocks, TotalGroups, GroupMissed, TableBlocks, Needed;
  }

  /** A request in whole blocks never makes the count miss a group. */
  lemma WholeBlocksAreRegular(partial: bool, size0: nat, groups: nat, bitmapOffset: nat)
    requires groups > 0 && bitmapOffset > 0 && size0 % 4096 == 0
    ensures !GroupMissed(partial, RaisedSize(partial, size0, groups, bitmapOffset))
  {
  }

  /** The superblock's totals are the sums of the descriptors' counts: block
      count, free blocks, inode count, free inodes. */
  lemma SuperblockCounts(geo: Geometry, deleted: seq<BlockRange>, inodes: seq<Inode>)
    requires geo.Ok() && Regular(geo)
    ensures geo.ipg <= 32768
    ensures var sb := SuperOf(geo, TotalUsed(geo, deleted, geo.total), TotalUsedInodes(geo, inodes, geo.total));
      && sb.blocksCount == geo.blocks == TotalSize(geo, geo.total)
      && sb.freeBlocks == TotalFree(geo, deleted, geo.total)
      && sb.inodesCount == Slots(geo.total, geo.ipg)
      && sb.freeInodes == TotalFreeInodes(geo, deleted, inodes, geo.total)
  {
    FreeBlocksConserved(geo, deleted);
    FreeInodesAreRest(geo, deleted, inodes, geo.total);
    hide Geometry.Ok, Regular;
  }

  /** Exactly when a block of live file data is marked as taken: unless `close`
      counts it among the reserved descriptor blocks it gives back. */
  lemma LiveTakenIff(geo: Geometry, fs: Fs, contents: seq<Content>, img: seq<byte>, limit: nat, first: nat, n: nat, r: BlockRange, b: nat)
    requires geo.Ok() && limit <= geo.DataSize() * 4096 && geo.total > 0 && geo.UsedDescriptors() < first
    requires Inv(fs, 0) && OnDiskOk(fs, contents, img, limit, first) && RESERVED < n <= |fs.inodes|
    requires Numbered(fs) && fs.inodes[n - 1].links > 0 && r in OwnRanges(fs, n) && r.start <= b < Reach(r)
    ensures first <= b < geo.DataSize() && b / 32768 < geo.groups
    ensures GroupBits(geo, fs.deleted, b / 32768)[b % 32768] <==> !(b <= geo.reserved && b < 32768)
  {
    LiveNotDeleted(fs, contents, img, limit, first, n, r, b);
    PlacedAt(fs, contents, img, limit, first, n);
    PlacedRange(fs, first, limit, n, r);
    hide *;
    BlockTaken(geo, fs.deleted, b);
  }
}
