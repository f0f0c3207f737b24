/** `close`: directories, inode table, bitmaps, group descriptors and
    superblock, written around the data that is already there. */
module Closing {
  import opened Basics
  import opened Image
  import opened OnDisk
  import opened Extents
  import opened Trees
  import opened Namespace
  import opened Unlinking
  import opened Contents
  import opened Layout
  import opened Bitmaps
  import opened Groups
  import opened Accounting
  import opened Requests
  import opened Formatting
  import opened Listing
  import opened Committing

  // ---- Inode table ----

  predicate InodeAt(img: seq<byte>, table: nat, inodes: seq<Inode>, k: nat)
    requires k < |inodes|
  {
    |inodes[k].block| == 60 && At(img, table * 4096 + 256 * k, EncodeInode(inodes[k]))
  }

  /** The first `n` inodes lie one after the other from block `table` on. */
  predicate InodesAt(img: seq<byte>, table: nat, inodes: seq<Inode>, n: nat)
    requires n <= |inodes|
  {
    forall k :: 0 <= k < n ==> InodeAt(img, table, inodes, k)
  }

  predicate BlocksAreWhole(inodes: seq<Inode>) {
    forall k :: 0 <= k < |inodes| ==> |inodes[k].block| == 60
  }

  /** The whole table: the inodes, then zeros up to `slots` of them. */
  predicate TableAt(img: seq<byte>, table: nat, inodes: seq<Inode>, slots: nat) {
    && |inodes| <= slots
    && InodesAt(img, table, inodes, |inodes|)
    && At(img, table * 4096 + 256 * |inodes|, Zeros(256 * (slots - |inodes|)))
  }

  lemma InodeWritten(was: seq<byte>, img: seq<byte>, table: nat, inodes: seq<Inode>, k: nat)
    requires k < |inodes| && |inodes[k].block| == 60 && InodesAt(was, table, inodes, k)
    requires img == WriteAt(was, table * 4096 + 256 * k, EncodeInode(inodes[k]))
    ensures InodesAt(img, table, inodes, k + 1) && SameBelow(was, img, table * 4096)
  {
    var off, b := table * 4096 + 256 * k, EncodeInode(inodes[k]);
    hide EncodeInode, WriteAt, SameBelow, At;
    WriteReadsBack(was, off, b);
    WriteAbove(was, off, b, off);
    forall j | 0 <= j < k ensures InodeAt(img, table, inodes, j) {
      assert InodeAt(was, table, inodes, j);
      WriteElsewhere(was, off, b, table * 4096 + 256 * j, EncodeInode(inodes[j]));
    }
    SameBelowLess(was, img, table * 4096, off);
  }

  lemma NoInodes(img: seq<byte>, table: nat, inodes: seq<Inode>)
    ensures InodesAt(img, table, inodes, 0)
  {
  }

  lemma WholeAt(inodes: seq<Inode>, k: nat)
    requires BlocksAreWhole(inodes) && k < |inodes|
    ensures |inodes[k].block| == 60 && |EncodeInode(inodes[k])| == 256
  {
  }

  /** Inode `k` goes behind its predecessors. */
  method WriteInode(f: Formatter, table: nat, k: nat)
    requires k < |f.inodes| && BlocksAreWhole(f.inodes) && f.file.pos == table * 4096 + 256 * k
    requires InodesAt(f.file.bytes, table, f.inodes, k)
    modifies f.file
    ensures InodesAt(f.file.bytes, table, f.inodes, k + 1)
    ensures SameBelow(old(f.file.bytes), f.file.bytes, table * 4096)
    ensures f.file.pos == table * 4096 + 256 * (k + 1)
  {
    hide *;
    ghost var before := f.file.bytes;
    WholeAt(f.inodes, k);
    f.file.WriteAll(EncodeInode(f.inodes[k]));
    InodeWritten(before, f.file.bytes, table, f.inodes, k);
  }

  /** The loop over the inodes. */
  method WriteInodes(f: Formatter, table: nat)
    requires f.file.pos == table * 4096 && BlocksAreWhole(f.inodes)
    modifies f.file
    ensures InodesAt(f.file.bytes, table, f.inodes, |f.inodes|)
    ensures SameBelow(old(f.file.bytes), f.file.bytes, table * 4096)
    ensures f.file.pos == table * 4096 + 256 * |f.inodes|
  {
    ghost var was := f.file.bytes;
    hide *;
    SameBelowRefl(was, table * 4096);
    NoInodes(was, table, f.inodes);
    for k := 0 to |f.inodes|
      invariant f.file.pos == table * 4096 + 256 * k
      invariant InodesAt(f.file.bytes, table, f.inodes, k)
      invariant SameBelow(was, f.file.bytes, table * 4096)
    {
      ghost var before := f.file.bytes;
      WriteInode(f, table, k);
      SameBelowTrans(was, before, f.file.bytes, table * 4096, table * 4096);
    }
  }

  lemma ZerosWritten(was: seq<byte>, img: seq<byte>, base: nat, n: nat, m: nat)
    requires base + n <= |was| && At(was, base, Zeros(n)) && img == WriteAt(was, base + n, Zeros(m))
    ensures At(img, base, Zeros(n + m)) && SameBelow(was, img, base)
  {
    hide WriteAt, SameBelow;
    WriteReadsBack(was, base + n, Zeros(m));
    WriteElsewhere(was, base + n, Zeros(m), base, Zeros(n));
    AtJoin(img, base, Zeros(n), Zeros(m));
    assert Zeros(n) + Zeros(m) == Zeros(n + m);
    WriteAbove(was, base + n, Zeros(m), base + n);
    SameBelowLess(was, img, base, base + n);
  }

  /** Zeros, block by block, to the end of the table. */
  method WriteZeros(f: Formatter, rest: nat)
    requires f.file.pos <= |f.file.bytes|
    modifies f.file
    ensures At(f.file.bytes, old(f.file.pos), Zeros(rest)) && f.file.pos == old(f.file.pos) + rest
    ensures SameBelow(old(f.file.bytes), f.file.bytes, old(f.file.pos))
  {
    ghost var was, base := f.file.bytes, f.file.pos;
    SameBelowRefl(was, base);
    assert At(was, base, Zeros(0));
    var fullBlocks, remainder := rest / 4096, rest % 4096;
    hide *;
    for k := 0 to fullBlocks
      invariant f.file.pos == base + 4096 * k && f.file.pos <= |f.file.bytes|
      invariant At(f.file.bytes, base, Zeros(4096 * k)) && SameBelow(was, f.file.bytes, base)
    {
      ghost var before := f.file.bytes;
      f.file.WriteAll(Zeros(4096));
      ZerosWritten(before, f.file.bytes, base, 4096 * k, 4096);
      WriteLength(before, base + 4096 * k, Zeros(4096));
      SameBelowTrans(was, before, f.file.bytes, base, base);
    }
    if remainder > 0 {
      ghost var before := f.file.bytes;
      f.file.WriteAll(Zeros(remainder));
      ZerosWritten(before, f.file.bytes, base, 4096 * fullBlocks, remainder);
      SameBelowTrans(was, before, f.file.bytes, base, base);
    }
  }

  lemma WriteLength(img: seq<byte>, off: nat, b: seq<byte>)
    ensures |WriteAt(img, off, b)| >= off + |b| && |WriteAt(img, off, b)| >= |img|
  {
  }

  lemma InodesStay(was: seq<byte>, img: seq<byte>, table: nat, inodes: seq<Inode>, hi: nat)
    requires InodesAt(was, table, inodes, |inodes|) && SameIn(was, img, table * 4096, hi)
    requires hi >= table * 4096 + 256 * |inodes|
    ensures InodesAt(img, table, inodes, |inodes|)
  {
    forall k | 0 <= k < |inodes| ensures InodeAt(img, table, inodes, k) {
      assert InodeAt(was, table, inodes, k);
      hide EncodeInode, SameIn, At;
      AtIn(was, img, table * 4096, hi, table * 4096 + 256 * k, EncodeInode(inodes[k]));
    }
  }

  lemma InodesEnd(img: seq<byte>, table: nat, inodes: seq<Inode>)
    requires InodesAt(img, table, inodes, |inodes|) && inodes != []
    ensures table * 4096 + 256 * |inodes| <= |img|
  {
    var k := |inodes| - 1;
    assert InodeAt(img, table, inodes, k);
  }

  /** commit_inode_table. */
  method CommitInodeTable(f: Formatter, groups: nat, ipg: nat) returns (offset: nat)
    requires BlocksAreWhole(f.inodes) && f.inodes != [] && |f.inodes| <= Slots(groups, ipg)
    modifies f.file
    ensures offset == DivCeil(old(f.file.pos), 4096) && f.file.pos == offset * 4096 + 256 * Slots(groups, ipg)
    ensures TableAt(f.file.bytes, offset, f.inodes, Slots(groups, ipg))
    ensures SameBelow(old(f.file.bytes), f.file.bytes, offset * 4096)
  {
    var slots := Slots(groups, ipg);
    ghost var was := f.file.bytes;
    hide *;
    f.file.AlignToBlock();
    offset := f.file.pos / 4096;
    assert f.file.pos == offset * 4096;
    WriteInodes(f, offset);
    InodesEnd(f.file.bytes, offset, f.inodes);
    ghost var written, at := f.file.bytes, f.file.pos;
    var rest := 256 * slots - 256 * |f.inodes|;
    if rest > 0 {
      WriteZeros(f, rest);
    } else {
      SameBelowRefl(written, at);
      NoZeros(written, at);
    }
    BelowIsIn(written, f.file.bytes, at, offset * 4096);
    InodesStay(written, f.file.bytes, offset, f.inodes, at);
    SameBelowTrans(was, written, f.file.bytes, offset * 4096, at);
    TableIs(f.file.bytes, offset, f.inodes, slots);
  }

  lemma NoZeros(img: seq<byte>, off: nat)
    requires off <= |img|
    ensures At(img, off, Zeros(0))
  {
  }

  lemma TableIs(img: seq<byte>, table: nat, inodes: seq<Inode>, slots: nat)
    requires |inodes| <= slots && InodesAt(img, table, inodes, |inodes|)
    requires At(img, table * 4096 + 256 * |inodes|, Zeros(256 * slots - 256 * |inodes|))
    ensures TableAt(img, table, inodes, slots)
  {
    hide InodesAt, At, Zeros;
  }

  // ---- The size of the image ----

  predicate Extends(was: seq<byte>, img: seq<byte>) {
    |was| <= |img| && img[..|was|] == was
  }

  lemma GrowExtends(was: seq<byte>, mid: seq<byte>, n: nat)
    requires Extends(was, mid)
    ensures Extends(was, SetLen(mid, n)) && |SetLen(mid, n)| >= n
  {
    assert SetLen(mid, n)[..|mid|] == mid;
    assert SetLen(mid, n)[..|was|] == mid[..|was|];
  }

  lemma ExtendsSelf(was: seq<byte>)
    ensures Extends(was, was)
  {
  }

  lemma ExtendsIn(was: seq<byte>, img: seq<byte>, lo: nat, hi: nat)
    requires Extends(was, img)
    ensures SameIn(was, img, lo, hi)
  {
    forall k | lo <= k < hi && k < |was| ensures was[k] == img[k] {
      assert img[..|was|][k] == img[k];
    }
  }

  /** The part of `close` between inode table and bitmaps: the size is raised, the
      groups are counted, the size is rounded. */
  method Resize(f: Formatter, groups: nat, bitmapOffset: nat, tableBlocks: nat) returns (total: nat)
    requires groups > 0 && bitmapOffset > 0 && f.file.pos == bitmapOffset * 4096
    modifies f`size, f.file
    ensures var raised := RaisedSize(f.allowPartialFinalGroup, old(f.size), groups, bitmapOffset);
      && raised >= 4096 && total == TotalGroups(raised)
      && f.size == FinalSize(f.allowPartialFinalGroup, raised, tableBlocks)
    ensures f.file.pos == old(f.file.pos) && |f.file.bytes| >= f.size
    ensures Extends(old(f.file.bytes), f.file.bytes)
  {
    ghost var was := f.file.bytes;
    Raise(f, groups, bitmapOffset);
    ghost var raised := f.size;
    RaisedIsEnough(f.allowPartialFinalGroup, old(f.size), groups, bitmapOffset);
    hide *;
    var partial := f.allowPartialFinalGroup;
    total := TotalGroups(f.size);
    FinalSizeIs(partial, raised, tableBlocks, total);
    if !partial && f.size < total * 32768 * 4096 {
      f.size := total * 32768 * 4096;
      GrowExtends(was, f.file.bytes, f.size);
      f.file.Grow(f.size);
    }
    if partial {
      f.size := DivCeil(f.size, 4096) * 4096;
      var blocks := f.size / 4096;
      var rem := blocks % 32768;
      if rem != 0 && rem < tableBlocks + 2 {
        f.size := (blocks - rem + tableBlocks + 2) * 4096;
      }
    }
    if |f.file.bytes| < f.size {
      GrowExtends(was, f.file.bytes, f.size);
      f.file.Grow(f.size);
    }
  }

  /** The image is made big enough for its groups and its data. */
  method Raise(f: Formatter, groups: nat, bitmapOffset: nat)
    requires groups > 0 && bitmapOffset > 0 && f.file.pos == bitmapOffset * 4096
    modifies f`size, f.file
    ensures f.size == RaisedSize(f.allowPartialFinalGroup, old(f.size), groups, bitmapOffset)
    ensures f.file.pos == old(f.file.pos) && Extends(old(f.file.bytes), f.file.bytes)
  {
    ghost var was := f.file.bytes;
    hide Extends, MinimumBlocks;
    ExtendsSelf(was);
    var minimum := MinimumBlocks(groups);
    if f.size < minimum * 4096 {
      f.size := minimum * 4096;
    }
    if f.allowPartialFinalGroup {
      var needed := (bitmapOffset + 2 * groups) * 4096;
      if f.size < needed {
        f.size := needed;
        GrowExtends(was, f.file.bytes, f.size);
        f.file.Grow(f.size);
      }
    } else {
      var minGroups := (f.file.pos / 4096 - 1) / 32768 + 1;
      if f.size < minGroups * 32768 * 4096 {
        f.size := minGroups * 32768 * 4096;
        GrowExtends(was, f.file.bytes, f.size);
        f.file.Grow(f.size);
      }
    }
  }

  lemma FinalSizeIs(partial: bool, raised: nat, tableBlocks: nat, total: nat)
    requires raised >= 4096 && total == TotalGroups(raised)
    ensures !partial ==>
      FinalSize(partial, raised, tableBlocks) == if raised < total * 32768 * 4096 then total * 32768 * 4096 else raised
    ensures partial ==>
      var blocks := DivCeil(raised, 4096) * 4096 / 4096;
      var rem := blocks % 32768;
      FinalSize(partial, raised, tableBlocks)
        == if rem != 0 && rem < tableBlocks + 2 then (blocks - rem + tableBlocks + 2) * 4096 else DivCeil(raised, 4096) * 4096
  {
  }

  // ---- Bitmaps ----

  /** A block bitmap in block `block`, an inode bitmap in the next. */
  predicate BitmapsAt(img: seq<byte>, block: nat, bits: seq<bool>, inodeBits: seq<bool>) {
    block * 4096 + 8192 <= |img| && Bits(img[block * 4096..block * 4096 + 8192]) == bits + inodeBits
  }

  /** The inode bitmap of group `g`, with data or without. */
  function GroupInodeBits(geo: Geometry, inodes: seq<Inode>, g: nat): seq<bool> {
    if g < geo.groups then InodeBits(geo, inodes, g) else FreeInodeBits(geo)
  }

  /** Where group `g` keeps its bitmaps. */
  function BitmapBlock(geo: Geometry, g: nat): nat {
    if g < geo.groups then geo.bitmaps + 2 * g else g * 32768 + TableBlocks(geo.ipg)
  }

  predicate GroupAt(img: seq<byte>, geo: Geometry, deleted: seq<BlockRange>, inodes: seq<Inode>, g: nat)
    requires geo.total > 0 && g < geo.total
  {
    BitmapsAt(img, BitmapBlock(geo, g), GroupBits(geo, deleted, g), GroupInodeBits(geo, inodes, g))
  }

  predicate GroupsAt(img: seq<byte>, geo: Geometry, deleted: seq<BlockRange>, inodes: seq<Inode>, n: nat)
    requires geo.total > 0 && n <= geo.total
  {
    forall g :: 0 <= g < n ==> GroupAt(img, geo, deleted, inodes, g)
  }

  lemma BitmapsWritten(was: seq<byte>, img: seq<byte>, block: nat, buf: seq<byte>, bits: seq<bool>, inodeBits: seq<bool>)
    requires |buf| == 8192 && Bits(buf) == bits + inodeBits && img == WriteAt(was, block * 4096, buf)
    ensures BitmapsAt(img, block, bits, inodeBits)
  {
    hide WriteAt, Bits;
    WriteReadsBack(was, block * 4096, buf);
  }

  lemma BitmapsStay(was: seq<byte>, img: seq<byte>, lo: nat, hi: nat, block: nat, bits: seq<bool>, inodeBits: seq<bool>)
    requires BitmapsAt(was, block, bits, inodeBits) && SameIn(was, img, lo, hi)
    requires lo <= block * 4096 && block * 4096 + 8192 <= hi
    ensures BitmapsAt(img, block, bits, inodeBits)
  {
    hide Bits, SameIn;
    var b := was[block * 4096..block * 4096 + 8192];
    assert At(was, block * 4096, b);
    AtIn(was, img, lo, hi, block * 4096, b);
  }

  lemma GroupStays(was: seq<byte>, img: seq<byte>, lo: nat, hi: nat, geo: Geometry, deleted: seq<BlockRange>, inodes: seq<Inode>, g: nat)
    requires geo.total > 0 && g < geo.total && GroupAt(was, geo, deleted, inodes, g) && SameIn(was, img, lo, hi)
    requires lo <= BitmapBlock(geo, g) * 4096 && BitmapBlock(geo, g) * 4096 + 8192 <= hi
    ensures GroupAt(img, geo, deleted, inodes, g)
  {
    hide BitmapsAt, BitmapBlock, GroupBits, GroupInodeBits, SameIn;
    BitmapsStay(was, img, lo, hi, BitmapBlock(geo, g), GroupBits(geo, deleted, g), GroupInodeBits(geo, inodes, g));
  }

  /** What the group loops have to show after `n` groups: bitmaps on disk,
      descriptors and running totals right. */
  ghost predicate Counted(geo: Geometry, deleted: seq<BlockRange>, inodes: seq<Inode>, n: nat,
                          descs: seq<GroupDescriptor>, usedBlocks: nat, usedInodes: nat)
    requires geo.Ok() && n <= geo.total && geo.ipg <= 32768
  {
    && |descs| == n && (forall g :: 0 <= g < n ==> descs[g] == Descriptor(geo, deleted, inodes, g))
    && usedBlocks == TotalUsed(geo, deleted, n) && usedInodes == TotalUsedInodes(geo, inodes, n)
  }

  lemma NothingCounted(geo: Geometry, deleted: seq<BlockRange>, inodes: seq<Inode>)
    requires geo.Ok() && geo.ipg <= 32768
    ensures Counted(geo, deleted, inodes, 0, [], 0, 0)
  {
  }

  lemma CountDataGroup(geo: Geometry, deleted: seq<BlockRange>, inodes: seq<Inode>, g: nat,
                       descs: seq<GroupDescriptor>, usedBlocks: nat, usedInodes: nat, blocks: nat, used: nat, dirs: nat)
    requires geo.Ok() && g < geo.groups && g < geo.total && geo.ipg <= 32768 && geo.Size(g) <= 32768
    requires Counted(geo, deleted, inodes, g, descs, usedBlocks, usedInodes)
    requires blocks == Count(BlockBits(geo, deleted, g), geo.Size(g))
    requires used == Count(InodeBits(geo, inodes, g), geo.ipg) && dirs == DirsAmong(geo, inodes, g, geo.ipg)
    ensures blocks <= geo.Size(g) && used <= geo.ipg
    ensures Counted(geo, deleted, inodes, g + 1,
                    descs + [GroupDescriptor(geo.bitmaps + 2 * g, geo.bitmaps + 2 * g + 1, TableStart(geo, g),
                                             geo.Size(g) - blocks, geo.ipg - used, dirs)],
                    usedBlocks + blocks, usedInodes + used)
  {
    hide Geometry.Ok, Geometry.Size, BlockBits, InodeBits, TableBlocks;
  }

  lemma CountEmptyGroup(geo: Geometry, deleted: seq<BlockRange>, inodes: seq<Inode>, g: nat,
                        descs: seq<GroupDescriptor>, usedBlocks: nat, usedInodes: nat)
    requires geo.Ok() && geo.groups <= g < geo.total && geo.ipg <= 32768
    requires Counted(geo, deleted, inodes, g, descs, usedBlocks, usedInodes)
    ensures geo.Size(g) >= TableBlocks(geo.ipg) + 2
    ensures Counted(geo, deleted, inodes, g + 1,
                    descs + [GroupDescriptor(g * 32768 + TableBlocks(geo.ipg), g * 32768 + TableBlocks(geo.ipg) + 1, g * 32768,
                                             geo.Size(g) - (TableBlocks(geo.ipg) + 2), geo.ipg, 0)],
                    usedBlocks + TableBlocks(geo.ipg) + 2, usedInodes)
  {
    EmptySize(geo, g);
    EmptyCount(geo, g, geo.Size(g));
    hide Geometry.Ok, Geometry.Size, EmptyBits, TableBlocks;
  }

  /** One round of the loop over the groups that hold data. */
  method WriteDataGroup(f: Formatter, geo: Geometry, g: nat, descs: seq<GroupDescriptor>, usedBlocks: nat, usedInodes: nat)
    returns (descs': seq<GroupDescriptor>, usedBlocks': nat, usedInodes': nat)
    requires geo.Ok() && g < geo.groups && geo.groups <= geo.total && geo.ipg <= 32768
    requires f.file.pos == geo.bitmaps * 4096 + 8192 * g && RangesBelow(f.deletedBlocks, geo.DataSize())
    requires GroupsAt(f.file.bytes, geo, f.deletedBlocks, f.inodes, g)
    requires Counted(geo, f.deletedBlocks, f.inodes, g, descs, usedBlocks, usedInodes)
    modifies f.file
    ensures f.file.pos == geo.bitmaps * 4096 + 8192 * (g + 1)
    ensures GroupsAt(f.file.bytes, geo, f.deletedBlocks, f.inodes, g + 1)
    ensures Counted(geo, f.deletedBlocks, f.inodes, g + 1, descs', usedBlocks', usedInodes')
    ensures SameIn(old(f.file.bytes), f.file.bytes, 0, geo.bitmaps * 4096)
  {
    hide *;
    var buf, blocks, used, dirs := DataGroup(geo, g, f.deletedBlocks, f.inodes);
    ghost var before := f.file.bytes;
    f.file.WriteAll(buf[..]);
    DataGroupWritten(before, f.file.bytes, buf[..], geo, f.deletedBlocks, f.inodes, g);
    CountDataGroup(geo, f.deletedBlocks, f.inodes, g, descs, usedBlocks, usedInodes, blocks, used, dirs);
    var block := geo.bitmaps + 2 * g;
    descs' := descs + [GroupDescriptor(block, block + 1, TableStart(geo, g), geo.Size(g) - blocks, geo.ipg - used, dirs)];
    usedBlocks' := usedBlocks + blocks;
    usedInodes' := usedInodes + used;
  }

  /** Bitmaps of the groups that hold data, one pair after the other. */
  method WriteDataGroups(f: Formatter, geo: Geometry) returns (descs: seq<GroupDescriptor>, usedBlocks: nat, usedInodes: nat)
    requires geo.Ok() && geo.total > 0 && geo.groups <= geo.total && geo.ipg <= 32768
    requires f.file.pos == geo.bitmaps * 4096 && RangesBelow(f.deletedBlocks, geo.DataSize())
    modifies f.file
    ensures GroupsAt(f.file.bytes, geo, f.deletedBlocks, f.inodes, geo.groups)
    ensures Counted(geo, f.deletedBlocks, f.inodes, geo.groups, descs, usedBlocks, usedInodes)
    ensures SameIn(old(f.file.bytes), f.file.bytes, 0, geo.bitmaps * 4096)
    ensures f.file.pos == geo.DataSize() * 4096
  {
    descs, usedBlocks, usedInodes := [], 0, 0;
    ghost var was := f.file.bytes;
    hide *;
    NothingCounted(geo, f.deletedBlocks, f.inodes);
    NoGroups(was, geo, f.deletedBlocks, f.inodes);
    SameInSelf(was, 0, geo.bitmaps * 4096);
    for g := 0 to geo.groups
      invariant f.file.pos == geo.bitmaps * 4096 + 8192 * g
      invariant GroupsAt(f.file.bytes, geo, f.deletedBlocks, f.inodes, g)
      invariant Counted(geo, f.deletedBlocks, f.inodes, g, descs, usedBlocks, usedInodes)
      invariant SameIn(was, f.file.bytes, 0, geo.bitmaps * 4096)
    {
      ghost var before := f.file.bytes;
      descs, usedBlocks, usedInodes := WriteDataGroup(f, geo, g, descs, usedBlocks, usedInodes);
      SameInTrans(was, before, f.file.bytes, 0, geo.bitmaps * 4096);
    }
    DataSizeBytes(geo);
  }

  lemma DataSizeBytes(geo: Geometry)
    ensures geo.DataSize() * 4096 == geo.bitmaps * 4096 + 8192 * geo.groups
  {
  }

  lemma NoGroups(img: seq<byte>, geo: Geometry, deleted: seq<BlockRange>, inodes: seq<Inode>)
    requires geo.total > 0
    ensures GroupsAt(img, geo, deleted, inodes, 0)
  {
  }

  lemma SameInSelf(img: seq<byte>, lo: nat, hi: nat)
    ensures SameIn(img, img, lo, hi)
  {
  }

  lemma DataGroupWritten(was: seq<byte>, img: seq<byte>, buf: seq<byte>, geo: Geometry, deleted: seq<BlockRange>, inodes: seq<Inode>, g: nat)
    requires geo.Ok() && g < geo.groups && g < geo.total && |buf| == 8192
    requires Bits(buf) == BlockBits(geo, deleted, g) + InodeBits(geo, inodes, g)
    requires img == WriteAt(was, geo.bitmaps * 4096 + 8192 * g, buf) && GroupsAt(was, geo, deleted, inodes, g)
    ensures GroupsAt(img, geo, deleted, inodes, g + 1) && SameIn(was, img, 0, geo.bitmaps * 4096)
  {
    var at := geo.bitmaps * 4096 + 8192 * g;
    hide Geometry.Ok, WriteAt, Bits, BitmapsAt, SameIn, BlockBits, InodeBits;
    BitmapsWritten(was, img, geo.bitmaps + 2 * g, buf, BlockBits(geo, deleted, g), InodeBits(geo, inodes, g));
    WriteOutside(was, at, buf, 0, at);
    SameInPart(was, img, 0, at, 0, geo.bitmaps * 4096);
    forall h | 0 <= h < g ensures GroupAt(img, geo, deleted, inodes, h) {
      assert GroupAt(was, geo, deleted, inodes, h);
      GroupStays(was, img, 0, at, geo, deleted, inodes, h);
    }
  }

  lemma EmptyGroupWritten(was: seq<byte>, mid: seq<byte>, img: seq<byte>, a: seq<byte>, b: seq<byte>, geo: Geometry,
                          deleted: seq<BlockRange>, inodes: seq<Inode>, g: nat)
    requires geo.Ok() && geo.groups <= g < geo.total && |a| == 4096 && |b| == 4096
    requires Bits(a) == EmptyBits(geo, g) && Bits(b) == FreeInodeBits(geo)
    requires mid == WriteAt(was, BitmapBlock(geo, g) * 4096, a) && img == WriteAt(mid, BitmapBlock(geo, g) * 4096 + 4096, b)
    requires GroupsAt(was, geo, deleted, inodes, g)
    ensures GroupsAt(img, geo, deleted, inodes, g + 1) && SameIn(was, img, 0, geo.DataSize() * 4096)
  {
    var at := BitmapBlock(geo, g) * 4096;
    BitmapOrder(geo, g);
    hide *;
    TwoBlocksWritten(was, mid, img, BitmapBlock(geo, g), a, b, EmptyBits(geo, g), FreeInodeBits(geo));
    EmptyGroupBits(geo, deleted, inodes, g);
    WriteOutside(was, at, a, 0, at);
    WriteOutside(mid, at + 4096, b, 0, at);
    SameInTrans(was, mid, img, 0, at);
    SameInPart(was, img, 0, at, 0, geo.DataSize() * 4096);
    OtherGroupsStay(was, img, geo, deleted, inodes, g);
  }

  lemma TwoBlocksWritten(was: seq<byte>, mid: seq<byte>, img: seq<byte>, block: nat, a: seq<byte>, b: seq<byte>, bits: seq<bool>, inodeBits: seq<bool>)
    requires |a| == 4096 && |b| == 4096 && Bits(a) == bits && Bits(b) == inodeBits
    requires mid == WriteAt(was, block * 4096, a) && img == WriteAt(mid, block * 4096 + 4096, b)
    ensures BitmapsAt(img, block, bits, inodeBits)
  {
    hide WriteAt, Bits;
    WriteReadsBack(was, block * 4096, a);
    WriteReadsBack(mid, block * 4096 + 4096, b);
    WriteElsewhere(mid, block * 4096 + 4096, b, block * 4096, a);
    AtJoin(img, block * 4096, a, b);
    BitsJoin(a, b);
  }

  lemma BitsJoin(a: seq<byte>, b: seq<byte>)
    ensures Bits(a + b) == Bits(a) + Bits(b)
  {
    forall i | 0 <= i < 8 * |a + b| ensures Bits(a + b)[i] == (Bits(a) + Bits(b))[i] {
      if i >= 8 * |a| {
        assert (i - 8 * |a|) / 8 == i / 8 - |a| && (i - 8 * |a|) % 8 == i % 8;
      }
    }
  }

  lemma EmptyGroupBits(geo: Geometry, deleted: seq<BlockRange>, inodes: seq<Inode>, g: nat)
    requires geo.groups <= g < geo.total
    ensures GroupBits(geo, deleted, g) == EmptyBits(geo, g) && GroupInodeBits(geo, inodes, g) == FreeInodeBits(geo)
  {
  }

  /** Bitmaps of later groups lie behind those of earlier ones; those of empty
      groups behind all data. */
  lemma BitmapOrder(geo: Geometry, g: nat)
    requires geo.Ok() && geo.groups <= g < geo.total
    ensures geo.DataSize() <= BitmapBlock(geo, g)
    ensures forall h: nat :: h < g ==> BitmapBlock(geo, h) + 2 <= BitmapBlock(geo, g)
  {
  }

  lemma OtherGroupsStay(was: seq<byte>, img: seq<byte>, geo: Geometry, deleted: seq<BlockRange>, inodes: seq<Inode>, g: nat)
    requires geo.total > 0 && g < geo.total && GroupsAt(was, geo, deleted, inodes, g)
    requires SameIn(was, img, 0, BitmapBlock(geo, g) * 4096)
    requires forall h: nat :: h < g ==> BitmapBlock(geo, h) + 2 <= BitmapBlock(geo, g)
    requires BitmapsAt(img, BitmapBlock(geo, g), GroupBits(geo, deleted, g), GroupInodeBits(geo, inodes, g))
    ensures GroupsAt(img, geo, deleted, inodes, g + 1)
  {
    hide BitmapBlock, GroupBits, GroupInodeBits, SameIn, BitmapsAt;
    forall h | 0 <= h < g ensures GroupAt(img, geo, deleted, inodes, h) {
      assert GroupAt(was, geo, deleted, inodes, h);
      GroupStays(was, img, 0, BitmapBlock(geo, g) * 4096, geo, deleted, inodes, h);
    }
  }

  /** One round of the loop over the groups without data. */
  method WriteEmptyGroup(f: Formatter, geo: Geometry, g: nat, descs: seq<GroupDescriptor>, usedBlocks: nat, ghost usedInodes: nat)
    returns (descs': seq<GroupDescriptor>, usedBlocks': nat)
    requires geo.Ok() && geo.groups <= g < geo.total && geo.ipg <= 32768
    requires GroupsAt(f.file.bytes, geo, f.deletedBlocks, f.inodes, g)
    requires Counted(geo, f.deletedBlocks, f.inodes, g, descs, usedBlocks, usedInodes)
    modifies f.file
    ensures GroupsAt(f.file.bytes, geo, f.deletedBlocks, f.inodes, g + 1)
    ensures Counted(geo, f.deletedBlocks, f.inodes, g + 1, descs', usedBlocks', usedInodes)
    ensures SameIn(old(f.file.bytes), f.file.bytes, 0, geo.DataSize() * 4096)
  {
    hide *;
    EmptyBlockIs(geo, g);
    CountEmptyGroup(geo, f.deletedBlocks, f.inodes, g, descs, usedBlocks, usedInodes);
    var blocksInGroup := geo.Size(g);
    var bitmapBlock := g * 32768 + TableBlocks(geo.ipg);
    descs' := descs + [GroupDescriptor(bitmapBlock, bitmapBlock + 1, g * 32768, blocksInGroup - (TableBlocks(geo.ipg) + 2), geo.ipg, 0)];
    usedBlocks' := usedBlocks + TableBlocks(geo.ipg) + 2;
    ghost var was := f.file.bytes;
    f.file.Seek(bitmapBlock * 4096);
    var blocks := EmptyBlockBitmap(geo, g);
    var inodes := EmptyInodeBitmap(geo.ipg, geo);
    f.file.WriteAll(blocks[..]);
    ghost var mid := f.file.bytes;
    f.file.WriteAll(inodes[..]);
    EmptyGroupWritten(was, mid, f.file.bytes, blocks[..], inodes[..], geo, f.deletedBlocks, f.inodes, g);
  }

  lemma EmptyBlockIs(geo: Geometry, g: nat)
    requires geo.groups <= g
    ensures BitmapBlock(geo, g) == g * 32768 + TableBlocks(geo.ipg)
  {
  }

  /** Bitmaps of the groups behind the data. */
  method WriteEmptyGroups(f: Formatter, geo: Geometry, descs0: seq<GroupDescriptor>, usedBlocks0: nat, ghost usedInodes: nat)
    returns (descs: seq<GroupDescriptor>, usedBlocks: nat)
    requires geo.Ok() && geo.total > 0 && geo.groups <= geo.total && geo.ipg <= 32768
    requires GroupsAt(f.file.bytes, geo, f.deletedBlocks, f.inodes, geo.groups)
    requires Counted(geo, f.deletedBlocks, f.inodes, geo.groups, descs0, usedBlocks0, usedInodes)
    modifies f.file
    ensures GroupsAt(f.file.bytes, geo, f.deletedBlocks, f.inodes, geo.total)
    ensures Counted(geo, f.deletedBlocks, f.inodes, geo.total, descs, usedBlocks, usedInodes)
    ensures SameIn(old(f.file.bytes), f.file.bytes, 0, geo.DataSize() * 4096)
  {
    hide *;
    descs, usedBlocks := descs0, usedBlocks0;
    ghost var was := f.file.bytes;
    SameInSelf(was, 0, geo.DataSize() * 4096);
    for g := geo.groups to geo.total
      invariant GroupsAt(f.file.bytes, geo, f.deletedBlocks, f.inodes, g)
      invariant Counted(geo, f.deletedBlocks, f.inodes, g, descs, usedBlocks, usedInodes)
      invariant SameIn(was, f.file.bytes, 0, geo.DataSize() * 4096)
    {
      ghost var before := f.file.bytes;
      descs, usedBlocks := WriteEmptyGroup(f, geo, g, descs, usedBlocks, usedInodes);
      SameInTrans(was, before, f.file.bytes, 0, geo.DataSize() * 4096);
    }
  }

  // ---- Descriptors and superblock ----

  predicate DescriptorAt(img: seq<byte>, descs: seq<GroupDescriptor>, g: nat)
    requires g < |descs|
  {
    At(img, 4096 + 32 * g, EncodeDescriptor(descs[g]))
  }

  predicate DescriptorsAt(img: seq<byte>, descs: seq<GroupDescriptor>, n: nat)
    requires n <= |descs|
  {
    forall g :: 0 <= g < n ==> DescriptorAt(img, descs, g)
  }

  lemma DescriptorWritten(was: seq<byte>, img: seq<byte>, descs: seq<GroupDescriptor>, g: nat)
    requires g < |descs| && DescriptorsAt(was, descs, g)
    requires img == WriteAt(was, 4096 + 32 * g, EncodeDescriptor(descs[g]))
    ensures DescriptorsAt(img, descs, g + 1)
    ensures SameFrom(was, img, 4096 + 32 * (g + 1)) && |EncodeDescriptor(descs[g])| == 32
  {
    var off, b := 4096 + 32 * g, EncodeDescriptor(descs[g]);
    hide EncodeDescriptor, WriteAt, SameIn, At;
    WriteReadsBack(was, off, b);
    WriteBefore(was, off, b, off + 32);
    forall h | 0 <= h < g ensures DescriptorAt(img, descs, h) {
      assert DescriptorAt(was, descs, h);
      WriteElsewhere(was, off, b, 4096 + 32 * h, EncodeDescriptor(descs[h]));
    }
  }

  /** The descriptor table, from block 1 on. */
  method WriteDescriptors(f: Formatter, descs: seq<GroupDescriptor>)
    modifies f.file
    ensures DescriptorsAt(f.file.bytes, descs, |descs|)
    ensures SameFrom(old(f.file.bytes), f.file.bytes, 4096 + 32 * |descs|)
  {
    hide *;
    ghost var was := f.file.bytes;
    f.file.Seek(4096);
    NoDescriptors(was, descs);
    for g := 0 to |descs|
      invariant f.file.pos == 4096 + 32 * g
      invariant DescriptorsAt(f.file.bytes, descs, g)
      invariant SameFrom(was, f.file.bytes, 4096 + 32 * g)
    {
      ghost var before := f.file.bytes;
      f.file.WriteAll(EncodeDescriptor(descs[g]));
      DescriptorWritten(before, f.file.bytes, descs, g);
      SameFromTrans(was, before, f.file.bytes, 4096 + 32 * g, 4096 + 32 * (g + 1));
      LaterOf(4096 + 32 * g, 4096 + 32 * (g + 1));
    }
  }

  lemma LaterOf(a: nat, b: nat)
    requires a <= b
    ensures Max(a, b) == b
  {
  }

  lemma NoDescriptors(img: seq<byte>, descs: seq<GroupDescriptor>)
    ensures DescriptorsAt(img, descs, 0) && SameFrom(img, img, 4096)
  {
  }

  /** Boot sector, superblock, and zeros to the end of block 0. */
  method WriteSuper(f: Formatter, sb: SuperBlock)
    modifies f.file
    ensures At(f.file.bytes, 1024, EncodeSuper(sb))
    ensures SameFrom(old(f.file.bytes), f.file.bytes, 4096)
  {
    ghost var a := f.file.bytes;
    f.file.Seek(0);
    f.file.WriteAll(Zeros(1024));
    ghost var b := f.file.bytes;
    f.file.WriteAll(EncodeSuper(sb));
    ghost var c := f.file.bytes;
    f.file.WriteAll(Zeros(2048));
    SuperWritten(a, b, c, f.file.bytes, EncodeSuper(sb));
  }

  lemma SuperWritten(a: seq<byte>, b: seq<byte>, c: seq<byte>, d: seq<byte>, sb: seq<byte>)
    requires |sb| == 1024
    requires b == WriteAt(a, 0, Zeros(1024)) && c == WriteAt(b, 1024, sb) && d == WriteAt(c, 2048, Zeros(2048))
    ensures At(d, 1024, sb) && SameFrom(a, d, 4096)
  {
    hide WriteAt, SameFrom, At;
    WriteReadsBack(b, 1024, sb);
    WriteElsewhere(c, 2048, Zeros(2048), 1024, sb);
    WriteBefore(a, 0, Zeros(1024), 4096);
    WriteBefore(b, 1024, sb, 4096);
    WriteBefore(c, 2048, Zeros(2048), 4096);
    SameFromTrans(a, b, c, 4096, 4096);
    SameFromTrans(a, c, d, 4096, 4096);
  }
}
