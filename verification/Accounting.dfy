/** The counts of a finished image agree with its bitmaps and with each other,
    and no block that holds anything is marked free. */
module Accounting {
  import opened Basics
  import opened OnDisk
  import opened Extents
  import opened Layout
  import opened Bitmaps
  import opened Groups
  import opened Trees
  import opened Namespace
  import opened Contents

  // ---- Sums over groups ----

  /** Blocks groups `0` to `n` have. */
  function TotalSize(geo: Geometry, n: nat): nat
    requires n <= geo.total
  {
    if n == 0 then 0 else TotalSize(geo, n - 1) + geo.Size(n - 1)
  }

  /** Blocks they use: what `close` adds up while it builds the bitmaps. */
  function TotalUsed(geo: Geometry, deleted: seq<BlockRange>, n: nat): nat
    requires geo.Ok() && n <= geo.total
  {
    if n == 0 then 0
    else
      SizeBound(geo, n - 1);
      TotalUsed(geo, deleted, n - 1)
      + if n - 1 < geo.groups then Count(BlockBits(geo, deleted, n - 1), geo.Size(n - 1)) else TableBlocks(geo.ipg) + 2
  }

  /** Blocks their descriptors call free. */
  function TotalFree(geo: Geometry, deleted: seq<BlockRange>, n: nat): nat
    requires geo.Ok() && n <= geo.total
  {
    if n == 0 then 0 else TotalFree(geo, deleted, n - 1) + FreeBlocks(geo, deleted, n - 1)
  }

  lemma {:induction false} FreeIsRest(geo: Geometry, deleted: seq<BlockRange>, n: nat)
    requires geo.Ok() && n <= geo.total
    ensures TotalUsed(geo, deleted, n) + TotalFree(geo, deleted, n) == TotalSize(geo, n)
  {
    if n > 0 {
      hide Geometry.Ok, Geometry.Size;
      FreeIsRest(geo, deleted, n - 1);
      SizeBound(geo, n - 1);
      if n - 1 >= geo.groups {
        EmptyCount(geo, n - 1, geo.Size(n - 1));
        EmptySize(geo, n - 1);
      }
    }
  }

  /** Does every group the image has get a descriptor? */
  predicate Regular(geo: Geometry) {
    geo.total == DivCeil(geo.blocks, 32768)
  }

  lemma {:induction false} WholeGroupsSize(geo: Geometry, n: nat)
    requires n < geo.total
    ensures TotalSize(geo, n) == n * 32768
  {
    if n > 0 {
      WholeGroupsSize(geo, n - 1);
    }
  }

  /** The sizes of the groups sum to the block count exactly when no group was
      missed. */
  lemma SizesSum(geo: Geometry)
    requires geo.Ok()
    ensures Regular(geo) ==> TotalSize(geo, geo.total) == geo.blocks
    ensures !Regular(geo) ==> TotalSize(geo, geo.total) < geo.blocks
  {
    WholeGroupsSize(geo, geo.total - 1);
    LastSize(geo);
    hide Geometry.Size, Geometry.Ok;
  }

  lemma LastSize(geo: Geometry)
    requires geo.Ok()
    ensures Regular(geo) ==> (geo.total - 1) * 32768 + geo.Size(geo.total - 1) == geo.blocks
    ensures !Regular(geo) ==> (geo.total - 1) * 32768 + geo.Size(geo.total - 1) < geo.blocks
    ensures geo.total > 0
  {
    LastGroup(geo.blocks, geo.total);
    hide DivCeil, Candidate, Slots, Tables, TableBlocks, LastGroupViable;
  }

  /** Conservation of free blocks: every group's free count is the number of
      clear bits among the blocks it has, the counts add up to what the superblock
      calls free, and no subtraction goes below zero. */
  lemma FreeBlocksConserved(geo: Geometry, deleted: seq<BlockRange>)
    requires geo.Ok() && Regular(geo)
    ensures TotalSize(geo, geo.total) == geo.blocks
    ensures TotalUsed(geo, deleted, geo.total) <= geo.blocks
    ensures TotalFree(geo, deleted, geo.total) == geo.blocks - TotalUsed(geo, deleted, geo.total)
    ensures forall g :: 0 <= g < geo.total ==> GroupCounted(geo, deleted, g)
  {
    SizesSum(geo);
    FreeIsRest(geo, deleted, geo.total);
    forall g | 0 <= g < geo.total ensures GroupCounted(geo, deleted, g) {
      SizeBound(geo, g);
      SizeIsReal(geo, g);
    }
  }

  /** The free count of group `g`, by looking at its bits one by one. */
  predicate GroupCounted(geo: Geometry, deleted: seq<BlockRange>, g: nat)
    requires geo.Ok() && g < geo.total
  {
    && geo.Size(g) == Min(32768, geo.blocks - g * 32768)
    && geo.Size(g) <= 32768
    && FreeBlocks(geo, deleted, g) == |ClearBits(GroupBits(geo, deleted, g), geo.Size(g))|
    && FreeBlocks(geo, deleted, g) <= geo.Size(g)
  }

  /** The positions below `n` that are clear. */
  function ClearBits(bits: seq<bool>, n: nat): (s: set<nat>)
    requires n <= |bits|
    ensures |s| == Clear(bits, n) && forall i: nat :: i in s <==> i < n && !bits[i]
  {
    if n == 0 then {}
    else
      var front := ClearBits(bits, n - 1);
      assert n - 1 !in front;
      if bits[n - 1] then front else front + {n - 1}
  }

  lemma SizeIsReal(geo: Geometry, g: nat)
    requires geo.Ok() && Regular(geo) && g < geo.total
    ensures geo.Size(g) == Min(32768, geo.blocks - g * 32768)
  {
    LastGroup(geo.blocks, geo.total);
    hide DivCeil, Candidate, Slots, Tables, TableBlocks, LastGroupViable;
  }

  // ---- Free inodes ----

  function TotalUsedInodes(geo: Geometry, inodes: seq<Inode>, n: nat): nat
    requires geo.ipg <= 32768
  {
    if n == 0 then 0 else TotalUsedInodes(geo, inodes, n - 1) + UsedInodes(geo, inodes, n - 1)
  }

  function TotalFreeInodes(geo: Geometry, deleted: seq<BlockRange>, inodes: seq<Inode>, n: nat): nat
    requires geo.Ok() && n <= geo.total
  {
    if n == 0 then 0
    else TotalFreeInodes(geo, deleted, inodes, n - 1) + Descriptor(geo, deleted, inodes, n - 1).freeInodes
  }

  lemma {:induction false} FreeInodesAreRest(geo: Geometry, deleted: seq<BlockRange>, inodes: seq<Inode>, n: nat)
    requires geo.Ok() && n <= geo.total
    ensures geo.ipg <= 32768
    ensures TotalUsedInodes(geo, inodes, n) + TotalFreeInodes(geo, deleted, inodes, n) == n * geo.ipg
  {
    CandidateFits(geo);
    if n > 0 {
      hide Geometry.Ok, Geometry.Size;
      FreeInodesAreRest(geo, deleted, inodes, n - 1);
      Distribute(n, geo.ipg);
    }
  }

  lemma Distribute(n: nat, d: nat)
    requires n > 0
    ensures n * d == (n - 1) * d + d
  {
  }

  // ---- Safety of the block bitmap ----

  /** Exactly when a block of the data area is marked as taken. */
  lemma BlockTaken(geo: Geometry, deleted: seq<BlockRange>, b: nat)
    requires geo.Ok() && b < geo.DataSize()
    ensures b / 32768 < geo.groups && b % 32768 < geo.Size(b / 32768)
    ensures GroupBits(geo, deleted, b / 32768)[b % 32768]
        <==> !(geo.UsedDescriptors() < b <= geo.reserved && b < 32768) && !InRanges(deleted, b)
  {
    var g, i := b / 32768, b % 32768;
    assert b == g * 32768 + i && g < geo.groups;
    FreeableHere(geo, g);
    ReservedInBuffer(geo);
    hide Geometry.Ok, Geometry.Size, InRanges, Geometry.UsedDescriptors;
    assert GroupBits(geo, deleted, g)[i] == Marked(geo, deleted, g, i);
  }

  /** Every deleted range belongs to an inode that is free now. */
  lemma {:induction false} DeletedOwner(fs: Fs, r: BlockRange, upto: nat) returns (m: nat)
    requires Numbered(fs) && RESERVED <= upto <= |fs.inodes| && r in RangesHeld(fs, Deleted, upto)
    ensures RESERVED < m <= upto && HolderOf(fs, m) == Deleted && r in OwnRanges(fs, m)
  {
    hide Numbered, HolderOf, OwnRanges;
    if HolderOf(fs, upto) == Deleted && r in multiset(OwnRanges(fs, upto)) {
      m := upto;
    } else {
      m := DeletedOwner(fs, r, upto - 1);
    }
  }

  /** Deleted ranges lie below the end of the data. */
  lemma DeletedBelow(fs: Fs, contents: seq<Content>, img: seq<byte>, limit: nat, first: nat, dataSize: nat)
    requires Inv(fs, 0) && OnDiskOk(fs, contents, img, limit, first) && limit <= dataSize * 4096
    ensures RangesBelow(fs.deleted, dataSize)
  {
    forall k | 0 <= k < |fs.deleted| ensures fs.deleted[k].start <= fs.deleted[k].end <= dataSize {
      DeletedRangeBelow(fs, contents, img, limit, first, k);
    }
  }

  lemma DeletedIsHeld(fs: Fs, k: nat)
    requires Numbered(fs) && Ownership(fs) && k < |fs.deleted|
    ensures fs.deleted[k] in RangesHeld(fs, Deleted, |fs.inodes|)
  {
    assert fs.deleted[k] in multiset(fs.deleted);
    hide RangesHeld, DeferredOk;
  }

  lemma DeletedRangeBelow(fs: Fs, contents: seq<Content>, img: seq<byte>, limit: nat, first: nat, k: nat)
    requires Inv(fs, 0) && OnDiskOk(fs, contents, img, limit, first) && k < |fs.deleted|
    ensures first <= fs.deleted[k].start <= fs.deleted[k].end && fs.deleted[k].end * 4096 <= limit
  {
    hide *;
    InvParts(fs);
    Shaped(fs);
    DeletedIsHeld(fs, k);
    var m := DeletedOwner(fs, fs.deleted[k], |fs.inodes|);
    PlacedAt(fs, contents, img, limit, first, m);
    PlacedRange(fs, first, limit, m, fs.deleted[k]);
  }

  lemma InvParts(fs: Fs)
    requires Inv(fs, 0)
    ensures Numbered(fs) && Ownership(fs)
  {
  }

  lemma PlacedAt(fs: Fs, contents: seq<Content>, img: seq<byte>, limit: nat, first: nat, n: nat)
    requires Numbered(fs) && OnDiskOk(fs, contents, img, limit, first) && RESERVED < n <= |fs.inodes|
    ensures PlacedOk(fs, first, limit, n)
    ensures forall m :: RESERVED < m < n ==> AscendingOk(fs, m, n)
  {
  }

  lemma PlacedRange(fs: Fs, first: nat, limit: nat, n: nat, r: BlockRange)
    requires Numbered(fs) && RESERVED < n <= |fs.inodes| && PlacedOk(fs, first, limit, n) && r in OwnRanges(fs, n)
    ensures OwnRanges(fs, n) == [r] && first <= r.start < r.end <= Reach(r) && Reach(r) * 4096 <= limit
  {
    hide Numbered, OwnRanges;
  }

  /** The data of an inode in use, and the index blocks behind it, are in no
      deleted range. */
  lemma LiveNotDeleted(fs: Fs, contents: seq<Content>, img: seq<byte>, limit: nat, first: nat, n: nat, r: BlockRange, b: nat)
    requires Inv(fs, 0) && OnDiskOk(fs, contents, img, limit, first) && RESERVED < n <= |fs.inodes|
    requires Numbered(fs) && fs.inodes[n - 1].links > 0 && r in OwnRanges(fs, n) && r.start <= b < Reach(r)
    ensures !InRanges(fs.deleted, b)
  {
    forall k | 0 <= k < |fs.deleted| ensures !Within(fs.deleted[k], b) {
      LiveApart(fs, contents, img, limit, first, n, r, k);
    }
  }

  /** A deleted range ends before a live one begins, or begins behind it. */
  lemma LiveApart(fs: Fs, contents: seq<Content>, img: seq<byte>, limit: nat, first: nat, n: nat, r: BlockRange, k: nat)
    requires Inv(fs, 0) && OnDiskOk(fs, contents, img, limit, first) && RESERVED < n <= |fs.inodes| && k < |fs.deleted|
    requires Numbered(fs) && fs.inodes[n - 1].links > 0 && r in OwnRanges(fs, n)
    ensures fs.deleted[k].end <= r.start || Reach(r) <= fs.deleted[k].start
  {
    hide *;
    InvParts(fs);
    Shaped(fs);
    DeletedIsHeld(fs, k);
    var d := fs.deleted[k];
    var m := DeletedOwner(fs, d, |fs.inodes|);
    DeletedIsFree(fs, m);
    PlacedAt(fs, contents, img, limit, first, m);
    PlacedAt(fs, contents, img, limit, first, n);
    PlacedRange(fs, first, limit, m, d);
    PlacedRange(fs, first, limit, n, r);
    if m < n {
      Apart(fs, m, n, d, r);
    } else {
      Apart(fs, n, m, r, d);
    }
  }

  lemma DeletedIsFree(fs: Fs, m: nat)
    requires Numbered(fs) && RESERVED < m <= |fs.inodes| && HolderOf(fs, m) == Deleted
    ensures fs.inodes[m - 1].links == 0
  {
  }

  lemma Apart(fs: Fs, m: nat, n: nat, a: BlockRange, b: BlockRange)
    requires Numbered(fs) && RESERVED < m < n <= |fs.inodes| && AscendingOk(fs, m, n)
    requires OwnRanges(fs, m) == [a] && OwnRanges(fs, n) == [b]
    ensures Reach(a) <= b.start
  {
    hide Numbered, OwnRanges, Reach;
    var x, y := OwnRanges(fs, m), OwnRanges(fs, n);
    assert Reach(x[0]) <= y[0].start;
  }

  /** No block of a live file or symlink, its index blocks included, is marked
      free, provided `close` reserves as many descriptor blocks as the formatter
      did when it was created. */
  lemma LiveDataIsTaken(geo: Geometry, fs: Fs, contents: seq<Content>, img: seq<byte>, limit: nat, first: nat, n: nat, r: BlockRange, b: nat)
    requires geo.Ok() && geo.reserved + 1 == first && limit <= geo.DataSize() * 4096
    requires Inv(fs, 0) && OnDiskOk(fs, contents, img, limit, first) && RESERVED < n <= |fs.inodes|
    requires Numbered(fs) && fs.inodes[n - 1].links > 0 && r in OwnRanges(fs, n) && r.start <= b < Reach(r)
    ensures b < geo.DataSize() && b / 32768 < geo.groups
    ensures GroupBits(geo, fs.deleted, b / 32768)[b % 32768]
  {
    LiveNotDeleted(fs, contents, img, limit, first, n, r, b);
    PlacedAt(fs, contents, img, limit, first, n);
    PlacedRange(fs, first, limit, n, r);
    hide *;
    DataSizeIs(geo);
    BlockTaken(geo, fs.deleted, b);
  }

  lemma DataSizeIs(geo: Geometry)
    requires geo.Ok()
    ensures geo.total > 0 && 0 < geo.groups <= geo.total
  {
  }

  /** Neither is any block written behind the file data: directories, inode
      tables, bitmaps. */
  lemma MetadataIsTaken(geo: Geometry, fs: Fs, contents: seq<Content>, img: seq<byte>, limit: nat, first: nat, b: nat)
    requires geo.Ok() && geo.reserved + 1 == first && first * 4096 <= limit
    requires Inv(fs, 0) && OnDiskOk(fs, contents, img, limit, first)
    requires limit <= b * 4096 && b < geo.DataSize()
    ensures b / 32768 < geo.groups && GroupBits(geo, fs.deleted, b / 32768)[b % 32768]
  {
    forall k | 0 <= k < |fs.deleted| ensures !Within(fs.deleted[k], b) {
      DeletedRangeBelow(fs, contents, img, limit, first, k);
    }
    hide *;
    DataSizeIs(geo);
    BlockTaken(geo, fs.deleted, b);
    assert !InRanges(fs.deleted, b) by {
      NoneWithin(fs.deleted, b);
    }
  }

  /** Does block `b` hold part of the inode table or a bitmap that `d` describes? */
  predicate Describes(d: GroupDescriptor, ipg: nat, b: nat) {
    d.inodeTable <= b < d.inodeTable + TableBlocks(ipg) || b == d.blockBitmap || b == d.inodeBitmap
  }

  /** The inode table and the bitmaps of every group, with data or behind it, lie where
      its descriptor says in blocks that are taken. */
  lemma GroupMetadataIsTaken(geo: Geometry, fs: Fs, contents: seq<Content>, img: seq<byte>, limit: nat, first: nat, inodes: seq<Inode>, g: nat, b: nat)
    requires geo.Ok() && geo.reserved + 1 == first && first * 4096 <= limit <= geo.table * 4096
    requires Inv(fs, 0) && OnDiskOk(fs, contents, img, limit, first)
    requires g < geo.total && Describes(Descriptor(geo, fs.deleted, inodes, g), geo.ipg, b)
    ensures b / 32768 < geo.total && GroupBits(geo, fs.deleted, b / 32768)[b % 32768]
    ensures g >= geo.groups ==> b / 32768 == g
  {
    hide *;
    DataSizeIs(geo);
    if g < geo.groups {
      DataGroupBlock(geo, fs.deleted, inodes, g, b);
      MetadataIsTaken(geo, fs, contents, img, limit, first, b);
    } else {
      EmptyGroupTaken(geo, fs.deleted, inodes, g, b);
    }
  }

  lemma DataGroupBlock(geo: Geometry, deleted: seq<BlockRange>, inodes: seq<Inode>, g: nat, b: nat)
    requires geo.Ok() && g < geo.groups && g < geo.total && Describes(Descriptor(geo, deleted, inodes, g), geo.ipg, b)
    ensures geo.table <= b < geo.DataSize()
  {
    var d := Descriptor(geo, deleted, inodes, g);
    assert d.inodeTable == geo.table + g * TableBlocks(geo.ipg) && d.blockBitmap == geo.bitmaps + 2 * g && d.inodeBitmap == d.blockBitmap + 1;
    assert geo.bitmaps == geo.table + Tables(geo.groups, geo.ipg);
    hide *;
    DescribedBelow(d, geo, g, b);
  }

  lemma DescribedBelow(d: GroupDescriptor, geo: Geometry, g: nat, b: nat)
    requires g < geo.groups && geo.bitmaps == geo.table + Tables(geo.groups, geo.ipg)
    requires d.inodeTable == geo.table + g * TableBlocks(geo.ipg) && d.blockBitmap == geo.bitmaps + 2 * g && d.inodeBitmap == d.blockBitmap + 1
    requires Describes(d, geo.ipg, b)
    ensures geo.table <= b < geo.DataSize()
  {
    MulGrows(g + 1, geo.groups, TableBlocks(geo.ipg));
    Distribute(g + 1, TableBlocks(geo.ipg));
    MulGrows(0, geo.groups, TableBlocks(geo.ipg));
    hide TableBlocks;
  }

  /** Of the blocks of a group behind the data exactly those its descriptor names are
      taken. */
  lemma EmptyGroupTaken(geo: Geometry, deleted: seq<BlockRange>, inodes: seq<Inode>, g: nat, b: nat)
    requires geo.Ok() && geo.groups <= g < geo.total
    ensures Describes(Descriptor(geo, deleted, inodes, g), geo.ipg, b) ==> b / 32768 == g && b % 32768 < geo.Size(g)
    ensures b / 32768 == g && b % 32768 < geo.Size(g) ==>
      (GroupBits(geo, deleted, g)[b % 32768] <==> Describes(Descriptor(geo, deleted, inodes, g), geo.ipg, b))
  {
    EmptySize(geo, g);
    assert b == b / 32768 * 32768 + b % 32768;
    hide TableBlocks, FreeBlocks, UsedInodes, DirsAmong, LastGroupViable, Candidate, Slots, Tables, Geometry.Size;
  }

  lemma NoneWithin(rs: seq<BlockRange>, b: nat)
    requires forall k :: 0 <= k < |rs| ==> !Within(rs[k], b)
    ensures !InRanges(rs, b)
  {
  }
}
