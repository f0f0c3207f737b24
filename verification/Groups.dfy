/** The bitmaps and counts of one block group, as `close` builds them. */
module Groups {
  import opened Basics
  import opened OnDisk
  import opened Extents
  import opened Layout
  import opened Bitmaps

  /** Where everything lies in the finished image. `blocks` is what the image
      really has, `total` the number of descriptors written. */
  datatype Geometry = Geometry(
    partial: bool,
    blocks: nat,
    groups: nat,
    total: nat,
    ipg: nat,
    table: nat,
    bitmaps: nat,
    reserved: nat)
  {
    /** First block behind the bitmaps of the groups that hold data. */
    function DataSize(): nat { bitmaps + 2 * groups }

    /** Blocks the written descriptors take, from block 1 on. */
    function UsedDescriptors(): nat
      requires total > 0
    {
      (total - 1) / 128 + 1
    }

    /** Blocks that `close` takes group `g` to have. */
    function Size(g: nat): nat
      requires g < total
    {
      if g != total - 1 then 32768
      else if g < groups then (if partial then Min(32768, Max(0, blocks - g * 32768)) else 32768)
      else if blocks % 32768 == 0 then 32768 else blocks % 32768
    }

    predicate Ok() {
      && 0 < groups <= total && Candidate(ipg) && blocks < 0x1_0000_0000 && Slots(total, ipg) < 0x1_0000_0000
      && 0 < table && bitmaps == table + Tables(groups, ipg)
      && DataSize() <= groups * 32768 && DataSize() <= blocks && (total - 1) * 32768 < blocks
      && (!partial ==> blocks == total * 32768)
      && LastGroupViable(blocks, TableBlocks(ipg))
      && UsedDescriptors() < DataSize() && reserved <= Size(0) && (reserved == Size(0) ==> reserved == 32768)
    }
  }

  /** Block `b` belongs to one of the ranges. */
  predicate InRanges(rs: seq<BlockRange>, b: nat) {
    exists k :: 0 <= k < |rs| && Within(rs[k], b)
  }

  predicate Within(r: BlockRange, b: nat) { r.start <= b < r.end }

  /** Is block `i` of data group `g` marked as taken? Blocks past the end of the
      image always are; of those it has, the ones below the end of the data are,
      except unused descriptor blocks and deleted ranges. */
  predicate Marked(geo: Geometry, deleted: seq<BlockRange>, g: nat, i: nat)
    requires geo.total > 0 && g < geo.total
  {
    if i >= geo.Size(g) then true
    else
      && g * 32768 + i < geo.DataSize()
      && !(g == 0 && geo.UsedDescriptors() < i <= geo.reserved)
      && !InRanges(deleted, g * 32768 + i)
  }

  function BlockBits(geo: Geometry, deleted: seq<BlockRange>, g: nat): (s: seq<bool>)
    requires geo.total > 0 && g < geo.total
    ensures |s| == 32768
  {
    seq(32768, i requires 0 <= i < 32768 => Marked(geo, deleted, g, i))
  }

  /** The number of inode `i` of group `g`. */
  function InodeNumber(ipg: nat, g: nat, i: nat): (n: nat)
    ensures n > 0
  {
    1 + g * ipg + i
  }

  /** Is inode `i` of group `g` marked as taken? The reserved ones and those with
      a link are; so are the bits behind the group's inodes. */
  predicate InodeMarked(geo: Geometry, inodes: seq<Inode>, g: nat, i: nat) {
    i >= geo.ipg ||
    (var ino := InodeNumber(geo.ipg, g, i); ino <= |inodes| && (ino <= 10 || inodes[ino - 1].links > 0))
  }

  function InodeBits(geo: Geometry, inodes: seq<Inode>, g: nat): (s: seq<bool>)
    ensures |s| == 32768
  {
    seq(32768, i requires 0 <= i < 32768 => InodeMarked(geo, inodes, g, i))
  }

  /** How many of the first `n` inodes of group `g` are directories in use. */
  function DirsAmong(geo: Geometry, inodes: seq<Inode>, g: nat, n: nat): (c: nat)
    requires n <= geo.ipg
    ensures c <= n
  {
    if n == 0 then 0
    else
      var ino := InodeNumber(geo.ipg, g, n - 1);
      DirsAmong(geo, inodes, g, n - 1)
      + if InodeMarked(geo, inodes, g, n - 1) && inodes[ino - 1].IsDir() then 1 else 0
  }

  // ---- Block bitmap, step by step ----

  function NoBits(): (s: seq<bool>)
    ensures |s| == 65536 && forall i :: 0 <= i < 65536 ==> !s[i]
  {
    seq(65536, i => false)
  }

  /** Blocks of group `g` that lie below the end of the data. */
  function Below(geo: Geometry, g: nat): (n: nat)
    ensures n <= 32768
  {
    Min(32768, Max(0, geo.DataSize() - g * 32768))
  }

  lemma ZeroBuffer(buf: seq<byte>)
    requires |buf| == 8192 && forall k :: 0 <= k < 8192 ==> buf[k] == 0
    ensures Bits(buf) == NoBits()
  {
    forall i | 0 <= i < 65536 ensures !Bits(buf)[i] {
      ZeroBits(i % 8);
    }
  }

  lemma OnesBuffer(was: seq<byte>, buf: seq<byte>, lo: nat, hi: nat)
    requires |buf| == |was| && lo <= hi <= |buf|
    requires forall k :: 0 <= k < |buf| ==> buf[k] == if lo <= k < hi then 255 else was[k]
    ensures Bits(buf) == Filled(Bits(was), 8 * lo, 8 * hi, true)
  {
    forall i | 0 <= i < 8 * |buf| ensures Bits(buf)[i] == Filled(Bits(was), 8 * lo, 8 * hi, true)[i] {
      AllOnes(i % 8);
    }
  }

  /** Bytes `lo` to `hi` set to 0xFF. */
  method FillBytes(buf: array<byte>, lo: nat, hi: nat)
    requires lo <= hi <= buf.Length
    modifies buf
    ensures Bits(buf[..]) == Filled(Bits(old(buf[..])), 8 * lo, 8 * hi, true)
  {
    ghost var was := buf[..];
    for k := lo to hi
      invariant forall j :: 0 <= j < buf.Length ==> buf[j] == if lo <= j < k then 255 else was[j]
    {
      buf[k] := 255;
    }
    OnesBuffer(was, buf[..], lo, hi);
  }

  /** The blocks written so far: a full group, part of one, or none. */
  method MarkAllocated(buf: array<byte>, geo: Geometry, g: nat) returns (used: nat)
    requires buf.Length == 8192
    modifies buf
    ensures Bits(buf[..]) == Filled(Bits(old(buf[..])), 0, Below(geo, g), true) && used == Below(geo, g)
  {
    var start := g * 32768;
    used := 0;
    BelowCases(geo, g);
    hide *;
    ghost var was := Bits(buf[..]);
    if start + 32768 <= geo.DataSize() {
      FillBytes(buf, 0, 4096);
      used := 32768;
    } else if start < geo.DataSize() {
      used := geo.DataSize() - start;
      PutRange(buf, 0, used, true);
    } else {
      FilledNone(was, 0, 0, true);
    }
  }

  lemma BelowCases(geo: Geometry, g: nat)
    ensures g * 32768 + 32768 <= geo.DataSize() ==> Below(geo, g) == 32768
    ensures g * 32768 <= geo.DataSize() < g * 32768 + 32768 ==> Below(geo, g) == geo.DataSize() - g * 32768
    ensures g * 32768 >= geo.DataSize() ==> Below(geo, g) == 0
  {
  }

  /** Bits past the end of the image: set, but not counted. */
  function Padded(geo: Geometry, g: nat): (s: seq<bool>)
    requires g < geo.total
    ensures |s| == 65536
  {
    Filled(Filled(NoBits(), 0, Below(geo, g), true), geo.Size(g), 32768, true)
  }

  lemma PaddedCount(geo: Geometry, g: nat)
    requires geo.Ok() && g < geo.groups
    ensures geo.Size(g) <= 32768 && Below(geo, g) <= geo.Size(g)
    ensures Count(Padded(geo, g), geo.Size(g)) == Below(geo, g)
  {
    SizeHoldsData(geo, g);
    var a := Filled(NoBits(), 0, Below(geo, g), true);
    hide Geometry.Size, Below;
    CountSame(a, Padded(geo, g), geo.Size(g));
    CountPrefix(a, geo.Size(g), Below(geo, g));
  }

  lemma SizeHoldsData(geo: Geometry, g: nat)
    requires geo.Ok() && g < geo.groups
    ensures geo.Size(g) <= 32768 && Below(geo, g) <= geo.Size(g)
    ensures !geo.partial ==> geo.Size(g) == 32768
  {
  }

  /** Clear one bit; the counter goes down if it was set. */
  method ClearCounted(buf: array<byte>, i: nat, used: nat, ghost have: nat) returns (used': nat)
    requires i < 8 * buf.Length && have <= 8 * buf.Length
    requires used == Count(Bits(buf[..]), have) && (i >= have ==> !Bits(buf[..])[i])
    modifies buf
    ensures Bits(buf[..]) == Bits(old(buf[..]))[i := false]
    ensures used' == Count(Bits(buf[..]), have)
  {
    hide *;
    ghost var was := Bits(buf[..]);
    assert |was| == 8 * buf.Length;
    var wasSet := Has(buf, i);
    Put(buf, i, false);
    CountPut(was, have, i, false);
    used' := used;
    if wasSet {
      CountUp(Bits(buf[..]), have);
      used' := used - 1;
    }
  }

  lemma CountUp(bits: seq<bool>, n: nat)
    requires n <= |bits|
    ensures Count(bits, n) >= 0
  {
  }

  /** Group 0: descriptor blocks in use are set (they already are), those only
      reserved are given back. */
  method AdjustDescriptors(buf: array<byte>, geo: Geometry, used: nat) returns (used': nat)
    requires buf.Length == 8192 && geo.Ok() && used == Count(Bits(buf[..]), geo.Size(0)) && geo.Size(0) <= 32768
    requires Bits(buf[..]) == Padded(geo, 0)
    modifies buf
    ensures Bits(buf[..]) == Filled(Padded(geo, 0), geo.UsedDescriptors() + 1, geo.reserved + 1, false)
    ensures used' == Count(Bits(buf[..]), geo.Size(0))
  {
    ReservedInBuffer(geo);
    hide *;
    var usedGd := geo.UsedDescriptors();
    ghost var was := Bits(buf[..]);
    PutRange(buf, 0, usedGd + 1, true);
    AlreadySet(geo);
    used' := used;
    FilledNone(was, usedGd + 1, usedGd + 1, false);
    if usedGd + 1 <= geo.reserved + 1 {
      for i := usedGd + 1 to geo.reserved + 1
        invariant Bits(buf[..]) == Filled(was, usedGd + 1, i, false) && used' == Count(Bits(buf[..]), geo.Size(0))
      {
        OnlyRealSet(geo, i);
        FilledMore(was, usedGd + 1, i, false);
        used' := ClearCounted(buf, i, used', geo.Size(0));
      }
    } else {
      FilledNone(was, usedGd + 1, geo.reserved + 1, false);
    }
  }

  lemma ReservedInBuffer(geo: Geometry)
    requires geo.Ok()
    ensures geo.total > 0 && geo.reserved <= 32768 && geo.UsedDescriptors() <= 1024 && |Padded(geo, 0)| == 65536
    ensures geo.UsedDescriptors() + 1 <= Below(geo, 0)
  {
    assert geo.total <= 131072;
  }

  /** The first blocks, descriptors included, are below the end of the data. */
  lemma AlreadySet(geo: Geometry)
    requires geo.Ok()
    ensures Filled(Padded(geo, 0), 0, geo.UsedDescriptors() + 1, true) == Padded(geo, 0)
  {
    ReservedInBuffer(geo);
  }

  lemma OnlyRealSet(geo: Geometry, i: nat)
    requires geo.Ok() && geo.UsedDescriptors() < i <= geo.reserved
    ensures i < 65536
    ensures i >= geo.Size(0) ==> !Filled(Padded(geo, 0), geo.UsedDescriptors() + 1, i, false)[i]
  {
    ReservedInBuffer(geo);
  }

  /** The block bitmap before deleted ranges are given back. */
  function Adjusted(geo: Geometry, g: nat): (s: seq<bool>)
    requires g < geo.total
    ensures |s| == 65536
  {
    if g == 0 then Filled(Padded(geo, 0), geo.UsedDescriptors() + 1, geo.reserved + 1, false) else Padded(geo, g)
  }

  /** `bits` of group `g` without blocks `lo` to `hi` of the image. */
  function Freed(bits: seq<bool>, g: nat, lo: nat, hi: nat): (s: seq<bool>)
    ensures |s| == |bits|
  {
    seq(|bits|, i requires 0 <= i < |bits| => bits[i] && !(i < 32768 && lo <= g * 32768 + i < hi))
  }

  lemma FreedMore(bits: seq<bool>, g: nat, lo: nat, blk: nat)
    requires |bits| >= 32768 && lo <= blk
    ensures blk / 32768 == g ==> Freed(bits, g, lo, blk)[blk % 32768 := false] == Freed(bits, g, lo, blk + 1)
    ensures blk / 32768 != g ==> Freed(bits, g, lo, blk) == Freed(bits, g, lo, blk + 1)
  {
    assert blk == blk / 32768 * 32768 + blk % 32768;
    if blk / 32768 == g {
      var a, b := Freed(bits, g, lo, blk)[blk % 32768 := false], Freed(bits, g, lo, blk + 1);
      forall i | 0 <= i < |bits| ensures a[i] == b[i] {
      }
    } else {
      var a, b := Freed(bits, g, lo, blk), Freed(bits, g, lo, blk + 1);
      forall i | 0 <= i < |bits| ensures a[i] == b[i] {
        if i < 32768 {
          DivOf(g, i);
        }
      }
    }
  }

  lemma DivOf(g: nat, i: nat)
    requires i < 32768
    ensures (g * 32768 + i) / 32768 == g && (g * 32768 + i) % 32768 == i
  {
  }

  lemma FreedNone(bits: seq<bool>, g: nat, lo: nat)
    ensures Freed(bits, g, lo, lo) == bits
  {
  }

  /** `bits` of group `g` without any of the ranges. */
  function AllFreed(bits: seq<bool>, g: nat, rs: seq<BlockRange>): (s: seq<bool>)
    ensures |s| == |bits|
  {
    seq(|bits|, i requires 0 <= i < |bits| => bits[i] && !(i < 32768 && InRanges(rs, g * 32768 + i)))
  }

  lemma AllFreedNone(bits: seq<bool>, g: nat)
    ensures AllFreed(bits, g, []) == bits
  {
  }

  lemma AllFreedMore(bits: seq<bool>, g: nat, rs: seq<BlockRange>, k: nat)
    requires k < |rs| && rs[k].start <= rs[k].end
    ensures Freed(AllFreed(bits, g, rs[..k]), g, rs[k].start, rs[k].end) == AllFreed(bits, g, rs[..k + 1])
  {
    var a, b := Freed(AllFreed(bits, g, rs[..k]), g, rs[k].start, rs[k].end), AllFreed(bits, g, rs[..k + 1]);
    forall i | 0 <= i < |bits| ensures a[i] == b[i] {
      InRangesMore(rs, k, g * 32768 + i);
    }
  }

  lemma InRangesMore(rs: seq<BlockRange>, k: nat, b: nat)
    requires k < |rs|
    ensures InRanges(rs[..k + 1], b) <==> InRanges(rs[..k], b) || Within(rs[k], b)
  {
    if InRanges(rs[..k], b) {
      var j :| 0 <= j < k && Within(rs[..k][j], b);
      assert Within(rs[..k + 1][j], b);
    }
    if Within(rs[k], b) {
      assert Within(rs[..k + 1][k], b);
    }
    if InRanges(rs[..k + 1], b) && !Within(rs[k], b) {
      var j :| 0 <= j < k + 1 && Within(rs[..k + 1][j], b);
      assert Within(rs[..k][j], b);
    }
  }

  /** Every block of group `g` below `dataSize` is among the first `have`. */
  predicate RoomFor(g: nat, have: nat, dataSize: nat) {
    have == 32768 || dataSize <= g * 32768 + have
  }

  /** One deleted range: its blocks in this group are given back. */
  method FreeRange(buf: array<byte>, g: nat, r: BlockRange, used: nat, ghost have: nat, ghost dataSize: nat) returns (used': nat)
    requires buf.Length == 8192 && r.start <= r.end <= dataSize && have <= 32768
    requires used == Count(Bits(buf[..]), have) && RoomFor(g, have, dataSize)
    modifies buf
    ensures Bits(buf[..]) == Freed(Bits(old(buf[..])), g, r.start, r.end)
    ensures used' == Count(Bits(buf[..]), have)
  {
    hide *;
    ghost var was := Bits(buf[..]);
    assert |was| == 65536;
    FreedNone(was, g, r.start);
    used' := used;
    for blk := r.start to r.end
      invariant Bits(buf[..]) == Freed(was, g, r.start, blk) && used' == Count(Bits(buf[..]), have)
    {
      FreedMore(was, g, r.start, blk);
      if blk / 32768 == g {
        var j := blk % 32768;
        BlockIsReal(g, have, dataSize, blk);
        used' := ClearCounted(buf, j, used', have);
      }
    }
  }

  lemma BlockIsReal(g: nat, have: nat, dataSize: nat, blk: nat)
    requires RoomFor(g, have, dataSize) && blk < dataSize && blk / 32768 == g
    ensures blk % 32768 < have
  {
    assert blk == g * 32768 + blk % 32768;
  }

  predicate RangesBelow(rs: seq<BlockRange>, dataSize: nat) {
    forall k :: 0 <= k < |rs| ==> rs[k].start <= rs[k].end <= dataSize
  }

  lemma RangeBelow(rs: seq<BlockRange>, dataSize: nat, k: nat)
    requires RangesBelow(rs, dataSize) && k < |rs|
    ensures rs[k].start <= rs[k].end <= dataSize
  {
  }

  /** Every deleted range. */
  method FreeDeleted(buf: array<byte>, g: nat, deleted: seq<BlockRange>, used: nat, ghost have: nat, ghost dataSize: nat) returns (used': nat)
    requires buf.Length == 8192 && RangesBelow(deleted, dataSize) && have <= 32768
    requires used == Count(Bits(buf[..]), have)
    requires RoomFor(g, have, dataSize)
    modifies buf
    ensures Bits(buf[..]) == AllFreed(Bits(old(buf[..])), g, deleted)
    ensures used' == Count(Bits(buf[..]), have)
  {
    ghost var was := Bits(buf[..]);
    hide *;
    AllFreedNone(was, g);
    assert deleted[..0] == [];
    used' := used;
    for k := 0 to |deleted|
      invariant Bits(buf[..]) == AllFreed(was, g, deleted[..k]) && used' == Count(Bits(buf[..]), have)
    {
      RangeBelow(deleted, dataSize, k);
      AllFreedMore(was, g, deleted, k);
      used' := FreeRange(buf, g, deleted[k], used', have, dataSize);
    }
    assert deleted[..|deleted|] == deleted;
  }

  lemma FreeableHere(geo: Geometry, g: nat)
    requires geo.Ok() && g < geo.groups
    ensures g < geo.total && RoomFor(g, geo.Size(g), geo.DataSize())
  {
    SizeHoldsData(geo, g);
  }

  /** The block bitmap and its counter, start to end. */
  method MarkBlocks(buf: array<byte>, geo: Geometry, g: nat, deleted: seq<BlockRange>) returns (used: nat)
    requires buf.Length == 8192 && forall k :: 0 <= k < 8192 ==> buf[k] == 0
    requires geo.Ok() && g < geo.groups && RangesBelow(deleted, geo.DataSize())
    modifies buf
    ensures Bits(buf[..]) == AllFreed(Adjusted(geo, g), g, deleted)
    ensures geo.Size(g) <= 32768 && used == Count(Bits(buf[..]), geo.Size(g))
  {
    ZeroBuffer(buf[..]);
    PaddedCount(geo, g);
    FreeableHere(geo, g);
    SizeHoldsData(geo, g);
    GroupExists(geo, g);
    hide *;
    used := MarkAllocated(buf, geo, g);
    PutRange(buf, geo.Size(g), 32768, true);
    PaddedIs(geo, g);
    if g == 0 {
      used := AdjustDescriptors(buf, geo, used);
    }
    AdjustedIs(geo, g);
    used := FreeDeleted(buf, g, deleted, used, geo.Size(g), geo.DataSize());
  }

  lemma GroupExists(geo: Geometry, g: nat)
    requires geo.Ok() && g < geo.groups
    ensures g < geo.total && geo.total > 0
  {
  }

  lemma PaddedIs(geo: Geometry, g: nat)
    requires g < geo.total
    ensures Padded(geo, g) == Filled(Filled(NoBits(), 0, Below(geo, g), true), geo.Size(g), 32768, true)
  {
  }

  lemma AdjustedIs(geo: Geometry, g: nat)
    requires g < geo.total
    ensures g > 0 ==> Adjusted(geo, g) == Padded(geo, g)
    ensures Adjusted(geo, 0) == Filled(Padded(geo, 0), geo.UsedDescriptors() + 1, geo.reserved + 1, false)
  {
  }

  /** The steps add up to the intended bitmap; nothing is set behind it. */
  lemma BlockBitsReached(geo: Geometry, g: nat, deleted: seq<BlockRange>)
    requires geo.Ok() && g < geo.groups && RangesBelow(deleted, geo.DataSize())
    ensures var s := AllFreed(Adjusted(geo, g), g, deleted);
      && s[..32768] == BlockBits(geo, deleted, g)
      && forall i :: 32768 <= i < 65536 ==> !s[i]
  {
    var s := AllFreed(Adjusted(geo, g), g, deleted);
    SizeHoldsData(geo, g);
    ReservedInBuffer(geo);
    forall i | 0 <= i < 32768 ensures s[i] == BlockBits(geo, deleted, g)[i] {
      BlockBitReached(geo, g, deleted, i);
    }
    forall i | 32768 <= i < 65536 ensures !s[i] {
    }
  }

  lemma BlockBitReached(geo: Geometry, g: nat, deleted: seq<BlockRange>, i: nat)
    requires geo.Ok() && g < geo.groups && RangesBelow(deleted, geo.DataSize()) && i < 32768
    ensures AllFreed(Adjusted(geo, g), g, deleted)[i] == Marked(geo, deleted, g, i)
  {
    SizeHoldsData(geo, g);
    FreeableHere(geo, g);
    ReservedInBuffer(geo);
    AdjustedBit(geo, g, i);
    if i >= geo.Size(g) {
      NotInRanges(deleted, geo.DataSize(), g * 32768 + i);
    }
    hide Adjusted, InRanges, Geometry.Ok, Geometry.Size, Geometry.UsedDescriptors;
  }

  lemma AdjustedBit(geo: Geometry, g: nat, i: nat)
    requires geo.Ok() && g < geo.groups && i < 32768
    ensures Adjusted(geo, g)[i]
        <==> i >= geo.Size(g) || (g * 32768 + i < geo.DataSize() && !(g == 0 && geo.UsedDescriptors() < i <= geo.reserved))
  {
    SizeHoldsData(geo, g);
    ReservedInBuffer(geo);
  }

  lemma NotInRanges(rs: seq<BlockRange>, dataSize: nat, b: nat)
    requires RangesBelow(rs, dataSize) && b >= dataSize
    ensures !InRanges(rs, b)
  {
  }

  // ---- Inode bitmap ----

  /** The inode bitmap after the group's first `n` inodes have been looked at. */
  function InodePart(geo: Geometry, inodes: seq<Inode>, g: nat, n: nat): (s: seq<bool>)
    ensures |s| == 32768
  {
    seq(32768, i requires 0 <= i < 32768 => i < n && InodeMarked(geo, inodes, g, i))
  }

  lemma InodePartNext(geo: Geometry, inodes: seq<Inode>, g: nat, front: seq<bool>, i: nat)
    requires i < geo.ipg <= 32768 && |front| == 32768
    ensures (front + InodePart(geo, inodes, g, i))[32768 + i := InodeMarked(geo, inodes, g, i)]
         == front + InodePart(geo, inodes, g, i + 1)
    ensures !InodeMarked(geo, inodes, g, i) ==> InodePart(geo, inodes, g, i + 1) == InodePart(geo, inodes, g, i)
    ensures Count(InodeBits(geo, inodes, g), i + 1)
         == Count(InodeBits(geo, inodes, g), i) + if InodeMarked(geo, inodes, g, i) then 1 else 0
  {
    hide InodeMarked;
    var a, b := front + InodePart(geo, inodes, g, i), front + InodePart(geo, inodes, g, i + 1);
    forall k | 0 <= k < 65536 ensures a[32768 + i := InodeMarked(geo, inodes, g, i)][k] == b[k] {
    }
    if !InodeMarked(geo, inodes, g, i) {
      assert InodePart(geo, inodes, g, i + 1) == InodePart(geo, inodes, g, i);
    }
  }

  lemma InodePartNone(geo: Geometry, inodes: seq<Inode>, g: nat, s: seq<bool>)
    requires |s| == 65536 && forall i :: 32768 <= i < 65536 ==> !s[i]
    ensures s == s[..32768] + InodePart(geo, inodes, g, 0)
  {
  }

  lemma InodeTail(geo: Geometry, inodes: seq<Inode>, g: nat, front: seq<bool>)
    requires geo.ipg <= 32768 && |front| == 32768
    ensures Filled(front + InodePart(geo, inodes, g, geo.ipg), 32768 + geo.ipg, 65536, true) == front + InodeBits(geo, inodes, g)
  {
    var a, b := Filled(front + InodePart(geo, inodes, g, geo.ipg), 32768 + geo.ipg, 65536, true), front + InodeBits(geo, inodes, g);
    forall k | 0 <= k < 65536 ensures a[k] == b[k] {
    }
  }

  /** One round of the inode loop. */
  method MarkInode(buf: array<byte>, geo: Geometry, g: nat, inodes: seq<Inode>, i: nat, used: nat, dirs: nat, ghost front: seq<bool>)
    returns (used': nat, dirs': nat)
    requires buf.Length == 8192 && i < geo.ipg <= 32768 && |front| == 32768
    requires Bits(buf[..]) == front + InodePart(geo, inodes, g, i)
    requires used == Count(InodeBits(geo, inodes, g), i) && dirs == DirsAmong(geo, inodes, g, i)
    modifies buf
    ensures Bits(buf[..]) == front + InodePart(geo, inodes, g, i + 1)
    ensures used' == Count(InodeBits(geo, inodes, g), i + 1) && dirs' == DirsAmong(geo, inodes, g, i + 1)
  {
    hide *;
    InodePartNext(geo, inodes, g, front, i);
    NextInode(geo, inodes, g, i);
    used', dirs' := used, dirs;
    var ino := InodeNumber(geo.ipg, g, i);
    if ino <= |inodes| {
      var inode := inodes[ino - 1];
      if ino <= 10 || inode.links != 0 {
        Put(buf, 32768 + i, true);
        used' := used + 1;
        if inode.IsDir() {
          dirs' := dirs + 1;
        }
      }
    }
  }

  method MarkInodes(buf: array<byte>, geo: Geometry, g: nat, inodes: seq<Inode>) returns (used: nat, dirs: nat)
    requires buf.Length == 8192 && geo.ipg <= 32768 && geo.ipg % 8 == 0
    requires forall i :: 32768 <= i < 65536 ==> !Bits(buf[..])[i]
    modifies buf
    ensures Bits(buf[..]) == Bits(old(buf[..]))[..32768] + InodeBits(geo, inodes, g)
    ensures used == Count(InodeBits(geo, inodes, g), geo.ipg) && dirs == DirsAmong(geo, inodes, g, geo.ipg)
  {
    ghost var was := Bits(buf[..]);
    assert |was| == 65536;
    InodePartNone(geo, inodes, g, was);
    NoneCounted(geo, inodes, g);
    hide *;
    used, dirs := 0, 0;
    for i := 0 to geo.ipg
      invariant Bits(buf[..]) == was[..32768] + InodePart(geo, inodes, g, i)
      invariant used == Count(InodeBits(geo, inodes, g), i) && dirs == DirsAmong(geo, inodes, g, i)
    {
      used, dirs := MarkInode(buf, geo, g, inodes, i, used, dirs, was[..32768]);
    }
    InodeTail(geo, inodes, g, was[..32768]);
    FillBytes(buf, 4096 + geo.ipg / 8, 8192);
  }

  lemma NoneCounted(geo: Geometry, inodes: seq<Inode>, g: nat)
    ensures Count(InodeBits(geo, inodes, g), 0) == 0 && DirsAmong(geo, inodes, g, 0) == 0
  {
  }

  lemma NextInode(geo: Geometry, inodes: seq<Inode>, g: nat, i: nat)
    requires i < geo.ipg
    ensures var ino := InodeNumber(geo.ipg, g, i);
      && (InodeMarked(geo, inodes, g, i) <==> ino <= |inodes| && (ino <= 10 || inodes[ino - 1].links > 0))
      && DirsAmong(geo, inodes, g, i + 1)
         == DirsAmong(geo, inodes, g, i) + if InodeMarked(geo, inodes, g, i) && inodes[ino - 1].IsDir() then 1 else 0
  {
  }

  /** Both bitmaps of data group `g`, and the numbers its descriptor records. */
  method DataGroup(geo: Geometry, g: nat, deleted: seq<BlockRange>, inodes: seq<Inode>)
    returns (buf: array<byte>, usedBlocks: nat, usedInodes: nat, dirs: nat)
    requires geo.Ok() && g < geo.groups && RangesBelow(deleted, geo.DataSize())
    ensures buf.Length == 8192 && g < geo.total && geo.Size(g) <= 32768 && geo.ipg <= 32768
    ensures Bits(buf[..]) == BlockBits(geo, deleted, g) + InodeBits(geo, inodes, g)
    ensures usedBlocks == Count(BlockBits(geo, deleted, g), geo.Size(g))
    ensures usedInodes == Count(InodeBits(geo, inodes, g), geo.ipg) && dirs == DirsAmong(geo, inodes, g, geo.ipg)
  {
    buf := new byte[8192](i => 0);
    GroupExists(geo, g);
    CandidateFits(geo);
    hide *;
    usedBlocks := MarkBlocks(buf, geo, g, deleted);
    BlockBitsReached(geo, g, deleted);
    CountSame(Bits(buf[..]), BlockBits(geo, deleted, g), geo.Size(g));
    usedInodes, dirs := MarkInodes(buf, geo, g, inodes);
  }

  lemma CandidateFits(geo: Geometry)
    requires geo.Ok()
    ensures 8192 <= geo.ipg <= 32768 && geo.ipg % 8 == 0
  {
    CandidateCases(geo.ipg);
  }

  lemma CandidateCases(ipg: nat)
    requires Candidate(ipg)
    ensures ipg in {8192, 16384, 24576, 32768}
  {
    assert ipg == ipg / 8192 * 8192;
  }

  // ---- Groups without data ----

  /** Is block `i` of empty group `g` marked as taken? Its own table and bitmaps
      are, and what lies past the end of the image. */
  predicate EmptyMarked(geo: Geometry, g: nat, i: nat)
    requires g < geo.total
  {
    i < TableBlocks(geo.ipg) + 2 || i >= geo.Size(g)
  }

  function EmptyBits(geo: Geometry, g: nat): (s: seq<bool>)
    requires g < geo.total
    ensures |s| == 32768
  {
    seq(32768, i requires 0 <= i < 32768 => EmptyMarked(geo, g, i))
  }

  /** No inode of the group is in use; there are no inodes behind them. */
  function FreeInodeBits(geo: Geometry): (s: seq<bool>)
    ensures |s| == 32768
  {
    seq(32768, i requires 0 <= i < 32768 => i >= geo.ipg)
  }

  lemma ZeroBits4096(buf: seq<byte>)
    requires |buf| == 4096 && forall k :: 0 <= k < 4096 ==> buf[k] == 0
    ensures |Bits(buf)| == 32768 && forall i :: 0 <= i < 32768 ==> !Bits(buf)[i]
  {
    forall i | 0 <= i < 32768 ensures !Bits(buf)[i] {
      ZeroBits(i % 8);
    }
  }

  lemma OneBits4096(buf: seq<byte>)
    requires |buf| == 4096 && forall k :: 0 <= k < 4096 ==> buf[k] == 255
    ensures |Bits(buf)| == 32768 && forall i :: 0 <= i < 32768 ==> Bits(buf)[i]
  {
    forall i | 0 <= i < 32768 ensures Bits(buf)[i] {
      AllOnes(i % 8);
    }
  }

  /** Block bitmap of an empty group. */
  method EmptyBlockBitmap(geo: Geometry, g: nat) returns (buf: array<byte>)
    requires geo.Ok() && geo.groups <= g < geo.total
    ensures buf.Length == 4096 && Bits(buf[..]) == EmptyBits(geo, g)
  {
    buf := new byte[4096](i => 0);
    ZeroBits4096(buf[..]);
    ghost var was := Bits(buf[..]);
    EmptySize(geo, g);
    hide Bits, Geometry.Ok, Geometry.Size, TableBlocks;
    if g == geo.total - 1 && geo.Size(g) < 32768 {
      PutRange(buf, geo.Size(g), 32768, true);
      PutRange(buf, 0, TableBlocks(geo.ipg) + 2, true);
    } else {
      PutRange(buf, 0, TableBlocks(geo.ipg) + 2, true);
    }
    assert Bits(buf[..]) == EmptyBits(geo, g);
  }

  /** An empty group has room for its own table and bitmaps. */
  lemma EmptySize(geo: Geometry, g: nat)
    requires geo.Ok() && geo.groups <= g < geo.total
    ensures TableBlocks(geo.ipg) + 2 <= geo.Size(g) <= 32768
    ensures g != geo.total - 1 ==> geo.Size(g) == 32768
  {
  }

  method EmptyInodeBitmap(ipg: nat, ghost geo: Geometry) returns (buf: array<byte>)
    requires ipg == geo.ipg <= 32768
    ensures buf.Length == 4096 && Bits(buf[..]) == FreeInodeBits(geo)
  {
    buf := new byte[4096](i => 255);
    OneBits4096(buf[..]);
    hide Bits;
    PutRange(buf, 0, ipg, false);
    assert Bits(buf[..]) == FreeInodeBits(geo);
  }

  lemma {:induction false} EmptyCount(geo: Geometry, g: nat, n: nat)
    requires geo.Ok() && geo.groups <= g < geo.total && n <= geo.Size(g)
    ensures geo.Size(g) <= 32768 && Count(EmptyBits(geo, g), n) == Min(n, TableBlocks(geo.ipg) + 2)
  {
    EmptySize(geo, g);
    if n > 0 {
      EmptyCount(geo, g, n - 1);
    }
  }

  // ---- The numbers on disk ----

  /** The bitmap of group `g`, with data or without. */
  function GroupBits(geo: Geometry, deleted: seq<BlockRange>, g: nat): (s: seq<bool>)
    requires geo.total > 0 && g < geo.total
    ensures |s| == 32768
  {
    if g < geo.groups then BlockBits(geo, deleted, g) else EmptyBits(geo, g)
  }

  /** Free blocks of group `g`: those it has and does not use. */
  function FreeBlocks(geo: Geometry, deleted: seq<BlockRange>, g: nat): (n: nat)
    requires geo.Ok() && g < geo.total
  {
    SizeBound(geo, g);
    Clear(GroupBits(geo, deleted, g), geo.Size(g))
  }

  lemma SizeBound(geo: Geometry, g: nat)
    requires geo.Ok() && g < geo.total
    ensures geo.total > 0 && geo.Size(g) <= 32768
  {
  }

  function UsedInodes(geo: Geometry, inodes: seq<Inode>, g: nat): nat
    requires geo.ipg <= 32768
  {
    if g < geo.groups then Count(InodeBits(geo, inodes, g), geo.ipg) else 0
  }

  /** First block of the inode table of data group `g`. */
  function TableStart(geo: Geometry, g: nat): nat {
    geo.table + g * TableBlocks(geo.ipg)
  }

  function Descriptor(geo: Geometry, deleted: seq<BlockRange>, inodes: seq<Inode>, g: nat): GroupDescriptor
    requires geo.Ok() && g < geo.total
  {
    CandidateFits(geo);
    if g < geo.groups then
      GroupDescriptor(geo.bitmaps + 2 * g, geo.bitmaps + 2 * g + 1, TableStart(geo, g),
                      FreeBlocks(geo, deleted, g), geo.ipg - UsedInodes(geo, inodes, g), DirsAmong(geo, inodes, g, geo.ipg))
    else
      GroupDescriptor(g * 32768 + TableBlocks(geo.ipg), g * 32768 + TableBlocks(geo.ipg) + 1, g * 32768,
                      FreeBlocks(geo, deleted, g), geo.ipg, 0)
  }

  lemma DescriptorFits(geo: Geometry, deleted: seq<BlockRange>, inodes: seq<Inode>, g: nat)
    requires geo.Ok() && g < geo.total
    ensures Descriptor(geo, deleted, inodes, g).Fits()
  {
    CandidateFits(geo);
    SizeBound(geo, g);
    TableBelow(geo, g);
    hide GroupBits, InodeBits, InodeMarked;
  }

  lemma TableBelow(geo: Geometry, g: nat)
    requires geo.Ok() && g < geo.total
    ensures g < geo.groups ==> TableStart(geo, g) <= geo.bitmaps && geo.bitmaps + 2 * g + 1 < geo.blocks
    ensures geo.groups <= g ==> g * 32768 + TableBlocks(geo.ipg) + 1 < geo.blocks
    ensures TableBlocks(geo.ipg) <= 2048 && geo.blocks < 0x1_0000_0000
  {
    hide *;
    CandidateFits(geo);
    SmallTables(geo.ipg);
    OkFacts(geo);
    if g < geo.groups {
      StartBelow(geo, g);
    } else {
      EmptySize(geo, g);
      EmptyEnd(geo, g);
    }
  }

  lemma OkFacts(geo: Geometry)
    requires geo.Ok()
    ensures geo.bitmaps == geo.table + Tables(geo.groups, geo.ipg) && geo.bitmaps + 2 * geo.groups <= geo.blocks < 0x1_0000_0000
    ensures geo.groups <= geo.total
  {
    hide Tables, TableBlocks, Candidate, Geometry.Size, LastGroupViable, Slots;
  }

  lemma EmptyEnd(geo: Geometry, g: nat)
    requires geo.Ok() && geo.groups <= g < geo.total && TableBlocks(geo.ipg) + 2 <= geo.Size(g)
    ensures g * 32768 + TableBlocks(geo.ipg) + 1 < geo.blocks
  {
    LastGroup(geo.blocks, geo.total);
    hide Tables, TableBlocks, Candidate, Slots, LastGroupViable, DivCeil;
  }

  lemma StartBelow(geo: Geometry, g: nat)
    requires geo.bitmaps == geo.table + Tables(geo.groups, geo.ipg) && g < geo.groups
    ensures TableStart(geo, g) <= geo.bitmaps
  {
    MulGrows(g, geo.groups, TableBlocks(geo.ipg));
  }

  lemma SmallTables(ipg: nat)
    requires ipg <= 32768
    ensures TableBlocks(ipg) <= 2048
  {
  }
}
