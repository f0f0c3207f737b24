/** Block groups: how many there are, how big their inode tables must be, and
    what size `close` gives the image. A block is 4096 bytes, a group 32768
    blocks, and a descriptor block describes 128 groups: the formatter accepts
    no other block size. */
module Layout {
  import opened Basics
  import opened OnDisk

  function BlockCount(size: nat): nat
    requires size > 0
  {
    (size - 1) / 4096 + 1
  }

  function GroupCount(size: nat): nat
    requires size > 0
  {
    (BlockCount(size) - 1) / 32768 + 1
  }

  /** Blocks set aside for descriptors: room for 32 times what is needed. */
  function DescriptorBlocks(size: nat): nat
    requires size > 0
  {
    ((GroupCount(size) - 1) / 128 + 1) * 32
  }

  // ---- Inodes per group ----

  /** Blocks of one group's inode table: 16 inodes to a block. */
  function TableBlocks(ipg: nat): nat { ipg / 16 }

  /** What a group has left for data besides its table and two bitmaps. */
  function DataPerGroup(ipg: nat): (n: nat)
    requires ipg <= 32768
    ensures n + TableBlocks(ipg) + 2 == 32768
  {
    32768 - ipg / 16 - 2
  }

  /** Inodes, and blocks of inode tables, in `groups` groups. */
  function Slots(groups: nat, ipg: nat): nat { groups * ipg }

  function Tables(groups: nat, ipg: nat): nat { groups * TableBlocks(ipg) }

  /** The table sizes the search looks at. */
  predicate Candidate(ipg: nat) { 8192 <= ipg <= 32768 && ipg % 8192 == 0 }

  /** Enough groups for the blocks and for the inodes, and at least one. */
  function Needed(blocks: nat, inodes: nat, ipg: nat): nat
    requires Candidate(ipg)
  {
    Max(1, Max(DivCeil(blocks, DataPerGroup(ipg)), DivCeil(inodes, ipg)))
  }

  /** Groups whose inodes are all taken when the last inode is placed. */
  function FullGroups(inodes: nat, ipg: nat): nat
    requires ipg > 0
  {
    (if inodes > 0 then inodes - 1 else 0) / ipg
  }

  /** So many blocks that the groups they need hold all the inodes. */
  function MinBlocks(inodes: nat, ipg: nat): nat
    requires Candidate(ipg)
  {
    FullGroups(inodes, ipg) * DataPerGroup(ipg) + 1
  }

  /** The `group_count` closure. */
  function GroupsFor(blocks: nat, inodes: nat, ipg: nat): nat
    requires Candidate(ipg)
  {
    var perGroup := DataPerGroup(ipg);
    (Max(blocks, MinBlocks(inodes, ipg)) + perGroup - 1) / perGroup
  }

  lemma CeilOfMax(a: nat, b: nat, d: nat)
    requires d > 0
    ensures DivCeil(Max(a, b), d) == Max(DivCeil(a, d), DivCeil(b, d))
  {
    if a < b {
      DivMonotone(a + d - 1, b + d - 1, d);
    } else {
      DivMonotone(b + d - 1, a + d - 1, d);
    }
  }

  lemma DivMonotone(a: nat, b: nat, d: nat)
    requires d > 0 && a <= b
    ensures a / d <= b / d
  {
    DivBounds(a, d);
    DivBounds(b, d);
    if a / d > b / d {
      MulGrows(b / d + 1, a / d, d);
      assert false;
    }
  }

  lemma DivBounds(a: nat, d: nat)
    requires d > 0
    ensures a / d * d <= a < (a / d + 1) * d
  {
    assert a == a / d * d + a % d;
  }

  lemma MulGrows(a: nat, b: nat, d: nat)
    requires a <= b
    ensures a * d <= b * d
  {
    assert (b - a) * d >= 0;
  }

  /** `q * d + 1` things take one more than `q` boxes of `d`. */
  lemma CeilPastFull(q: nat, d: nat)
    requires d > 0
    ensures DivCeil(q * d + 1, d) == q + 1
  {
    assert (q * d + 1 + d - 1) == (q + 1) * d;
    DivBounds((q + 1) * d, d);
    var r := (q + 1) * d / d;
    if r < q + 1 {
      MulGrows(r + 1, q + 1, d);
    } else if r > q + 1 {
      MulGrows(q + 2, r, d);
    }
  }

  lemma CeilIsLess(n: nat, d: nat)
    requires n > 0 && d > 0
    ensures DivCeil(n, d) == (n - 1) / d + 1
  {
    assert (n - 1) / d * d + (n - 1) % d == n - 1;
    DivBounds(n - 1 + d, d);
    DivBounds(n - 1, d);
    var q, r := (n - 1) / d, (n - 1 + d) / d;
    if r < q + 1 {
      MulGrows(r + 1, q + 1, d);
    } else if r > q + 1 {
      MulGrows(q + 2, r, d);
    }
  }

  /** The closure computes exactly the larger of the two needs. */
  lemma GroupsAreExact(blocks: nat, inodes: nat, ipg: nat)
    requires Candidate(ipg)
    ensures GroupsFor(blocks, inodes, ipg) == Needed(blocks, inodes, ipg)
  {
    hide *;
    CandidateIs(ipg);
    var d := DataPerGroup(ipg);
    CeilOfMax(blocks, MinBlocks(inodes, ipg), d);
    MinBlocksNeed(inodes, ipg);
    InodesNeed(inodes, ipg);
    GroupsForIs(blocks, inodes, ipg);
    LargerOf(DivCeil(blocks, d), DivCeil(inodes, ipg));
  }

  lemma LargerOf(a: nat, b: nat)
    ensures Max(a, Max(1, b)) == Max(1, Max(a, b))
  {
  }

  lemma CandidateIs(ipg: nat)
    requires Candidate(ipg)
    ensures 8192 <= ipg <= 32768 && DataPerGroup(ipg) > 0
  {
  }

  lemma MinBlocksNeed(inodes: nat, ipg: nat)
    requires Candidate(ipg)
    ensures DataPerGroup(ipg) > 0 && DivCeil(MinBlocks(inodes, ipg), DataPerGroup(ipg)) == FullGroups(inodes, ipg) + 1
  {
    CeilPastFull(FullGroups(inodes, ipg), DataPerGroup(ipg));
    hide DivCeil, FullGroups;
  }

  lemma InodesNeed(inodes: nat, ipg: nat)
    requires ipg > 0
    ensures FullGroups(inodes, ipg) + 1 == Max(1, DivCeil(inodes, ipg))
  {
    if inodes > 0 {
      CeilIsLess(inodes, ipg);
    } else {
      DivBounds(ipg - 1, ipg);
      assert DivCeil(0, ipg) == 0;
    }
  }

  lemma GroupsForIs(blocks: nat, inodes: nat, ipg: nat)
    requires Candidate(ipg) && DataPerGroup(ipg) > 0
    ensures GroupsFor(blocks, inodes, ipg) == DivCeil(Max(blocks, MinBlocks(inodes, ipg)), DataPerGroup(ipg))
    ensures Needed(blocks, inodes, ipg) == Max(1, Max(DivCeil(blocks, DataPerGroup(ipg)), DivCeil(inodes, ipg)))
  {
    hide DataPerGroup, MinBlocks;
  }

  /** The layout the search picks: the fewest groups, and the smallest table that gets
      by with them. */
  ghost predicate Best(blocks: nat, inodes: nat, groups: nat, ipg: nat) {
    && Candidate(ipg) && groups == Needed(blocks, inodes, ipg)
    && (forall c: nat :: Candidate(c) ==> groups <= Needed(blocks, inodes, c))
    && (forall c: nat :: Candidate(c) && c < ipg ==> groups < Needed(blocks, inodes, c))
  }

  lemma BestIs(blocks: nat, inodes: nat, groups: nat, ipg: nat)
    requires Candidate(ipg) && groups == Needed(blocks, inodes, ipg)
    requires forall c: nat :: Candidate(c) ==> groups <= Needed(blocks, inodes, c)
    requires forall c: nat :: Candidate(c) && c < ipg ==> groups < Needed(blocks, inodes, c)
    ensures Best(blocks, inodes, groups, ipg)
  {
    hide Needed, Candidate;
  }

  lemma OneBest(blocks: nat, inodes: nat, groups: nat, ipg: nat, groups': nat, ipg': nat)
    requires Best(blocks, inodes, groups, ipg) && Best(blocks, inodes, groups', ipg')
    ensures groups == groups' && ipg == ipg'
  {
    hide Needed, Candidate;
  }

  /** optimize_block_group_layout: the fewest groups any candidate needs, and the
      smallest table that gets by with them. */
  method OptimizeBlockGroupLayout(blocks: nat, inodes: nat) returns (groups: nat, ipg: nat)
    requires blocks <= 0xFFFF_0000 && inodes <= 0x4000_0000
    ensures Candidate(ipg) && groups == Needed(blocks, inodes, ipg)
    ensures forall c: nat :: Candidate(c) ==> groups <= Needed(blocks, inodes, c)
    ensures forall c: nat :: Candidate(c) && c < ipg ==> groups < Needed(blocks, inodes, c)
  {
    hide Needed, GroupsFor;
    groups, ipg := 0xFFFF_FFFF, 8192;
    var c := 8192;
    while c <= 32768
      invariant 8192 <= c <= 40960 && c % 8192 == 0
      invariant c == 8192 ==> groups == 0xFFFF_FFFF && ipg == 8192
      invariant c > 8192 ==> Candidate(ipg) && ipg < c && groups == Needed(blocks, inodes, ipg)
      invariant forall k: nat :: Candidate(k) && k < c ==> groups <= Needed(blocks, inodes, k)
      invariant forall k: nat :: Candidate(k) && k < ipg ==> groups < Needed(blocks, inodes, k)
      decreases 40960 - c
    {
      var g := GroupsFor(blocks, inodes, c);
      GroupsAreExact(blocks, inodes, c);
      NeededIsSmall(blocks, inodes, c);
      if g < groups {
        groups, ipg := g, c;
      }
      c := c + 8192;
    }
  }

  lemma NeededIsSmall(blocks: nat, inodes: nat, ipg: nat)
    requires blocks <= 0xFFFF_0000 && inodes <= 0x4000_0000 && Candidate(ipg)
    ensures Needed(blocks, inodes, ipg) < 0xFFFF_FFFF
  {
    DivBounds(blocks + DataPerGroup(ipg) - 1, DataPerGroup(ipg));
    DivBounds(inodes + ipg - 1, ipg);
  }

  /** Data, inode tables and bitmaps fit into that many groups, and so do the
      inodes: the padding of the inode table is never negative. */
  lemma LayoutFits(blocks: nat, inodes: nat, groups: nat, ipg: nat)
    requires Candidate(ipg) && groups == Needed(blocks, inodes, ipg)
    ensures groups >= 1
    ensures blocks + Tables(groups, ipg) + 2 * groups <= groups * 32768
    ensures inodes <= Slots(groups, ipg)
    ensures 256 * Slots(groups, ipg) == Tables(groups, ipg) * 4096
  {
    var d := DataPerGroup(ipg);
    CeilCovers(blocks, d, groups);
    CeilCovers(inodes, ipg, groups);
    assert TableBlocks(ipg) * 16 == ipg;
    var t := TableBlocks(ipg);
    assert ipg == t * 16 && groups * (t * 16) == groups * t * 16;
    Spread(groups, d, t);
  }

  lemma Spread(groups: nat, d: nat, t: nat)
    requires d + t + 2 == 32768
    ensures groups * d + groups * t + 2 * groups == groups * 32768
  {
    assert groups * (d + t + 2) == groups * d + groups * t + groups * 2;
  }

  lemma CeilCovers(n: nat, d: nat, groups: nat)
    requires d > 0 && groups >= DivCeil(n, d)
    ensures n <= groups * d
  {
    DivBounds(n + d - 1, d);
    MulGrows(DivCeil(n, d), groups, d);
  }

  // ---- The size of the finished image ----

  /** Fewest blocks that make `groups` groups exist. */
  function MinimumBlocks(groups: nat): nat
    requires groups > 0
  {
    if groups == 1 then 32768 else (groups - 1) * 32768 + 1
  }

  /** `close` up to the point where it counts the groups: the requested size,
      raised to what the groups and the data written so far need. */
  function RaisedSize(partial: bool, size: nat, groups: nat, bitmapOffset: nat): nat
    requires groups > 0 && bitmapOffset > 0
  {
    var atLeast := Max(size, MinimumBlocks(groups) * 4096);
    if partial then Max(atLeast, (bitmapOffset + 2 * groups) * 4096)
    else Max(atLeast, ((bitmapOffset - 1) / 32768 + 1) * 32768 * 4096)
  }

  function TotalGroups(raised: nat): nat
    requires raised >= 4096
  {
    (raised / 4096 - 1) / 32768 + 1
  }

  /** Whole groups; or, if the last one may be short, whole blocks with room for
      the last group's own tables. */
  function FinalSize(partial: bool, raised: nat, tableBlocks: nat): nat
    requires raised >= 4096
  {
    if !partial then Max(raised, TotalGroups(raised) * 32768 * 4096)
    else
      var blocks := DivCeil(raised, 4096);
      var rem := blocks % 32768;
      (if rem != 0 && rem < tableBlocks + 2 then blocks - rem + tableBlocks + 2 else blocks) * 4096
  }

  /** Blocks the superblock reports. */
  function FinalBlocks(partial: bool, raised: nat, tableBlocks: nat): nat
    requires raised >= 4096
  {
    if partial then FinalSize(partial, raised, tableBlocks) / 4096 else TotalGroups(raised) * 32768
  }

  /** The last group is whole or holds a whole inode table and two bitmaps. */
  predicate LastGroupViable(blocks: nat, tableBlocks: nat) {
    blocks % 32768 == 0 || blocks % 32768 >= tableBlocks + 2
  }

  /** The image is big enough for the request, the groups and the data. */
  predicate Covers(blocks: nat, size: nat, groups: nat, bitmapOffset: nat)
    requires groups > 0
  {
    size <= blocks * 4096 && MinimumBlocks(groups) <= blocks && bitmapOffset + 2 * groups <= blocks
  }

  lemma RaisedIsEnough(partial: bool, size: nat, groups: nat, bitmapOffset: nat)
    requires groups > 0 && bitmapOffset > 0
    ensures var r := RaisedSize(partial, size, groups, bitmapOffset);
      r >= 4096 && r >= size && r >= MinimumBlocks(groups) * 4096 && (partial ==> r >= (bitmapOffset + 2 * groups) * 4096)
    ensures partial ==> forall blocks: nat :: Covers(blocks, size, groups, bitmapOffset) <==> blocks * 4096 >= RaisedSize(partial, size, groups, bitmapOffset)
  {
    assert MinimumBlocks(groups) >= 1;
    hide MinimumBlocks;
  }

  /** Sizing with a short last group is tight: the result is the least number of
      blocks that covers everything and leaves a viable last group. */
  lemma SizeIsTight(size: nat, groups: nat, bitmapOffset: nat, tableBlocks: nat)
    requires groups > 0 && bitmapOffset > 0 && tableBlocks <= 2048
    ensures var raised := RaisedSize(true, size, groups, bitmapOffset);
      && raised >= 4096
      && var blocks := FinalBlocks(true, raised, tableBlocks);
         && FinalSize(true, raised, tableBlocks) == blocks * 4096
         && Covers(blocks, size, groups, bitmapOffset) && LastGroupViable(blocks, tableBlocks)
         && forall b: nat :: Covers(b, size, groups, bitmapOffset) && LastGroupViable(b, tableBlocks) ==> blocks <= b
  {
    RaisedIsEnough(true, size, groups, bitmapOffset);
    var raised := RaisedSize(true, size, groups, bitmapOffset);
    hide RaisedSize, Covers;
    var blocks := FinalBlocks(true, raised, tableBlocks);
    PartialSize(raised, tableBlocks);
    forall b: nat | Covers(b, size, groups, bitmapOffset) && LastGroupViable(b, tableBlocks) ensures blocks <= b {
      PartialLeast(raised, tableBlocks, b);
    }
  }

  lemma PartialSize(raised: nat, tableBlocks: nat)
    requires raised >= 4096 && tableBlocks <= 2048
    ensures var blocks := FinalBlocks(true, raised, tableBlocks);
      && FinalSize(true, raised, tableBlocks) == blocks * 4096
      && raised <= blocks * 4096 && LastGroupViable(blocks, tableBlocks)
  {
    Remainder(DivCeil(raised, 4096), tableBlocks);
  }

  lemma Remainder(blocks: nat, tableBlocks: nat)
    requires tableBlocks <= 2048
    ensures var rem := blocks % 32768;
      && (blocks - rem) % 32768 == 0 && (blocks - rem + tableBlocks + 2) % 32768 == tableBlocks + 2
  {
    assert blocks == blocks / 32768 * 32768 + blocks % 32768;
  }

  lemma PartialLeast(raised: nat, tableBlocks: nat, b: nat)
    requires raised >= 4096 && tableBlocks <= 2048 && b * 4096 >= raised && LastGroupViable(b, tableBlocks)
    ensures FinalBlocks(true, raised, tableBlocks) <= b
  {
    var blocks := DivCeil(raised, 4096);
    assert blocks <= b;
    var rem := blocks % 32768;
    if rem != 0 && rem < tableBlocks + 2 {
      assert blocks == blocks / 32768 * 32768 + rem && b == b / 32768 * 32768 + b % 32768;
    }
  }

  /** Whole groups only: the result is the least such size too, unless the
      request ends less than a block behind a group boundary. */
  lemma WholeGroups(raised: nat, tableBlocks: nat)
    requires raised >= 4096
    ensures var total := TotalGroups(raised);
      && FinalSize(false, raised, tableBlocks) / 4096 == total * 32768
      && FinalBlocks(false, raised, tableBlocks) == total * 32768
      && (FinalSize(false, raised, tableBlocks) == total * 32768 * 4096
          <==> !(raised % 4096 != 0 && raised / 4096 % 32768 == 0))
      && (total - 1) * 32768 * 4096 < raised
  {
    var b := raised / 4096;
    assert (b - 1) / 32768 * 32768 + (b - 1) % 32768 == b - 1;
  }

  /** Does `total_groups`, taken before the size is rounded up, miss the group
      that the rounding starts? */
  predicate GroupMissed(partial: bool, raised: nat) {
    partial && raised % 4096 != 0 && raised / 4096 % 32768 == 0
  }

  /** The number of descriptors equals the number of groups the image has, and
      exactly then. */
  lemma DescriptorsMatch(partial: bool, raised: nat, tableBlocks: nat)
    requires raised >= 4096 && tableBlocks <= 2048
    ensures TotalGroups(raised) == DivCeil(FinalBlocks(partial, raised, tableBlocks), 32768) <==> !GroupMissed(partial, raised)
    ensures GroupMissed(partial, raised) ==>
      TotalGroups(raised) + 1 == DivCeil(FinalBlocks(partial, raised, tableBlocks), 32768)
  {
    if partial {
      PartialGroups(raised, tableBlocks);
    } else {
      assert FinalBlocks(partial, raised, tableBlocks) == TotalGroups(raised) * 32768;
    }
  }

  lemma PartialGroups(raised: nat, tableBlocks: nat)
    requires raised >= 4096 && tableBlocks <= 2048
    ensures TotalGroups(raised) == DivCeil(raised / 4096, 32768)
    ensures DivCeil(FinalBlocks(true, raised, tableBlocks), 32768) == DivCeil(DivCeil(raised, 4096), 32768)
    ensures DivCeil(DivCeil(raised, 4096), 32768)
         == if raised % 4096 != 0 && raised / 4096 % 32768 == 0 then TotalGroups(raised) + 1 else TotalGroups(raised)
  {
    var low, high := raised / 4096, DivCeil(raised, 4096);
    var rem := high % 32768;
    assert high == high / 32768 * 32768 + rem;
    assert high == if raised % 4096 != 0 then low + 1 else low;
    if rem != 0 && rem < tableBlocks + 2 {
      var grown := high - rem + tableBlocks + 2;
      assert DivCeil(grown, 32768) == high / 32768 + 1 == DivCeil(high, 32768);
    }
  }

  /** What the last of `total` groups has. */
  lemma LastGroup(blocks: nat, total: nat)
    requires total > 0 && (total - 1) * 32768 < blocks
    ensures total == DivCeil(blocks, 32768) <==> blocks <= total * 32768
    ensures blocks <= total * 32768 && blocks % 32768 == 0 ==> blocks == total * 32768
    ensures blocks <= total * 32768 && blocks % 32768 != 0 ==> blocks == (total - 1) * 32768 + blocks % 32768
  {
    var rest := blocks - (total - 1) * 32768;
    assert rest > 0 && blocks % 32768 == rest % 32768;
    assert DivCeil(blocks, 32768) == total - 1 + DivCeil(rest, 32768);
  }

  /** No group holding data is without a descriptor. */
  lemma EnoughDescriptors(partial: bool, size: nat, groups: nat, bitmapOffset: nat)
    requires groups > 0 && bitmapOffset > 0
    ensures var raised := RaisedSize(partial, size, groups, bitmapOffset);
      raised >= 4096 && groups <= TotalGroups(raised)
  {
    RaisedIsEnough(partial, size, groups, bitmapOffset);
    var raised := RaisedSize(partial, size, groups, bitmapOffset);
    assert raised / 4096 >= MinimumBlocks(groups);
  }

  // ---- Images too big for 32-bit numbers ----

  /** With so many groups the last size has too many blocks, or its groups too many
      inodes. */
  predicate Overruns(partial: bool, size: nat, blocks: nat, groups: nat, ipg: nat)
    requires Candidate(ipg)
  {
    && groups > 0 && blocks + Tables(groups, ipg) > 0
    && var raised := RaisedSize(partial, size, groups, blocks + Tables(groups, ipg));
       && raised >= 4096
       && (FinalSize(partial, raised, TableBlocks(ipg)) > 0xFFFF_FFFF * 4096 || Slots(TotalGroups(raised), ipg) > 0xFFFF_FFFF)
  }

  /** Exactly when `close` would leave 32 bits, `blocks` being written so far. */
  ghost predicate TooBig(partial: bool, size: nat, blocks: nat, inodes: nat) {
    || blocks > 0xFFFF_0000
    || exists groups, ipg :: Best(blocks, inodes, groups, ipg) && Overruns(partial, size, blocks, groups, ipg)
  }

  lemma FarIsTooBig(partial: bool, size: nat, blocks: nat, inodes: nat)
    requires blocks > 0xFFFF_0000
    ensures TooBig(partial, size, blocks, inodes)
  {
    hide Best, Overruns;
  }

  lemma TooBigIs(partial: bool, size: nat, blocks: nat, inodes: nat, groups: nat, ipg: nat)
    requires Best(blocks, inodes, groups, ipg)
    ensures TooBig(partial, size, blocks, inodes) <==> blocks > 0xFFFF_0000 || Overruns(partial, size, blocks, groups, ipg)
  {
    if exists g, i :: Best(blocks, inodes, g, i) && Overruns(partial, size, blocks, g, i) {
      var g, i :| Best(blocks, inodes, g, i) && Overruns(partial, size, blocks, g, i);
      OneBest(blocks, inodes, groups, ipg, g, i);
    }
    hide Best, Overruns;
  }

  lemma BlockCountOver(size: nat)
    requires size > 0
    ensures BlockCount(size) > 0xFFFF_FFFF <==> size > 0xFFFF_FFFF * 4096
  {
  }
}
