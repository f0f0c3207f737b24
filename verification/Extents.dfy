/** Extent trees (extent.rs): laying a run of blocks out as extents, writing
    the tree in its inline and its indexed form, and parsing it back.
    Layout: "ext4 Data Structures and Algorithms", section "Extent Tree". */
module Extents {
  import opened Basics
  import opened Image
  import opened OnDisk

  const EXTENT_MAGIC: nat := 0xF30A
  const MAX_EXTENT: nat := 0x8000
  /** (4096 - 12 - 4) / 12 leaf entries fit in one index block. */
  const LEAVES_PER_BLOCK: nat := 340
  /** 128 GiB in 4 KiB blocks: MAX_FILE_SIZE. */
  const MAX_FILE_BLOCKS: nat := 0x200_0000

  datatype BlockRange = BlockRange(start: nat, end: nat)

  datatype Leaf = Leaf(block: nat, len: nat, start: nat)

  datatype Index = Index(block: nat, leaf: nat)

  datatype ReadError =
    | CouldNotReadSuperBlock
    | CouldNotReadBlock
    | CouldNotReadInode
    | CouldNotReadGroup
    | InvalidExtents
    | DeepExtentsUnsupported
    | InvalidSuperBlock
    | PathNotFound
    | NotADirectory
    | SymlinkLoop
    | InvalidPath
    | IsDirectory
    | NotAFile

  // ---- Encoding of one header or entry ----

  function EncodeHeader(entries: nat, max: nat, depth: nat): (b: seq<byte>)
    ensures |b| == 12
  {
    LE16(EXTENT_MAGIC) + LE16(entries) + LE16(max) + LE16(depth) + LE32(0)
  }

  function EncodeLeaf(l: Leaf): (b: seq<byte>)
    ensures |b| == 12
  {
    LE32(l.block) + LE16(l.len) + LE16(0) + LE32(l.start)
  }

  function EncodeIndex(x: Index): (b: seq<byte>)
    ensures |b| == 12
  {
    LE32(x.block) + LE32(x.leaf) + LE16(0) + LE16(0)
  }

  // ---- How a run of blocks is cut into extents ----

  function NumExtents(n: nat): nat { DivCeil(n, MAX_EXTENT) }

  /** The `k`-th extent of the run of `n` blocks from `start` on. */
  function LeafAt(start: nat, n: nat, k: nat): Leaf
    requires k < NumExtents(n)
  {
    Leaf(k * MAX_EXTENT, Min(MAX_EXTENT, n - k * MAX_EXTENT), start + k * MAX_EXTENT)
  }

  function Leaves(start: nat, n: nat): (s: seq<Leaf>)
    ensures |s| == NumExtents(n)
  {
    seq(NumExtents(n), k requires 0 <= k < NumExtents(n) => LeafAt(start, n, k))
  }

  /** The physical ranges a reader should see for that run. */
  function Ranges(start: nat, n: nat): seq<BlockRange> {
    RangesOf(Leaves(start, n))
  }

  function RangesOf(ls: seq<Leaf>): (s: seq<BlockRange>)
    ensures |s| == |ls|
  {
    seq(|ls|, k requires 0 <= k < |ls| => BlockRange(ls[k].start, ls[k].start + ls[k].len))
  }

  /** `rs` covers exactly `[start, end)`, in order, without gap or overlap, by
      non-empty pieces of at most 32768 blocks. */
  predicate Tiles(rs: seq<BlockRange>, start: nat, end: nat)
    decreases |rs|
  {
    if rs == [] then start == end
    else rs[0].start == start && start < rs[0].end <= start + MAX_EXTENT && Tiles(rs[1..], rs[0].end, end)
  }

  lemma {:induction false} RangesTileFrom(start: nat, n: nat, k: nat)
    requires k <= NumExtents(n)
    ensures Tiles(Ranges(start, n)[k..], start + Min(k * MAX_EXTENT, n), start + n)
    decreases NumExtents(n) - k
  {
    var rs := Ranges(start, n);
    if k < NumExtents(n) {
      RangesTileFrom(start, n, k + 1);
      assert rs[k..][1..] == rs[k + 1..];
      assert rs[k..][0] == rs[k] == BlockRange(start + k * MAX_EXTENT, start + Min((k + 1) * MAX_EXTENT, n));
    }
  }

  /** The extents of a run tile exactly that run. */
  lemma RangesTile(start: nat, n: nat)
    ensures Tiles(Ranges(start, n), start, start + n)
  {
    RangesTileFrom(start, n, 0);
    assert Ranges(start, n)[0..] == Ranges(start, n);
  }

  /** fill_extent_leaves: the running counters produce exactly `Leaves`. */
  method FillExtentLeaves(start: nat, numBlocks: nat, numExtents: nat) returns (leaves: seq<Leaf>)
    requires numExtents == NumExtents(numBlocks)
    ensures leaves == Leaves(start, numBlocks)
  {
    leaves := [];
    var remaining, phys, logical := numBlocks, start, 0;
    for i := 0 to numExtents
      invariant |leaves| == i
      invariant forall k :: 0 <= k < i ==> leaves[k] == LeafAt(start, numBlocks, k)
      invariant logical == Min(i * MAX_EXTENT, numBlocks)
      invariant phys == start + logical && remaining == numBlocks - logical
    {
      var len := Min(remaining, MAX_EXTENT);
      leaves := leaves + [Leaf(logical, len, phys)];
      phys := phys + len;
      logical := logical + len;
      remaining := remaining - len;
    }
  }

  // ---- The bytes of a tree ----

  /** The entries of `ls`, one after the other. */
  function LeafBytes(ls: seq<Leaf>): (b: seq<byte>)
    ensures |b| == 12 * |ls|
  {
    if ls == [] then [] else LeafBytes(ls[..|ls| - 1]) + EncodeLeaf(ls[|ls| - 1])
  }

  function IndexBytes(xs: seq<Index>): (b: seq<byte>)
    ensures |b| == 12 * |xs|
  {
    if xs == [] then [] else IndexBytes(xs[..|xs| - 1]) + EncodeIndex(xs[|xs| - 1])
  }

  lemma {:induction false} LeafBytesAt(ls: seq<Leaf>, k: nat)
    requires k < |ls|
    ensures LeafBytes(ls)[12 * k..12 * k + 12] == EncodeLeaf(ls[k])
  {
    if k < |ls| - 1 {
      LeafBytesAt(ls[..|ls| - 1], k);
      SliceLeft(LeafBytes(ls[..|ls| - 1]), EncodeLeaf(ls[|ls| - 1]), 12 * k, 12 * k + 12);
    }
  }

  lemma {:induction false} IndexBytesAt(xs: seq<Index>, k: nat)
    requires k < |xs|
    ensures IndexBytes(xs)[12 * k..12 * k + 12] == EncodeIndex(xs[k])
  {
    if k < |xs| - 1 {
      IndexBytesAt(xs[..|xs| - 1], k);
      SliceLeft(IndexBytes(xs[..|xs| - 1]), EncodeIndex(xs[|xs| - 1]), 12 * k, 12 * k + 12);
    }
  }

  /** A tree node: header, entries, zeros up to `size` bytes. */
  function LeafNode(ls: seq<Leaf>, max: nat, size: nat): (b: seq<byte>)
    requires 12 + 12 * |ls| <= size
    ensures |b| == size
  {
    EncodeHeader(|ls|, max, 0) + LeafBytes(ls) + Zeros(size - 12 - 12 * |ls|)
  }

  function IndexNode(xs: seq<Index>): (b: seq<byte>)
    requires |xs| <= 4
    ensures |b| == 60
  {
    EncodeHeader(|xs|, 4, 1) + IndexBytes(xs) + Zeros(48 - 12 * |xs|)
  }

  function NumIndexBlocks(n: nat): nat { DivCeil(NumExtents(n), LEAVES_PER_BLOCK) }

  /** Blocks the tree takes besides the inode: none when it fits inline. */
  function TreeBlocks(n: nat): nat { if NumExtents(n) <= 4 then 0 else NumIndexBlocks(n) }

  lemma TreeIsShallow(n: nat)
    requires n <= MAX_FILE_BLOCKS
    ensures NumExtents(n) <= 1024 && NumIndexBlocks(n) <= 4 && TreeBlocks(n) <= 4
  {
  }

  /** The leaves held by index block `i`. */
  function LeafGroup(start: nat, n: nat, i: nat): (s: seq<Leaf>)
    requires i < NumIndexBlocks(n)
    ensures |s| <= LEAVES_PER_BLOCK
  {
    Leaves(start, n)[i * LEAVES_PER_BLOCK..Min((i + 1) * LEAVES_PER_BLOCK, NumExtents(n))]
  }

  function IndexAt(idx: nat, i: nat): Index { Index(i * LEAVES_PER_BLOCK * MAX_EXTENT, idx + i) }

  function Indices(n: nat, idx: nat): (s: seq<Index>)
    ensures |s| == NumIndexBlocks(n)
  {
    seq(NumIndexBlocks(n), i requires 0 <= i < NumIndexBlocks(n) => IndexAt(idx, i))
  }

  /** The 60-byte root kept in the inode for `n > 0` blocks from `start`, with
      index blocks (if any) from block `idx` on. */
  function Root(start: nat, n: nat, idx: nat): (b: seq<byte>)
    requires 0 < n <= MAX_FILE_BLOCKS
    ensures |b| == 60
  {
    TreeIsShallow(n);
    if NumExtents(n) <= 4 then LeafNode(Leaves(start, n), 4, 60) else IndexNode(Indices(n, idx))
  }

  function LeafBlock(start: nat, n: nat, i: nat): (b: seq<byte>)
    requires i < NumIndexBlocks(n)
    ensures |b| == 4096
  {
    LeafNode(LeafGroup(start, n, i), LEAVES_PER_BLOCK, 4096)
  }

  /** The tree of that run is on disk, wholly below byte `limit`. */
  predicate TreeStored(img: seq<byte>, limit: nat, block: seq<byte>, start: nat, n: nat, idx: nat) {
    && 0 < n <= MAX_FILE_BLOCKS
    && block == Root(start, n, idx)
    && LeafBlocksStored(img, limit, start, n, idx, TreeBlocks(n))
  }

  predicate LeafBlockAt(img: seq<byte>, limit: nat, start: nat, n: nat, idx: nat, i: nat)
    requires i < NumIndexBlocks(n)
  {
    AtBelow(img, limit, (idx + i) * 4096, LeafBlock(start, n, i))
  }

  lemma TreeSurvives(was: seq<byte>, img: seq<byte>, limit: nat, limit': nat, block: seq<byte>, start: nat, n: nat, idx: nat)
    requires SameBelow(was, img, limit) && limit <= limit'
    requires TreeStored(was, limit, block, start, n, idx)
    ensures TreeStored(img, limit', block, start, n, idx)
  {
    forall i | 0 <= i < TreeBlocks(n) ensures LeafBlockAt(img, limit', start, n, idx, i) {
      assert LeafBlockAt(was, limit, start, n, idx, i);
      AtSurvives(was, img, limit, (idx + i) * 4096, LeafBlock(start, n, i));
    }
  }

  // ---- Parsing ----

  /** The physical range of the leaf entry at `off` (parse_depth0, the inner
      loop of parse_depth1). */
  function LeafRange(buf: seq<byte>, off: nat): BlockRange
    requires off + 12 <= |buf|
  {
    var start := Get32(buf, off + 8);
    BlockRange(start, start + Get16(buf, off + 4))
  }

  /** Every leaf entry of a node whose header claims `entries` of them. */
  function AllEntries(buf: seq<byte>, entries: nat): (r: Result<seq<BlockRange>, ReadError>)
    requires 12 <= |buf|
  {
    if 12 + 12 * entries > |buf| then Err(InvalidExtents)
    else Ok(EntryRanges(buf, entries))
  }

  function EntryRanges(buf: seq<byte>, entries: nat): (s: seq<BlockRange>)
    requires 12 + 12 * entries <= |buf|
    ensures |s| == entries
  {
    seq(entries, i requires 0 <= i < entries => LeafRange(buf, 12 + 12 * i))
  }

  /** The ranges found in the index block at physical block `b`. */
  function BlockRanges(img: seq<byte>, b: nat): Result<seq<BlockRange>, ReadError>
  {
    if (b + 1) * 4096 > |img| then Err(CouldNotReadBlock)
    else
      var buf := img[b * 4096..(b + 1) * 4096];
      if Get16(buf, 0) != EXTENT_MAGIC || Get16(buf, 6) != 0 then Err(InvalidExtents)
      else AllEntries(buf, Get16(buf, 2))
  }

  /** The physical block named by index entry `i` of a root node. */
  function ChildBlock(block: seq<byte>, i: nat): nat
    requires 24 + 12 * i <= |block|
  {
    Get32(block, 16 + 12 * i) + 0x1_0000_0000 * Get16(block, 20 + 12 * i)
  }

  /** Index entries `0..count` of the inode's root node, in order. */
  function IndexedRanges(block: seq<byte>, img: seq<byte>, count: nat): Result<seq<BlockRange>, ReadError>
    requires |block| == 60
  {
    if count == 0 then Ok([])
    else
      var before := IndexedRanges(block, img, count - 1);
      if before.Err? then before
      else if 12 + 12 * count > |block| then Err(InvalidExtents)
      else
        var child := BlockRanges(img, ChildBlock(block, count - 1));
        if child.Err? then child else Ok(before.value + child.value)
  }

  /** parse_extents as a function of the inode's block field and the image. */
  function ParseExtents(block: seq<byte>, img: seq<byte>): Result<seq<BlockRange>, ReadError>
    requires |block| == 60
  {
    if Get16(block, 0) != EXTENT_MAGIC then Ok([])
    else if Get16(block, 6) == 0 then AllEntries(block, Get16(block, 2))
    else if Get16(block, 6) == 1 then IndexedRanges(block, img, Get16(block, 2))
    else Err(DeepExtentsUnsupported)
  }

  // ---- Reading back what was written ----

  lemma HeaderReads(b: seq<byte>, entries: nat, max: nat, depth: nat)
    requires 12 <= |b| && b[..12] == EncodeHeader(entries, max, depth)
    requires entries < 0x1_0000 && depth < 0x1_0000
    ensures Get16(b, 0) == EXTENT_MAGIC && Get16(b, 2) == entries && Get16(b, 6) == depth
  {
    var h := EncodeHeader(entries, max, depth);
    assert forall k :: 0 <= k < 12 ==> b[k] == b[..12][k];
    assert h[0..2] == LE16(EXTENT_MAGIC) && h[2..4] == LE16(entries) && h[6..8] == LE16(depth);
    Get16OfLE16(h, 0, EXTENT_MAGIC);
    Get16OfLE16(h, 2, entries);
    Get16OfLE16(h, 6, depth);
  }

  lemma LeafReads(b: seq<byte>, off: nat, l: Leaf)
    requires off + 12 <= |b| && b[off..off + 12] == EncodeLeaf(l)
    requires l.len < 0x1_0000 && l.start < 0x1_0000_0000
    ensures LeafRange(b, off) == BlockRange(l.start, l.start + l.len)
  {
    var e := EncodeLeaf(l);
    assert e[4..6] == LE16(l.len) && e[8..12] == LE32(l.start);
    Get16OfLE16(e, 4, l.len);
    Get32OfLE32(e, 8, l.start);
    GetInSlice(b, off, off + 12, off + 4);
    GetInSlice(b, off, off + 12, off + 8);
  }

  lemma IndexReads(b: seq<byte>, off: nat, x: Index)
    requires off + 12 <= |b| && b[off..off + 12] == EncodeIndex(x)
    requires x.leaf < 0x1_0000_0000
    ensures Get32(b, off + 4) == x.leaf && Get16(b, off + 8) == 0
  {
    var e := EncodeIndex(x);
    assert e[4..8] == LE32(x.leaf) && e[8..10] == LE16(0);
    Get32OfLE32(e, 4, x.leaf);
    Get16OfLE16(e, 8, 0);
    GetInSlice(b, off, off + 12, off + 4);
    GetInSlice(b, off, off + 12, off + 8);
  }

  lemma NodeEntry(head: seq<byte>, mid: seq<byte>, tail: seq<byte>, k: nat, e: seq<byte>)
    requires |head| == 12 && |e| == 12 && 12 * k + 12 <= |mid| && mid[12 * k..12 * k + 12] == e
    ensures (head + mid + tail)[12 + 12 * k..24 + 12 * k] == e
    ensures (head + mid + tail)[..12] == head
  {
    SliceLeft(head + mid, tail, 12 + 12 * k, 24 + 12 * k);
    SliceRight(head, mid, 12 + 12 * k, 24 + 12 * k);
  }

  /** A leaf node reads back as the ranges of its leaves. */
  lemma LeafNodeReads(ls: seq<Leaf>, max: nat, size: nat)
    requires 12 + 12 * |ls| <= size && |ls| < 0x1_0000
    requires forall k :: 0 <= k < |ls| ==> ls[k].len < 0x1_0000 && ls[k].start < 0x1_0000_0000
    ensures var b := LeafNode(ls, max, size);
      && Get16(b, 0) == EXTENT_MAGIC && Get16(b, 2) == |ls| && Get16(b, 6) == 0
      && AllEntries(b, |ls|) == Ok(RangesOf(ls))
  {
    var b := LeafNode(ls, max, size);
    HeaderReads(b, |ls|, max, 0);
    forall k | 0 <= k < |ls| ensures LeafRange(b, 12 + 12 * k) == BlockRange(ls[k].start, ls[k].start + ls[k].len) {
      LeafBytesAt(ls, k);
      NodeEntry(EncodeHeader(|ls|, max, 0), LeafBytes(ls), Zeros(size - 12 - 12 * |ls|), k, EncodeLeaf(ls[k]));
      LeafReads(b, 12 + 12 * k, ls[k]);
    }
    assert EntryRanges(b, |ls|) == RangesOf(ls);
  }

  lemma InlineRoundTrip(img: seq<byte>, start: nat, n: nat)
    requires 0 < n && NumExtents(n) <= 4 && start + n <= 0x1_0000_0000
    ensures ParseExtents(LeafNode(Leaves(start, n), 4, 60), img) == Ok(Ranges(start, n))
  {
    var ls := Leaves(start, n);
    LeafNodeReads(ls, 4, 60);
  }

  lemma IndexBlockReads(img: seq<byte>, limit: nat, start: nat, n: nat, idx: nat, i: nat)
    requires 0 < n <= MAX_FILE_BLOCKS && start + n <= 0x1_0000_0000 && i < NumIndexBlocks(n)
    requires LeafBlockAt(img, limit, start, n, idx, i)
    ensures BlockRanges(img, idx + i)
         == Ok(Ranges(start, n)[i * LEAVES_PER_BLOCK..Min((i + 1) * LEAVES_PER_BLOCK, NumExtents(n))])
  {
    var ls := LeafGroup(start, n, i);
    LeafNodeReads(ls, LEAVES_PER_BLOCK, 4096);
    assert RangesOf(ls) == Ranges(start, n)[i * LEAVES_PER_BLOCK..Min((i + 1) * LEAVES_PER_BLOCK, NumExtents(n))];
  }

  /** Index entry `i` of the root names index block `idx + i`. */
  lemma RootEntry(start: nat, n: nat, idx: nat, i: nat)
    requires 0 < n <= MAX_FILE_BLOCKS && NumExtents(n) > 4 && i < NumIndexBlocks(n)
    requires idx + 4 <= 0x1_0000_0000
    ensures i < 4 && ChildBlock(Root(start, n, idx), i) == idx + i
  {
    TreeIsShallow(n);
    var xs := Indices(n, idx);
    IndexBytesAt(xs, i);
    NodeEntry(EncodeHeader(|xs|, 4, 1), IndexBytes(xs), Zeros(48 - 12 * |xs|), i, EncodeIndex(xs[i]));
    IndexReads(IndexNode(xs), 12 + 12 * i, xs[i]);
  }

  /** The share of `rs` that index block `i` holds. */
  function Share(rs: seq<BlockRange>, i: nat): seq<BlockRange>
    requires i * LEAVES_PER_BLOCK <= |rs|
  {
    rs[i * LEAVES_PER_BLOCK..Min((i + 1) * LEAVES_PER_BLOCK, |rs|)]
  }

  lemma {:induction false} IndexedConcat(block: seq<byte>, img: seq<byte>, rs: seq<BlockRange>, idx: nat, count: nat)
    requires |block| == 60 && count <= 4 && count <= DivCeil(|rs|, LEAVES_PER_BLOCK)
    requires forall i :: 0 <= i < count ==> ChildBlock(block, i) == idx + i && BlockRanges(img, idx + i) == Ok(Share(rs, i))
    ensures IndexedRanges(block, img, count) == Ok(rs[..Min(count * LEAVES_PER_BLOCK, |rs|)])
  {
    hide BlockRanges, ChildBlock, DivCeil;
    if count > 0 {
      IndexedConcat(block, img, rs, idx, count - 1);
      assert ChildBlock(block, count - 1) == idx + count - 1;
      ShareNext(rs, count - 1);
    }
  }

  lemma ShareNext(rs: seq<BlockRange>, i: nat)
    requires i < DivCeil(|rs|, LEAVES_PER_BLOCK)
    ensures i * LEAVES_PER_BLOCK <= |rs|
    ensures rs[..i * LEAVES_PER_BLOCK] + Share(rs, i) == rs[..Min((i + 1) * LEAVES_PER_BLOCK, |rs|)]
  {
  }

  lemma IndexedRoundTrip(img: seq<byte>, limit: nat, start: nat, n: nat, idx: nat)
    requires 0 < n <= MAX_FILE_BLOCKS && TreeStored(img, limit, Root(start, n, idx), start, n, idx)
    requires NumExtents(n) > 4 && start + n <= 0x1_0000_0000 && idx + 4 <= 0x1_0000_0000
    ensures IndexedRanges(Root(start, n, idx), img, NumIndexBlocks(n)) == Ok(Ranges(start, n))
  {
    TreeIsShallow(n);
    var root, rs := Root(start, n, idx), Ranges(start, n);
    forall i | 0 <= i < NumIndexBlocks(n)
      ensures ChildBlock(root, i) == idx + i && BlockRanges(img, idx + i) == Ok(Share(rs, i))
    {
      RootEntry(start, n, idx, i);
      assert LeafBlockAt(img, limit, start, n, idx, i);
      IndexBlockReads(img, limit, start, n, idx, i);
    }
    IndexedConcat(root, img, rs, idx, NumIndexBlocks(n));
    assert rs[..|rs|] == rs;
  }

  /** Extent trees round-trip, in both forms: parsing what was stored for a run
      of blocks yields exactly the extents of that run. */
  lemma ExtentRoundTrip(img: seq<byte>, limit: nat, block: seq<byte>, start: nat, n: nat, idx: nat)
    requires TreeStored(img, limit, block, start, n, idx)
    requires start + n <= 0x1_0000_0000 && idx + 4 <= 0x1_0000_0000
    ensures ParseExtents(block, img) == Ok(Ranges(start, n))
    ensures Tiles(Ranges(start, n), start, start + n)
  {
    RangesTile(start, n);
    if NumExtents(n) <= 4 {
      InlineRoundTrip(img, start, n);
    } else {
      var xs := Indices(n, idx);
      TreeIsShallow(n);
      assert block[..12] == EncodeHeader(|xs|, 4, 1);
      HeaderReads(block, |xs|, 4, 1);
      IndexedRoundTrip(img, limit, start, n, idx);
    }
  }

  // ---- The writer ----

  /** Header and leaf entries put one after the other into a zeroed buffer. */
  method BuildLeafNode(ls: seq<Leaf>, max: nat, size: nat) returns (buf: array<byte>)
    requires 12 + 12 * |ls| <= size
    ensures fresh(buf) && buf[..] == LeafNode(ls, max, size)
  {
    buf := new byte[size](i => 0);
    var header := EncodeHeader(|ls|, max, 0);
    assert buf[..] == [] + Zeros(size);
    PutNext(buf, [], 0, header);
    ghost var done := header;
    assert LeafBytes(ls[..0]) == [] && header + [] == header;
    for i := 0 to |ls|
      invariant done == header + LeafBytes(ls[..i])
      invariant buf[..] == done + Zeros(size - 12 - 12 * i)
    {
      PutNext(buf, done, 12 + 12 * i, EncodeLeaf(ls[i]));
      done := done + EncodeLeaf(ls[i]);
      LeafBytesGrow(header, ls, i);
    }
    assert ls[..|ls|] == ls;
  }

  lemma LeafBytesGrow(header: seq<byte>, ls: seq<Leaf>, i: nat)
    requires i < |ls|
    ensures header + LeafBytes(ls[..i]) + EncodeLeaf(ls[i]) == header + LeafBytes(ls[..i + 1])
  {
    assert ls[..i + 1][..i] == ls[..i];
  }

  method BuildIndexNode(xs: seq<Index>) returns (buf: array<byte>)
    requires |xs| <= 4
    ensures fresh(buf) && buf[..] == IndexNode(xs)
  {
    buf := new byte[60](i => 0);
    var header := EncodeHeader(|xs|, 4, 1);
    assert buf[..] == [] + Zeros(60);
    PutNext(buf, [], 0, header);
    ghost var done := header;
    assert IndexBytes(xs[..0]) == [] && header + [] == header;
    for i := 0 to |xs|
      invariant done == header + IndexBytes(xs[..i])
      invariant buf[..] == done + Zeros(48 - 12 * i)
    {
      PutNext(buf, done, 12 + 12 * i, EncodeIndex(xs[i]));
      done := done + EncodeIndex(xs[i]);
      IndexBytesGrow(header, xs, i);
    }
    assert xs[..|xs|] == xs;
  }

  lemma IndexBytesGrow(header: seq<byte>, xs: seq<Index>, i: nat)
    requires i < |xs|
    ensures header + IndexBytes(xs[..i]) + EncodeIndex(xs[i]) == header + IndexBytes(xs[..i + 1])
  {
    assert xs[..i + 1][..i] == xs[..i];
  }

  /** The two index-building loops of write_indexed_extents, up to the point
      where the inode's block field is assigned. */
  method BuildIndices(leaves: seq<Leaf>, start: nat, n: nat, idx: nat) returns (xs: seq<Index>)
    requires leaves == Leaves(start, n)
    ensures xs == Indices(n, idx)
  {
    xs := [];
    for i := 0 to NumIndexBlocks(n)
      invariant |xs| == i && forall k :: 0 <= k < i ==> xs[k] == IndexAt(idx, k)
    {
      var first := i * LEAVES_PER_BLOCK;
      xs := xs + [Index(leaves[first].block, idx + i)];
    }
  }

  /** Leaf blocks `0..count` are on disk, below byte `limit`. */
  predicate LeafBlocksStored(img: seq<byte>, limit: nat, start: nat, n: nat, idx: nat, count: nat)
    requires count <= NumIndexBlocks(n)
  {
    forall i :: 0 <= i < count ==> LeafBlockAt(img, limit, start, n, idx, i)
  }

  /** The loop of write_indexed_extents that writes the leaf blocks. */
  method WriteLeafBlocks(file: ImageFile, leaves: seq<Leaf>, ghost start: nat, n: nat, idx: nat) returns (current: nat)
    requires n > 0 && leaves == Leaves(start, n)
    modifies file
    ensures current == idx + NumIndexBlocks(n)
    ensures SameBelow(old(file.bytes), file.bytes, idx * 4096)
    ensures LeafBlocksStored(file.bytes, current * 4096, start, n, idx, NumIndexBlocks(n))
    ensures file.pos == current * 4096
  {
    current := idx;
    file.Seek(current * 4096);
    hide *;
    NoLeafBlocks(file.bytes, start, n, idx);
    for i := 0 to NumIndexBlocks(n)
      invariant current == idx + i
      invariant SameBelow(old(file.bytes), file.bytes, idx * 4096)
      invariant LeafBlocksStored(file.bytes, current * 4096, start, n, idx, i)
      invariant file.pos == current * 4096
    {
      ghost var was := file.bytes;
      current := WriteLeafBlock(file, leaves, start, n, idx, i);
      SameBelowTrans(old(file.bytes), was, file.bytes, idx * 4096, (idx + i) * 4096);
    }
  }

  lemma NoLeafBlocks(img: seq<byte>, start: nat, n: nat, idx: nat)
    ensures LeafBlocksStored(img, idx * 4096, start, n, idx, 0)
    ensures SameBelow(img, img, idx * 4096)
  {
  }

  /** One round of that loop. */
  method WriteLeafBlock(file: ImageFile, leaves: seq<Leaf>, ghost start: nat, ghost n: nat, ghost idx: nat, i: nat)
    returns (current: nat)
    requires leaves == Leaves(start, n) && i < NumIndexBlocks(n)
    requires file.pos == (idx + i) * 4096
    requires LeafBlocksStored(file.bytes, file.pos, start, n, idx, i)
    modifies file
    ensures current == idx + i + 1 && file.pos == current * 4096
    ensures SameBelow(old(file.bytes), file.bytes, (idx + i) * 4096)
    ensures LeafBlocksStored(file.bytes, current * 4096, start, n, idx, i + 1)
  {
    LeafGroupIs(start, n, i);
    hide *;
    var group := leaves[i * LEAVES_PER_BLOCK..Min((i + 1) * LEAVES_PER_BLOCK, |leaves|)];
    var buf := BuildLeafNode(group, LEAVES_PER_BLOCK, 4096);
    file.Seek(file.pos);
    file.WriteAll(buf[..]);
    current := file.pos / 4096;
    LeafBlockWritten(old(file.bytes), file.bytes, buf[..], start, n, idx, i);
  }

  lemma LeafGroupIs(start: nat, n: nat, i: nat)
    requires i < NumIndexBlocks(n)
    ensures i * LEAVES_PER_BLOCK <= Min((i + 1) * LEAVES_PER_BLOCK, |Leaves(start, n)|) <= |Leaves(start, n)|
    ensures LeafGroup(start, n, i) == Leaves(start, n)[i * LEAVES_PER_BLOCK..Min((i + 1) * LEAVES_PER_BLOCK, |Leaves(start, n)|)]
    ensures LeafBlock(start, n, i) == LeafNode(LeafGroup(start, n, i), LEAVES_PER_BLOCK, 4096)
    ensures |LeafBlock(start, n, i)| == 4096
  {
  }

  /** Writing leaf block `i` right after its predecessors keeps them. */
  lemma LeafBlockWritten(was: seq<byte>, img: seq<byte>, b: seq<byte>, start: nat, n: nat, idx: nat, i: nat)
    requires i < NumIndexBlocks(n)
    requires b == LeafBlock(start, n, i) && img == WriteAt(was, (idx + i) * 4096, b)
    requires LeafBlocksStored(was, (idx + i) * 4096, start, n, idx, i)
    ensures SameBelow(was, img, (idx + i) * 4096)
    ensures LeafBlocksStored(img, (idx + i + 1) * 4096, start, n, idx, i + 1)
  {
    var low, high := (idx + i) * 4096, (idx + i + 1) * 4096;
    WriteAbove(was, low, b, low);
    WriteReadsBack(was, low, b);
    forall k | 0 <= k < i ensures LeafBlockAt(img, high, start, n, idx, k) {
      assert LeafBlockAt(was, low, start, n, idx, k);
      AtSurvives(was, img, low, (idx + k) * 4096, LeafBlock(start, n, k));
    }
  }

  /** `flags & f != 0` and `flags |= f` for a single-bit `f`. */
  predicate HasFlag(flags: nat, f: nat)
    requires f > 0
  {
    flags / f % 2 == 1
  }

  function WithFlag(flags: nat, f: nat): nat
    requires f > 0
  {
    if HasFlag(flags, f) then flags else flags + f
  }

  /** What an inode is charged for `n` blocks: file-system blocks when
      HUGE_FILE is set, 512-byte sectors otherwise. */
  function Charge(flags: nat, n: nat): nat {
    if HasFlag(flags, HUGE_FILE) then n else n * 8 % 0x1_0000_0000
  }

  /** The inode after an extent tree for `n > 0` blocks is recorded in it:
      i_blocks is raised by data plus index blocks. */
  function WithTree(inode: Inode, start: nat, n: nat, idx: nat): Inode
    requires 0 < n <= MAX_FILE_BLOCKS
  {
    inode.(block := Root(start, n, idx),
           blocksLo := inode.blocksLo + Charge(inode.flags, n + TreeBlocks(n)),
           flags := WithFlag(inode.flags, EXTENTS))
  }

  method WriteIndexedExtents(inode: Inode, start: nat, dataBlocks: nat, numExtents: nat, file: ImageFile, currentBlock: nat)
    returns (inode': Inode, current': nat)
    requires 0 < dataBlocks <= MAX_FILE_BLOCKS && numExtents == NumExtents(dataBlocks) > 4
    modifies file
    ensures inode' == WithTree(inode, start, dataBlocks, currentBlock)
    ensures TreeStored(file.bytes, current' * 4096, inode'.block, start, dataBlocks, currentBlock)
    ensures current' == currentBlock + TreeBlocks(dataBlocks)
    ensures SameBelow(old(file.bytes), file.bytes, currentBlock * 4096)
    ensures file.pos == current' * 4096
  {
    TreeIsShallow(dataBlocks);
    var leaves := FillExtentLeaves(start, dataBlocks, numExtents);
    var xs := BuildIndices(leaves, start, dataBlocks, currentBlock);
    var buf := BuildIndexNode(xs);
    inode' := inode.(block := buf[..]);
    current' := WriteLeafBlocks(file, leaves, start, dataBlocks, currentBlock);
    var total := dataBlocks + NumIndexBlocks(dataBlocks);
    inode' := inode'.(blocksLo := inode'.blocksLo + Charge(inode'.flags, total), flags := WithFlag(inode'.flags, EXTENTS));
  }

  /** write_extents. Either form leaves the tree of `[start, end)` on disk,
      touches nothing below the cursor, and charges the inode for every block. */
  method WriteExtents(inode: Inode, blocks: BlockRange, file: ImageFile, currentBlock: nat)
    returns (inode': Inode, current': nat)
    requires blocks.start <= blocks.end && blocks.end - blocks.start <= MAX_FILE_BLOCKS
    requires file.pos == currentBlock * 4096
    modifies file
    ensures blocks.start == blocks.end ==>
      inode' == inode && current' == currentBlock && file.bytes == old(file.bytes) && file.pos == old(file.pos)
    ensures blocks.start < blocks.end ==>
      var n := blocks.end - blocks.start;
      && inode' == WithTree(inode, blocks.start, n, currentBlock)
      && current' == currentBlock + TreeBlocks(n)
      && TreeStored(file.bytes, current' * 4096, inode'.block, blocks.start, n, currentBlock)
    ensures SameBelow(old(file.bytes), file.bytes, currentBlock * 4096)
    ensures file.pos == current' * 4096
  {
    inode', current' := inode, currentBlock;
    var dataBlocks := blocks.end - blocks.start;
    if dataBlocks == 0 {
      return;
    }
    var numExtents := DivCeil(dataBlocks, MAX_EXTENT);
    if numExtents <= 4 {
      var leaves := FillExtentLeaves(blocks.start, dataBlocks, numExtents);
      var buf := BuildLeafNode(leaves, 4, 60);
      inode' := inode.(block := buf[..],
                       blocksLo := inode.blocksLo + Charge(inode.flags, dataBlocks),
                       flags := WithFlag(inode.flags, EXTENTS));
    } else {
      inode', current' := WriteIndexedExtents(inode, blocks.start, dataBlocks, numExtents, file, currentBlock);
    }
  }

  // ---- The parser ----

  /** parse_depth0, and the inner loop of parse_depth1: entries are read one by
      one, and an entry that would leave the buffer is an error. */
  method ParseEntries(buf: seq<byte>, entries: nat) returns (r: Result<seq<BlockRange>, ReadError>)
    requires 12 <= |buf|
    ensures r == AllEntries(buf, entries)
  {
    var ranges := [];
    for i := 0 to entries
      invariant 12 + 12 * i <= |buf|
      invariant |ranges| == i && forall k :: 0 <= k < i ==> ranges[k] == LeafRange(buf, 12 + 12 * k)
    {
      var off := 12 + 12 * i;
      if off + 12 > |buf| {
        return Err(InvalidExtents);
      }
      ranges := ranges + [LeafRange(buf, off)];
    }
    assert ranges == EntryRanges(buf, entries);
    r := Ok(ranges);
  }

  method ParseIndexBlock(file: ImageFile, physical: nat) returns (r: Result<seq<BlockRange>, ReadError>)
    ensures r == BlockRanges(file.bytes, physical)
  {
    if (physical + 1) * 4096 > |file.bytes| {
      return Err(CouldNotReadBlock);
    }
    var buf := file.bytes[physical * 4096..(physical + 1) * 4096];
    if Get16(buf, 0) != EXTENT_MAGIC || Get16(buf, 6) != 0 {
      return Err(InvalidExtents);
    }
    r := ParseEntries(buf, Get16(buf, 2));
  }

  /** parse_depth1. */
  method ParseIndices(block: seq<byte>, entries: nat, file: ImageFile) returns (r: Result<seq<BlockRange>, ReadError>)
    requires |block| == 60
    ensures r == IndexedRanges(block, file.bytes, entries)
  {
    var ranges := [];
    for i := 0 to entries
      invariant IndexedRanges(block, file.bytes, i) == Ok(ranges)
    {
      if 12 + 12 * i + 12 > |block| {
        IndexedErr(block, file.bytes, i + 1, entries);
        return Err(InvalidExtents);
      }
      var child := ParseIndexBlock(file, ChildBlock(block, i));
      if child.Err? {
        IndexedErr(block, file.bytes, i + 1, entries);
        return child;
      }
      ranges := ranges + child.value;
    }
    r := Ok(ranges);
  }

  /** The first error met is the one reported. */
  lemma {:induction false} IndexedErr(block: seq<byte>, img: seq<byte>, i: nat, count: nat)
    requires |block| == 60 && i <= count && IndexedRanges(block, img, i).Err?
    ensures IndexedRanges(block, img, count) == IndexedRanges(block, img, i)
    decreases count - i
  {
    if i < count {
      assert IndexedRanges(block, img, i + 1) == IndexedRanges(block, img, i);
      IndexedErr(block, img, i + 1, count);
    }
  }

  /** parse_extents: a method over the file that computes `ParseExtents`. */
  method Parse(block: seq<byte>, file: ImageFile) returns (r: Result<seq<BlockRange>, ReadError>)
    requires |block| == 60
    ensures r == ParseExtents(block, file.bytes)
  {
    if Get16(block, 0) != EXTENT_MAGIC {
      return Ok([]);
    }
    match Get16(block, 6)
    case 0 => r := ParseEntries(block, Get16(block, 2));
    case 1 => r := ParseIndices(block, Get16(block, 2), file);
    case _ => r := Err(DeepExtentsUnsupported);
  }
}
