/** How `create` puts the bytes of a file or a long symlink into the image:
    data from the next block boundary on, then the extent tree. */
module Writing {
  import opened Basics
  import opened Image
  import opened OnDisk
  import opened Extents
  import opened Contents

  /** Bytes arrive in pieces of any size up to a block, as the reader hands them
      out; a file over 128 GiB is refused as soon as it is seen to be. */
  method CopyData(file: ImageFile, d: seq<byte>) returns (size: nat)
    modifies file
    ensures size <= |d| || |d| > MAX_FILE_BLOCKS * 4096
    ensures |d| <= MAX_FILE_BLOCKS * 4096 ==>
      size == |d| && file.pos == old(file.pos) + |d| && (d != [] ==> AtBelow(file.bytes, file.pos, old(file.pos), d))
    ensures |d| > MAX_FILE_BLOCKS * 4096 ==> size > MAX_FILE_BLOCKS * 4096 && file.pos >= old(file.pos)
    ensures SameBelow(old(file.bytes), file.bytes, old(file.pos))
  {
    hide *;
    size := 0;
    ghost var img, from := file.bytes, file.pos;
    NothingCopied(img, from, d);
    while size < |d|
      invariant size <= |d| && size <= MAX_FILE_BLOCKS * 4096
      invariant file.pos == from + size
      invariant Copied(img, file.bytes, from, d, size)
    {
      var n :| 1 <= n <= 4096 && n <= |d| - size;
      if size + n > MAX_FILE_BLOCKS * 4096 {
        CopiedParts(img, file.bytes, from, d, size);
        size := size + n;
        return;
      }
      ghost var was := file.bytes;
      file.WriteAll(d[size..size + n]);
      CopiedMore(img, was, file.bytes, from, d, size, n);
      size := size + n;
    }
    CopiedParts(img, file.bytes, from, d, size);
  }

  /** The first `n` bytes of `d` are in the image from `start` on, and what was below
      is as it was. */
  predicate Copied(was: seq<byte>, img: seq<byte>, start: nat, d: seq<byte>, n: nat) {
    n <= |d| && (At(img, start, d[..n]) || n == 0) && SameBelow(was, img, start)
  }

  lemma NothingCopied(img: seq<byte>, start: nat, d: seq<byte>)
    ensures Copied(img, img, start, d, 0)
  {
  }

  lemma CopiedMore(first: seq<byte>, was: seq<byte>, img: seq<byte>, start: nat, d: seq<byte>, size: nat, n: nat)
    requires Copied(first, was, start, d, size) && size + n <= |d|
    requires img == WriteAt(was, start + size, d[size..size + n])
    ensures Copied(first, img, start, d, size + n)
  {
    hide At, SameBelow, WriteAt;
    PieceWritten(was, img, start, d, size, n);
    SameBelowTrans(first, was, img, start, start + size);
  }

  lemma CopiedParts(was: seq<byte>, img: seq<byte>, start: nat, d: seq<byte>, n: nat)
    requires Copied(was, img, start, d, n)
    ensures SameBelow(was, img, start) && (n == |d| && d != [] ==> AtBelow(img, start + |d|, start, d))
  {
    assert d[..|d|] == d;
    hide At, SameBelow;
  }

  lemma PieceWritten(was: seq<byte>, img: seq<byte>, start: nat, d: seq<byte>, size: nat, n: nat)
    requires size + n <= |d| && (At(was, start, d[..size]) || size == 0)
    requires img == WriteAt(was, start + size, d[size..size + n])
    ensures At(img, start, d[..size + n])
    ensures SameBelow(was, img, start + size)
  {
    hide WriteAt;
    WriteReadsBack(was, start + size, d[size..size + n]);
    WriteAbove(was, start + size, d[size..size + n], start + size);
    assert d[..size + n] == d[..size] + d[size..size + n];
    if size == 0 {
      assert d[..size] == [];
      assert At(img, start, []);
    } else {
      WriteElsewhere(was, start + size, d[size..size + n], start, d[..size]);
    }
    AtJoin(img, start, d[..size], d[size..size + n]);
  }

  /** What a stored run of bytes must satisfy where it was just written. */
  predicate JustStored(img: seq<byte>, was: seq<byte>, pos: nat, pos': nat, block: seq<byte>, d: seq<byte>, blocks: Option<BlockRange>) {
    && DataStored(img, pos', block, d, if blocks.Some? then [blocks.value] else [])
    && SameBelow(was, img, pos) && pos <= pos'
    && (blocks.Some? ==>
        && pos <= blocks.value.start * 4096 && blocks.value.start < blocks.value.end
        && Reach(blocks.value) * 4096 <= pos')
  }

  /** The end of both branches of `create` that write data: align, note the
      range, write the extent tree. `inode` carries flags and the empty block
      field of a new inode. */
  method FinishData(file: ImageFile, inode: Inode, ghost d: seq<byte>, start: nat, ghost was: seq<byte>, ghost pos: nat)
    returns (inode': Inode, blocks: Option<BlockRange>)
    requires inode.block == Zeros(60) && inode.blocksLo == 0 && |d| <= MAX_FILE_BLOCKS * 4096
    requires file.pos == start * 4096 + |d| && pos <= start * 4096
    requires SameBelow(was, file.bytes, pos)
    requires d != [] ==> AtBelow(file.bytes, file.pos, start * 4096, d)
    modifies file
    ensures JustStored(file.bytes, was, pos, file.pos, inode'.block, d, blocks)
    ensures inode' == inode.(block := inode'.block, flags := inode'.flags, blocksLo := BlocksCharged(inode.flags, |d|))
    ensures inode'.flags == inode.flags || inode'.flags == WithFlag(inode.flags, EXTENTS)
    ensures start * 4096 <= file.pos && file.pos % 4096 == 0
    ensures file.pos == (start + DataBlocks(|d|)) * 4096
  {
    hide *;
    file.AlignToBlock();
    var end := file.pos / 4096;
    RoundUp(start, |d|, file.pos);
    BlocksSpent(start, |d|, end);
    ghost var before := file.bytes;
    var current: nat;
    inode', current := WriteExtents(inode, BlockRange(start, end), file, end);
    blocks := if start != end then Some(BlockRange(start, end)) else None;
    if d != [] {
      TreeRecorded(inode, start, |d|, end);
      StoredNow(was, before, file.bytes, pos, file.pos, start, end - start, inode'.block, d);
    } else {
      NothingStored(was, file.bytes, pos, file.pos, d, inode);
    }
  }

  /** The fields a recorded extent tree leaves in the inode. */
  lemma TreeRecorded(inode: Inode, start: nat, bytes: nat, idx: nat)
    requires 0 < bytes <= MAX_FILE_BLOCKS * 4096 && inode.blocksLo == 0
    ensures 0 < BlocksFor(bytes) <= MAX_FILE_BLOCKS
    ensures var i := WithTree(inode, start, BlocksFor(bytes), idx);
      && i == inode.(block := i.block, flags := WithFlag(inode.flags, EXTENTS), blocksLo := BlocksCharged(inode.flags, bytes))
  {
  }

  lemma NothingStored(was: seq<byte>, img: seq<byte>, pos: nat, pos': nat, d: seq<byte>, inode: Inode)
    requires d == [] && SameBelow(was, img, pos) && pos <= pos'
    ensures JustStored(img, was, pos, pos', Zeros(60), d, None)
    ensures BlocksCharged(inode.flags, |d|) == 0
  {
  }

  lemma DataNow(before: seq<byte>, img: seq<byte>, pos': nat, start: nat, n: nat, block: seq<byte>, d: seq<byte>)
    requires d != [] && n == BlocksFor(|d|)
    requires AtBelow(before, start * 4096 + |d|, start * 4096, d) && SameBelow(before, img, (start + n) * 4096)
    requires TreeStored(img, pos', block, start, n, start + n) && (start + n) * 4096 <= pos'
    ensures DataStored(img, pos', block, d, [BlockRange(start, start + n)])
  {
    var end := (start + n) * 4096;
    assert start * 4096 + |d| <= end;
    hide TreeStored, SameBelow, BlocksFor, DivCeil;
    AtLimit(before, start * 4096 + |d|, end, start * 4096, d);
    AtSurvives(before, img, end, start * 4096, d);
    AtLimit(img, end, pos', start * 4096, d);
  }

  lemma StoredNow(was: seq<byte>, before: seq<byte>, img: seq<byte>, pos: nat, pos': nat, start: nat, n: nat, block: seq<byte>, d: seq<byte>)
    requires d != [] && n == BlocksFor(|d|) && pos <= start * 4096 && SameBelow(was, before, pos)
    requires AtBelow(before, start * 4096 + |d|, start * 4096, d) && SameBelow(before, img, (start + n) * 4096)
    requires TreeStored(img, pos', block, start, n, start + n) && pos' == (start + n + TreeBlocks(n)) * 4096
    ensures JustStored(img, was, pos, pos', block, d, Some(BlockRange(start, start + n)))
  {
    assert n > 0;
    hide TreeStored, SameBelow, BlocksFor, DataStored, AtBelow, TreeBlocks, At;
    SameBelowTrans(was, before, img, pos, (start + n) * 4096);
    DataNow(before, img, pos', start, n, block, d);
  }

  lemma RoundUp(start: nat, n: nat, pos: nat)
    requires pos == DivCeil(start * 4096 + n, 4096) * 4096
    ensures pos / 4096 == start + BlocksFor(n) && pos % 4096 == 0
    ensures n <= MAX_FILE_BLOCKS * 4096 ==> BlocksFor(n) <= MAX_FILE_BLOCKS
    ensures BlocksFor(n) == 0 <==> n == 0
    ensures start * 4096 + n <= pos
  {
  }

  lemma BlocksSpent(start: nat, n: nat, end: nat)
    requires end == start + BlocksFor(n)
    ensures DataBlocks(n) == BlocksFor(n) + TreeBlocks(end - start) && (end == start ==> DataBlocks(n) == 0)
  {
  }

  lemma AtLimit(img: seq<byte>, limit: nat, limit': nat, off: nat, b: seq<byte>)
    requires AtBelow(img, limit, off, b) && limit <= limit'
    ensures AtBelow(img, limit', off, b)
  {
  }
}
