/** Reading file contents (reader_io.rs): a window of a file, put together from
    its extents by reads that may come back short. */
module FileRead {
  import opened Basics
  import opened Image
  import opened OnDisk
  import opened Extents
  import opened Contents
  import opened Reading
  import opened Volumes
  import opened ImageReader

  // ---- The bytes of a list of extents ----

  /** `n` bytes of the image from `off` on; what lies past its end reads as 0. */
  function Window(img: seq<byte>, off: nat, n: nat): (s: seq<byte>)
    ensures |s| == n && forall i :: 0 <= i < n ==> s[i] == if off + i < |img| then img[off + i] else 0
  {
    seq(n, i requires 0 <= i < n => if off + i < |img| then img[off + i] else 0)
  }

  function Length(r: BlockRange): nat {
    if r.start <= r.end then (r.end - r.start) * 4096 else 0
  }

  /** The extents one after the other. */
  function Joined(img: seq<byte>, rs: seq<BlockRange>): seq<byte> {
    if rs == [] then []
    else Joined(img, rs[..|rs| - 1]) + Window(img, rs[|rs| - 1].start * 4096, Length(rs[|rs| - 1]))
  }

  /** `count` bytes of `s` from `start` on, as far as there are any. */
  function Clip(s: seq<byte>, start: nat, count: nat): seq<byte> {
    s[Min(start, |s|)..Min(start + count, |s|)]
  }

  /** Where extent `k` begins in the file. */
  function Logical(rs: seq<BlockRange>, k: nat): nat
    requires k <= |rs|
  {
    if k == 0 then 0 else Logical(rs, k - 1) + Length(rs[k - 1])
  }

  /** Of extent `k`, the part among the file's first `upto` bytes is in the image. */
  predicate InsideAt(img: seq<byte>, rs: seq<BlockRange>, upto: nat, k: nat)
    requires k < |rs|
  {
    Logical(rs, k) < upto ==> rs[k].start * 4096 + Min(Length(rs[k]), upto - Logical(rs, k)) <= |img|
  }

  predicate Inside(img: seq<byte>, rs: seq<BlockRange>, upto: nat) {
    forall k :: 0 <= k < |rs| ==> InsideAt(img, rs, upto, k)
  }

  lemma {:induction false} JoinedLength(img: seq<byte>, rs: seq<BlockRange>, k: nat)
    requires k <= |rs|
    ensures |Joined(img, rs[..k])| == Logical(rs, k)
  {
    if k > 0 {
      JoinedLength(img, rs, k - 1);
      assert rs[..k][..k - 1] == rs[..k - 1];
    }
  }

  lemma JoinedNext(img: seq<byte>, rs: seq<BlockRange>, k: nat)
    requires k < |rs|
    ensures Joined(img, rs[..k + 1]) == Joined(img, rs[..k]) + Window(img, rs[k].start * 4096, Length(rs[k]))
  {
    assert rs[..k + 1][..k] == rs[..k];
  }

  /** How the window grows by one extent. */
  lemma ClipNext(s: seq<byte>, t: seq<byte>, start: nat, count: nat)
    ensures start + count <= |s| ==> Clip(s + t, start, count) == Clip(s, start, count)
    ensures |s| + |t| <= start ==> Clip(s + t, start, count) == Clip(s, start, count) == []
    ensures start < |s| + |t| && |s| < start + count ==>
      var lo, hi := Max(start, |s|), Min(start + count, |s| + |t|);
      lo <= hi && Clip(s + t, start, count) == Clip(s, start, count) + t[lo - |s|..hi - |s|]
  {
    var u := s + t;
    if start + count <= |s| {
      SliceLeft(s, t, start, start + count);
    } else if start < |s| + |t| {
      var lo, hi := Max(start, |s|), Min(start + count, |s| + |t|);
      SliceRight(s, t, lo, hi);
      assert u[Min(start, |u|)..hi] == u[Min(start, |u|)..lo] + u[lo..hi];
      if start < |s| {
        SliceLeft(s, t, start, |s|);
      }
    }
  }

  /** Up to `n` bytes from `off`: as many as the file has. */
  function Available(img: seq<byte>, off: nat, n: nat): seq<byte> {
    img[Min(off, |img|)..Min(off + n, |img|)]
  }

  /** `n` bytes from `off`, read in pieces of at most 1 MiB, each of which may
      come back short; only at the end of the file does a read yield nothing. */
  method ReadFully(file: ImageFile, off: nat, n: nat) returns (out: seq<byte>)
    ensures out == Available(file.bytes, off, n)
  {
    out := [];
    var remaining := n;
    while remaining > 0
      invariant |out| + remaining == n && remaining >= 0
      invariant out == Available(file.bytes, off, |out|)
    {
      var chunk := Min(remaining, 0x10_0000);
      var at := off + |out|;
      if at >= |file.bytes| {
        return;
      }
      var got :| 1 <= got <= chunk && at + got <= |file.bytes|;
      var piece := file.bytes[at..at + got];
      assert file.bytes[off..at + got] == file.bytes[off..at] + piece;
      out := out + piece;
      remaining := remaining - got;
    }
  }

  /** What an extent that begins at `logical` in the file adds to the window. */
  function Overlap(img: seq<byte>, r: BlockRange, logical: nat, start: nat, count: nat): seq<byte> {
    var end := logical + Length(r);
    if end <= start || logical >= start + count then []
    else
      var lo, hi := Max(start, logical), Min(start + count, end);
      OverlapFits(start, logical, start + count, end);
      Available(img, r.start * 4096 + (lo - logical), hi - lo)
  }

  /** What the first `k` extents add. */
  function Pieces(img: seq<byte>, rs: seq<BlockRange>, k: nat, start: nat, count: nat): seq<byte>
    requires k <= |rs|
  {
    if k == 0 then []
    else Pieces(img, rs, k - 1, start, count) + Overlap(img, rs[k - 1], Logical(rs, k - 1), start, count)
  }

  lemma {:induction false} PiecesDone(img: seq<byte>, rs: seq<BlockRange>, k: nat, n: nat, start: nat, count: nat)
    requires k <= n <= |rs| && start + count <= Logical(rs, k)
    ensures Pieces(img, rs, n, start, count) == Pieces(img, rs, k, start, count) && Logical(rs, n) >= start + count
    decreases n
  {
    if k < n {
      PiecesDone(img, rs, k, n - 1, start, count);
      LogicalNext(rs, n - 1);
    }
  }

  /** The loop of read_from_extents. */
  method ReadWindow(file: ImageFile, extents: seq<BlockRange>, start: nat, count: nat) returns (out: seq<byte>)
    ensures out == Pieces(file.bytes, extents, |extents|, start, count)
  {
    out := [];
    var reqEnd, logicalOffset := start + count, 0;
    hide Logical, Length, Available, Pieces;
    NothingYet(file.bytes, extents, start, count);
    for k := 0 to |extents|
      invariant logicalOffset == Logical(extents, k)
      invariant out == Pieces(file.bytes, extents, k, start, count)
    {
      var range := extents[k];
      var logicalEnd := logicalOffset + Length(range);
      LogicalNext(extents, k);
      PiecesNext(file.bytes, extents, k, start, count);
      if logicalOffset >= reqEnd {
        PiecesDone(file.bytes, extents, k, |extents|, start, count);
        return;
      }
      if logicalEnd > start {
        OverlapFits(start, logicalOffset, reqEnd, logicalEnd);
        var overlapStart, overlapEnd := Max(start, logicalOffset), Min(reqEnd, logicalEnd);
        var piece := ReadFully(file, range.start * 4096 + (overlapStart - logicalOffset), overlapEnd - overlapStart);
        out := out + piece;
      }
      logicalOffset := logicalEnd;
    }
  }

  lemma PiecesNext(img: seq<byte>, rs: seq<BlockRange>, k: nat, start: nat, count: nat)
    requires k < |rs|
    ensures Pieces(img, rs, k + 1, start, count)
         == Pieces(img, rs, k, start, count) + Overlap(img, rs[k], Logical(rs, k), start, count)
  {
  }

  lemma OverlapIsWindow(img: seq<byte>, rs: seq<BlockRange>, k: nat, start: nat, count: nat)
    requires k < |rs| && Inside(img, rs, start + count)
    ensures var lo := Logical(rs, k); var hi := lo + Length(rs[k]);
      && (hi <= start || start + count <= lo ==> Overlap(img, rs[k], lo, start, count) == [])
      && (start < hi && lo < start + count ==>
            && lo <= Max(start, lo) <= Min(start + count, hi) <= hi
            && Overlap(img, rs[k], lo, start, count)
               == Window(img, rs[k].start * 4096, Length(rs[k]))[Max(start, lo) - lo..Min(start + count, hi) - lo])
  {
    hide *;
    var lo := Logical(rs, k);
    var hi := lo + Length(rs[k]);
    OverlapCases(img, rs[k], lo, start, count);
    if start < hi && lo < start + count {
      OverlapFits(start, lo, start + count, hi);
      var a, b := Max(start, lo), Min(start + count, hi);
      OverlapInside(img, rs, start + count, k, b);
      WindowPart(img, rs[k].start * 4096, Length(rs[k]), a - lo, b - lo);
      AvailableIsWindow(img, rs[k].start * 4096 + (a - lo), b - a);
    }
  }

  lemma OverlapCases(img: seq<byte>, r: BlockRange, lo: nat, start: nat, count: nat)
    ensures var hi := lo + Length(r);
      && (hi <= start || start + count <= lo ==> Overlap(img, r, lo, start, count) == [])
      && (start < hi && lo < start + count ==>
            && lo <= Max(start, lo) <= Min(start + count, hi)
            && Overlap(img, r, lo, start, count)
               == Available(img, r.start * 4096 + (Max(start, lo) - lo), Min(start + count, hi) - Max(start, lo)))
  {
    hide Available, Length;
  }

  lemma AvailableIsWindow(img: seq<byte>, off: nat, n: nat)
    requires off + n <= |img|
    ensures Available(img, off, n) == Window(img, off, n)
  {
  }

  /** Whatever the extents and the window: if the window lies in the image, what is
      read is that window of the extents put end to end. */
  lemma {:induction false} PiecesAreWindow(img: seq<byte>, rs: seq<BlockRange>, k: nat, start: nat, count: nat)
    requires k <= |rs| && Inside(img, rs, start + count)
    ensures Pieces(img, rs, k, start, count) == Clip(Joined(img, rs[..k]), start, count)
  {
    hide *;
    if k == 0 {
      NothingYet(img, rs, start, count);
    } else {
      PiecesAreWindow(img, rs, k - 1, start, count);
      PiecesNext(img, rs, k - 1, start, count);
      JoinedLength(img, rs, k - 1);
      JoinedNext(img, rs, k - 1);
      OverlapIsWindow(img, rs, k - 1, start, count);
      var s, t := Joined(img, rs[..k - 1]), Window(img, rs[k - 1].start * 4096, Length(rs[k - 1]));
      var o := Overlap(img, rs[k - 1], Logical(rs, k - 1), start, count);
      ClipNext(s, t, start, count);
      if o == [] {
        assert Clip(s, start, count) + o == Clip(s, start, count);
      }
    }
  }

  /** The part `lo` to `hi` of an extent's window. */
  lemma WindowPart(img: seq<byte>, off: nat, n: nat, lo: nat, hi: nat)
    requires lo <= hi <= n
    ensures Window(img, off, n)[lo..hi] == Window(img, off + lo, hi - lo)
  {
  }

  lemma NothingYet(img: seq<byte>, rs: seq<BlockRange>, start: nat, count: nat)
    ensures Clip(Joined(img, rs[..0]), start, count) == [] && Logical(rs, 0) == 0 && Pieces(img, rs, 0, start, count) == []
  {
    assert rs[..0] == [];
  }

  lemma LogicalNext(rs: seq<BlockRange>, k: nat)
    requires k < |rs|
    ensures Logical(rs, k + 1) == Logical(rs, k) + Length(rs[k])
  {
  }

  lemma OverlapFits(start: nat, lo: nat, reqEnd: nat, hi: nat)
    requires lo <= hi && start < hi && lo < reqEnd && start <= reqEnd
    ensures lo <= Max(start, lo) <= Min(reqEnd, hi) <= hi
  {
  }

  lemma OverlapInside(img: seq<byte>, rs: seq<BlockRange>, upto: nat, k: nat, end: nat)
    requires k < |rs| && Inside(img, rs, upto) && Logical(rs, k) < upto
    requires Logical(rs, k) <= end <= Min(upto, Logical(rs, k) + Length(rs[k]))
    ensures rs[k].start * 4096 + (end - Logical(rs, k)) <= |img|
  {
    hide *;
    InsideIs(img, rs, upto, k);
    OverlapArithmetic(rs[k].start * 4096, end, Logical(rs, k), upto, Length(rs[k]), |img|);
  }

  lemma OverlapArithmetic(at: int, end: int, lo: int, upto: int, len: int, size: int)
    requires at + Min(len, upto - lo) <= size && lo <= end <= Min(upto, lo + len)
    ensures at + (end - lo) <= size
  {
  }

  lemma InsideIs(img: seq<byte>, rs: seq<BlockRange>, upto: nat, k: nat)
    requires k < |rs| && Inside(img, rs, upto) && Logical(rs, k) < upto
    ensures rs[k].start * 4096 + Min(Length(rs[k]), upto - Logical(rs, k)) <= |img|
  {
    assert InsideAt(img, rs, upto, k);
    hide Logical, Length;
  }

  // ---- Files and symlinks ----

  lemma {:induction false} JoinedRanges(img: seq<byte>, start: nat, n: nat, k: nat)
    requires k <= NumExtents(n)
    ensures |Ranges(start, n)| == NumExtents(n) && Cut(n, k) <= n
    ensures Logical(Ranges(start, n), k) == Cut(n, k) * 4096
    ensures Joined(img, Ranges(start, n)[..k]) == Window(img, start * 4096, Cut(n, k) * 4096)
  {
    hide *;
    CutBelow(n, k);
    AllCut(start, n);
    var rs := Ranges(start, n);
    if k == 0 {
      NoneJoined(img, rs, start);
    } else {
      JoinedRanges(img, start, n, k - 1);
      RangeIs(start, n, k - 1);
      JoinedNext(img, rs, k - 1);
      LogicalNext(rs, k - 1);
      var lo, hi := Cut(n, k - 1), Cut(n, k);
      LengthIs(rs[k - 1]);
      WindowsJoin(img, start * 4096, lo * 4096, (hi - lo) * 4096);
    }
  }

  lemma LengthIs(r: BlockRange)
    ensures r.start <= r.end ==> Length(r) == (r.end - r.start) * 4096
  {
  }

  lemma NoneJoined(img: seq<byte>, rs: seq<BlockRange>, start: nat)
    ensures Joined(img, rs[..0]) == Window(img, start * 4096, 0) && Logical(rs, 0) == 0
  {
    assert rs[..0] == [];
    assert Window(img, start * 4096, 0) == [];
  }

  lemma WindowsJoin(img: seq<byte>, off: nat, a: nat, b: nat)
    ensures Window(img, off, a) + Window(img, off + a, b) == Window(img, off, a + b)
  {
  }

  /** The extents of stored data: its bytes come first, and lie in the image. */
  lemma LeadsJoined(img: seq<byte>, block: seq<byte>, start: nat, n: nat, d: seq<byte>, upto: nat)
    requires |block| == 60 && LeadsTo(img, block, start, n, d) && upto <= |d|
    ensures Inside(img, Ranges(start, n), upto)
    ensures |d| <= |Joined(img, Ranges(start, n))| && Joined(img, Ranges(start, n))[..|d|] == d
  {
    var rs := Ranges(start, n);
    LeadsParses(img, block, start, n, d);
    JoinedRanges(img, start, n, NumExtents(n));
    AllCut(start, n);
    assert rs[..|rs|] == rs;
    DataFirst(img, start * 4096, n * 4096, d);
    hide Ranges, Joined, Window, LeadsTo, NumExtents, At;
    forall k | 0 <= k < |rs| ensures InsideAt(img, rs, upto, k) {
      JoinedRanges(img, start, n, k);
      RangeIs(start, n, k);
      hide Cut, Logical;
    }
  }

  lemma AllCut(start: nat, n: nat)
    ensures Cut(n, NumExtents(n)) == n && |Ranges(start, n)| == NumExtents(n)
  {
  }

  lemma DataFirst(img: seq<byte>, off: nat, n: nat, d: seq<byte>)
    requires At(img, off, d) && |d| <= n
    ensures Window(img, off, n)[..|d|] == d && off + |d| <= |img|
  {
    var w, s := Window(img, off, n), img[off..off + |d|];
    forall i | 0 <= i < |d| ensures w[i] == d[i] {
      assert s[i] == img[off + i];
    }
  }

  lemma ClipOfPrefix(s: seq<byte>, d: seq<byte>, start: nat, count: nat)
    requires |d| <= |s| && s[..|d|] == d && start + count <= |d|
    ensures Clip(s, start, count) == d[start..start + count]
  {
    SliceOfSlice(s, 0, |d|, start, start + count);
  }

  /** The bytes read_from_extents returns for an inode. */
  function ExtentsRead(img: seq<byte>, inode: Inode, start: nat, count: nat): Result<seq<byte>, ReadError>
    requires |inode.block| == 60
  {
    match ParseExtents(inode.block, img)
    case Err(e) => Err(e)
    case Ok(rs) => Ok(Pieces(img, rs, |rs|, start, count))
  }

  lemma BytesLead(img: seq<byte>, block: seq<byte>, d: seq<byte>) returns (start: nat)
    requires |block| == 60 && BytesRead(img, block, d) && d != []
    ensures LeadsTo(img, block, start, BlocksFor(|d|), d)
  {
    hide ParseExtents, LeadsTo;
    start :| LeadsTo(img, block, start, BlocksFor(|d|), d);
  }

  lemma EmptyParses(img: seq<byte>, block: seq<byte>, d: seq<byte>)
    requires |block| == 60 && BytesRead(img, block, d) && d == []
    ensures ParseExtents(block, img) == Ok([])
  {
    hide ParseExtents;
  }

  lemma ReadIs(img: seq<byte>, inode: Inode, start: nat, count: nat, rs: seq<BlockRange>)
    requires |inode.block| == 60 && ParseExtents(inode.block, img) == Ok(rs)
    ensures ExtentsRead(img, inode, start, count) == Ok(Pieces(img, rs, |rs|, start, count))
    ensures rs == [] ==> Pieces(img, rs, |rs|, start, count) == []
  {
    hide ParseExtents;
  }

  /** Windowed reads equal slices: of stored bytes `d`, any window comes back
      exactly. */
  lemma WindowIsSlice(img: seq<byte>, inode: Inode, d: seq<byte>, start: nat, count: nat)
    requires |inode.block| == 60 && BytesRead(img, inode.block, d) && start + count <= |d|
    ensures ExtentsRead(img, inode, start, count) == Ok(d[start..start + count])
  {
    hide *;
    if d == [] {
      EmptyParses(img, inode.block, d);
      ReadIs(img, inode, start, count, []);
      assert d[start..start + count] == [];
    } else {
      var s := BytesLead(img, inode.block, d);
      var rs := Ranges(s, BlocksFor(|d|));
      LeadsParses(img, inode.block, s, BlocksFor(|d|), d);
      LeadsJoined(img, inode.block, s, BlocksFor(|d|), d, start + count);
      PiecesAreWindow(img, rs, |rs|, start, count);
      assert rs[..|rs|] == rs;
      ClipOfPrefix(Joined(img, rs), d, start, count);
      ReadIs(img, inode, start, count, rs);
    }
  }

  /** The window `count` bytes from `offset` on, clipped to the data. */
  function Wanted(size: nat, offset: nat, count: Option<nat>): (w: (nat, nat))
    ensures w.0 + w.1 <= size
  {
    var start := Min(offset, size);
    (start, if count.Some? then Min(count.value, size - start) else size - start)
  }

  /** read_from_extents. */
  method ReadFromExtents(r: Reader, number: nat, start: nat, count: nat) returns (out: Result<seq<byte>, ReadError>)
    requires r.Valid() && 0 < number < 0x1_0000_0000
    modifies r`groupDescriptors, r`inodes
    ensures r.Valid() && Supported(r.superblock)
    ensures match ReadInode(r.file.bytes, r.superblock, number)
            case Err(e) => out == Err(e)
            case Ok(inode) => |inode.block| == 60 && out == ExtentsRead(r.file.bytes, inode, start, count)
  {
    hide ReadInode, ParseExtents, Pieces, CachesOk;
    ReaderIs(r);
    var inode := r.GetInode(number);
    if inode.Err? {
      return Err(inode.error);
    }
    ReadInodeBlock(r.file.bytes, r.superblock, number);
    var extents := Parse(inode.value.block, r.file);
    if extents.Err? {
      return Err(extents.error);
    }
    ReadIs(r.file.bytes, inode.value, start, count, extents.value);
    if extents.value == [] {
      return Ok([]);
    }
    var bytes := ReadWindow(r.file, extents.value, start, count);
    out := Ok(bytes);
  }

  lemma ReaderIs(r: Reader)
    requires r.Valid()
    ensures Supported(r.superblock)
  {
  }

  /** What read_file returns for an inode. */
  function FileBytes(img: seq<byte>, inode: Inode, offset: nat, count: Option<nat>): Result<seq<byte>, ReadError>
    requires |inode.block| == 60
  {
    if inode.IsDir() then Err(IsDirectory)
    else if !inode.IsReg() then Err(NotAFile)
    else
      var w := Wanted(inode.size, offset, count);
      if w.1 == 0 then Ok([]) else ExtentsRead(img, inode, w.0, w.1)
  }

  /** read_file, once the path has been resolved. */
  method ReadFile(r: Reader, number: nat, inode: Inode, offset: nat, count: Option<nat>) returns (out: Result<seq<byte>, ReadError>)
    requires r.Valid() && 0 < number < 0x1_0000_0000 && |inode.block| == 60
    requires Supported(r.superblock) && ReadInode(r.file.bytes, r.superblock, number) == Ok(inode)
    modifies r`groupDescriptors, r`inodes
    ensures r.Valid() && out == FileBytes(r.file.bytes, inode, offset, count)
  {
    hide ReadInode, ExtentsRead, CachesOk, Inode.IsDir, Inode.IsReg;
    if inode.IsDir() {
      return Err(IsDirectory);
    }
    if !inode.IsReg() {
      return Err(NotAFile);
    }
    var want := Wanted(inode.size, offset, count);
    if want.1 == 0 {
      return Ok([]);
    }
    out := ReadFromExtents(r, number, want.0, want.1);
  }

  lemma ContentCases(img: seq<byte>, inode: Inode, c: Content)
    requires ContentReads(img, inode, c)
    ensures |inode.block| == 60
    ensures c.Directory? ==> inode.IsDir()
    ensures c.Symlink? ==> !inode.IsDir() && !inode.IsReg() && inode.IsLink() && inode.size == |c.target|
    ensures c.Symlink? && |c.target| < 60 ==> inode.block == c.target + Zeros(60 - |c.target|)
    ensures c.Symlink? && |c.target| >= 60 ==> BytesRead(img, inode.block, c.target)
    ensures c.File? ==> !inode.IsDir() && inode.IsReg() && inode.size == |c.bytes| && BytesRead(img, inode.block, c.bytes)
  {
    hide BytesRead, ParseExtents;
  }

  /** Reading a file returns exactly the requested slice of its contents, clipped
      to its size; reading anything else is refused. */
  lemma FileReadsBack(img: seq<byte>, inode: Inode, c: Content, offset: nat, count: Option<nat>)
    requires ContentReads(img, inode, c)
    ensures |inode.block| == 60
    ensures FileBytes(img, inode, offset, count)
         == match c
            case Directory => Err(IsDirectory)
            case Symlink(_) => Err(NotAFile)
            case File(d) => var w := Wanted(|d|, offset, count); Ok(d[w.0..w.0 + w.1])
  {
    hide ContentReads, BytesRead, ExtentsRead, Inode.IsDir, Inode.IsReg, Inode.IsLink, Wanted;
    ContentCases(img, inode, c);
    if c.File? {
      var w := Wanted(|c.bytes|, offset, count);
      if w.1 == 0 {
        assert c.bytes[w.0..w.0 + w.1] == [];
      } else {
        WindowIsSlice(img, inode, c.bytes, w.0, w.1);
      }
    }
  }

  /** What read_symlink_target returns: short targets lie in the inode itself. */
  function LinkBytes(img: seq<byte>, inode: Inode): Result<seq<byte>, ReadError>
    requires |inode.block| == 60
  {
    if inode.size == 0 then Ok([])
    else if inode.size < 60 then Ok(inode.block[..inode.size])
    else ExtentsRead(img, inode, 0, inode.size)
  }

  method ReadSymlinkTarget(r: Reader, inode: Inode, number: nat) returns (out: Result<seq<byte>, ReadError>)
    requires r.Valid() && 0 < number < 0x1_0000_0000 && |inode.block| == 60
    requires Supported(r.superblock) && ReadInode(r.file.bytes, r.superblock, number) == Ok(inode)
    modifies r`groupDescriptors, r`inodes
    ensures r.Valid() && out == LinkBytes(r.file.bytes, inode)
  {
    hide ReadInode, ExtentsRead, CachesOk;
    if inode.size == 0 {
      return Ok([]);
    }
    if inode.size < 60 {
      return Ok(inode.block[..inode.size]);
    }
    out := ReadFromExtents(r, number, 0, inode.size);
  }

  /** A symlink's target reads back, wherever it was put. */
  lemma TargetReadsBack(img: seq<byte>, inode: Inode, t: seq<byte>)
    requires ContentReads(img, inode, Symlink(t))
    ensures |inode.block| == 60 && LinkBytes(img, inode) == Ok(t)
  {
    ContentCases(img, inode, Symlink(t));
    hide ContentReads, BytesRead, ExtentsRead;
    if |t| == 0 {
      assert t == [];
    } else if |t| < 60 {
      assert (t + Zeros(60 - |t|))[..|t|] == t;
    } else {
      WindowIsSlice(img, inode, t, 0, |t|);
      assert t[0..|t|] == t;
    }
  }
}
