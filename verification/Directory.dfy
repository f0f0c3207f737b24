/** Directory blocks (dir.rs): packing entries into 4096-byte blocks and
    parsing them back. Layout: "ext4 Data Structures and Algorithms", section
    "Linear (Classic) Directories". */
module Directory {
  import opened Basics
  import opened Image
  import opened OnDisk

  /** Header plus the smallest name: the room a terminator always finds. */
  const MIN_TRAILING: nat := 12

  /** An entry to be written: the inode it names and that inode's mode. */
  datatype Entry = Entry(name: Name, inode: nat, mode: nat)
  {
    predicate Fits() { 0 < |name| <= 255 && 0 < inode < 0x1_0000_0000 }
    function Size(): nat { Align4(8 + |name|) }
    function Seen(): Found { Found(name, inode) }
  }

  /** What the parser reports for an entry. */
  datatype Found = Found(name: Name, inode: nat)

  function SeenAll(es: seq<Entry>): (s: seq<Found>)
    ensures |s| == |es|
  {
    seq(|es|, i requires 0 <= i < |es| => es[i].Seen())
  }

  /** FileType::from_mode. */
  function FileType(mode: nat): byte {
    match TypeBits(mode)
    case 0x8000 => 1
    case 0x4000 => 2
    case 0x2000 => 3
    case 0x6000 => 4
    case 0x1000 => 5
    case 0xC000 => 6
    case 0xA000 => 7
    case _ => 0
  }

  function Header(inode: nat, recLen: nat, nameLen: nat, fileType: byte): (b: seq<byte>)
    ensures |b| == 8
  {
    LE32(inode) + LE16(recLen) + [nameLen % 256] + [fileType]
  }

  /** The record of one entry: header, name, padding to four bytes. */
  function Record(e: Entry): (b: seq<byte>)
    ensures |b| == e.Size()
  {
    Header(e.inode, e.Size(), |e.name|, FileType(e.mode)) + e.name + Zeros(e.Size() - 8 - |e.name|)
  }

  /** The record that closes a block with `left` bytes to spare. */
  function Terminator(left: nat): (b: seq<byte>)
    requires left >= 8
    ensures |b| == left
  {
    Header(0, left, 0, 0) + Zeros(left - 8)
  }

  function Records(es: seq<Entry>): (b: seq<byte>)
  {
    if es == [] then [] else Records(es[..|es| - 1]) + Record(es[|es| - 1])
  }

  // ---- Packing ----

  /** A directory being written: the blocks already closed, and the entries in
      the block still open. */
  datatype Packing = Packing(closed: seq<byte>, open: seq<Entry>)
  {
    function Used(): nat { |Records(open)| }
    function Left(): int { 4096 - Used() }
    function Bytes(): seq<byte> { closed + Records(open) }

    /** Does entry `e` still leave room for a terminator in the open block? */
    predicate Takes(e: Entry) { Left() >= e.Size() + MIN_TRAILING }
  }

  const EMPTY_DIR := Packing([], [])

  /** A block holding `es`, closed by a terminator over the rest of it. */
  function Block(es: seq<Entry>): (b: seq<byte>)
    requires |Records(es)| + 8 <= 4096
    ensures |b| == 4096
  {
    Records(es) + Terminator(4096 - |Records(es)|)
  }

  function PackOne(d: Packing, e: Entry): Packing
    requires d.Left() >= MIN_TRAILING
  {
    if d.Takes(e) then Packing(d.closed, d.open + [e])
    else Packing(d.closed + Block(d.open), [e])
  }

  predicate AllFit(es: seq<Entry>) { forall i :: 0 <= i < |es| ==> es[i].Fits() }

  lemma RecordsSnoc(es: seq<Entry>, e: Entry)
    ensures Records(es + [e]) == Records(es) + Record(e)
  {
    assert (es + [e])[..|es|] == es;
  }

  // ---- Parsing ----

  /** parse_dir_entries from `off` on: a zero `rec_len` stops, an entry with no
      inode or no name is skipped, a name running past the data is dropped. */
  function ParseFrom(data: seq<byte>, off: nat): seq<Found>
    decreases |data| - off
  {
    if off + 8 > |data| then []
    else
      var recLen := Get16(data, off + 4);
      if recLen == 0 then []
      else Reported(data, off) + ParseFrom(data, off + recLen)
  }

  function Reported(data: seq<byte>, off: nat): seq<Found>
    requires off + 8 <= |data|
  {
    var inode, nameLen: nat := Get32(data, off), Get8(data, off + 6);
    if inode != 0 && nameLen > 0 && off + 8 + nameLen <= |data|
    then [Found(data[off + 8..off + 8 + nameLen], inode)]
    else []
  }

  /** Following `rec_len` from `off` lands exactly on the end of the block, by
      four-byte aligned records that never cross it. */
  predicate Chained(data: seq<byte>, off: nat)
    decreases |data| - off
  {
    off == |data| ||
    (off + 8 <= |data| &&
     var recLen := Get16(data, off + 4);
     8 <= recLen && recLen % 4 == 0 && off + recLen <= |data| && Chained(data, off + recLen))
  }

  /** Every block of a directory, parsed on its own as the reader does. */
  function ParseBlocks(data: seq<byte>): seq<Found>
    requires |data| % 4096 == 0
  {
    if data == [] then []
    else ParseBlocks(data[..|data| - 4096]) + ParseFrom(data[|data| - 4096..], 0)
  }

  predicate AllChained(data: seq<byte>)
    requires |data| % 4096 == 0
  {
    data == [] || (AllChained(data[..|data| - 4096]) && Chained(data[|data| - 4096..], 0))
  }

  lemma HeaderReads(data: seq<byte>, off: nat, inode: nat, recLen: nat, nameLen: nat, fileType: byte)
    requires off + 8 <= |data| && data[off..off + 8] == Header(inode, recLen, nameLen, fileType)
    requires inode < 0x1_0000_0000 && recLen < 0x1_0000 && nameLen < 256
    ensures Get32(data, off) == inode && Get16(data, off + 4) == recLen && Get8(data, off + 6) == nameLen
  {
    var h := Header(inode, recLen, nameLen, fileType);
    assert h[0..4] == LE32(inode) && h[4..6] == LE16(recLen);
    Get32OfLE32(h, 0, inode);
    Get16OfLE16(h, 4, recLen);
    GetInSlice(data, off, off + 8, off);
    GetInSlice(data, off, off + 8, off + 4);
    assert data[off + 6] == data[off..off + 8][6];
  }

  /** A record found at `off` is reported, and the next one follows it. */
  lemma RecordReads(data: seq<byte>, off: nat, e: Entry)
    requires e.Fits() && off + e.Size() <= |data| && data[off..off + e.Size()] == Record(e)
    ensures off + 8 <= |data| && Get16(data, off + 4) == e.Size()
    ensures Reported(data, off) == [e.Seen()]
  {
    var r := Record(e);
    assert r[..8] == Header(e.inode, e.Size(), |e.name|, FileType(e.mode));
    SliceOfSlice(data, off, off + e.Size(), 0, 8);
    HeaderReads(data, off, e.inode, e.Size(), |e.name|, FileType(e.mode));
    assert r[8..8 + |e.name|] == e.name;
    SliceOfSlice(data, off, off + e.Size(), 8, 8 + |e.name|);
  }

  lemma TerminatorReads(data: seq<byte>, off: nat)
    requires off + 8 <= |data| && |data| - off < 0x1_0000 && (|data| - off) % 4 == 0
    requires data[off..] == Terminator(|data| - off)
    ensures ParseFrom(data, off) == [] && Chained(data, off)
  {
    var t := Terminator(|data| - off);
    assert t[..8] == Header(0, |data| - off, 0, 0);
    assert data[off..][..8] == data[off..off + 8];
    HeaderReads(data, off, 0, |data| - off, 0, 0);
    assert Reported(data, off) == [];
    assert ParseFrom(data, |data|) == [];
  }

  /** Where record `k` lies among the records of `es`. */
  lemma {:induction false} RecordAt(es: seq<Entry>, k: nat)
    requires k < |es|
    ensures |Records(es[..k])| + es[k].Size() <= |Records(es)|
    ensures Records(es)[|Records(es[..k])|..|Records(es[..k])| + es[k].Size()] == Record(es[k])
  {
    var front := es[..|es| - 1];
    if k < |es| - 1 {
      RecordAt(front, k);
      assert front[..k] == es[..k];
    }
  }

  lemma RecordInBlock(es: seq<Entry>, tail: seq<byte>, k: nat)
    requires AllFit(es) && k < |es|
    ensures var data, off := Records(es) + tail, |Records(es[..k])|;
      && off + es[k].Size() <= |data| && Get16(data, off + 4) == es[k].Size()
      && Reported(data, off) == [es[k].Seen()]
  {
    hide Record;
    var data, off := Records(es) + tail, |Records(es[..k])|;
    RecordAt(es, k);
    SliceLeft(Records(es), tail, off, off + es[k].Size());
    RecordReads(data, off, es[k]);
  }

  /** Record `k` ends where record `k + 1` begins. */
  lemma NextRecord(es: seq<Entry>, k: nat)
    requires k < |es|
    ensures |Records(es[..k + 1])| == |Records(es[..k])| + es[k].Size()
  {
    assert es[..k + 1][..k] == es[..k];
  }

  /** A block of records closed by a terminator, read from record `k` on. */
  lemma {:induction false} BlockReads(es: seq<Entry>, left: nat, k: nat)
    requires AllFit(es) && k <= |es| && 8 <= left && |Records(es)| + left == 4096
    ensures ParseFrom(Records(es) + Terminator(left), |Records(es[..k])|) == SeenAll(es[k..])
    ensures Chained(Records(es) + Terminator(left), |Records(es[..k])|)
    decreases |es| - k
  {
    hide Record, Terminator, Reported, SeenAll, Records, Align4;
    var data, off := Records(es) + Terminator(left), |Records(es[..k])|;
    if k == |es| {
      RecordsAligned(es);
      assert es[..k] == es;
      SeenNone(es[k..]);
      assert data[off..] == Terminator(left);
      TerminatorReads(data, off);
    } else {
      NextRecord(es, k);
      RecordInBlock(es, Terminator(left), k);
      BlockReads(es, left, k + 1);
      SeenCons(es, k);
    }
  }

  lemma SeenNone(es: seq<Entry>)
    requires es == []
    ensures SeenAll(es) == []
  {
  }

  lemma SeenCons(es: seq<Entry>, k: nat)
    requires k < |es|
    ensures SeenAll(es[k..]) == [es[k].Seen()] + SeenAll(es[k + 1..])
  {
  }

  lemma SeenSnoc(es: seq<Entry>, e: Entry)
    ensures SeenAll(es + [e]) == SeenAll(es) + [e.Seen()]
  {
  }

  lemma {:induction false} RecordsAligned(es: seq<Entry>)
    ensures |Records(es)| % 4 == 0
  {
    hide Record;
    if es != [] {
      RecordsAligned(es[..|es| - 1]);
    }
  }

  /** A block holding `es` parses to `es`. */
  lemma BlockRoundTrip(es: seq<Entry>)
    requires AllFit(es) && |Records(es)| + 8 <= 4096
    ensures ParseFrom(Block(es), 0) == SeenAll(es)
    ensures Chained(Block(es), 0)
  {
    hide Record, Terminator, ParseFrom, Chained, SeenAll;
    BlockReads(es, 4096 - |Records(es)|, 0);
    assert es[..0] == [] && es[0..] == es;
  }

  lemma AppendBlock(data: seq<byte>, block: seq<byte>)
    requires |data| % 4096 == 0 && |block| == 4096
    ensures |data + block| % 4096 == 0
    ensures ParseBlocks(data + block) == ParseBlocks(data) + ParseFrom(block, 0)
    ensures AllChained(data + block) == (AllChained(data) && Chained(block, 0))
  {
    assert (data + block)[..|data|] == data && (data + block)[|data|..] == block;
  }

  /** What holds while a directory holding `es` so far is written: room for a
      terminator is left, the closed blocks are whole and well chained, and
      closed and open part together hold exactly `es`. */
  predicate Holds(d: Packing, es: seq<Entry>) {
    && AllFit(d.open)
    && MIN_TRAILING <= d.Left() <= 4096
    && |d.closed| % 4096 == 0
    && AllChained(d.closed)
    && ParseBlocks(d.closed) + SeenAll(d.open) == SeenAll(es)
  }

  lemma ClosingReads(d: Packing, es: seq<Entry>)
    requires Holds(d, es)
    ensures var data := d.closed + Block(d.open);
      |data| % 4096 == 0 && AllChained(data) && ParseBlocks(data) == SeenAll(es)
  {
    BlockRoundTrip(d.open);
    AppendBlock(d.closed, Block(d.open));
  }

  lemma PackKeeps(d: Packing, es: seq<Entry>, e: Entry)
    requires Holds(d, es) && e.Fits()
    ensures Holds(PackOne(d, e), es + [e])
  {
    hide Record, Terminator, ParseFrom, Chained, ParseBlocks, AllChained, SeenAll;
    SeenSnoc(es, e);
    if d.Takes(e) {
      RecordsSnoc(d.open, e);
      SeenSnoc(d.open, e);
    } else {
      ClosingReads(d, es);
      RecordsSnoc([], e);
      SeenSnoc([], e);
    }
  }

  /** Packing `es` entry by entry from an empty directory. */
  function Pack(es: seq<Entry>): (d: Packing)
    requires AllFit(es)
    ensures Holds(d, es)
  {
    if es == [] then EMPTY_DIR
    else
      var front, e := es[..|es| - 1], es[|es| - 1];
      assert es == front + [e];
      PackKeeps(Pack(front), front, e);
      PackOne(Pack(front), e)
  }

  /** The finished blocks of a directory holding `es`. */
  function DirBytes(es: seq<Entry>): seq<byte>
    requires AllFit(es)
  {
    var d := Pack(es);
    d.closed + Block(d.open)
  }

  lemma PackNext(es: seq<Entry>)
    requires AllFit(es) && es != []
    ensures AllFit(es[..|es| - 1]) && Pack(es) == PackOne(Pack(es[..|es| - 1]), es[|es| - 1])
  {
  }

  /** Up to fifteen entries always fit into one block. */
  lemma {:induction false} FewFitOneBlock(es: seq<Entry>)
    requires AllFit(es) && |es| <= 15
    ensures Pack(es).closed == [] && |Records(Pack(es).open)| <= 264 * |es| && |DirBytes(es)| == 4096
  {
    if es != [] {
      var front, e := es[..|es| - 1], es[|es| - 1];
      FewFitOneBlock(front);
      assert e.Fits() && e.Size() <= 264;
      RecordsSnoc(Pack(front).open, e);
      PackNext(es);
      hide Pack, AllFit, Block, Records, Record;
    }
  }

  /** Directory blocks round-trip: whole blocks, every block a chain of records
      that ends exactly at its end, and the entries read back in order. */
  lemma DirectoryRoundTrip(es: seq<Entry>)
    requires AllFit(es)
    ensures |DirBytes(es)| % 4096 == 0 && DirBytes(es) != []
    ensures AllChained(DirBytes(es))
    ensures ParseBlocks(DirBytes(es)) == SeenAll(es)
  {
    ClosingReads(Pack(es), es);
  }

  // ---- The writer ----

  /** finish_dir_entry_block: a terminator over whatever is left, then the
      counter starts afresh. The file gains exactly the closed block's tail. */
  method FinishBlock(file: ImageFile, left: int) returns (left': int)
    requires left <= 0 || 8 <= left < 0x1_0000
    modifies file
    ensures left' == 4096
    ensures Appended(old(file.bytes), old(file.pos), file.bytes, file.pos, if left <= 0 then [] else Terminator(left))
  {
    if left <= 0 {
      return 4096;
    }
    file.WriteAll(Header(0, left, 0, 0));
    var fill := left - 8;
    if fill > 0 {
      AppendTwice(old(file.bytes), old(file.pos), Header(0, left, 0, 0), Zeros(fill));
      file.WriteAll(Zeros(fill));
    } else {
      assert Header(0, left, 0, 0) == Terminator(left);
    }
    left' := 4096;
  }

  /** Writing `b` at `pos` takes `was` to `img` and the cursor to `pos'`. */
  predicate Appended(was: seq<byte>, pos: nat, img: seq<byte>, pos': nat, b: seq<byte>) {
    img == Append(was, pos, b) && pos' == pos + |b|
  }

  lemma AppendedTwice(was: seq<byte>, pos: nat, mid: seq<byte>, pm: nat, img: seq<byte>, pos': nat, a: seq<byte>, b: seq<byte>)
    requires Appended(was, pos, mid, pm, a) && Appended(mid, pm, img, pos', b)
    ensures Appended(was, pos, img, pos', a + b)
  {
    hide Append;
    AppendTwice(was, pos, a, b);
  }

  /** A write, or nothing at all when there is nothing to write. */
  function Append(img: seq<byte>, pos: nat, b: seq<byte>): seq<byte> {
    if b == [] then img else WriteAt(img, pos, b)
  }

  lemma AppendTwice(img: seq<byte>, pos: nat, a: seq<byte>, b: seq<byte>)
    ensures Append(Append(img, pos, a), pos + |a|, b) == Append(img, pos, a + b)
    ensures a == [] ==> Append(img, pos, a) == img && a + b == b
  {
    if a == [] {
      assert a + b == b;
    } else if b == [] {
      assert a + b == a;
    } else {
      hide WriteAt;
      WriteTwice(img, pos, a, b);
    }
  }

  lemma WriteTwice(img: seq<byte>, pos: nat, a: seq<byte>, b: seq<byte>)
    ensures WriteAt(WriteAt(img, pos, a), pos + |a|, b) == WriteAt(img, pos, a + b)
  {
    hide WriteAt;
    var x, y, z := WriteAt(img, pos, a), WriteAt(WriteAt(img, pos, a), pos + |a|, b), WriteAt(img, pos, a + b);
    assert |y| == |z|;
    forall k | 0 <= k < |y| ensures y[k] == z[k] {
      if pos <= k < pos + |a| {
        assert z[k] == (a + b)[k - pos] == a[k - pos] == x[k];
      } else if pos + |a| <= k < pos + |a| + |b| {
        assert z[k] == (a + b)[k - pos] == b[k - pos - |a|];
      } else {
        assert k < |img| ==> x[k] == img[k];
      }
    }
  }

  /** The body of write_dir_entry after the block has been closed if needed. */
  method WriteRecord(file: ImageFile, e: Entry)
    requires e.Fits()
    modifies file
    ensures Appended(old(file.bytes), old(file.pos), file.bytes, file.pos, Record(e))
  {
    var header := Header(e.inode, e.Size(), |e.name|, FileType(e.mode));
    var padding := e.Size() - 8 - |e.name|;
    file.WriteAll(header);
    AppendTwice(old(file.bytes), old(file.pos), header, e.name);
    file.WriteAll(e.name);
    if padding > 0 {
      AppendTwice(old(file.bytes), old(file.pos), header + e.name, Zeros(padding));
      file.WriteAll(Zeros(padding));
    } else {
      assert header + e.name == Record(e);
    }
  }

  /** write_dir_entry: with `left` bytes free in a block that holds `d.open`,
      the file gains what turns `d` into `PackOne(d, e)`. A hard link is
      recorded under its target's inode number and mode. */
  method WriteDirEntry(file: ImageFile, name: Name, inode: nat, mode: nat,
                       linkInode: Option<nat>, linkMode: Option<nat>, left: int, ghost d: Packing)
    returns (left': int, ghost d': Packing)
    requires MIN_TRAILING <= left == d.Left() <= 4096
    requires var ino := if linkInode.Some? then linkInode.value else inode;
      Entry(name, ino, mode).Fits()
    modifies file
    ensures d' == PackOne(d, Entry(name,
                                   if linkInode.Some? then linkInode.value else inode,
                                   if linkMode.Some? then linkMode.value else mode))
    ensures left' == d'.Left()
    ensures Appended(old(file.bytes), old(file.pos), file.bytes, file.pos,
                     Gain(d, Entry(name,
                                   if linkInode.Some? then linkInode.value else inode,
                                   if linkMode.Some? then linkMode.value else mode)))
  {
    var actualInode := if linkInode.Some? then linkInode.value else inode;
    var actualMode := if linkMode.Some? then linkMode.value else mode;
    var e := Entry(name, actualInode, actualMode);
    assert e.Fits();
    hide *;
    PackOneBytes(d, e);
    left' := left;
    d' := PackOne(d, e);
    if left' < e.Size() + MIN_TRAILING {
      left' := FinishBlock(file, left');
      ghost var mid, pm := file.bytes, file.pos;
      WriteRecord(file, e);
      AppendedTwice(old(file.bytes), old(file.pos), mid, pm, file.bytes, file.pos, Terminator(left), Record(e));
    } else {
      WriteRecord(file, e);
    }
    left' := left' - e.Size();
  }

  /** What packing one more entry adds to the bytes. */
  function Gain(d: Packing, e: Entry): (b: seq<byte>)
    requires MIN_TRAILING <= d.Left() <= 4096
  {
    if d.Left() < e.Size() + MIN_TRAILING then Terminator(d.Left()) + Record(e) else Record(e)
  }

  lemma PackOneBytes(d: Packing, e: Entry)
    requires MIN_TRAILING <= d.Left() <= 4096
    ensures var d' := PackOne(d, e);
      && d'.Bytes() == d.Bytes() + Gain(d, e)
      && |d.Bytes()| <= |d'.Bytes()| && d'.Bytes()[..|d.Bytes()|] == d.Bytes() && d'.Bytes()[|d.Bytes()|..] == Gain(d, e)
      && d'.Left() == (if d.Left() < e.Size() + MIN_TRAILING then 4096 else d.Left()) - e.Size()
    ensures Gain(d, e) == if d.Left() < e.Size() + MIN_TRAILING then Terminator(d.Left()) + Record(e) else Record(e)
    ensures |Gain(d, e)| == (if d.Left() < e.Size() + MIN_TRAILING then d.Left() else 0) + e.Size()
  {
    hide Record, Terminator;
    var r, t := Record(e), Terminator(d.Left());
    assert Records([]) == [];
    if d.Takes(e) {
      RecordsSnoc(d.open, e);
      Concat3(d.closed, Records(d.open), [], r);
      assert [] + r == r;
    } else {
      RecordsSnoc([], e);
      assert [] + r == r;
      Concat3(d.closed, Records(d.open), t, r);
    }
  }

  lemma Concat3(a: seq<byte>, b: seq<byte>, t: seq<byte>, r: seq<byte>)
    ensures a + (b + t) + r == a + b + (t + r)
    ensures t == [] ==> a + (b + r) == a + b + (t + r)
  {
  }
}
