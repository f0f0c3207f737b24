/** Extended attributes (xattr.rs): names compressed by prefix, and an area with
    entries packed from the front and values from the back. */
module Xattr {
  import opened Basics
  import opened Image

  // ---- Names ----

  function Ascii(s: string): (b: seq<byte>)
    ensures |b| == |s|
  {
    seq(|s|, i requires 0 <= i < |s| => s[i] as int % 256)
  }

  /** Known prefixes and their numbers. */
  const PREFIXES: seq<(byte, seq<byte>)> := [
    (1, Ascii("user.")),
    (2, Ascii("system.posix_acl_access")),
    (3, Ascii("system.posix_acl_default")),
    (4, Ascii("trusted.")),
    (6, Ascii("security.")),
    (7, Ascii("system.")),
    (8, Ascii("system.richacl"))]

  /** decompress_name: the first entry of that number, from place `k` on. */
  function DecompressFrom(index: byte, suffix: seq<byte>, k: nat): seq<byte>
    requires k <= |PREFIXES|
    decreases |PREFIXES| - k
  {
    if k == |PREFIXES| then suffix
    else if PREFIXES[k].0 == index then PREFIXES[k].1 + suffix
    else DecompressFrom(index, suffix, k + 1)
  }

  function Decompress(index: byte, suffix: seq<byte>): seq<byte> { DecompressFrom(index, suffix, 0) }

  lemma NumbersDistinct()
    ensures forall j, k :: 0 <= j < k < |PREFIXES| ==> PREFIXES[j].0 != PREFIXES[k].0
    ensures forall k :: 0 <= k < |PREFIXES| ==> PREFIXES[k].0 != 0 && |PREFIXES[k].1| > 0
  {
    hide Ascii;
  }

  lemma {:induction false} DecompressKnown(k: nat, suffix: seq<byte>, from: nat)
    requires from <= k < |PREFIXES|
    ensures DecompressFrom(PREFIXES[k].0, suffix, from) == PREFIXES[k].1 + suffix
    decreases k - from
  {
    NumbersDistinct();
    if from < k {
      DecompressKnown(k, suffix, from + 1);
    }
  }

  lemma {:induction false} DecompressUnknown(suffix: seq<byte>, from: nat)
    requires from <= |PREFIXES|
    ensures DecompressFrom(0, suffix, from) == suffix
    decreases |PREFIXES| - from
  {
    NumbersDistinct();
    if from < |PREFIXES| {
      DecompressUnknown(suffix, from + 1);
    }
  }

  /** compress_name strips the longest known prefix, and decompress_name puts it
      back, for every name. */
  method CompressName(name: seq<byte>) returns (index: byte, suffix: seq<byte>)
    ensures Decompress(index, suffix) == name
    ensures forall k :: 0 <= k < |PREFIXES| && PREFIXES[k].1 <= name ==> |PREFIXES[k].1| <= |name| - |suffix|
    ensures index == 0 <==> suffix == name
    ensures index != 0 ==> exists k :: 0 <= k < |PREFIXES| && PREFIXES[k].0 == index && PREFIXES[k].1 + suffix == name
  {
    hide *;
    NumbersDistinct();
    index := 0;
    var best := 0;
    ghost var at := 0;
    for k := 0 to |PREFIXES|
      invariant best <= |name|
      invariant forall j :: 0 <= j < k && PREFIXES[j].1 <= name ==> |PREFIXES[j].1| <= best
      invariant if index == 0 then best == 0
                else best > 0 && at < k && PREFIXES[at].0 == index && PREFIXES[at].1 == name[..best]
    {
      if PREFIXES[k].1 <= name && |PREFIXES[k].1| > best {
        index, best, at := PREFIXES[k].0, |PREFIXES[k].1|, k;
      }
    }
    suffix := name[best..];
    assert name == name[..best] + suffix;
    DecompressIs(index, suffix);
    if index == 0 {
      DecompressUnknown(suffix, 0);
    } else {
      DecompressKnown(at, suffix, 0);
    }
  }

  lemma DecompressIs(index: byte, suffix: seq<byte>)
    ensures Decompress(index, suffix) == DecompressFrom(index, suffix, 0)
  {
  }

  // ---- Sizes ----

  datatype Attribute = Attribute(index: byte, name: seq<byte>, value: seq<byte>)
  {
    function EntrySize(): nat { Align4(|name| + 16) }
    function ValueSize(): nat { Align4(|value|) }
    function TotalSize(): nat { EntrySize() + ValueSize() }
  }

  function EntriesSize(attrs: seq<Attribute>): nat {
    if attrs == [] then 0 else EntriesSize(attrs[..|attrs| - 1]) + attrs[|attrs| - 1].EntrySize()
  }

  function ValuesSize(attrs: seq<Attribute>): nat {
    if attrs == [] then 0 else ValuesSize(attrs[..|attrs| - 1]) + attrs[|attrs| - 1].ValueSize()
  }

  lemma SizesGrow(attrs: seq<Attribute>, k: nat)
    requires k < |attrs|
    ensures EntriesSize(attrs[..k + 1]) == EntriesSize(attrs[..k]) + attrs[k].EntrySize()
    ensures ValuesSize(attrs[..k + 1]) == ValuesSize(attrs[..k]) + attrs[k].ValueSize()
  {
    assert attrs[..k + 1][..k] == attrs[..k];
  }

  lemma {:induction false} SizesMonotone(attrs: seq<Attribute>, j: nat, k: nat)
    requires j <= k <= |attrs|
    ensures EntriesSize(attrs[..j]) <= EntriesSize(attrs[..k]) && ValuesSize(attrs[..j]) <= ValuesSize(attrs[..k])
    decreases k - j
  {
    if j < k {
      SizesGrow(attrs, k - 1);
      SizesMonotone(attrs, j, k - 1);
    }
  }

  // ---- The layout ----

  /** Where the entry of attribute `k` starts. */
  function EntryStart(attrs: seq<Attribute>, header: nat, k: nat): nat
    requires k <= |attrs|
  {
    header + EntriesSize(attrs[..k])
  }

  /** Where the values of the first `k` attributes start, counted from the back. */
  function ValueStart(attrs: seq<Attribute>, cap: nat, k: nat): int
    requires k <= |attrs|
  {
    cap - ValuesSize(attrs[..k])
  }

  /** The fixed part of an entry: lengths and numbers are cut to their fields. */
  function EntryHead(a: Attribute, valueOffset: nat, hash: nat): (b: seq<byte>)
    ensures |b| == 16
  {
    [|a.name| % 256, a.index] + LE16(valueOffset) + LE32(0) + LE32(|a.value|) + LE32(hash)
  }

  /** Attribute `k` has its entry, name and value in the buffer. `base` is what
      value offsets count from. */
  predicate PlacedAt(buf: seq<byte>, attrs: seq<Attribute>, header: nat, base: nat, hashes: seq<nat>, k: nat)
    requires k < |attrs| && |hashes| == |attrs|
  {
    var a, at, v := attrs[k], EntryStart(attrs, header, k), ValueStart(attrs, |buf|, k + 1);
    && base <= v && at + 16 + |a.name| <= v
    && At(buf, at, EntryHead(a, v - base, hashes[k]))
    && At(buf, at + 16, a.name)
    && At(buf, v, a.value)
  }

  /** Nothing but zeros between the first `k` entries and their values. */
  predicate FreeBetween(buf: seq<byte>, attrs: seq<Attribute>, header: nat, k: nat)
    requires k <= |attrs|
  {
    && EntryStart(attrs, header, k) <= ValueStart(attrs, |buf|, k)
    && forall j :: EntryStart(attrs, header, k) <= j < ValueStart(attrs, |buf|, k) ==> buf[j] == 0
  }

  /** What `add` made sure of: entries and values never meet, and four bytes are
      left between them. */
  predicate Fits(attrs: seq<Attribute>, header: nat, cap: nat) {
    header + EntriesSize(attrs) + ValuesSize(attrs) + 4 <= cap
  }

  predicate Packed(buf: seq<byte>, attrs: seq<Attribute>, header: nat, base: nat, hashes: seq<nat>)
    requires |hashes| == |attrs|
  {
    && (forall k :: 0 <= k < |attrs| ==> PlacedAt(buf, attrs, header, base, hashes, k))
    && FreeBetween(buf, attrs, header, |attrs|)
    && Fits(attrs, header, |buf|)
  }

  // ---- Reading an area back ----

  /** The attributes of an area, from the entry at `off` on: the format's own
      reading (ext4 "Extended Attributes"), up to an entry whose first four bytes
      are zero. */
  function DecodeFrom(buf: seq<byte>, base: nat, off: nat): seq<Attribute>
    decreases |buf| - off
  {
    if off + 16 > |buf| || Get32(buf, off) == 0 then []
    else
      var len, at, size := buf[off] as nat, base + Get16(buf, off + 2), Get32(buf, off + 8);
      if off + 16 + len > |buf| || at + size > |buf| then []
      else
        [Attribute(buf[off + 1], buf[off + 16..off + 16 + len], buf[at..at + size])]
        + DecodeFrom(buf, base, off + Align4(16 + len))
  }

  predicate ShortNames(attrs: seq<Attribute>) {
    forall k :: 0 <= k < |attrs| ==> |attrs[k].name| <= 255
  }

  lemma {:induction false} DecodedNamesShort(buf: seq<byte>, base: nat, off: nat)
    ensures ShortNames(DecodeFrom(buf, base, off))
    decreases |buf| - off
  {
    if off + 16 <= |buf| {
      DecodedNamesShort(buf, base, off + Align4(16 + buf[off] as nat));
      hide Get32, Get16;
    }
  }

  lemma HeadReads(buf: seq<byte>, off: nat, a: Attribute, valueOffset: nat, hash: nat)
    requires At(buf, off, EntryHead(a, valueOffset, hash)) && valueOffset < 0x1_0000 && |a.value| < 0x1_0000_0000
    ensures buf[off] == |a.name| % 256 && buf[off + 1] == a.index
    ensures Get16(buf, off + 2) == valueOffset && Get32(buf, off + 8) == |a.value|
    ensures valueOffset > 0 ==> Get32(buf, off) != 0
  {
    var h, s := EntryHead(a, valueOffset, hash), buf[off..off + 16];
    assert s == h;
    assert h[2..4] == LE16(valueOffset) && h[8..12] == LE32(|a.value|);
    Get16OfLE16(h, 2, valueOffset);
    Get32OfLE32(h, 8, |a.value|);
    GetInSlice(buf, off, off + 16, off + 2);
    GetInSlice(buf, off, off + 16, off + 8);
    GetInSlice(buf, off, off + 16, off);
    assert buf[off] == s[0] && buf[off + 1] == s[1] && buf[off + 2] == s[2] && buf[off + 3] == s[3];
    assert Get16(buf, off + 2) == buf[off + 2] as int + 256 * (buf[off + 3] as int);
    hide EntryHead, LE16, LE32;
  }

  lemma DecodeEnd(buf: seq<byte>, attrs: seq<Attribute>, header: nat, base: nat)
    requires FreeBetween(buf, attrs, header, |attrs|) && Fits(attrs, header, |buf|)
    ensures DecodeFrom(buf, base, EntryStart(attrs, header, |attrs|)) == []
  {
    var off := EntryStart(attrs, header, |attrs|);
    assert attrs[..|attrs|] == attrs;
    assert buf[off] == 0 && buf[off + 1] == 0 && buf[off + 2] == 0 && buf[off + 3] == 0;
    hide EntriesSize, ValuesSize;
  }

  /** One entry. Its value lies behind where offsets count from, so it never looks
      like the end of the list. */
  lemma EntryDecodes(buf: seq<byte>, base: nat, off: nat, a: Attribute, v: nat, hash: nat)
    requires base < v && |buf| < 0x1_0000 && |a.name| <= 255
    requires At(buf, off, EntryHead(a, v - base, hash)) && At(buf, off + 16, a.name) && At(buf, v, a.value)
    ensures DecodeFrom(buf, base, off) == [a] + DecodeFrom(buf, base, off + Align4(|a.name| + 16))
  {
    hide *;
    ValueSmall(buf, v, a.value);
    HeadReads(buf, off, a, v - base, hash);
    EntryThere(buf, off, a, v, hash, base);
    DecodeStep(buf, base, off);
    Commuted(|a.name|);
  }

  lemma Commuted(n: nat)
    ensures Align4(16 + n) == Align4(n + 16)
  {
  }

  lemma ValueSmall(buf: seq<byte>, v: nat, value: seq<byte>)
    requires At(buf, v, value) && |buf| < 0x1_0000
    ensures |value| < 0x1_0000_0000 && v < 0x1_0000
  {
  }

  lemma EntryThere(buf: seq<byte>, off: nat, a: Attribute, v: nat, hash: nat, base: nat)
    requires base < v && At(buf, off, EntryHead(a, v - base, hash)) && At(buf, off + 16, a.name) && At(buf, v, a.value)
    requires off + 1 < |buf| ==> buf[off + 1] == a.index
    ensures off + 16 + |a.name| <= |buf| && v + |a.value| <= |buf|
    ensures a == Attribute(buf[off + 1], buf[off + 16..off + 16 + |a.name|], buf[v..v + |a.value|])
  {
    hide EntryHead;
  }

  lemma DecodeStep(buf: seq<byte>, base: nat, off: nat)
    requires off + 16 <= |buf| && Get32(buf, off) != 0
    requires off + 16 + buf[off] as nat <= |buf| && base + Get16(buf, off + 2) + Get32(buf, off + 8) <= |buf|
    ensures var len, at, size := buf[off] as nat, base + Get16(buf, off + 2), Get32(buf, off + 8);
      DecodeFrom(buf, base, off) == [Attribute(buf[off + 1], buf[off + 16..off + 16 + len], buf[at..at + size])]
                                    + DecodeFrom(buf, base, off + Align4(16 + len))
  {
    hide Get16, Get32, Align4;
  }

  lemma PlacedIs(buf: seq<byte>, attrs: seq<Attribute>, header: nat, base: nat, hashes: seq<nat>, k: nat)
    requires k < |attrs| && |hashes| == |attrs| && PlacedAt(buf, attrs, header, base, hashes, k)
    ensures var a, at, v := attrs[k], EntryStart(attrs, header, k), ValueStart(attrs, |buf|, k + 1);
      && base <= v && at + 16 + |a.name| <= v
      && At(buf, at, EntryHead(a, v - base, hashes[k])) && At(buf, at + 16, a.name) && At(buf, v, a.value)
  {
    hide EntryHead, At, EntryStart, ValueStart;
  }

  lemma IsPlaced(buf: seq<byte>, attrs: seq<Attribute>, header: nat, base: nat, hashes: seq<nat>, k: nat)
    requires k < |attrs| && |hashes| == |attrs|
    requires var a, at, v := attrs[k], EntryStart(attrs, header, k), ValueStart(attrs, |buf|, k + 1);
      && base <= v && at + 16 + |a.name| <= v
      && At(buf, at, EntryHead(a, v - base, hashes[k])) && At(buf, at + 16, a.name) && At(buf, v, a.value)
    ensures PlacedAt(buf, attrs, header, base, hashes, k)
  {
    hide EntryHead, At, EntryStart, ValueStart;
  }

  lemma StartsGrow(attrs: seq<Attribute>, header: nat, cap: nat, k: nat)
    requires k < |attrs|
    ensures header <= EntryStart(attrs, header, k)
    ensures EntryStart(attrs, header, k + 1) == EntryStart(attrs, header, k) + Align4(|attrs[k].name| + 16)
    ensures ValueStart(attrs, cap, k) == ValueStart(attrs, cap, k + 1) + Align4(|attrs[k].value|)
    ensures ValueStart(attrs, cap, k) <= cap
  {
    SizesGrow(attrs, k);
    hide EntriesSize, ValuesSize, Align4;
  }

  lemma DecodeOne(buf: seq<byte>, attrs: seq<Attribute>, header: nat, base: nat, hashes: seq<nat>, k: nat)
    requires k < |attrs| && |hashes| == |attrs| && PlacedAt(buf, attrs, header, base, hashes, k) && |attrs[k].name| <= 255
    requires base <= header && |buf| < 0x1_0000
    ensures DecodeFrom(buf, base, EntryStart(attrs, header, k))
         == [attrs[k]] + DecodeFrom(buf, base, EntryStart(attrs, header, k + 1))
  {
    hide *;
    PlacedIs(buf, attrs, header, base, hashes, k);
    StartsGrow(attrs, header, |buf|, k);
    EntryDecodes(buf, base, EntryStart(attrs, header, k), attrs[k], ValueStart(attrs, |buf|, k + 1), hashes[k]);
  }

  lemma {:induction false} DecodeRest(buf: seq<byte>, attrs: seq<Attribute>, header: nat, base: nat, hashes: seq<nat>, k: nat)
    requires |hashes| == |attrs| && Packed(buf, attrs, header, base, hashes) && ShortNames(attrs) && base <= header && |buf| < 0x1_0000 && k <= |attrs|
    ensures DecodeFrom(buf, base, EntryStart(attrs, header, k)) == attrs[k..]
    decreases |attrs| - k
  {
    hide DecodeFrom, PlacedAt, EntryStart, FreeBetween, Fits;
    if k == |attrs| {
      DecodeEnd(buf, attrs, header, base);
    } else {
      DecodeRest(buf, attrs, header, base, hashes, k + 1);
      assert PlacedAt(buf, attrs, header, base, hashes, k) && |attrs[k].name| <= 255;
      DecodeOne(buf, attrs, header, base, hashes, k);
      assert attrs[k..] == [attrs[k]] + attrs[k + 1..];
    }
  }

  /** A packed area reads back as exactly the attributes packed, in order, if and
      only if no name is longer than the one byte of its length can say. */
  lemma PackedReadsBack(buf: seq<byte>, attrs: seq<Attribute>, header: nat, base: nat, hashes: seq<nat>)
    requires |hashes| == |attrs| && Packed(buf, attrs, header, base, hashes) && base <= header && |buf| < 0x1_0000
    ensures DecodeFrom(buf, base, header) == attrs <==> ShortNames(attrs)
  {
    assert attrs[..0] == [] && attrs[0..] == attrs;
    assert EntryStart(attrs, header, 0) == header;
    DecodedNamesShort(buf, base, header);
    if ShortNames(attrs) {
      DecodeRest(buf, attrs, header, base, hashes, 0);
    }
    hide DecodeFrom, Packed, ShortNames;
  }

  // ---- Writing an area ----

  lemma SpliceReadsBack(s: seq<byte>, off: nat, b: seq<byte>)
    requires off + |b| <= |s|
    ensures At(Splice(s, off, b), off, b)
  {
  }

  lemma SpliceElsewhere(s: seq<byte>, off: nat, b: seq<byte>, at: nat, c: seq<byte>)
    requires off + |b| <= |s| && At(s, at, c) && (off + |b| <= at || at + |c| <= off)
    ensures At(Splice(s, off, b), at, c)
  {
    var r := Splice(s, off, b);
    forall k | 0 <= k < |c| ensures r[at + k] == c[k] {
      assert s[at + k] == s[at..at + |c|][k];
    }
    assert r[at..at + |c|] == c;
  }

  lemma StartsMonotone(attrs: seq<Attribute>, header: nat, cap: nat, j: nat, k: nat)
    requires j <= k <= |attrs|
    ensures EntryStart(attrs, header, j) <= EntryStart(attrs, header, k)
    ensures ValueStart(attrs, cap, k) <= ValueStart(attrs, cap, j)
  {
    SizesMonotone(attrs, j, k);
    hide EntriesSize, ValuesSize;
  }

  /** Writing between the entries and the values keeps both. */
  lemma PlacedStays(s: seq<byte>, off: nat, b: seq<byte>, attrs: seq<Attribute>, header: nat, base: nat, hashes: seq<nat>, i: nat, k: nat)
    requires |hashes| == |attrs| && off + |b| <= |s| && k < i <= |attrs| && PlacedAt(s, attrs, header, base, hashes, k)
    requires EntryStart(attrs, header, i) <= off && off + |b| <= ValueStart(attrs, |s|, i)
    ensures PlacedAt(Splice(s, off, b), attrs, header, base, hashes, k)
  {
    hide *;
    var a, at, v := attrs[k], EntryStart(attrs, header, k), ValueStart(attrs, |s|, k + 1);
    PlacedIs(s, attrs, header, base, hashes, k);
    StartsGrow(attrs, header, |s|, k);
    StartsMonotone(attrs, header, |s|, k + 1, i);
    SpliceElsewhere(s, off, b, at, EntryHead(a, v - base, hashes[k]));
    SpliceElsewhere(s, off, b, at + 16, a.name);
    SpliceElsewhere(s, off, b, v, a.value);
    IsPlaced(Splice(s, off, b), attrs, header, base, hashes, k);
  }

  lemma FreeNext(s: seq<byte>, u: seq<byte>, attrs: seq<Attribute>, header: nat, i: nat)
    requires i < |attrs| && |u| == |s| && FreeBetween(s, attrs, header, i)
    requires EntryStart(attrs, header, i + 1) <= ValueStart(attrs, |s|, i + 1)
    requires EntryStart(attrs, header, i) <= EntryStart(attrs, header, i + 1)
    requires ValueStart(attrs, |s|, i + 1) <= ValueStart(attrs, |s|, i) <= |s|
    requires forall j :: EntryStart(attrs, header, i + 1) <= j < ValueStart(attrs, |s|, i + 1) ==> u[j] == s[j]
    ensures FreeBetween(u, attrs, header, i + 1)
  {
    hide EntryStart, ValueStart;
  }

  /** An entry's head and name are written as one piece. */
  lemma EntryParts(u: seq<byte>, at: nat, head: seq<byte>, name: seq<byte>)
    requires |head| == 16 && At(u, at, head + name)
    ensures At(u, at, head) && At(u, at + 16, name)
  {
    var entry := head + name;
    AtPart(u, at, entry, 0, 16);
    AtPart(u, at, entry, 16, |entry|);
    assert entry[0..16] == head && entry[16..|entry|] == name;
  }

  lemma TwoSplices(s: seq<byte>, at: nat, b: seq<byte>, v: nat, c: seq<byte>)
    requires at + |b| <= v && v + |c| <= |s|
    ensures var t := Splice(s, at, b); var u := Splice(t, v, c);
      |t| == |s| && |u| == |s| && At(u, at, b) && At(u, v, c) && forall j :: at + |b| <= j < v ==> u[j] == s[j]
  {
    var t := Splice(s, at, b);
    SpliceReadsBack(s, at, b);
    SpliceElsewhere(t, v, c, at, b);
    SpliceReadsBack(t, v, c);
    hide At;
  }

  /** The two writes for attribute `i`. */
  lemma PlacedNext(s: seq<byte>, t: seq<byte>, u: seq<byte>, attrs: seq<Attribute>, header: nat, base: nat, hashes: seq<nat>, i: nat)
    requires |hashes| == |attrs| && i < |attrs| && FreeBetween(s, attrs, header, i) && base <= header
    requires var a, at, v := attrs[i], EntryStart(attrs, header, i), ValueStart(attrs, |s|, i + 1);
      && base <= v && EntryStart(attrs, header, i + 1) <= v
      && v + |a.value| <= |s| && at + 16 + |a.name| <= EntryStart(attrs, header, i + 1)
      && at + |EntryHead(a, v - base, hashes[i]) + a.name| <= |s|
      && t == Splice(s, at, EntryHead(a, v - base, hashes[i]) + a.name) && u == Splice(t, v, a.value)
    ensures PlacedAt(u, attrs, header, base, hashes, i) && FreeBetween(u, attrs, header, i + 1)
  {
    hide *;
    var a, at, v := attrs[i], EntryStart(attrs, header, i), ValueStart(attrs, |s|, i + 1);
    var head := EntryHead(a, v - base, hashes[i]);
    StartsGrow(attrs, header, |s|, i);
    TwoSplices(s, at, head + a.name, v, a.value);
    EntryParts(u, at, head, a.name);
    IsPlaced(u, attrs, header, base, hashes, i);
    FreeNext(s, u, attrs, header, i);
  }

  lemma RoomFor(attrs: seq<Attribute>, header: nat, cap: nat, i: nat)
    requires i < |attrs| && Fits(attrs, header, cap)
    ensures EntryStart(attrs, header, i) + attrs[i].EntrySize() == EntryStart(attrs, header, i + 1)
    ensures ValueStart(attrs, cap, i) - attrs[i].ValueSize() == ValueStart(attrs, cap, i + 1)
    ensures EntryStart(attrs, header, i + 1) + 4 <= ValueStart(attrs, cap, i + 1)
    ensures ValueStart(attrs, cap, i) <= cap
    ensures |attrs[i].name| + 16 <= attrs[i].EntrySize() && |attrs[i].value| <= attrs[i].ValueSize()
  {
    SizesGrow(attrs, i);
    SizesMonotone(attrs, i + 1, |attrs|);
    assert attrs[..|attrs|] == attrs;
  }

  datatype XattrError = InsufficientSpace | MalformedBuffer

  /** The loop that write_inline and write_block share: entries forward, values
      backward. The check for a malformed buffer never fires. */
  method WriteEntries(buf: array<byte>, attrs: seq<Attribute>, header: nat, base: nat, hashes: seq<nat>) returns (r: Result<(), XattrError>)
    requires |hashes| == |attrs| && Fits(attrs, header, buf.Length) && base <= header
    requires header <= buf.Length && forall j :: header <= j < buf.Length ==> buf[j] == 0
    modifies buf
    ensures r == Ok(()) && Packed(buf[..], attrs, header, base, hashes)
    ensures buf[..header] == old(buf[..header])
  {
    hide *;
    ghost var start := buf[..];
    NothingPlaced(start, attrs, header);
    var entryOffset, valueEnd := header, buf.Length;
    for i := 0 to |attrs|
      invariant entryOffset == EntryStart(attrs, header, i) && valueEnd == ValueStart(attrs, buf.Length, i)
      invariant header <= entryOffset && valueEnd <= buf.Length
      invariant forall k :: 0 <= k < i ==> PlacedAt(buf[..], attrs, header, base, hashes, k)
      invariant FreeBetween(buf[..], attrs, header, i)
      invariant buf[..header] == start[..header]
    {
      ghost var s := buf[..];
      var a := attrs[i];
      RoomFor(attrs, header, buf.Length, i);
      valueEnd := valueEnd - a.ValueSize();
      if entryOffset + 16 + |a.name| > buf.Length {
        return Err(MalformedBuffer);
      }
      var entry := EntryHead(a, valueEnd - base, hashes[i]) + a.name;
      PutBytes(buf, entryOffset, entry);
      ghost var t := buf[..];
      PutBytes(buf, valueEnd, a.value);
      ghost var u := buf[..];
      PlacedNext(s, t, u, attrs, header, base, hashes, i);
      forall k | 0 <= k < i ensures PlacedAt(u, attrs, header, base, hashes, k) {
        PlacedStays(s, entryOffset, entry, attrs, header, base, hashes, i, k);
        PlacedStays(t, valueEnd, a.value, attrs, header, base, hashes, i, k);
      }
      HeaderStays(s, entryOffset, entry, header);
      HeaderStays(t, valueEnd, a.value, header);
      entryOffset := entryOffset + a.EntrySize();
    }
    PackedIs(buf[..], attrs, header, base, hashes);
    r := Ok(());
  }

  lemma NothingPlaced(buf: seq<byte>, attrs: seq<Attribute>, header: nat)
    requires header <= |buf| && forall j :: header <= j < |buf| ==> buf[j] == 0
    ensures EntryStart(attrs, header, 0) == header && ValueStart(attrs, |buf|, 0) == |buf|
    ensures FreeBetween(buf, attrs, header, 0)
  {
    assert attrs[..0] == [];
  }

  lemma PackedIs(buf: seq<byte>, attrs: seq<Attribute>, header: nat, base: nat, hashes: seq<nat>)
    requires |hashes| == |attrs| && Fits(attrs, header, |buf|) && FreeBetween(buf, attrs, header, |attrs|)
    requires forall k :: 0 <= k < |attrs| ==> PlacedAt(buf, attrs, header, base, hashes, k)
    ensures Packed(buf, attrs, header, base, hashes)
  {
    hide PlacedAt, FreeBetween, Fits;
  }

  lemma HeaderStays(s: seq<byte>, off: nat, b: seq<byte>, header: nat)
    requires off + |b| <= |s| && (header <= off || b == []) && header <= |s|
    ensures Splice(s, off, b)[..header] == s[..header]
  {
  }

  // ---- Sorting the attributes of a block ----

  /** Byte order. */
  predicate NameUpTo(a: seq<byte>, b: seq<byte>)
    decreases |a|
  {
    a == [] || (b != [] && (a[0] < b[0] || (a[0] == b[0] && NameUpTo(a[1..], b[1..]))))
  }

  /** By prefix number, then length of the name, then the name. */
  predicate UpTo(a: Attribute, b: Attribute) {
    || a.index < b.index
    || (a.index == b.index && |a.name| < |b.name|)
    || (a.index == b.index && |a.name| == |b.name| && NameUpTo(a.name, b.name))
  }

  lemma {:induction false} NameUpToTotal(a: seq<byte>, b: seq<byte>)
    ensures NameUpTo(a, b) || NameUpTo(b, a)
    decreases |a|
  {
    if a != [] && b != [] {
      NameUpToTotal(a[1..], b[1..]);
    }
  }

  lemma {:induction false} NameUpToTrans(a: seq<byte>, b: seq<byte>, c: seq<byte>)
    requires NameUpTo(a, b) && NameUpTo(b, c)
    ensures NameUpTo(a, c)
    decreases |a|
  {
    if a != [] && a[0] == b[0] && b[0] == c[0] {
      NameUpToTrans(a[1..], b[1..], c[1..]);
    }
  }

  lemma UpToTotal(a: Attribute, b: Attribute)
    ensures UpTo(a, b) || UpTo(b, a)
  {
    NameUpToTotal(a.name, b.name);
  }

  lemma UpToTrans(a: Attribute, b: Attribute, c: Attribute)
    requires UpTo(a, b) && UpTo(b, c)
    ensures UpTo(a, c)
  {
    if NameUpTo(a.name, b.name) && NameUpTo(b.name, c.name) {
      NameUpToTrans(a.name, b.name, c.name);
    }
  }

  function InsertAttribute(sorted: seq<Attribute>, a: Attribute): (r: seq<Attribute>)
    ensures |r| == |sorted| + 1
  {
    if sorted == [] then [a]
    else
      var last := sorted[|sorted| - 1];
      if UpTo(last, a) then sorted + [a] else InsertAttribute(sorted[..|sorted| - 1], a) + [last]
  }

  /** `sort_by` on number, length and name. */
  function Sorted(attrs: seq<Attribute>): (r: seq<Attribute>)
    ensures |r| == |attrs|
  {
    if attrs == [] then [] else InsertAttribute(Sorted(attrs[..|attrs| - 1]), attrs[|attrs| - 1])
  }

  predicate InOrder(attrs: seq<Attribute>) {
    forall j, k :: 0 <= j < k < |attrs| ==> UpTo(attrs[j], attrs[k])
  }

  predicate AllUpTo(attrs: seq<Attribute>, a: Attribute) {
    forall k :: 0 <= k < |attrs| ==> UpTo(attrs[k], a)
  }

  lemma OrderSnoc(attrs: seq<Attribute>, a: Attribute)
    ensures InOrder(attrs + [a]) <==> InOrder(attrs) && AllUpTo(attrs, a)
  {
    var all := attrs + [a];
    assert forall k :: 0 <= k < |attrs| ==> all[k] == attrs[k];
    hide UpTo;
    if InOrder(all) {
      forall k | 0 <= k < |attrs| ensures UpTo(attrs[k], a) {
        assert UpTo(all[k], all[|attrs|]);
      }
    }
  }

  lemma {:induction false} InsertAttributeSorts(sorted: seq<Attribute>, a: Attribute, bound: Attribute)
    requires InOrder(sorted)
    ensures InOrder(InsertAttribute(sorted, a))
    ensures multiset(InsertAttribute(sorted, a)) == multiset(sorted) + multiset{a}
    ensures AllUpTo(sorted, bound) && UpTo(a, bound) ==> AllUpTo(InsertAttribute(sorted, a), bound)
  {
    hide UpTo;
    if sorted != [] {
      var n := |sorted| - 1;
      var front, last := sorted[..n], sorted[n];
      assert sorted == front + [last];
      OrderSnoc(front, last);
      if UpTo(last, a) {
        forall k | 0 <= k < |sorted| ensures UpTo(sorted[k], a) {
          if k < n {
            assert UpTo(front[k], last);
            UpToTrans(sorted[k], last, a);
          }
        }
        OrderSnoc(sorted, a);
      } else {
        UpToTotal(a, last);
        InsertAttributeSorts(front, a, last);
        InsertAttributeSorts(front, a, bound);
        OrderSnoc(InsertAttribute(front, a), last);
      }
    }
  }

  /** The sorted list holds the same attributes, in order. */
  lemma {:induction false} SortedSorts(attrs: seq<Attribute>)
    ensures InOrder(Sorted(attrs)) && multiset(Sorted(attrs)) == multiset(attrs)
  {
    hide InOrder, UpTo, AllUpTo;
    if attrs == [] {
      assert InOrder([]) by {
        OrderNone();
      }
    } else {
      var n := |attrs| - 1;
      assert attrs == attrs[..n] + [attrs[n]];
      SortedSorts(attrs[..n]);
      InsertAttributeSorts(Sorted(attrs[..n]), attrs[n], attrs[n]);
    }
  }

  lemma OrderNone()
    ensures InOrder([])
  {
  }

  lemma {:induction false} InsertSizes(sorted: seq<Attribute>, a: Attribute)
    ensures EntriesSize(InsertAttribute(sorted, a)) == EntriesSize(sorted) + a.EntrySize()
    ensures ValuesSize(InsertAttribute(sorted, a)) == ValuesSize(sorted) + a.ValueSize()
  {
    hide UpTo, Attribute.EntrySize, Attribute.ValueSize;
    if sorted == [] {
      SizesSnoc([], a);
      assert [] + [a] == [a];
    } else {
      var n := |sorted| - 1;
      SizesSnoc(sorted, a);
      InsertSizes(sorted[..n], a);
      SizesSnoc(InsertAttribute(sorted[..n], a), sorted[n]);
    }
  }

  lemma SizesSnoc(attrs: seq<Attribute>, a: Attribute)
    ensures EntriesSize(attrs + [a]) == EntriesSize(attrs) + a.EntrySize()
    ensures ValuesSize(attrs + [a]) == ValuesSize(attrs) + a.ValueSize()
  {
    assert (attrs + [a])[..|attrs|] == attrs;
  }

  /** Sorting does not change how much room is needed. */
  lemma {:induction false} SortedSizes(attrs: seq<Attribute>)
    ensures EntriesSize(Sorted(attrs)) == EntriesSize(attrs) && ValuesSize(Sorted(attrs)) == ValuesSize(attrs)
  {
    hide UpTo, Attribute.EntrySize, Attribute.ValueSize;
    if attrs != [] {
      var n := |attrs| - 1;
      SortedSizes(attrs[..n]);
      InsertSizes(Sorted(attrs[..n]), attrs[n]);
    }
  }

  lemma SameShortness(a: seq<Attribute>, b: seq<Attribute>)
    requires multiset(a) == multiset(b) && ShortNames(a)
    ensures ShortNames(b)
  {
    forall k | 0 <= k < |b| ensures |b[k].name| <= 255 {
      assert b[k] in multiset(b);
      assert b[k] in a;
    }
  }

  // ---- The two areas of an inode ----

  const INODE_HEADER: nat := 4
  const BLOCK_HEADER: nat := 32
  const XATTR_MAGIC: nat := 0xEA02_0000

  /** Room for one more attribute behind `used` bytes, end mark included. */
  predicate HasRoom(used: nat, a: Attribute, capacity: nat) { used + a.TotalSize() + 4 <= capacity }

  class XattrState {
    const inodeCapacity: nat
    const blockCapacity: nat
    var inlineAttrs: seq<Attribute>
    var blockAttrs: seq<Attribute>
    var usedInline: nat
    var usedBlock: nat

    /** The counters say how far entries and values reach, and what was accepted
        fits. */
    predicate Valid()
      reads this
    {
      && usedInline == INODE_HEADER + EntriesSize(inlineAttrs) + ValuesSize(inlineAttrs)
      && usedBlock == BLOCK_HEADER + EntriesSize(blockAttrs) + ValuesSize(blockAttrs)
      && (inlineAttrs != [] ==> Fits(inlineAttrs, INODE_HEADER, inodeCapacity))
      && (blockAttrs != [] ==> Fits(blockAttrs, BLOCK_HEADER, blockCapacity))
    }

    constructor (inodeCapacity: nat, blockCapacity: nat)
      ensures Valid() && inlineAttrs == [] && blockAttrs == []
      ensures this.inodeCapacity == inodeCapacity && this.blockCapacity == blockCapacity
    {
      this.inodeCapacity, this.blockCapacity := inodeCapacity, blockCapacity;
      inlineAttrs, blockAttrs := [], [];
      usedInline, usedBlock := INODE_HEADER, BLOCK_HEADER;
    }

    /** An attribute goes into the inode if it fits there, else into the block, and
        is refused only if it fits in neither. */
    method Add(a: Attribute) returns (r: Result<(), XattrError>)
      requires Valid()
      modifies this
      ensures Valid()
      ensures (inlineAttrs, blockAttrs, r) ==
        if HasRoom(old(usedInline), a, inodeCapacity) then (old(inlineAttrs) + [a], old(blockAttrs), Ok(()))
        else if HasRoom(old(usedBlock), a, blockCapacity) then (old(inlineAttrs), old(blockAttrs) + [a], Ok(()))
        else (old(inlineAttrs), old(blockAttrs), Err(InsufficientSpace))
    {
      SizesSnoc(inlineAttrs, a);
      SizesSnoc(blockAttrs, a);
      hide EntriesSize, ValuesSize, Attribute.EntrySize, Attribute.ValueSize;
      var total := a.TotalSize();
      if usedInline + total + 4 <= inodeCapacity {
        usedInline := usedInline + total;
        inlineAttrs := inlineAttrs + [a];
        return Ok(());
      }
      if usedBlock + total + 4 <= blockCapacity {
        usedBlock := usedBlock + total;
        blockAttrs := blockAttrs + [a];
        return Ok(());
      }
      r := Err(InsufficientSpace);
    }

    /** The inode's area never overflows and, short names given, reads back as the
        attributes put into it. */
    method WriteInline() returns (r: Result<seq<byte>, XattrError>)
      requires Valid() && inlineAttrs != [] && inodeCapacity < 0x1_0000
      ensures r.Ok? && |r.value| == inodeCapacity && Get32(r.value, 0) == XATTR_MAGIC
      ensures DecodeFrom(r.value, INODE_HEADER, INODE_HEADER) == inlineAttrs <==> ShortNames(inlineAttrs)
    {
      FitsIs(inlineAttrs, INODE_HEADER, inodeCapacity);
      hide *;
      Headers();
      var buf := new byte[inodeCapacity](i => 0);
      PutBytes(buf, 0, LE32(XATTR_MAGIC));
      var hashes := seq(|inlineAttrs|, i => 0);
      var done := WriteEntries(buf, inlineAttrs, INODE_HEADER, INODE_HEADER, hashes);
      PackedReadsBack(buf[..], inlineAttrs, INODE_HEADER, INODE_HEADER, hashes);
      MagicReads(buf[..], []);
      r := Ok(buf[..]);
    }

    /** The block's area, with the attributes in order. `hashes` are those of the
        sorted attributes. */
    method WriteBlock(hashes: seq<nat>) returns (r: Result<seq<byte>, XattrError>)
      requires Valid() && blockAttrs != [] && blockCapacity < 0x1_0000 && |hashes| == |blockAttrs|
      ensures r.Ok? && |r.value| == blockCapacity && Get32(r.value, 0) == XATTR_MAGIC
      ensures DecodeFrom(r.value, 0, BLOCK_HEADER) == Sorted(blockAttrs) <==> ShortNames(blockAttrs)
    {
      FitsIs(blockAttrs, BLOCK_HEADER, blockCapacity);
      SortedFits(blockAttrs, BLOCK_HEADER, blockCapacity);
      hide *;
      Headers();
      var buf := new byte[blockCapacity](i => 0);
      var header := LE32(XATTR_MAGIC) + LE32(1) + LE32(1) + Zeros(20);
      PutBytes(buf, 0, header);
      var sorted := Sorted(blockAttrs);
      var done := WriteEntries(buf, sorted, BLOCK_HEADER, 0, hashes);
      PackedReadsBack(buf[..], sorted, BLOCK_HEADER, 0, hashes);
      MagicReads(buf[..], LE32(1) + LE32(1) + Zeros(20));
      r := Ok(buf[..]);
    }
  }

  lemma Headers()
    ensures INODE_HEADER == 4 && BLOCK_HEADER == 32
  {
  }

  lemma FitsIs(attrs: seq<Attribute>, header: nat, cap: nat)
    requires Fits(attrs, header, cap)
    ensures header + 4 <= cap
  {
  }

  lemma SortedFits(attrs: seq<Attribute>, header: nat, cap: nat)
    requires Fits(attrs, header, cap)
    ensures Fits(Sorted(attrs), header, cap) && |Sorted(attrs)| == |attrs|
    ensures ShortNames(Sorted(attrs)) <==> ShortNames(attrs)
  {
    SortedSizes(attrs);
    SortedSorts(attrs);
    if ShortNames(attrs) {
      SameShortness(attrs, Sorted(attrs));
    }
    if ShortNames(Sorted(attrs)) {
      SameShortness(Sorted(attrs), attrs);
    }
    hide Sorted, EntriesSize, ValuesSize, ShortNames;
  }

  lemma MagicReads(buf: seq<byte>, rest: seq<byte>)
    requires var header := LE32(XATTR_MAGIC) + rest; |header| <= |buf| && buf[..|header|] == header
    ensures Get32(buf, 0) == XATTR_MAGIC
  {
    var header := LE32(XATTR_MAGIC) + rest;
    assert header[0..4] == LE32(XATTR_MAGIC);
    SliceOfSlice(buf, 0, |header|, 0, 4);
    Get32OfLE32(buf, 0, XATTR_MAGIC);
  }

  /** A name of 256 bytes fits into a block, and is lost there. */
  lemma LongNameLost(value: seq<byte>, buf: seq<byte>, hashes: seq<nat>)
    requires |value| < 3000 && |buf| == 4096 && |hashes| == 1
    ensures var a := Attribute(1, Zeros(256), value);
      && HasRoom(BLOCK_HEADER, a, 4096)
      && (Packed(buf, [a], BLOCK_HEADER, 0, hashes) ==> DecodeFrom(buf, 0, BLOCK_HEADER) != [a])
  {
    var a := Attribute(1, Zeros(256), value);
    if Packed(buf, [a], BLOCK_HEADER, 0, hashes) {
      PackedReadsBack(buf, [a], BLOCK_HEADER, 0, hashes);
    }
    hide Packed, DecodeFrom;
  }
}
