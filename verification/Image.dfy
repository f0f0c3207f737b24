/** The image file: a byte string with a cursor, written at the cursor and
    extended with zeros as a sparse file is. */
module Image {
  import opened Basics

  /** The bytes of `img` after `b` is written at `off`. */
  function WriteAt(img: seq<byte>, off: nat, b: seq<byte>): (r: seq<byte>)
    ensures |r| == Max(|img|, off + |b|)
    ensures forall k :: 0 <= k < |r| ==>
      r[k] == if off <= k < off + |b| then b[k - off] else if k < |img| then img[k] else 0
  {
    var whole := SetLen(img, off + |b|);
    whole[..off] + b + whole[off + |b|..]
  }

  /** Grow to at least `n` bytes; the new bytes read as zero. */
  function SetLen(img: seq<byte>, n: nat): (r: seq<byte>)
    ensures |r| == Max(|img|, n)
    ensures forall k :: 0 <= k < |r| ==> r[k] == if k < |img| then img[k] else 0
  {
    if n <= |img| then img else img + Zeros(n - |img|)
  }

  /** `img` holds exactly `b` from byte `off` on. */
  predicate At(img: seq<byte>, off: nat, b: seq<byte>) {
    off + |b| <= |img| && img[off..off + |b|] == b
  }

  /** `b` lies wholly below byte `limit` and is intact. */
  predicate AtBelow(img: seq<byte>, limit: nat, off: nat, b: seq<byte>) {
    At(img, off, b) && off + |b| <= limit
  }

  /** `img` is at least as long as `was`, and the bytes `was` had below `limit`
      are still there. */
  predicate SameBelow(was: seq<byte>, img: seq<byte>, limit: nat) {
    |was| <= |img| && was[..Min(limit, |was|)] == img[..Min(limit, |was|)]
  }

  lemma WriteReadsBack(img: seq<byte>, off: nat, b: seq<byte>)
    ensures At(WriteAt(img, off, b), off, b)
  {
  }

  /** A write does not disturb bytes it does not overlap. */
  lemma WriteElsewhere(img: seq<byte>, off: nat, b: seq<byte>, at: nat, c: seq<byte>)
    requires At(img, at, c)
    requires off + |b| <= at || at + |c| <= off
    ensures At(WriteAt(img, off, b), at, c)
  {
    var r := WriteAt(img, off, b);
    forall k | 0 <= k < |c| ensures r[at + k] == c[k] {
      assert img[at + k] == img[at..at + |c|][k];
    }
    assert r[at..at + |c|] == c;
  }

  lemma WriteAbove(img: seq<byte>, off: nat, b: seq<byte>, limit: nat)
    requires limit <= off
    ensures SameBelow(img, WriteAt(img, off, b), limit)
  {
  }

  lemma SameBelowTrans(a: seq<byte>, b: seq<byte>, c: seq<byte>, lo: nat, hi: nat)
    requires SameBelow(a, b, lo) && SameBelow(b, c, hi) && lo <= hi
    ensures SameBelow(a, c, lo)
  {
    forall k | 0 <= k < Min(lo, |a|) ensures a[k] == c[k] {
      assert a[..Min(lo, |a|)][k] == b[..Min(lo, |a|)][k];
      assert b[..Min(hi, |b|)][k] == c[..Min(hi, |b|)][k];
    }
  }

  lemma AtSurvives(was: seq<byte>, img: seq<byte>, limit: nat, off: nat, b: seq<byte>)
    requires SameBelow(was, img, limit) && AtBelow(was, limit, off, b)
    ensures AtBelow(img, limit, off, b)
  {
    var m := Min(limit, |was|);
    SliceOfSlice(was, 0, m, off, off + |b|);
    SliceOfSlice(img, 0, m, off, off + |b|);
  }

  lemma AtPart(img: seq<byte>, off: nat, b: seq<byte>, lo: nat, hi: nat)
    requires At(img, off, b) && lo <= hi <= |b|
    ensures At(img, off + lo, b[lo..hi])
  {
    var whole := img[off..off + |b|];
    forall k | lo <= k < hi ensures img[off + k] == b[k] {
      assert whole[k] == img[off + k];
    }
    assert img[off + lo..off + hi] == b[lo..hi];
  }

  lemma AtJoin(img: seq<byte>, off: nat, a: seq<byte>, b: seq<byte>)
    requires At(img, off, a) && At(img, off + |a|, b)
    ensures At(img, off, a + b)
  {
    assert img[off..off + |a + b|] == img[off..off + |a|] + img[off + |a|..off + |a| + |b|];
  }

  /** `img` is at least as long as `was` and agrees with it from `lo` to `hi`. */
  predicate SameIn(was: seq<byte>, img: seq<byte>, lo: nat, hi: nat) {
    |was| <= |img| && forall k :: lo <= k < hi && k < |was| ==> was[k] == img[k]
  }

  lemma SameInTrans(a: seq<byte>, b: seq<byte>, c: seq<byte>, lo: nat, hi: nat)
    requires SameIn(a, b, lo, hi) && SameIn(b, c, lo, hi)
    ensures SameIn(a, c, lo, hi)
  {
  }

  lemma SameInPart(a: seq<byte>, b: seq<byte>, lo: nat, hi: nat, lo': nat, hi': nat)
    requires SameIn(a, b, lo, hi) && lo <= lo' && hi' <= hi
    ensures SameIn(a, b, lo', hi')
  {
  }

  lemma BelowIsIn(was: seq<byte>, img: seq<byte>, limit: nat, lo: nat)
    requires SameBelow(was, img, limit)
    ensures SameIn(was, img, lo, limit)
  {
    forall k | lo <= k < limit && k < |was| ensures was[k] == img[k] {
      assert was[..Min(limit, |was|)][k] == img[..Min(limit, |was|)][k];
    }
  }

  /** A write, or growing the file, changes nothing outside what it writes. */
  lemma WriteOutside(img: seq<byte>, off: nat, b: seq<byte>, lo: nat, hi: nat)
    requires off + |b| <= lo || hi <= off
    ensures SameIn(img, WriteAt(img, off, b), lo, hi)
  {
  }

  /** `img` is at least as long as `was` and agrees with it from `lo` on. */
  predicate SameFrom(was: seq<byte>, img: seq<byte>, lo: nat) {
    SameIn(was, img, lo, |was|)
  }

  lemma WriteBefore(img: seq<byte>, off: nat, b: seq<byte>, lo: nat)
    requires off + |b| <= lo
    ensures SameFrom(img, WriteAt(img, off, b), lo)
  {
  }

  lemma SameFromTrans(a: seq<byte>, b: seq<byte>, c: seq<byte>, lo: nat, hi: nat)
    requires SameFrom(a, b, lo) && SameFrom(b, c, hi)
    ensures SameFrom(a, c, Max(lo, hi))
  {
  }

  lemma FromIsIn(a: seq<byte>, b: seq<byte>, from: nat, lo: nat, hi: nat)
    requires SameFrom(a, b, from) && from <= lo
    ensures SameIn(a, b, lo, hi)
  {
  }

  lemma AtIn(was: seq<byte>, img: seq<byte>, lo: nat, hi: nat, off: nat, b: seq<byte>)
    requires SameIn(was, img, lo, hi) && At(was, off, b) && lo <= off && off + |b| <= hi
    ensures At(img, off, b)
  {
    var x, y := was[off..off + |b|], img[off..off + |b|];
    forall k | 0 <= k < |b| ensures y[k] == x[k] {
      assert was[off + k] == img[off + k];
    }
  }

  class ImageFile {
    var bytes: seq<byte>
    var pos: nat

    constructor (len: nat)
      ensures bytes == Zeros(len) && pos == 0
    {
      bytes := Zeros(len);
      pos := 0;
    }

    method Seek(p: nat)
      modifies this
      ensures pos == p && bytes == old(bytes)
    {
      pos := p;
    }

    method WriteAll(b: seq<byte>)
      modifies this
      ensures bytes == WriteAt(old(bytes), old(pos), b)
      ensures pos == old(pos) + |b|
    {
      bytes := WriteAt(bytes, pos, b);
      pos := pos + |b|;
    }

    /** `set_len`, which the formatter only ever uses to grow the file. */
    method Grow(len: nat)
      modifies this
      ensures bytes == SetLen(old(bytes), len) && pos == old(pos)
    {
      bytes := SetLen(bytes, len);
    }

    /** Advance to the next block boundary (formatter.rs align_to_block). */
    method AlignToBlock()
      modifies this
      ensures bytes == old(bytes)
      ensures pos % 4096 == 0 && old(pos) <= pos < old(pos) + 4096
      ensures pos == DivCeil(old(pos), 4096) * 4096
    {
      if pos % 4096 != 0 {
        pos := (pos / 4096 + 1) * 4096;
      }
    }
  }
}
