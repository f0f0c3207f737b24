/** Bits in a byte buffer, least significant first, and counting them. */
module Bitmaps {
  import opened Basics

  // ---- One byte ----

  predicate BitOf(x: nat, k: nat)
    decreases k
  {
    if k == 0 then x % 2 == 1 else BitOf(x / 2, k - 1)
  }

  /** `x | 1 << k` and `x & !(1 << k)`. */
  function PutBit(x: nat, k: nat, v: bool): nat
    decreases k
  {
    if k == 0 then x / 2 * 2 + (if v then 1 else 0) else x % 2 + 2 * PutBit(x / 2, k - 1, v)
  }

  lemma {:induction false} PutBitReads(x: nat, k: nat, v: bool, j: nat)
    ensures BitOf(PutBit(x, k, v), j) == if j == k then v else BitOf(x, j)
    decreases k
  {
    if k > 0 && j > 0 {
      PutBitReads(x / 2, k - 1, v, j - 1);
      assert PutBit(x, k, v) / 2 == PutBit(x / 2, k - 1, v);
    }
  }

  function Pow2(n: nat): (p: nat)
    ensures p >= 1
  {
    if n == 0 then 1 else 2 * Pow2(n - 1)
  }

  lemma {:induction false} PutBitSize(x: nat, k: nat, v: bool, n: nat)
    requires x < Pow2(n) && k < n
    ensures PutBit(x, k, v) < Pow2(n)
    decreases n
  {
    assert Pow2(n) == 2 * Pow2(n - 1);
    if k > 0 {
      assert x / 2 < Pow2(n - 1);
      PutBitSize(x / 2, k - 1, v, n - 1);
    }
  }

  lemma AllOnes(k: nat)
    requires k < 8
    ensures BitOf(255, k) && !BitOf(0, k)
  {
    assert Pow2(k) <= 128 by {
      assert Pow2(0) == 1 && Pow2(1) == 2 && Pow2(2) == 4 && Pow2(3) == 8;
      assert Pow2(4) == 16 && Pow2(5) == 32 && Pow2(6) == 64 && Pow2(7) == 128;
    }
    OnesFrom(255, k);
    ZeroBits(k);
  }

  lemma {:induction false} ZeroBits(k: nat)
    ensures !BitOf(0, k)
  {
    if k > 0 {
      ZeroBits(k - 1);
    }
  }

  lemma {:induction false} OnesFrom(x: nat, k: nat)
    requires x in {255, 127, 63, 31, 15, 7, 3, 1} && Pow2(k) <= x
    ensures BitOf(x, k)
    decreases k
  {
    if k > 0 {
      assert Pow2(k) == 2 * Pow2(k - 1);
      OnesFrom(x / 2, k - 1);
    }
  }

  // ---- A buffer ----

  /** The bits of a buffer, in order. */
  function Bits(b: seq<byte>): (s: seq<bool>)
    ensures |s| == 8 * |b| && forall i :: 0 <= i < |s| ==> s[i] == BitOf(b[i / 8], i % 8)
  {
    seq(8 * |b|, i requires 0 <= i < 8 * |b| => BitOf(b[i / 8], i % 8))
  }

  lemma ByteUpdateBits(b: seq<byte>, i: nat, x: byte, v: bool)
    requires i < 8 * |b| && x == PutBit(b[i / 8], i % 8, v)
    ensures Bits(b[i / 8 := x]) == Bits(b)[i := v]
  {
    var c := b[i / 8 := x];
    forall j | 0 <= j < 8 * |b| ensures Bits(c)[j] == Bits(b)[i := v][j] {
      if j / 8 == i / 8 {
        PutBitReads(b[i / 8], i % 8, v, j % 8);
        assert j % 8 == i % 8 <==> j == i;
      }
    }
  }

  /** `bitmap[i / 8] |= 1 << (i % 8)`, or the same with `&= !`. */
  method Put(buf: array<byte>, i: nat, v: bool)
    requires i < 8 * buf.Length
    modifies buf
    ensures Bits(buf[..]) == Bits(old(buf[..]))[i := v]
  {
    hide *;
    ghost var was := buf[..];
    ByteFits(buf[i / 8], i % 8, v);
    var x: byte := PutBit(buf[i / 8], i % 8, v);
    buf[i / 8] := x;
    assert buf[..] == was[i / 8 := x];
    ByteUpdateBits(was, i, x, v);
  }

  lemma ByteFits(x: byte, k: nat, v: bool)
    requires k < 8
    ensures PutBit(x, k, v) < 256
  {
    assert Pow2(8) == 256;
    PutBitSize(x, k, v, 8);
  }

  /** `(bitmap[i / 8] >> (i % 8)) & 1`. */
  method Has(buf: array<byte>, i: nat) returns (v: bool)
    requires i < 8 * buf.Length
    ensures v == Bits(buf[..])[i]
  {
    v := BitOf(buf[i / 8], i % 8);
  }

  // ---- Ranges and counts ----

  /** `bits` with positions `lo` to `hi` set to `v`. */
  function Filled(bits: seq<bool>, lo: nat, hi: nat, v: bool): (r: seq<bool>)
    ensures |r| == |bits| && forall i :: 0 <= i < |r| ==> r[i] == if lo <= i < hi then v else bits[i]
  {
    seq(|bits|, i requires 0 <= i < |bits| => if lo <= i < hi then v else bits[i])
  }

  lemma FilledNone(bits: seq<bool>, lo: nat, hi: nat, v: bool)
    requires hi <= lo
    ensures Filled(bits, lo, hi, v) == bits
  {
  }

  lemma FilledMore(bits: seq<bool>, lo: nat, hi: nat, v: bool)
    requires lo <= hi < |bits|
    ensures Filled(bits, lo, hi, v)[hi := v] == Filled(bits, lo, hi + 1, v)
  {
  }

  /** How many of the first `n` bits are set. */
  function Count(bits: seq<bool>, n: nat): (c: nat)
    requires n <= |bits|
    ensures c <= n
  {
    if n == 0 then 0 else Count(bits, n - 1) + if bits[n - 1] then 1 else 0
  }

  /** How many of the first `n` bits are clear. */
  function Clear(bits: seq<bool>, n: nat): nat
    requires n <= |bits|
  {
    n - Count(bits, n)
  }

  lemma {:induction false} CountPut(bits: seq<bool>, n: nat, i: nat, v: bool)
    requires n <= |bits| && i < |bits|
    ensures Count(bits[i := v], n)
         == Count(bits, n) + if i < n then (if v then 1 else 0) - (if bits[i] then 1 else 0) else 0
  {
    if n > 0 {
      CountPut(bits, n - 1, i, v);
    }
  }

  lemma {:induction false} CountSame(a: seq<bool>, b: seq<bool>, n: nat)
    requires n <= |a| && n <= |b| && forall i :: 0 <= i < n ==> a[i] == b[i]
    ensures Count(a, n) == Count(b, n)
  {
    if n > 0 {
      CountSame(a, b, n - 1);
    }
  }

  lemma {:induction false} CountPrefix(bits: seq<bool>, n: nat, m: nat)
    requires n <= |bits| && m <= |bits| && forall i :: 0 <= i < |bits| ==> bits[i] == (i < m)
    ensures Count(bits, n) == Min(n, m)
  {
    if n > 0 {
      CountPrefix(bits, n - 1, m);
    }
  }

  /** Set positions `lo` to `hi`. */
  method PutRange(buf: array<byte>, lo: nat, hi: nat, v: bool)
    requires hi <= 8 * buf.Length
    modifies buf
    ensures Bits(buf[..]) == Filled(Bits(old(buf[..])), lo, hi, v)
  {
    hide *;
    ghost var was := Bits(buf[..]);
    assert |was| == 8 * buf.Length;
    FilledNone(was, lo, lo, v);
    if hi <= lo {
      FilledNone(was, lo, hi, v);
    } else {
      for i := lo to hi
        invariant Bits(buf[..]) == Filled(was, lo, i, v)
      {
        FilledMore(was, lo, i, v);
        Put(buf, i, v);
      }
    }
  }
}
