/** Types and small facts shared by every part of the model: optional values,
    bytes, little-endian numbers, and overwriting part of a buffer. */
module Basics {

  datatype Option<+T> = None | Some(value: T)

  datatype Result<+T, +E> = Ok(value: T) | Err(error: E)

  type byte = b: int | 0 <= b < 256

  /** One path component, as raw bytes. */
  type Name = seq<byte>

  function Max(a: int, b: int): int { if a < b then b else a }

  function Min(a: int, b: int): int { if a < b then a else b }

  function DivCeil(n: nat, d: nat): nat
    requires d > 0
  {
    (n + d - 1) / d
  }

  /** `n` zero bytes. */
  function Zeros(n: nat): (z: seq<byte>)
    ensures |z| == n && forall i :: 0 <= i < n ==> z[i] == 0
  {
    seq(n, i => 0)
  }

  // ---- Little-endian numbers (types.rs put_u16 / put_u32 and their readers) ----

  function LE16(v: nat): (b: seq<byte>)
    ensures |b| == 2
  {
    [v % 256, v / 256 % 256]
  }

  function LE32(v: nat): (b: seq<byte>)
    ensures |b| == 4
  {
    [v % 256, v / 256 % 256, v / 65536 % 256, v / 16777216 % 256]
  }

  function Get8(s: seq<byte>, off: nat): nat
    requires off < |s|
  {
    s[off]
  }

  function Get16(s: seq<byte>, off: nat): (v: nat)
    requires off + 2 <= |s|
    ensures v < 0x1_0000
  {
    var b0: int, b1: int := s[off], s[off + 1];
    b0 + 256 * b1
  }

  function Get32(s: seq<byte>, off: nat): (v: nat)
    requires off + 4 <= |s|
    ensures v < 0x1_0000_0000
  {
    var b0: int, b1: int, b2: int, b3: int := s[off], s[off + 1], s[off + 2], s[off + 3];
    b0 + 256 * b1 + 65536 * b2 + 16777216 * b3
  }

  lemma Get16OfLE16(s: seq<byte>, off: nat, v: nat)
    requires off + 2 <= |s| && s[off..off + 2] == LE16(v) && v < 0x1_0000
    ensures Get16(s, off) == v
  {
    assert s[off] == s[off..off + 2][0] && s[off + 1] == s[off..off + 2][1];
  }

  lemma SplitLE32(v: nat)
    requires v < 0x1_0000_0000
    ensures v % 256 + 256 * (v / 256 % 256) + 65536 * (v / 65536 % 256) + 16777216 * (v / 16777216 % 256) == v
  {
    assert v / 65536 == v / 256 / 256;
    assert v / 16777216 == v / 65536 / 256;
    assert v / 16777216 < 256;
  }

  lemma Get32OfLE32(s: seq<byte>, off: nat, v: nat)
    requires off + 4 <= |s| && s[off..off + 4] == LE32(v) && v < 0x1_0000_0000
    ensures Get32(s, off) == v
  {
    assert s[off] == s[off..off + 4][0] && s[off + 1] == s[off..off + 4][1];
    assert s[off + 2] == s[off..off + 4][2] && s[off + 3] == s[off..off + 4][3];
    SplitLE32(v);
  }

  /** Reading a number through a slice that contains it. */
  lemma GetInSlice(b: seq<byte>, lo: nat, hi: nat, off: nat)
    requires lo <= off && off + 2 <= hi <= |b|
    ensures Get16(b, off) == Get16(b[lo..hi], off - lo)
    ensures off + 4 <= hi ==> Get32(b, off) == Get32(b[lo..hi], off - lo)
  {
  }

  // ---- Overwriting part of a buffer ----

  /** `s` with `b` written over the bytes from `off` on. */
  function Splice(s: seq<byte>, off: nat, b: seq<byte>): (r: seq<byte>)
    requires off + |b| <= |s|
    ensures |r| == |s|
    ensures forall k :: 0 <= k < |s| ==> r[k] == if off <= k < off + |b| then b[k - off] else s[k]
  {
    s[..off] + b + s[off + |b|..]
  }

  /** `buf[off..off + b.len()].copy_from_slice(b)`. */
  method PutBytes(buf: array<byte>, off: nat, b: seq<byte>)
    requires off + |b| <= buf.Length
    modifies buf
    ensures buf[..] == Splice(old(buf[..]), off, b)
  {
    for k := 0 to |b|
      invariant forall j :: 0 <= j < buf.Length ==> buf[j] == if off <= j < off + k then b[j - off] else old(buf[j])
    {
      buf[off + k] := b[k];
    }
  }

  /** Put the next piece where the zeros of a half-filled buffer begin. */
  method PutNext(buf: array<byte>, ghost done: seq<byte>, off: nat, b: seq<byte>)
    requires off == |done| && off + |b| <= buf.Length && buf[..] == done + Zeros(buf.Length - off)
    modifies buf
    ensures buf[..] == done + b + Zeros(buf.Length - off - |b|)
  {
    PutBytes(buf, off, b);
    assert buf[..] == done + b + Zeros(buf.Length - off - |b|);
  }

  /** Round up to a multiple of four (dir.rs and xattr.rs `align_up(n, 4)`). */
  function Align4(n: nat): (r: nat)
    ensures n <= r < n + 4 && r % 4 == 0
  {
    (n + 3) / 4 * 4
  }

  /** The part of a concatenation that lies wholly in its right operand. */
  lemma SliceRight<T>(a: seq<T>, b: seq<T>, lo: nat, hi: nat)
    requires |a| <= lo <= hi <= |a| + |b|
    ensures (a + b)[lo..hi] == b[lo - |a|..hi - |a|]
  {
  }

  lemma SliceOfSlice<T>(s: seq<T>, a: nat, b: nat, lo: nat, hi: nat)
    requires a <= b <= |s| && lo <= hi <= b - a
    ensures s[a..b][lo..hi] == s[a + lo..a + hi]
  {
    var m := s[a..b];
    forall k | lo <= k < hi ensures m[k] == s[a + k] {
    }
    assert m[lo..hi] == s[a + lo..a + hi];
  }

  lemma SliceLeft<T>(a: seq<T>, b: seq<T>, lo: nat, hi: nat)
    requires lo <= hi <= |a|
    ensures (a + b)[lo..hi] == a[lo..hi]
  {
  }

  lemma SubsetSize<T>(a: set<T>, b: set<T>)
    requires a <= b
    ensures |a| <= |b|
  {
    assert b == a + (b - a);
  }
}
