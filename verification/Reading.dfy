/** The reader's view of an image (reader.rs): superblock, descriptors, inodes
    and directory entries as functions of the bytes, and the caching methods that
    compute them. */
module Reading {
  import opened Basics
  import opened Image
  import opened OnDisk
  import opened Extents
  import opened Directory
  import opened Trees

  // ---- As functions of the image ----

  function ReadSuper(img: seq<byte>): Result<SuperBlock, ReadError> {
    if |img| < 2048 then Err(CouldNotReadSuperBlock)
    else
      var sb := DecodeSuper(img[1024..2048]);
      if sb.magic != SUPER_MAGIC then Err(InvalidSuperBlock) else Ok(sb)
  }

  /** 4096-byte blocks, and groups that have inodes: images of any other kind are
      not part of this model. */
  predicate Supported(sb: SuperBlock) { sb.logBlockSize == 2 && sb.inodesPerGroup > 0 }

  function ReadDescriptor(img: seq<byte>, g: nat): Result<GroupDescriptor, ReadError> {
    if 4096 + 32 * g + 32 > |img| then Err(CouldNotReadGroup)
    else Ok(DecodeDescriptor(img[4096 + 32 * g..4096 + 32 * g + 32]))
  }

  /** The group inode `n` belongs to, and its place there. */
  function GroupOf(n: nat, ipg: nat): nat
    requires n > 0 && ipg > 0
  {
    (n - 1) / ipg
  }

  function IndexOf(n: nat, ipg: nat): nat
    requires n > 0 && ipg > 0
  {
    (n - 1) % ipg
  }

  /** Where inode `n` lies, given its group's descriptor. */
  function InodeOffset(sb: SuperBlock, gd: GroupDescriptor, n: nat): nat
    requires n > 0 && Supported(sb)
  {
    gd.inodeTable * 4096 + IndexOf(n, sb.inodesPerGroup) * sb.inodeSize
  }

  function ReadInode(img: seq<byte>, sb: SuperBlock, n: nat): Result<Inode, ReadError>
    requires n > 0 && Supported(sb)
  {
    match ReadDescriptor(img, GroupOf(n, sb.inodesPerGroup))
    case Err(e) => Err(e)
    case Ok(gd) =>
      var off := InodeOffset(sb, gd, n);
      if off + 256 > |img| then Err(CouldNotReadInode) else Ok(DecodeInode(img[off..off + 256]))
  }

  lemma ReadInodeBlock(img: seq<byte>, sb: SuperBlock, n: nat)
    requires n > 0 && Supported(sb) && ReadInode(img, sb, n).Ok?
    ensures |ReadInode(img, sb, n).value.block| == 60
  {
  }

  /** Entries of blocks `start` to `start + n`, in order. */
  function EntriesOfBlocks(img: seq<byte>, start: nat, n: nat): Result<seq<Found>, ReadError> {
    if n == 0 then Ok([])
    else
      var before := EntriesOfBlocks(img, start, n - 1);
      if before.Err? then before
      else if (start + n) * 4096 > |img| then Err(CouldNotReadBlock)
      else Ok(before.value + ParseFrom(img[(start + n - 1) * 4096..(start + n) * 4096], 0))
  }

  /** Entries of the first `k` ranges. A range that ends before it starts (a
      corrupt length) is empty. */
  function EntriesOfRanges(img: seq<byte>, rs: seq<BlockRange>, k: nat): Result<seq<Found>, ReadError>
    requires k <= |rs|
  {
    if k == 0 then Ok([])
    else
      var before := EntriesOfRanges(img, rs, k - 1);
      if before.Err? then before
      else
        var r := rs[k - 1];
        var now := EntriesOfBlocks(img, r.start, if r.start <= r.end then r.end - r.start else 0);
        if now.Err? then now else Ok(before.value + now.value)
  }

  // ---- Sorting entries by name ----

  /** Byte order, as `String` compares. */
  predicate NameLess(a: Name, b: Name)
    decreases |a|
  {
    if b == [] then false
    else if a == [] then true
    else a[0] < b[0] || (a[0] == b[0] && NameLess(a[1..], b[1..]))
  }

  function InsertFound(sorted: seq<Found>, e: Found): (r: seq<Found>)
    ensures |r| == |sorted| + 1
  {
    if sorted == [] then [e]
    else
      var last := sorted[|sorted| - 1];
      if !NameLess(e.name, last.name) then sorted + [e]
      else InsertFound(sorted[..|sorted| - 1], e) + [last]
  }

  /** `sort_by` on the name. */
  function SortByName(es: seq<Found>): (r: seq<Found>)
    ensures |r| == |es|
  {
    if es == [] then [] else InsertFound(SortByName(es[..|es| - 1]), es[|es| - 1])
  }

  lemma {:induction false} InsertFoundMembers(sorted: seq<Found>, e: Found)
    ensures multiset(InsertFound(sorted, e)) == multiset(sorted) + multiset{e}
  {
    if sorted != [] {
      var n := |sorted| - 1;
      assert sorted == sorted[..n] + [sorted[n]];
      hide NameLess;
      InsertFoundMembers(sorted[..n], e);
    }
  }

  lemma {:induction false} SortByNameMembers(es: seq<Found>)
    ensures multiset(SortByName(es)) == multiset(es)
  {
    if es != [] {
      var n := |es| - 1;
      assert es == es[..n] + [es[n]];
      SortByNameMembers(es[..n]);
      InsertFoundMembers(SortByName(es[..n]), es[n]);
    }
  }

  /** What the reader lists for directory inode `n`. */
  function DirEntries(img: seq<byte>, sb: SuperBlock, n: nat): Result<seq<Found>, ReadError>
    requires n > 0 && Supported(sb)
  {
    match ReadInode(img, sb, n)
    case Err(e) => Err(e)
    case Ok(inode) =>
      ReadInodeBlock(img, sb, n);
      match ParseExtents(inode.block, img)
      case Err(e) => Err(e)
      case Ok(rs) =>
        match EntriesOfRanges(img, rs, |rs|)
        case Err(e) => Err(e)
        case Ok(es) => Ok(SortByName(es))
  }

  /** Nothing the parser reports has inode 0. */
  lemma {:induction false} ParsedNonzero(data: seq<byte>, off: nat)
    ensures forall k :: 0 <= k < |ParseFrom(data, off)| ==> 0 < ParseFrom(data, off)[k].inode < 0x1_0000_0000
    decreases |data| - off
  {
    if off + 8 <= |data| && Get16(data, off + 4) != 0 {
      ParsedNonzero(data, off + Get16(data, off + 4));
      hide ParseFrom;
      assert ParseFrom(data, off) == Reported(data, off) + ParseFrom(data, off + Get16(data, off + 4)) by {
        ParseStep(data, off);
      }
    }
  }

  lemma ParseStep(data: seq<byte>, off: nat)
    requires off + 8 <= |data| && Get16(data, off + 4) != 0
    ensures ParseFrom(data, off) == Reported(data, off) + ParseFrom(data, off + Get16(data, off + 4))
  {
  }

  predicate AllNumbered(es: seq<Found>) {
    forall k :: 0 <= k < |es| ==> 0 < es[k].inode < 0x1_0000_0000
  }

  lemma {:induction false} BlocksNonzero(img: seq<byte>, start: nat, n: nat)
    ensures var r := EntriesOfBlocks(img, start, n); r.Ok? ==> AllNumbered(r.value)
  {
    if n > 0 && (start + n) * 4096 <= |img| {
      BlocksNonzero(img, start, n - 1);
      ParsedNonzero(img[(start + n - 1) * 4096..(start + n) * 4096], 0);
    }
  }

  lemma {:induction false} RangesNonzero(img: seq<byte>, rs: seq<BlockRange>, k: nat)
    requires k <= |rs|
    ensures var r := EntriesOfRanges(img, rs, k); r.Ok? ==> AllNumbered(r.value)
  {
    if k > 0 {
      RangesNonzero(img, rs, k - 1);
      var r := rs[k - 1];
      BlocksNonzero(img, r.start, if r.start <= r.end then r.end - r.start else 0);
      hide EntriesOfBlocks;
    }
  }

  /** Every entry listed has a number a cache can hold. */
  lemma EntriesNumbered(img: seq<byte>, sb: SuperBlock, n: nat)
    requires n > 0 && Supported(sb) && DirEntries(img, sb, n).Ok?
    ensures AllNumbered(DirEntries(img, sb, n).value)
  {
    ReadInodeBlock(img, sb, n);
    var rs := ParseExtents(ReadInode(img, sb, n).value.block, img).value;
    RangesNonzero(img, rs, |rs|);
    hide ReadInode, ParseExtents, EntriesOfRanges;
    var es, sorted := EntriesOfRanges(img, rs, |rs|).value, DirEntries(img, sb, n).value;
    SortByNameMembers(es);
    forall k | 0 <= k < |sorted| ensures 0 < sorted[k].inode < 0x1_0000_0000 {
      assert sorted[k] in multiset(sorted);
    }
  }
}
