/** The reader (reader.rs): group descriptors and inodes read on demand and kept,
    and the traversal that builds the tree. */
module ImageReader {
  import opened Basics
  import opened Image
  import opened OnDisk
  import opened Extents
  import opened Directory
  import opened Trees
  import opened Namespace
  import opened Unlinking
  import opened Contents
  import opened Listing
  import opened Committing
  import opened Reading
  import opened Volumes
  import opened Recovery

  /** Everything kept is what the image says. */
  ghost predicate CachesOk(img: seq<byte>, sb: SuperBlock, descriptors: map<nat, GroupDescriptor>, inodes: map<nat, Inode>)
    requires Supported(sb)
  {
    && (forall g :: g in descriptors ==> ReadDescriptor(img, g) == Ok(descriptors[g]))
    && (forall n :: n in inodes ==> CachedOk(img, sb, inodes, n))
  }

  predicate CachedOk(img: seq<byte>, sb: SuperBlock, inodes: map<nat, Inode>, n: nat)
    requires Supported(sb) && n in inodes
  {
    0 < n < 0x1_0000_0000 && ReadInode(img, sb, n) == Ok(inodes[n])
  }

  lemma CacheDescriptor(img: seq<byte>, sb: SuperBlock, descriptors: map<nat, GroupDescriptor>, inodes: map<nat, Inode>, g: nat, gd: GroupDescriptor)
    requires Supported(sb) && CachesOk(img, sb, descriptors, inodes) && ReadDescriptor(img, g) == Ok(gd)
    ensures CachesOk(img, sb, descriptors[g := gd], inodes)
  {
    hide ReadDescriptor, CachedOk;
  }

  lemma CacheInode(img: seq<byte>, sb: SuperBlock, descriptors: map<nat, GroupDescriptor>, inodes: map<nat, Inode>, n: nat, inode: Inode)
    requires Supported(sb) && CachesOk(img, sb, descriptors, inodes) && 0 < n < 0x1_0000_0000 && ReadInode(img, sb, n) == Ok(inode)
    ensures CachesOk(img, sb, descriptors, inodes[n := inode])
  {
    hide ReadDescriptor, ReadInode;
    var inodes' := inodes[n := inode];
    forall m | m in inodes' ensures CachedOk(img, sb, inodes', m) {
      if m != n {
        assert CachedOk(img, sb, inodes, m);
      }
    }
  }

  lemma CachedInode(img: seq<byte>, sb: SuperBlock, descriptors: map<nat, GroupDescriptor>, inodes: map<nat, Inode>, n: nat)
    requires Supported(sb) && CachesOk(img, sb, descriptors, inodes) && n in inodes
    ensures n > 0 && ReadInode(img, sb, n) == Ok(inodes[n]) && inodes[n := inodes[n]] == inodes
  {
    assert CachedOk(img, sb, inodes, n);
    hide ReadDescriptor, ReadInode;
  }

  lemma CachedDescriptor(img: seq<byte>, sb: SuperBlock, descriptors: map<nat, GroupDescriptor>, inodes: map<nat, Inode>, g: nat)
    requires Supported(sb) && CachesOk(img, sb, descriptors, inodes) && g in descriptors
    ensures ReadDescriptor(img, g) == Ok(descriptors[g])
  {
    hide ReadDescriptor, CachedOk;
  }

  lemma ReadInodeIs(img: seq<byte>, sb: SuperBlock, n: nat, d: Result<GroupDescriptor, ReadError>)
    requires n > 0 && Supported(sb) && sb.inodesPerGroup > 0 && d == ReadDescriptor(img, GroupOf(n, sb.inodesPerGroup))
    ensures d.Err? ==> ReadInode(img, sb, n) == Err(d.error)
    ensures d.Ok? ==>
      var off := InodeOffset(sb, d.value, n);
      ReadInode(img, sb, n) == if off + 256 > |img| then Err(CouldNotReadInode) else Ok(DecodeInode(img[off..off + 256]))
  {
    hide InodeOffset, DecodeInode, ReadDescriptor, GroupOf;
  }

  class Reader {
    const file: ImageFile
    const superblock: SuperBlock
    const tree: FileTree
    var groupDescriptors: map<nat, GroupDescriptor>
    var inodes: map<nat, Inode>
    var hardlinks: map<Path, nat>

    ghost predicate Valid()
      reads this, file, tree
    {
      && Supported(superblock) && superblock.inodesPerGroup > 0
      && CachesOk(file.bytes, superblock, groupDescriptors, inodes)
      && tree.Valid()
    }

    /** Nothing read yet, the root alone in the tree. */
    constructor (file: ImageFile, superblock: SuperBlock)
      requires Supported(superblock)
      ensures Valid() && this.file == file && this.superblock == superblock && fresh(tree)
      ensures tree.nodes == StartNodes() && inodes == map[] && hardlinks == map[]
    {
      this.file := file;
      this.superblock := superblock;
      tree := new FileTree(ROOT_INODE, DOT);
      groupDescriptors := map[];
      inodes := map[];
      hardlinks := map[];
    }

    /** read_group_descriptor. */
    method FetchGroupDescriptor(number: nat) returns (r: Result<GroupDescriptor, ReadError>)
      ensures r == ReadDescriptor(file.bytes, number)
    {
      var offset := 4096 + 32 * number;
      if offset + 32 > |file.bytes| {
        return Err(CouldNotReadGroup);
      }
      r := Ok(DecodeDescriptor(file.bytes[offset..offset + 32]));
    }

    method GetGroupDescriptor(number: nat) returns (r: Result<GroupDescriptor, ReadError>)
      requires Valid()
      modifies this`groupDescriptors
      ensures Valid() && r == ReadDescriptor(file.bytes, number)
    {
      hide CachesOk, ReadDescriptor, FileTree.Valid;
      if number in groupDescriptors {
        CachedDescriptor(file.bytes, superblock, groupDescriptors, inodes, number);
        return Ok(groupDescriptors[number]);
      }
      r := FetchGroupDescriptor(number);
      if r.Ok? {
        CacheDescriptor(file.bytes, superblock, groupDescriptors, inodes, number, r.value);
        groupDescriptors := groupDescriptors[number := r.value];
      }
    }

    /** read_inode. */
    method FetchInode(number: nat) returns (r: Result<Inode, ReadError>)
      requires Valid() && number > 0
      modifies this`groupDescriptors
      ensures Valid() && r == ReadInode(file.bytes, superblock, number)
    {
      hide CachesOk, ReadDescriptor, FileTree.Valid, ReadInode, InodeOffset, GroupOf, DecodeInode;
      var gd := GetGroupDescriptor(GroupOf(number, superblock.inodesPerGroup));
      ReadInodeIs(file.bytes, superblock, number, gd);
      if gd.Err? {
        return Err(gd.error);
      }
      var offset := InodeOffset(superblock, gd.value, number);
      if offset + 256 > |file.bytes| {
        return Err(CouldNotReadInode);
      }
      r := Ok(DecodeInode(file.bytes[offset..offset + 256]));
    }

    /** get_inode: read once, then kept. */
    method GetInode(number: nat) returns (r: Result<Inode, ReadError>)
      requires Valid() && 0 < number < 0x1_0000_0000
      modifies this`groupDescriptors, this`inodes
      ensures Valid() && r == ReadInode(file.bytes, superblock, number)
      ensures inodes == if r.Ok? then old(inodes)[number := r.value] else old(inodes)
    {
      hide CachesOk, ReadDescriptor, FileTree.Valid, ReadInode;
      if number in inodes {
        CachedInode(file.bytes, superblock, groupDescriptors, inodes, number);
        return Ok(inodes[number]);
      }
      r := FetchInode(number);
      if r.Ok? {
        CacheInode(file.bytes, superblock, groupDescriptors, inodes, number, r.value);
        inodes := inodes[number := r.value];
      }
    }

    /** The blocks of one extent, parsed one by one. */
    method ReadBlocks(start: nat, n: nat) returns (r: Result<seq<Found>, ReadError>)
      ensures r == EntriesOfBlocks(file.bytes, start, n)
    {
      var entries := [];
      for i := 0 to n
        invariant EntriesOfBlocks(file.bytes, start, i) == Ok(entries)
      {
        if (start + i + 1) * 4096 > |file.bytes| {
          BlocksErr(file.bytes, start, i + 1, n);
          return Err(CouldNotReadBlock);
        }
        var block := file.bytes[(start + i) * 4096..(start + i + 1) * 4096];
        entries := entries + ParseFrom(block, 0);
      }
      r := Ok(entries);
    }

    /** get_dir_entries. */
    method GetDirEntries(number: nat) returns (r: Result<seq<Found>, ReadError>)
      requires Valid() && 0 < number < 0x1_0000_0000
      modifies this`groupDescriptors, this`inodes
      ensures Valid() && r == DirEntries(file.bytes, superblock, number)
      ensures inodes == if ReadInode(file.bytes, superblock, number).Ok?
                        then old(inodes)[number := ReadInode(file.bytes, superblock, number).value] else old(inodes)
    {
      hide CachesOk, ReadDescriptor, FileTree.Valid, ReadInode, DirEntries, EntriesOfRanges, EntriesOfBlocks, SortByName, ParseExtents;
      var inode := GetInode(number);
      DirEntriesErr(file.bytes, superblock, number);
      if inode.Err? {
        return Err(inode.error);
      }
      ReadInodeBlock(file.bytes, superblock, number);
      var extents := Parse(inode.value.block, file);
      if extents.Err? {
        return Err(extents.error);
      }
      var entries := [];
      NoExtents(file.bytes, extents.value);
      for k := 0 to |extents.value|
        invariant Valid() && inodes == old(inodes)[number := inode.value]
        invariant EntriesOfRanges(file.bytes, extents.value, k) == Ok(entries)
      {
        var range := extents.value[k];
        var more := ReadBlocks(range.start, if range.start <= range.end then range.end - range.start else 0);
        RangesStep(file.bytes, extents.value, k, entries, more);
        if more.Err? {
          RangesErr(file.bytes, extents.value, k + 1, |extents.value|);
          return more;
        }
        entries := entries + more.value;
      }
      r := Ok(SortByName(entries));
    }
  }

  lemma NoExtents(img: seq<byte>, rs: seq<BlockRange>)
    ensures EntriesOfRanges(img, rs, 0) == Ok([])
  {
  }

  lemma RangesStep(img: seq<byte>, rs: seq<BlockRange>, k: nat, before: seq<Found>, now: Result<seq<Found>, ReadError>)
    requires k < |rs| && EntriesOfRanges(img, rs, k) == Ok(before)
    requires now == EntriesOfBlocks(img, rs[k].start, if rs[k].start <= rs[k].end then rs[k].end - rs[k].start else 0)
    ensures EntriesOfRanges(img, rs, k + 1) == if now.Err? then now else Ok(before + now.value)
  {
    hide EntriesOfBlocks;
  }

  lemma {:induction false} BlocksErr(img: seq<byte>, start: nat, i: nat, n: nat)
    requires i <= n && EntriesOfBlocks(img, start, i).Err?
    ensures EntriesOfBlocks(img, start, n) == EntriesOfBlocks(img, start, i)
    decreases n - i
  {
    if i < n {
      assert EntriesOfBlocks(img, start, i + 1) == EntriesOfBlocks(img, start, i);
      BlocksErr(img, start, i + 1, n);
    }
  }

  lemma {:induction false} RangesErr(img: seq<byte>, rs: seq<BlockRange>, k: nat, n: nat)
    requires k <= n <= |rs| && EntriesOfRanges(img, rs, k).Err?
    ensures EntriesOfRanges(img, rs, n) == EntriesOfRanges(img, rs, k)
    decreases n - k
  {
    hide EntriesOfBlocks;
    if k < n {
      assert EntriesOfRanges(img, rs, k + 1) == EntriesOfRanges(img, rs, k);
      RangesErr(img, rs, k + 1, n);
    }
  }

  function EntriesOfInode(img: seq<byte>, inode: Inode): Result<seq<Found>, ReadError>
    requires |inode.block| == 60
  {
    match ParseExtents(inode.block, img)
    case Err(e) => Err(e)
    case Ok(rs) =>
      match EntriesOfRanges(img, rs, |rs|)
      case Err(e) => Err(e)
      case Ok(es) => Ok(SortByName(es))
  }

  lemma DirEntriesErr(img: seq<byte>, sb: SuperBlock, n: nat)
    requires n > 0 && Supported(sb)
    ensures ReadInode(img, sb, n).Err? ==> DirEntries(img, sb, n) == Err(ReadInode(img, sb, n).error)
    ensures ReadInode(img, sb, n).Ok? ==> |ReadInode(img, sb, n).value.block| == 60
    ensures ReadInode(img, sb, n).Ok? ==> DirEntries(img, sb, n) == EntriesOfInode(img, ReadInode(img, sb, n).value)
  {
    if ReadInode(img, sb, n).Ok? {
      ReadInodeBlock(img, sb, n);
    }
    hide ReadInode, ParseExtents, EntriesOfRanges, SortByName;
  }
}
