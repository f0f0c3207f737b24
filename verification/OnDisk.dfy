/** The fixed-layout structures of types.rs: every field the formatter sets or
    the reader reads, at its true offset. Bytes that are not listed are zero.
    Layouts follow "ext4 Data Structures and Algorithms" (sections "Inode
    Table", "Block Group Descriptors" and "The Super Block"). */
module OnDisk {
  import opened Basics

  const INODE_SIZE: nat := 256
  const DESC_SIZE: nat := 32
  const SUPER_SIZE: nat := 1024
  const SUPER_MAGIC: nat := 0xEF53

  // ---- File modes and inode flags ----

  const S_IFDIR: nat := 0x4000
  const S_IFREG: nat := 0x8000
  const S_IFLNK: nat := 0xA000
  const HUGE_FILE: nat := 0x40000
  const EXTENTS: nat := 0x80000

  /** `mode & 0xF000`. */
  function TypeBits(mode: nat): nat { mode / 0x1000 % 16 * 0x1000 }

  predicate IsDirMode(mode: nat) { TypeBits(mode) == S_IFDIR }
  predicate IsRegMode(mode: nat) { TypeBits(mode) == S_IFREG }
  predicate IsLinkMode(mode: nat) { TypeBits(mode) == S_IFLNK }

  // ---- Inode ----

  datatype Inode = Inode(
    mode: nat,
    uid: nat,
    gid: nat,
    size: nat,
    links: nat,
    blocksLo: nat,
    flags: nat,
    extraIsize: nat,
    block: seq<byte>)
  {
    predicate IsDir() { IsDirMode(mode) }
    predicate IsReg() { IsRegMode(mode) }
    predicate IsLink() { IsLinkMode(mode) }

    /** Every field is within the width of its place on disk. */
    predicate Fits() {
      && mode < 0x1_0000 && links < 0x1_0000 && extraIsize < 0x1_0000
      && uid < 0x1_0000_0000 && gid < 0x1_0000_0000
      && size < 0x1_0000_0000_0000_0000
      && blocksLo < 0x1_0000_0000 && flags < 0x1_0000_0000
      && |block| == 60
    }
  }

  /** `Inode::default()`; also what a freed inode becomes. */
  const EMPTY_INODE := Inode(0, 0, 0, 0, 0, 0, 0, 0, Zeros(60))

  function DecodeInode(b: seq<byte>): Inode
    requires |b| == INODE_SIZE
  {
    Inode(
      Get16(b, 0x00),
      Get16(b, 0x02) + 0x1_0000 * Get16(b, 0x78),
      Get16(b, 0x18) + 0x1_0000 * Get16(b, 0x7A),
      Get32(b, 0x04) + 0x1_0000_0000 * Get32(b, 0x6C),
      Get16(b, 0x1A),
      Get32(b, 0x1C),
      Get32(b, 0x20),
      Get16(b, 0x80),
      b[0x28..0x64])
  }

  /** Bytes 0x00 to 0x28 of an inode. */
  function InodeHead(i: Inode): (b: seq<byte>)
    ensures |b| == 0x28
  {
    LE16(i.mode) + LE16(i.uid % 0x1_0000) + LE32(i.size % 0x1_0000_0000) + Zeros(16)
    + LE16(i.gid % 0x1_0000) + LE16(i.links) + LE32(i.blocksLo) + LE32(i.flags) + Zeros(4)
  }

  /** Bytes 0x64 to 0x84 of an inode: the high halves and `extra_isize`. */
  function InodeHigh(i: Inode): (b: seq<byte>)
    ensures |b| == 0x20
  {
    Zeros(8) + LE32(i.size / 0x1_0000_0000) + Zeros(8)
    + LE16(i.uid / 0x1_0000) + LE16(i.gid / 0x1_0000) + Zeros(4) + LE16(i.extraIsize) + Zeros(2)
  }

  function EncodeInode(i: Inode): (b: seq<byte>)
    requires |i.block| == 60
    ensures |b| == INODE_SIZE
  {
    InodeHead(i) + i.block + InodeHigh(i) + Zeros(124)
  }

  /** Every number of the head of an inode lies at its own offset. */
  lemma InodeHeadParts(i: Inode)
    ensures var h := InodeHead(i);
      && h[0x00..0x02] == LE16(i.mode) && h[0x02..0x04] == LE16(i.uid % 0x1_0000)
      && h[0x04..0x08] == LE32(i.size % 0x1_0000_0000)
      && h[0x18..0x1A] == LE16(i.gid % 0x1_0000) && h[0x1A..0x1C] == LE16(i.links)
      && h[0x1C..0x20] == LE32(i.blocksLo) && h[0x20..0x24] == LE32(i.flags)
  {
  }

  lemma InodeHeadReads(i: Inode)
    requires i.Fits()
    ensures var h := InodeHead(i);
      && Get16(h, 0x00) == i.mode && Get16(h, 0x02) == i.uid % 0x1_0000
      && Get32(h, 0x04) == i.size % 0x1_0000_0000
      && Get16(h, 0x18) == i.gid % 0x1_0000 && Get16(h, 0x1A) == i.links
      && Get32(h, 0x1C) == i.blocksLo && Get32(h, 0x20) == i.flags
  {
    var h := InodeHead(i);
    InodeHeadParts(i);
    Get16OfLE16(h, 0x00, i.mode);
    Get16OfLE16(h, 0x02, i.uid % 0x1_0000);
    Get32OfLE32(h, 0x04, i.size % 0x1_0000_0000);
    Get16OfLE16(h, 0x18, i.gid % 0x1_0000);
    Get16OfLE16(h, 0x1A, i.links);
    Get32OfLE32(h, 0x1C, i.blocksLo);
    Get32OfLE32(h, 0x20, i.flags);
  }

  lemma InodeHighReads(i: Inode)
    requires i.Fits()
    ensures var h := InodeHigh(i);
      && Get32(h, 0x08) == i.size / 0x1_0000_0000
      && Get16(h, 0x14) == i.uid / 0x1_0000 && Get16(h, 0x16) == i.gid / 0x1_0000
      && Get16(h, 0x1C) == i.extraIsize
  {
    SplitLE32(i.size / 0x1_0000_0000);
  }

  /** Where the three parts of an encoded inode lie. */
  lemma InodeParts(i: Inode)
    requires |i.block| == 60
    ensures var b := EncodeInode(i);
      b[..0x28] == InodeHead(i) && b[0x28..0x64] == i.block && b[0x64..0x84] == InodeHigh(i)
  {
  }

  lemma InodeRoundTrip(i: Inode)
    requires i.Fits()
    ensures DecodeInode(EncodeInode(i)) == i
  {
    var b := EncodeInode(i);
    InodeParts(i);
    InodeHeadReads(i);
    InodeHighReads(i);
    GetInSlice(b, 0, 0x28, 0x00);
    GetInSlice(b, 0, 0x28, 0x02);
    GetInSlice(b, 0, 0x28, 0x04);
    GetInSlice(b, 0, 0x28, 0x18);
    GetInSlice(b, 0, 0x28, 0x1A);
    GetInSlice(b, 0, 0x28, 0x1C);
    GetInSlice(b, 0, 0x28, 0x20);
    GetInSlice(b, 0x64, 0x84, 0x6C);
    GetInSlice(b, 0x64, 0x84, 0x78);
    GetInSlice(b, 0x64, 0x84, 0x7A);
    GetInSlice(b, 0x64, 0x84, 0x80);
  }

  // ---- Group descriptor ----

  datatype GroupDescriptor = GroupDescriptor(
    blockBitmap: nat,
    inodeBitmap: nat,
    inodeTable: nat,
    freeBlocks: nat,
    freeInodes: nat,
    usedDirs: nat)
  {
    predicate Fits() {
      && blockBitmap < 0x1_0000_0000 && inodeBitmap < 0x1_0000_0000 && inodeTable < 0x1_0000_0000
      && freeBlocks < 0x1_0000 && freeInodes < 0x1_0000 && usedDirs < 0x1_0000
    }
  }

  function DecodeDescriptor(b: seq<byte>): GroupDescriptor
    requires |b| == DESC_SIZE
  {
    GroupDescriptor(Get32(b, 0), Get32(b, 4), Get32(b, 8), Get16(b, 0xC), Get16(b, 0xE), Get16(b, 0x10))
  }

  function EncodeDescriptor(g: GroupDescriptor): (b: seq<byte>)
    ensures |b| == DESC_SIZE
  {
    LE32(g.blockBitmap) + LE32(g.inodeBitmap) + LE32(g.inodeTable)
    + LE16(g.freeBlocks) + LE16(g.freeInodes) + LE16(g.usedDirs) + Zeros(14)
  }

  lemma DescriptorRoundTrip(g: GroupDescriptor)
    requires g.Fits()
    ensures DecodeDescriptor(EncodeDescriptor(g)) == g
  {
    var b := EncodeDescriptor(g);
    assert b[0..4] == LE32(g.blockBitmap) && b[4..8] == LE32(g.inodeBitmap) && b[8..12] == LE32(g.inodeTable);
    assert b[12..14] == LE16(g.freeBlocks) && b[14..16] == LE16(g.freeInodes) && b[16..18] == LE16(g.usedDirs);
    hide EncodeDescriptor, LE16, LE32, Get16, Get32;
    Get32OfLE32(b, 0, g.blockBitmap);
    Get32OfLE32(b, 4, g.inodeBitmap);
    Get32OfLE32(b, 8, g.inodeTable);
    Get16OfLE16(b, 12, g.freeBlocks);
    Get16OfLE16(b, 14, g.freeInodes);
    Get16OfLE16(b, 16, g.usedDirs);
  }

  // ---- Superblock: the counts, and the fields the reader uses ----

  datatype SuperBlock = SuperBlock(
    inodesCount: nat,
    blocksCount: nat,
    freeBlocks: nat,
    freeInodes: nat,
    logBlockSize: nat,
    inodesPerGroup: nat,
    magic: nat,
    inodeSize: nat)
  {
    predicate Fits() {
      && inodesCount < 0x1_0000_0000 && freeInodes < 0x1_0000_0000
      && blocksCount < 0x1_0000_0000 && freeBlocks < 0x1_0000_0000
      && logBlockSize < 0x1_0000_0000 && inodesPerGroup < 0x1_0000_0000
      && magic < 0x1_0000 && inodeSize < 0x1_0000
    }
  }

  function DecodeSuper(b: seq<byte>): SuperBlock
    requires |b| == SUPER_SIZE
  {
    SuperBlock(Get32(b, 0x00), Get32(b, 0x04), Get32(b, 0x0C), Get32(b, 0x10),
               Get32(b, 0x18), Get32(b, 0x28), Get16(b, 0x38), Get16(b, 0x58))
  }

  function EncodeSuper(s: SuperBlock): (b: seq<byte>)
    ensures |b| == SUPER_SIZE
  {
    LE32(s.inodesCount) + LE32(s.blocksCount) + Zeros(4) + LE32(s.freeBlocks) + LE32(s.freeInodes)
    + Zeros(4) + LE32(s.logBlockSize) + Zeros(12) + LE32(s.inodesPerGroup) + Zeros(12)
    + LE16(s.magic) + Zeros(30) + LE16(s.inodeSize) + Zeros(SUPER_SIZE - 0x5A)
  }

  lemma SuperParts(s: SuperBlock)
    ensures var b := EncodeSuper(s);
      && b[0x00..0x04] == LE32(s.inodesCount) && b[0x04..0x08] == LE32(s.blocksCount)
      && b[0x0C..0x10] == LE32(s.freeBlocks) && b[0x10..0x14] == LE32(s.freeInodes)
      && b[0x18..0x1C] == LE32(s.logBlockSize) && b[0x28..0x2C] == LE32(s.inodesPerGroup)
      && b[0x38..0x3A] == LE16(s.magic) && b[0x58..0x5A] == LE16(s.inodeSize)
  {
  }

  lemma SuperRoundTrip(s: SuperBlock)
    requires s.Fits()
    ensures DecodeSuper(EncodeSuper(s)) == s
  {
    var b := EncodeSuper(s);
    SuperParts(s);
    Get32OfLE32(b, 0x00, s.inodesCount);
    Get32OfLE32(b, 0x04, s.blocksCount);
    Get32OfLE32(b, 0x0C, s.freeBlocks);
    Get32OfLE32(b, 0x10, s.freeInodes);
    Get32OfLE32(b, 0x18, s.logBlockSize);
    Get32OfLE32(b, 0x28, s.inodesPerGroup);
    Get16OfLE16(b, 0x38, s.magic);
    Get16OfLE16(b, 0x58, s.inodeSize);
  }
}
