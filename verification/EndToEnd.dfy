/** The writer and the reader together: what a run of calls built, `close` lays
    out, `Reader::new` recovers and path lookup finds again. */
module EndToEnd {
  import opened Basics
  import opened Image
  import opened OnDisk
  import opened Extents
  import opened Trees
  import opened Namespace
  import opened Unlinking
  import opened Contents
  import opened Requests
  import opened Formatting
  import opened Views
  import opened Layout
  import opened Groups
  import opened Listing
  import opened Committing
  import opened Closing
  import opened Finish
  import opened Reading
  import opened Volumes
  import opened ImageReader
  import opened FileRead
  import R = Recovery
  import O = Opening
  import Resolving
  import opened NameLookup

  // ---- Which images can be opened ----

  /** The bytes an extent header starts with. `Reader::new` parses the extents of
      every inode, and a short symlink keeps its target where others keep a header. */
  predicate LooksLikeExtents(t: seq<byte>) {
    |t| >= 2 && t[0] == 0x0A && t[1] == 0xF3
  }

  /** What RFC 3629 (section 3) asks of UTF-8 text that starts like that: 0xF3 is
      followed by three bytes from 0x80 to 0xBF. */
  predicate TextTarget(t: seq<byte>) {
    LooksLikeExtents(t) ==> |t| >= 5 && forall k :: 2 <= k < 5 ==> 0x80 <= t[k] < 0xC0
  }

  predicate ShortLink(c: Content) {
    c.Symlink? && |c.target| < 60
  }

  /** A symlink that stops the reader. */
  predicate Lookalike(c: Content) {
    ShortLink(c) && LooksLikeExtents(c.target)
  }

  lemma LookalikeIs(c: Content)
    ensures Lookalike(c) <==> c.Symlink? && |c.target| < 60 && LooksLikeExtents(c.target)
    ensures Lookalike(c) ==> ShortLink(c)
  {
    hide LooksLikeExtents;
  }

  lemma StartOfBlock(t: seq<byte>)
    requires |t| < 60
    ensures Get16(t + Zeros(60 - |t|), 0) == EXTENT_MAGIC <==> LooksLikeExtents(t)
    ensures LooksLikeExtents(t) && TextTarget(t) ==> Get16(t + Zeros(60 - |t|), 2) >= 0x8080
  {
    var block := t + Zeros(60 - |t|);
    assert forall k :: 0 <= k < |t| ==> block[k] == t[k];
    assert forall k :: |t| <= k < 60 ==> block[k] == 0;
    hide Zeros;
  }

  lemma {:induction false} TooManyIndices(block: seq<byte>, img: seq<byte>, count: nat)
    requires |block| == 60 && count > 4
    ensures IndexedRanges(block, img, count).Err?
    decreases count
  {
    if count > 5 {
      TooManyIndices(block, img, count - 1);
    }
  }

  /** A short symlink stops the reader exactly when its target starts with a line
      feed and the byte 0xF3: such a header claims over 32000 entries. */
  lemma ShortLinkParses(img: seq<byte>, t: seq<byte>)
    requires |t| < 60 && TextTarget(t)
    ensures ParseExtents(t + Zeros(60 - |t|), img).Ok? <==> !LooksLikeExtents(t)
  {
    var block := t + Zeros(60 - |t|);
    StartOfBlock(t);
    if LooksLikeExtents(t) {
      TooManyIndices(block, img, Get16(block, 2));
    }
    hide Get16, IndexedRanges;
  }

  /** U+C0000 after a line feed is such a target. */
  lemma UnreadableTarget(img: seq<byte>)
    ensures var t := [0x0A, 0xF3, 0x80, 0x80, 0x80]; TextTarget(t) && ParseExtents(t + Zeros(60 - |t|), img).Err?
  {
    ShortLinkParses(img, [0x0A, 0xF3, 0x80, 0x80, 0x80]);
  }

  /** Everything but short symlinks has extents that can be parsed. */
  lemma OthersParse(img: seq<byte>, inode: Inode, c: Content)
    requires ContentReads(img, inode, c) && !ShortLink(c)
    ensures |inode.block| == 60 && ParseExtents(inode.block, img).Ok?
  {
    ContentCases(img, inode, c);
    var d := match c case Directory => [] case File(b) => b case Symlink(t) => t;
    hide ParseExtents, LeadsTo, Inode.IsDir, Inode.IsReg, Inode.IsLink;
    if !c.Directory? && d != [] {
      var s := BytesLead(img, inode.block, d);
      LeadsParses(img, inode.block, s, BlocksFor(|d|), d);
    }
  }

  /** What attached node `i` stands for is no symlink that looks like extents. */
  predicate Harmless(fs: Fs, contents: seq<Content>, i: nat)
    requires Numbered(fs) && |contents| == |fs.origin| && 0 < i < |fs.nodes|
  {
    assert NumberedNode(fs, i);
    Attached(fs.nodes, i) ==> !Lookalike(contents[Target(fs.nodes[i]) - 11])
  }

  predicate AllHarmless(fs: Fs, contents: seq<Content>)
    requires Numbered(fs) && |contents| == |fs.origin|
  {
    forall i :: 0 < i < |fs.nodes| ==> Harmless(fs, contents, i)
  }

  /** Every symlink there is has a target in text. */
  ghost predicate TextTargets(v: Volume) {
    forall q :: q in v.names && v.names[q].content.Symlink? ==> TextTarget(v.names[q].content.target)
  }

  /** No short symlink there is looks like extents. */
  ghost predicate HarmlessNames(v: Volume) {
    forall q :: q in v.names ==> !Lookalike(v.names[q].content)
  }

  lemma ImageCounts(img: seq<byte>, sb: SuperBlock, fs: Fs, contents: seq<Content>, inodes: seq<Inode>)
    requires O.ImageOf(img, sb, fs, contents, inodes)
    ensures |contents| == |fs.origin| && |inodes| == |fs.inodes| && |inodes| == RESERVED + |contents| && Numbered(fs)
  {
    hide Inv, Listable, DirReadsAt, HeldReads, InodeReadsAt, SameAttributes, Plain;
    Shaped(fs);
    hide Numbered;
  }

  /** What an attached name stands for can be read through its inode. */
  lemma HeldBy(img: seq<byte>, sb: SuperBlock, fs: Fs, contents: seq<Content>, inodes: seq<Inode>, i: nat)
    requires O.ImageOf(img, sb, fs, contents, inodes) && Numbered(fs) && WellFormed(fs.nodes) && 0 < i < |fs.nodes| && Attached(fs.nodes, i)
    ensures |contents| == |fs.origin| && RESERVED < Target(fs.nodes[i]) <= |inodes| && |inodes| == RESERVED + |contents|
    ensures ContentReads(img, inodes[Target(fs.nodes[i]) - 1], contents[Target(fs.nodes[i]) - 11])
    ensures |inodes| == |fs.inodes| && SameAttributes(TargetInode(fs, i), inodes[Target(fs.nodes[i]) - 1])
  {
    hide *;
    O.ImageParts(img, sb, fs, contents, inodes);
    ImageCounts(img, sb, fs, contents, inodes);
    TargetIsHandedOut(fs, i);
    AttachedInUse(fs, i);
    TargetIs(fs, i);
    HeldAt(img, sb, fs, contents, inodes, Target(fs.nodes[i]));
  }

  lemma TargetIs(fs: Fs, i: nat)
    requires Numbered(fs) && i < |fs.nodes| && RESERVED < Target(fs.nodes[i]) <= |fs.inodes|
    ensures TargetInode(fs, i) == fs.inodes[Target(fs.nodes[i]) - 1]
  {
    hide Numbered, Target;
  }

  lemma HeldAt(img: seq<byte>, sb: SuperBlock, fs: Fs, contents: seq<Content>, inodes: seq<Inode>, n: nat)
    requires O.ImageOf(img, sb, fs, contents, inodes) && Numbered(fs) && RESERVED < n <= |inodes|
    requires |contents| == |fs.origin| && |inodes| == |fs.inodes| == RESERVED + |contents| && fs.inodes[n - 1].links > 0
    ensures ContentReads(img, inodes[n - 1], contents[n - 11]) && SameAttributes(fs.inodes[n - 1], inodes[n - 1])
  {
    hide Inv, Listable, DirReadsAt, InodeReadsAt, Plain, Numbered, ContentReads;
    assert HeldReads(img, fs, contents, inodes, n);
    assert SameAttributes(fs.inodes[n - 1], inodes[n - 1]);
  }

  lemma ParsesHere(img: seq<byte>, sb: SuperBlock, fs: Fs, contents: seq<Content>, inodes: seq<Inode>, i: nat)
    requires O.ImageOf(img, sb, fs, contents, inodes) && Numbered(fs) && WellFormed(fs.nodes) && 0 < i < |fs.nodes| && Attached(fs.nodes, i)
    requires TextTargets(Seen(fs, contents)) && |contents| == |fs.origin|
    ensures O.ParsesAt(img, inodes, Target(fs.nodes[i])) <==> Harmless(fs, contents, i)
  {
    hide *;
    HeldBy(img, sb, fs, contents, inodes, i);
    var n := Target(fs.nodes[i]);
    RootedAt11();
    var inode, c := inodes[n - 1], contents[n - 11];
    ContentCases(img, inode, c);
    HarmlessIs(fs, contents, i);
    ParsesAtIs(img, inodes, n);
    ShortLinkIs(c);
    LookalikeIs(c);
    if ShortLink(c) {
      NameOf(fs, contents, i);
      TextTargetAt(Seen(fs, contents), PathOf(fs.nodes, i));
      ShortLinkParses(img, c.target);
    } else {
      OthersParse(img, inode, c);
    }
  }

  lemma RootedAt11()
    ensures RESERVED == 10
  {
  }

  lemma ShortLinkIs(c: Content)
    ensures ShortLink(c) <==> c.Symlink? && |c.target| < 60
  {
  }

  lemma TextTargetAt(v: Volume, q: Path)
    requires TextTargets(v) && q in v.names && v.names[q].content.Symlink?
    ensures TextTarget(v.names[q].content.target)
  {
  }

  /** An attached name as the user sees it. */
  lemma NameOf(fs: Fs, contents: seq<Content>, i: nat)
    requires Numbered(fs) && WellFormed(fs.nodes) && 0 < i < |fs.nodes| && Attached(fs.nodes, i) && |contents| == |fs.origin|
    requires RESERVED < Target(fs.nodes[i]) <= RESERVED + |contents|
    ensures var v, q := Seen(fs, contents), PathOf(fs.nodes, i);
      && q in v.names && v.names[q].content == contents[Target(fs.nodes[i]) - 11] && v.names[q].number == Target(fs.nodes[i])
      && v.names[q] == SightOf(fs, contents, i)
  {
    hide *;
    Shaped(fs);
    var q := PathOf(fs.nodes, i);
    LookupOfPath(fs.nodes, i);
    SightIs(fs, contents, q);
    SeenGet(fs, contents, q);
    NameInIs(Seen(fs, contents), q);
    SightParts(fs, contents, i);
  }

  lemma SightParts(fs: Fs, contents: seq<Content>, i: nat)
    requires Numbered(fs) && i < |fs.nodes|
    ensures var s, n, inode := SightOf(fs, contents, i), Target(fs.nodes[i]), TargetInode(fs, i);
      && s.number == n && s.mode == inode.mode && s.uid == inode.uid && s.gid == inode.gid
      && (RESERVED < n <= RESERVED + |contents| ==> s.content == contents[n - 11])
  {
    hide Numbered, Target, TargetInode;
  }

  lemma HarmlessIs(fs: Fs, contents: seq<Content>, i: nat)
    requires Numbered(fs) && |contents| == |fs.origin| && 0 < i < |fs.nodes| && WellFormed(fs.nodes) && Attached(fs.nodes, i)
    requires RESERVED < Target(fs.nodes[i]) <= RESERVED + |contents|
    ensures Harmless(fs, contents, i) <==> !Lookalike(contents[Target(fs.nodes[i]) - 11])
  {
    hide Numbered, Attached, Target, Lookalike, NumberedNode;
  }

  lemma ParsesAtIs(img: seq<byte>, inodes: seq<Inode>, n: nat)
    requires 0 < n <= |inodes| && |inodes[n - 1].block| == 60
    ensures O.ParsesAt(img, inodes, n) <==> ParseExtents(inodes[n - 1].block, img).Ok?
  {
    hide ParseExtents;
  }

  /** The traversal gets through exactly the images without such a symlink. */
  lemma ParsesIffHarmless(img: seq<byte>, sb: SuperBlock, fs: Fs, contents: seq<Content>, inodes: seq<Inode>)
    requires O.ImageOf(img, sb, fs, contents, inodes) && Numbered(fs) && TextTargets(Seen(fs, contents))
    ensures WellFormed(fs.nodes) && |contents| == |fs.origin|
    ensures O.AllParse(img, fs, inodes) <==> HarmlessNames(Seen(fs, contents))
  {
    O.ImageParts(img, sb, fs, contents, inodes);
    ImageCounts(img, sb, fs, contents, inodes);
    HarmlessByName(img, sb, fs, contents, inodes);
    hide O.ImageOf, Numbered, WellFormed, TextTargets, O.ParsesAt, Target, Attached, HarmlessNames, Seen;
    forall i | 0 < i < |fs.nodes|
      ensures Harmless(fs, contents, i) <==> (Attached(fs.nodes, i) ==> O.ParsesAt(img, inodes, Target(fs.nodes[i])))
    {
      if Attached(fs.nodes, i) {
        ParsesHere(img, sb, fs, contents, inodes, i);
      } else {
        LooseIsHarmless(fs, contents, i);
      }
    }
    hide Harmless;
  }

  /** Harmless by entry, or by name: the same. */
  lemma HarmlessByName(img: seq<byte>, sb: SuperBlock, fs: Fs, contents: seq<Content>, inodes: seq<Inode>)
    requires O.ImageOf(img, sb, fs, contents, inodes) && Numbered(fs) && |contents| == |fs.origin|
    ensures AllHarmless(fs, contents) <==> HarmlessNames(Seen(fs, contents))
  {
    hide *;
    O.ImageParts(img, sb, fs, contents, inodes);
    var v := Seen(fs, contents);
    forall i | 0 < i < |fs.nodes| && HarmlessNames(v) ensures Harmless(fs, contents, i) {
      if Attached(fs.nodes, i) {
        HeldBy(img, sb, fs, contents, inodes, i);
        NameOf(fs, contents, i);
        HarmlessIs(fs, contents, i);
        HarmlessAt(v, PathOf(fs.nodes, i));
      } else {
        LooseIsHarmless(fs, contents, i);
      }
    }
    forall q | q in v.names && AllHarmless(fs, contents) ensures !Lookalike(v.names[q].content) {
      NotLookalike(img, sb, fs, contents, inodes, q);
    }
    AllHarmlessIs(fs, contents);
    HarmlessNamesIs(v);
  }

  lemma NotLookalike(img: seq<byte>, sb: SuperBlock, fs: Fs, contents: seq<Content>, inodes: seq<Inode>, q: Path)
    requires O.ImageOf(img, sb, fs, contents, inodes) && Numbered(fs) && |contents| == |fs.origin| && WellFormed(fs.nodes)
    requires q in Seen(fs, contents).names && AllHarmless(fs, contents)
    ensures !Lookalike(Seen(fs, contents).names[q].content)
  {
    hide *;
    var c := Seen(fs, contents).names[q].content;
    if Lookalike(c) {
      LookalikeIs(c);
      var i := SeenBy(img, sb, fs, contents, inodes, q);
      AllHarmlessAt(fs, contents, i);
      HarmlessIs(fs, contents, i);
    }
  }

  lemma HarmlessAt(v: Volume, q: Path)
    requires HarmlessNames(v) && q in v.names
    ensures !Lookalike(v.names[q].content)
  {
    hide Lookalike;
  }

  lemma HarmlessNamesIs(v: Volume)
    ensures HarmlessNames(v) <==> forall q :: q in v.names ==> !Lookalike(v.names[q].content)
  {
    hide Lookalike;
  }

  lemma AllHarmlessAt(fs: Fs, contents: seq<Content>, i: nat)
    requires Numbered(fs) && |contents| == |fs.origin| && 0 < i < |fs.nodes| && AllHarmless(fs, contents)
    ensures Harmless(fs, contents, i)
  {
    hide Harmless, Numbered;
  }

  lemma AllHarmlessIs(fs: Fs, contents: seq<Content>)
    requires Numbered(fs) && |contents| == |fs.origin|
    ensures AllHarmless(fs, contents) <==> forall i :: 0 < i < |fs.nodes| ==> Harmless(fs, contents, i)
  {
    hide Harmless, Numbered;
  }

  /** The entry behind a name that is a symlink. */
  lemma SeenBy(img: seq<byte>, sb: SuperBlock, fs: Fs, contents: seq<Content>, inodes: seq<Inode>, q: Path) returns (i: nat)
    requires O.ImageOf(img, sb, fs, contents, inodes) && Numbered(fs) && |contents| == |fs.origin| && WellFormed(fs.nodes)
    requires q in Seen(fs, contents).names && ShortLink(Seen(fs, contents).names[q].content)
    ensures 0 < i < |fs.nodes| && Attached(fs.nodes, i) && RESERVED < Target(fs.nodes[i]) <= RESERVED + |contents|
    ensures Seen(fs, contents).names[q].content == contents[Target(fs.nodes[i]) - 11]
  {
    hide *;
    RootNode(fs);
    SeenGet(fs, contents, q);
    NameInIs(Seen(fs, contents), q);
    SightIs(fs, contents, q);
    i := Find(fs.nodes, 0, q).value;
    InTree(fs.nodes, q, i);
    PathOfLookup(fs.nodes, q);
    ShortLinkIs(Seen(fs, contents).names[q].content);
    if i == 0 {
      RootIsNoLink(fs, contents);
    }
    HeldBy(img, sb, fs, contents, inodes, i);
    SightParts(fs, contents, i);
  }

  lemma RootIsNoLink(fs: Fs, contents: seq<Content>)
    requires Numbered(fs)
    ensures |fs.nodes| > 0 && SightOf(fs, contents, 0).content == Directory && SightOf(fs, contents, 0).number == ROOT_INODE
  {
    RootNode(fs);
  }

  lemma LooseIsHarmless(fs: Fs, contents: seq<Content>, i: nat)
    requires Numbered(fs) && WellFormed(fs.nodes) && |contents| == |fs.origin| && 0 < i < |fs.nodes| && !Attached(fs.nodes, i)
    ensures Harmless(fs, contents, i)
  {
    hide WellFormed, UniqueNames, Attached;
  }

  // ---- What is found under a name ----

  /** What reading a file, symlink or directory must give back. */
  function Expected(c: Content, offset: nat, count: Option<nat>): Result<seq<byte>, ReadError> {
    match c
    case Directory => Err(IsDirectory)
    case Symlink(_) => Err(NotAFile)
    case File(d) => var w := FileRead.Wanted(|d|, offset, count); Ok(d[w.0..w.0 + w.1])
  }

  /** The inode read has the attributes and the contents of the one written. */
  ghost predicate ReadsBack(img: seq<byte>, written: Inode, read: Inode, c: Content) {
    && SameAttributes(written, read) && |read.block| == 60
    && (c.Directory? ==> read.IsDir())
    && (c.Symlink? ==> LinkBytes(img, read) == Ok(c.target))
    && forall offset: nat, count: Option<nat> :: FileBytes(img, read, offset, count) == Expected(c, offset, count)
  }

  lemma HeldReadsBack(img: seq<byte>, written: Inode, read: Inode, c: Content)
    requires ContentReads(img, read, c) && SameAttributes(written, read)
    ensures ReadsBack(img, written, read, c)
  {
    hide *;
    ContentCases(img, read, c);
    if c.Symlink? {
      SameLink(c);
      TargetReadsBack(img, read, c.target);
    }
    forall offset: nat, count: Option<nat> ensures FileBytes(img, read, offset, count) == Expected(c, offset, count) {
      FileReadsBack(img, read, c, offset, count);
      ExpectedIs(c, offset, count);
    }
    ReadsBackIs(img, written, read, c);
  }

  lemma SameLink(c: Content)
    requires c.Symlink?
    ensures c == Symlink(c.target)
  {
  }

  lemma ExpectedIs(c: Content, offset: nat, count: Option<nat>)
    ensures Expected(c, offset, count)
         == match c
            case Directory => Err(IsDirectory)
            case Symlink(_) => Err(NotAFile)
            case File(d) => var w := FileRead.Wanted(|d|, offset, count); Ok(d[w.0..w.0 + w.1])
  {
  }

  lemma ReadsBackIs(img: seq<byte>, written: Inode, read: Inode, c: Content)
    requires SameAttributes(written, read) && |read.block| == 60 && (c.Directory? ==> read.IsDir())
    requires c.Symlink? ==> LinkBytes(img, read) == Ok(c.target)
    requires forall offset: nat, count: Option<nat> :: FileBytes(img, read, offset, count) == Expected(c, offset, count)
    ensures ReadsBack(img, written, read, c)
  {
    hide SameAttributes, LinkBytes, FileBytes, Expected, Inode.IsDir;
  }

  lemma AttributesBack(img: seq<byte>, sb: SuperBlock, fs: Fs, contents: seq<Content>, inodes: seq<Inode>, i: nat)
    requires O.ImageOf(img, sb, fs, contents, inodes) && Numbered(fs) && i < |fs.nodes|
    ensures 0 < Target(fs.nodes[i]) <= |inodes| && SameAttributes(TargetInode(fs, i), inodes[Target(fs.nodes[i]) - 1])
  {
    NamedInRange(fs, i);
    hide Inv, Numbered, Plain, Listable, DirReadsAt, HeldReads, InodeReadsAt, Target, TargetInode;
    assert SameAttributes(fs.inodes[Target(fs.nodes[i]) - 1], inodes[Target(fs.nodes[i]) - 1]);
  }

  lemma CanonicalAt(q: Path)
    requires Canonical(q)
    ensures forall k :: 0 <= k < |q| ==> ValidName(q[k])
  {
  }

  // ---- A whole run ----

  lemma ClosedIsImage(img: seq<byte>, geo: Geometry, fs: Fs, contents: seq<Content>, nodes: Nodes, inodes: seq<Inode>, lo: nat, first: nat)
    requires Closed(img, geo, fs, contents, nodes, inodes, lo, first) && Inv(fs, 0) && Plain(fs)
    ensures ReadSuper(img).Ok? && Supported(ReadSuper(img).value)
    ensures O.ImageOf(img, ReadSuper(img).value, fs, contents, inodes)
  {
    ClosedReads(img, geo, fs, contents, nodes, inodes, lo, first);
    ClosedNumbered(img, geo, fs, contents, nodes, inodes, lo, first);
    hide Closed, SuperFor, ReadSuper, Inv, Plain, Numbered, Listable, DirReadsAt, HeldReads, InodeReadsAt, SameAttributes;
  }

  lemma ClosedNumbered(img: seq<byte>, geo: Geometry, fs: Fs, contents: seq<Content>, nodes: Nodes, inodes: seq<Inode>, lo: nat, first: nat)
    requires Closed(img, geo, fs, contents, nodes, inodes, lo, first)
    ensures Numbered(fs)
  {
    hide Numbered, Listable, Geometry.Ok, MetadataAt, OnDiskOk, Committed;
  }

  datatype Outcome = NotClosed(why: FormatError) | NotOpened(error: ReadError) | Opened(reader: Reader)

  /** Close and open again. Whenever the last size needs no more descriptor blocks
      than were reserved, the image opens exactly if no short symlink looks like
      extents, and brings back exactly the attached names with their inode numbers. */
  method CloseAndOpen(f: Formatter) returns (r: Outcome, ghost geo: Geometry)
    requires f.Valid(0) && Plain(f.View()) && |f.tree.nodes| <= MAX_NAMES && TextTargets(Seen(f.View(), f.contents))
    requires f.size > 0 && f.first == DescriptorBlocks(f.size) + 1
    modifies f`size, f`inodes, f.tree, f.file
    ensures Numbered(old(f.View())) && Listable(old(f.View()))
    ensures r.NotClosed? <==> TooBig(f.allowPartialFinalGroup, old(f.size), DirectoriesEnd(old(f.View()), old(f.file.pos)), |old(f.inodes)|)
    ensures r.NotClosed? ==> r.why == NumbersOverflow
    ensures !r.NotClosed? ==> geo.Ok() && geo.total > 0 && f.size > 0 && geo.UsedDescriptors() <= DescriptorBlocks(f.size)
    ensures !r.NotClosed? && geo.UsedDescriptors() <= DescriptorBlocks(old(f.size)) ==>
      && ReadSuper(f.file.bytes).Ok?
      && O.ImageOf(f.file.bytes, ReadSuper(f.file.bytes).value, old(f.View()), f.contents, f.inodes)
      && Numbered(old(f.View())) && WellFormed(old(f.View()).nodes)
      && (r.Opened? <==> HarmlessNames(Seen(old(f.View()), f.contents)))
      && (r.Opened? ==> R.Recovered(old(f.View()), r.reader.tree.nodes, r.reader.hardlinks))
  {
    ghost var fs := f.View();
    hide *;
    ViewInv(f);
    InvParts(fs, 0);
    var closed;
    ghost var lo, first := f.file.pos, f.first;
    closed, geo := Close(f);
    if closed.Err? {
      return NotClosed(closed.error), geo;
    }
    ghost var good := geo.UsedDescriptors() < first;
    if good {
      ClosedIsImage(f.file.bytes, geo, fs, f.contents, f.tree.nodes, f.inodes, lo, first);
      ParsesIffHarmless(f.file.bytes, ReadSuper(f.file.bytes).value, fs, f.contents, f.inodes);
    }
    SuperReads(f.file.bytes, geo, fs.deleted, f.inodes);
    var reader := O.Open(f.file, fs, f.contents, f.inodes);
    r := if reader.Ok? then Opened(reader.value) else NotOpened(reader.error);
  }

  lemma ViewInv(f: Formatter)
    requires f.Valid(0)
    ensures Inv(f.View(), 0)
  {
  }
}
