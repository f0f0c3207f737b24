/** Runs on new file systems that show where the code falls short: what it promises
    fails at these inputs. */
module Witnesses {
  import opened Basics
  import opened Image
  import opened OnDisk
  import opened Extents
  import opened Trees
  import opened Namespace
  import opened Unlinking
  import opened Contents
  import opened Layout
  import opened Directory
  import opened Listing
  import opened Committing
  import opened Sums
  import opened Groups
  import opened Closing
  import opened Accounting
  import opened Finish
  import opened Requests
  import opened Views
  import opened Formatting
  import opened Verdicts
  import opened Tallies
  import Traversal

  const D: Name := ['d' as int]
  const F: Name := ['f' as int]
  const L: Name := ['l' as int]
  const REGULAR: nat := 0x81A4

  /** The request for a regular file. */
  function FileRequest(d: seq<byte>): Request { Request(REGULAR, None, Some(d), None, None) }

  lemma FileWanted(d: seq<byte>)
    requires |d| <= MAX_FILE_BLOCKS * 4096
    ensures !IsDirMode(REGULAR) && !IsLinkMode(REGULAR) && Wanted(REGULAR, None, Some(d)) == Ok(File(d)) && Sensible(REGULAR, None)
    ensures Owned(None, None) && FileRequest(d) == Request(REGULAR, None, Some(d), None, None)
  {
  }

  // ---- A file in the root directory ----

  /** A file system with few names, whose counts are right. */
  ghost predicate Small(fs: Fs) {
    Inv(fs, 0) && Numbered(fs) && Tidy(fs) && |fs.nodes| <= 60000
  }

  lemma SmallParts(fs: Fs)
    requires Small(fs)
    ensures Inv(fs, 0) && Numbered(fs) && Tidy(fs) && WellFormed(fs.nodes) && |fs.nodes| > 0 && Plain(fs) && |fs.nodes| <= 60000
    ensures Find(fs.nodes, 0, []) == Some(0) && OwnInode(fs, 0).IsDir() && fs.nodes[0].link == None
  {
    RootNode(fs);
    RootIsPlainDir(fs, [], 0);
    hide Inv, Numbered, DirCounts, Plain, WellFormed, OwnInode;
  }

  /** The root directory has room for one more. */
  lemma RootRoom(fs: Fs)
    requires Small(fs)
    ensures Numbered(fs) && |fs.nodes| > 0 && OwnInode(fs, 0).links <= 2 + |fs.nodes| < MAX_LINKS
  {
    SmallParts(fs);
    hide Small;
    PathOfLookup(fs.nodes, []);
    SubDirIs(fs, 0);
    TidyAt(fs, 0);
    SubDirsIs(fs, 0);
    SubsetSize(SubDirs(fs, 0), Traversal.UpTo(|fs.nodes|));
    hide Inv, Numbered, Tidy, WellFormed, OwnInode, SubDirs;
  }

  /** A file that is not there yet is made. */
  lemma FileAnswer(fs: Fs, name: Name, d: seq<byte>)
    requires Small(fs) && Numbered(fs) && WellFormed(fs.nodes) && Find(fs.nodes, 0, [name]) == None && |d| <= MAX_FILE_BLOCKS * 4096
    ensures Answer(fs, [name], FileRequest(d)) == Ok(())
  {
    hide *;
    SmallParts(fs);
    RootRoom(fs);
    FileWanted(d);
    assert ParentOf([name]) == [] by {
      OneUp(name);
    }
    FreeAnswer(fs, [name], FileRequest(d));
    ParentWanted();
    AnswerIs(fs, [], 0, PARENT);
    LinksAtIs(fs, [], 0);
    EnteredIs(OwnInode(fs, 0).links, FileRequest(d));
    RequestParts(d);
  }

  lemma OneUp(name: Name)
    ensures ParentOf([name]) == [] && Basename([name]) == name
  {
  }

  lemma RequestParts(d: seq<byte>)
    ensures FileRequest(d).mode == REGULAR && FileRequest(d).link == None && FileRequest(d).data == Some(d)
    ensures FileRequest(d).uid == None && FileRequest(d).gid == None
  {
  }

  /** What making file `name` adds to `a`. */
  ghost predicate FileAdded(a: Fs, b: Fs, name: Name)
    requires WellFormed(a.nodes) && WellFormed(b.nodes) && |a.nodes| > 0
  {
    && |b.nodes| == |a.nodes| + 1 && |b.inodes| == |a.inodes| + 1
    && Find(b.nodes, 0, [name]) == Some(|a.nodes|) && b.nodes[|a.nodes|].link == None && b.nodes[|a.nodes|].inode == |b.inodes|
    && b.inodes[|a.inodes|].links == 1 && b.inodes[|a.inodes|].mode == REGULAR
    && (forall q: Path :: q != [name] ==> Find(b.nodes, 0, q) == Find(a.nodes, 0, q))
    && (forall i :: 0 <= i < |a.nodes| ==> NodeKept(a.nodes[i], b.nodes[i]))
    && (forall k :: 0 <= k < |a.inodes| ==> FileKept(a.inodes[k], b.inodes[k], false))
  }

  /** Make the file /`name`. */
  method AddFile(f: Formatter, name: Name, d: seq<byte>)
    requires f.Valid(0) && Small(f.View()) && ValidName(name) && |d| <= MAX_FILE_BLOCKS * 4096 && f.file.pos % 4096 == 0
    requires WellFormed(f.View().nodes) && |f.View().nodes| > 0 && Find(f.View().nodes, 0, [name]) == None
    modifies f`inodes, f`deletedBlocks, f`deferredBlocks, f`origin, f`contents, f.tree, f.file
    ensures f.Valid(0) && Numbered(f.View()) && Tidy(f.View()) && Inv(f.View(), 0) && WellFormed(f.View().nodes)
    ensures FileAdded(old(f.View()), f.View(), name) && f.contents == old(f.contents) + [File(d)]
    ensures f.file.pos == old(f.file.pos) + DataBlocks(|d|) * 4096
    ensures LostSeen(Seen(old(f.View()), old(f.contents))) && name != LOST_FOUND ==> LostSeen(Seen(f.View(), f.contents))
  {
    hide *;
    ghost var a := f.Now();
    NowIs(f);
    OnDiskCounts(f);
    SmallParts(f.View());
    FileWanted(d);
    OneName(name);
    FileAnswer(f.View(), name, d);
    RequestParts(d);
    var r := f.Create([name], REGULAR, None, Some(d), None, None);
    NowIs(f);
    OnDiskCounts(f);
    Parts(f, 0);
    ghost var b := f.Now();
    RepliesPlain(a.fs, b.fs, [name], FileRequest(d), r);
    OutcomeParts(a, b, [name], FileRequest(d), true);
    FileChanges(a, b, name, d);
    SpentIs(a.fs, [name], FileRequest(d));
    FileBlocks(d);
  }

  lemma RepliesPlain(a: Fs, b: Fs, path: Path, req: Request, r: Result<(), FormatError>)
    requires Replies(a, b, path, req, r)
    ensures Numbered(a) && (Plain(a) ==> r == Answer(a, path, req))
  {
    hide Numbered, Plain, Answer;
  }

  lemma OneName(name: Name)
    requires ValidName(name)
    ensures Canonical([name]) && [name] != []
  {
    hide ValidName;
  }

  lemma FileBlocks(d: seq<byte>)
    ensures ContentBlocks(File(d)) == DataBlocks(|d|)
  {
    hide DataBlocks;
  }

  lemma FileChanges(a: Snapshot, b: Snapshot, name: Name, d: seq<byte>)
    requires Small(a.fs) && Inv(b.fs, 0) && Numbered(b.fs) && WellFormed(a.fs.nodes) && WellFormed(b.fs.nodes) && |a.fs.nodes| > 0
    requires Numbered(a.fs) && |a.contents| == |a.fs.origin| && |b.contents| == |b.fs.origin| && |d| <= MAX_FILE_BLOCKS * 4096
    requires Find(a.fs.nodes, 0, [name]) == None
    requires Outcome(a, b, [name], FileRequest(d), true)
    ensures FileAdded(a.fs, b.fs, name) && b.contents == a.contents + [File(d)] && Tidy(b.fs)
    ensures LostSeen(Seen(a.fs, a.contents)) && name != LOST_FOUND ==> LostSeen(Seen(b.fs, b.contents))
  {
    hide *;
    SmallParts(a.fs);
    FileWanted(d);
    RequestParts(d);
    Formatting.InvParts(b.fs, 0);
    OutcomeParts(a, b, [name], FileRequest(d), true);
    KeptParts(a, b, ChangedInode(a.fs, [name], FileRequest(d)));
    NoneChanged(a.fs, [name], FileRequest(d));
    FilesKeptIs(a.fs, b.fs, 0);
    NewIs(b, name, d);
    CountAdded(a, b, name, d);
    Shaped(a.fs);
    Shaped(b.fs);
    forall q: Path | q != [name] ensures Find(b.fs.nodes, 0, q) == Find(a.fs.nodes, 0, q) {
      OtherNames(a.fs, b.fs, name, q);
    }
    FileTidy(a, b, name, d);
    FileAddedIs(a.fs, b.fs, name);
  }

  lemma NoneChanged(fs: Fs, path: Path, req: Request)
    requires WellFormed(fs.nodes) && |fs.nodes| > 0 && Find(fs.nodes, 0, path) == None
    ensures ChangedInode(fs, path, req) == 0
  {
    hide WellFormed, Find, IsDirMode;
  }

  lemma FilesKeptIs(a: Fs, b: Fs, n: nat)
    requires FilesKept(a, b, n)
    ensures |a.inodes| <= |b.inodes| && (forall k :: 0 <= k < |a.inodes| ==> FileKept(a.inodes[k], b.inodes[k], k + 1 == n))
    ensures |a.nodes| <= |b.nodes| && (forall i :: 0 <= i < |a.nodes| ==> NodeKept(a.nodes[i], b.nodes[i]))
  {
    hide FileKept, NodeKept;
  }

  lemma NewIs(b: Snapshot, name: Name, d: seq<byte>)
    requires Numbered(b.fs) && |b.contents| == |b.fs.origin| && MadeNew(b, [name], FileRequest(d)) && |d| <= MAX_FILE_BLOCKS * 4096
    ensures |b.contents| > 0 && b.contents[|b.contents| - 1] == File(d) && |b.fs.inodes| > 0 && |b.fs.nodes| > 0
    ensures Find(b.fs.nodes, 0, [name]) == Some(|b.fs.nodes| - 1) && b.fs.nodes[|b.fs.nodes| - 1].link == None
    ensures b.fs.nodes[|b.fs.nodes| - 1].inode == |b.fs.inodes|
    ensures b.fs.inodes[|b.fs.inodes| - 1].links == 1 && b.fs.inodes[|b.fs.inodes| - 1].mode == REGULAR
  {
    FileWanted(d);
    RequestParts(d);
    Shaped(b.fs);
    hide Numbered, Find, WellFormed, Wanted, IsDirMode, IsLinkMode;
  }

  /** One inode more, because the names are one more. */
  lemma CountAdded(a: Snapshot, b: Snapshot, name: Name, d: seq<byte>)
    requires Small(a.fs) && Numbered(a.fs) && Numbered(b.fs) && WellFormed(a.fs.nodes) && |a.fs.nodes| > 0
    requires Find(a.fs.nodes, 0, [name]) == None && |d| <= MAX_FILE_BLOCKS * 4096
    requires Seen(b.fs, b.contents) == AfterCreate(Seen(a.fs, a.contents), [name], FileRequest(d))
    ensures |b.fs.inodes| == |a.fs.inodes| + 1
    ensures LostSeen(Seen(a.fs, a.contents)) && name != LOST_FOUND ==> LostSeen(Seen(b.fs, b.contents))
  {
    hide *;
    SmallParts(a.fs);
    FileWanted(d);
    RequestParts(d);
    OneUp(name);
    var v := Seen(a.fs, a.contents);
    NameAt(a.fs, a.contents, [name]);
    NameAt(a.fs, a.contents, []);
    SeenGet(a.fs, a.contents, []);
    SeenGet(b.fs, b.contents, []);
    CreatedIs(v, [name], FileRequest(d));
    RootMade(v);
    GetAdd(v, [name], File(d), REGULAR, None, None, []);
    GetAdd(v, [name], File(d), REGULAR, None, None, [LOST_FOUND]);
    if LostSeen(v) && name != LOST_FOUND {
      assert [name][0] != [LOST_FOUND][0];
      LostStays(v, Seen(b.fs, b.contents));
    }
  }

  lemma RootMade(v: Volume)
    requires [] in v.names
    ensures MakeDirs(v, []) == v
  {
  }

  lemma OtherNames(a: Fs, b: Fs, name: Name, q: Path)
    requires WellFormed(a.nodes) && WellFormed(b.nodes) && |a.nodes| > 0 && |b.nodes| > 0 && Remade(a, b, [name]) && q != [name]
    requires Find(a.nodes, 0, [name]) == None && Find(a.nodes, 0, []) == Some(0)
    ensures Find(b.nodes, 0, q) == Find(a.nodes, 0, q)
  {
    assert RemadeAt(a, b, [name], q);
    if [name] <= q {
      NothingBelowNothing(a.nodes, [name], q);
    } else if q <= [name] {
      assert q == [];
    }
    hide Remade, WellFormed, Find;
  }

  lemma FileTidy(a: Snapshot, b: Snapshot, name: Name, d: seq<byte>)
    requires Inv(a.fs, 0) && Numbered(a.fs) && Numbered(b.fs) && Tidy(a.fs) && KeepsTidy(a, b, [name], FileRequest(d))
    requires WellFormed(a.fs.nodes) && |a.fs.nodes| > 0 && Find(a.fs.nodes, 0, [name]) == None
    requires Find(a.fs.nodes, 0, []) == Some(0) && a.fs.nodes[0].link == None
    ensures Tidy(b.fs)
  {
    assert [name][..0] == [];
    hide Inv, Numbered, Tidy, WellFormed, Find, IsDirMode;
  }

  lemma FileAddedIs(a: Fs, b: Fs, name: Name)
    requires WellFormed(a.nodes) && WellFormed(b.nodes) && |a.nodes| > 0
    requires |b.nodes| == |a.nodes| + 1 && |b.inodes| == |a.inodes| + 1
    requires Find(b.nodes, 0, [name]) == Some(|a.nodes|) && b.nodes[|a.nodes|].link == None && b.nodes[|a.nodes|].inode == |b.inodes|
    requires b.inodes[|a.inodes|].links == 1 && b.inodes[|a.inodes|].mode == REGULAR
    requires forall q: Path :: q != [name] ==> Find(b.nodes, 0, q) == Find(a.nodes, 0, q)
    requires forall i :: 0 <= i < |a.nodes| ==> NodeKept(a.nodes[i], b.nodes[i])
    requires forall k :: 0 <= k < |a.inodes| ==> FileKept(a.inodes[k], b.inodes[k], false)
    ensures FileAdded(a, b, name)
  {
    hide WellFormed, Find, NodeKept, FileKept;
  }

  // ---- A new file system ----

  /** Make a file system. Nothing but the root and /lost+found is there. */
  method NewSystem(size: nat, partial: bool) returns (f: Formatter)
    requires size > 0
    ensures fresh(f) && fresh(f.file) && fresh(f.tree) && f.Valid(0) && Small(f.View()) && WellFormed(f.View().nodes)
    ensures f.size == size && f.allowPartialFinalGroup == partial && f.first == DescriptorBlocks(size) + 1
    ensures f.file.pos == f.first * 4096 && f.file.pos % 4096 == 0
    ensures Numbered(f.View()) && |f.View().nodes| == 2 && |f.View().inodes| == 11 && OnlyLostFound(f.View())
    ensures LostSeen(Seen(f.View(), f.contents)) && OnlyFiles(f.View())
    ensures forall q: Path :: q != [] && q != [LOST_FOUND] ==> Find(f.View().nodes, 0, q) == None
  {
    hide *;
    var r;
    f, r := WithOptions(size, partial);
    Parts(f, 0);
    RootNode(f.View());
    NewCount(f.View(), f.contents);
    SmallIs(f.View());
    OnlyNames(f.View());
    Aligned(f.first, f.file.pos);
    OnDiskCounts(f);
    NewNodes(f.View(), f.contents, f.file.bytes, f.file.pos, f.first);
  }

  lemma Aligned(n: nat, pos: nat)
    requires pos == n * 4096
    ensures pos % 4096 == 0
  {
  }

  lemma SmallIs(fs: Fs)
    ensures Small(fs) <==> Inv(fs, 0) && Numbered(fs) && Tidy(fs) && |fs.nodes| <= 60000
  {
    hide Inv, Numbered, Tidy;
  }

  lemma NewCount(fs: Fs, contents: seq<Content>)
    requires Numbered(fs) && Numbered(InitialFs())
    requires Seen(fs, contents) == AfterCreate(Seen(InitialFs(), []), [LOST_FOUND], LOST)
    ensures |fs.inodes| == 11 && LostSeen(Seen(fs, contents))
  {
    var a := InitialFs();
    var v := Seen(a, []);
    InitialNumbered();
    assert IsDirMode(LOST.mode) && Wanted(LOST.mode, LOST.link, LOST.data) == Ok(Directory);
    assert |a.inodes| == 10;
    RootNode(a);
    InitialNames([LOST_FOUND]);
    hide InitialFs, AfterCreate, Seen, IsDirMode, Wanted, Numbered;
    NameAt(a, [], [LOST_FOUND]);
    NameAt(a, [], []);
    SeenGet(a, [], []);
    SeenGet(fs, contents, []);
    CreatedIs(v, [LOST_FOUND], LOST);
    OneUp(LOST_FOUND);
    RootMade(v);
    GetAdd(v, [LOST_FOUND], Directory, LOST.mode, LOST.uid, LOST.gid, []);
    GetAdd(v, [LOST_FOUND], Directory, LOST.mode, LOST.uid, LOST.gid, [LOST_FOUND]);
    NameInIs(Seen(fs, contents), [LOST_FOUND]);
  }

  lemma OnlyNames(fs: Fs)
    requires Numbered(fs) && WellFormed(fs.nodes) && OnlyLostFound(fs)
    ensures forall q: Path :: q != [] && q != [LOST_FOUND] ==> Find(fs.nodes, 0, q) == None
  {
    hide Numbered, LooksLikeDirectory, Find, WellFormed;
  }

  lemma ShortNames()
    ensures ValidName(D) && ValidName(F) && ValidName(L) && [F] != [LOST_FOUND] && [D] != [LOST_FOUND] && [L] != [LOST_FOUND]
    ensures [F] != [] && [D] != [] && [F, L] != [LOST_FOUND]
    ensures D != F && D != L && F != L && RESERVED == 10
    ensures Canonical([F]) && Canonical([L]) && Canonical([D, L]) && Canonical([F, L])
    ensures ParentOf([D, L]) == [D] && ParentOf([F, L]) == [F] && ParentOf([L]) == []
    ensures [D] != [F] && [F, L] != [F] && [L] != [F] && [D, L] != [] && [F, L] != [] && [L] != []
  {
    assert 'd' as int != '/' as int && 'f' as int != '/' as int && 'l' as int != '/' as int;
    assert |LOST_FOUND| > 1 && |[F, L]| == 2 && |[D, L]| == 2;
    assert [F][0] != [LOST_FOUND][0] && [D][0] != [LOST_FOUND][0] && [L][0] != [LOST_FOUND][0];
    assert [D][0] != [F][0] && [L][0] != [F][0];
  }

  // ---- Links that go wrong ----

  /** The file just added can be linked to. */
  lemma FileIsTarget(a: Fs, b: Fs, name: Name)
    requires WellFormed(a.nodes) && WellFormed(b.nodes) && |a.nodes| > 0 && Numbered(b) && FileAdded(a, b, name)
    ensures LinkTarget(b, [name]) == Ok(|b.inodes|) && TargetRoom(b, [name])
    ensures |a.nodes| < |b.nodes| && !OwnInode(b, |a.nodes|).IsDir() && OwnInode(b, |a.nodes|).links == 1
  {
    FileMode(b.inodes[|a.inodes|]);
    NumberedAt(b, |a.nodes|);
    hide Numbered, WellFormed, NodeKept, FileKept, Inode.IsDir, OwnInode;
  }

  lemma FileMode(inode: Inode)
    requires inode.mode == REGULAR
    ensures !inode.IsDir()
  {
  }

  /** Create /f, then link /d/l to it, there being no /d: the call fails, and the count
      of /f stays one ahead of its names. */
  method FailedLink() returns (f: Formatter, r: Result<(), FormatError>)
    ensures r == Err(NotFound) && f.Valid(12) && !Inv(f.View(), 0)
  {
    hide *;
    f := NewSystem(4096, true);
    ghost var a := f.View();
    ShortNames();
    SmallParts(a);
    NoData();
    AddFile(f, F, []);
    ghost var b := f.View();
    AddedNames(a, b, F);
    FileIsTarget(a, b, F);
    TidyPlain(b);
    LinkAnswerIs(b, [D, L], 12);
    r := f.Link([D, L], [F]);
  }

  lemma NoData()
    ensures var none: seq<byte> := []; |none| <= MAX_FILE_BLOCKS * 4096
  {
  }

  lemma TidyPlain(fs: Fs)
    requires Numbered(fs) && Tidy(fs)
    ensures Plain(fs)
  {
    hide Numbered, Plain, DirCounts;
  }

  lemma AddedNames(a: Fs, b: Fs, name: Name)
    requires WellFormed(a.nodes) && WellFormed(b.nodes) && |a.nodes| > 0 && FileAdded(a, b, name)
    ensures |b.nodes| == |a.nodes| + 1 && |b.inodes| == |a.inodes| + 1
    ensures Find(b.nodes, 0, [name]) == Some(|a.nodes|) && b.nodes[|a.nodes|].link == None && b.nodes[|a.nodes|].inode == |b.inodes|
    ensures forall q: Path :: q != [name] ==> Find(b.nodes, 0, q) == Find(a.nodes, 0, q)
  {
    hide WellFormed, Find, NodeKept, FileKept;
  }

  /** Create /f, then link /f/l to it: the call succeeds, and what must hold between
      calls does not. */
  method LinkedBelowFile() returns (f: Formatter, r: Result<(), FormatError>)
    ensures r == Ok(()) && !Inv(f.View(), 0)
  {
    hide *;
    f := NewSystem(4096, true);
    ghost var a := f.View();
    ShortNames();
    SmallParts(a);
    NoData();
    AddFile(f, F, []);
    ghost var b := f.View();
    AddedNames(a, b, F);
    FileIsTarget(a, b, F);
    TidyPlain(b);
    LinkAnswerIs(b, [F, L], 12);
    ParentLinksIs(b, [F, L], 12, 2);
    FewLinks();
    FileParent(b, [F, L], 2);
    r := f.Link([F, L], [F]);
  }

  lemma FileParent(fs: Fs, path: Path, p: nat)
    requires Numbered(fs) && Find(fs.nodes, 0, ParentOf(path)) == Some(p) && p < |fs.nodes| && !OwnInode(fs, p).IsDir()
    ensures !ParentIsDir(fs, path)
  {
    hide Numbered, OwnInode, Inode.IsDir, Find;
  }

  lemma FewLinks()
    ensures 3 < MAX_LINKS
  {
  }

  // ---- A link count that goes wrong ----

  /** Create /f, link /l to it, unlink /l: the root then has a link too few for its
      subdirectory. */
  method MiscountedRoot() returns (f: Formatter)
    ensures f.Valid(0) && Numbered(f.View()) && !DirCounts(f.View())
  {
    hide *;
    f := NewSystem(4096, true);
    ghost var a := f.View();
    ShortNames();
    SmallParts(a);
    NoData();
    AddFile(f, F, []);
    ghost var b := f.View();
    AddedNames(a, b, F);
    FileIsTarget(a, b, F);
    SmallIs(b);
    SmallParts(b);
    RootRoom(b);
    NumberedAt(b, 0);
    RootIsTwo(b);
    LinkAnswerIs(b, [L], 12);
    ParentLinksIs(b, [L], 12, 0);
    FreeOfLinks(b, [L]);
    var r := f.Link([L], [F]);
    ghost var c := f.View();
    Parts(f, 0);
    LinkedNames(b, c, f.contents, [L], [F], 12);
    OneLong(L);
    LostLinked(Seen(b, f.contents), [L], [F]);
    LostIsSubDir(c, f.contents, f.file.bytes, f.file.pos, f.first);
    TidyPlain(c);
    r := f.Unlink([L], false, 0);
    ghost var d := f.View();
    Parts(f, 0);
    RootLosesLink(c, d, 3, [L]);
  }

  lemma OneLong(name: Name)
    ensures |[name]| == 1
  {
  }

  lemma RootIsTwo(fs: Fs)
    requires Numbered(fs)
    ensures |fs.nodes| > 0 && fs.nodes[0].inode == ROOT_INODE == 2
  {
    RootNode(fs);
    hide Numbered;
  }

  /** Nothing stands at `path`, and its parent is the root. */
  lemma FreeOfLinks(fs: Fs, path: Path)
    requires Small(fs) && Numbered(fs) && WellFormed(fs.nodes) && |fs.nodes| > 0 && Find(fs.nodes, 0, path) == None && ParentOf(path) == []
    ensures ParentIsDir(fs, path) && ParentIsPlain(fs, path) && NothingLinkedAt(fs, path)
  {
    SmallParts(fs);
    hide Small, Numbered, WellFormed, Find, OwnInode, Inode.IsDir, NoLinksUnder;
  }

  lemma LinkedNames(a: Fs, b: Fs, contents: seq<Content>, linkPath: Path, targetPath: Path, t: nat)
    requires LinkedTo(a, b, contents, linkPath, targetPath, t)
    ensures WellFormed(b.nodes) && |b.nodes| == |a.nodes| + 1 && Find(b.nodes, 0, linkPath) == Some(|a.nodes|) && b.nodes[|a.nodes|].link == Some(t)
    ensures Numbered(a) && Numbered(b) && Seen(b, contents) == AfterLink(Seen(a, contents), linkPath, targetPath)
  {
    hide Numbered, Seen, AfterLink, Find, LinkFrame, WellFormed;
    Shaped(b);
  }

  lemma RootLosesLink(c: Fs, d: Fs, v: nat, path: Path)
    requires Inv(c, 0) && Inv(d, 0) && Numbered(c) && Numbered(d) && Tidy(c) && WellFormed(c.nodes)
    requires 0 < v < |c.nodes| && Find(c.nodes, 0, path) == Some(v) && ParentOf(path) == [] && c.nodes[v].link.Some?
    requires Unlinked(c, d, v) && RemovedApart(c, d, v)
    requires exists x :: x in SubDirs(c, 0)
    ensures !DirCounts(d)
  {
    hide *;
    RootNode(c);
    RootNode(d);
    FoundParent(c.nodes, path, v);
    RemovedApartIs(c, d, v);
    AwayButDrops(c, d, v);
    PlaceholderIsDir(c, v);
    InvKinds(c, 0);
    InvKinds(d, 0);
    RootDir(c);
    RootDir(d);
    TidyAt(c, 0);
    NumberedAt(c, 0);
    NumberedAt(d, 0);
    ListedByParent(c.nodes, v);
    SubDirsStay(c, d, v);
    SubsetSize(SubDirs(c, 0), SubDirs(d, 0));
    if DirCounts(d) {
      CountsAtRoot(d);
    }
  }

  lemma PlaceholderIsDir(fs: Fs, v: nat)
    requires Inv(fs, 0) && Numbered(fs) && 0 < v < |fs.nodes| && fs.nodes[v].link.Some?
    ensures OwnInode(fs, v).IsDir()
  {
    assert NumberedNode(fs, v);
    hide WellFormed, UniqueNames, KindOk, Counts, Ownership, Inode.IsDir, NumberedInode;
  }

  lemma RootDir(fs: Fs)
    requires Numbered(fs) && Kinds(fs)
    ensures |fs.nodes| > 0 && WellFormed(fs.nodes) && IsSubDir(fs, 0) && Attached(fs.nodes, 0)
  {
    RootNode(fs);
    PathOfLookup(fs.nodes, []);
    hide KindOk, NumberedNode, NumberedInode, WellFormed, UniqueNames, Inode.IsDir;
  }

  lemma CountsAtRoot(fs: Fs)
    requires Numbered(fs) && |fs.nodes| > 0 && WellFormed(fs.nodes) && IsSubDir(fs, 0) && Attached(fs.nodes, 0) && DirCounts(fs)
    ensures OwnInode(fs, 0).links == 2 + |SubDirs(fs, 0)|
  {
    assert DirCountOk(fs, 0);
    hide Numbered, SubDirs, OwnInode, Attached, IsSubDir;
  }

  lemma ListedByParent(nodes: Nodes, v: nat)
    requires WellFormed(nodes) && 0 < v < |nodes| && Attached(nodes, v)
    ensures Removed(nodes, v)
  {
  }

  lemma SubDirsStay(c: Fs, d: Fs, v: nat)
    requires Numbered(c) && Numbered(d) && 0 < v < |c.nodes| && c.nodes[v].link.Some? && WellFormed(c.nodes) && Unlinked(c, d, v)
    requires Kinds(c) && Kinds(d) && Removed(c.nodes, v)
    ensures |d.nodes| == |c.nodes| > 0 && SubDirs(c, 0) <= SubDirs(d, 0)
  {
    SubDirsIs(c, 0);
    SubDirsIs(d, 0);
    forall x | x in SubDirs(c, 0) ensures x in SubDirs(d, 0) {
      SubDirIs(c, x);
      SubDirIs(d, x);
      NumberedAt(c, x);
      NumberedAt(d, x);
      KidsLess(c.nodes, v, 0, x);
    }
    hide Numbered, WellFormed, OwnInode, SubDirs, IsSubDir, KidsWithout;
  }

  /** Taking one name out of a directory leaves the others. */
  lemma KidsLess(nodes: Nodes, v: nat, i: nat, x: nat)
    requires WellFormed(nodes) && UniqueNames(nodes) && 0 < v < |nodes| && i < v && x in nodes[i].children && x != v && Removed(nodes, v)
    ensures x in KidsWithout(nodes, v, i)
  {
    assert KidsOk(nodes, i) && KidsUnique(nodes, i);
    var kids := nodes[i].children;
    if i == nodes[v].parent.value {
      assert nodes[x].name != nodes[v].name by {
        var j, k :| 0 <= j < |kids| && 0 <= k < |kids| && kids[j] == x && kids[k] == v;
      }
      DropKeeps(nodes, kids, nodes[v].name, x);
    }
    UnderIsLater(nodes, v, i);
  }

  /** `v` is listed by its parent. */
  predicate Removed(nodes: Nodes, v: nat)
    requires WellFormed(nodes) && 0 < v < |nodes|
  {
    v in nodes[nodes[v].parent.value].children
  }

  lemma {:induction false} UnderIsLater(nodes: Nodes, v: nat, i: nat)
    requires WellFormed(nodes) && i < v < |nodes|
    ensures !Under(nodes, v, i)
    decreases i
  {
    if i > 0 {
      UnderIsLater(nodes, v, nodes[i].parent.value);
    }
  }

  lemma {:induction false} DropKeeps(nodes: Nodes, kids: seq<nat>, name: Name, x: nat)
    requires InRange(nodes, kids) && x in kids && nodes[x].name != name
    ensures x in DropFirst(nodes, kids, name)
    decreases |kids|
  {
    if nodes[kids[0]].name == name {
      assert kids == [kids[0]] + kids[1..];
    } else if kids[0] != x {
      assert kids == [kids[0]] + kids[1..];
      DropKeeps(nodes, kids[1..], name, x);
    }
  }

  /** /lost+found is seen. */
  ghost predicate LostSeen(v: Volume) {
    [LOST_FOUND] in v.names && !v.names[[LOST_FOUND]].hard && v.names[[LOST_FOUND]].content == Directory
  }

  lemma LostIsSubDir(fs: Fs, contents: seq<Content>, img: seq<byte>, limit: nat, first: nat)
    requires Inv(fs, 0) && OnDiskOk(fs, contents, img, limit, first) && Numbered(fs) && LostSeen(Seen(fs, contents))
    ensures |fs.nodes| > 0 && exists x :: x in SubDirs(fs, 0)
  {
    hide *;
    RootNode(fs);
    LostSeenIs(Seen(fs, contents));
    FileSeen(fs, contents, img, limit, first, [LOST_FOUND]);
    var x := Find(fs.nodes, 0, [LOST_FOUND]).value;
    OneUp(LOST_FOUND);
    FoundParent(fs.nodes, [LOST_FOUND], x);
    RootOnly(fs.nodes, [LOST_FOUND], x);
    UpFrom(fs.nodes, 0, x);
    SubDirIs(fs, x);
    SubDirsIs(fs, 0);
    assert x in SubDirs(fs, 0);
  }

  lemma LostSeenIs(v: Volume)
    requires LostSeen(v)
    ensures [LOST_FOUND] in v.names && !v.names[[LOST_FOUND]].hard && v.names[[LOST_FOUND]].content == Directory
    ensures [LOST_FOUND] != []
  {
  }

  lemma LostStays(v: Volume, w: Volume)
    requires LostSeen(v) && NameIn(w, [LOST_FOUND]) == NameIn(v, [LOST_FOUND])
    ensures LostSeen(w)
  {
  }

  lemma LostLinked(v: Volume, linkPath: Path, targetPath: Path)
    requires LostSeen(v) && linkPath != [LOST_FOUND] && |linkPath| == 1
    ensures LostSeen(AfterLink(v, linkPath, targetPath))
  {
    assert !(linkPath <= [LOST_FOUND]);
  }

  // ---- Data that `close` gives away ----

  /** A request of one block, 16 GiB written: 131 groups, and 64 blocks for their
      descriptors where 32 were set aside. */
  const OUTGROWN := Geometry(true, 4261638, 131, 131, 8192, 4194304, 4261376, 64)

  lemma OutgrownNeeds(c: nat)
    requires Candidate(c)
    ensures Needed(4194304, 12, c) >= 131 && (c == 8192 ==> Needed(4194304, 12, c) == 131)
  {
    assert c == 8192 || c == 16384 || c == 24576 || c == 32768;
  }

  /** That is what `close` computes for it. */
  lemma OutgrownIsLaid()
    ensures Laid(OUTGROWN, true, 4096, 12, 4261638 * 4096) && OUTGROWN.Ok()
    ensures DescriptorBlocks(4096) + 1 == 33 && OUTGROWN.UsedDescriptors() == 2 && OUTGROWN.reserved == 64
  {
    assert Tables(131, 8192) == 67072 && Slots(131, 8192) == 1073152;
    forall c: nat | Candidate(c) ensures OUTGROWN.groups <= Needed(4194304, 12, c) {
      OutgrownNeeds(c);
    }
    OutgrownNeeds(8192);
    assert RaisedSize(true, 4096, 131, 4261376) == 4261638 * 4096;
    assert TableBlocks(8192) == 512;
  }

  /** Whatever file lies in blocks 33 to 64 of that image loses them: they are marked
      free although the file is live. */
  lemma OutgrownDataIsFreed(fs: Fs, contents: seq<Content>, img: seq<byte>, limit: nat, n: nat, r: BlockRange, b: nat)
    requires Inv(fs, 0) && OnDiskOk(fs, contents, img, limit, 33) && limit <= OUTGROWN.DataSize() * 4096
    requires RESERVED < n <= |fs.inodes| && Numbered(fs) && fs.inodes[n - 1].links > 0 && r in OwnRanges(fs, n)
    requires r.start <= b < Reach(r) && b <= 64
    ensures OUTGROWN.Ok() && OUTGROWN.total > 0 && !GroupBits(OUTGROWN, fs.deleted, 0)[b]
  {
    OutgrownIsLaid();
    hide *;
    OutgrownFacts();
    LiveTakenIff(OUTGROWN, fs, contents, img, limit, 33, n, r, b);
  }

  lemma OutgrownFacts()
    ensures OUTGROWN.total == 131 && OUTGROWN.reserved == 64
  {
  }

  /** Besides the root and /lost+found there are only files. */
  ghost predicate OnlyFiles(fs: Fs) {
    && Numbered(fs) && 2 <= |fs.nodes| <= 13 && Find(fs.nodes, 0, [LOST_FOUND]) == Some(1)
    && forall i :: 2 <= i < |fs.nodes| ==> !OwnInode(fs, i).IsDir()
  }

  lemma FilesStay(a: Fs, b: Fs, name: Name)
    requires OnlyFiles(a) && |a.nodes| < 13 && Numbered(b) && WellFormed(a.nodes) && WellFormed(b.nodes) && |a.nodes| > 0
    requires FileAdded(a, b, name) && [name] != [LOST_FOUND]
    ensures OnlyFiles(b)
  {
    FileIsTarget(a, b, name);
    forall i | 2 <= i < |b.nodes| ensures !OwnInode(b, i).IsDir() {
      if i < |a.nodes| {
        NumberedAt(a, i);
        NumberedAt(b, i);
        NoDirStays(a.inodes[a.nodes[i].inode - 1], b.inodes[a.nodes[i].inode - 1]);
      }
    }
    hide Numbered, WellFormed, Find, OwnInode, Inode.IsDir, InodeStep;
  }

  /** Two directories of few entries take two blocks. */
  lemma TwoDirectories(fs: Fs, contents: seq<Content>, img: seq<byte>, limit: nat, first: nat)
    requires Inv(fs, 0) && OnDiskOk(fs, contents, img, limit, first) && Numbered(fs) && LostSeen(Seen(fs, contents)) && OnlyFiles(fs)
    requires Listable(fs)
    ensures forall pos :: DirectoriesEnd(fs, pos) == DivCeil(pos, 4096) + 2
  {
    hide *;
    RootNode(fs);
    OnlyFilesParts(fs);
    InvKinds(fs, 0);
    RootDir(fs);
    OwnDirOrNot(fs, 0);
    OwnDirOrNot(fs, 1);
    SubDirIs(fs, 0);
    LostSeenIs(Seen(fs, contents));
    FileSeen(fs, contents, img, limit, first, [LOST_FOUND]);
    PathOfLookup(fs.nodes, [LOST_FOUND]);
    SmallListing(fs, 0);
    SmallListing(fs, 1);
    WeightAt(fs, 0);
    WeightAt(fs, 1);
    var w := Weights(fs);
    forall i | 2 <= i < |w| ensures w[i] == 0 {
      OwnDirOrNot(fs, i);
      NoWeight(fs, i);
    }
    SumOfTwo(w);
    DirectoryBlocksIs(fs);
  }

  lemma OnlyFilesParts(fs: Fs)
    requires OnlyFiles(fs)
    ensures Numbered(fs) && 2 <= |fs.nodes| <= 13 && Find(fs.nodes, 0, [LOST_FOUND]) == Some(1)
    ensures forall i :: 2 <= i < |fs.nodes| ==> !OwnInode(fs, i).IsDir()
  {
    hide Numbered, Find, OwnInode, Inode.IsDir;
  }

  lemma OwnDirOrNot(fs: Fs, i: nat)
    requires Numbered(fs)
    ensures IsOwnDir(fs, i) <==> i < |fs.nodes| && fs.nodes[i].link == None && OwnInode(fs, i).IsDir()
  {
    hide Numbered, OwnInode;
  }

  lemma NoWeight(fs: Fs, i: nat)
    requires Numbered(fs) && Listable(fs) && i < |fs.nodes| && !IsOwnDir(fs, i)
    ensures |Weights(fs)| == |fs.nodes| && Weights(fs)[i] == 0
  {
    hide Numbered, Listable, Attached, IsOwnDir, ListingBlocks;
  }

  lemma {:induction false} SumOfTwo(w: seq<nat>)
    requires |w| >= 2 && w[0] == 1 && w[1] == 1 && forall i :: 2 <= i < |w| ==> w[i] == 0
    ensures Sum(w) == 2
  {
    var front := w[..|w| - 1];
    if |w| == 2 {
      assert front == [1] && front[..0] == [] && Sum([1]) == 1;
    } else {
      SumOfTwo(front);
    }
  }

  lemma SmallListing(fs: Fs, i: nat)
    requires Numbered(fs) && Listable(fs) && i < |fs.nodes| <= 13
    ensures ListingBlocks(fs, i) == 1
  {
    hide *;
    DirListFits(fs, i);
    KidsBound(fs, i);
    DirListParts(fs, i);
    FewFitOneBlock(DirList(fs, i));
    OneBlock();
    ListingBlocksIs(fs, i, BlocksFor(|DirBytes(DirList(fs, i))|));
  }

  lemma OneBlock()
    ensures BlocksFor(4096) == 1 && TreeBlocks(1) == 0
  {
  }

  /** /lost+found is node 1 of a new file system. */
  lemma NewNodes(fs: Fs, contents: seq<Content>, img: seq<byte>, limit: nat, first: nat)
    requires Inv(fs, 0) && OnDiskOk(fs, contents, img, limit, first) && Numbered(fs) && LostSeen(Seen(fs, contents)) && |fs.nodes| == 2
    ensures OnlyFiles(fs)
  {
    hide *;
    RootNode(fs);
    LostSeenIs(Seen(fs, contents));
    FileSeen(fs, contents, img, limit, first, [LOST_FOUND]);
    RootOnly(fs.nodes, [LOST_FOUND], Find(fs.nodes, 0, [LOST_FOUND]).value);
    OnlyFilesIs(fs);
  }

  lemma OnlyFilesIs(fs: Fs)
    requires Numbered(fs) && |fs.nodes| == 2 && Find(fs.nodes, 0, [LOST_FOUND]) == Some(1)
    ensures OnlyFiles(fs)
  {
    hide Numbered, Find, OwnInode;
  }

  /** A file that fills everything behind the descriptors starts right behind them. */
  lemma FileAtFront(fs: Fs, contents: seq<Content>, img: seq<byte>, limit: nat, first: nat, n: nat, d: seq<byte>)
    requires Numbered(fs) && OnDiskOk(fs, contents, img, limit, first) && RESERVED < n <= |fs.inodes| && fs.inodes[n - 1].links > 0
    requires n - 11 < |contents| && contents[n - 11] == File(d) && d != [] && limit == (first + DataBlocks(|d|)) * 4096
    ensures OwnRanges(fs, n) == [BlockRange(first, first + BlocksFor(|d|))]
  {
    Shaped(fs);
    assert StoredOk(fs, contents, img, limit, n) && PlacedOk(fs, first, limit, n);
    hide Numbered, TreeStored, AtBelow, OwnRanges, BlocksFor, TreeBlocks;
    var r := OwnRanges(fs, n)[0];
    assert Reach(r) == r.end + TreeBlocks(r.end - r.start);
  }

  const BIG: nat := 4194268 * 4096

  lemma BigFile()
    ensures BIG <= MAX_FILE_BLOCKS * 4096 && BIG > 0 && BlocksFor(BIG) == 4194268 && DataBlocks(BIG) == 4194269
    ensures DescriptorBlocks(4096) + 1 == 33 && DivCeil((33 + 4194269) * 4096, 4096) == 4194302
    ensures OUTGROWN.table == 4194304 && 3 <= MAX_NAMES && RESERVED == 10 && (33 + 4194269) * 4096 <= OUTGROWN.DataSize() * 4096
    ensures 4261638 * 4096 <= 0xFFFF_FFFF * 4096 && OUTGROWN.table <= 0xFFFF_0000
  {
  }

  /** Ask for 4096 bytes, create one file of 4194268 blocks, close: the blocks 33 to 64 of
      the file are marked free. */
  method Outgrow() returns (f: Formatter, r: Result<(), FormatError>, ghost geo: Geometry, ghost fs: Fs)
    ensures r.Ok? && geo == OUTGROWN && geo.Ok() && geo.total > 0
    ensures Numbered(fs) && |fs.inodes| == 12 && fs.inodes[11].links > 0 && OwnRanges(fs, 12) == [BlockRange(33, 33 + 4194268)]
    ensures SuperAt(f.file.bytes, geo, fs.deleted, f.inodes)
    ensures geo.UsedDescriptors() < 33 && Closed(f.file.bytes, geo, fs, f.contents, f.tree.nodes, f.inodes, (33 + 4194269) * 4096, 33)
    ensures forall b :: 33 <= b <= 64 ==> !GroupBits(geo, fs.deleted, 0)[b]
  {
    hide *;
    BigFile();
    f := NewSystem(4096, true);
    ghost var a := f.View();
    ShortNames();
    SmallParts(a);
    var d := Zeros(BIG);
    AddFile(f, F, d);
    fs := f.View();
    AddedNames(a, fs, F);
    FileIsTarget(a, fs, F);
    TidyPlain(fs);
    Parts(f, 0);
    OnDiskCounts(f);
    FilesStay(a, fs, F);
    Shaped(fs);
    FileLast(fs, f.contents, d);
    NumberedAt(fs, 2);
    FileAtFront(fs, f.contents, f.file.bytes, f.file.pos, f.first, 12, d);
    ghost var img, pos, contents := f.file.bytes, f.file.pos, f.contents;
    r, geo := Close(f);
    TwoDirectories(fs, contents, img, pos, f.first);
    OutgrownIsLaid();
    LaidIsBest(OUTGROWN, true, 4096, 12, 4261638 * 4096);
    OneLayout(geo, OUTGROWN, true, 4096, 12, f.size, 4261638 * 4096);
    forall b | 33 <= b <= 64 ensures !GroupBits(geo, fs.deleted, 0)[b] {
      InTheFile(b);
      OutgrownDataIsFreed(fs, contents, img, pos, 12, BlockRange(33, 33 + 4194268), b);
    }
  }

  lemma FileLast(fs: Fs, contents: seq<Content>, d: seq<byte>)
    requires |contents| == |fs.origin| && |fs.inodes| == RESERVED + |fs.origin| && |fs.inodes| == 12 && RESERVED == 10
    requires exists front :: contents == front + [File(d)]
    ensures |contents| == 2 && contents[1] == File(d)
  {
  }

  lemma InTheFile(b: nat)
    requires 33 <= b <= 64
    ensures BlockRange(33, 33 + 4194268).start <= b < Reach(BlockRange(33, 33 + 4194268))
  {
  }

  /** Ask for 128 MiB and one byte and close at once: one group has no descriptor. */
  method MissAGroup() returns (f: Formatter, r: Result<(), FormatError>, ghost geo: Geometry)
    ensures r.Ok? && geo.total == 1 && geo.blocks == 32768 + 514 && !Regular(geo)
    ensures geo.Ok() && SuperAt(f.file.bytes, geo, f.deletedBlocks, f.inodes)
  {
    hide *;
    f := NewSystem(0x800_0001, true);
    ghost var fs := f.View();
    SmallParts(fs);
    Parts(f, 0);
    ghost var img, pos := f.file.bytes, f.file.pos;
    FewNames();
    r, geo := Close(f);
    TwoDirectories(fs, f.contents, img, pos, f.first);
    RaggedIsLaid();
    LaidIsBest(RAGGED, true, 0x800_0001, 11, (32768 + 514) * 4096);
    OneLayout(geo, RAGGED, true, 0x800_0001, 11, f.size, (32768 + 514) * 4096);
  }

  lemma FewNames()
    ensures 3 <= MAX_NAMES
  {
  }

  /** One group where the size has two. */
  const RAGGED := Geometry(true, 33282, 1, 1, 8192, 35, 547, 32)

  lemma RaggedIsLaid()
    ensures Laid(RAGGED, true, 0x800_0001, 11, (32768 + 514) * 4096) && RAGGED.Ok() && !Regular(RAGGED)
    ensures DescriptorBlocks(0x800_0001) + 1 == 33 && DivCeil(33 * 4096, 4096) + 2 == 35 == RAGGED.table
    ensures RAGGED.total == 1 && RAGGED.blocks == 32768 + 514
  {
    assert Tables(1, 8192) == 512 && Slots(1, 8192) == 8192 && TableBlocks(8192) == 512;
    forall c: nat | Candidate(c) ensures 1 <= Needed(35, 11, c) && (c == 8192 ==> Needed(35, 11, c) == 1) {
      assert c == 8192 || c == 16384 || c == 24576 || c == 32768;
    }
    assert RaisedSize(true, 0x800_0001, 1, 547) == 0x800_0001;
  }

  // ---- Data that the descriptors overwrite ----

  const G: Name := ['g' as int]

  /** The largest file there can be. */
  const LARGEST: nat := MAX_FILE_BLOCKS * 4096

  /** Four such files need 4162 groups, one descriptor block more than was set aside. */
  const OVERLAID := Geometry(true, 136357047, 4162, 4162, 8192, 134217779, 136348723, 1056)

  /** The data of the largest files. */
  function Ones(): (d: seq<byte>)
    ensures |d| == LARGEST && LARGEST >= 32 && d[31] == 0xFF
  {
    seq(LARGEST, _ => 0xFF)
  }

  lemma OverlaidNeeds(c: nat)
    requires Candidate(c)
    ensures Needed(134217779, 15, c) >= 4162 && (c == 8192 ==> Needed(134217779, 15, c) == 4162)
  {
    assert c == 8192 || c == 16384 || c == 24576 || c == 32768;
  }

  lemma OverlaidIsLaid()
    ensures Laid(OVERLAID, true, 4096, 15, 136357047 * 4096) && OVERLAID.Ok() && OVERLAID.UsedDescriptors() == 33
  {
    assert Tables(4162, 8192) == 2130944 && Slots(4162, 8192) == 34095104;
    forall c: nat | Candidate(c) ensures OVERLAID.groups <= Needed(134217779, 15, c) {
      OverlaidNeeds(c);
    }
    OverlaidNeeds(8192);
    assert RaisedSize(true, 4096, 4162, 136348723) == 136357047 * 4096;
    assert TableBlocks(8192) == 512;
  }

  lemma LargestFile()
    ensures LARGEST == MAX_FILE_BLOCKS * 4096 && LARGEST > 0 && DataBlocks(LARGEST) == 33554436
    ensures DescriptorBlocks(4096) + 1 == 33 && DivCeil((33 + 4 * 33554436) * 4096, 4096) == 134217777
    ensures OVERLAID.table == 134217779 && 6 <= MAX_NAMES && RESERVED == 10
    ensures 136357047 * 4096 <= 0xFFFF_FFFF * 4096 && OVERLAID.table <= 0xFFFF_0000
  {
  }

  lemma FourNames()
    ensures ValidName(G) && [G] != [] && [G] != [LOST_FOUND] && [G] != [D] && [G] != [F] && [G] != [L] && [D] != [L]
  {
    assert 'g' as int != '/' as int;
    assert [G][0] != [LOST_FOUND][0] && [G][0] != [D][0] && [G][0] != [F][0] && [G][0] != [L][0] && [D][0] != [L][0];
  }

  /** The file /f has its data right behind the 32 blocks set aside for descriptors. */
  ghost predicate FrontFile(fs: Fs) {
    && Numbered(fs) && |fs.inodes| >= 12 && RESERVED == 10 && |fs.nodes| > 2
    && Find(fs.nodes, 0, [F]) == Some(2) && fs.nodes[2].link == None && fs.nodes[2].inode == 12
    && OwnRanges(fs, 12) == [BlockRange(33, 33 + 33554432)]
  }

  lemma FrontIs(fs: Fs)
    requires Numbered(fs) && |fs.nodes| == 3 && |fs.inodes| == 12
    requires Find(fs.nodes, 0, [F]) == Some(2) && fs.nodes[2].link == None && fs.nodes[2].inode == |fs.inodes|
    requires RESERVED == 10 && OwnRanges(fs, 12) == [BlockRange(33, 33 + 33554432)]
    ensures FrontFile(fs)
  {
    hide Numbered, Find, OwnRanges;
  }

  lemma FirstIsFront(a: Fs, b: Fs, contents: seq<Content>, img: seq<byte>, limit: nat, first: nat)
    requires WellFormed(a.nodes) && WellFormed(b.nodes) && |a.nodes| == 2 && |b.inodes| == 12 && Numbered(b) && FileAdded(a, b, F)
    requires Inv(b, 0) && OnDiskOk(b, contents, img, limit, first) && first == 33 && limit == (33 + 33554436) * 4096
    requires |contents| == 2 && contents[1] == File(Ones()) && Find(b.nodes, 0, [F]) == Some(2)
    ensures FrontFile(b)
  {
    hide *;
    LargestFile();
    LargestBlocks();
    AddedNames(a, b, F);
    FileIsTarget(a, b, F);
    NumberedAt(b, 2);
    FileAtFront(b, contents, img, limit, first, 12, Ones());
    FrontIs(b);
  }

  lemma LargestBlocks()
    ensures BlocksFor(LARGEST) == 33554432 && Ones() != []
  {
  }

  lemma FrontStays(a: Fs, b: Fs, name: Name)
    requires WellFormed(a.nodes) && WellFormed(b.nodes) && |a.nodes| > 0 && Numbered(b) && FileAdded(a, b, name)
    requires FrontFile(a) && [name] != [F]
    ensures FrontFile(b)
  {
    assert NodeKept(a.nodes[2], b.nodes[2]) && NumberedNode(b, 2) && NumberedNode(a, 2);
    hide Numbered, WellFormed, Find, FileKept, NodeRanges;
  }

  lemma FrontInUse(fs: Fs)
    requires Inv(fs, 0) && FrontFile(fs)
    ensures Numbered(fs) && |fs.inodes| >= 12 && fs.inodes[11].links > 0 && RESERVED == 10
    ensures OwnRanges(fs, 12) == [BlockRange(33, 33 + 33554432)]
  {
    hide *;
    FrontParts(fs);
    Shaped(fs);
    InvKinds(fs, 0);
    PathOfLookup(fs.nodes, [F]);
    NamedInode(fs, 0, 2);
    PlainTarget(fs.nodes[2]);
  }

  lemma FrontParts(fs: Fs)
    requires FrontFile(fs)
    ensures Numbered(fs) && |fs.inodes| >= 12 && RESERVED == 10 && |fs.nodes| > 2
    ensures Find(fs.nodes, 0, [F]) == Some(2) && fs.nodes[2].link == None && fs.nodes[2].inode == 12
    ensures OwnRanges(fs, 12) == [BlockRange(33, 33 + 33554432)]
  {
    hide Numbered, Find, OwnRanges;
  }

  lemma PlainTarget(node: Node)
    ensures node.link == None ==> Target(node) == node.inode
  {
  }

  /** One more of the largest files. */
  method AddLargest(f: Formatter, name: Name)
    requires f.Valid(0) && Small(f.View()) && OnlyFiles(f.View()) && |f.View().nodes| < 13 && ValidName(name) && f.file.pos % 4096 == 0
    requires WellFormed(f.View().nodes) && Find(f.View().nodes, 0, [name]) == None && [name] != [LOST_FOUND]
    requires LostSeen(Seen(f.View(), f.contents)) && |f.contents| == |f.View().origin|
    modifies f`inodes, f`deletedBlocks, f`deferredBlocks, f`origin, f`contents, f.tree, f.file
    ensures f.Valid(0) && Small(f.View()) && OnlyFiles(f.View()) && WellFormed(f.View().nodes) && LostSeen(Seen(f.View(), f.contents))
    ensures |f.View().nodes| == |old(f.View()).nodes| + 1 && |f.View().inodes| == |old(f.View()).inodes| + 1
    ensures f.file.pos == old(f.file.pos) + 33554436 * 4096 && f.file.pos % 4096 == 0
    ensures f.contents == old(f.contents) + [File(Ones())] && |f.contents| == |f.View().origin|
    ensures forall q: Path :: q != [name] ==> Find(f.View().nodes, 0, q) == Find(old(f.View()).nodes, 0, q)
    ensures FileAdded(old(f.View()), f.View(), name)
    ensures FrontFile(old(f.View())) && [name] != [F] ==> FrontFile(f.View())
  {
    hide *;
    ghost var a := f.View();
    SmallParts(a);
    OnlyFilesParts(a);
    LargestFile();
    var d := Ones();
    AddFile(f, name, d);
    AddedNames(a, f.View(), name);
    FilesStay(a, f.View(), name);
    SmallIs(f.View());
    OnDiskCounts(f);
    NameDiffers(name);
    if FrontFile(a) && [name] != [F] {
      FrontStays(a, f.View(), name);
    }
  }

  lemma NameDiffers(name: Name)
    ensures [name] != [LOST_FOUND] ==> name != LOST_FOUND
  {
  }

  lemma DescriptorEnds(g: GroupDescriptor)
    ensures |EncodeDescriptor(g)| == 32 && EncodeDescriptor(g)[31] == 0
  {
    hide LE16, LE32;
  }

  /** A descriptor ends with zeros, so that it is not data of 0xFF. */
  lemma DescriptorIsNoData(img: seq<byte>, off: nat, g: GroupDescriptor, d: seq<byte>)
    requires At(img, off, EncodeDescriptor(g)) && |d| >= 32 && d[31] == 0xFF
    ensures !At(img, off, d)
  {
    DescriptorEnds(g);
    hide EncodeDescriptor;
    assert img[off + 31] == img[off..off + 32][31];
    assert off + |d| <= |img| ==> img[off..off + |d|][31] == img[off + 31];
  }

  /** Ask for 4096 bytes, create four files of 128 GiB full of 0xFF, close: where the
      data of the first file began there is now a descriptor. */
  method Overwrite() returns (f: Formatter, r: Result<(), FormatError>, ghost geo: Geometry, ghost fs: Fs)
    ensures r.Ok? && geo == OVERLAID && geo.Ok() && geo.total > 0 && geo.UsedDescriptors() == f.first == 33
    ensures Numbered(fs) && |fs.inodes| == 15 && fs.inodes[11].links > 0 && OwnRanges(fs, 12) == [BlockRange(33, 33 + 33554432)]
    ensures |f.contents| == 5 && f.contents[1] == File(Ones())
    ensures !At(f.file.bytes, 33 * 4096, Ones())
  {
    hide *;
    LargestFile();
    ShortNames();
    FourNames();
    f := NewSystem(4096, true);
    OnDiskCounts(f);
    Shaped(f.View());
    ghost var first := f.contents;
    ghost var a := f.View();
    AddLargest(f, F);
    SmallParts(f.View());
    Parts(f, 0);
    AddedNames(a, f.View(), F);
    FirstIsFront(a, f.View(), f.contents, f.file.bytes, f.file.pos, f.first);
    AddLargest(f, D);
    AddLargest(f, L);
    AddLargest(f, G);
    fs := f.View();
    SmallParts(fs);
    Parts(f, 0);
    Shaped(fs);
    FirstOfFour(first, f.contents);
    FrontInUse(fs);
    ghost var img, pos, contents := f.file.bytes, f.file.pos, f.contents;
    r, geo := Close(f);
    TwoDirectories(fs, contents, img, pos, f.first);
    OverlaidIsLaid();
    LaidIsBest(OVERLAID, true, 4096, 15, 136357047 * 4096);
    OneLayout(geo, OVERLAID, true, 4096, 15, f.size, 136357047 * 4096);
    TableReaches(f.file.bytes, geo, fs.deleted, f.inodes, 33);
    DescriptorIsNoData(f.file.bytes, 33 * 4096, AllDescriptors(geo, fs.deleted, f.inodes)[32 * 128], Ones());
  }

  lemma FirstOfFour(first: seq<Content>, contents: seq<Content>)
    requires |first| == 1
    requires exists d, e, g, h :: contents == first + [d] + [e] + [g] + [h] && d == File(Ones())
    ensures |contents| == 5 && contents[1] == File(Ones())
  {
    hide LARGEST;
  }
}
