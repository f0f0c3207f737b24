/** The formatter's calls (formatter.rs `create`, `link`, `unlink`): a file
    tree, inodes, and an image written front to back. */
module Formatting {
  import opened Basics
  import opened Image
  import opened OnDisk
  import opened Extents
  import opened Trees
  import opened Namespace
  import opened Unlinking
  import opened Contents
  import opened Layout
  import opened Requests
  import opened Views
  import opened Writing

  const EXTRA_ISIZE: nat := 32
  /** The node a path leads to, or the number of nodes if there is none. */
  function Position(nodes: Nodes, path: Path): (i: nat)
    requires WellFormed(nodes)
    ensures i <= |nodes|
  {
    match Find(nodes, 0, path) case Some(i) => i case None => |nodes|
  }

  /** What happens to the root when `unlink` is asked to remove it: it stays,
      but loses a link if it has more than two. */
  function RootDropped(fs: Fs): Fs
    requires |fs.inodes| >= ROOT_INODE
  {
    var root := fs.inodes[ROOT_INODE - 1];
    if root.links > 2 then SetInode(fs, ROOT_INODE, root.(links := root.links - 1)) else fs
  }

  /** Hard links lie below no other name, and directory counts are right. */
  predicate Tidy(fs: Fs)
    requires Numbered(fs)
  {
    Plain(fs) && DirCounts(fs)
  }

  predicate LinkFree(fs: Fs, v: nat, i: nat)
    requires WellFormed(fs.nodes) && i < |fs.nodes|
  {
    Attached(fs.nodes, i) && Under(fs.nodes, v, i) ==> fs.nodes[i].link == None
  }

  /** No attached hard link lies at `v` or below it. */
  predicate NoLinksUnder(fs: Fs, v: nat)
    requires WellFormed(fs.nodes)
  {
    forall i :: 0 <= i < |fs.nodes| ==> LinkFree(fs, v, i)
  }

  /** No attached hard link lies below `v`. */
  predicate NoLinksBelow(fs: Fs, v: nat)
    requires WellFormed(fs.nodes)
  {
    forall i :: 0 <= i < |fs.nodes| && i != v ==> LinkFree(fs, v, i)
  }

  /** `Inode::root_inode()`. */
  const ROOT := Inode(DIR_0755, 0, 0, 0, 2, 0, HUGE_FILE, EXTRA_ISIZE, Zeros(60))

  function InitialInodes(): seq<Inode> {
    [EMPTY_INODE, ROOT] + seq(8, i => EMPTY_INODE)
  }

  function InitialFs(): Fs {
    Fs([Node(ROOT_INODE, SLASH, [], None, None, [], None)], InitialInodes(), [], map[], [])
  }

  lemma InitialNumbered()
    ensures Numbered(InitialFs())
  {
    var fs := InitialFs();
    assert KidsOk(fs.nodes, 0) && KidsUnique(fs.nodes, 0);
  }

  lemma InitialInv()
    ensures Inv(InitialFs(), 0)
  {
    var fs := InitialFs();
    InitialNumbered();
    hide WellFormed, UniqueNames;
    assert KindOk(fs, 0);
    forall n: nat ensures DeferredOk(fs, n) {
    }
  }

  lemma InitialOk(img: seq<byte>, limit: nat, first: nat)
    ensures Inv(InitialFs(), 0)
    ensures OnDiskOk(InitialFs(), [], img, limit, first)
  {
    InitialInv();
    hide Inv, Numbered;
    assert EMPTY_INODE.Fits() && ROOT.Fits();
  }

  // ---- What `link` promises ----

  /** The inode a hard link to `path` would share, or why there can be none. A
      path that is itself a hard link is refused: its node carries the root's
      number. */
  function LinkTarget(fs: Fs, path: Path): Result<nat, FormatError>
    requires Numbered(fs)
  {
    match Find(fs.nodes, 0, path)
    case None => Err(NotFound)
    case Some(i) => if OwnInode(fs, i).IsDir() then Err(CannotHardlinkDirectory) else Ok(fs.nodes[i].inode)
  }

  /** The 16-bit count of the file at `path` can still be raised. */
  predicate TargetRoom(fs: Fs, path: Path)
    requires Numbered(fs)
  {
    var f := Find(fs.nodes, 0, path);
    f.Some? && !OwnInode(fs, f.value).IsDir() ==> OwnInode(fs, f.value).links < 0xFFFF
  }

  /** Nothing but a directory is given a child. The code does not check this:
      see README. */
  predicate ParentIsDir(fs: Fs, path: Path)
    requires Numbered(fs)
  {
    var f := Find(fs.nodes, 0, ParentOf(path));
    f.Some? ==> OwnInode(fs, f.value).IsDir()
  }

  /** What `link` finds as the parent's link count: the target's own may just have
      been raised, and what stood at `path` may have counted. */
  function ParentLinks(fs: Fs, path: Path, t: nat): nat
    requires Numbered(fs)
  {
    var f, v := Find(fs.nodes, 0, ParentOf(path)), Find(fs.nodes, 0, path);
    if f.None? then 0
    else
      var links := OwnInode(fs, f.value).links + if fs.nodes[f.value].inode == t then 1 else 0;
      if v.Some? && OwnInode(fs, v.value).IsDir() && links > 2 then links - 1 else links
  }

  /** What `link` answers after it has raised the target's count. */
  function LinkAnswer(fs: Fs, path: Path, t: nat): Result<(), FormatError>
    requires Numbered(fs)
  {
    if Find(fs.nodes, 0, ParentOf(path)).None? then Err(NotFound)
    else if ParentLinks(fs, path, t) >= MAX_LINKS then Err(MaximumLinksExceeded)
    else Ok(())
  }

  predicate ParentIsPlain(fs: Fs, path: Path)
    requires WellFormed(fs.nodes)
  {
    var f := Find(fs.nodes, 0, ParentOf(path));
    f.Some? ==> fs.nodes[f.value].link == None
  }

  /** No hard link stands at `path` or below it. */
  predicate NothingLinkedAt(fs: Fs, path: Path)
    requires WellFormed(fs.nodes)
  {
    var f := Find(fs.nodes, 0, path);
    f.Some? ==> NoLinksUnder(fs, f.value)
  }

  /** Entries keep their name, place and target; inodes lose links at most, except
      that `t` has one more to lose. */
  ghost predicate LinkFrame(a: Fs, b: Fs, t: nat)
    requires 0 < t <= |a.inodes|
  {
    && |a.nodes| <= |b.nodes| && (forall i :: 0 <= i < |a.nodes| ==> NodeKept(a.nodes[i], b.nodes[i]))
    && |b.inodes| == |a.inodes| && b.origin == a.origin
    && (forall k :: 0 <= k < |a.inodes| ==> InodeStep(Bump(a, t).inodes[k], b.inodes[k]))
  }

  /** `path` is now a hard link to inode `t`, nothing is left below it, and every
      other name leads where it led. */
  ghost predicate LinkMade(a: Fs, b: Fs, path: Path, t: nat)
    requires WellFormed(a.nodes) && WellFormed(b.nodes)
  {
    && |b.nodes| == |a.nodes| + 1
    && Find(b.nodes, 0, path) == Some(|a.nodes|)
    && b.nodes[|a.nodes|].link == Some(t) && b.nodes[|a.nodes|].children == []
    && forall q: Path :: q != path ==> Find(b.nodes, 0, q) == if path <= q then None else Find(a.nodes, 0, q)
  }

  /** A successful `link`: the names, the entries and inodes kept, and all of it as
      the user sees it. */
  ghost predicate LinkedTo(a: Fs, b: Fs, contents: seq<Content>, linkPath: Path, targetPath: Path, t: nat) {
    && Numbered(a) && Numbered(b) && 0 < t <= |a.inodes|
    && LinkMade(a, b, linkPath, t) && LinkFrame(a, b, t)
    && Seen(b, contents) == AfterLink(Seen(a, contents), linkPath, targetPath)
  }

  lemma LinkedIs(a: Fs, b: Fs, contents: seq<Content>, linkPath: Path, targetPath: Path, t: nat)
    requires Numbered(a) && Numbered(b) && 0 < t <= |a.inodes| && WellFormed(a.nodes) && WellFormed(b.nodes)
    requires LinkMade(a, b, linkPath, t) && LinkFrame(a, b, t)
    requires Seen(b, contents) == AfterLink(Seen(a, contents), linkPath, targetPath)
    ensures LinkedTo(a, b, contents, linkPath, targetPath, t)
  {
    hide Numbered, LinkMade, LinkFrame, Seen, AfterLink, WellFormed;
  }

  // ---- What `create` promises ----

  /** Names are only added, and only on the way to `path`. */
  ghost predicate Grown(a: Fs, b: Fs, path: Path)
    requires WellFormed(a.nodes) && WellFormed(b.nodes)
  {
    forall q: Path :: GrownAt(a, b, path, q)
  }

  predicate GrownAt(a: Fs, b: Fs, path: Path, q: Path)
    requires WellFormed(a.nodes) && WellFormed(b.nodes)
  {
    var f, g := Find(a.nodes, 0, q), Find(b.nodes, 0, q);
    g == f || (f == None && q <= path)
  }

  /** Names outside `path` and below it lead where they led; what is new lies on
      the way to `path`. */
  ghost predicate Remade(a: Fs, b: Fs, path: Path)
    requires WellFormed(a.nodes) && WellFormed(b.nodes)
  {
    forall q: Path :: RemadeAt(a, b, path, q)
  }

  predicate RemadeAt(a: Fs, b: Fs, path: Path, q: Path)
    requires WellFormed(a.nodes) && WellFormed(b.nodes)
  {
    var f, g := Find(a.nodes, 0, q), Find(b.nodes, 0, q);
    if path <= q then g.Some? ==> g == f || q == path
    else g == f || (f == None && q <= path)
  }

  /** Inodes keep their attributes and contents, except that they may have lost or
      won names, and that directory inode `n` (0 for none) may have a new mode and
      owner; entries keep their name, place and target. */
  ghost predicate FilesKept(a: Fs, b: Fs, n: nat) {
    && |a.inodes| <= |b.inodes| && (forall k :: 0 <= k < |a.inodes| ==> FileKept(a.inodes[k], b.inodes[k], k + 1 == n))
    && |a.nodes| <= |b.nodes| && (forall i :: 0 <= i < |a.nodes| ==> NodeKept(a.nodes[i], b.nodes[i]))
  }

  predicate NodeKept(a: Node, b: Node) {
    b == a.(children := b.children)
  }

  predicate FileKept(a: Inode, b: Inode, changed: bool) {
    if !a.IsDir() then InodeStep(a, b)
    else if changed then b.IsDir() && b == a.(links := b.links, mode := b.mode, uid := b.uid, gid := b.gid)
    else b == a.(links := b.links)
  }

  /** The inode whose mode and owner a request may change: the one a directory
      request with an owner finds under its path. */
  function ChangedInode(fs: Fs, path: Path, req: Request): nat
    requires WellFormed(fs.nodes)
  {
    var f := Find(fs.nodes, 0, path);
    if IsDirMode(req.mode) && (req.uid.Some? || req.gid.Some?) && f.Some? then fs.nodes[f.value].inode else 0
  }

  /** The last node is a fresh entry at `path`, for the last inode. */
  ghost predicate NewEntry(fs: Fs, contents: seq<Content>, path: Path, c: Content)
    requires Numbered(fs) && |contents| == |fs.origin|
  {
    && |contents| > 0 && contents[|contents| - 1] == c
    && Find(fs.nodes, 0, path) == Some(|fs.nodes| - 1)
    && fs.nodes[|fs.nodes| - 1].link == None && fs.nodes[|fs.nodes| - 1].children == []
    && fs.nodes[|fs.nodes| - 1].inode == |fs.inodes|
  }

  /** No entry on the way to `path` is a hard link. */
  predicate PlainWay(fs: Fs, path: Path)
    requires WellFormed(fs.nodes)
  {
    forall k :: 0 <= k < |path| ==> PlainAt(fs, path[..k])
  }

  predicate PlainAt(fs: Fs, q: Path)
    requires WellFormed(fs.nodes)
  {
    var f := Find(fs.nodes, 0, q);
    f.Some? ==> fs.nodes[f.value].link == None
  }

  /** Everything `create` may change, at one moment. */
  datatype Snapshot = Snapshot(fs: Fs, contents: seq<Content>, img: seq<byte>, pos: nat)

  /** Nothing already stored is lost: contents are only added to, bytes below the
      cursor stay, files and entries keep what they were. */
  ghost predicate Kept(a: Snapshot, b: Snapshot, n: nat) {
    && a.contents <= b.contents && FilesKept(a.fs, b.fs, n)
    && SameBelow(a.img, b.img, a.pos) && a.pos <= b.pos
    && |b.fs.nodes| + |a.fs.inodes| == |a.fs.nodes| + |b.fs.inodes|
  }

  /** What a successful `create` has made. A directory asked for where one stands
      is left as it is, up to mode and owner; everything else is a fresh entry
      holding what was asked. A hard link is taken for a directory, and stays. */
  ghost predicate Made(a: Snapshot, b: Snapshot, path: Path, req: Request)
    requires Numbered(a.fs) && Numbered(b.fs) && |b.contents| == |b.fs.origin|
  {
    && Remade(a.fs, b.fs, path)
    && (IsDirMode(req.mode) ==> Grown(a.fs, b.fs, path) && LooksLikeDirectory(b.fs, path))
    && (IsDirMode(req.mode) ==> (DirectoryAt(b.fs, path) <==> !LinkAt(a.fs, path)))
    && (!(IsDirMode(req.mode) && Find(a.fs.nodes, 0, path).Some?) ==> MadeNew(b, path, req))
    && Seen(b.fs, b.contents) == AfterCreate(Seen(a.fs, a.contents), path, req)
  }

  ghost predicate MadeNew(b: Snapshot, path: Path, req: Request)
    requires Numbered(b.fs) && |b.contents| == |b.fs.origin|
  {
    && Wanted(req.mode, req.link, req.data).Ok?
    && NewEntry(b.fs, b.contents, path, Wanted(req.mode, req.link, req.data).value)
    && AsAsked(b.fs.inodes[|b.fs.inodes| - 1], req.mode, req.uid, req.gid)
  }

  /** Directory link counts stay right when no hard link is removed or built
      upon. */
  ghost predicate KeepsTidy(a: Snapshot, b: Snapshot, path: Path, req: Request)
    requires Numbered(a.fs) && Numbered(b.fs)
  {
    Tidy(a.fs) && PlainWay(a.fs, path) && (IsDirMode(req.mode) || NothingLinkedAt(a.fs, path)) ==> Tidy(b.fs)
  }

  ghost predicate Outcome(a: Snapshot, b: Snapshot, path: Path, req: Request, ok: bool)
    requires Numbered(a.fs) && Numbered(b.fs) && |b.contents| == |b.fs.origin|
  {
    Kept(a, b, ChangedInode(a.fs, path, req)) && KeepsTidy(a, b, path, req) && (ok ==> Made(a, b, path, req))
  }

  // ---- What `create` answers ----

  /** What making an inode answers, in a directory with so many links. */
  function Entered(links: nat, req: Request): Result<(), FormatError> {
    if links >= MAX_LINKS then Err(MaximumLinksExceeded)
    else
      match Wanted(req.mode, req.link, req.data)
      case Err(e) => Err(e)
      case Ok(_) => Ok(())
  }

  /** The links of what stands at `path`; a directory just made has two. */
  function LinksAt(fs: Fs, path: Path): nat
    requires Numbered(fs)
  {
    match Find(fs.nodes, 0, path)
    case None => 2
    case Some(i) => OwnInode(fs, i).links
  }

  /** What `create` answers, told from the state before it. */
  function Answer(fs: Fs, path: Path, req: Request): Result<(), FormatError>
    requires Numbered(fs)
    decreases |path|, 1
  {
    match Find(fs.nodes, 0, path)
    case None => AnswerUnder(fs, path, req)
    case Some(i) =>
      if IsDirMode(req.mode) then if OwnInode(fs, i).IsDir() then Ok(()) else Err(NotDirectory)
      else if fs.nodes[i].link == None && OwnInode(fs, i).IsDir() && !IsLinkMode(req.mode) then Err(NotFile)
      else Entered(ParentLinks(fs, path, 0), req)
  }

  /** The same where nothing is in the way: missing parents come first. */
  function AnswerUnder(fs: Fs, path: Path, req: Request): Result<(), FormatError>
    requires Numbered(fs)
    decreases |path|, 0
  {
    if path == [] then Entered(2, req)
    else
      match Answer(fs, ParentOf(path), PARENT)
      case Err(e) => Err(e)
      case Ok(_) => Entered(LinksAt(fs, ParentOf(path)), req)
  }

  /** Removing what lies below hard links may change any count. */
  predicate Foreseen(fs: Fs, path: Path, req: Request)
    requires Numbered(fs)
  {
    IsDirMode(req.mode) || Find(fs.nodes, 0, path).None? || Plain(fs)
  }

  /** `create` answers as it should; a directory asked for again without an owner
      changes nothing. */
  ghost predicate Replies(a: Fs, b: Fs, path: Path, req: Request, r: Result<(), FormatError>) {
    && Numbered(a)
    && (Foreseen(a, path, req) ==> r == Answer(a, path, req))
    && (IsDirMode(req.mode) && req.uid.None? && req.gid.None? && Find(a.nodes, 0, path).Some? ==> b == a)
  }

  /** Blocks a successful `create` takes: none for a directory. */
  function Spent(fs: Fs, path: Path, req: Request): nat
    requires Numbered(fs)
  {
    if IsDirMode(req.mode) && Find(fs.nodes, 0, path).Some? then 0
    else match Wanted(req.mode, req.link, req.data) case Ok(c) => ContentBlocks(c) case Err(_) => 0
  }

  /** With the way cleared the answer is still the same. */
  ghost predicate GoesOn(a: Fs, c: Fs, path: Path, req: Request) {
    && Numbered(a) && Numbered(c)
    && !(IsDirMode(req.mode) && Find(a.nodes, 0, path).Some?)
    && (Foreseen(a, path, req) ==> Answer(a, path, req) == AnswerUnder(c, path, req))
  }

  class Formatter {
    const file: ImageFile
    const tree: FileTree
    const allowPartialFinalGroup: bool
    var size: nat
    var inodes: seq<Inode>
    var deletedBlocks: seq<BlockRange>
    var deferredBlocks: map<nat, seq<BlockRange>>
    ghost var origin: seq<nat>
    ghost var contents: seq<Content>
    /** First block behind the reserved group descriptors. */
    ghost const first: nat

    /** Descriptor reservation skipped, the ten reserved inodes in place. */
    constructor Reserve(size: nat, allowPartialFinalGroup: bool)
      requires size > 0
      ensures Valid(0) && fresh(file) && fresh(tree)
      ensures this.size == size && this.allowPartialFinalGroup == allowPartialFinalGroup
      ensures first == DescriptorBlocks(size) + 1
      ensures View() == InitialFs() && contents == []
      ensures file.bytes == Zeros(size) && file.pos == first * 4096
    {
      file := new ImageFile(size);
      tree := new FileTree(ROOT_INODE, SLASH);
      this.size := size;
      this.allowPartialFinalGroup := allowPartialFinalGroup;
      inodes := InitialInodes();
      deletedBlocks := [];
      deferredBlocks := map[];
      origin := [];
      contents := [];
      first := DescriptorBlocks(size) + 1;
      new;
      file.Seek((DescriptorBlocks(size) + 1) * 4096);
      InitialOk(file.bytes, file.pos, first);
    }

    ghost function View(): Fs
      reads this, tree
    {
      Fs(tree.nodes, inodes, deletedBlocks, deferredBlocks, origin)
    }

    ghost function Now(): Snapshot
      reads this, tree, file
    {
      Snapshot(View(), contents, file.bytes, file.pos)
    }

    /** `extra` is an inode whose count is one ahead of its names, 0 for none. */
    ghost predicate Valid(extra: nat)
      reads this, tree, file
    {
      && tree.Valid()
      && Inv(View(), extra)
      && OnDiskOk(View(), contents, file.bytes, file.pos, first)
      && first * 4096 <= file.pos
    }

    // ---- unlink ----

    /** Take one link from inode `t`, whose name `node` was. With the last link
        the inode is freed and all its ranges are deleted; otherwise ranges that
        sat in the node are set aside for the inode. */
    method DropTarget(t: nat, node: Node)
      requires 0 < t <= |inodes|
      modifies this`inodes, this`deletedBlocks, this`deferredBlocks
      ensures View() == DropName(old(View()), t, Namespace.NodeRanges(node))
    {
      if inodes[t - 1].links > 0 {
        inodes := inodes[t - 1 := inodes[t - 1].(links := inodes[t - 1].links - 1)];
      }
      var nodeBlocks: seq<BlockRange> := [];
      if node.blocks.Some? && node.blocks.value.start != node.blocks.value.end {
        nodeBlocks := nodeBlocks + [node.blocks.value];
      }
      nodeBlocks := nodeBlocks + node.additional;
      assert nodeBlocks == Namespace.NodeRanges(node);
      if inodes[t - 1].links == 0 {
        deletedBlocks := deletedBlocks + nodeBlocks;
        if t in deferredBlocks {
          deletedBlocks := deletedBlocks + deferredBlocks[t];
          deferredBlocks := deferredBlocks - {t};
        } else {
          assert deferredBlocks - {t} == deferredBlocks;
          assert deletedBlocks + [] == deletedBlocks;
        }
        inodes := inodes[t - 1 := EMPTY_INODE];
      } else if nodeBlocks != [] {
        deferredBlocks := deferredBlocks[t := HeldFor(deferredBlocks, t) + nodeBlocks];
      }
    }

    /** Detach node `v` from its parent, which loses a link if the inode
        recorded in the node is a directory and it has more than two. */
    method DropFromParent(path: Path, v: nat, ghost extra: nat)
      requires tree.Valid() && Inv(View(), extra) && Find(tree.nodes, 0, path) == Some(v)
      requires forall i :: 0 < i < |tree.nodes| ==> ValidName(tree.nodes[i].name)
      modifies this`inodes, tree
      ensures tree.Valid()
      ensures v > 0 ==>
        && inodes == ParentDropped(old(View()), v)
        && var p := old(tree.nodes)[v].parent.value;
           && InRange(old(tree.nodes), old(tree.nodes)[p].children)
           && tree.nodes == WithoutChild(old(tree.nodes), p, old(tree.nodes)[v].name)
      ensures v == 0 ==> tree.nodes == old(tree.nodes) && inodes == RootDropped(old(View())).inodes
    {
      hide *;
      ViewIs(this);
      InvParts(View(), extra);
      FoundHere(tree.nodes, path, v);
      ParentToDrop(View(), extra, path, v);
      ParentIsAbove(tree.nodes, v);
      var own := tree.nodes[v].inode;
      var parent := tree.Lookup(ParentOf(path));
      if parent.Some? {
        var p := parent.value;
        var k := tree.nodes[p].inode - 1;
        if inodes[own - 1].IsDir() && inodes[k].links > 2 {
          inodes := inodes[k := inodes[k].(links := inodes[k].links - 1)];
        }
        tree.RemoveChild(p, Basename(path));
      }
    }

    /** The second half of `unlink`, for a node with nothing left below it. */
    method DetachNode(path: Path, v: nat, ghost extra: nat)
      requires tree.Valid() && Inv(View(), extra) && Find(tree.nodes, 0, path) == Some(v)
      requires forall i :: 0 < i < |tree.nodes| ==> ValidName(tree.nodes[i].name)
      modifies this`inodes, this`deletedBlocks, this`deferredBlocks, tree
      ensures tree.Valid()
      ensures v > 0 ==> View() == Detach(old(View()), v)
      ensures v == 0 ==> View() == RootDropped(old(View()))
    {
      var node := tree.nodes[v];
      assert v > 0 ==> NumberedNode(View(), v);
      hide Inv, FileTree.Valid, WellFormed, IsDirMode, WithoutChild, Dropped, ParentDropped, Namespace.NodeRanges;
      DropFromParent(path, v, extra);
      var target := Target(node);
      if target > RESERVED {
        DropTarget(target, node);
      }
    }

    /** Remove the entry at `path` with everything below it; with
        `directoryWhiteout`, only what lies below. A path that leads nowhere is
        no error. */
    method Unlink(path: Path, directoryWhiteout: bool, ghost extra: nat) returns (r: Result<(), FormatError>)
      requires Valid(extra)
      modifies this`inodes, this`deletedBlocks, this`deferredBlocks, tree
      ensures Valid(extra)
      ensures match Find(old(tree.nodes), 0, path)
        case None => r == Ok(()) && View() == old(View())
        case Some(v) =>
          if directoryWhiteout && !OwnInode(old(View()), v).IsDir() then r == Err(NotDirectory) && View() == old(View())
          else r == Ok(()) && if directoryWhiteout || v == 0 then Emptied(old(View()), View(), v) else Unlinked(old(View()), View(), v)
      ensures Plain(old(View())) && !directoryWhiteout && Find(old(tree.nodes), 0, path).Some? && path != [] ==>
        RemovedApart(old(View()), View(), Find(old(tree.nodes), 0, path).value)
      ensures r.Ok? ==> Seen(View(), contents) == AfterUnlink(Seen(old(View()), contents), path, directoryWhiteout)
      ensures var f := Find(old(tree.nodes), 0, path);
        Tidy(old(View())) && (f.Some? ==> NoLinksUnder(old(View()), f.value)) ==> Tidy(View())
      decreases |tree.nodes| - Position(tree.nodes, path), 1
    {
      hide *;
      ghost var was := View();
      Parts(this, extra);
      InvParts(was, extra);
      PositionIs(tree.nodes, path);
      var found := tree.Lookup(path);
      if found.None? {
        UnlinkedSeen(was, was, extra, contents, path, directoryWhiteout);
        return Ok(());
      }
      var v := found.value;
      NumberedAt(was, v);
      if directoryWhiteout && !inodes[tree.nodes[v].inode - 1].IsDir() {
        return Err(NotDirectory);
      }
      UnlinkChildren(path, v, extra);
      Parts(this, extra);
      if directoryWhiteout {
        UnderAndBelow(was, v);
        UnlinkedSeen(was, View(), extra, contents, path, directoryWhiteout);
        return Ok(());
      }
      UnderAndBelow(was, v);
      FinishUnlink(path, v, was, extra);
      Parts(this, extra);
      UnlinkedSeen(was, View(), extra, contents, path, directoryWhiteout);
      r := Ok(());
    }

    /** With everything below it gone, the entry itself goes. */
    method FinishUnlink(path: Path, v: nat, ghost was: Fs, ghost extra: nat)
      requires Valid(extra) && Inv(was, extra) && v < |was.nodes|
      requires Find(was.nodes, 0, path) == Some(v) && Emptied(was, View(), v)
      requires Plain(was) ==> AwayFrom(was, View(), v)
      modifies this`inodes, this`deletedBlocks, this`deferredBlocks, tree
      ensures Valid(extra)
      ensures if v == 0 then Emptied(was, View(), v) else Unlinked(was, View(), v)
      ensures Plain(was) && path != [] ==> RemovedApart(was, View(), v)
      ensures Tidy(old(View())) && NoLinksUnder(was, v) ==> Tidy(View())
    {
      ghost var emptied := View();
      hide Inv, OnDiskOk, Emptied, Unlinked, Tidy, NoLinksUnder, NoLinksBelow, Removable, Detach, RootDropped;
      StillThere(was, emptied, extra, v, path);
      assert forall i :: 0 < i < |emptied.nodes| ==> ValidName(emptied.nodes[i].name) by {
        NamesAreValid(emptied, extra, contents, file.bytes, file.pos, first);
      }
      hide FileTree.Valid;
      DetachNode(path, v, extra);
      AfterDetach(was, emptied, View(), v, extra, contents, file.bytes, file.pos, first);
      RemovedFrom(was, emptied, View(), v, extra, path);
      TidyAfterDetach(was, emptied, View(), v, extra);
    }

    /** The loop of `unlink` over a directory's children, by name. */
    method UnlinkChildren(path: Path, v: nat, ghost extra: nat)
      requires Valid(extra) && Find(tree.nodes, 0, path) == Some(v)
      modifies this`inodes, this`deletedBlocks, this`deferredBlocks, tree
      ensures Valid(extra) && Emptied(old(View()), View(), v)
      ensures Plain(old(View())) ==> AwayFrom(old(View()), View(), v)
      ensures Tidy(old(View())) && NoLinksBelow(old(View()), v) ==> Tidy(View())
      decreases |tree.nodes| - v, 0
    {
      ghost var was := View();
      NodeInode(was, extra, v);
      NoneGone(was, v);
      AwaySelf(was, v);
      var kids := tree.nodes[v].children;
      var childNames := ChildNames(tree.nodes, kids);
      for k := 0 to |kids|
        invariant Valid(extra) && KidsGone(was, View(), v, k)
        invariant Plain(was) ==> AwayFrom(was, View(), v)
        invariant Tidy(was) && NoLinksBelow(was, v) ==> Tidy(View())
      {
        ghost var before := View();
        NextKidFound(was, before, v, k, path);
        KidLinkFree(was, before, v, k);
        var gone := Unlink(path + [childNames[k]], false, extra);
        KidGone(was, before, View(), v, k);
        KidApart(was, before, View(), v, k);
      }
      AllKidsGone(was, View(), v);
    }

    // ---- link ----

    /** Create a hard link at `linkPath` to the file or symlink at `targetPath`.
        The target's count goes up first; whatever stood at `linkPath` is then
        removed, even if it was the target's own last name. */
    method Link(linkPath: Path, targetPath: Path) returns (r: Result<(), FormatError>)
      requires Valid(0) && Canonical(linkPath) && linkPath != []
      requires TargetRoom(View(), targetPath)
      modifies this`inodes, this`deletedBlocks, this`deferredBlocks, tree
      ensures tree.Valid()
      ensures LinkTarget(old(View()), targetPath).Err? ==> r == Err(LinkTarget(old(View()), targetPath).error) && View() == old(View())
      ensures LinkTarget(old(View()), targetPath).Ok? && r.Err? ==>
        Valid(LinkTarget(old(View()), targetPath).value) && !Inv(View(), 0)
      ensures r.Ok? ==> (Inv(View(), 0) <==> ParentIsDir(old(View()), linkPath))
      ensures LinkTarget(old(View()), targetPath).Ok? && Plain(old(View())) ==>
        r == LinkAnswer(old(View()), linkPath, LinkTarget(old(View()), targetPath).value)
      ensures r.Ok? && ParentIsDir(old(View()), linkPath) ==>
        && Valid(0)
        && LinkTarget(old(View()), targetPath).Ok?
        && LinkedTo(old(View()), View(), contents, linkPath, targetPath, LinkTarget(old(View()), targetPath).value)
      ensures r.Ok? && ParentIsDir(old(View()), linkPath) && ParentIsPlain(old(View()), linkPath) ==>
        Tidy(old(View())) && NothingLinkedAt(old(View()), linkPath) ==> Tidy(View())
    {
      hide *;
      ghost var was := View();
      Parts(this, 0);
      TargetCases(was, targetPath);
      var found := tree.Lookup(targetPath);
      if found.None? {
        return Err(NotFound);
      }
      NumberedAt(was, found.value);
      var t := tree.nodes[found.value].inode;
      if inodes[t - 1].IsDir() {
        return Err(CannotHardlinkDirectory);
      }
      TargetIsFile(was, found.value, targetPath, contents, file.bytes, file.pos, first);
      FileIsNoLink(was, found.value);
      OnDiskCount(was, contents, file.bytes, file.pos, first);
      BumpIs(was, t);
      InBounds();
      inodes := inodes[t - 1 := inodes[t - 1].(links := inodes[t - 1].links + 1)];
      ViewIs(this);
      ValidIs(this, t);
      r := LinkTo(linkPath, t, was, targetPath, found.value);
    }

    /** `link` once the target's count has been raised. */
    method LinkTo(linkPath: Path, t: nat, ghost was: Fs, ghost targetPath: Path, ghost at: nat) returns (r: Result<(), FormatError>)
      requires Inv(was, 0) && RESERVED < t <= |was.inodes| && !was.inodes[t - 1].IsDir()
      requires View() == Bump(was, t) && Valid(t) && Canonical(linkPath) && linkPath != []
      requires Find(was.nodes, 0, targetPath) == Some(at) && at < |was.nodes| && was.nodes[at].link == None && was.nodes[at].inode == t
      requires |contents| == |was.origin|
      modifies this`inodes, this`deletedBlocks, this`deferredBlocks, tree
      ensures tree.Valid()
      ensures r.Err? ==> Valid(t) && !Inv(View(), 0)
      ensures r.Ok? ==> (Inv(View(), 0) <==> ParentIsDir(was, linkPath))
      ensures Plain(was) ==> r == LinkAnswer(was, linkPath, t)
      ensures r.Ok? && ParentIsDir(was, linkPath) ==>
        Valid(0) && LinkedTo(was, View(), contents, linkPath, targetPath, t)
      ensures r.Ok? && ParentIsDir(was, linkPath) && ParentIsPlain(was, linkPath) ==>
        Tidy(was) && NothingLinkedAt(was, linkPath) ==> Tidy(View())
    {
      hide *;
      ghost var bumped := View();
      InvParts(was, 0);
      Parts(this, t);
      Clear(linkPath, t);
      ghost var cleared := View();
      Parts(this, t);
      ParentStays(was, bumped, cleared, linkPath, t);
      LinkAnswerIs(was, linkPath, t);
      StillNoDir(was, bumped, cleared, linkPath, t);
      LeakedLink(cleared, t);
      var parent := tree.Lookup(ParentOf(linkPath));
      if parent.None? {
        return Err(NotFound);
      }
      var p := parent.value;
      SlotExists(cleared, ParentOf(linkPath), p);
      NumberedAt(cleared, p);
      ParentCounted(was, bumped, cleared, linkPath, t, p);
      if inodes[tree.nodes[p].inode - 1].links >= MAX_LINKS {
        return Err(MaximumLinksExceeded);
      }
      LinkNodeIs(cleared, p, Basename(linkPath), t);
      var idx := tree.AddChild(p, LinkNode(Basename(linkPath), t));
      ViewIs(this);
      if ParentIsDir(was, linkPath) {
        LinkDone(was, bumped, cleared, linkPath, t, p, contents, file.bytes, file.pos, first);
        InvParts(View(), 0);
        LinkTidy(was, bumped, cleared, linkPath, t, p);
        LinkFramed(was, bumped, cleared, linkPath, t, p);
        LinkedSeen(was, bumped, cleared, linkPath, targetPath, at, t, p, contents);
        LinkedIs(was, View(), contents, linkPath, targetPath, t);
        ValidIs(this, 0);
      } else {
        BumpKeepsModes(was, t);
        ParentNoDir(was, bumped, cleared, linkPath, p);
        LinkBelowFile(cleared, t, p, Basename(linkPath), t);
      }
      r := Ok(());
    }

    /** Remove whatever stands at `path`. */
    method Clear(path: Path, ghost extra: nat)
      requires Valid(extra) && path != []
      modifies this`inodes, this`deletedBlocks, this`deferredBlocks, tree
      ensures Valid(extra) && ClearedAt(old(View()), View(), path)
      ensures Find(old(tree.nodes), 0, path) == None ==> View() == old(View())
      ensures Plain(old(View())) && Find(old(tree.nodes), 0, path).Some? ==>
        RemovedApart(old(View()), View(), Find(old(tree.nodes), 0, path).value)
      ensures Tidy(old(View())) && NothingLinkedAt(old(View()), path) ==> Tidy(View())
    {
      ghost var was := View();
      var existing := tree.Lookup(path);
      if existing.Some? {
        FoundParent(tree.nodes, path, existing.value);
        var gone := Unlink(path, false, extra);
      }
      ClearedByUnlink(was, View(), path);
    }

    // ---- create ----

    /** A short symlink lies in the inode, a longer one in data blocks. */
    method WriteSymlink(child: Inode, target: seq<byte>) returns (child': Inode, blocks: Option<BlockRange>)
      requires |target| <= MAX_FILE_BLOCKS * 4096 && file.pos % 4096 == 0
      requires child.block == Zeros(60) && child.blocksLo == 0 && child.size == 0 && IsLinkMode(child.mode)
      modifies file
      ensures SameBelow(old(file.bytes), file.bytes, old(file.pos)) && old(file.pos) <= file.pos
      ensures Stored(file.bytes, file.pos, child', Symlink(target), if blocks.Some? then [blocks.value] else [])
      ensures RangeAbove(blocks, old(file.pos), file.pos)
      ensures child' == child.(mode := WithAllPerms(child.mode), size := |target|, block := child'.block,
                               flags := child'.flags, blocksLo := child'.blocksLo)
      ensures child'.flags == 0 || child'.flags == EXTENTS
      ensures file.pos == old(file.pos) + ContentBlocks(Symlink(target)) * 4096
    {
      var start := file.pos / 4096;
      child' := child.(mode := WithAllPerms(child.mode), size := |target|, flags := 0);
      AllPermsKeepsType(child.mode);
      if |target| < 60 {
        child' := child'.(block := target + Zeros(60 - |target|));
        blocks := None;
      } else {
        ghost var was := file.bytes;
        file.WriteAll(target);
        WriteReadsBack(was, start * 4096, target);
        WriteAbove(was, start * 4096, target, start * 4096);
        child', blocks := FinishData(file, child', target, start, was, start * 4096);
      }
    }

    /** A regular file's bytes, copied in whatever pieces they arrive. */
    method WriteRegular(child: Inode, d: seq<byte>) returns (child': Inode, blocks: Option<BlockRange>, ok: bool)
      requires file.pos % 4096 == 0
      requires child.block == Zeros(60) && child.blocksLo == 0 && child.size == 0 && child.flags == HUGE_FILE && IsRegMode(child.mode)
      modifies file
      ensures SameBelow(old(file.bytes), file.bytes, old(file.pos)) && old(file.pos) <= file.pos
      ensures ok <==> |d| <= MAX_FILE_BLOCKS * 4096
      ensures ok ==>
        && Stored(file.bytes, file.pos, child', File(d), if blocks.Some? then [blocks.value] else [])
        && RangeAbove(blocks, old(file.pos), file.pos)
        && child' == child.(size := |d|, block := child'.block, flags := child'.flags, blocksLo := child'.blocksLo)
        && (child'.flags == HUGE_FILE || child'.flags == WithFlag(HUGE_FILE, EXTENTS))
        && file.pos == old(file.pos) + ContentBlocks(File(d)) * 4096
    {
      hide *;
      var start := file.pos / 4096;
      child', blocks := child, None;
      ghost var was := file.bytes;
      var size := CopyData(file, d);
      ok := size <= MAX_FILE_BLOCKS * 4096;
      if !ok {
        return;
      }
      child' := child.(size := size);
      child', blocks := FinishData(file, child', d, start, was, start * 4096);
      FileStored(file.bytes, was, start * 4096, file.pos, child', d, blocks);
    }

    /** The rest of `create`, once the parent is there and the name is free: build
        the inode, write its data, register both. */
    method AddEntry(path: Path, p: nat, mode: nat, link: Option<seq<byte>>, data: Option<seq<byte>>, uid: Option<nat>, gid: Option<nat>)
      returns (r: Result<(), FormatError>)
      requires Valid(0) && Canonical(path) && path != [] && Sensible(mode, link) && Owned(uid, gid)
      requires Find(tree.nodes, 0, ParentOf(path)) == Some(p) && FreeSlot(View(), p, Basename(path))
      modifies this`inodes, this`origin, this`contents, tree, file
      ensures Valid(0) && Added(old(Now()), Now(), p, path, Request(mode, link, data, uid, gid), r.Ok?)
      ensures r.Err? ==> View() == old(View())
      ensures r == Entered(OwnInode(old(View()), p).links, Request(mode, link, data, uid, gid))
      ensures r.Ok? ==>
        Wanted(mode, link, data).Ok? && file.pos == (DivCeil(old(file.pos), 4096) + ContentBlocks(Wanted(mode, link, data).value)) * 4096
    {
      hide *;
      ghost var before := Now();
      Parts(this, 0);
      NowIs(this);
      OnDiskCounts(this);
      SlotExists(before.fs, ParentOf(path), p);
      NumberedAt(before.fs, p);
      var parent := inodes[tree.nodes[p].inode - 1];
      FitsAt(before.fs, contents, file.bytes, file.pos, first, tree.nodes[p].inode - 1);
      EnteredIs(parent.links, Request(mode, link, data, uid, gid));
      if parent.links >= MAX_LINKS {
        SameBelowRefl(before.img, before.pos);
        NotRegistered(before, before, p, path, Request(mode, link, data, uid, gid));
        return Err(MaximumLinksExceeded);
      }
      var blank := Inode(mode, if uid.Some? then uid.value else parent.uid, if gid.Some? then gid.value else parent.gid,
                         0, 1, 0, HUGE_FILE, EXTRA_ISIZE, Zeros(60));
      var child, blocks;
      r, child, blocks := WriteEntry(blank, parent, mode, link, data, uid, gid);
      ViewIs(this);
      NowIs(this);
      MovedUpInv(before, file.bytes, file.pos, first);
      ValidIs(this, 0);
      if r.Err? {
        NotRegistered(before, Now(), p, path, Request(mode, link, data, uid, gid));
        return;
      }
      StoredNew(before.fs, child, blocks, Wanted(mode, link, data).value, file.bytes, before.pos, file.pos, first);
      CommitEntry(path, p, child, blocks, before, Request(mode, link, data, uid, gid));
    }

    /** Register what was written, and sum up. */
    method CommitEntry(path: Path, p: nat, child: Inode, blocks: Option<BlockRange>, ghost before: Snapshot, ghost req: Request)
      requires Valid(0) && path != [] && Canonical(path) && Wanted(req.mode, req.link, req.data).Ok?
      requires Find(tree.nodes, 0, ParentOf(path)) == Some(p) && FreeSlot(View(), p, Basename(path))
      requires before.fs == View() && before.contents == contents && OnDiskOk(before.fs, before.contents, before.img, before.pos, first)
      requires SameBelow(before.img, file.bytes, before.pos) && first * 4096 <= before.pos <= file.pos
      requires NewStored(before.fs, child, blocks, Wanted(req.mode, req.link, req.data).value, file.bytes, before.pos, file.pos, first)
      requires FreshCount(child) && OwnInode(View(), p).links < MAX_LINKS
      requires Inherits(OwnInode(View(), p), child, req.mode, req.uid, req.gid)
      modifies this`inodes, this`origin, this`contents, tree
      ensures Valid(0) && Added(before, Now(), p, path, req, true)
    {
      Register(path, p, child, blocks, Wanted(req.mode, req.link, req.data).value, before.img, before.pos);
      hide *;
      EntrySeen(before.fs, View(), path, p, child, blocks, before.contents, req);
      AttachCounts(before.fs, p, Basename(path), child, blocks);
      EntryRegistered(before, Now(), p, path, req);
    }

    /** Everything `create` does to the new inode and the image before the inode
        is registered. */
    method WriteEntry(blank: Inode, ghost parent: Inode, mode: nat, link: Option<seq<byte>>, data: Option<seq<byte>>,
                      ghost uid: Option<nat>, ghost gid: Option<nat>)
      returns (r: Result<(), FormatError>, child: Inode, blocks: Option<BlockRange>)
      requires Sensible(mode, link) && Owned(uid, gid) && parent.Fits()
      requires blank == Inode(mode, if uid.Some? then uid.value else parent.uid, if gid.Some? then gid.value else parent.gid,
                              0, 1, 0, HUGE_FILE, EXTRA_ISIZE, Zeros(60))
      modifies file
      ensures SameBelow(old(file.bytes), file.bytes, old(file.pos)) && old(file.pos) <= file.pos
      ensures r == if Wanted(mode, link, data).Ok? then Ok(()) else Err(Wanted(mode, link, data).error)
      ensures r.Ok? ==>
        && child.Fits() && FreshCount(child) && Inherits(parent, child, mode, uid, gid)
        && Stored(file.bytes, file.pos, child, Wanted(mode, link, data).value, if blocks.Some? then [blocks.value] else [])
        && RangeAbove(blocks, old(file.pos), file.pos)
        && file.pos == (DivCeil(old(file.pos), 4096) + ContentBlocks(Wanted(mode, link, data).value)) * 4096
    {
      hide *;
      child, blocks, r := blank, None, Ok(());
      ghost var img, pos := file.bytes, file.pos;
      file.AlignToBlock();
      ghost var start := file.pos;
      WantedIs(mode, link, data);
      SensibleMode(mode, link);
      if IsDirMode(mode) {
        child := child.(links := 2);
        DirectoryStored(file.bytes, file.pos, child, mode);
      } else if link.Some? {
        child, blocks := WriteSymlink(child, link.value);
      } else if IsRegMode(mode) {
        var ok;
        child, blocks, ok := WriteRegular(child, if data.Some? then data.value else []);
        if !ok {
          r := Err(FileTooBig);
        }
      } else {
        r := Err(UnsupportedFiletype);
      }
      SameBelowTrans(img, img, file.bytes, pos, start) by { SameBelowRefl(img, pos); }
      if r.Ok? {
        RangeHigher(blocks, pos, start, file.pos);
        EntryMade(parent, blank, child, blocks, mode, Wanted(mode, link, data).value, uid, gid, file.bytes, file.pos);
      }
    }

    /** Enter the new inode and its name; a directory is one more link for its
        parent. */
    method Register(path: Path, p: nat, child: Inode, blocks: Option<BlockRange>, ghost c: Content, ghost img: seq<byte>, ghost pos: nat)
      requires tree.Valid() && Inv(View(), 0) && path != [] && Canonical(path)
      requires Find(tree.nodes, 0, ParentOf(path)) == Some(p) && FreeSlot(View(), p, Basename(path))
      requires OnDiskOk(View(), contents, img, pos, first) && SameBelow(img, file.bytes, pos) && first * 4096 <= pos <= file.pos
      requires NewStored(View(), child, blocks, c, file.bytes, pos, file.pos, first)
      requires FreshCount(child) && OwnInode(View(), p).links < MAX_LINKS
      modifies this`inodes, this`origin, this`contents, tree
      ensures Valid(0) && contents == old(contents) + [c]
      ensures View() == Attach(old(View()), p, Basename(path), child, blocks)
      ensures Grown(old(View()), View(), path) && FilesKept(old(View()), View(), 0) && NewEntry(View(), contents, path, c)
      ensures inodes[|inodes| - 1] == child
      ensures Tidy(old(View())) && old(tree.nodes)[p].link == None ==> Tidy(View())
    {
      hide *;
      ghost var was := View();
      ViewIs(this);
      InvParts(was, 0);
      SlotExists(was, ParentOf(path), p);
      PushEntry(p, Basename(path), child, blocks);
      AttachedLast(was, p, Basename(path), child, blocks);
      EntryAdded(was, path, p, child, blocks, contents, c, img, file.bytes, pos, file.pos, first);
      ViewIs(this);
      contents := contents + [c];
      ViewIs(this);
      ValidIs(this, 0);
    }

    method PushEntry(p: nat, name: Name, child: Inode, blocks: Option<BlockRange>)
      requires tree.Valid() && Numbered(View()) && p < |tree.nodes|
      modifies this`inodes, this`origin, tree
      ensures tree.Valid() && View() == Attach(old(View()), p, name, child, blocks)
    {
      hide *;
      ghost var was := View();
      ViewIs(this);
      NumberedAt(was, p);
      AttachIs(was, p, name, child, blocks);
      var k := tree.nodes[p].inode - 1;
      if child.IsDir() {
        inodes := inodes[k := inodes[k].(links := inodes[k].links + 1)];
      }
      inodes := inodes + [child];
      origin := origin + [|tree.nodes|];
      var idx := tree.AddChild(p, NewNode(|inodes|, name, blocks));
      ViewIs(this);
    }

    /** The "already exists" cases of `create`. A directory over a directory is
        done at once (only mode and owner change, and only if an owner is given);
        anything else that may stay is cleared away. */
    method ReplaceExisting(path: Path, mode: nat, ghost link: Option<seq<byte>>, ghost data: Option<seq<byte>>,
                           uid: Option<nat>, gid: Option<nat>) returns (finished: bool, r: Result<(), FormatError>)
      requires Valid(0) && mode < 0x1_0000 && Owned(uid, gid) && (path == [] ==> !IsLinkMode(mode))
      modifies this`inodes, this`deletedBlocks, this`deferredBlocks, tree
      ensures Valid(0)
      ensures finished ==> Outcome(old(Now()), Now(), path, Request(mode, link, data, uid, gid), r.Ok?)
      ensures finished ==> Replies(old(View()), View(), path, Request(mode, link, data, uid, gid), r)
      ensures finished && r.Ok? ==> Spent(old(View()), path, Request(mode, link, data, uid, gid)) == 0
      ensures !finished ==> Cleared(old(Now()), Now(), path, Request(mode, link, data, uid, gid))
      ensures !finished ==> GoesOn(old(View()), View(), path, Request(mode, link, data, uid, gid))
    {
      hide *;
      finished, r := true, Ok(());
      ghost var was, req := Now(), Request(mode, link, data, uid, gid);
      Parts(this, 0);
      NowIs(this);
      OnDiskCounts(this);
      RootNode(was.fs);
      var existing := tree.Lookup(path);
      if existing.None? {
        NothingToClear(was, path, req);
        FreeGoesOn(was.fs, path, req);
        return false, r;
      }
      var i := existing.value;
      NumberedAt(was.fs, i);
      LooksIs(was.fs, path, i);
      var n := tree.nodes[i].inode;
      if IsDirMode(mode) {
        if inodes[n - 1].IsDir() {
          UpdateDirectory(path, n, mode, link, data, uid, gid);
        } else {
          Refused(was, path, req);
          r := Err(NotDirectory);
        }
        DirectoryReplies(was.fs, View(), path, i, req, r);
        SpentIs(was.fs, path, req);
      } else if tree.nodes[i].link == None && inodes[n - 1].IsDir() && !IsLinkMode(mode) {
        Refused(was, path, req);
        r := Err(NotFile);
        FileReplies(was.fs, path, i, req);
      } else {
        RootIsPlainDir(was.fs, path, i);
        Clear(path, 0);
        Parts(this, 0);
        NowIs(this);
        ClearedGoesOn(was.fs, View(), path, i, req);
        ClearedSeen(was.fs, View(), contents, path, i);
        FileCleared(was, Now(), path, req);
        finished := false;
      }
    }

    /** Mode and owner of a directory that is asked for again. */
    method UpdateDirectory(path: Path, n: nat, mode: nat, ghost link: Option<seq<byte>>, ghost data: Option<seq<byte>>,
                           uid: Option<nat>, gid: Option<nat>)
      requires Valid(0) && IsDirMode(mode) && mode < 0x1_0000 && Owned(uid, gid) && LooksLikeDirectory(View(), path)
      requires n == tree.nodes[Find(tree.nodes, 0, path).value].inode && 0 < n <= |inodes|
      modifies this`inodes
      ensures Valid(0) && Outcome(old(Now()), Now(), path, Request(mode, link, data, uid, gid), true)
      ensures uid.None? && gid.None? ==> View() == old(View())
    {
      ghost var was := Now();
      Parts(this, 0);
      NowIs(this);
      DirectoryHere(was.fs, path);
      hide *;
      if uid.Some? || gid.Some? {
        var inode := inodes[n - 1].(mode := mode);
        if uid.Some? {
          inode := inode.(uid := uid.value);
        }
        if gid.Some? {
          inode := inode.(gid := gid.value);
        }
        FitsAt(was.fs, contents, file.bytes, file.pos, first, n - 1);
        OwnerFits(inodes[n - 1], inode, mode, uid, gid);
        DirectoryChanged(was, n, inode, first, path, Request(mode, link, data, uid, gid));
        inodes := inodes[n - 1 := inode];
        SetInodeIs(was.fs, n, inode);
        ViewIs(this);
        NowIs(this);
        ValidIs(this, 0);
      } else {
        OnDiskCount(was.fs, contents, file.bytes, file.pos, first);
        DirectoryLeft(was, path, Request(mode, link, data, uid, gid));
      }
    }

    /** Create a file, directory or symlink at `path`, with any missing parent
        directories. */
    method Create(path: Path, mode: nat, link: Option<seq<byte>>, data: Option<seq<byte>>, uid: Option<nat>, gid: Option<nat>)
      returns (r: Result<(), FormatError>)
      requires Valid(0) && Canonical(path) && Sensible(mode, link) && Owned(uid, gid) && (path == [] ==> !IsLinkMode(mode))
      modifies this`inodes, this`deletedBlocks, this`deferredBlocks, this`origin, this`contents, tree, file
      ensures Valid(0) && Outcome(old(Now()), Now(), path, Request(mode, link, data, uid, gid), r.Ok?)
      ensures Replies(old(View()), View(), path, Request(mode, link, data, uid, gid), r)
      ensures r.Ok? && old(file.pos) % 4096 == 0 ==>
        file.pos == old(file.pos) + Spent(old(View()), path, Request(mode, link, data, uid, gid)) * 4096
      decreases |path|
    {
      hide *;
      ghost var was := Now();
      Parts(this, 0);
      NowIs(this);
      OnDiskCounts(this);
      SensibleMode(mode, link);
      var finished;
      finished, r := ReplaceExisting(path, mode, link, data, uid, gid);
      ghost var cleared := Now();
      NowIs(this);
      OnDiskCounts(this);
      if finished {
        return;
      }
      ClearedParts(was, cleared, path, Request(mode, link, data, uid, gid));
      ParentRequest(path);
      ParentIsPlainRequest();
      r := Create(ParentOf(path), DIR_0755, None, None, None, None);
      ghost var grown := Now();
      NowIs(this);
      OnDiskCounts(this);
      RepliesUnder(was.fs, cleared.fs, grown.fs, path, Request(mode, link, data, uid, gid), r);
      if r.Err? {
        ParentFailed(was, cleared, grown, path, Request(mode, link, data, uid, gid));
        return;
      }
      ParentLinked(cleared, grown, ParentOf(path), r);
      ParentSpent(cleared.fs, ParentOf(path));
      GoesOnSpends(was.fs, cleared.fs, path, Request(mode, link, data, uid, gid));
      r := CreateUnder(path, mode, link, data, uid, gid, was, cleared);
      if r.Ok? {
        AlignedOn(was.pos, ContentBlocks(Wanted(mode, link, data).value));
      }
    }

    /** `create` once the parent directory is there and nothing stands in the way. */
    method CreateUnder(path: Path, mode: nat, link: Option<seq<byte>>, data: Option<seq<byte>>, uid: Option<nat>, gid: Option<nat>,
                       ghost was: Snapshot, ghost cleared: Snapshot)
      returns (r: Result<(), FormatError>)
      requires Valid(0) && Canonical(path) && path != [] && Sensible(mode, link) && Owned(uid, gid)
      requires Cleared(was, cleared, path, Request(mode, link, data, uid, gid))
      requires Outcome(cleared, Now(), ParentOf(path), PARENT, true)
      modifies this`inodes, this`origin, this`contents, tree, file
      ensures Valid(0) && Outcome(was, Now(), path, Request(mode, link, data, uid, gid), r.Ok?)
      ensures r == Entered(LinksAt(old(View()), ParentOf(path)), Request(mode, link, data, uid, gid))
      ensures r.Ok? ==>
        Wanted(mode, link, data).Ok? && file.pos == (DivCeil(old(file.pos), 4096) + ContentBlocks(Wanted(mode, link, data).value)) * 4096
    {
      hide *;
      ghost var grown := Now();
      Parts(this, 0);
      NowIs(this);
      OnDiskCounts(this);
      ParentIsThere(was, cleared, grown, path, Request(mode, link, data, uid, gid));
      var parent := tree.Lookup(ParentOf(path));
      var p := parent.value;
      LinksAtIs(grown.fs, ParentOf(path), p);
      r := AddEntry(path, p, mode, link, data, uid, gid);
      Parts(this, 0);
      NowIs(this);
      OnDiskCounts(this);
      Assembled(was, cleared, grown, Now(), path, p, Request(mode, link, data, uid, gid), r.Ok?);
    }
  }

  // ---- What `create` answers, step by step ----

  lemma EnteredIs(links: nat, req: Request)
    ensures Entered(links, req) ==
      if links >= MAX_LINKS then Err(MaximumLinksExceeded)
      else if Wanted(req.mode, req.link, req.data).Ok? then Ok(()) else Err(Wanted(req.mode, req.link, req.data).error)
  {
    hide Wanted;
  }

  lemma LinksAtIs(fs: Fs, path: Path, p: nat)
    requires Numbered(fs) && WellFormed(fs.nodes) && |fs.nodes| > 0 && Find(fs.nodes, 0, path) == Some(p)
    ensures p < |fs.nodes| && LinksAt(fs, path) == OwnInode(fs, p).links
  {
    hide Numbered, WellFormed, OwnInode;
  }

  lemma FreeGoesOn(fs: Fs, path: Path, req: Request)
    requires Numbered(fs) && WellFormed(fs.nodes) && |fs.nodes| > 0 && Find(fs.nodes, 0, path) == None
    ensures GoesOn(fs, fs, path, req)
  {
    hide Numbered, WellFormed, Find, AnswerUnder;
  }

  lemma DirectoryReplies(a: Fs, b: Fs, path: Path, i: nat, req: Request, r: Result<(), FormatError>)
    requires Numbered(a) && WellFormed(a.nodes) && |a.nodes| > 0 && Find(a.nodes, 0, path) == Some(i) && i < |a.nodes| && IsDirMode(req.mode)
    requires r == if OwnInode(a, i).IsDir() then Ok(()) else Err(NotDirectory)
    requires req.uid.None? && req.gid.None? ==> b == a
    ensures Replies(a, b, path, req, r)
  {
    hide Numbered, WellFormed, Find, OwnInode, IsDirMode, Inode.IsDir, Plain;
  }

  lemma FileReplies(a: Fs, path: Path, i: nat, req: Request)
    requires Numbered(a) && WellFormed(a.nodes) && |a.nodes| > 0 && Find(a.nodes, 0, path) == Some(i) && i < |a.nodes|
    requires a.nodes[i].link == None && OwnInode(a, i).IsDir() && !IsLinkMode(req.mode) && !IsDirMode(req.mode)
    ensures Replies(a, a, path, req, Err(NotFile))
  {
    hide Numbered, WellFormed, Find, OwnInode, IsDirMode, IsLinkMode, Inode.IsDir, Plain;
  }

  /** Whatever stood in the way is gone: the parent is still there, with as many links
      as could be foreseen. */
  lemma ClearedGoesOn(a: Fs, c: Fs, path: Path, i: nat, req: Request)
    requires Inv(a, 0) && Inv(c, 0) && Numbered(a) && Numbered(c) && WellFormed(a.nodes) && WellFormed(c.nodes)
    requires Find(a.nodes, 0, path) == Some(i) && i < |a.nodes| && path != [] && ClearedAt(a, c, path) && !IsDirMode(req.mode)
    requires !(a.nodes[i].link == None && OwnInode(a, i).IsDir() && !IsLinkMode(req.mode))
    requires Plain(a) ==> RemovedApart(a, c, i)
    ensures GoesOn(a, c, path, req)
  {
    hide *;
    InvParts(a, 0);
    InvParts(c, 0);
    NoAnswerYet(a, c, path, i, req);
    if Plain(a) {
      FoundParent(a.nodes, path, i);
      RootOnly(a.nodes, path, i);
      ParentIsShorter(path);
      ClearedAside(a, c, path, ParentOf(path));
      var p := a.nodes[i].parent.value;
      HasKids(a.nodes, i);
      InvKinds(a, 0);
      ParentIsDirectory(a, p);
      SubDirIs(a, p);
      NumberedAt(a, p);
      NumberedAt(c, p);
      RemovedApartIs(a, c, i);
      AwayButDrops(a, c, i);
      ParentLinksIs(a, path, 0, p);
      PathOfLookup(a.nodes, ParentOf(path));
      NamedInode(a, 0, p);
      OwnTarget(a, p);
      TypeStays(a, c, p);
      LinksAtIs(c, ParentOf(path), p);
      UnderFound(c, path, p, req);
    }
  }

  lemma OwnTarget(fs: Fs, p: nat)
    requires p < |fs.nodes| && fs.nodes[p].link == None
    ensures Target(fs.nodes[p]) == fs.nodes[p].inode
  {
  }

  lemma TypeStays(a: Fs, c: Fs, p: nat)
    requires Numbered(a) && Numbered(c) && p < |a.nodes| && p < |c.nodes| && 0 < a.nodes[p].inode == c.nodes[p].inode <= |a.inodes| <= |c.inodes|
    requires InodeStep(a.inodes[a.nodes[p].inode - 1], c.inodes[a.nodes[p].inode - 1]) && OwnInode(c, p).links > 0
    ensures OwnInode(c, p).IsDir() == OwnInode(a, p).IsDir()
  {
    hide Numbered;
  }

  lemma NoAnswerYet(a: Fs, c: Fs, path: Path, i: nat, req: Request)
    requires Numbered(a) && Numbered(c) && WellFormed(a.nodes) && |a.nodes| > 0
    requires Find(a.nodes, 0, path) == Some(i) && i < |a.nodes| && !IsDirMode(req.mode)
    requires !(a.nodes[i].link == None && OwnInode(a, i).IsDir() && !IsLinkMode(req.mode))
    ensures GoesOn(a, c, path, req) <==> (Plain(a) ==> Entered(ParentLinks(a, path, 0), req) == AnswerUnder(c, path, req))
  {
    hide Numbered, WellFormed, Find, OwnInode, IsDirMode, IsLinkMode, Inode.IsDir, Plain, Entered, ParentLinks, AnswerUnder;
  }

  lemma UnderFound(c: Fs, path: Path, p: nat, req: Request)
    requires Numbered(c) && WellFormed(c.nodes) && |c.nodes| > 0 && path != [] && Find(c.nodes, 0, ParentOf(path)) == Some(p) && p < |c.nodes|
    requires OwnInode(c, p).IsDir()
    ensures AnswerUnder(c, path, req) == Entered(OwnInode(c, p).links, req)
  {
    ParentRequest(path);
    hide Numbered, WellFormed, Find, OwnInode, IsDirMode, Inode.IsDir, Entered;
  }

  lemma SpentIs(fs: Fs, path: Path, req: Request)
    requires Numbered(fs)
    ensures IsDirMode(req.mode) && Find(fs.nodes, 0, path).Some? ==> Spent(fs, path, req) == 0
    ensures !(IsDirMode(req.mode) && Find(fs.nodes, 0, path).Some?) && Wanted(req.mode, req.link, req.data).Ok? ==>
      Spent(fs, path, req) == ContentBlocks(Wanted(req.mode, req.link, req.data).value)
  {
    hide Numbered, Find, IsDirMode, Wanted, ContentBlocks;
  }

  lemma ParentSpent(fs: Fs, path: Path)
    requires Numbered(fs)
    ensures Spent(fs, path, PARENT) == 0
  {
    hide Numbered, Find;
  }

  lemma GoesOnSpends(a: Fs, c: Fs, path: Path, req: Request)
    requires GoesOn(a, c, path, req)
    ensures Wanted(req.mode, req.link, req.data).Ok? ==> Spent(a, path, req) == ContentBlocks(Wanted(req.mode, req.link, req.data).value)
  {
    hide Numbered, Find, IsDirMode, Wanted, ContentBlocks, Foreseen, Answer, AnswerUnder;
  }

  lemma AlignedOn(pos: nat, n: nat)
    ensures pos % 4096 == 0 ==> (DivCeil(pos, 4096) + n) * 4096 == pos + n * 4096
  {
  }

  /** The answer for the missing parents decides, if it is an error. */
  lemma RepliesUnder(a: Fs, c: Fs, m: Fs, path: Path, req: Request, up: Result<(), FormatError>)
    requires GoesOn(a, c, path, req) && Replies(c, m, ParentOf(path), PARENT, up) && path != []
    ensures up.Err? ==> forall b :: Replies(a, b, path, req, up)
    ensures up.Ok? ==> forall b, links :: links == LinksAt(c, ParentOf(path)) ==> Replies(a, b, path, req, Entered(links, req))
  {
    ParentRequest(path);
    hide Numbered, Find, IsDirMode, Entered, LinksAt, Answer, Plain;
  }

  /** Making the parents leaves an existing one as it is, and gives a new one two
      links. */
  lemma ParentLinked(c: Snapshot, m: Snapshot, path: Path, r: Result<(), FormatError>)
    requires Inv(c.fs, 0) && Inv(m.fs, 0) && |m.contents| == |m.fs.origin|
    requires Outcome(c, m, path, PARENT, true) && Replies(c.fs, m.fs, path, PARENT, r)
    ensures Numbered(c.fs) && Numbered(m.fs) && LinksAt(m.fs, path) == LinksAt(c.fs, path)
  {
    hide *;
    OutcomeParts(c, m, path, PARENT, true);
    ParentIsPlainRequest();
    RepliesAgain(c.fs, m.fs, path, PARENT, r);
    if Find(c.fs.nodes, 0, path).None? {
      NewDirectoryLinks(m, path, PARENT);
      NoLinksYet(c.fs, path);
    }
  }

  lemma ParentIsPlainRequest()
    ensures PARENT == Request(DIR_0755, None, None, None, None) && IsDirMode(PARENT.mode) && PARENT.uid.None? && PARENT.gid.None?
  {
  }

  lemma RepliesAgain(a: Fs, b: Fs, path: Path, req: Request, r: Result<(), FormatError>)
    requires Replies(a, b, path, req, r) && IsDirMode(req.mode) && req.uid.None? && req.gid.None?
    ensures Numbered(a) && WellFormed(a.nodes) && |a.nodes| > 0 && (Find(a.nodes, 0, path).Some? ==> b == a)
  {
    Shaped(a);
    hide Numbered, WellFormed, Find, Answer, Foreseen;
  }

  lemma NewDirectoryLinks(b: Snapshot, path: Path, req: Request)
    requires Numbered(b.fs) && |b.contents| == |b.fs.origin| && MadeNew(b, path, req) && IsDirMode(req.mode)
    ensures LinksAt(b.fs, path) == 2
  {
    Shaped(b.fs);
    hide Numbered, WellFormed, Find, Wanted, IsDirMode, IsLinkMode, WithAllPerms;
  }

  lemma NoLinksYet(fs: Fs, path: Path)
    requires Numbered(fs) && WellFormed(fs.nodes) && |fs.nodes| > 0 && Find(fs.nodes, 0, path) == None
    ensures LinksAt(fs, path) == 2
  {
    hide Numbered, WellFormed, Find, OwnInode;
  }

  lemma PositionIs(nodes: Nodes, path: Path)
    requires WellFormed(nodes) && |nodes| > 0
    ensures Find(nodes, 0, path).Some? ==> Find(nodes, 0, path).value == Position(nodes, path) < |nodes|
  {
    hide WellFormed, Find;
  }

  lemma UnderAndBelow(fs: Fs, v: nat)
    requires WellFormed(fs.nodes)
    ensures NoLinksUnder(fs, v) ==> NoLinksBelow(fs, v)
  {
    hide WellFormed, LinkFree;
  }

  lemma RootIsPlainDir(fs: Fs, path: Path, i: nat)
    requires Inv(fs, 0) && Numbered(fs) && Find(fs.nodes, 0, path) == Some(i) && i < |fs.nodes|
    ensures path == [] ==> fs.nodes[i].link == None && OwnInode(fs, i).IsDir()
  {
    RootNode(fs);
    hide WellFormed, UniqueNames, NumberedNode, NumberedInode, KindOk, Counts, Ownership, Inode.IsDir;
  }

  lemma DirectoryHere(fs: Fs, path: Path)
    requires Numbered(fs) && LooksLikeDirectory(fs, path)
    ensures WellFormed(fs.nodes) && |fs.nodes| > 0 && Find(fs.nodes, 0, path).Some? && Find(fs.nodes, 0, path).value < |fs.nodes|
    ensures var n := fs.nodes[Find(fs.nodes, 0, path).value].inode; 0 < n <= |fs.inodes| && fs.inodes[n - 1].IsDir()
  {
    LooksAt(fs, path);
    OwnIs(fs, Find(fs.nodes, 0, path).value);
    hide Numbered, LooksLikeDirectory, Find, WellFormed, OwnInode;
  }

  lemma OwnerFits(a: Inode, b: Inode, mode: nat, uid: Option<nat>, gid: Option<nat>)
    requires a.Fits() && Owned(uid, gid) && mode < 0x1_0000
    requires b == a.(mode := mode, uid := if uid.Some? then uid.value else a.uid, gid := if gid.Some? then gid.value else a.gid)
    ensures b.Fits()
  {
  }

  /** What the code takes for a directory at `path`. The entry of a hard link carries
      the root's number, so every hard link looks like one. */
  predicate LooksLikeDirectory(fs: Fs, path: Path)
    requires Numbered(fs)
  {
    var f := Find(fs.nodes, 0, path);
    f.Some? && OwnInode(fs, f.value).IsDir()
  }

  /** `path` leads to a directory. */
  predicate DirectoryAt(fs: Fs, path: Path)
    requires Numbered(fs)
  {
    LooksLikeDirectory(fs, path) && !LinkAt(fs, path)
  }

  predicate LinkAt(fs: Fs, path: Path)
    requires Numbered(fs)
  {
    var f := Find(fs.nodes, 0, path);
    f.Some? && fs.nodes[f.value].link.Some?
  }

  predicate AsAsked(inode: Inode, mode: nat, uid: Option<nat>, gid: Option<nat>) {
    && inode.mode == (if IsLinkMode(mode) then WithAllPerms(mode) else mode)
    && (uid.Some? ==> inode.uid == uid.value)
    && (gid.Some? ==> inode.gid == gid.value)
    && inode.links == (if IsDirMode(mode) then 2 else 1)
  }

  lemma NothingToClear(a: Snapshot, path: Path, req: Request)
    requires Inv(a.fs, 0) && Find(a.fs.nodes, 0, path) == None && path != []
    ensures Cleared(a, a, path, req)
  {
    SameNodesRefl(a.fs);
    forall q: Path | path <= q ensures Find(a.fs.nodes, 0, q) == None {
      NothingBelowNothing(a.fs.nodes, path, q);
    }
    SightIs(a.fs, a.contents, path);
    SeenGet(a.fs, a.contents, path);
    hide Seen, Without, SightAt;
  }

  lemma Unchanged(a: Snapshot, n: nat)
    ensures Kept(a, a, n)
  {
    SameBelowRefl(a.img, a.pos);
  }

  lemma Refused(a: Snapshot, path: Path, req: Request)
    requires Inv(a.fs, 0) && |a.contents| == |a.fs.origin|
    ensures Outcome(a, a, path, req, false)
  {
    Unchanged(a, ChangedInode(a.fs, path, req));
  }

  lemma DirectoryLeft(a: Snapshot, path: Path, req: Request)
    requires Inv(a.fs, 0) && |a.contents| == |a.fs.origin| && IsDirMode(req.mode) && LooksLikeDirectory(a.fs, path)
    requires req.uid.None? && req.gid.None?
    ensures Outcome(a, a, path, req, true)
  {
    Unchanged(a, ChangedInode(a.fs, path, req));
    SameTree(a.fs, a.fs, path);
    NothingRedone(a.fs, a.contents, path, req);
    hide Seen, AfterCreate, LooksLikeDirectory, Kept, Remade, Grown, Tidy;
  }

  lemma NothingRedone(fs: Fs, contents: seq<Content>, path: Path, req: Request)
    requires Numbered(fs) && LooksLikeDirectory(fs, path) && IsDirMode(req.mode) && req.uid.None? && req.gid.None?
    ensures AfterCreate(Seen(fs, contents), path, req) == Seen(fs, contents)
  {
    SightIs(fs, contents, path);
    SeenGet(fs, contents, path);
    GetRedone(Seen(fs, contents), path, req, path);
    hide Seen, SightAt, SightOf, Numbered, Find, Redone, Carrier, MakeDirs, Add, Without;
  }

  lemma SetInodeIs(a: Fs, n: nat, inode: Inode)
    requires 0 < n <= |a.inodes|
    ensures SetInode(a, n, inode) == a.(inodes := a.inodes[n - 1 := inode])
  {
  }

  lemma SameNodesKeepFiles(a: Fs, b: Fs)
    requires SameNodes(a, b)
    ensures FilesKept(a, b, 0)
  {
    forall k | 0 <= k < |a.inodes| ensures FileKept(a.inodes[k], b.inodes[k], false) {
      assert InodeStep(a.inodes[k], b.inodes[k]);
    }
  }

  lemma FilesKeptTrans(a: Fs, b: Fs, c: Fs)
    requires FilesKept(a, b, 0) && FilesKept(b, c, 0)
    ensures FilesKept(a, c, 0)
  {
    forall k | 0 <= k < |a.inodes| ensures FileKept(a.inodes[k], c.inodes[k], false) {
      assert FileKept(a.inodes[k], b.inodes[k], false) && FileKept(b.inodes[k], c.inodes[k], false);
    }
    forall i | 0 <= i < |a.nodes| ensures NodeKept(a.nodes[i], c.nodes[i]) {
      assert NodeKept(a.nodes[i], b.nodes[i]) && NodeKept(b.nodes[i], c.nodes[i]);
    }
  }

  /** An existing directory given a new mode and owner. */
  lemma DirectoryChanged(a: Snapshot, n: nat, inode: Inode, first: nat, path: Path, req: Request)
    requires Inv(a.fs, 0) && OnDiskOk(a.fs, a.contents, a.img, a.pos, first) && 0 < n <= |a.fs.inodes|
    requires a.fs.inodes[n - 1].IsDir() && IsDirMode(inode.mode) && inode.Fits() && inode.mode == req.mode
    requires inode == a.fs.inodes[n - 1].(mode := inode.mode, uid := inode.uid, gid := inode.gid)
    requires inode.uid == (if req.uid.Some? then req.uid.value else a.fs.inodes[n - 1].uid)
    requires inode.gid == (if req.gid.Some? then req.gid.value else a.fs.inodes[n - 1].gid)
    requires IsDirMode(req.mode) && LooksLikeDirectory(a.fs, path) && (req.uid.Some? || req.gid.Some?)
    requires a.fs.nodes[Find(a.fs.nodes, 0, path).value].inode == n
    ensures var b := a.(fs := SetInode(a.fs, n, inode));
      && Inv(b.fs, 0) && OnDiskOk(b.fs, b.contents, b.img, b.pos, first)
      && |b.contents| == |b.fs.origin| && Outcome(a, b, path, req, true)
  {
    hide *;
    var b := a.(fs := SetInode(a.fs, n, inode));
    InvParts(a.fs, 0);
    LooksAt(a.fs, path);
    var i := Find(a.fs.nodes, 0, path).value;
    OnDiskCount(a.fs, a.contents, a.img, a.pos, first);
    DirectoryNumber(a.fs, path, n);
    ChmodKeeps(a.fs, n, inode);
    InvParts(b.fs, 0);
    OnlyOwnerChanged(a.fs.inodes[n - 1], inode);
    SetInodeKeepsData(a.fs, n, inode, a.contents, a.img, a.pos, first);
    SetInodeIs(a.fs, n, inode);
    DirectoryStays(a.fs, n, inode, path);
    LinksStay(a.fs, b.fs, path);
    SameTree(a.fs, b.fs, path);
    OwnIs(a.fs, i);
    ChownSeen(a.fs, a.contents, path, i, inode, req);
    RedoneIs(a.fs, a.contents, path, req);
    ChangedKept(a, n, inode, path, req);
    ChangedTidy(a, b, n, inode, path, req);
    SeenUnderDirectory(a.fs, path);
    OutcomeIs(a, b, path, req);
  }

  lemma LooksIs(fs: Fs, path: Path, i: nat)
    requires Numbered(fs) && WellFormed(fs.nodes) && |fs.nodes| > 0 && Find(fs.nodes, 0, path) == Some(i) && i < |fs.nodes|
    ensures LooksLikeDirectory(fs, path) <==> OwnInode(fs, i).IsDir()
  {
    hide Numbered, WellFormed, Find, OwnInode, Inode.IsDir;
  }

  lemma FileCleared(a: Snapshot, c: Snapshot, path: Path, req: Request)
    requires Inv(a.fs, 0) && Inv(c.fs, 0) && Numbered(a.fs) && Numbered(c.fs) && WellFormed(a.fs.nodes) && WellFormed(c.fs.nodes)
    requires ClearedAt(a.fs, c.fs, path) && path != [] && !IsDirMode(req.mode)
    requires c.contents == a.contents && c.img == a.img && c.pos == a.pos
    requires Tidy(a.fs) && NothingLinkedAt(a.fs, path) ==> Tidy(c.fs)
    requires SeenCleared(a.fs, c.fs, a.contents, path)
    ensures Cleared(a, c, path, req)
  {
    hide Inv, Numbered, ClearedAt, Tidy, NothingLinkedAt, SeenCleared, IsDirMode;
  }

  lemma OnlyOwnerChanged(a: Inode, b: Inode)
    requires a.IsDir() && IsDirMode(b.mode) && b == a.(mode := b.mode, uid := b.uid, gid := b.gid)
    ensures SameUse(a, b) && SameData(a, b) && b.IsDir()
  {
  }

  lemma DirectoryNumber(fs: Fs, path: Path, n: nat)
    requires Inv(fs, 0) && Numbered(fs) && LooksLikeDirectory(fs, path)
    ensures WellFormed(fs.nodes) && |fs.nodes| > 0 && Find(fs.nodes, 0, path).Some?
    ensures fs.nodes[Find(fs.nodes, 0, path).value].inode == n ==> n <= RESERVED ==> n == ROOT_INODE
  {
    Shaped(fs);
    var i := Find(fs.nodes, 0, path).value;
    if i > 0 {
      assert NumberedNode(fs, i);
    }
    hide WellFormed, UniqueNames, NumberedInode, Kinds, Counts, Ownership, OwnInode;
  }

  lemma LooksAt(fs: Fs, path: Path)
    requires Numbered(fs) && LooksLikeDirectory(fs, path)
    ensures WellFormed(fs.nodes) && |fs.nodes| > 0 && Find(fs.nodes, 0, path).Some? && Find(fs.nodes, 0, path).value < |fs.nodes|
    ensures OwnInode(fs, Find(fs.nodes, 0, path).value).IsDir()
  {
    Shaped(fs);
    hide Numbered, OwnInode;
  }

  lemma LinksStay(a: Fs, b: Fs, path: Path)
    requires Numbered(a) && Numbered(b) && a.nodes == b.nodes
    ensures LinkAt(a, path) == LinkAt(b, path)
  {
  }

  lemma RedoneIs(fs: Fs, contents: seq<Content>, path: Path, req: Request)
    requires Numbered(fs) && LooksLikeDirectory(fs, path) && IsDirMode(req.mode)
    ensures AfterCreate(Seen(fs, contents), path, req) == Redone(Seen(fs, contents), path, req)
  {
    SightIs(fs, contents, path);
    SeenGet(fs, contents, path);
    hide Seen, SightAt, SightOf, Numbered, Find, Redone, MakeDirs, Add, Without;
  }

  lemma ChangedKept(a: Snapshot, n: nat, inode: Inode, path: Path, req: Request)
    requires WellFormed(a.fs.nodes) && 0 < n <= |a.fs.inodes| && IsDirMode(inode.mode) && a.fs.inodes[n - 1].IsDir()
    requires inode == a.fs.inodes[n - 1].(mode := inode.mode, uid := inode.uid, gid := inode.gid)
    requires IsDirMode(req.mode) && (req.uid.Some? || req.gid.Some?) && |a.fs.nodes| > 0 && Find(a.fs.nodes, 0, path).Some?
    requires a.fs.nodes[Find(a.fs.nodes, 0, path).value].inode == n
    ensures Kept(a, a.(fs := SetInode(a.fs, n, inode)), ChangedInode(a.fs, path, req))
  {
    SameBelowRefl(a.img, a.pos);
    var b := SetInode(a.fs, n, inode);
    forall k | 0 <= k < |a.fs.inodes| ensures FileKept(a.fs.inodes[k], b.inodes[k], k + 1 == n) {
    }
    hide SameBelow, WellFormed, Find, IsDirMode;
  }

  lemma ChangedTidy(a: Snapshot, b: Snapshot, n: nat, inode: Inode, path: Path, req: Request)
    requires Inv(a.fs, 0) && 0 < n <= |a.fs.inodes| && b.fs == SetInode(a.fs, n, inode) && Numbered(a.fs) && Numbered(b.fs)
    requires a.fs.inodes[n - 1].IsDir() && IsDirMode(inode.mode)
    requires inode == a.fs.inodes[n - 1].(mode := inode.mode, uid := inode.uid, gid := inode.gid)
    ensures KeepsTidy(a, b, path, req)
  {
    if Tidy(a.fs) {
      SetInodeDirCounts(a.fs, n, inode);
    }
    hide Inv, Numbered, DirCounts, PlainWay, NothingLinkedAt, Inode.IsDir;
  }

  lemma SeenUnderDirectory(fs: Fs, path: Path)
    requires Numbered(fs)
    ensures WellFormed(fs.nodes) && |fs.nodes| > 0
  {
    Shaped(fs);
  }

  lemma OutcomeIs(a: Snapshot, b: Snapshot, path: Path, req: Request)
    requires Numbered(a.fs) && Numbered(b.fs) && WellFormed(a.fs.nodes) && WellFormed(b.fs.nodes) && |a.fs.nodes| > 0 && |b.contents| == |b.fs.origin|
    requires Kept(a, b, ChangedInode(a.fs, path, req)) && KeepsTidy(a, b, path, req)
    requires Remade(a.fs, b.fs, path) && Grown(a.fs, b.fs, path) && LooksLikeDirectory(b.fs, path)
    requires LinkAt(a.fs, path) == LinkAt(b.fs, path)
    requires IsDirMode(req.mode) && Find(a.fs.nodes, 0, path).Some?
    requires Seen(b.fs, b.contents) == AfterCreate(Seen(a.fs, a.contents), path, req)
    ensures Outcome(a, b, path, req, true)
  {
    hide Numbered, Kept, KeepsTidy, Remade, Grown, LooksLikeDirectory, LinkAt, Seen, AfterCreate, MadeNew, Find, WellFormed, ChangedInode;
  }

  lemma OutcomeParts(a: Snapshot, b: Snapshot, path: Path, req: Request, ok: bool)
    requires Inv(a.fs, 0) && Inv(b.fs, 0) && |b.contents| == |b.fs.origin| && Outcome(a, b, path, req, ok)
    ensures Numbered(a.fs) && Numbered(b.fs) && WellFormed(a.fs.nodes) && WellFormed(b.fs.nodes) && |a.fs.nodes| > 0 && |b.fs.nodes| > 0
    ensures Kept(a, b, ChangedInode(a.fs, path, req)) && KeepsTidy(a, b, path, req)
    ensures ok ==> Remade(a.fs, b.fs, path) && Seen(b.fs, b.contents) == AfterCreate(Seen(a.fs, a.contents), path, req)
    ensures ok && IsDirMode(req.mode) ==>
      Grown(a.fs, b.fs, path) && LooksLikeDirectory(b.fs, path) && (DirectoryAt(b.fs, path) <==> !LinkAt(a.fs, path))
    ensures ok && !(IsDirMode(req.mode) && Find(a.fs.nodes, 0, path).Some?) ==> MadeNew(b, path, req)
  {
    InvParts(a.fs, 0);
    InvParts(b.fs, 0);
    hide Inv, Numbered, Kept, KeepsTidy, Remade, Grown, LooksLikeDirectory, DirectoryAt, LinkAt, Seen, AfterCreate, MadeNew, Find, WellFormed, ChangedInode;
  }

  lemma NewParts(b: Snapshot, path: Path, req: Request)
    requires Numbered(b.fs) && |b.contents| == |b.fs.origin| && MadeNew(b, path, req)
    ensures Wanted(req.mode, req.link, req.data).Ok? && NewEntry(b.fs, b.contents, path, Wanted(req.mode, req.link, req.data).value)
    ensures |b.fs.inodes| > 0 && AsAsked(b.fs.inodes[|b.fs.inodes| - 1], req.mode, req.uid, req.gid)
  {
    Shaped(b.fs);
    hide Numbered, Wanted, NewEntry, AsAsked;
  }

  lemma ParentAsks()
    ensures IsDirMode(PARENT.mode) && Wanted(PARENT.mode, PARENT.link, PARENT.data) == Ok(Directory)
  {
  }

  lemma KeptParts(a: Snapshot, b: Snapshot, n: nat)
    requires Kept(a, b, n)
    ensures a.contents <= b.contents && FilesKept(a.fs, b.fs, n) && SameBelow(a.img, b.img, a.pos) && a.pos <= b.pos
    ensures |b.fs.nodes| + |a.fs.inodes| == |a.fs.nodes| + |b.fs.inodes|
  {
    hide FilesKept, SameBelow;
  }

  lemma ClearedParts(a: Snapshot, c: Snapshot, path: Path, req: Request)
    requires Cleared(a, c, path, req)
    ensures Inv(a.fs, 0) && Inv(c.fs, 0) && Numbered(a.fs) && Numbered(c.fs) && WellFormed(a.fs.nodes) && WellFormed(c.fs.nodes)
    ensures ClearedAt(a.fs, c.fs, path) && path != [] && c.contents == a.contents
    ensures |a.fs.nodes| > 0 && |c.fs.nodes| > 0
  {
    InvParts(a.fs, 0);
    InvParts(c.fs, 0);
    hide Inv, ClearedAt, SeenCleared, Tidy, NothingLinkedAt, Numbered, WellFormed;
  }

  /** Whatever was cleared away is what the user no longer sees. */
  lemma ClearedSeen(a: Fs, c: Fs, contents: seq<Content>, path: Path, i: nat)
    requires Inv(a, 0) && Inv(c, 0) && Numbered(a) && Numbered(c) && WellFormed(a.nodes) && |a.nodes| > 0 && WellFormed(c.nodes)
    requires ClearedAt(a, c, path) && Find(a.nodes, 0, path) == Some(i)
    ensures SeenCleared(a, c, contents, path)
  {
    hide *;
    InvKinds(c, 0);
    ClearedSame(a, c, path);
    ClearSeen(a, c, contents, 0, path);
    SightIs(a, contents, path);
    SeenGet(a, contents, path);
    SeenClearedIs(a, c, contents, path);
  }

  lemma SeenClearedIs(a: Fs, c: Fs, contents: seq<Content>, path: Path)
    requires Numbered(a) && Numbered(c)
    ensures SeenCleared(a, c, contents, path) <==>
      Seen(c, contents) == if path in Seen(a, contents).names then Without(Seen(a, contents), path) else Seen(a, contents)
  {
    hide Numbered, Seen, Without;
  }

  lemma DirectoryStays(a: Fs, n: nat, inode: Inode, path: Path)
    requires Numbered(a) && LooksLikeDirectory(a, path) && 0 < n <= |a.inodes| && Numbered(SetInode(a, n, inode))
    requires a.inodes[n - 1].IsDir() && IsDirMode(inode.mode)
    ensures LooksLikeDirectory(SetInode(a, n, inode), path)
  {
    var i := Find(a.nodes, 0, path).value;
    assert i > 0 ==> NumberedNode(a, i);
  }

  lemma SameTree(a: Fs, b: Fs, path: Path)
    requires Numbered(a) && Numbered(b) && a.nodes == b.nodes
    ensures Grown(a, b, path) && Remade(a, b, path)
  {
    forall q: Path ensures GrownAt(a, b, path, q) && RemadeAt(a, b, path, q) {
    }
  }

  /** The state after the "already exists" cases let `create` go on. */
  ghost predicate Cleared(a: Snapshot, c: Snapshot, path: Path, req: Request) {
    && Inv(a.fs, 0) && Inv(c.fs, 0) && ClearedAt(a.fs, c.fs, path) && path != []
    && c.contents == a.contents && c.img == a.img && c.pos == a.pos
    && (IsDirMode(req.mode) ==> c.fs == a.fs)
    && (Tidy(a.fs) && (IsDirMode(req.mode) || NothingLinkedAt(a.fs, path)) ==> Tidy(c.fs))
    && SeenCleared(a.fs, c.fs, a.contents, path)
  }

  /** Clearing as the user sees it. */
  ghost predicate SeenCleared(a: Fs, c: Fs, contents: seq<Content>, path: Path)
    requires Numbered(a) && Numbered(c)
  {
    var v := Seen(a, contents);
    Seen(c, contents) == if path in v.names then Without(v, path) else v
  }

  lemma WayStaysPlain(a: Fs, c: Fs, path: Path)
    requires Numbered(a) && Numbered(c) && ClearedAt(a, c, path) && path != []
    ensures PlainWay(a, path) ==> PlainWay(c, ParentOf(path)) && PlainAt(c, ParentOf(path))
  {
    if PlainWay(a, path) {
      var up := ParentOf(path);
      forall k | 0 <= k <= |up| ensures PlainAt(c, up[..k]) {
        assert up[..k] == path[..k] && PlainAt(a, path[..k]);
      }
      assert up[..|up|] == up;
    }
  }

  lemma KeptTrans(a: Snapshot, b: Snapshot, c: Snapshot)
    requires Kept(a, b, 0) && Kept(b, c, 0)
    ensures Kept(a, c, 0)
  {
    FilesKeptTrans(a.fs, b.fs, c.fs);
    SameBelowTrans(a.img, b.img, c.img, a.pos, b.pos);
  }

  lemma ClearedKept(a: Snapshot, c: Snapshot, path: Path, req: Request)
    requires Cleared(a, c, path, req)
    ensures Kept(a, c, 0)
  {
    SameNodesKeepFiles(a.fs, c.fs);
    SameBelowRefl(a.img, a.pos);
  }

  /** The way to the parent is plain, and the tree tidy, if they were. */
  lemma ParentTidy(a: Snapshot, c: Snapshot, m: Snapshot, path: Path, req: Request)
    requires Cleared(a, c, path, req) && Inv(m.fs, 0) && KeepsTidy(c, m, ParentOf(path), PARENT)
    ensures Tidy(a.fs) && PlainWay(a.fs, path) && (IsDirMode(req.mode) || NothingLinkedAt(a.fs, path)) ==>
      Tidy(m.fs) && PlainAt(c.fs, ParentOf(path))
  {
    hide *;
    ClearedParts(a, c, path, req);
    InvParts(m.fs, 0);
    WayStaysPlain(a.fs, c.fs, path);
    ParentAsks();
    KeepsTidyIs(c, m, ParentOf(path), PARENT);
    ClearedTidy(a, c, path, req);
  }

  lemma KeepsTidyIs(a: Snapshot, b: Snapshot, path: Path, req: Request)
    requires Numbered(a.fs) && Numbered(b.fs) && WellFormed(a.fs.nodes)
    ensures KeepsTidy(a, b, path, req) <==>
      (Tidy(a.fs) && PlainWay(a.fs, path) && (IsDirMode(req.mode) || NothingLinkedAt(a.fs, path)) ==> Tidy(b.fs))
  {
    hide Tidy, PlainWay, NothingLinkedAt, IsDirMode, Numbered;
  }

  lemma ClearedTidy(a: Snapshot, c: Snapshot, path: Path, req: Request)
    requires Cleared(a, c, path, req) && Numbered(a.fs) && Numbered(c.fs) && WellFormed(a.fs.nodes)
    ensures Tidy(a.fs) && (IsDirMode(req.mode) || NothingLinkedAt(a.fs, path)) ==> Tidy(c.fs)
  {
    hide Tidy, NothingLinkedAt, IsDirMode, Inv, Numbered, ClearedAt, SeenCleared;
  }

  lemma ParentFailed(a: Snapshot, c: Snapshot, m: Snapshot, path: Path, req: Request)
    requires Cleared(a, c, path, req) && Inv(m.fs, 0) && |m.contents| == |m.fs.origin|
    requires Outcome(c, m, ParentOf(path), PARENT, false)
    ensures Outcome(a, m, path, req, false)
  {
    hide Tidy, NothingLinkedAt, PlainAt, Kept, Seen, Without, AfterCreate;
    ClearedKept(a, c, path, req);
    KeptTrans(a, c, m);
    ParentTidy(a, c, m, path, req);
    NoneChanged(a, c, path, req);
  }

  /** Once something is made anew, no inode changes its mode or owner. */
  lemma NoneChanged(a: Snapshot, c: Snapshot, path: Path, req: Request)
    requires Cleared(a, c, path, req)
    ensures WellFormed(a.fs.nodes) && ChangedInode(a.fs, path, req) == 0
    ensures IsDirMode(req.mode) ==> !LinkAt(a.fs, path) && Find(a.fs.nodes, 0, path).None?
  {
    assert path <= path;
    hide Kinds, Counts, Ownership, SeenCleared, Tidy;
  }

  /** With the parent made and the path cleared, the slot is free. */
  lemma SlotAfterParent(a: Fs, c: Fs, m: Fs, path: Path, p: nat)
    requires Numbered(a) && Numbered(c) && Numbered(m) && ClearedAt(a, c, path) && path != []
    requires Grown(c, m, ParentOf(path)) && LooksLikeDirectory(m, ParentOf(path)) && Find(m.nodes, 0, ParentOf(path)) == Some(p)
    ensures FreeSlot(m, p, Basename(path))
  {
    hide *;
    Shaped(a);
    Shaped(c);
    Shaped(m);
    IsDirAt(m, ParentOf(path), p);
    NotYetThere(a, c, m, path);
    SlotOf(m, path, p);
  }

  lemma IsDirAt(fs: Fs, path: Path, p: nat)
    requires Numbered(fs) && LooksLikeDirectory(fs, path) && Find(fs.nodes, 0, path) == Some(p)
    ensures p < |fs.nodes| && OwnInode(fs, p).IsDir()
  {
  }

  lemma NotYetThere(a: Fs, c: Fs, m: Fs, path: Path)
    requires WellFormed(a.nodes) && WellFormed(c.nodes) && WellFormed(m.nodes) && ClearedAt(a, c, path) && path != []
    requires Grown(c, m, ParentOf(path))
    ensures Find(m.nodes, 0, path) == None
  {
    hide SameNodes, KidsOk;
    assert Find(c.nodes, 0, path) == None && GrownAt(c, m, ParentOf(path), path);
  }

  /** A directory without an entry of that name has a slot for it. */
  lemma SlotOf(fs: Fs, path: Path, p: nat)
    requires Numbered(fs) && path != [] && Find(fs.nodes, 0, ParentOf(path)) == Some(p) && p < |fs.nodes|
    requires Find(fs.nodes, 0, path) == None && OwnInode(fs, p).IsDir()
    ensures FreeSlot(fs, p, Basename(path))
  {
    FindIff(fs.nodes, ParentOf(path), p);
    assert path == ParentOf(path) + [Basename(path)];
    FindSnoc(fs.nodes, ParentOf(path), Basename(path));
    hide UniqueNames, NumberedNode, NumberedInode, IsDirMode, Attached;
  }

  lemma ParentIsThere(a: Snapshot, c: Snapshot, m: Snapshot, path: Path, req: Request)
    requires Cleared(a, c, path, req) && Inv(m.fs, 0) && |m.contents| == |m.fs.origin|
    requires Outcome(c, m, ParentOf(path), PARENT, true)
    ensures WellFormed(m.fs.nodes) && |m.fs.nodes| > 0 && Find(m.fs.nodes, 0, ParentOf(path)).Some?
    ensures FreeSlot(m.fs, Find(m.fs.nodes, 0, ParentOf(path)).value, Basename(path))
  {
    hide *;
    ClearedParts(a, c, path, req);
    OutcomeParts(c, m, ParentOf(path), PARENT, true);
    ParentAsks();
    LooksAt(m.fs, ParentOf(path));
    SlotAfterParent(a.fs, c.fs, m.fs, path, Find(m.fs.nodes, 0, ParentOf(path)).value);
  }

  /** The parent is no hard link if the way to it was plain: it was there before,
      or has just been made. */
  lemma ParentPlain(c: Snapshot, m: Snapshot, path: Path, p: nat)
    requires Inv(c.fs, 0) && Inv(m.fs, 0) && |m.contents| == |m.fs.origin|
    requires Outcome(c, m, path, PARENT, true) && Find(m.fs.nodes, 0, path) == Some(p) && PlainAt(c.fs, path)
    ensures m.fs.nodes[p].link == None
  {
    hide *;
    ParentMade(c, m, path);
    InvNumbered(c.fs, 0);
    InvNumbered(m.fs, 0);
    PlainStays(c.fs, m.fs, m.contents, path, p);
  }

  lemma ParentMade(c: Snapshot, m: Snapshot, path: Path)
    requires Inv(c.fs, 0) && Inv(m.fs, 0) && |m.contents| == |m.fs.origin| && Outcome(c, m, path, PARENT, true)
    ensures Numbered(c.fs) && Numbered(m.fs) && Grown(c.fs, m.fs, path) && FilesKept(c.fs, m.fs, 0)
    ensures Find(c.fs.nodes, 0, path).Some? || NewEntry(m.fs, m.contents, path, Directory)
  {
    hide *;
    OutcomeParts(c, m, path, PARENT, true);
    ParentAsks();
    ParentUnchanged(c.fs, path);
    KeptParts(c, m, 0);
    if Find(c.fs.nodes, 0, path).None? {
      NewParts(m, path, PARENT);
    }
  }

  lemma PlainStays(a: Fs, b: Fs, contents: seq<Content>, path: Path, p: nat)
    requires Numbered(a) && Numbered(b) && Grown(a, b, path) && FilesKept(a, b, 0) && PlainAt(a, path)
    requires Find(b.nodes, 0, path) == Some(p) && p < |b.nodes| && |contents| == |b.origin|
    requires Find(a.nodes, 0, path).Some? || NewEntry(b, contents, path, Directory)
    ensures b.nodes[p].link == None
  {
    hide NumberedNode, NumberedInode, UniqueNames, FileKept;
    if Find(a.nodes, 0, path).Some? {
      assert GrownAt(a, b, path, path);
      assert NodeKept(a.nodes[p], b.nodes[p]);
    }
  }

  lemma RemadeOverall(a: Fs, c: Fs, m: Fs, b: Fs, path: Path)
    requires Numbered(a) && Numbered(c) && Numbered(m) && Numbered(b) && ClearedAt(a, c, path) && path != []
    requires Grown(c, m, ParentOf(path)) && Grown(m, b, path)
    ensures Remade(a, b, path) && (a == c ==> Grown(a, b, path))
  {
    forall q: Path ensures RemadeAt(a, b, path, q) && (a == c ==> GrownAt(a, b, path, q)) {
      assert GrownAt(c, m, ParentOf(path), q) && GrownAt(m, b, path, q);
    }
  }

  /** What `AddEntry` hands back. */
  ghost predicate Added(m: Snapshot, b: Snapshot, p: nat, path: Path, req: Request, ok: bool)
    requires Numbered(m.fs) && Numbered(b.fs) && |b.contents| == |b.fs.origin| && p < |m.fs.nodes|
  {
    && Kept(m, b, 0)
    && (Tidy(m.fs) && m.fs.nodes[p].link == None ==> Tidy(b.fs))
    && (ok ==>
        && Grown(m.fs, b.fs, path) && MadeNew(b, path, req)
        && (IsDirMode(req.mode) ==> LooksLikeDirectory(b.fs, path) && DirectoryAt(b.fs, path))
        && Wanted(req.mode, req.link, req.data).Ok?
        && Seen(b.fs, b.contents)
           == Add(Seen(m.fs, m.contents), path, Wanted(req.mode, req.link, req.data).value, req.mode, req.uid, req.gid))
  }

  /** Clearing, making the parents, and adding the entry, taken together. */
  lemma Assembled(a: Snapshot, c: Snapshot, m: Snapshot, b: Snapshot, path: Path, p: nat, req: Request, ok: bool)
    requires Cleared(a, c, path, req) && Inv(m.fs, 0) && |m.contents| == |m.fs.origin|
    requires Inv(b.fs, 0) && |b.contents| == |b.fs.origin|
    requires Outcome(c, m, ParentOf(path), PARENT, true)
    requires Find(m.fs.nodes, 0, ParentOf(path)) == Some(p) && Added(m, b, p, path, req, ok)
    ensures Outcome(a, b, path, req, ok)
  {
    hide Tidy, NothingLinkedAt, PlainAt, Kept, Grown, Remade, MadeNew, LooksLikeDirectory, DirectoryAt, LinkAt, ClearedAt, Kinds, Counts, Ownership,
      Seen, AfterCreate, Add, Without, SeenCleared, ChangedInode, PlainWay;
    assert IsDirMode(DIR_0755);
    ClearedKept(a, c, path, req);
    NoneChanged(a, c, path, req);
    ParentUnchanged(c.fs, ParentOf(path));
    KeptTrans(a, c, m);
    KeptTrans(a, m, b);
    ParentTidy(a, c, m, path, req);
    if PlainAt(c.fs, ParentOf(path)) {
      ParentPlain(c, m, ParentOf(path), p);
    }
    if ok {
      RemadeOverall(a.fs, c.fs, m.fs, b.fs, path);
      SeenOverall(a, c, m, b, path, req);
    }
  }

  lemma ParentUnchanged(fs: Fs, path: Path)
    requires WellFormed(fs.nodes)
    ensures ChangedInode(fs, path, PARENT) == 0
  {
  }

  /** What the user sees of the three steps together. */
  lemma SeenOverall(a: Snapshot, c: Snapshot, m: Snapshot, b: Snapshot, path: Path, req: Request)
    requires Numbered(a.fs) && Numbered(c.fs) && Numbered(m.fs) && Numbered(b.fs) && c.contents == a.contents && path != []
    requires SeenCleared(a.fs, c.fs, a.contents, path) && (IsDirMode(req.mode) ==> Find(a.fs.nodes, 0, path).None?)
    requires Seen(m.fs, m.contents) == AfterCreate(Seen(c.fs, c.contents), ParentOf(path), PARENT)
    requires Wanted(req.mode, req.link, req.data).Ok?
    requires Seen(b.fs, b.contents)
          == Add(Seen(m.fs, m.contents), path, Wanted(req.mode, req.link, req.data).value, req.mode, req.uid, req.gid)
    ensures Seen(b.fs, b.contents) == AfterCreate(Seen(a.fs, a.contents), path, req)
  {
    hide *;
    RootNode(c.fs);
    SightIs(c.fs, c.contents, []);
    SeenGet(c.fs, c.contents, []);
    SightIs(a.fs, a.contents, path);
    SeenGet(a.fs, a.contents, path);
    ParentsAreMade(Seen(c.fs, c.contents), ParentOf(path));
    SeenClearedIs(a.fs, c.fs, a.contents, path);
    CreatedIs(Seen(a.fs, a.contents), path, req);
  }

  /** Asking for the parent makes it with all its parents, or leaves it as it is. */
  lemma ParentsAreMade(v: Volume, path: Path)
    requires [] in v.names
    ensures AfterCreate(v, path, PARENT) == MakeDirs(v, path)
  {
    assert IsDirMode(DIR_0755);
    if path in v.names {
      GetRedone(v, path, PARENT, path);
    }
    hide Redone, Without, IsDirMode;
  }

  lemma CreatedIs(v: Volume, path: Path, req: Request)
    requires !(IsDirMode(req.mode) && path in v.names) && Wanted(req.mode, req.link, req.data).Ok?
    ensures AfterCreate(v, path, req)
         == Add(MakeDirs(if path in v.names then Without(v, path) else v, ParentOf(path)), path,
                Wanted(req.mode, req.link, req.data).value, req.mode, req.uid, req.gid)
  {
    hide Redone, Without, IsDirMode, Add, MakeDirs;
  }

  lemma AttachCounts(fs: Fs, p: nat, name: Name, inode: Inode, blocks: Option<BlockRange>)
    requires Numbered(fs) && p < |fs.nodes|
    ensures |Attach(fs, p, name, inode, blocks).nodes| == |fs.nodes| + 1 && |Attach(fs, p, name, inode, blocks).inodes| == |fs.inodes| + 1
  {
    hide Numbered;
  }

  lemma NotRegistered(m: Snapshot, b: Snapshot, p: nat, path: Path, req: Request)
    requires Numbered(m.fs) && |m.contents| == |m.fs.origin| && p < |m.fs.nodes|
    requires b.fs == m.fs && b.contents == m.contents && SameBelow(m.img, b.img, m.pos) && m.pos <= b.pos
    ensures Added(m, b, p, path, req, false)
  {
  }

  lemma EntryRegistered(m: Snapshot, b: Snapshot, p: nat, path: Path, req: Request)
    requires |b.fs.nodes| == |m.fs.nodes| + 1 && |b.fs.inodes| == |m.fs.inodes| + 1
    requires Inv(m.fs, 0) && Inv(b.fs, 0) && |b.contents| == |b.fs.origin| && p < |m.fs.nodes|
    requires m.contents <= b.contents && SameBelow(m.img, b.img, m.pos) && m.pos <= b.pos
    requires Wanted(req.mode, req.link, req.data).Ok?
    requires Grown(m.fs, b.fs, path) && FilesKept(m.fs, b.fs, 0)
    requires Seen(b.fs, b.contents)
          == Add(Seen(m.fs, m.contents), path, Wanted(req.mode, req.link, req.data).value, req.mode, req.uid, req.gid)
    requires NewEntry(b.fs, b.contents, path, Wanted(req.mode, req.link, req.data).value)
    requires Inherits(OwnInode(m.fs, p), b.fs.inodes[|b.fs.inodes| - 1], req.mode, req.uid, req.gid)
    requires Tidy(m.fs) && m.fs.nodes[p].link == None ==> Tidy(b.fs)
    ensures Added(m, b, p, path, req, true)
  {
    hide Grown, FilesKept, Tidy, NewEntry;
    AddedAsAsked(m.fs, b.fs, p, b.contents, path, req.mode, req.link, req.data, req.uid, req.gid);
  }

  /** The new entry as the user sees it. */
  lemma EntrySeen(a: Fs, b: Fs, path: Path, p: nat, inode: Inode, blocks: Option<BlockRange>, contents: seq<Content>, req: Request)
    requires Inv(a, 0) && Inv(b, 0) && Numbered(a) && WellFormed(a.nodes) && |a.nodes| > 0 && path != [] && p < |a.nodes|
    requires Find(a.nodes, 0, ParentOf(path)) == Some(p) && FreeSlot(a, p, Basename(path)) && |contents| == |a.origin|
    requires b == Attach(a, p, Basename(path), inode, blocks) && Wanted(req.mode, req.link, req.data).Ok?
    requires Inherits(OwnInode(a, p), inode, req.mode, req.uid, req.gid)
    ensures Numbered(b)
    ensures Seen(b, contents + [Wanted(req.mode, req.link, req.data).value])
         == Add(Seen(a, contents), path, Wanted(req.mode, req.link, req.data).value, req.mode, req.uid, req.gid)
  {
    hide *;
    InvParts(b, 0);
    InheritsIs(OwnInode(a, p), inode, req);
    forall q: Path ensures Find(b.nodes, 0, q) == if q == path then Some(|a.nodes|) else Find(a.nodes, 0, q) {
      EntryFind(a, path, p, inode, blocks, q);
    }
    AttachSeen(a, p, path, inode, blocks, contents, Wanted(req.mode, req.link, req.data).value, req.mode, req.uid, req.gid);
  }

  lemma InheritsIs(parent: Inode, inode: Inode, req: Request)
    requires Inherits(parent, inode, req.mode, req.uid, req.gid)
    ensures inode.mode == (if IsLinkMode(req.mode) then WithAllPerms(req.mode) else req.mode)
    ensures inode.uid == (if req.uid.Some? then req.uid.value else parent.uid)
    ensures inode.gid == (if req.gid.Some? then req.gid.value else parent.gid)
  {
  }

  lemma EntryFind(a: Fs, path: Path, p: nat, inode: Inode, blocks: Option<BlockRange>, q: Path)
    requires Numbered(a) && WellFormed(a.nodes) && |a.nodes| > 0 && path != [] && p < |a.nodes|
    requires Find(a.nodes, 0, ParentOf(path)) == Some(p) && FreeSlot(a, p, Basename(path))
    ensures WellFormed(Attach(a, p, Basename(path), inode, blocks).nodes) && |Attach(a, p, Basename(path), inode, blocks).nodes| == |a.nodes| + 1
    ensures Find(Attach(a, p, Basename(path), inode, blocks).nodes, 0, q) == if q == path then Some(|a.nodes|) else Find(a.nodes, 0, q)
  {
    assert path == ParentOf(path) + [Basename(path)];
    FindAfterAdd(a, p, NewNode(|a.inodes| + 1, Basename(path), blocks), ParentOf(path), q);
    hide Numbered, FreeSlot, WellFormed, Find;
  }

  lemma AddedAsAsked(a: Fs, b: Fs, p: nat, contents: seq<Content>, path: Path, mode: nat, link: Option<seq<byte>>, data: Option<seq<byte>>,
                     uid: Option<nat>, gid: Option<nat>)
    requires Inv(a, 0) && p < |a.nodes| && Inv(b, 0) && |contents| == |b.origin| && Wanted(mode, link, data).Ok?
    requires NewEntry(b, contents, path, Wanted(mode, link, data).value)
    requires Inherits(OwnInode(a, p), b.inodes[|b.inodes| - 1], mode, uid, gid)
    ensures AsAsked(b.inodes[|b.inodes| - 1], mode, uid, gid)
    ensures IsDirMode(mode) ==> LooksLikeDirectory(b, path) && DirectoryAt(b, path)
  {
  }

  /** The new inode's attributes: as asked for, the owner inherited from the
      parent where none was given; a symlink is open to all. */
  predicate Inherits(parent: Inode, inode: Inode, mode: nat, uid: Option<nat>, gid: Option<nat>) {
    && inode.mode == (if IsLinkMode(mode) then WithAllPerms(mode) else mode)
    && inode.uid == (if uid.Some? then uid.value else parent.uid)
    && inode.gid == (if gid.Some? then gid.value else parent.gid)
    && inode.links == (if IsDirMode(mode) then 2 else 1)
  }

  /** Moving the cursor forward changes nothing that is stored. */
  lemma MovedUp(fs: Fs, contents: seq<Content>, was: seq<byte>, img: seq<byte>, limit: nat, limit': nat, first: nat)
    requires Numbered(fs) && OnDiskOk(fs, contents, was, limit, first) && SameBelow(was, img, limit) && limit <= limit'
    ensures OnDiskOk(fs, contents, img, limit', first)
  {
    hide Numbered;
    OnDiskFollows(fs, fs, contents, was, img, limit, limit', first);
  }

  /** A new entry keeps everything that was, and is found under its path. */
  lemma EntryAdded(a: Fs, path: Path, p: nat, inode: Inode, blocks: Option<BlockRange>, contents: seq<Content>, c: Content,
                   was: seq<byte>, img: seq<byte>, limit: nat, limit': nat, first: nat)
    requires Inv(a, 0) && path != [] && Canonical(path) && FreshCount(inode)
    requires Find(a.nodes, 0, ParentOf(path)) == Some(p) && FreeSlot(a, p, Basename(path)) && OwnInode(a, p).links < MAX_LINKS
    requires OnDiskOk(a, contents, was, limit, first) && SameBelow(was, img, limit) && limit <= limit'
    requires NewStored(a, inode, blocks, c, img, limit, limit', first)
    ensures var b := Attach(a, p, Basename(path), inode, blocks);
      && Inv(b, 0) && OnDiskOk(b, contents + [c], img, limit', first)
      && Grown(a, b, path) && FilesKept(a, b, 0)
      && |contents + [c]| == |b.origin| && NewEntry(b, contents + [c], path, c)
      && (Tidy(a) && a.nodes[p].link == None ==> Tidy(b))
  {
    hide *;
    InvNumbered(a, 0);
    BasenameIsValid(path);
    SlotExists(a, ParentOf(path), p);
    AttachKeeps(a, p, Basename(path), inode, blocks);
    InvNumbered(Attach(a, p, Basename(path), inode, blocks), 0);
    SlotLinks(a, p, Basename(path));
    AttachStores(a, p, Basename(path), inode, blocks, contents, c, was, img, limit, limit', first);
    EntryFound(a, path, p, inode, blocks, contents, c, was, limit, first);
    EntryTidy(a, path, p, inode, blocks);
  }

  /** An attached directory has at least two links. */
  lemma SlotLinks(a: Fs, p: nat, name: Name)
    requires Inv(a, 0) && FreeSlot(a, p, name) && OwnInode(a, p).links < MAX_LINKS
    ensures OwnInode(a, p).links >= 2 && OwnInode(a, p).links + 1 < 0x1_0000
  {
    if p > 0 {
      assert NumberedNode(a, p) && KindOk(a, p);
      assert CountOk(a, 0, Target(a.nodes[p])) || a.nodes[p].link.Some?;
    }
  }

  lemma EntryFound(a: Fs, path: Path, p: nat, inode: Inode, blocks: Option<BlockRange>, contents: seq<Content>, c: Content,
                   was: seq<byte>, limit: nat, first: nat)
    requires Numbered(a) && path != [] && Find(a.nodes, 0, ParentOf(path)) == Some(p) && FreeSlot(a, p, Basename(path))
    requires Numbered(Attach(a, p, Basename(path), inode, blocks))
    requires OnDiskOk(a, contents, was, limit, first)
    ensures var b := Attach(a, p, Basename(path), inode, blocks);
      && Grown(a, b, path) && FilesKept(a, b, 0)
      && |contents + [c]| == |b.origin| && NewEntry(b, contents + [c], path, c)
  {
    hide *;
    var b := Attach(a, p, Basename(path), inode, blocks);
    RootNode(a);
    RootNode(b);
    SlotExists(a, ParentOf(path), p);
    SlotIsNew(a, path, p);
    NumberedAt(a, p);
    AttachIs(a, p, Basename(path), inode, blocks);
    OnDiskCount(a, contents, was, limit, first);
    forall q: Path ensures GrownAt(a, b, path, q) {
      EntryFind(a, path, p, inode, blocks, q);
      GrownByOne(a, b, path, q);
    }
    GrownIs(a, b, path);
    EntryFind(a, path, p, inode, blocks, path);
    EntryKept(a, p, Basename(path), inode, blocks);
    EntryNew(a, p, path, inode, blocks, contents, c);
  }

  lemma GrownByOne(a: Fs, b: Fs, path: Path, q: Path)
    requires WellFormed(a.nodes) && WellFormed(b.nodes) && |a.nodes| > 0 && |b.nodes| > 0 && Find(a.nodes, 0, path) == None
    requires Find(b.nodes, 0, q) == if q == path then Some(|a.nodes|) else Find(a.nodes, 0, q)
    ensures GrownAt(a, b, path, q)
  {
    hide Find, WellFormed;
  }

  lemma GrownIs(a: Fs, b: Fs, path: Path)
    requires WellFormed(a.nodes) && WellFormed(b.nodes) && forall q: Path :: GrownAt(a, b, path, q)
    ensures Grown(a, b, path)
  {
    hide GrownAt, WellFormed;
  }

  lemma EntryKept(a: Fs, p: nat, name: Name, inode: Inode, blocks: Option<BlockRange>)
    requires Numbered(a) && FreeSlot(a, p, name)
    ensures FilesKept(a, Attach(a, p, name, inode, blocks), 0)
  {
    var b := Attach(a, p, name, inode, blocks);
    forall k | 0 <= k < |a.inodes| ensures FileKept(a.inodes[k], b.inodes[k], false) {
      AttachInode(a, p, name, inode, blocks, k + 1);
    }
    hide Numbered, IsDirMode, InodeStep;
  }

  lemma EntryNew(a: Fs, p: nat, path: Path, inode: Inode, blocks: Option<BlockRange>, contents: seq<Content>, c: Content)
    requires Numbered(a) && p < |a.nodes| && |contents| == |a.origin| && Numbered(Attach(a, p, Basename(path), inode, blocks))
    requires WellFormed(Attach(a, p, Basename(path), inode, blocks).nodes)
    requires Find(Attach(a, p, Basename(path), inode, blocks).nodes, 0, path) == Some(|a.nodes|)
    ensures |contents + [c]| == |Attach(a, p, Basename(path), inode, blocks).origin|
    ensures NewEntry(Attach(a, p, Basename(path), inode, blocks), contents + [c], path, c)
  {
    var b := Attach(a, p, Basename(path), inode, blocks);
    assert b.nodes[|a.nodes|].link == None && b.nodes[|a.nodes|].inode == |a.inodes| + 1 && b.nodes[|a.nodes|].children == [];
    hide Numbered, WellFormed, Find, Attach;
  }

  lemma AttachIs(a: Fs, p: nat, name: Name, inode: Inode, blocks: Option<BlockRange>)
    requires Numbered(a) && p < |a.nodes| && 0 < a.nodes[p].inode <= |a.inodes|
    ensures NewNode(|a.inodes| + 1, name, blocks).children == []
    ensures var k := a.nodes[p].inode - 1;
      var inodes := if inode.IsDir() then a.inodes[k := a.inodes[k].(links := a.inodes[k].links + 1)] else a.inodes;
      Attach(a, p, name, inode, blocks)
      == Fs(WithChild(a.nodes, p, NewNode(|a.inodes| + 1, name, blocks)), inodes + [inode], a.deleted, a.deferred, a.origin + [|a.nodes|])
  {
    hide Numbered, WithChild, Inode.IsDir;
  }

  lemma AttachedLast(a: Fs, p: nat, name: Name, inode: Inode, blocks: Option<BlockRange>)
    requires Numbered(a) && p < |a.nodes|
    ensures var b := Attach(a, p, name, inode, blocks); |b.inodes| > 0 && b.inodes[|b.inodes| - 1] == inode
  {
    hide Attach;
  }

  /** A path whose slot is free leads nowhere yet. */
  lemma SlotIsNew(a: Fs, path: Path, p: nat)
    requires Numbered(a) && path != [] && Find(a.nodes, 0, ParentOf(path)) == Some(p) && FreeSlot(a, p, Basename(path))
    ensures Find(a.nodes, 0, path) == None
  {
    assert path == ParentOf(path) + [Basename(path)];
    FindSnoc(a.nodes, ParentOf(path), Basename(path));
  }

  lemma EntryTidy(a: Fs, path: Path, p: nat, inode: Inode, blocks: Option<BlockRange>)
    requires Inv(a, 0) && FreeSlot(a, p, Basename(path)) && FreshCount(inode)
    requires Numbered(Attach(a, p, Basename(path), inode, blocks))
    ensures Tidy(a) && a.nodes[p].link == None ==> Tidy(Attach(a, p, Basename(path), inode, blocks))
  {
    if Tidy(a) && a.nodes[p].link == None {
      AttachDirCounts(a, p, Basename(path), inode, blocks);
    }
  }

  /** The cases of `Wanted`, for requests that make sense. */
  lemma WantedIs(mode: nat, link: Option<seq<byte>>, data: Option<seq<byte>>)
    requires Sensible(mode, link)
    ensures var w, d := Wanted(mode, link, data), if data.Some? then data.value else [];
      && (IsDirMode(mode) ==> w == Ok(Directory) && !IsLinkMode(mode) && ContentBlocks(Directory) == 0)
      && (!IsDirMode(mode) && link.Some? ==> w == Ok(Symlink(link.value)) && IsLinkMode(mode) && |link.value| <= MAX_FILE_BLOCKS * 4096)
      && (!IsDirMode(mode) && link.None? ==>
            && (IsRegMode(mode) ==>
                  !IsLinkMode(mode) && w == if |d| > MAX_FILE_BLOCKS * 4096 then Err(FileTooBig) else Ok(File(d)))
            && (!IsRegMode(mode) ==> w == Err(UnsupportedFiletype)))
  {
  }

  lemma DirectoryStored(img: seq<byte>, pos: nat, inode: Inode, mode: nat)
    requires IsDirMode(mode) && inode.mode == mode && inode.size == 0 && inode.block == Zeros(60) && inode.blocksLo == 0
    requires inode.flags == HUGE_FILE
    ensures Stored(img, pos, inode, Directory, [])
  {
  }

  lemma RangeHigher(blocks: Option<BlockRange>, pos: nat, start: nat, pos': nat)
    requires pos <= start && (blocks.Some? ==> RangeAbove(blocks, start, pos'))
    ensures RangeAbove(blocks, pos, pos')
  {
    hide Reach;
  }

  lemma StoredSmall(img: seq<byte>, pos: nat, inode: Inode, c: Content, ranges: seq<BlockRange>)
    requires Stored(img, pos, inode, c, ranges)
    ensures inode.size < 0x1_0000_0000_0000_0000 && inode.blocksLo < 0x1_0000_0000 && |inode.block| == 60
  {
    ChargeSmall(HUGE_FILE, inode.size);
    ChargeSmall(0, inode.size);
    hide BlocksCharged, TreeStored, AtBelow, BlocksFor, TypeBits;
  }

  lemma ChargeSmall(flags: nat, bytes: nat)
    ensures bytes <= MAX_FILE_BLOCKS * 4096 ==> BlocksCharged(flags, bytes) < 0x1_0000_0000
  {
    if bytes <= MAX_FILE_BLOCKS * 4096 {
      assert BlocksFor(bytes) <= MAX_FILE_BLOCKS;
      TreeIsShallow(BlocksFor(bytes));
    }
    hide BlocksFor, TreeBlocks, HasFlag;
  }

  lemma EntryMade(parent: Inode, blank: Inode, child: Inode, blocks: Option<BlockRange>, mode: nat, c: Content,
                  uid: Option<nat>, gid: Option<nat>, img: seq<byte>, pos: nat)
    requires parent.Fits() && Owned(uid, gid) && mode < 0x1_0000
    requires blank == Inode(mode, if uid.Some? then uid.value else parent.uid, if gid.Some? then gid.value else parent.gid,
                            0, 1, 0, HUGE_FILE, EXTRA_ISIZE, Zeros(60))
    requires child == blank.(mode := if IsLinkMode(mode) then WithAllPerms(mode) else mode, links := if IsDirMode(mode) then 2 else 1,
                             size := child.size, block := child.block, flags := child.flags, blocksLo := child.blocksLo)
    requires child.flags in {0, EXTENTS, HUGE_FILE, WithFlag(HUGE_FILE, EXTENTS)}
    requires Stored(img, pos, child, c, if blocks.Some? then [blocks.value] else [])
    ensures child.Fits() && FreshCount(child) && Inherits(parent, child, mode, uid, gid)
  {
    StoredSmall(img, pos, child, c, if blocks.Some? then [blocks.value] else []);
    hide Inode.Fits, Stored, WithFlag, IsLinkMode, IsDirMode;
    MadeFits(parent, child, mode, uid, gid);
  }

  lemma MadeFits(parent: Inode, inode: Inode, mode: nat, uid: Option<nat>, gid: Option<nat>)
    requires parent.Fits() && Owned(uid, gid) && mode < 0x1_0000
    requires Inherits(parent, inode, mode, uid, gid) && inode.extraIsize == EXTRA_ISIZE
    requires inode.size < 0x1_0000_0000_0000_0000 && inode.blocksLo < 0x1_0000_0000 && |inode.block| == 60
    requires inode.flags in {0, EXTENTS, HUGE_FILE, WithFlag(HUGE_FILE, EXTENTS)}
    ensures inode.Fits() && FreshCount(inode)
  {
    AllPermsKeepsType(mode);
  }

  lemma FileStored(img: seq<byte>, was: seq<byte>, pos: nat, pos': nat, inode: Inode, d: seq<byte>, blocks: Option<BlockRange>)
    requires JustStored(img, was, pos, pos', inode.block, d, blocks)
    requires IsRegMode(inode.mode) && inode.size == |d| <= MAX_FILE_BLOCKS * 4096 && inode.blocksLo == BlocksCharged(HUGE_FILE, |d|)
    ensures Stored(img, pos', inode, File(d), if blocks.Some? then [blocks.value] else [])
    ensures RangeAbove(blocks, pos, pos') && SameBelow(was, img, pos) && pos <= pos'
    ensures ContentBlocks(File(d)) == DataBlocks(|d|)
  {
    hide DataStored, SameBelow, Reach, BlocksCharged;
  }

  /** What `AddEntry` has built is what `Register` needs. */
  lemma StoredNew(a: Fs, inode: Inode, blocks: Option<BlockRange>, c: Content, img: seq<byte>, limit: nat, limit': nat, first: nat)
    requires inode.Fits() && Stored(img, limit', inode, c, if blocks.Some? then [blocks.value] else [])
    requires RangeAbove(blocks, limit, limit') && first * 4096 <= limit
    ensures NewStored(a, inode, blocks, c, img, limit, limit', first)
  {
  }

  lemma SameBelowRefl(img: seq<byte>, limit: nat)
    ensures SameBelow(img, img, limit)
  {
  }

  lemma MovedUpInv(a: Snapshot, img: seq<byte>, limit: nat, first: nat)
    requires Inv(a.fs, 0) && OnDiskOk(a.fs, a.contents, a.img, a.pos, first) && SameBelow(a.img, img, a.pos) && a.pos <= limit
    ensures OnDiskOk(a.fs, a.contents, img, limit, first)
  {
    MovedUp(a.fs, a.contents, a.img, img, a.pos, limit, first);
  }

  /** A range written between cursor `pos` and cursor `pos'`. */
  predicate RangeAbove(blocks: Option<BlockRange>, pos: nat, pos': nat) {
    blocks.Some? ==>
      && pos <= blocks.value.start * 4096 && blocks.value.start < blocks.value.end
      && Reach(blocks.value) * 4096 <= pos'
  }

  function ChildNames(nodes: Nodes, kids: seq<nat>): (names: seq<Name>)
    requires InRange(nodes, kids)
    ensures |names| == |kids| && forall k :: 0 <= k < |kids| ==> names[k] == nodes[kids[k]].name
  {
    seq(|kids|, k requires 0 <= k < |kids| => nodes[kids[k]].name)
  }

  /** While its children are being removed, a node stays where it was. */
  lemma {:induction false} KeepsPlace(a: Fs, b: Fs, v: nat, k: nat, i: nat)
    requires Numbered(a) && Numbered(b) && v < |a.nodes| && k <= |a.nodes[v].children| && KidsGone(a, b, v, k)
    requires i < |a.nodes| && Attached(a.nodes, i) && (i == v || !Under(a.nodes, v, i))
    ensures Attached(b.nodes, i)
    decreases i
  {
    if i > 0 {
      var p := a.nodes[i].parent.value;
      if Under(a.nodes, v, p) && i == v {
        UnderIsAfter(a.nodes, v, p);
      }
      KeepsPlace(a, b, v, k, p);
      FirstIsBelow(a.nodes, v, k, p);
    }
  }

  lemma FirstIsBelow(nodes: Nodes, v: nat, k: nat, i: nat)
    requires WellFormed(nodes) && v < |nodes| && k <= |nodes[v].children| && i < |nodes|
    ensures UnderFirst(nodes, v, k, i) ==> i != v && Under(nodes, v, i)
  {
    if UnderFirst(nodes, v, k, i) {
      var j :| 0 <= j < k && Under(nodes, nodes[v].children[j], i);
      assert KidsOk(nodes, v);
      UnderIsAfter(nodes, nodes[v].children[j], i);
      UnderTrans(nodes, v, nodes[v].children[j], i);
    }
  }

  /** The next child is found under its own path. */
  lemma NextKidFound(a: Fs, b: Fs, v: nat, k: nat, path: Path)
    requires Numbered(a) && Numbered(b) && v < |a.nodes| && k < |a.nodes[v].children| && KidsGone(a, b, v, k)
    requires Find(a.nodes, 0, path) == Some(v)
    ensures var c := a.nodes[v].children[k];
      v < c < |a.nodes| && Find(b.nodes, 0, path + [a.nodes[c].name]) == Some(c)
  {
    PathOfLookup(a.nodes, path);
    KeepsPlace(a, b, v, k, v);
    SamePath(a.nodes, b.nodes, v);
    LookupOfPath(b.nodes, v);
    NextKid(a, b, v, k);
    FindSnoc(b.nodes, path, a.nodes[a.nodes[v].children[k]].name);
  }

  /** An emptied directory is still found, and has nothing below it. */
  lemma StillThere(a: Fs, b: Fs, extra: nat, v: nat, path: Path)
    requires Inv(a, extra) && Inv(b, extra) && v < |a.nodes| && Emptied(a, b, v) && Find(a.nodes, 0, path) == Some(v)
    ensures Find(b.nodes, 0, path) == Some(v)
    ensures v > 0 ==> Removable(b, v) && Attached(a.nodes, v)
  {
    PathOfLookup(a.nodes, path);
    EmptiedAttached(a, b, v, v);
    SamePath(a.nodes, b.nodes, v);
    LookupOfPath(b.nodes, v);
    assert Under(a.nodes, v, v);
  }

  lemma NamesAreValid(fs: Fs, extra: nat, contents: seq<Content>, img: seq<byte>, limit: nat, first: nat)
    requires Inv(fs, extra) && OnDiskOk(fs, contents, img, limit, first)
    ensures forall i :: 0 < i < |fs.nodes| ==> ValidName(fs.nodes[i].name)
  {
  }

  /** Detaching the emptied node completes the removal and keeps everything. */
  lemma AfterDetach(a: Fs, b: Fs, c: Fs, v: nat, extra: nat, contents: seq<Content>, img: seq<byte>, limit: nat, first: nat)
    requires Inv(a, extra) && Inv(b, extra) && v < |a.nodes| && Emptied(a, b, v)
    requires v > 0 ==> Removable(b, v) && c == Detach(b, v)
    requires v == 0 ==> c == RootDropped(b)
    requires OnDiskOk(b, contents, img, limit, first)
    ensures Inv(c, extra) && OnDiskOk(c, contents, img, limit, first)
    ensures if v == 0 then Emptied(a, c, v) else Unlinked(a, c, v)
  {
    if v > 0 {
      DetachKeeps(b, extra, v);
      EmptyThenDetach(a, b, v, extra);
      DetachSame(b, v, extra);
      hide Detach, OnDiskOk, Counts;
      UnlinkKeepsData(b, c, contents, img, limit, first);
    } else {
      RootDropKeeps(b, extra, contents, img, limit, first);
      SameNodesTrans(a, b, c);
    }
  }

  lemma {:induction false} StillAttached(a: Fs, b: Fs, i: nat)
    requires WellFormed(a.nodes) && WellFormed(b.nodes) && SameNodes(a, b) && i < |a.nodes| && Attached(b.nodes, i)
    requires forall p, c :: 0 <= p < |a.nodes| && c in b.nodes[p].children ==> c in a.nodes[p].children
    ensures Attached(a.nodes, i)
    decreases i
  {
    if i > 0 {
      StillAttached(a, b, a.nodes[i].parent.value);
    }
  }

  /** No hard link lies below the next child if none lay below its parent. */
  lemma KidLinkFree(a: Fs, b: Fs, v: nat, k: nat)
    requires Numbered(a) && Numbered(b) && v < |a.nodes| && k < |a.nodes[v].children| && KidsGone(a, b, v, k)
    ensures NoLinksBelow(a, v) ==> NoLinksUnder(b, a.nodes[v].children[k])
  {
    var c := a.nodes[v].children[k];
    NextKid(a, b, v, k);
    if NoLinksBelow(a, v) {
      forall i | 0 <= i < |b.nodes| ensures LinkFree(b, c, i) {
        if Attached(b.nodes, i) && Under(b.nodes, c, i) {
          StillAttached(a, b, i);
          UnderSame(a.nodes, b.nodes, c, i);
          UnderIsAfter(b.nodes, c, i);
          UnderTrans(a.nodes, v, c, i);
          assert LinkFree(a, v, i);
        }
      }
    }
  }

  lemma TidyAfterDetach(a: Fs, b: Fs, c: Fs, v: nat, extra: nat)
    requires Inv(a, extra) && Inv(b, extra) && Inv(c, extra) && v < |a.nodes| && Emptied(a, b, v)
    requires v > 0 ==> Removable(b, v) && c == Detach(b, v) && Attached(a.nodes, v)
    requires v == 0 ==> c == RootDropped(b)
    ensures Tidy(b) && NoLinksUnder(a, v) ==> Tidy(c)
  {
    hide *;
    InvKinds(a, extra);
    InvKinds(b, extra);
    InvKinds(c, extra);
    TidyIs(b);
    TidyIs(c);
    if Tidy(b) && NoLinksUnder(a, v) {
      NoLinkHere(a, b, v);
      if v > 0 {
        DetachPlain(b, v);
        DetachDirCounts(b, extra, v);
      } else {
        RootEmptied(a, b);
        RootDropTidy(b, extra);
      }
    }
  }

  lemma TidyIs(fs: Fs)
    requires Numbered(fs)
    ensures Tidy(fs) <==> Plain(fs) && DirCounts(fs)
  {
    hide Numbered, Plain, DirCounts;
  }

  lemma NoLinkHere(a: Fs, b: Fs, v: nat)
    requires Numbered(a) && WellFormed(a.nodes) && v < |a.nodes| && NoLinksUnder(a, v) && Emptied(a, b, v)
    requires v > 0 ==> Attached(a.nodes, v)
    ensures v < |b.nodes| && b.nodes[v].link == None
  {
    assert LinkFree(a, v, v);
    RootNode(a);
    assert b.nodes[v] == a.nodes[v].(children := b.nodes[v].children);
    hide Numbered, WellFormed, NoLinksUnder, Attached;
  }

  lemma RootEmptied(a: Fs, b: Fs)
    requires WellFormed(a.nodes) && Emptied(a, b, 0)
    ensures b.nodes[0].children == []
  {
    assert Under(a.nodes, 0, 0);
  }

  lemma RootDropTidy(b: Fs, extra: nat)
    requires Inv(b, extra) && Numbered(b) && WellFormed(b.nodes) && Plain(b) && DirCounts(b) && b.nodes[0].children == []
    ensures Numbered(RootDropped(b)) ==> Plain(RootDropped(b)) && DirCounts(RootDropped(b))
  {
    RootNode(b);
    assert DirCountOk(b, 0);
    assert SubDirs(b, 0) == {};
    hide Inv, Numbered, WellFormed, Plain, DirCounts, SubDirs;
  }

  lemma RootDropKeeps(b: Fs, extra: nat, contents: seq<Content>, img: seq<byte>, limit: nat, first: nat)
    requires Inv(b, extra) && OnDiskOk(b, contents, img, limit, first)
    ensures var c := RootDropped(b);
      Inv(c, extra) && OnDiskOk(c, contents, img, limit, first) && SameNodes(b, c)
  {
    var root := b.inodes[ROOT_INODE - 1];
    if root.links > 2 {
      var inode := root.(links := root.links - 1);
      var c := SetInode(b, ROOT_INODE, inode);
      SetInodeNumbered(b, ROOT_INODE, inode);
      RootLinksKeep(b, extra, inode);
      assert SameNodes(b, c);
      hide OnDiskOk, Counts, Kinds, Ownership, SetInode;
      UnlinkKeepsData(b, c, contents, img, limit, first);
    } else {
      SameNodesRefl(b);
    }
  }

  lemma SameNodesRefl(a: Fs)
    ensures SameNodes(a, a)
  {
  }

  lemma RootLinksKeep(b: Fs, extra: nat, inode: Inode)
    requires Inv(b, extra) && b.inodes[ROOT_INODE - 1].links > 2
    requires inode == b.inodes[ROOT_INODE - 1].(links := b.inodes[ROOT_INODE - 1].links - 1)
    requires Numbered(SetInode(b, ROOT_INODE, inode))
    ensures Inv(SetInode(b, ROOT_INODE, inode), extra)
  {
    SetInodeKinds(b, ROOT_INODE, inode);
    SetInodeOwnership(b, ROOT_INODE, inode);
    SetInodeCounts(b, ROOT_INODE, inode, extra);
  }

  /** Lookup, said by paths: a path leads to the attached node that has it. */
  lemma FindIff(nodes: Nodes, path: Path, i: nat)
    requires WellFormed(nodes) && UniqueNames(nodes)
    ensures Find(nodes, 0, path) == Some(i) <==> i < |nodes| && Attached(nodes, i) && PathOf(nodes, i) == path
  {
    PathOfLookup(nodes, path);
    if i < |nodes| && Attached(nodes, i) && PathOf(nodes, i) == path {
      LookupOfPath(nodes, i);
    }
  }

  /** Adding a node makes one more path lead somewhere. */
  lemma FindAfterAdd(fs: Fs, p: nat, node: Node, up: Path, q: Path)
    requires Numbered(fs) && FreeSlot(fs, p, node.name) && node.children == [] && Find(fs.nodes, 0, up) == Some(p)
    ensures WellFormed(WithChild(fs.nodes, p, node))
    ensures Find(WithChild(fs.nodes, p, node), 0, q)
         == if q == up + [node.name] then Some(|fs.nodes|) else Find(fs.nodes, 0, q)
  {
    var nodes, v := WithChild(fs.nodes, p, node), |fs.nodes|;
    AddShape(fs, p, node);
    FindIff(fs.nodes, up, p);
    SamePath(fs.nodes, nodes, p);
    assert PathOf(nodes, v) == up + [node.name];
    FindIff(nodes, q, v);
    hide FreeSlot, WithChild, Attached;
    var f, g := Find(fs.nodes, 0, q), Find(nodes, 0, q);
    if f.Some? {
      SamePath(fs.nodes, nodes, f.value);
      FindIff(fs.nodes, q, f.value);
      FindIff(nodes, q, f.value);
    }
    if g.Some? && g.value != v {
      FindIff(nodes, q, g.value);
      SamePath(fs.nodes, nodes, g.value);
      FindIff(fs.nodes, q, g.value);
    }
  }

  /** Nothing stands at `path` or below it any more; other names lead where they
      led, to the same inodes. */
  ghost predicate ClearedAt(a: Fs, b: Fs, path: Path)
    requires WellFormed(a.nodes) && WellFormed(b.nodes)
  {
    SameNodes(a, b) && forall q: Path :: Find(b.nodes, 0, q) == if path <= q then None else Find(a.nodes, 0, q)
  }

  lemma NothingBelowNothing(nodes: Nodes, path: Path, q: Path)
    requires WellFormed(nodes) && Find(nodes, 0, path) == None && path <= q
    ensures Find(nodes, 0, q) == None
  {
    assert q == path + q[|path|..];
    FindConcat(nodes, 0, path, q[|path|..]);
  }

  lemma ClearedByUnlink(a: Fs, b: Fs, path: Path)
    requires Numbered(a) && Numbered(b)
    requires match Find(a.nodes, 0, path) case None => b == a case Some(v) => v > 0 && Unlinked(a, b, v)
    ensures ClearedAt(a, b, path)
  {
    var f := Find(a.nodes, 0, path);
    if f.None? {
      SameNodesRefl(a);
      forall q: Path | path <= q ensures Find(b.nodes, 0, q) == None {
        NothingBelowNothing(a.nodes, path, q);
      }
    } else {
      forall q: Path ensures Find(b.nodes, 0, q) == if path <= q then None else Find(a.nodes, 0, q) {
        ClearedByUnlinkAt(a, b, path, f.value, q);
      }
    }
  }

  lemma ClearedByUnlinkAt(a: Fs, b: Fs, path: Path, v: nat, q: Path)
    requires Numbered(a) && Numbered(b) && Find(a.nodes, 0, path) == Some(v) && v > 0 && Unlinked(a, b, v)
    ensures Find(b.nodes, 0, q) == if path <= q then None else Find(a.nodes, 0, q)
  {
    hide Unlinked;
    PathOfLookup(a.nodes, path);
    FindAfterUnlink(a, b, v, q);
    var g := Find(a.nodes, 0, q);
    if g.Some? {
      PathOfLookup(a.nodes, q);
      UnderIsPrefix(a.nodes, v, g.value);
    }
  }

  lemma EmptiedByPath(a: Fs, b: Fs, path: Path, v: nat, q: Path)
    requires Numbered(a) && Numbered(b) && Find(a.nodes, 0, path) == Some(v) && Emptied(a, b, v)
    ensures Find(b.nodes, 0, q) == if path < q then None else Find(a.nodes, 0, q)
  {
    hide *;
    RootNode(a);
    RootNode(b);
    PathOfLookup(a.nodes, path);
    InTree(a.nodes, path, v);
    FindAfterEmptied(a, b, v, q);
    assert path < q <==> path <= q && path != q;
    var g := Find(a.nodes, 0, q);
    if g.Some? {
      PathOfLookup(a.nodes, q);
      InTree(a.nodes, q, g.value);
      Shaped(a);
      UnderIsPrefix(a.nodes, v, g.value);
    }
  }

  /** Removing a name changes no directory away from it but its parent. */
  ghost predicate RemovedApart(a: Fs, b: Fs, v: nat) {
    Numbered(a) && 0 < v < |a.nodes| && AwayBut(a, b, v)
  }

  lemma RemovedFrom(a: Fs, b: Fs, c: Fs, v: nat, extra: nat, path: Path)
    requires Inv(a, extra) && Inv(b, extra) && v < |a.nodes| && Emptied(a, b, v) && Find(a.nodes, 0, path) == Some(v)
    requires v > 0 ==> Removable(b, v) && c == Detach(b, v) && Attached(a.nodes, v)
    requires Plain(a) ==> AwayFrom(a, b, v)
    ensures Plain(a) && path != [] ==> RemovedApart(a, c, v)
  {
    hide *;
    InvKinds(a, extra);
    InvKinds(b, extra);
    RootOnly(a.nodes, path, v);
    if Plain(a) && path != [] {
      EmptiedSame(a, b, v);
      PlainEmptied(a, b, v);
      SameKindOwn(a, b, extra, v);
      HasKids(a.nodes, v);
      AwayDetached(a, b, extra, v);
      RemovedApartIs(a, c, v);
    }
  }

  lemma RemovedApartIs(a: Fs, b: Fs, v: nat)
    requires Numbered(a) && 0 < v < |a.nodes|
    ensures RemovedApart(a, b, v) <==> AwayBut(a, b, v)
  {
    hide Numbered, AwayBut;
  }

  lemma PlainEmptied(a: Fs, b: Fs, v: nat)
    requires WellFormed(a.nodes) && v < |a.nodes| && Emptied(a, b, v) && Plain(a)
    ensures Plain(b)
  {
    forall i | 0 <= i < |b.nodes| && b.nodes[i].children != [] ensures b.nodes[i].link == None {
      assert b.nodes[i] == a.nodes[i].(children := b.nodes[i].children);
      assert a.nodes[i].children != [];
    }
    hide Under, InodeStep, WellFormed;
  }

  lemma HasKids(nodes: Nodes, v: nat)
    requires WellFormed(nodes) && 0 < v < |nodes| && Attached(nodes, v)
    ensures nodes[v].parent.Some? && nodes[v].parent.value < |nodes| && nodes[nodes[v].parent.value].children != []
  {
    hide KidsOk;
  }

  /** What lies below an attached node can come and go; its own inode keeps its type. */
  lemma SameKindOwn(a: Fs, b: Fs, extra: nat, v: nat)
    requires Numbered(a) && Numbered(b) && Counts(b, extra) && Kinds(b) && SameNodes(a, b) && Removable(b, v) && v < |a.nodes|
    ensures OwnInode(b, v).IsDir() == OwnInode(a, v).IsDir()
  {
    OwnIs(a, v);
    OwnIs(b, v);
    assert b.nodes[v] == a.nodes[v].(children := b.nodes[v].children);
    var n := a.nodes[v].inode - 1;
    assert InodeStep(a.inodes[n], b.inodes[n]);
    if b.nodes[v].link == None {
      Shaped(b);
      NamedInode(b, extra, v);
    } else {
      assert NumberedNode(b, v);
    }
    hide Numbered, Counts, SameNodes, WellFormed, Attached, TypeBits, KindOk;
  }

  lemma KidApart(a: Fs, b: Fs, c: Fs, v: nat, k: nat)
    requires Numbered(a) && Numbered(b) && v < |a.nodes| && k < |a.nodes[v].children| && KidsGone(a, b, v, k)
    requires Plain(a) ==> AwayFrom(a, b, v)
    requires Plain(b) ==> RemovedApart(b, c, a.nodes[v].children[k])
    ensures Plain(a) ==> AwayFrom(a, c, v)
  {
    if Plain(a) {
      hide *;
      Shaped(a);
      var kid := a.nodes[v].children[k];
      NextKid(a, b, v, k);
      PlainKidsGone(a, b, v, k);
      GoneSame(a, b, v, k);
      SameParents(a, b);
      RemovedApartIs(b, c, kid);
      AwayNext(a, b, c, v, kid);
    }
  }

  lemma GoneSame(a: Fs, b: Fs, v: nat, k: nat)
    requires WellFormed(a.nodes) && v < |a.nodes| && k <= |a.nodes[v].children| && KidsGone(a, b, v, k)
    ensures SameNodes(a, b)
  {
  }

  /** `unlink`, as the user sees it. */
  lemma UnlinkedSeen(a: Fs, b: Fs, extra: nat, contents: seq<Content>, path: Path, directoryWhiteout: bool)
    requires Inv(a, extra) && Inv(b, extra)
    requires match Find(a.nodes, 0, path)
             case None => b == a
             case Some(v) => if directoryWhiteout || v == 0 then Emptied(a, b, v) else Unlinked(a, b, v)
    ensures Seen(b, contents) == AfterUnlink(Seen(a, contents), path, directoryWhiteout)
  {
    var f, v := Find(a.nodes, 0, path), Seen(a, contents);
    SightIs(a, contents, path);
    SeenGet(a, contents, path);
    PathOfLookup(a.nodes, path);
    AfterUnlinkIs(v, path, directoryWhiteout);
    if f.Some? {
      RootOnly(a.nodes, path, f.value);
      if directoryWhiteout || f.value == 0 {
        forall q: Path ensures Find(b.nodes, 0, q) == if path < q then None else Find(a.nodes, 0, q) {
          EmptiedByPath(a, b, path, f.value, q);
        }
        EmptiedSame(a, b, f.value);
        hide *;
        InvKinds(a, extra);
        InvKinds(b, extra);
        EmptySeen(a, b, contents, extra, path);
      } else {
        forall q: Path ensures Find(b.nodes, 0, q) == if path <= q then None else Find(a.nodes, 0, q) {
          ClearedByUnlinkAt(a, b, path, f.value, q);
        }
        UnlinkedSame(a, b, f.value);
        hide *;
        InvKinds(a, extra);
        InvKinds(b, extra);
        ClearSeen(a, b, contents, extra, path);
      }
    }
  }

  lemma InvKinds(fs: Fs, extra: nat)
    requires Inv(fs, extra)
    ensures Numbered(fs) && WellFormed(fs.nodes) && Kinds(fs) && Counts(fs, extra)
  {
    Shaped(fs);
    hide Numbered, Kinds, Counts, Ownership;
  }

  lemma RootOnly(nodes: Nodes, path: Path, v: nat)
    requires WellFormed(nodes) && Find(nodes, 0, path) == Some(v)
    ensures v == 0 <==> path == []
  {
    PathOfLookup(nodes, path);
  }

  lemma AfterUnlinkIs(v: Volume, path: Path, directoryWhiteout: bool)
    ensures path !in v.names ==> AfterUnlink(v, path, directoryWhiteout) == v
    ensures path in v.names ==>
      AfterUnlink(v, path, directoryWhiteout) == if directoryWhiteout || path == [] then WithoutBelow(v, path) else Without(v, path)
  {
    hide Without, WithoutBelow;
  }

  /** The target of a new hard link is a file in use; its count can be raised. */
  lemma TargetIsFile(fs: Fs, i: nat, path: Path, contents: seq<Content>, img: seq<byte>, limit: nat, first: nat)
    requires Inv(fs, 0) && OnDiskOk(fs, contents, img, limit, first) && Find(fs.nodes, 0, path) == Some(i)
    requires !OwnInode(fs, i).IsDir() && OwnInode(fs, i).links < 0xFFFF
    ensures var t := fs.nodes[i].inode;
      && RESERVED < t <= |fs.inodes| && LinkTarget(fs, path) == Ok(t)
      && Inv(Bump(fs, t), t) && OnDiskOk(Bump(fs, t), contents, img, limit, first)
  {
    var t := fs.nodes[i].inode;
    FindIff(fs.nodes, path, i);
    FileHasLinks(fs, i);
    hide *;
    InvNumbered(fs, 0);
    TargetRaised(fs, t, contents, img, limit, first);
    OwnIsTarget(fs, i, path);
    BumpKeeps(fs, t);
    InvNumbered(Bump(fs, t), t);
    SetInodeKeepsData(fs, t, fs.inodes[t - 1].(links := fs.inodes[t - 1].links + 1), contents, img, limit, first);
  }

  lemma OwnIsTarget(fs: Fs, i: nat, path: Path)
    requires Numbered(fs) && Find(fs.nodes, 0, path) == Some(i) && i < |fs.nodes| && !OwnInode(fs, i).IsDir()
    ensures LinkTarget(fs, path) == Ok(fs.nodes[i].inode)
  {
  }

  lemma TargetRaised(fs: Fs, t: nat, contents: seq<Content>, img: seq<byte>, limit: nat, first: nat)
    requires Numbered(fs) && OnDiskOk(fs, contents, img, limit, first) && RESERVED < t <= |fs.inodes|
    requires 0 < fs.inodes[t - 1].links < 0xFFFF && !fs.inodes[t - 1].IsDir()
    ensures var inode := fs.inodes[t - 1].(links := fs.inodes[t - 1].links + 1);
      && SameUse(fs.inodes[t - 1], inode) && SameData(fs.inodes[t - 1], inode) && inode.Fits()
      && Bump(fs, t) == SetInode(fs, t, inode)
  {
  }

  lemma FileHasLinks(fs: Fs, i: nat)
    requires Inv(fs, 0) && i < |fs.nodes| && Attached(fs.nodes, i) && !OwnInode(fs, i).IsDir()
    ensures fs.nodes[i].link == None && RESERVED < fs.nodes[i].inode <= |fs.inodes|
    ensures fs.inodes[fs.nodes[i].inode - 1].links > 0
  {
    hide WellFormed, UniqueNames, NumberedInode, Ownership, CountOk, IsDirMode, Attached;
    assert i > 0 && NumberedNode(fs, i) && KindOk(fs, i);
    hide Kinds, Counts, Numbered;
    InvAt(fs, 0, fs.nodes[i].inode);
    AttachedHasLinks(fs, 0, fs.nodes[i].inode);
  }

  /** The free slot that clearing `path` leaves in its directory. */
  lemma SlotIsFree(a: Fs, b: Fs, path: Path, p: nat)
    requires Numbered(a) && Numbered(b) && ClearedAt(a, b, path) && path != []
    requires Find(b.nodes, 0, ParentOf(path)) == Some(p) && ParentIsDir(a, path)
    ensures FreeSlot(b, p, Basename(path)) && Find(a.nodes, 0, ParentOf(path)) == Some(p)
  {
    hide *;
    Shaped(a);
    Shaped(b);
    ClearedFacts(a, b, path);
    SlotExists(b, ParentOf(path), p);
    ParentWasDir(a, path, p);
    SameOwnKind(a, b, p);
    SlotOf(b, path, p);
  }

  lemma ClearedFacts(a: Fs, b: Fs, path: Path)
    requires Numbered(a) && Numbered(b) && ClearedAt(a, b, path) && path != []
    ensures SameNodes(a, b) && |a.nodes| == |b.nodes| && Find(b.nodes, 0, path) == None
    ensures Find(b.nodes, 0, ParentOf(path)) == Find(a.nodes, 0, ParentOf(path))
  {
    assert !(path <= ParentOf(path));
    hide Numbered;
  }

  lemma ParentWasDir(a: Fs, path: Path, p: nat)
    requires Numbered(a) && ParentIsDir(a, path) && Find(a.nodes, 0, ParentOf(path)) == Some(p) && p < |a.nodes|
    ensures OwnInode(a, p).IsDir()
  {
  }

  lemma SameOwnKind(a: Fs, b: Fs, i: nat)
    requires Numbered(a) && Numbered(b) && SameNodes(a, b) && i < |a.nodes|
    ensures OwnInode(a, i).IsDir() ==> OwnInode(b, i).IsDir()
    ensures !OwnInode(a, i).IsDir() ==> !OwnInode(b, i).IsDir()
  {
    assert i > 0 ==> NumberedNode(a, i);
    assert InodeStep(a.inodes[a.nodes[i].inode - 1], b.inodes[a.nodes[i].inode - 1]);
  }

  /** Placing the link's node finishes it. */
  lemma LinkDone(a: Fs, b: Fs, c: Fs, path: Path, t: nat, p: nat, contents: seq<Content>, img: seq<byte>, limit: nat, first: nat)
    requires Inv(a, 0) && RESERVED < t <= |a.inodes| && !a.inodes[t - 1].IsDir() && b == Bump(a, t)
    requires Inv(b, t) && Inv(c, t) && OnDiskOk(c, contents, img, limit, first)
    requires ClearedAt(b, c, path) && path != [] && Canonical(path)
    requires Find(c.nodes, 0, ParentOf(path)) == Some(p) && ParentIsDir(a, path)
    ensures var d := AddLink(c, p, Basename(path), t);
      Inv(d, 0) && OnDiskOk(d, contents, img, limit, first) && LinkMade(a, d, path, t)
  {
    hide *;
    InvNumbered(a, 0);
    InvNumbered(b, t);
    InvNumbered(c, t);
    BumpDirs(a, t, path);
    SlotIsFree(b, c, path, p);
    StaysFile(a, b, c, t, path);
    AddLinkKeeps(c, p, Basename(path), t);
    InvNumbered(AddLink(c, p, Basename(path), t), 0);
    BasenameIsValid(path);
    SlotExists(c, ParentOf(path), p);
    AddLinkKeepsData(c, p, Basename(path), t, contents, img, limit, first);
    LinkIsMade(a, b, c, path, t, p);
  }

  /** `link` does not look at what kind of entry the parent is: a name below
      anything but a directory breaks what must hold between calls. */
  lemma LinkBelowFile(fs: Fs, extra: nat, p: nat, name: Name, t: nat)
    requires Inv(fs, extra) && p < |fs.nodes| && Numbered(fs) && !OwnInode(fs, p).IsDir()
    ensures forall more :: !Inv(AddLink(fs, p, name, t), more)
  {
    var d := AddLink(fs, p, name, t);
    assert d.nodes[p].children != [] && d.nodes[p].inode == fs.nodes[p].inode && d.inodes == fs.inodes;
    hide Counts, Ownership, AddLink, Inode.IsDir, WellFormed, UniqueNames;
    assert Numbered(d) && Kinds(d) ==> KindOk(d, p);
  }

  /** A directory starts with two links and loses one when it is removed: its
      inode is never freed. */
  lemma DirectoryNeverFreed(fs: Fs, n: nat)
    requires Inv(fs, 0) && RESERVED < n <= |fs.inodes| && fs.inodes[n - 1].IsDir()
    ensures Numbered(fs) && fs.inodes[n - 1].links >= 1 && HolderOf(fs, n) != Deleted
  {
    assert CountOk(fs, 0, n);
    hide Numbered, Kinds, Ownership, Names, Attached, Inode.IsDir;
  }

  lemma Parts(f: Formatter, extra: nat)
    requires f.Valid(extra)
    ensures f.tree.Valid() && Inv(f.View(), extra) && Numbered(f.View()) && WellFormed(f.View().nodes)
    ensures OnDiskOk(f.View(), f.contents, f.file.bytes, f.file.pos, f.first) && f.first * 4096 <= f.file.pos
    ensures f.View() == Fs(f.tree.nodes, f.inodes, f.deletedBlocks, f.deferredBlocks, f.origin)
  {
    hide Numbered, Kinds, Counts, Ownership, OnDiskOk, FileTree.Valid;
    Shaped(f.View());
  }

  lemma ViewIs(f: Formatter)
    ensures f.View() == Fs(f.tree.nodes, f.inodes, f.deletedBlocks, f.deferredBlocks, f.origin)
  {
  }

  lemma ValidIs(f: Formatter, extra: nat)
    requires f.tree.Valid() && Inv(f.View(), extra)
    requires OnDiskOk(f.View(), f.contents, f.file.bytes, f.file.pos, f.first) && f.first * 4096 <= f.file.pos
    ensures f.Valid(extra)
  {
    hide Inv, OnDiskOk, FileTree.Valid;
  }

  lemma InvParts(fs: Fs, extra: nat)
    requires Inv(fs, extra)
    ensures Numbered(fs) && WellFormed(fs.nodes) && |fs.nodes| > 0
  {
    Shaped(fs);
  }

  lemma TargetCases(fs: Fs, path: Path)
    requires Numbered(fs)
    ensures WellFormed(fs.nodes) && |fs.nodes| > 0
    ensures var f := Find(fs.nodes, 0, path);
      && (f.None? ==> LinkTarget(fs, path) == Err(NotFound))
      && (f.Some? && OwnInode(fs, f.value).IsDir() ==> LinkTarget(fs, path) == Err(CannotHardlinkDirectory))
      && (f.Some? && !OwnInode(fs, f.value).IsDir() && TargetRoom(fs, path) ==> OwnInode(fs, f.value).links < 0xFFFF)
  {
    Shaped(fs);
    hide Numbered, OwnInode, Find, Inode.IsDir;
  }

  lemma BumpIs(fs: Fs, t: nat)
    requires 0 < t <= |fs.inodes|
    ensures Bump(fs, t) == fs.(inodes := fs.inodes[t - 1 := fs.inodes[t - 1].(links := fs.inodes[t - 1].links + 1)])
  {
  }

  lemma InBounds()
    ensures RESERVED == 10
  {
  }

  lemma LinkNodeIs(fs: Fs, p: nat, name: Name, t: nat)
    requires p < |fs.nodes|
    ensures LinkNode(name, t).children == []
    ensures AddLink(fs, p, name, t) == fs.(nodes := WithChild(fs.nodes, p, LinkNode(name, t)))
  {
  }

  lemma ClearedAside(b: Fs, c: Fs, path: Path, q: Path)
    requires WellFormed(b.nodes) && WellFormed(c.nodes) && ClearedAt(b, c, path) && !(path <= q)
    ensures |b.nodes| > 0 && |c.nodes| == |b.nodes| && |c.inodes| == |b.inodes| && Find(c.nodes, 0, q) == Find(b.nodes, 0, q)
    ensures forall i :: 0 <= i < |b.nodes| ==> c.nodes[i].inode == b.nodes[i].inode
    ensures forall n :: 0 <= n < |b.inodes| ==> InodeStep(b.inodes[n], c.inodes[n])
  {
    hide Find, InodeStep;
  }

  lemma ParentIsShorter(path: Path)
    requires path != []
    ensures !(path <= ParentOf(path))
  {
  }

  /** Raising the target's count and clearing the way leave the parent where it was. */
  lemma ParentStays(a: Fs, b: Fs, c: Fs, path: Path, t: nat)
    requires Inv(a, 0) && RESERVED < t <= |a.inodes| && b == Bump(a, t)
    requires Inv(c, t) && WellFormed(b.nodes) && WellFormed(c.nodes) && ClearedAt(b, c, path) && path != []
    ensures Numbered(a) && WellFormed(a.nodes) && Numbered(c) && |a.nodes| > 0 && |c.nodes| > 0
    ensures Find(c.nodes, 0, ParentOf(path)) == Find(a.nodes, 0, ParentOf(path))
  {
    hide *;
    InvParts(a, 0);
    InvParts(c, t);
    InBounds();
    BumpIs(a, t);
    ParentIsShorter(path);
    ClearedAside(b, c, path, ParentOf(path));
  }

  lemma LinkAnswerIs(fs: Fs, path: Path, t: nat)
    requires Numbered(fs)
    ensures WellFormed(fs.nodes) && |fs.nodes| > 0
    ensures LinkAnswer(fs, path, t) ==
      if Find(fs.nodes, 0, ParentOf(path)).None? then Err(NotFound)
      else if ParentLinks(fs, path, t) >= MAX_LINKS then Err(MaximumLinksExceeded) else Ok(())
  {
    Shaped(fs);
    hide Numbered, ParentLinks, Find;
  }

  lemma ParentLinksIs(fs: Fs, path: Path, t: nat, p: nat)
    requires Numbered(fs) && WellFormed(fs.nodes) && |fs.nodes| > 0 && Find(fs.nodes, 0, ParentOf(path)) == Some(p) && p < |fs.nodes|
    ensures var v, links := Find(fs.nodes, 0, path), OwnInode(fs, p).links + if fs.nodes[p].inode == t then 1 else 0;
      && (v.Some? ==> v.value < |fs.nodes|)
      && ParentLinks(fs, path, t) == if v.Some? && OwnInode(fs, v.value).IsDir() && links > 2 then links - 1 else links
  {
    hide Numbered, OwnInode, Inode.IsDir;
  }

  /** The parent's count after raising and clearing, from the state before. */
  lemma ParentCounted(a: Fs, b: Fs, c: Fs, path: Path, t: nat, p: nat)
    requires Inv(a, 0) && Numbered(a) && WellFormed(a.nodes) && |a.nodes| > 0 && RESERVED < t <= |a.inodes| && b == Bump(a, t) && Inv(b, t)
    requires WellFormed(b.nodes) && Numbered(c) && p < |c.nodes|
    requires !a.inodes[t - 1].IsDir()
    requires Find(a.nodes, 0, ParentOf(path)) == Some(p) && path != [] && ClearedAt(b, c, path) && WellFormed(c.nodes)
    requires Find(b.nodes, 0, path) == None ==> c == b
    requires Plain(b) && Find(b.nodes, 0, path).Some? ==> RemovedApart(b, c, Find(b.nodes, 0, path).value)
    ensures Plain(a) ==> OwnInode(c, p).links == ParentLinks(a, path, t)
  {
    hide *;
    InvParts(b, t);
    BumpIs(a, t);
    InBounds();
    SamePlain(a, b);
    ParentIsShorter(path);
    ClearedAside(b, c, path, ParentOf(path));
    NumberedAt(a, p);
    NumberedAt(b, p);
    NumberedAt(c, p);
    ParentLinksIs(a, path, t, p);
    var f := Find(a.nodes, 0, path);
    if Plain(a) && f.Some? {
      var v := f.value;
      FoundParent(a.nodes, path, v);
      RootOnly(a.nodes, path, v);
      NumberedAt(a, v);
      NumberedAt(b, v);
      RemovedApartIs(b, c, v);
      AwayButDrops(b, c, v);
      HasKids(a.nodes, v);
      InvKinds(a, 0);
      ParentIsDirectory(a, p);
      SubDirIs(a, p);
      FileOrNot(a, b, t, v);
    }
  }

  lemma SamePlain(a: Fs, b: Fs)
    requires a.nodes == b.nodes
    ensures Plain(a) == Plain(b)
  {
  }

  lemma SubDirIs(fs: Fs, p: nat)
    requires Numbered(fs) && p < |fs.nodes|
    ensures IsSubDir(fs, p) <==> fs.nodes[p].link == None && OwnInode(fs, p).IsDir()
  {
    hide Numbered, OwnInode, Inode.IsDir;
  }

  lemma FileOrNot(a: Fs, b: Fs, t: nat, v: nat)
    requires Numbered(a) && Numbered(b) && 0 < t <= |a.inodes| && b == Bump(a, t) && v < |a.nodes| && v < |b.nodes|
    ensures OwnInode(a, v).IsDir() == OwnInode(b, v).IsDir()
  {
    OwnIs(a, v);
    OwnIs(b, v);
    hide Numbered, TypeBits;
  }

  lemma AwayButDrops(a: Fs, b: Fs, v: nat)
    requires Numbered(a) && 0 < v < |a.nodes| && AwayBut(a, b, v)
    ensures ParentDrops(a, b, v)
    ensures a.nodes[v].parent.Some? && a.nodes[v].parent.value < |a.nodes|
    ensures var n := a.nodes[a.nodes[v].parent.value].inode;
      && 0 < n <= |a.inodes| && n <= |b.inodes|
      && b.inodes[n - 1].links
         == if OwnInode(a, v).IsDir() && a.inodes[n - 1].links > 2 then a.inodes[n - 1].links - 1 else a.inodes[n - 1].links
  {
    Shaped(a);
    hide Numbered, AwayAt, OwnInode, Inode.IsDir, KidsOk, UniqueNames;
  }

  lemma NumberedAt(fs: Fs, i: nat)
    requires Numbered(fs) && i < |fs.nodes|
    ensures 0 < fs.nodes[i].inode <= |fs.inodes| && OwnInode(fs, i) == fs.inodes[fs.nodes[i].inode - 1]
  {
    assert i > 0 ==> NumberedNode(fs, i);
  }

  /** A `link` that failed after raising the count leaves its target with one link
      too many, so that no unlinking ever frees it. */
  lemma LeakedLink(fs: Fs, t: nat)
    requires Inv(fs, t) && RESERVED < t <= |fs.inodes| && Numbered(fs) && !fs.inodes[t - 1].IsDir()
    ensures !Inv(fs, 0) && HolderOf(fs, t) != Deleted
    ensures fs.inodes[t - 1].links == |Names(fs.nodes, t)| + 1
  {
    assert CountOk(fs, t, t);
    assert Inv(fs, 0) ==> CountOk(fs, 0, t);
    hide Numbered, Kinds, Ownership, Names, Attached, Inode.IsDir;
  }

  /** What a link shares stays what it was while the way is cleared. */
  lemma StillNoDir(a: Fs, b: Fs, c: Fs, path: Path, t: nat)
    requires Inv(a, 0) && RESERVED < t <= |a.inodes| && !a.inodes[t - 1].IsDir() && b == Bump(a, t)
    requires Inv(c, t) && WellFormed(b.nodes) && WellFormed(c.nodes) && ClearedAt(b, c, path) && path != []
    ensures t <= |c.inodes| && Numbered(c) && !c.inodes[t - 1].IsDir()
  {
    hide *;
    InvParts(c, t);
    BumpIs(a, t);
    InBounds();
    ParentIsShorter(path);
    ClearedAside(b, c, path, ParentOf(path));
    NoDirStays(a.inodes[t - 1], b.inodes[t - 1]);
    NoDirStays(b.inodes[t - 1], c.inodes[t - 1]);
  }

  lemma NoDirStays(a: Inode, b: Inode)
    ensures !a.IsDir() && (InodeStep(a, b) || b.mode == a.mode) ==> !b.IsDir()
  {
  }

  /** A parent that is no directory does not become one. */
  lemma ParentNoDir(a: Fs, b: Fs, c: Fs, path: Path, p: nat)
    requires Numbered(a) && Numbered(c) && !ParentIsDir(a, path) && path != [] && p < |c.nodes|
    requires b.nodes == a.nodes && |b.inodes| == |a.inodes| && forall k :: 0 <= k < |a.inodes| ==> b.inodes[k].mode == a.inodes[k].mode
    requires WellFormed(b.nodes) && WellFormed(c.nodes) && ClearedAt(b, c, path) && Find(c.nodes, 0, ParentOf(path)) == Some(p)
    ensures !OwnInode(c, p).IsDir()
  {
    hide *;
    ParentIsShorter(path);
    ClearedAside(b, c, path, ParentOf(path));
    NoDirParent(a, path, p);
    NumberedAt(a, p);
    NumberedAt(c, p);
    var n := a.nodes[p].inode - 1;
    NoDirStays(a.inodes[n], b.inodes[n]);
    NoDirStays(b.inodes[n], c.inodes[n]);
  }

  lemma NoDirParent(fs: Fs, path: Path, p: nat)
    requires Numbered(fs) && !ParentIsDir(fs, path) && p < |fs.nodes| && Find(fs.nodes, 0, ParentOf(path)) == Some(p)
    ensures !OwnInode(fs, p).IsDir()
  {
    hide Numbered, OwnInode, Inode.IsDir;
  }

  lemma BumpKeepsModes(a: Fs, t: nat)
    requires 0 < t <= |a.inodes|
    ensures var b := Bump(a, t);
      b.nodes == a.nodes && |b.inodes| == |a.inodes| && forall k :: 0 <= k < |a.inodes| ==> b.inodes[k].mode == a.inodes[k].mode
  {
  }

  lemma InvNumbered(fs: Fs, extra: nat)
    requires Inv(fs, extra)
    ensures Numbered(fs)
  {
  }

  lemma SlotExists(fs: Fs, path: Path, p: nat)
    requires WellFormed(fs.nodes) && Find(fs.nodes, 0, path) == Some(p)
    ensures p < |fs.nodes|
  {
  }

  lemma BasenameIsValid(path: Path)
    requires Canonical(path) && path != []
    ensures ValidName(Basename(path))
  {
  }

  lemma StaysFile(a: Fs, b: Fs, c: Fs, t: nat, path: Path)
    requires RESERVED < t <= |a.inodes| && !a.inodes[t - 1].IsDir() && b == Bump(a, t)
    requires WellFormed(b.nodes) && WellFormed(c.nodes) && ClearedAt(b, c, path)
    ensures t <= |c.inodes| && !c.inodes[t - 1].IsDir()
  {
    assert InodeStep(b.inodes[t - 1], c.inodes[t - 1]);
  }

  lemma LinkIsMade(a: Fs, b: Fs, c: Fs, path: Path, t: nat, p: nat)
    requires Numbered(a) && RESERVED < t <= |a.inodes| && b == Bump(a, t) && Numbered(b) && Numbered(c)
    requires ClearedAt(b, c, path) && path != []
    requires Find(c.nodes, 0, ParentOf(path)) == Some(p) && FreeSlot(c, p, Basename(path))
    requires Numbered(AddLink(c, p, Basename(path), t))
    ensures LinkMade(a, AddLink(c, p, Basename(path), t), path, t)
  {
    hide *;
    var r := AddLink(c, p, Basename(path), t);
    Shaped(a);
    Shaped(b);
    Shaped(c);
    BumpIs(a, t);
    InBounds();
    ClearedSame(b, c, path);
    ClearedFacts(b, c, path);
    SlotExists(c, ParentOf(path), p);
    AddedLink(c, p, Basename(path), t);
    LinkFound(c, path, p, t, path);
    forall q: Path ensures Find(r.nodes, 0, q) == if q == path then Some(|a.nodes|) else if path <= q then None else Find(a.nodes, 0, q) {
      LinkFound(c, path, p, t, q);
    }
    LinkMadeIs(a, r, path, t);
  }

  lemma AddedLink(fs: Fs, p: nat, name: Name, t: nat)
    requires p < |fs.nodes|
    ensures var nodes := AddLink(fs, p, name, t).nodes;
      |nodes| == |fs.nodes| + 1 && nodes[|fs.nodes|].link == Some(t) && nodes[|fs.nodes|].children == []
  {
  }

  lemma LinkMadeIs(a: Fs, b: Fs, path: Path, t: nat)
    requires WellFormed(a.nodes) && WellFormed(b.nodes) && |a.nodes| > 0
    requires |b.nodes| == |a.nodes| + 1 && b.nodes[|a.nodes|].link == Some(t) && b.nodes[|a.nodes|].children == []
    requires forall q: Path :: Find(b.nodes, 0, q) == if q == path then Some(|a.nodes|) else if path <= q then None else Find(a.nodes, 0, q)
    ensures LinkMade(a, b, path, t)
  {
    hide WellFormed, Find;
  }

  lemma OnDiskCount(fs: Fs, contents: seq<Content>, img: seq<byte>, limit: nat, first: nat)
    requires Numbered(fs) && OnDiskOk(fs, contents, img, limit, first)
    ensures |contents| == |fs.origin|
  {
    hide Numbered;
  }

  /** The entry of a hard link looks like the root, which is a directory. */
  lemma FileIsNoLink(fs: Fs, i: nat)
    requires Inv(fs, 0) && Numbered(fs) && i < |fs.nodes| && !OwnInode(fs, i).IsDir()
    ensures fs.nodes[i].link == None
  {
    if i > 0 {
      assert NumberedNode(fs, i);
    }
    hide WellFormed, UniqueNames, Counts, Ownership, KindOk, NumberedInode, Inode.IsDir;
  }

  lemma LinkFramed(a: Fs, b: Fs, c: Fs, path: Path, t: nat, p: nat)
    requires RESERVED < t <= |a.inodes| && b == Bump(a, t) && WellFormed(b.nodes) && WellFormed(c.nodes) && ClearedAt(b, c, path)
    requires p < |c.nodes|
    ensures LinkFrame(a, AddLink(c, p, Basename(path), t), t)
  {
    var d := AddLink(c, p, Basename(path), t);
    forall i | 0 <= i < |a.nodes| ensures NodeKept(a.nodes[i], d.nodes[i]) {
      assert c.nodes[i] == b.nodes[i].(children := c.nodes[i].children);
    }
    hide InodeStep, WellFormed, NodeKept, Find;
  }

  /** Raising a count is not seen. */
  lemma BumpSeen(a: Fs, t: nat, contents: seq<Content>)
    requires Numbered(a) && 0 < t <= |a.inodes| && Numbered(Bump(a, t))
    ensures Seen(Bump(a, t), contents) == Seen(a, contents)
  {
    var b := Bump(a, t);
    hide *;
    BumpIs(a, t);
    forall q: Path ensures SightAt(b, contents, q) == NameIn(Seen(a, contents), q) {
      SeenGet(a, contents, q);
      SightIs(a, contents, q);
      SightIs(b, contents, q);
      var f := Find(a.nodes, 0, q);
      if f.Some? {
        InTree(a.nodes, q, f.value);
        SameSight(a, b, contents, f.value);
      }
    }
    SeenGet(a, contents, []);
    SeenIs(b, contents, Seen(a, contents));
  }

  lemma SameSight(a: Fs, b: Fs, contents: seq<Content>, i: nat)
    requires Numbered(a) && Numbered(b) && i < |a.nodes| <= |b.nodes| && |a.inodes| == |b.inodes|
    requires b.nodes[i].link == a.nodes[i].link && b.nodes[i].inode == a.nodes[i].inode
    requires 0 < Target(a.nodes[i]) <= |a.inodes| ==> var k := Target(a.nodes[i]) - 1;
      a.inodes[k].mode == b.inodes[k].mode && a.inodes[k].uid == b.inodes[k].uid && a.inodes[k].gid == b.inodes[k].gid
    ensures SightOf(b, contents, i) == SightOf(a, contents, i)
  {
    NamedInRange(a, i);
    NamedInRange(b, i);
    hide Numbered, ContentOf, TargetInode;
  }

  lemma StillThereInode(c: Fs, t: nat)
    requires Inv(c, t) && RESERVED < t <= |c.inodes| && !c.inodes[t - 1].IsDir()
    ensures c.inodes[t - 1].links > 0
  {
    assert CountOk(c, t, t);
    hide Numbered, Kinds, Ownership, Inode.IsDir, Names;
  }

  /** `link`, as the user sees it. */
  lemma LinkedSeen(a: Fs, b: Fs, c: Fs, path: Path, target: Path, at: nat, t: nat, p: nat, contents: seq<Content>)
    requires Inv(a, 0) && Numbered(a) && RESERVED < t <= |a.inodes| && !a.inodes[t - 1].IsDir() && b == Bump(a, t)
    requires Inv(b, t) && Inv(c, t) && WellFormed(a.nodes) && |a.nodes| > 0
    requires WellFormed(b.nodes) && WellFormed(c.nodes) && ClearedAt(b, c, path) && path != []
    requires Find(c.nodes, 0, ParentOf(path)) == Some(p) && p < |c.nodes| && ParentIsDir(a, path)
    requires Find(a.nodes, 0, target) == Some(at) && at < |a.nodes| && a.nodes[at].link == None && a.nodes[at].inode == t
    requires Numbered(AddLink(c, p, Basename(path), t)) && |contents| == |a.origin|
    ensures Seen(AddLink(c, p, Basename(path), t), contents) == AfterLink(Seen(a, contents), path, target)
  {
    hide *;
    var d, v := AddLink(c, p, Basename(path), t), Seen(a, contents);
    InvParts(b, t);
    InvParts(c, t);
    InvKinds(c, t);
    InBounds();
    BumpSeen(a, t, contents);
    ClearedSame(b, c, path);
    ClearSeen(b, c, contents, t, path);
    BumpDirs(a, t, path);
    SlotIsFree(b, c, path, p);
    SeenGet(a, contents, target);
    NameInIs(v, target);
    NameInIs(v, path);
    SightIs(a, contents, target);
    SeenGet(a, contents, path);
    SightIs(a, contents, path);
    BumpIs(a, t);
    forall q: Path ensures SightAt(d, contents, q) == NameIn(AfterLink(v, path, target), q) {
      GetLinked(v, path, target, q);
      SeenGet(a, contents, q);
      SightIs(a, contents, q);
      SeenGet(c, contents, q);
      GetWithout(v, path, q);
      SightIs(c, contents, q);
      SightIs(d, contents, q);
      LinkFound(c, path, p, t, q);
      if q == path {
        StaysFileHere(a, b, c, t, path);
        LinkSight(a, c, p, Basename(path), t, at, contents);
      } else {
        if Find(c.nodes, 0, q).Some? {
          InTree(c.nodes, q, Find(c.nodes, 0, q).value);
          AddLinkSight(c, p, Basename(path), t, contents, Find(c.nodes, 0, q).value);
        }
        if path <= q && Find(a.nodes, 0, path).None? {
          NothingBelowNothing(a.nodes, path, q);
        }
      }
    }
    GetLinked(v, path, target, path);
    LinkNodeIs(c, p, Basename(path), t);
    SeenIs(d, contents, AfterLink(v, path, target));
  }

  lemma ClearedSame(b: Fs, c: Fs, path: Path)
    requires WellFormed(b.nodes) && WellFormed(c.nodes) && ClearedAt(b, c, path)
    ensures SameNodes(b, c) && |b.nodes| > 0 && |c.nodes| > 0 && |c.inodes| == |b.inodes|
    ensures forall q: Path :: Find(c.nodes, 0, q) == if path <= q then None else Find(b.nodes, 0, q)
  {
    hide InodeStep, Find;
  }

  lemma LinkFound(c: Fs, path: Path, p: nat, t: nat, q: Path)
    requires Numbered(c) && WellFormed(c.nodes) && |c.nodes| > 0 && FreeSlot(c, p, Basename(path)) && path != []
    requires Find(c.nodes, 0, ParentOf(path)) == Some(p) && p < |c.nodes|
    ensures WellFormed(AddLink(c, p, Basename(path), t).nodes) && |AddLink(c, p, Basename(path), t).nodes| == |c.nodes| + 1
    ensures Find(AddLink(c, p, Basename(path), t).nodes, 0, q) == if q == path then Some(|c.nodes|) else Find(c.nodes, 0, q)
  {
    assert path == ParentOf(path) + [Basename(path)];
    FindAfterAdd(c, p, LinkNode(Basename(path), t), ParentOf(path), q);
    hide Numbered, FreeSlot, WellFormed, Find;
  }

  lemma StaysFileHere(a: Fs, b: Fs, c: Fs, t: nat, path: Path)
    requires RESERVED < t <= |a.inodes| && !a.inodes[t - 1].IsDir() && b == Bump(a, t) && Inv(c, t)
    requires WellFormed(b.nodes) && WellFormed(c.nodes) && ClearedAt(b, c, path)
    ensures t <= |c.inodes| && c.inodes[t - 1].mode == a.inodes[t - 1].mode
    ensures c.inodes[t - 1].uid == a.inodes[t - 1].uid && c.inodes[t - 1].gid == a.inodes[t - 1].gid
  {
    assert InodeStep(b.inodes[t - 1], c.inodes[t - 1]);
    StaysFile(a, b, c, t, path);
    StillThereInode(c, t);
    hide Inv, ClearedAt, WellFormed, TypeBits;
  }

  lemma LinkSight(a: Fs, c: Fs, p: nat, name: Name, t: nat, at: nat, contents: seq<Content>)
    requires Numbered(a) && Numbered(c) && p < |c.nodes| && RESERVED < t <= |a.inodes| && t <= |c.inodes| && Numbered(AddLink(c, p, name, t))
    requires at < |a.nodes| && a.nodes[at].link == None && a.nodes[at].inode == t
    requires c.inodes[t - 1].mode == a.inodes[t - 1].mode && c.inodes[t - 1].uid == a.inodes[t - 1].uid && c.inodes[t - 1].gid == a.inodes[t - 1].gid
    ensures |AddLink(c, p, name, t).nodes| == |c.nodes| + 1
    ensures SightOf(AddLink(c, p, name, t), contents, |c.nodes|) == SightOf(a, contents, at).(hard := true)
  {
    var d := AddLink(c, p, name, t);
    assert d.nodes[|c.nodes|].link == Some(t);
    NamedInRange(a, at);
    NamedInRange(d, |c.nodes|);
    hide Numbered, ContentOf, WithChild;
  }

  lemma AddLinkSight(c: Fs, p: nat, name: Name, t: nat, contents: seq<Content>, i: nat)
    requires Numbered(c) && p < |c.nodes| && Numbered(AddLink(c, p, name, t)) && i < |c.nodes|
    ensures |AddLink(c, p, name, t).nodes| == |c.nodes| + 1
    ensures SightOf(AddLink(c, p, name, t), contents, i) == SightOf(c, contents, i)
  {
    var d := AddLink(c, p, name, t);
    assert d.nodes[i].link == c.nodes[i].link && d.nodes[i].inode == c.nodes[i].inode;
    SameSight(c, d, contents, i);
  }

  lemma BumpDirs(a: Fs, t: nat, path: Path)
    requires Numbered(a) && RESERVED < t <= |a.inodes| && Numbered(Bump(a, t))
    ensures ParentIsDir(a, path) == ParentIsDir(Bump(a, t), path)
  {
    var f := Find(a.nodes, 0, ParentOf(path));
    if f.Some? {
      assert f.value > 0 ==> NumberedNode(a, f.value);
    }
  }

  lemma BumpLinks(a: Fs, t: nat, path: Path)
    requires WellFormed(a.nodes) && 0 < t <= |a.inodes| && NothingLinkedAt(a, path)
    ensures NothingLinkedAt(Bump(a, t), path)
  {
    var f := Find(a.nodes, 0, path);
    if f.Some? {
      forall i | 0 <= i < |a.nodes| ensures LinkFree(Bump(a, t), f.value, i) {
        assert LinkFree(a, f.value, i);
      }
    }
  }

  lemma SlotIsPlain(b: Fs, c: Fs, path: Path, p: nat)
    requires WellFormed(b.nodes) && WellFormed(c.nodes) && ClearedAt(b, c, path)
    requires Find(c.nodes, 0, ParentOf(path)) == Some(p)
    ensures ParentIsPlain(b, path) ==> c.nodes[p].link == None
  {
  }

  lemma LinkTidy(a: Fs, b: Fs, c: Fs, path: Path, t: nat, p: nat)
    requires Inv(a, 0) && RESERVED < t <= |a.inodes| && !a.inodes[t - 1].IsDir() && b == Bump(a, t)
    requires Inv(b, t) && Inv(c, t) && ClearedAt(b, c, path) && path != []
    requires Find(c.nodes, 0, ParentOf(path)) == Some(p) && ParentIsDir(a, path)
    requires Numbered(AddLink(c, p, Basename(path), t))
    requires Tidy(b) && NothingLinkedAt(b, path) ==> Tidy(c)
    ensures Tidy(a) && NothingLinkedAt(a, path) && ParentIsPlain(a, path) ==> Tidy(AddLink(c, p, Basename(path), t))
  {
    hide *;
    InvParts(a, 0);
    InvParts(b, t);
    InvParts(c, t);
    InBounds();
    TidyIs(a);
    TidyIs(b);
    TidyIs(c);
    TidyIs(AddLink(c, p, Basename(path), t));
    if Tidy(a) && NothingLinkedAt(a, path) && ParentIsPlain(a, path) {
      BumpDirs(a, t, path);
      BumpLinks(a, t, path);
      BumpIs(a, t);
      BumpPlain(a, b, path);
      SlotIsFree(b, c, path, p);
      SlotIsPlain(b, c, path, p);
      BumpDirCounts(a, t);
      SameSizes(b, c, path);
      AddLinkDirCounts(c, p, Basename(path), t);
    }
  }

  lemma BumpPlain(a: Fs, b: Fs, path: Path)
    requires WellFormed(a.nodes) && WellFormed(b.nodes) && a.nodes == b.nodes
    ensures ParentIsPlain(a, path) == ParentIsPlain(b, path)
  {
  }

  lemma BumpDirCounts(a: Fs, t: nat)
    requires Numbered(a) && RESERVED < t <= |a.inodes| && !a.inodes[t - 1].IsDir() && Plain(a) && DirCounts(a) && Numbered(Bump(a, t))
    ensures Plain(Bump(a, t)) && DirCounts(Bump(a, t))
  {
    SetInodeDirCounts(a, t, a.inodes[t - 1].(links := a.inodes[t - 1].links + 1));
    hide Numbered, Plain, DirCounts;
  }

  lemma SameSizes(b: Fs, c: Fs, path: Path)
    requires WellFormed(b.nodes) && WellFormed(c.nodes) && ClearedAt(b, c, path)
    ensures |c.inodes| == |b.inodes|
  {
    ClearedSame(b, c, path);
  }

  /** The node whose child list loses `v`: its parent, or the root itself. */
  function Above(nodes: Nodes, v: nat): nat
    requires WellFormed(nodes) && v < |nodes|
  {
    if v == 0 then 0 else nodes[v].parent.value
  }

  /** What the code makes of the parent's count. */
  lemma ParentCount(fs: Fs, v: nat, p: nat)
    requires Numbered(fs) && WellFormed(fs.nodes) && v < |fs.nodes| && p == Above(fs.nodes, v) && p < |fs.nodes|
    requires 0 < fs.nodes[v].inode <= |fs.inodes| && 0 < fs.nodes[p].inode <= |fs.inodes| && fs.inodes[ROOT_INODE - 1].IsDir()
    ensures var k := fs.nodes[p].inode - 1;
      var inodes := if fs.inodes[fs.nodes[v].inode - 1].IsDir() && fs.inodes[k].links > 2
                    then fs.inodes[k := fs.inodes[k].(links := fs.inodes[k].links - 1)] else fs.inodes;
      && (v > 0 ==> inodes == ParentDropped(fs, v)) && (v == 0 ==> inodes == RootDropped(fs).inodes)
  {
    hide WellFormed, UniqueNames, NumberedNode, NumberedInode, IsDirMode;
  }

  lemma FoundHere(nodes: Nodes, path: Path, v: nat)
    requires WellFormed(nodes) && |nodes| > 0 && Find(nodes, 0, path) == Some(v)
    ensures v < |nodes|
  {
  }

  lemma ParentIsAbove(nodes: Nodes, v: nat)
    requires WellFormed(nodes) && v < |nodes|
    ensures v > 0 ==> nodes[v].parent.Some? && nodes[v].parent.value < |nodes| && Above(nodes, v) == nodes[v].parent.value
    ensures v == 0 ==> Above(nodes, v) == 0
  {
    hide KidsOk;
  }

  lemma AboveIs(nodes: Nodes, v: nat)
    requires WellFormed(nodes) && v < |nodes|
    ensures Above(nodes, v) < |nodes| && (v == 0 ==> Above(nodes, v) == 0)
    ensures v > 0 ==> nodes[v].parent == Some(Above(nodes, v))
  {
    hide KidsOk;
  }

  lemma RootIsDirectory(fs: Fs, extra: nat)
    requires Inv(fs, extra)
    ensures |fs.inodes| >= ROOT_INODE && fs.inodes[ROOT_INODE - 1].IsDir()
  {
    hide KindOk, NumberedNode, NumberedInode, WellFormed, UniqueNames, Counts, Ownership, Inode.IsDir;
  }

  lemma InRangeIs(fs: Fs, i: nat)
    requires i < |fs.nodes| && InodeInRange(fs, i)
    ensures 0 < fs.nodes[i].inode <= |fs.inodes|
  {
  }

  lemma NamelessRoot(path: Path)
    ensures path == [] ==> ParentOf(path) == [] && Basename(path) == SLASH
  {
  }

  lemma ParentToDrop(fs: Fs, extra: nat, path: Path, v: nat)
    requires Inv(fs, extra) && Find(fs.nodes, 0, path) == Some(v) && v < |fs.nodes|
    requires forall i :: 0 < i < |fs.nodes| ==> ValidName(fs.nodes[i].name)
    ensures 0 < fs.nodes[v].inode <= |fs.inodes|
    ensures var p := Above(fs.nodes, v);
      && p < |fs.nodes| && Find(fs.nodes, 0, ParentOf(path)) == Some(p)
      && 0 < fs.nodes[p].inode <= |fs.inodes| && InRange(fs.nodes, fs.nodes[p].children)
      && var k := fs.nodes[p].inode - 1;
         var inodes := if fs.inodes[fs.nodes[v].inode - 1].IsDir() && fs.inodes[k].links > 2
                       then fs.inodes[k := fs.inodes[k].(links := fs.inodes[k].links - 1)] else fs.inodes;
         && (v > 0 ==> inodes == ParentDropped(fs, v) && fs.nodes[v].parent == Some(p) && Basename(path) == fs.nodes[v].name)
         && (v == 0 ==> inodes == RootDropped(fs).inodes && WithoutChild(fs.nodes, p, Basename(path)) == fs.nodes)
  {
    hide *;
    InvParts(fs, extra);
    RootIsDirectory(fs, extra);
    var p := Above(fs.nodes, v);
    AboveIs(fs.nodes, v);
    NodeInode(fs, extra, v);
    NodeInode(fs, extra, p);
    InRangeIs(fs, v);
    InRangeIs(fs, p);
    FoundParent(fs.nodes, path, v);
    NamelessRoot(path);
    RootName(fs.nodes);
    ParentCount(fs, v, p);
  }

  predicate InodeInRange(fs: Fs, i: nat)
    requires i < |fs.nodes|
  {
    0 < fs.nodes[i].inode <= |fs.inodes|
  }

  lemma NodeInode(fs: Fs, extra: nat, i: nat)
    requires Inv(fs, extra) && i < |fs.nodes|
    ensures InodeInRange(fs, i) && InRange(fs.nodes, fs.nodes[i].children)
  {
    assert i > 0 ==> NumberedNode(fs, i);
    assert KidsOk(fs.nodes, i);
  }

  /** No entry is called "/", so asking the root to drop that child does nothing. */
  lemma RootName(nodes: Nodes)
    requires WellFormed(nodes) && forall i :: 0 < i < |nodes| ==> ValidName(nodes[i].name)
    ensures InRange(nodes, nodes[0].children) && WithoutChild(nodes, 0, SLASH) == nodes
  {
    assert KidsOk(nodes, 0);
    DropFirstNone(nodes, nodes[0].children, SLASH);
  }

  /** The parent's path leads to the parent, and the last component is the name. */
  lemma FoundParent(nodes: Nodes, path: Path, v: nat)
    requires WellFormed(nodes) && Find(nodes, 0, path) == Some(v)
    ensures v == 0 <==> path == []
    ensures v > 0 ==> Find(nodes, 0, ParentOf(path)) == nodes[v].parent && Basename(path) == nodes[v].name
    ensures v > 0 ==> Attached(nodes, v)
  {
    PathOfLookup(nodes, path);
    if path != [] {
      var up, name := ParentOf(path), Basename(path);
      assert path == up + [name];
      FindSnoc(nodes, up, name);
      var p := Find(nodes, 0, up).value;
      assert KidsOk(nodes, p);
      FirstIsKid(nodes, nodes[p].children, name);
    }
  }

  // ---- A new formatter ----

  const LOST_FOUND: Name :=
    ['l' as int, 'o' as int, 's' as int, 't' as int, '+' as int, 'f' as int, 'o' as int, 'u' as int, 'n' as int, 'd' as int]
  const DIR_0700: nat := 0x41C0

  const LOST: Request := Request(DIR_0700, None, None, None, None)

  /** The only names there are: the root and /lost+found. */
  ghost predicate OnlyLostFound(fs: Fs)
    requires Numbered(fs)
  {
    && LooksLikeDirectory(fs, [LOST_FOUND])
    && forall q: Path :: WellFormed(fs.nodes) && Find(fs.nodes, 0, q).Some? ==> q == [] || q == [LOST_FOUND]
  }

  lemma InitialTidy()
    ensures Numbered(InitialFs()) && Tidy(InitialFs())
  {
    InitialNumbered();
    var fs := InitialFs();
    assert SubDirs(fs, 0) == {};
    hide Numbered;
  }

  lemma InitialNames(q: Path)
    requires WellFormed(InitialFs().nodes)
    ensures Find(InitialFs().nodes, 0, q).Some? ==> q == []
  {
  }

  lemma InitialPlain(path: Path)
    requires WellFormed(InitialFs().nodes)
    ensures PlainWay(InitialFs(), path)
  {
    forall k | 0 <= k < |path| ensures PlainAt(InitialFs(), path[..k]) {
      InitialNames(path[..k]);
    }
  }

  lemma LostRequest()
    ensures Sensible(DIR_0700, None) && Owned(None, None) && IsDirMode(DIR_0700) && Canonical([LOST_FOUND])
    ensures LOST == Request(DIR_0700, None, None, None, None)
  {
  }

  lemma LostFoundMade(a: Snapshot, b: Snapshot)
    requires Inv(a.fs, 0) && Inv(b.fs, 0) && a.fs == InitialFs() && |b.contents| == |b.fs.origin|
    requires Outcome(a, b, [LOST_FOUND], LOST, true) && IsDirMode(LOST.mode)
    ensures Numbered(b.fs) && OnlyLostFound(b.fs)
  {
    assert Remade(a.fs, b.fs, [LOST_FOUND]) && LooksLikeDirectory(b.fs, [LOST_FOUND]);
    hide Numbered, Kinds, Counts, Ownership, InitialFs, LooksLikeDirectory, IsDirMode;
    forall q: Path | WellFormed(b.fs.nodes) && Find(b.fs.nodes, 0, q).Some? ensures q == [] || q == [LOST_FOUND] {
      InvParts(a.fs, 0);
      assert RemadeAt(a.fs, b.fs, [LOST_FOUND], q);
      InitialNames(q);
    }
  }

  lemma LostTidy(a: Snapshot, b: Snapshot, ok: bool)
    requires Inv(a.fs, 0) && Inv(b.fs, 0) && a.fs == InitialFs() && |b.contents| == |b.fs.origin|
    requires Outcome(a, b, [LOST_FOUND], LOST, ok) && IsDirMode(LOST.mode)
    ensures Numbered(b.fs) && Tidy(b.fs)
  {
    InitialTidy();
    InitialPlain([LOST_FOUND]);
    hide Numbered, Kinds, Counts, Ownership, InitialFs, IsDirMode, Tidy, Kept, Made, PlainWay, NothingLinkedAt;
  }

  lemma NowIs(f: Formatter)
    ensures f.Now() == Snapshot(f.View(), f.contents, f.file.bytes, f.file.pos)
  {
  }

  lemma OnDiskCounts(f: Formatter)
    requires f.Valid(0)
    ensures Inv(f.View(), 0) && |f.contents| == |f.View().origin|
  {
    hide Inv, FileTree.Valid;
  }

  /** `Formatter::with_options`: the descriptor table reserved, the reserved inodes
      in place, and /lost+found made. */
  method WithOptions(size: nat, allowPartialFinalGroup: bool) returns (f: Formatter, r: Result<(), FormatError>)
    requires size > 0
    ensures fresh(f) && fresh(f.file) && fresh(f.tree) && f.Valid(0) && Numbered(f.View()) && Tidy(f.View())
    ensures f.size == size && f.allowPartialFinalGroup == allowPartialFinalGroup && f.first == DescriptorBlocks(size) + 1
    ensures r == Ok(()) && OnlyLostFound(f.View()) && |f.View().nodes| + 9 == |f.View().inodes|
    ensures f.file.pos == f.first * 4096
    ensures Numbered(InitialFs())
    ensures Seen(f.View(), f.contents) == AfterCreate(Seen(InitialFs(), []), [LOST_FOUND], LOST)
  {
    hide *;
    f := new Formatter.Reserve(size, allowPartialFinalGroup);
    OnDiskCounts(f);
    NowIs(f);
    ghost var was := f.Now();
    LostRequest();
    r := f.Create([LOST_FOUND], DIR_0700, None, None, None, None);
    OnDiskCounts(f);
    NowIs(f);
    LostTidy(was, f.Now(), r.Ok?);
    InitialNumbered();
    OutcomeParts(was, f.Now(), [LOST_FOUND], LOST, r.Ok?);
    LostAnswer(f.View(), r);
    LostFoundMade(was, f.Now());
    LostSpent(was, f.Now());
  }

  lemma LostSpent(a: Snapshot, b: Snapshot)
    requires a.fs == InitialFs() && Kept(a, b, ChangedInode(a.fs, [LOST_FOUND], LOST))
    ensures |b.fs.nodes| + 9 == |b.fs.inodes|
    ensures Numbered(InitialFs()) && Spent(InitialFs(), [LOST_FOUND], LOST) == 0
  {
    InitialNumbered();
    assert IsDirMode(LOST.mode) && Wanted(LOST.mode, LOST.link, LOST.data) == Ok(Directory);
    hide Numbered, FilesKept, SameBelow, Find, Wanted, IsDirMode;
  }

  /** Nothing stands in the way of /lost+found. */
  lemma LostAnswer(b: Fs, r: Result<(), FormatError>)
    requires Replies(InitialFs(), b, [LOST_FOUND], LOST, r)
    ensures r == Ok(())
  {
    var fs := InitialFs();
    InitialNumbered();
    RootNode(fs);
    assert Find(fs.nodes, 0, [LOST_FOUND]) == None && Find(fs.nodes, 0, []) == Some(0);
    assert OwnInode(fs, 0) == ROOT && ROOT.IsDir();
    assert IsDirMode(LOST.mode) && Wanted(LOST.mode, LOST.link, LOST.data) == Ok(Directory);
    hide Numbered, Find, Wanted, OwnInode, IsDirMode, Inode.IsDir, InitialFs;
    UnderFound(fs, [LOST_FOUND], 0, LOST);
  }
}
