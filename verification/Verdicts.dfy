/** What each call ought to answer, said by names alone, and that the formatter
    answers just that. Only the limit on a directory's links is not seen from the
    names. */
module Verdicts {
  import opened Basics
  import opened OnDisk
  import opened Extents
  import opened Trees
  import opened Namespace
  import opened Unlinking
  import opened Contents
  import opened Requests
  import opened Views
  import opened Formatting

  /** Something that is no directory stands at `q`. Hard links do not count: the code
      takes them for directories. */
  ghost predicate FileAt(v: Volume, q: Path) {
    q in v.names && !v.names[q].hard && v.names[q].content != Directory
  }

  /** Something that is no directory lies on the way to `path`. */
  ghost predicate Blocked(v: Volume, path: Path) {
    exists q :: q < path && FileAt(v, q)
  }

  function Plainly(c: Result<Content, FormatError>): Result<(), FormatError> {
    match c case Ok(_) => Ok(()) case Err(e) => Err(e)
  }

  ghost function CreateVerdict(v: Volume, path: Path, req: Request): Result<(), FormatError> {
    if IsDirMode(req.mode) && path in v.names then if FileAt(v, path) then Err(NotDirectory) else Ok(())
    else if path in v.names && !v.names[path].hard && v.names[path].content == Directory && !IsLinkMode(req.mode) then Err(NotFile)
    else if Blocked(v, path) then Err(NotDirectory)
    else Plainly(Wanted(req.mode, req.link, req.data))
  }

  /** Directories are not linked to, and hard links neither. */
  ghost function LinkVerdict(v: Volume, linkPath: Path, targetPath: Path): Result<(), FormatError> {
    if targetPath !in v.names then Err(NotFound)
    else if !FileAt(v, targetPath) then Err(CannotHardlinkDirectory)
    else if ParentOf(linkPath) !in v.names then Err(NotFound)
    else Ok(())
  }

  ghost function UnlinkVerdict(v: Volume, path: Path, directoryWhiteout: bool): Result<(), FormatError> {
    if directoryWhiteout && FileAt(v, path) then Err(NotDirectory) else Ok(())
  }

  // ---- The same, from what the formatter holds ----

  /** What the names tell about one of them is what the code looks at. */
  lemma FileSeen(fs: Fs, contents: seq<Content>, img: seq<byte>, limit: nat, first: nat, q: Path)
    requires Inv(fs, 0) && OnDiskOk(fs, contents, img, limit, first)
    ensures Numbered(fs) && WellFormed(fs.nodes) && |fs.nodes| > 0
    ensures var v, f := Seen(fs, contents), Find(fs.nodes, 0, q);
      && (q in v.names <==> f.Some?) && (f.Some? ==> f.value < |fs.nodes|)
      && (f.Some? ==> (v.names[q].hard <==> fs.nodes[f.value].link.Some?))
      && (f.Some? && !v.names[q].hard ==> (OwnInode(fs, f.value).IsDir() <==> v.names[q].content == Directory))
      && (FileAt(v, q) <==> f.Some? && !OwnInode(fs, f.value).IsDir())
  {
    hide *;
    InvParts(fs, 0);
    InvKinds(fs, 0);
    SeenGet(fs, contents, q);
    NameInIs(Seen(fs, contents), q);
    SightIs(fs, contents, q);
    FileAtIs(Seen(fs, contents), q);
    var f := Find(fs.nodes, 0, q);
    if f.Some? {
      PathOfLookup(fs.nodes, q);
      NamedInode(fs, 0, f.value);
      TypeSeen(fs, contents, img, limit, first, f.value);
    }
  }

  lemma FileAtIs(v: Volume, q: Path)
    ensures FileAt(v, q) <==> q in v.names && !v.names[q].hard && v.names[q].content != Directory
  {
  }

  lemma TypeSeen(fs: Fs, contents: seq<Content>, img: seq<byte>, limit: nat, first: nat, i: nat)
    requires Numbered(fs) && Kinds(fs) && OnDiskOk(fs, contents, img, limit, first) && i < |fs.nodes|
    requires 0 < Target(fs.nodes[i]) <= |fs.inodes| && fs.inodes[Target(fs.nodes[i]) - 1].links > 0
    ensures SightOf(fs, contents, i).hard <==> fs.nodes[i].link.Some?
    ensures fs.nodes[i].link.Some? ==> OwnInode(fs, i).IsDir()
    ensures fs.nodes[i].link == None ==> (OwnInode(fs, i).IsDir() <==> SightOf(fs, contents, i).content == Directory)
  {
    var n := fs.nodes[i].inode;
    if i == 0 {
      RootNode(fs);
    } else {
      assert NumberedNode(fs, i);
      if fs.nodes[i].link == None {
        assert StoredOk(fs, contents, img, limit, n);
        OneKind(fs.inodes[n - 1]);
      }
    }
    hide Numbered, Kinds, DataStored, IsDirMode, Inode.Fits;
  }

  lemma OneKind(inode: Inode)
    ensures inode.IsReg() || inode.IsLink() ==> !inode.IsDir()
  {
  }

  /** Above a name there are only directories. */
  lemma {:induction false} NotBlocked(fs: Fs, contents: seq<Content>, img: seq<byte>, limit: nat, first: nat, path: Path)
    requires Inv(fs, 0) && OnDiskOk(fs, contents, img, limit, first)
    ensures Numbered(fs) && WellFormed(fs.nodes) && |fs.nodes| > 0
    ensures Find(fs.nodes, 0, path).Some? ==> !Blocked(Seen(fs, contents), path)
    decreases |path|
  {
    hide *;
    InvKinds(fs, 0);
    InvParts(fs, 0);
    var v := Seen(fs, contents);
    if path == [] {
      BlockedUp(v, path);
    } else if Find(fs.nodes, 0, path).Some? {
      var i := Find(fs.nodes, 0, path).value;
      FoundParent(fs.nodes, path, i);
      ParentRequest(path);
      HasKids(fs.nodes, i);
      var p := fs.nodes[i].parent.value;
      KindAt(fs, p);
      FileSeen(fs, contents, img, limit, first, ParentOf(path));
      NotBlocked(fs, contents, img, limit, first, ParentOf(path));
      BlockedUp(v, path);
    }
  }

  lemma KindAt(fs: Fs, p: nat)
    requires Numbered(fs) && Kinds(fs) && p < |fs.nodes| && fs.nodes[p].children != []
    ensures OwnInode(fs, p).IsDir()
  {
    assert KindOk(fs, p);
    hide Numbered, OwnInode;
  }

  /** The way to a path is the way to its parent, and the parent. */
  lemma BlockedUp(v: Volume, path: Path)
    ensures path == [] ==> !Blocked(v, path)
    ensures path != [] ==> (Blocked(v, path) <==> FileAt(v, ParentOf(path)) || Blocked(v, ParentOf(path)))
  {
    hide FileAt;
    if path != [] {
      var p := ParentOf(path);
      if Blocked(v, path) {
        var q :| q < path && FileAt(v, q);
        StepUp(path, q);
      }
      if Blocked(v, p) {
        var q :| q < p && FileAt(v, q);
        StepUp(path, q);
      }
      StepUp(path, p);
    }
  }

  lemma StepUp(path: Path, q: Path)
    requires path != []
    ensures q < path <==> q < ParentOf(path) || q == ParentOf(path)
  {
    assert path == ParentOf(path) + [path[|path| - 1]];
  }

  /** `create` answers as the names tell, short of the limit on links. */
  lemma {:induction false} AnswerSeen(fs: Fs, contents: seq<Content>, img: seq<byte>, limit: nat, first: nat, path: Path, req: Request)
    requires Inv(fs, 0) && OnDiskOk(fs, contents, img, limit, first) && Numbered(fs)
    ensures Answer(fs, path, req) == Err(MaximumLinksExceeded) || Answer(fs, path, req) == CreateVerdict(Seen(fs, contents), path, req)
    decreases |path|
  {
    hide *;
    var v := Seen(fs, contents);
    InvParts(fs, 0);
    FileSeen(fs, contents, img, limit, first, path);
    NotBlocked(fs, contents, img, limit, first, path);
    RootNode(fs);
    BlockedUp(v, path);
    CreateVerdictIs(v, path, req);
    match Find(fs.nodes, 0, path)
    case Some(i) =>
      AnswerIs(fs, path, i, req);
      EnteredIs(ParentLinks(fs, path, 0), req);
      PlainlyIs(Wanted(req.mode, req.link, req.data));
    case None =>
      FindRoot(fs, path);
      var up := ParentOf(path);
      ParentRequest(path);
      AnswerSeen(fs, contents, img, limit, first, up, PARENT);
      FileSeen(fs, contents, img, limit, first, up);
      NotBlocked(fs, contents, img, limit, first, up);
      CreateVerdictIs(v, up, PARENT);
      PlainlyIs(Wanted(PARENT.mode, PARENT.link, PARENT.data));
      ParentWanted();
      FreeAnswer(fs, path, req);
      EnteredIs(LinksAt(fs, up), req);
      PlainlyIs(Wanted(req.mode, req.link, req.data));
  }

  lemma FindRoot(fs: Fs, path: Path)
    requires Numbered(fs) && WellFormed(fs.nodes) && |fs.nodes| > 0 && Find(fs.nodes, 0, path) == None
    ensures path != []
  {
  }

  lemma ParentWanted()
    ensures IsDirMode(PARENT.mode) && Wanted(PARENT.mode, PARENT.link, PARENT.data) == Ok(Directory)
  {
  }

  lemma PlainlyIs(c: Result<Content, FormatError>)
    ensures Plainly(c) == if c.Ok? then Ok(()) else Err(c.error)
  {
  }

  lemma CreateVerdictIs(v: Volume, path: Path, req: Request)
    ensures CreateVerdict(v, path, req) ==
      if IsDirMode(req.mode) && path in v.names then if FileAt(v, path) then Err(NotDirectory) else Ok(())
      else if path in v.names && !v.names[path].hard && v.names[path].content == Directory && !IsLinkMode(req.mode) then Err(NotFile)
      else if Blocked(v, path) then Err(NotDirectory)
      else Plainly(Wanted(req.mode, req.link, req.data))
  {
    hide FileAt, Blocked, IsDirMode, IsLinkMode, Plainly, Wanted;
  }

  lemma AnswerIs(fs: Fs, path: Path, i: nat, req: Request)
    requires Numbered(fs) && WellFormed(fs.nodes) && |fs.nodes| > 0 && Find(fs.nodes, 0, path) == Some(i) && i < |fs.nodes|
    ensures Answer(fs, path, req) ==
      if IsDirMode(req.mode) then if OwnInode(fs, i).IsDir() then Ok(()) else Err(NotDirectory)
      else if fs.nodes[i].link == None && OwnInode(fs, i).IsDir() && !IsLinkMode(req.mode) then Err(NotFile)
      else Entered(ParentLinks(fs, path, 0), req)
  {
    hide Numbered, WellFormed, Find, OwnInode, IsDirMode, IsLinkMode, Inode.IsDir, Entered, ParentLinks;
  }

  lemma FreeAnswer(fs: Fs, path: Path, req: Request)
    requires Numbered(fs) && WellFormed(fs.nodes) && |fs.nodes| > 0 && Find(fs.nodes, 0, path) == None && path != []
    ensures var up := Answer(fs, ParentOf(path), PARENT);
      Answer(fs, path, req) == if up.Err? then Err(up.error) else Entered(LinksAt(fs, ParentOf(path)), req)
  {
    hide Numbered, WellFormed, Find, Entered, LinksAt;
  }

  /** `link` answers as the names tell, short of the limit on links. */
  lemma LinkAnswerSeen(fs: Fs, contents: seq<Content>, img: seq<byte>, limit: nat, first: nat, linkPath: Path, targetPath: Path)
    requires Inv(fs, 0) && OnDiskOk(fs, contents, img, limit, first) && Numbered(fs)
    ensures var v, t := Seen(fs, contents), LinkTarget(fs, targetPath);
      var verdict := LinkVerdict(v, linkPath, targetPath);
      && (t.Err? ==> verdict == Err(t.error))
      && (t.Ok? ==> LinkAnswer(fs, linkPath, t.value) == Err(MaximumLinksExceeded) || LinkAnswer(fs, linkPath, t.value) == verdict)
  {
    hide *;
    FileSeen(fs, contents, img, limit, first, targetPath);
    FileSeen(fs, contents, img, limit, first, ParentOf(linkPath));
    TargetIsOk(fs, targetPath);
    LinkVerdictIs(Seen(fs, contents), linkPath, targetPath);
    if LinkTarget(fs, targetPath).Ok? {
      LinkAnswerIs(fs, linkPath, LinkTarget(fs, targetPath).value);
    }
  }

  lemma TargetIsOk(fs: Fs, path: Path)
    requires Numbered(fs)
    ensures WellFormed(fs.nodes) && |fs.nodes| > 0
    ensures var f := Find(fs.nodes, 0, path);
      && (f.None? ==> LinkTarget(fs, path) == Err(NotFound))
      && (f.Some? ==> f.value < |fs.nodes|)
      && (f.Some? ==> LinkTarget(fs, path) == if OwnInode(fs, f.value).IsDir() then Err(CannotHardlinkDirectory) else Ok(fs.nodes[f.value].inode))
  {
    Shaped(fs);
    hide Numbered, OwnInode, Inode.IsDir;
  }

  lemma LinkVerdictIs(v: Volume, linkPath: Path, targetPath: Path)
    ensures LinkVerdict(v, linkPath, targetPath) ==
      if targetPath !in v.names then Err(NotFound)
      else if !FileAt(v, targetPath) then Err(CannotHardlinkDirectory)
      else if ParentOf(linkPath) !in v.names then Err(NotFound)
      else Ok(())
  {
    hide FileAt;
  }
}
