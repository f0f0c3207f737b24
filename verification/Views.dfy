/** A file system as its user sees it: names, and what lies under them; and what
    each call ought to make of it. */
module Views {
  import opened Basics
  import opened OnDisk
  import opened Extents
  import opened Trees
  import opened Namespace
  import opened Unlinking
  import opened Contents
  import opened Requests

  /** What is seen under a name: the inode's number, whether the name is a hard
      link, the contents and attributes. */
  datatype Sight = Sight(number: nat, hard: bool, content: Content, mode: nat, uid: nat, gid: nat)

  /** All names, and the last inode number handed out. */
  datatype Volume = Volume(names: imap<Path, Sight>, count: nat)

  ghost function NameIn(v: Volume, q: Path): Option<Sight> {
    if q in v.names then Some(v.names[q]) else None
  }

  lemma NameInIs(v: Volume, q: Path)
    ensures NameIn(v, q) == if q in v.names then Some(v.names[q]) else None
  {
  }

  // ---- What each call ought to do ----

  /** Without `path` and everything below it. */
  ghost function Without(v: Volume, path: Path): Volume {
    v.(names := imap q | q in v.names && !(path <= q) :: v.names[q])
  }

  /** Without everything below `path`. */
  ghost function WithoutBelow(v: Volume, path: Path): Volume {
    v.(names := imap q | q in v.names && !(path < q) :: v.names[q])
  }

  /** The name whose inode the code looks at under `path`: for a hard link it is
      the placeholder, the root's. */
  ghost function Carrier(v: Volume, path: Path): Path {
    if path in v.names && v.names[path].hard then [] else path
  }

  /** One more name, with the next number; an owner not given is that of the
      parent. */
  ghost function Add(v: Volume, path: Path, content: Content, mode: nat, uid: Option<nat>, gid: Option<nat>): Volume {
    var up := NameIn(v, Carrier(v, ParentOf(path)));
    var sight := Sight(v.count + 1, false, content, if IsLinkMode(mode) then WithAllPerms(mode) else mode,
                       if uid.Some? then uid.value else if up.Some? then up.value.uid else 0,
                       if gid.Some? then gid.value else if up.Some? then up.value.gid else 0);
    Volume(v.names[path := sight], v.count + 1)
  }

  /** `mkdir -p`. */
  ghost function MakeDirs(v: Volume, path: Path): Volume
    decreases |path|
  {
    if path in v.names || path == [] then v
    else Add(MakeDirs(v, ParentOf(path)), path, Directory, DIR_0755, None, None)
  }

  ghost function Chowned(s: Sight, req: Request): Sight {
    s.(mode := req.mode, uid := if req.uid.Some? then req.uid.value else s.uid, gid := if req.gid.Some? then req.gid.value else s.gid)
  }

  /** A directory asked for where something stands: nothing happens unless an owner
      is given; then mode and owner of the inode looked at change. */
  ghost function Redone(v: Volume, path: Path, req: Request): Volume {
    var at := NameIn(v, Carrier(v, path));
    if at.None? || (req.uid.None? && req.gid.None?) then v
    else v.(names := imap q | q in v.names :: if v.names[q].number == at.value.number then Chowned(v.names[q], req) else v.names[q])
  }

  /** A successful `create`. */
  ghost function AfterCreate(v: Volume, path: Path, req: Request): Volume {
    if IsDirMode(req.mode) && path in v.names then Redone(v, path, req)
    else
      match Wanted(req.mode, req.link, req.data)
      case Err(_) => v
      case Ok(c) =>
        Add(MakeDirs(if path in v.names then Without(v, path) else v, ParentOf(path)), path, c, req.mode, req.uid, req.gid)
  }

  /** A successful `link`: another name for the same inode. */
  ghost function AfterLink(v: Volume, linkPath: Path, targetPath: Path): Volume {
    if targetPath !in v.names then v
    else
      var base := if linkPath in v.names then Without(v, linkPath) else v;
      base.(names := base.names[linkPath := v.names[targetPath].(hard := true)])
  }

  /** A successful `unlink`. The root itself stays. */
  ghost function AfterUnlink(v: Volume, path: Path, directoryWhiteout: bool): Volume {
    if path !in v.names then v
    else if directoryWhiteout || path == [] then WithoutBelow(v, path)
    else Without(v, path)
  }

  // ---- What the formatter holds, seen that way ----

  function ContentOf(contents: seq<Content>, n: nat): Content {
    if RESERVED < n && n - 11 < |contents| then contents[n - 11] else Directory
  }

  function SightOf(fs: Fs, contents: seq<Content>, i: nat): Sight
    requires Numbered(fs) && i < |fs.nodes|
  {
    var n, inode := Target(fs.nodes[i]), TargetInode(fs, i);
    Sight(n, fs.nodes[i].link.Some?, ContentOf(contents, n), inode.mode, inode.uid, inode.gid)
  }

  function SightAt(fs: Fs, contents: seq<Content>, q: Path): Option<Sight>
    requires Numbered(fs)
  {
    match Find(fs.nodes, 0, q)
    case None => None
    case Some(i) => Some(SightOf(fs, contents, i))
  }

  ghost function Seen(fs: Fs, contents: seq<Content>): Volume
    requires Numbered(fs)
  {
    Volume(imap q: Path | SightAt(fs, contents, q).Some? :: SightAt(fs, contents, q).value, |fs.inodes|)
  }

  lemma SeenGet(fs: Fs, contents: seq<Content>, q: Path)
    requires Numbered(fs)
    ensures NameIn(Seen(fs, contents), q) == SightAt(fs, contents, q) && Seen(fs, contents).count == |fs.inodes|
    ensures q in Seen(fs, contents).names <==> SightAt(fs, contents, q).Some?
  {
    hide Numbered, SightAt;
  }

  lemma SeenIs(fs: Fs, contents: seq<Content>, v: Volume)
    requires Numbered(fs) && v.count == |fs.inodes| && forall q: Path :: SightAt(fs, contents, q) == NameIn(v, q)
    ensures Seen(fs, contents) == v
  {
    hide Numbered, SightAt;
    forall q: Path ensures q in Seen(fs, contents).names <==> q in v.names {
      assert SightAt(fs, contents, q) == NameIn(v, q);
    }
    forall q: Path | q in v.names ensures Seen(fs, contents).names[q] == v.names[q] {
      assert SightAt(fs, contents, q) == NameIn(v, q);
    }
    assert Seen(fs, contents).names == v.names;
  }

  lemma SightIs(fs: Fs, contents: seq<Content>, q: Path)
    requires Numbered(fs)
    ensures WellFormed(fs.nodes) && |fs.nodes| > 0
    ensures Find(fs.nodes, 0, q).None? <==> SightAt(fs, contents, q).None?
    ensures Find(fs.nodes, 0, q).Some? ==> SightAt(fs, contents, q) == Some(SightOf(fs, contents, Find(fs.nodes, 0, q).value))
  {
    Shaped(fs);
    hide Numbered, SightOf;
  }

  lemma GetWithout(v: Volume, path: Path, q: Path)
    ensures NameIn(Without(v, path), q) == if path <= q then None else NameIn(v, q)
    ensures NameIn(WithoutBelow(v, path), q) == if path < q then None else NameIn(v, q)
    ensures Without(v, path).count == WithoutBelow(v, path).count == v.count
  {
  }

  // ---- Removing ----

  /** What an attached name stands for keeps its contents and attributes while
      other names are removed. */
  lemma SightStays(a: Fs, b: Fs, contents: seq<Content>, extra: nat, i: nat)
    requires Numbered(a) && Numbered(b) && Counts(b, extra) && Kinds(b) && SameNodes(a, b) && i < |a.nodes|
    requires WellFormed(b.nodes) && Attached(b.nodes, i)
    ensures SightOf(b, contents, i) == SightOf(a, contents, i)
  {
    var n := Target(a.nodes[i]);
    assert b.nodes[i] == a.nodes[i].(children := b.nodes[i].children);
    NamedInode(b, extra, i);
    NamedInRange(a, i);
    assert InodeStep(a.inodes[n - 1], b.inodes[n - 1]);
    hide Numbered, Counts, Kinds, SameNodes, Attached, ContentOf;
  }

  lemma NamedInRange(fs: Fs, i: nat)
    requires Numbered(fs) && i < |fs.nodes|
    ensures 0 < Target(fs.nodes[i]) <= |fs.inodes| && TargetInode(fs, i) == fs.inodes[Target(fs.nodes[i]) - 1]
  {
    assert i > 0 ==> NumberedNode(fs, i);
  }

  /** An inode with a name has links. */
  lemma NamedInode(fs: Fs, extra: nat, i: nat)
    requires Numbered(fs) && Counts(fs, extra) && Kinds(fs) && i < |fs.nodes| && WellFormed(fs.nodes) && Attached(fs.nodes, i)
    ensures 0 < Target(fs.nodes[i]) <= |fs.inodes| && fs.inodes[Target(fs.nodes[i]) - 1].links > 0
  {
    NamedInRange(fs, i);
    if i > 0 {
      assert NumberedNode(fs, i);
      var n := Target(fs.nodes[i]);
      assert CountOk(fs, extra, n);
      assert i in Names(fs.nodes, n);
      hide Numbered, Kinds, Attached;
    }
  }

  /** Clearing a path, as its user sees it. */
  lemma ClearSeen(a: Fs, b: Fs, contents: seq<Content>, extra: nat, path: Path)
    requires Numbered(a) && Numbered(b) && Counts(b, extra) && Kinds(b) && SameNodes(a, b) && WellFormed(a.nodes) && WellFormed(b.nodes)
    requires forall q: Path :: Find(b.nodes, 0, q) == if path <= q then None else Find(a.nodes, 0, q)
    ensures Seen(b, contents) == Without(Seen(a, contents), path)
  {
    var v := Without(Seen(a, contents), path);
    forall q: Path ensures SightAt(b, contents, q) == NameIn(v, q) {
      RemainsSeen(a, b, contents, extra, q);
      SeenGet(a, contents, q);
      GetWithout(Seen(a, contents), path, q);
      hide Numbered, Counts, Kinds, SameNodes, SightAt, Without, Seen, Find;
    }
    SameCount(a, b, contents, path);
    hide Numbered, Counts, Kinds, SameNodes, SightAt, Without, Seen;
    SeenIs(b, contents, v);
  }

  lemma SameCount(a: Fs, b: Fs, contents: seq<Content>, path: Path)
    requires Numbered(a) && SameNodes(a, b)
    ensures Without(Seen(a, contents), path).count == |b.inodes| == WithoutBelow(Seen(a, contents), path).count
  {
  }

  /** A name that is still found is seen as before; one that is not, is not. */
  lemma RemainsSeen(a: Fs, b: Fs, contents: seq<Content>, extra: nat, q: Path)
    requires Numbered(a) && Numbered(b) && Counts(b, extra) && Kinds(b) && SameNodes(a, b)
    ensures WellFormed(a.nodes) && WellFormed(b.nodes) && |a.nodes| > 0 && |b.nodes| > 0
    ensures Find(b.nodes, 0, q).None? ==> SightAt(b, contents, q) == None
    ensures Find(b.nodes, 0, q).Some? && Find(b.nodes, 0, q) == Find(a.nodes, 0, q) ==> SightAt(b, contents, q) == SightAt(a, contents, q)
  {
    SameLength(a, b);
    hide *;
    SightIs(a, contents, q);
    SightIs(b, contents, q);
    var f := Find(b.nodes, 0, q);
    if f.Some? && f == Find(a.nodes, 0, q) {
      PathOfLookup(b.nodes, q);
      InTree(b.nodes, q, f.value);
      SightStays(a, b, contents, extra, f.value);
    }
  }

  lemma SameLength(a: Fs, b: Fs)
    requires SameNodes(a, b)
    ensures |a.nodes| == |b.nodes| && |a.inodes| == |b.inodes|
  {
  }

  lemma InTree(nodes: Nodes, q: Path, i: nat)
    requires WellFormed(nodes) && |nodes| > 0 && Find(nodes, 0, q) == Some(i)
    ensures i < |nodes|
  {
  }

  /** Emptying a directory, as its user sees it. */
  lemma EmptySeen(a: Fs, b: Fs, contents: seq<Content>, extra: nat, path: Path)
    requires Numbered(a) && Numbered(b) && Counts(b, extra) && Kinds(b) && SameNodes(a, b) && WellFormed(a.nodes) && WellFormed(b.nodes)
    requires forall q: Path :: Find(b.nodes, 0, q) == if path < q then None else Find(a.nodes, 0, q)
    ensures Seen(b, contents) == WithoutBelow(Seen(a, contents), path)
  {
    var v := WithoutBelow(Seen(a, contents), path);
    forall q: Path ensures SightAt(b, contents, q) == NameIn(v, q) {
      RemainsSeen(a, b, contents, extra, q);
      SeenGet(a, contents, q);
      GetWithout(Seen(a, contents), path, q);
      hide Numbered, Counts, Kinds, SameNodes, SightAt, WithoutBelow, Seen, Find;
    }
    SameCount(a, b, contents, path);
    hide Numbered, Counts, Kinds, SameNodes, SightAt, WithoutBelow, Seen;
    SeenIs(b, contents, v);
  }

  // ---- Adding ----

  lemma GetAdd(v: Volume, path: Path, content: Content, mode: nat, uid: Option<nat>, gid: Option<nat>, q: Path)
    ensures var r, up := Add(v, path, content, mode, uid, gid), NameIn(v, Carrier(v, ParentOf(path)));
      && r.count == v.count + 1
      && NameIn(r, q) ==
         if q == path then
           Some(Sight(v.count + 1, false, content, if IsLinkMode(mode) then WithAllPerms(mode) else mode,
                      if uid.Some? then uid.value else if up.Some? then up.value.uid else 0,
                      if gid.Some? then gid.value else if up.Some? then up.value.gid else 0))
         else NameIn(v, q)
  {
    hide Carrier, IsLinkMode, WithAllPerms, ParentOf;
  }

  /** The inode the code looks at under a path, as the user sees it. */
  lemma CarrierIs(fs: Fs, contents: seq<Content>, path: Path, p: nat)
    requires Numbered(fs) && WellFormed(fs.nodes) && |fs.nodes| > 0 && Find(fs.nodes, 0, path) == Some(p) && p < |fs.nodes|
    ensures var v := Seen(fs, contents); var s := NameIn(v, Carrier(v, path));
      && s.Some? && s.value.number == fs.nodes[p].inode
      && s.value.mode == OwnInode(fs, p).mode && s.value.uid == OwnInode(fs, p).uid && s.value.gid == OwnInode(fs, p).gid
      && s.value.hard == false
  {
    var v := Seen(fs, contents);
    SeenGet(fs, contents, path);
    SeenGet(fs, contents, []);
    SightIs(fs, contents, path);
    SightIs(fs, contents, []);
    RootNode(fs);
    if p > 0 {
      assert NumberedNode(fs, p);
    }
    hide Numbered, WellFormed, Seen, SightAt, ContentOf;
  }

  lemma RootNode(fs: Fs)
    requires Numbered(fs)
    ensures WellFormed(fs.nodes) && |fs.nodes| > 0 && Find(fs.nodes, 0, []) == Some(0)
    ensures fs.nodes[0].inode == ROOT_INODE && fs.nodes[0].link == None
  {
    Shaped(fs);
    hide NumberedNode, NumberedInode, WellFormed, UniqueNames;
  }

  lemma NameAt(fs: Fs, contents: seq<Content>, q: Path)
    requires Numbered(fs)
    ensures WellFormed(fs.nodes) && |fs.nodes| > 0
    ensures var v, f := Seen(fs, contents), Find(fs.nodes, 0, q);
      && (q in v.names <==> f.Some?)
      && (f.Some? ==> f.value < |fs.nodes| && v.names[q] == SightOf(fs, contents, f.value) && v.names[q].hard == fs.nodes[f.value].link.Some?)
  {
    RootNode(fs);
    SeenGet(fs, contents, q);
    SightIs(fs, contents, q);
    NameInIs(Seen(fs, contents), q);
    if Find(fs.nodes, 0, q).Some? {
      InTree(fs.nodes, q, Find(fs.nodes, 0, q).value);
    }
    hide Numbered, Seen, SightAt, Find, WellFormed, NameIn, TargetInode, Target, ContentOf;
  }

  /** A new inode under a new name, as the user sees it. */
  lemma AttachSeen(a: Fs, p: nat, path: Path, inode: Inode, blocks: Option<BlockRange>, contents: seq<Content>, c: Content,
                   mode: nat, uid: Option<nat>, gid: Option<nat>)
    requires Numbered(a) && WellFormed(a.nodes) && |a.nodes| > 0 && FreeSlot(a, p, Basename(path)) && path != []
    requires Find(a.nodes, 0, ParentOf(path)) == Some(p) && |contents| == |a.origin|
    requires Numbered(Attach(a, p, Basename(path), inode, blocks)) && WellFormed(Attach(a, p, Basename(path), inode, blocks).nodes)
    requires forall q: Path :: Find(Attach(a, p, Basename(path), inode, blocks).nodes, 0, q)
                               == if q == path then Some(|a.nodes|) else Find(a.nodes, 0, q)
    requires inode.mode == (if IsLinkMode(mode) then WithAllPerms(mode) else mode)
    requires inode.uid == (if uid.Some? then uid.value else OwnInode(a, p).uid)
    requires inode.gid == (if gid.Some? then gid.value else OwnInode(a, p).gid)
    ensures Seen(Attach(a, p, Basename(path), inode, blocks), contents + [c]) == Add(Seen(a, contents), path, c, mode, uid, gid)
  {
    var b, v := Attach(a, p, Basename(path), inode, blocks), Seen(a, contents);
    var r := Add(v, path, c, mode, uid, gid);
    hide *;
    AttachSizes(a, p, Basename(path), inode, blocks);
    CarrierIs(a, contents, ParentOf(path), p);
    SeenGet(a, contents, path);
    forall q: Path ensures SightAt(b, contents + [c], q) == NameIn(r, q) {
      GetAdd(v, path, c, mode, uid, gid, q);
      SeenGet(a, contents, q);
      SightIs(a, contents, q);
      SightIs(b, contents + [c], q);
      if q == path {
        NewSight(a, p, Basename(path), inode, blocks, contents, c);
      } else if Find(a.nodes, 0, q).Some? {
        InTree(a.nodes, q, Find(a.nodes, 0, q).value);
        OldSight(a, p, Basename(path), inode, blocks, contents, c, Find(a.nodes, 0, q).value);
      }
    }
    GetAdd(v, path, c, mode, uid, gid, path);
    SeenIs(b, contents + [c], r);
  }

  lemma AttachSizes(a: Fs, p: nat, name: Name, inode: Inode, blocks: Option<BlockRange>)
    requires Numbered(a) && p < |a.nodes|
    ensures var b := Attach(a, p, name, inode, blocks); |b.nodes| == |a.nodes| + 1 && |b.inodes| == |a.inodes| + 1
  {
    hide Attach;
  }

  lemma NewSight(a: Fs, p: nat, name: Name, inode: Inode, blocks: Option<BlockRange>, contents: seq<Content>, c: Content)
    requires Numbered(a) && p < |a.nodes| && |contents| == |a.origin| && Numbered(Attach(a, p, name, inode, blocks))
    ensures |Attach(a, p, name, inode, blocks).nodes| == |a.nodes| + 1
    ensures SightOf(Attach(a, p, name, inode, blocks), contents + [c], |a.nodes|)
         == Sight(|a.inodes| + 1, false, c, inode.mode, inode.uid, inode.gid)
  {
    var b := Attach(a, p, name, inode, blocks);
    Shaped(a);
    assert b.nodes[|a.nodes|].link == None && b.nodes[|a.nodes|].inode == |a.inodes| + 1;
    hide NumberedNode, NumberedInode, WellFormed, UniqueNames, Attach;
  }

  lemma OldSight(a: Fs, p: nat, name: Name, inode: Inode, blocks: Option<BlockRange>, contents: seq<Content>, c: Content, i: nat)
    requires Numbered(a) && FreeSlot(a, p, name) && |contents| == |a.origin| && Numbered(Attach(a, p, name, inode, blocks)) && i < |a.nodes|
    ensures |Attach(a, p, name, inode, blocks).nodes| == |a.nodes| + 1
    ensures SightOf(Attach(a, p, name, inode, blocks), contents + [c], i) == SightOf(a, contents, i)
  {
    var b, n := Attach(a, p, name, inode, blocks), Target(a.nodes[i]);
    NamedInRange(a, i);
    NamedInRange(b, i);
    AttachInode(a, p, name, inode, blocks, n);
    assert b.nodes[i].link == a.nodes[i].link && b.nodes[i].inode == a.nodes[i].inode;
    Shaped(a);
    hide Numbered, FreeSlot, Attach;
  }

  // ---- Changing a directory's attributes ----

  lemma ChownSeen(a: Fs, contents: seq<Content>, path: Path, p: nat, inode: Inode, req: Request)
    requires Numbered(a) && WellFormed(a.nodes) && |a.nodes| > 0 && Find(a.nodes, 0, path) == Some(p) && p < |a.nodes|
    requires 0 < a.nodes[p].inode <= |a.inodes| && (req.uid.Some? || req.gid.Some?)
    requires inode.mode == req.mode
    requires inode.uid == (if req.uid.Some? then req.uid.value else OwnInode(a, p).uid)
    requires inode.gid == (if req.gid.Some? then req.gid.value else OwnInode(a, p).gid)
    requires Numbered(SetInode(a, a.nodes[p].inode, inode))
    ensures Seen(SetInode(a, a.nodes[p].inode, inode), contents) == Redone(Seen(a, contents), path, req)
  {
    var b, v, n := SetInode(a, a.nodes[p].inode, inode), Seen(a, contents), a.nodes[p].inode;
    var r := Redone(v, path, req);
    hide *;
    CarrierIs(a, contents, path, p);
    SetSizes(a, n, inode);
    GetRedone(v, path, req, path);
    SeenGet(a, contents, path);
    OwnIs(a, p);
    forall q: Path ensures SightAt(b, contents, q) == NameIn(r, q) {
      GetRedone(v, path, req, q);
      SeenGet(a, contents, q);
      SightIs(a, contents, q);
      SightIs(b, contents, q);
      if Find(a.nodes, 0, q).Some? {
        InTree(a.nodes, q, Find(a.nodes, 0, q).value);
        SetSight(a, n, inode, contents, Find(a.nodes, 0, q).value, req);
      }
    }
    SeenIs(b, contents, r);
  }

  lemma OwnIs(fs: Fs, p: nat)
    requires Numbered(fs) && p < |fs.nodes|
    ensures 0 < fs.nodes[p].inode <= |fs.inodes| && OwnInode(fs, p) == fs.inodes[fs.nodes[p].inode - 1]
  {
    assert p > 0 ==> NumberedNode(fs, p);
  }

  lemma SetSizes(a: Fs, n: nat, inode: Inode)
    requires 0 < n <= |a.inodes|
    ensures SetInode(a, n, inode).nodes == a.nodes && |SetInode(a, n, inode).inodes| == |a.inodes|
  {
  }

  lemma GetRedone(v: Volume, path: Path, req: Request, q: Path)
    ensures var at := NameIn(v, Carrier(v, path));
      && Redone(v, path, req).count == v.count
      && (at.None? || (req.uid.None? && req.gid.None?) ==> Redone(v, path, req) == v)
      && (at.Some? && (req.uid.Some? || req.gid.Some?) ==>
            NameIn(Redone(v, path, req), q)
            == if NameIn(v, q).Some? && NameIn(v, q).value.number == at.value.number then Some(Chowned(NameIn(v, q).value, req)) else NameIn(v, q))
  {
    hide Carrier, Chowned;
  }

  lemma SetSight(a: Fs, n: nat, inode: Inode, contents: seq<Content>, i: nat, req: Request)
    requires Numbered(a) && 0 < n <= |a.inodes| && Numbered(SetInode(a, n, inode)) && i < |a.nodes|
    requires inode.mode == req.mode
    requires inode.uid == (if req.uid.Some? then req.uid.value else a.inodes[n - 1].uid)
    requires inode.gid == (if req.gid.Some? then req.gid.value else a.inodes[n - 1].gid)
    ensures |SetInode(a, n, inode).nodes| == |a.nodes|
    ensures var s := SightOf(a, contents, i);
      SightOf(SetInode(a, n, inode), contents, i) == if s.number == n then Chowned(s, req) else s
  {
    NamedInRange(a, i);
    NamedInRange(SetInode(a, n, inode), i);
    hide Numbered;
  }

  // ---- Linking ----

  lemma GetLinked(v: Volume, linkPath: Path, targetPath: Path, q: Path)
    requires targetPath in v.names
    ensures var r := AfterLink(v, linkPath, targetPath);
      && r.count == v.count
      && NameIn(r, q) == if q == linkPath then Some(v.names[targetPath].(hard := true))
                      else if linkPath in v.names && linkPath <= q then None else NameIn(v, q)
  {
  }
}
