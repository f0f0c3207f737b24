/** Whole runs: a list of calls, `close`, and what the reader then finds, all
    compared with what the calls ought to have made of an empty file system. */
module Runs {
  import opened Basics
  import opened OnDisk
  import opened Extents
  import opened Trees
  import opened Namespace
  import opened Unlinking
  import opened Contents
  import opened Layout
  import opened Requests
  import opened Views
  import opened Formatting
  import opened Verdicts
  import opened Tallies
  import opened Groups
  import opened Committing
  import opened Listing
  import opened Reading
  import opened Volumes
  import FileRead
  import R = Recovery
  import Resolving
  import opened NameLookup
  import opened Following
  import E = EndToEnd

  datatype Call =
    | Create(path: Path, req: Request)
    | Link(linkPath: Path, targetPath: Path)
    | Unlink(path: Path, directoryWhiteout: bool)

  ghost function After(v: Volume, call: Call): Volume {
    match call
    case Create(path, req) => AfterCreate(v, path, req)
    case Link(linkPath, targetPath) => AfterLink(v, linkPath, targetPath)
    case Unlink(path, directoryWhiteout) => AfterUnlink(v, path, directoryWhiteout)
  }

  /** What a call ought to answer. */
  ghost function Verdict(v: Volume, call: Call): Result<(), FormatError> {
    match call
    case Create(path, req) => CreateVerdict(v, path, req)
    case Link(linkPath, targetPath) => LinkVerdict(v, linkPath, targetPath)
    case Unlink(path, directoryWhiteout) => UnlinkVerdict(v, path, directoryWhiteout)
  }

  /** Only a root directory. */
  ghost function Blank(): Volume {
    Volume(imap[[] := Sight(ROOT_INODE, false, Directory, DIR_0755, 0, 0)], RESERVED)
  }

  /** What the calls make of a new file system, /lost+found included. */
  ghost function AfterAll(calls: seq<Call>): Volume {
    if calls == [] then AfterCreate(Blank(), [LOST_FOUND], LOST)
    else After(AfterAll(calls[..|calls| - 1]), calls[|calls| - 1])
  }

  lemma AfterAllSnoc(calls: seq<Call>, i: nat)
    requires i < |calls|
    ensures AfterAll(calls[..i + 1]) == After(AfterAll(calls[..i]), calls[i])
  {
    assert calls[..i + 1][..i] == calls[..i];
    hide After;
  }

  // ---- Hard links with something below them ----

  /** No name lies below a hard link. */
  ghost predicate PlainNames(v: Volume) {
    forall q, p :: q in v.names && v.names[q].hard && p in v.names ==> !(q < p)
  }

  /** A hard link lies on the way to `path`. */
  ghost predicate HardOnWay(v: Volume, path: Path) {
    exists q :: q in v.names && v.names[q].hard && q < path
  }

  /** Making directories adds names on the way only, and no hard links. */
  lemma {:induction false} MakeDirsAdds(v: Volume, path: Path, q: Path)
    ensures q in v.names ==> q in MakeDirs(v, path).names && MakeDirs(v, path).names[q] == v.names[q]
    ensures q in MakeDirs(v, path).names && q !in v.names ==> q <= path && !MakeDirs(v, path).names[q].hard
    decreases |path|
  {
    hide Add;
    if path !in v.names && path != [] {
      var up := MakeDirs(v, ParentOf(path));
      MakeDirsAdds(v, ParentOf(path), q);
      MakeDirsAdds(v, ParentOf(path), path);
      AddAdds(up, path, Directory, DIR_0755, None, None, q);
      assert ParentOf(path) <= path;
      if q <= ParentOf(path) {
        PrefixTrans(q, ParentOf(path), path);
      }
      assert !(path <= ParentOf(path));
    }
  }

  lemma PrefixTrans(a: Path, b: Path, c: Path)
    requires a <= b && b <= c
    ensures a <= c
  {
  }

  lemma AddAdds(v: Volume, path: Path, content: Content, mode: nat, uid: Option<nat>, gid: Option<nat>, q: Path)
    ensures var r := Add(v, path, content, mode, uid, gid);
      && path in r.names && !r.names[path].hard && r.names[path].content == content
      && (q != path ==> (q in r.names <==> q in v.names) && (q in v.names ==> r.names[q] == v.names[q]))
  {
    hide Carrier, WithAllPerms, IsLinkMode;
  }

  /** The names after a fresh entry: what was not cleared away, and the way to it. */
  lemma FreshNames(v: Volume, path: Path, req: Request, q: Path)
    requires !(IsDirMode(req.mode) && path in v.names) && Wanted(req.mode, req.link, req.data).Ok? && path != []
    ensures var r := AfterCreate(v, path, req);
      && path in r.names && !r.names[path].hard
      && (q in v.names && q != path && !(path in v.names && path <= q) ==> q in r.names && r.names[q] == v.names[q])
      && (q in r.names && (q !in v.names || q == path || (path in v.names && path <= q)) ==> q <= path && !r.names[q].hard)
  {
    var base := if path in v.names then Without(v, path) else v;
    var up, c := MakeDirs(base, ParentOf(path)), Wanted(req.mode, req.link, req.data).value;
    CreatedIs(v, path, req);
    GetWithout(v, path, q);
    NameInIs(v, q);
    NameInIs(Without(v, path), q);
    MakeDirsAdds(base, ParentOf(path), q);
    AddAdds(up, path, c, req.mode, req.uid, req.gid, q);
    assert ParentOf(path) <= path && !(path <= ParentOf(path));
    if q <= ParentOf(path) {
      PrefixTrans(q, ParentOf(path), path);
    }
    hide AfterCreate, MakeDirs, Add, Without, IsDirMode;
  }

  /** Creating leaves all hard links bare exactly if none lies on the way. */
  lemma PlainAfterCreate(v: Volume, path: Path, req: Request)
    requires PlainNames(v) && ((IsDirMode(req.mode) && path in v.names) || Wanted(req.mode, req.link, req.data).Ok?) && path != []
    ensures PlainNames(AfterCreate(v, path, req)) <==> !HardOnWay(v, path)
  {
    var r := AfterCreate(v, path, req);
    if IsDirMode(req.mode) && path in v.names {
      forall q ensures q in r.names <==> q in v.names {
        RedoneNames(v, path, req, q);
      }
      forall q | q in v.names ensures r.names[q].hard == v.names[q].hard {
        RedoneNames(v, path, req, q);
      }
    } else {
      if HardOnWay(v, path) {
        var q :| q in v.names && v.names[q].hard && q < path;
        FreshNames(v, path, req, q);
      } else {
        forall q, p | q in r.names && r.names[q].hard && p in r.names ensures !(q < p) {
          FreshNames(v, path, req, q);
          FreshNames(v, path, req, p);
          FreshPair(v, path, q, p);
        }
      }
    }
    hide AfterCreate, IsDirMode;
  }

  lemma FreshPair(v: Volume, path: Path, q: Path, p: Path)
    requires PlainNames(v) && !HardOnWay(v, path) && q in v.names && v.names[q].hard
    requires p in v.names || p <= path
    ensures !(q < p)
  {
    assert q < p && p <= path ==> q < path;
  }

  lemma RedoneNames(v: Volume, path: Path, req: Request, q: Path)
    requires IsDirMode(req.mode) && path in v.names
    ensures var r := AfterCreate(v, path, req);
      (q in r.names <==> q in v.names) && (q in v.names ==> r.names[q].hard == v.names[q].hard && r.names[q].content == v.names[q].content)
  {
    NameInIs(v, q);
    GetRedone(v, path, req, q);
    NameInIs(Redone(v, path, req), q);
    hide Redone, Carrier, IsDirMode;
  }

  /** The tree has no entry below a hard link exactly if no name lies below one. */
  lemma PlainIff(fs: Fs, contents: seq<Content>)
    requires Inv(fs, 0) && Numbered(fs)
    ensures Plain(fs) <==> PlainNames(Seen(fs, contents))
  {
    hide *;
    InvKinds(fs, 0);
    RootNode(fs);
    var v := Seen(fs, contents);
    PlainNamesIs(v);
    PlainIs(fs);
    if Plain(fs) {
      forall q, p | q in v.names && v.names[q].hard && p in v.names ensures !(q < p) {
        NameAt(fs, contents, q);
        NameAt(fs, contents, p);
        if q < p {
          BelowHasKids(fs.nodes, q, p, Find(fs.nodes, 0, q).value);
          assert false;
        }
      }
    }
    if PlainNames(v) {
      forall i | 0 <= i < |fs.nodes| && fs.nodes[i].children != [] ensures fs.nodes[i].link == None {
        var c := KidBelow(fs, i);
        NameAt(fs, contents, PathOf(fs.nodes, i));
        NameAt(fs, contents, PathOf(fs.nodes, c));
      }
    }
  }

  lemma PlainNamesIs(v: Volume)
    ensures PlainNames(v) <==> forall q, p :: q in v.names && v.names[q].hard && p in v.names ==> !(q < p)
  {
  }

  lemma PlainIs(fs: Fs)
    ensures Plain(fs) <==> forall i :: 0 <= i < |fs.nodes| && fs.nodes[i].children != [] ==> fs.nodes[i].link == None
  {
  }

  lemma BelowHasKids(nodes: Nodes, q: Path, p: Path, i: nat)
    requires WellFormed(nodes) && |nodes| > 0 && i < |nodes| && Find(nodes, 0, q) == Some(i) && Find(nodes, 0, p).Some? && q < p
    ensures nodes[i].children != []
  {
    var rest := p[|q|..];
    assert p == q + rest;
    FindConcat(nodes, 0, q, rest);
    assert KidsOk(nodes, i);
  }

  lemma KidBelow(fs: Fs, i: nat) returns (c: nat)
    requires Numbered(fs) && Kinds(fs) && WellFormed(fs.nodes) && i < |fs.nodes| && fs.nodes[i].children != []
    ensures c < |fs.nodes| && Attached(fs.nodes, i) && Attached(fs.nodes, c) && PathOf(fs.nodes, i) < PathOf(fs.nodes, c)
    ensures Find(fs.nodes, 0, PathOf(fs.nodes, i)) == Some(i) && Find(fs.nodes, 0, PathOf(fs.nodes, c)) == Some(c)
  {
    assert KindOk(fs, i) && KidsOk(fs.nodes, i);
    c := fs.nodes[i].children[0];
    Shaped(fs);
    LookupOfPath(fs.nodes, i);
    LookupOfPath(fs.nodes, c);
    hide NumberedNode, NumberedInode, UniqueNames;
  }

  /** A successful `create` leaves every hard link bare exactly if no hard link lay
      on the way to the path. */
  lemma PlainAfterCreated(a: Snapshot, b: Snapshot, path: Path, req: Request)
    requires Inv(a.fs, 0) && Inv(b.fs, 0) && |b.contents| == |b.fs.origin| && Plain(a.fs) && path != []
    requires Outcome(a, b, path, req, true)
    ensures WellFormed(a.fs.nodes) && (Plain(b.fs) <==> PlainWay(a.fs, path))
  {
    hide *;
    OutcomeParts(a, b, path, req, true);
    var v := Seen(a.fs, a.contents);
    PlainIff(a.fs, a.contents);
    PlainIff(b.fs, b.contents);
    NameAt(a.fs, a.contents, path);
    if !(IsDirMode(req.mode) && path in v.names) {
      NewParts(b, path, req);
    }
    PlainAfterCreate(v, path, req);
    WayIff(a.fs, a.contents, path);
  }

  lemma WayIff(fs: Fs, contents: seq<Content>, path: Path)
    requires Numbered(fs) && WellFormed(fs.nodes)
    ensures PlainWay(fs, path) <==> !HardOnWay(Seen(fs, contents), path)
  {
    var v := Seen(fs, contents);
    if HardOnWay(v, path) {
      var q :| q in v.names && v.names[q].hard && q < path;
      NameAt(fs, contents, q);
      assert q == path[..|q|];
      assert !PlainAt(fs, path[..|q|]);
    } else {
      forall k | 0 <= k < |path| ensures PlainAt(fs, path[..k]) {
        NameAt(fs, contents, path[..k]);
        assert path[..k] < path;
      }
    }
    hide Numbered, Seen, WellFormed, SightOf, Find;
  }

  // ---- A hard link taken for a directory ----

  /** A directory asked for where a hard link stands: the link stays what it is, and
      the root directory gets the mode and owner. */
  lemma MkdirOverLink(v: Volume, path: Path, req: Request)
    requires path in v.names && v.names[path].hard && [] in v.names && IsDirMode(req.mode) && (req.uid.Some? || req.gid.Some?)
    requires v.names[path].number != v.names[[]].number
    ensures var r := AfterCreate(v, path, req);
      && path in r.names && r.names[path] == v.names[path]
      && [] in r.names && r.names[[]] == Chowned(v.names[[]], req)
  {
    NameInIs(v, path);
    NameInIs(v, []);
    GetRedone(v, path, req, path);
    GetRedone(v, path, req, []);
    NameInIs(Redone(v, path, req), path);
    NameInIs(Redone(v, path, req), []);
    hide Redone, Chowned, IsDirMode;
  }

  /** The calls: create file /f, link /l to it, create directory /l for user 5. */
  function OverLink(): seq<Call> {
    [Create([['f' as int]], Request(0x81A4, None, None, None, None)),
     Link([['l' as int]], [['f' as int]]),
     Create([['l' as int]], Request(DIR_0700, None, None, Some(5), None))]
  }

  /** At that input /l is still a hard link to a file, and the root has changed
      hands. */
  lemma LinkTakenForDirectory()
    ensures var v := AfterAll(OverLink());
      && [['l' as int]] in v.names && v.names[[['l' as int]]].hard && v.names[[['l' as int]]].content == File([])
      && [] in v.names && v.names[[]].mode == DIR_0700 && v.names[[]].uid == 5
  {
    var calls, f, l := OverLink(), [['f' as int]], [['l' as int]];
    assert f[0] != l[0] && f != [LOST_FOUND] && l != [LOST_FOUND];
    var v0 := AfterAll(calls[..0]);
    AfterAllSnoc(calls, 0);
    AfterAllSnoc(calls, 1);
    AfterAllSnoc(calls, 2);
    assert calls[..3] == calls;
    var v1, v2 := AfterAll(calls[..1]), AfterAll(calls[..2]);
    FirstVolume();
    assert calls[..0] == [];
    FileMade(v0, f, l);
    LinkMadeTo(v1, f, l);
    assert IsDirMode(DIR_0700);
    hide AfterAll, AfterCreate, AfterLink;
    MkdirOverLink(v2, l, Request(DIR_0700, None, None, Some(5), None));
  }

  lemma FirstVolume()
    ensures var v := AfterAll([]);
      && v.count == 11 && [] in v.names && v.names[[]].number == ROOT_INODE && !v.names[[]].hard && v.names[[]].content == Directory
      && forall q :: q in v.names <==> q == [] || q == [LOST_FOUND]
  {
    var b := Blank();
    assert IsDirMode(DIR_0700);
    assert [LOST_FOUND] !in b.names && ParentOf([LOST_FOUND]) == [];
    CreatedIs(b, [LOST_FOUND], LOST);
    assert MakeDirs(b, []) == b;
    forall q ensures q in AfterAll([]).names <==> q == [] || q == [LOST_FOUND] {
      AddAdds(b, [LOST_FOUND], Directory, DIR_0700, None, None, q);
    }
    AddAdds(b, [LOST_FOUND], Directory, DIR_0700, None, None, []);
    GetAdd(b, [LOST_FOUND], Directory, DIR_0700, None, None, []);
    hide AfterCreate, MakeDirs, Add, IsDirMode;
  }

  lemma FileMade(v: Volume, f: Path, l: Path)
    requires v.count == 11 && [] in v.names && v.names[[]].number == ROOT_INODE && f !in v.names && l !in v.names && |f| == 1 && f != l && l != []
    ensures var r := AfterCreate(v, f, Request(0x81A4, None, None, None, None));
      && f in r.names && r.names[f].number == 12 && r.names[f].content == File([]) && l !in r.names
      && [] in r.names && r.names[[]].number == ROOT_INODE
  {
    var req := Request(0x81A4, None, None, None, None);
    assert !IsDirMode(0x81A4) && IsRegMode(0x81A4);
    CreatedIs(v, f, req);
    assert ParentOf(f) == [] && MakeDirs(v, []) == v;
    AddAdds(v, f, File([]), 0x81A4, None, None, l);
    AddAdds(v, f, File([]), 0x81A4, None, None, []);
    GetAdd(v, f, File([]), 0x81A4, None, None, f);
    NameInIs(Add(v, f, File([]), 0x81A4, None, None), f);
    hide AfterCreate, MakeDirs, Add, IsDirMode, IsRegMode;
  }

  lemma LinkMadeTo(v: Volume, f: Path, l: Path)
    requires f in v.names && v.names[f].number == 12 && v.names[f].content == File([]) && l !in v.names && f != l && l != []
    requires [] in v.names && v.names[[]].number == ROOT_INODE
    ensures var r := AfterLink(v, l, f);
      && l in r.names && r.names[l].hard && r.names[l].content == File([]) && r.names[l].number == 12
      && [] in r.names && r.names[[]].number == ROOT_INODE
  {
  }

  const D: Name := ['d' as int]
  const F: Name := ['f' as int]
  const L: Name := ['l' as int]

  /** The calls: create file /d/f, and symlink /l to d. */
  function LinkToDirectory(): seq<Call> {
    [Create([D, F], Request(0x81A4, None, None, None, None)),
     Create([L], Request(0xA1FF, Some(D), None, None, None))]
  }

  /** At that input l/f is not found without following, though it is when all but the
      last component is followed. */
  lemma LinkInTheMiddle()
    ensures var v := AfterAll(LinkToDirectory());
      && NameWalk(v, [], [L, F], false, {}) == Err(NotADirectory)
      && AllButLast(v, [], [L, F], {}).Ok? && AllButLast(v, [], [L, F], {}).value.0 == [D, F]
      && [D, F] in v.names && v.names[[D, F]].content == File([])
  {
    hide *;
    NoneVisited();
    LinkToDirectoryNames();
    MiddleWalks(AfterAll(LinkToDirectory()));
  }

  /** In every image that such a run ends with, l/f is not there without following, and
      the empty file /d/f with. */
  lemma StoppedAtTheLink(img: seq<byte>, clean: bool)
    requires FoundAll(img, AfterAll(LinkToDirectory()), clean)
    ensures ReadSuper(img).Ok? && Supported(ReadSuper(img).value)
    ensures Resolving.Resolve(img, ReadSuper(img).value, JoinPath([L, F]), false) == Err(NotADirectory)
    ensures var r, v := Resolving.Resolve(img, ReadSuper(img).value, JoinPath([L, F]), true), AfterAll(LinkToDirectory());
      [D, F] in v.names && v.names[[D, F]].content == File([]) && r.Ok? && HoldsAs(img, r.value.0, r.value.1, v.names[[D, F]])
  {
    hide *;
    var v := AfterAll(LinkToDirectory());
    NoneVisited();
    LinkToDirectoryNames();
    MiddleWalks(v);
    MiddleNames();
    ComponentsOfJoin([L, F]);
    FoundAt(img, v, clean, JoinPath([L, F]), false);
    FoundAt(img, v, clean, JoinPath([L, F]), true);
    LeadsIs(v, JoinPath([L, F]), false);
    LeadsIs(v, JoinPath([L, F]), true);
  }

  lemma MiddleNames()
    ensures forall k :: 0 <= k < |[L, F]| ==> ValidName([L, F][k])
  {
  }

  lemma FoundAt(img: seq<byte>, v: Volume, clean: bool, path: seq<byte>, follow: bool)
    requires FoundAll(img, v, clean)
    ensures ReadSuper(img).Ok? && Supported(ReadSuper(img).value)
    ensures var r, to := Resolving.Resolve(img, ReadSuper(img).value, path, follow), Leads(v, path, follow);
      && (to.Err? ==> r == Err(to.error))
      && (to.Ok? ==> to.value in v.names && r.Ok? && HoldsAs(img, r.value.0, r.value.1, v.names[to.value]))
  {
    hide ReadSuper, Supported, Resolving.Resolve, Leads, HoldsAs, LinksFound, Rooted;
    assert FoundAs(img, ReadSuper(img).value, v, path, follow);
  }

  lemma LeadsIs(v: Volume, path: seq<byte>, follow: bool)
    ensures var none: set<nat> := {};
      |none| <= Resolving.MAX_SYMLINK_HOPS &&
      var r := NameWalk(v, [], Resolving.Components(path), follow, none);
      Leads(v, path, follow) == if r.Ok? then Ok(r.value.0) else Err(r.error)
  {
    NoneVisited();
    hide NameWalk, Resolving.Components;
  }

  lemma MiddleWalks(v: Volume)
    requires [] in v.names && v.names[[]].content == Directory && [D] in v.names && v.names[[D]].content == Directory
    requires [L] in v.names && v.names[[L]].content == Symlink(D) && [D, F] in v.names && v.names[[D, F]].content == File([])
    ensures NameWalk(v, [], [L, F], false, {}) == Err(NotADirectory)
    ensures AllButLast(v, [], [L, F], {}).Ok? && AllButLast(v, [], [L, F], {}).value.0 == [D, F]
    ensures NameWalk(v, [], [L, F], true, {}).Ok? && NameWalk(v, [], [L, F], true, {}).value.0 == [D, F]
  {
    NoneVisited();
    var n := v.names[[L]].number;
    assert D != DOT && D != DOTDOT && F != DOT && F != DOTDOT && L != DOT && L != DOTDOT;
    assert 'd' as int != '/' as int && D[0] == 'd' as int && D != [] && !Slashed(D);
    SplitName(D, [], []);
    assert D + [] == D && [] + D == D && Resolving.Components(D) == [D];
    assert [] + [L] == [L] && [L] + [F] == [L, F] && [] + [D] == [D] && [D] + [F] == [D, F];
    assert [L, F][..1] == [L] && [L, F][1..] == [F] && [L, F][0] == L && [L, F][1] == F && [D][1..] == [] && [L][1..] == [];
    hide NameWalk, NameStep, Resolving.Components, Slashed;
    NameStepIs(v, [], L, false, {});
    NameWalkCons(v, [], [L, F], false, {});
    NameStepIs(v, [L], F, false, {});
    NameWalkCons(v, [L], [F], false, {});
    NameStepIs(v, [], L, true, {});
    NameWalkOne(v, [], L, true, {});
    NameWalkOne(v, [], D, true, {} + {n});
    NameStepIs(v, [], D, true, {} + {n});
    NameStepIs(v, [D], F, false, {} + {n});
    NameWalkCons(v, [], [L, F], true, {});
    NameWalkOne(v, [D], F, true, {} + {n});
    NameStepIs(v, [D], F, true, {} + {n});
  }

  lemma LinkToDirectoryNames()
    ensures var v := AfterAll(LinkToDirectory());
      && [] in v.names && v.names[[]].content == Directory && [D] in v.names && v.names[[D]].content == Directory
      && [L] in v.names && v.names[[L]].content == Symlink(D) && [D, F] in v.names && v.names[[D, F]].content == File([])
  {
    var calls := LinkToDirectory();
    var v0, v1 := AfterAll(calls[..0]), AfterAll(calls[..1]);
    AfterAllSnoc(calls, 0);
    AfterAllSnoc(calls, 1);
    assert calls[..0] == [] && calls[..2] == calls;
    FirstVolume();
    assert D != F && D != L && F != L && D != LOST_FOUND && L != LOST_FOUND;
    assert |[D, F]| == 2 && |[D]| == 1 && [D] != [L];
    hide AfterAll, AfterCreate;
    DeepFile(v0);
    ShallowLink(v1);
  }

  lemma DeepFile(v: Volume)
    requires [] in v.names && v.names[[]].content == Directory && [D] !in v.names && [D, F] !in v.names && [L] !in v.names
    ensures var r := AfterCreate(v, [D, F], Request(0x81A4, None, None, None, None));
      && [] in r.names && r.names[[]].content == Directory && [D] in r.names && r.names[[D]].content == Directory
      && [D, F] in r.names && r.names[[D, F]].content == File([]) && [L] !in r.names
  {
    var req := Request(0x81A4, None, None, None, None);
    assert !IsDirMode(0x81A4) && IsRegMode(0x81A4) && Wanted(req.mode, req.link, req.data) == Ok(File([]));
    CreatedIs(v, [D, F], req);
    assert ParentOf([D, F]) == [D] && ParentOf([D]) == [];
    var up := MakeDirs(v, [D]);
    assert MakeDirs(v, []) == v;
    assert up == Add(v, [D], Directory, DIR_0755, None, None);
    assert [D] != [L] && [D, F] != [L] && [D, F] != [D] && [D] != [] && [D, F] != [];
    hide AfterCreate, MakeDirs, Add, IsDirMode, IsRegMode, Wanted;
    AddAdds(v, [D], Directory, DIR_0755, None, None, []);
    AddAdds(v, [D], Directory, DIR_0755, None, None, [L]);
    AddAdds(up, [D, F], File([]), 0x81A4, None, None, []);
    AddAdds(up, [D, F], File([]), 0x81A4, None, None, [D]);
    AddAdds(up, [D, F], File([]), 0x81A4, None, None, [L]);
  }

  lemma ShallowLink(v: Volume)
    requires [] in v.names && v.names[[]].content == Directory && [D] in v.names && v.names[[D]].content == Directory
    requires [D, F] in v.names && v.names[[D, F]].content == File([]) && [L] !in v.names
    ensures var r := AfterCreate(v, [L], Request(0xA1FF, Some(D), None, None, None));
      && [] in r.names && r.names[[]].content == Directory && [D] in r.names && r.names[[D]].content == Directory
      && [L] in r.names && r.names[[L]].content == Symlink(D) && [D, F] in r.names && r.names[[D, F]].content == File([])
  {
    var req := Request(0xA1FF, Some(D), None, None, None);
    assert !IsDirMode(0xA1FF) && Wanted(req.mode, req.link, req.data) == Ok(Symlink(D));
    CreatedIs(v, [L], req);
    assert ParentOf([L]) == [] && MakeDirs(v, []) == v;
    assert D != L;
    assert [D] != [L] && [D, F] != [L] && [L] != [];
    hide AfterCreate, MakeDirs, Add, IsDirMode, Wanted;
    AddAdds(v, [L], Symlink(D), 0xA1FF, None, None, []);
    AddAdds(v, [L], Symlink(D), 0xA1FF, None, None, [D]);
    AddAdds(v, [L], Symlink(D), 0xA1FF, None, None, [D, F]);
  }

  // ---- A run of calls ----

  /** What any caller of these functions sees to. */
  predicate Proper(call: Call) {
    match call
    case Create(path, req) =>
      Canonical(path) && Sensible(req.mode, req.link) && Owned(req.uid, req.gid) && (path == [] ==> !IsLinkMode(req.mode))
    case Link(linkPath, targetPath) => Canonical(linkPath) && linkPath != []
    case Unlink(path, directoryWhiteout) => true
  }

  /** How a call may end: done, refused, or not covered (a link below something that
      is no directory, or a 65536th link to one inode). */
  datatype Status = Done | Refused(why: FormatError) | NotCovered

  /** A hard link that would go through but is not covered. */
  predicate Uncovered(fs: Fs, call: Call)
    requires Numbered(fs)
  {
    call.Link? && LinkTarget(fs, call.targetPath).Ok? && !(ParentIsDir(fs, call.linkPath) && TargetRoom(fs, call.targetPath))
  }

  /** What the formatter answers, told from its state before the call. */
  function Expected(fs: Fs, call: Call): Result<(), FormatError>
    requires Numbered(fs)
  {
    match call
    case Create(path, req) => Answer(fs, path, req)
    case Link(linkPath, targetPath) =>
      (match LinkTarget(fs, targetPath) case Err(e) => Err(e) case Ok(t) => LinkAnswer(fs, linkPath, t))
    case Unlink(path, directoryWhiteout) =>
      var f := Find(fs.nodes, 0, path);
      if directoryWhiteout && f.Some? && !OwnInode(fs, f.value).IsDir() then Err(NotDirectory) else Ok(())
  }

  /** The call ended just as the state before it told. */
  ghost predicate EndsAs(fs: Fs, call: Call, status: Status)
    requires Numbered(fs)
  {
    if Uncovered(fs, call) then status == NotCovered
    else match Expected(fs, call) case Ok(_) => status == Done case Err(e) => status == Refused(e)
  }

  /** Neither removing a hard link nor building upon one. */
  ghost predicate Clean(v: Volume, call: Call) {
    match call
    case Create(path, req) => !HardOnWay(v, path) && (IsDirMode(req.mode) || NoHardUnder(v, path))
    case Link(linkPath, targetPath) =>
      NoHardUnder(v, linkPath) && (ParentOf(linkPath) in v.names ==> !v.names[ParentOf(linkPath)].hard)
    case Unlink(path, directoryWhiteout) => NoHardUnder(v, path)
  }

  /** Blocks a successful call takes. */
  ghost function Cost(v: Volume, call: Call): nat {
    if call.Create? && !(IsDirMode(call.req.mode) && call.path in v.names) then
      match Wanted(call.req.mode, call.req.link, call.req.data) case Ok(c) => ContentBlocks(c) case Err(_) => 0
    else 0
  }

  /** The check that keeps `link` within what is covered. */
  method LinkCovered(f: Formatter, linkPath: Path, targetPath: Path) returns (ok: bool)
    requires f.Valid(0)
    ensures Numbered(f.View()) && (ok <==> !Uncovered(f.View(), Link(linkPath, targetPath)))
    ensures ok ==> TargetRoom(f.View(), targetPath)
    ensures ok && LinkTarget(f.View(), targetPath).Ok? ==> ParentIsDir(f.View(), linkPath)
  {
    hide *;
    Parts(f, 0);
    RootNode(f.View());
    var parent := f.tree.Lookup(ParentOf(linkPath));
    var target := f.tree.Lookup(targetPath);
    CoverIs(f.View(), linkPath, targetPath);
    ok := true;
    if target.Some? {
      InTree(f.tree.nodes, targetPath, target.value);
      OwnIs(f.View(), target.value);
      var inode := f.inodes[f.tree.nodes[target.value].inode - 1];
      if !inode.IsDir() {
        ok := inode.links < 0xFFFF;
        if parent.Some? {
          InTree(f.tree.nodes, ParentOf(linkPath), parent.value);
          OwnIs(f.View(), parent.value);
          ok := ok && f.inodes[f.tree.nodes[parent.value].inode - 1].IsDir();
        }
      }
    }
  }

  lemma CoverIs(fs: Fs, linkPath: Path, targetPath: Path)
    requires Numbered(fs)
    ensures WellFormed(fs.nodes) && |fs.nodes| > 0
    ensures var p, t := Find(fs.nodes, 0, ParentOf(linkPath)), Find(fs.nodes, 0, targetPath);
      && (p.Some? ==> p.value < |fs.nodes|) && (t.Some? ==> t.value < |fs.nodes|)
      && (ParentIsDir(fs, linkPath) <==> (p.Some? ==> OwnInode(fs, p.value).IsDir()))
      && (TargetRoom(fs, targetPath) <==> (t.Some? && !OwnInode(fs, t.value).IsDir() ==> OwnInode(fs, t.value).links < 0xFFFF))
      && (LinkTarget(fs, targetPath).Ok? <==> t.Some? && !OwnInode(fs, t.value).IsDir())
      && (Uncovered(fs, Link(linkPath, targetPath))
          <==> LinkTarget(fs, targetPath).Ok? && !(ParentIsDir(fs, linkPath) && TargetRoom(fs, targetPath)))
  {
    Shaped(fs);
    hide Numbered, OwnInode, Inode.IsDir, Find;
  }

  /** What a call does besides: the cursor moves by what the call costs, nodes come with
      inodes or hard links, and directory counts stay right if the call is clean. */
  ghost predicate Moves(a: Fs, pos: nat, b: Fs, pos': nat, v: Volume, call: Call)
    requires Numbered(a) && Numbered(b)
  {
    && (pos % 4096 == 0 ==> pos' == pos + Cost(v, call) * 4096)
    && |b.nodes| + |a.inodes| == |a.nodes| + |b.inodes| + (if call.Link? then 1 else 0)
    && (Tidy(a) && Clean(v, call) ==> Tidy(b))
  }

  /** One call: it succeeds and is refused as it ought to be, and if it succeeds, the
      file system has become what it ought to. */
  method Perform(f: Formatter, call: Call) returns (status: Status)
    requires f.Valid(0) && Numbered(f.View()) && Proper(call)
    modifies f`inodes, f`deletedBlocks, f`deferredBlocks, f`origin, f`contents, f.tree, f.file
    ensures status.Done? ==>
      && f.Valid(0) && Numbered(f.View()) && Seen(f.View(), f.contents) == After(Seen(old(f.View()), old(f.contents)), call)
      && Moves(old(f.View()), old(f.file.pos), f.View(), f.file.pos, Seen(old(f.View()), old(f.contents)), call)
    ensures Plain(old(f.View())) ==> EndsAs(old(f.View()), call, status)
  {
    hide *;
    ProperIs(call);
    ghost var was, held, v, pos := f.View(), f.contents, Seen(f.View(), f.contents), f.file.pos;
    Parts(f, 0);
    RootNode(was);
    match call {
      case Create(path, req) =>
        NowIs(f);
        OnDiskCounts(f);
        ghost var before := f.Now();
        RequestIs(req);
        var r := f.Create(path, req.mode, req.link, req.data, req.uid, req.gid);
        NowIs(f);
        OnDiskCounts(f);
        Parts(f, 0);
        OutcomeParts(before, f.Now(), path, req, r.Ok?);
        RepliesIs(was, f.View(), path, req, r);
        status := if r.Ok? then Done else Refused(r.error);
        if r.Ok? {
          CreateMoves(before, f.Now(), call);
        }
      case Link(linkPath, targetPath) =>
        var covered := LinkCovered(f, linkPath, targetPath);
        if !covered {
          EndsIs(was, call, NotCovered);
          return NotCovered;
        }
        var r := f.Link(linkPath, targetPath);
        if r.Ok? {
          Parts(f, 0);
          LinkedParts(was, f.View(), f.contents, linkPath, targetPath, LinkTarget(was, targetPath).value);
          LinkMoves(was, f.View(), pos, held, call);
        }
        status := if r.Ok? then Done else Refused(r.error);
      case Unlink(path, directoryWhiteout) =>
        var r := f.Unlink(path, directoryWhiteout, 0);
        Parts(f, 0);
        status := if r.Ok? then Done else Refused(r.error);
        UnlinkMoves(was, f.View(), pos, held, call);
    }
    ExpectedIs(was, call);
    EndsIs(was, call, status);
    AfterIs(v, call);
  }

  lemma ExpectedIs(fs: Fs, call: Call)
    requires Numbered(fs)
    ensures WellFormed(fs.nodes) && |fs.nodes| > 0
    ensures call.Create? ==> Expected(fs, call) == Answer(fs, call.path, call.req) && !Uncovered(fs, call)
    ensures call.Link? ==>
      && (LinkTarget(fs, call.targetPath).Err? ==> Expected(fs, call) == Err(LinkTarget(fs, call.targetPath).error))
      && (LinkTarget(fs, call.targetPath).Ok? ==> Expected(fs, call) == LinkAnswer(fs, call.linkPath, LinkTarget(fs, call.targetPath).value))
    ensures call.Unlink? ==>
      var f := Find(fs.nodes, 0, call.path);
      && !Uncovered(fs, call) && (f.Some? ==> f.value < |fs.nodes|)
      && Expected(fs, call) == if call.directoryWhiteout && f.Some? && !OwnInode(fs, f.value).IsDir() then Err(NotDirectory) else Ok(())
  {
    Shaped(fs);
    hide Numbered, Answer, LinkTarget, LinkAnswer, OwnInode, Inode.IsDir, ParentIsDir, TargetRoom;
  }

  lemma EndsIs(fs: Fs, call: Call, status: Status)
    requires Numbered(fs)
    ensures EndsAs(fs, call, status) <==>
      && (Uncovered(fs, call) ==> status == NotCovered)
      && (!Uncovered(fs, call) && Expected(fs, call).Ok? ==> status == Done)
      && (!Uncovered(fs, call) && Expected(fs, call).Err? ==> status == Refused(Expected(fs, call).error))
  {
    hide Numbered, Expected, Uncovered;
  }

  /** Short of the limit on links, that is what the names tell. */
  lemma ExpectedSeen(fs: Fs, contents: seq<Content>, img: seq<byte>, limit: nat, first: nat, call: Call)
    requires Inv(fs, 0) && OnDiskOk(fs, contents, img, limit, first) && Numbered(fs)
    ensures Expected(fs, call) == Err(MaximumLinksExceeded) || Expected(fs, call) == Verdict(Seen(fs, contents), call)
  {
    hide *;
    ExpectedIs(fs, call);
    VerdictIs(Seen(fs, contents), call);
    match call
    case Create(path, req) =>
      AnswerSeen(fs, contents, img, limit, first, path, req);
    case Link(linkPath, targetPath) =>
      LinkAnswerSeen(fs, contents, img, limit, first, linkPath, targetPath);
    case Unlink(path, directoryWhiteout) =>
      FileSeen(fs, contents, img, limit, first, path);
  }

  lemma VerdictIs(v: Volume, call: Call)
    ensures call.Create? ==> Verdict(v, call) == CreateVerdict(v, call.path, call.req)
    ensures call.Link? ==> Verdict(v, call) == LinkVerdict(v, call.linkPath, call.targetPath)
    ensures call.Unlink? ==>
      Verdict(v, call) == if call.directoryWhiteout && FileAt(v, call.path) then Err(NotDirectory) else Ok(())
  {
    hide CreateVerdict, LinkVerdict, FileAt;
  }

  lemma MovesIs(a: Fs, pos: nat, b: Fs, pos': nat, v: Volume, call: Call)
    requires Numbered(a) && Numbered(b)
    ensures Moves(a, pos, b, pos', v, call) <==>
      && (pos % 4096 == 0 ==> pos' == pos + Cost(v, call) * 4096)
      && |b.nodes| + |a.inodes| == |a.nodes| + |b.inodes| + (if call.Link? then 1 else 0)
      && (Tidy(a) && Clean(v, call) ==> Tidy(b))
  {
    hide Numbered, Cost, Tidy, Clean;
  }

  lemma CleanIs(v: Volume, call: Call)
    ensures call.Create? ==>
      (Clean(v, call) <==> !HardOnWay(v, call.path) && (IsDirMode(call.req.mode) || NoHardUnder(v, call.path)))
    ensures call.Link? ==>
      (Clean(v, call) <==>
        NoHardUnder(v, call.linkPath) && (ParentOf(call.linkPath) in v.names ==> !v.names[ParentOf(call.linkPath)].hard))
    ensures call.Unlink? ==> (Clean(v, call) <==> NoHardUnder(v, call.path))
    ensures !call.Create? ==> Cost(v, call) == 0
  {
    hide HardOnWay, NoHardUnder, IsDirMode;
  }

  lemma CreateMoves(a: Snapshot, b: Snapshot, call: Call)
    requires call.Create? && Inv(a.fs, 0) && Inv(b.fs, 0) && |a.contents| == |a.fs.origin| && Numbered(a.fs) && Numbered(b.fs)
    requires Kept(a, b, ChangedInode(a.fs, call.path, call.req)) && KeepsTidy(a, b, call.path, call.req)
    requires a.pos % 4096 == 0 ==> b.pos == a.pos + Spent(a.fs, call.path, call.req) * 4096
    ensures Moves(a.fs, a.pos, b.fs, b.pos, Seen(a.fs, a.contents), call)
  {
    hide *;
    var v := Seen(a.fs, a.contents);
    InvParts(a.fs, 0);
    KeptParts(a, b, ChangedInode(a.fs, call.path, call.req));
    CleanIs(v, call);
    CostIs(a.fs, a.contents, call);
    WayIff(a.fs, a.contents, call.path);
    if NoHardUnder(v, call.path) {
      NothingHard(a.fs, a.contents, call.path);
    }
    KeepsTidyIs(a, b, call.path, call.req);
    MovesIs(a.fs, a.pos, b.fs, b.pos, v, call);
  }

  lemma KeepsTidyIs(a: Snapshot, b: Snapshot, path: Path, req: Request)
    requires Numbered(a.fs) && Numbered(b.fs) && KeepsTidy(a, b, path, req)
    ensures WellFormed(a.fs.nodes)
    ensures Tidy(a.fs) && PlainWay(a.fs, path) && (IsDirMode(req.mode) || NothingLinkedAt(a.fs, path)) ==> Tidy(b.fs)
  {
    Shaped(a.fs);
    hide Numbered, Tidy, PlainWay, NothingLinkedAt, IsDirMode;
  }

  lemma CostIs(fs: Fs, contents: seq<Content>, call: Call)
    requires Numbered(fs) && call.Create?
    ensures Cost(Seen(fs, contents), call) == Spent(fs, call.path, call.req)
  {
    NameAt(fs, contents, call.path);
    hide Numbered, Seen, Find, WellFormed, IsDirMode, Wanted, ContentBlocks, SightOf;
  }

  lemma LinkMoves(a: Fs, b: Fs, pos: nat, contents: seq<Content>, call: Call)
    requires call.Link? && Numbered(a) && Numbered(b) && WellFormed(a.nodes)
    requires LinkTarget(a, call.targetPath).Ok?
    requires LinkedTo(a, b, contents, call.linkPath, call.targetPath, LinkTarget(a, call.targetPath).value)
    requires ParentIsPlain(a, call.linkPath) ==> (Tidy(a) && NothingLinkedAt(a, call.linkPath) ==> Tidy(b))
    ensures Moves(a, pos, b, pos, Seen(a, contents), call)
  {
    hide *;
    var v := Seen(a, contents);
    CleanIs(v, call);
    LinkedCounts(a, b, contents, call.linkPath, call.targetPath, LinkTarget(a, call.targetPath).value);
    if Clean(v, call) {
      NothingHard(a, contents, call.linkPath);
      ParentPlainSeen(a, contents, call.linkPath);
    }
    MovesIs(a, pos, b, pos, v, call);
  }

  lemma LinkedCounts(a: Fs, b: Fs, contents: seq<Content>, linkPath: Path, targetPath: Path, t: nat)
    requires LinkedTo(a, b, contents, linkPath, targetPath, t)
    ensures |b.nodes| == |a.nodes| + 1 && |b.inodes| == |a.inodes|
  {
    hide Numbered, Seen, AfterLink, Find;
  }

  lemma ParentPlainSeen(fs: Fs, contents: seq<Content>, path: Path)
    requires Numbered(fs)
    ensures WellFormed(fs.nodes)
    ensures var v := Seen(fs, contents);
      (ParentOf(path) in v.names ==> !v.names[ParentOf(path)].hard) ==> ParentIsPlain(fs, path)
  {
    NameAt(fs, contents, ParentOf(path));
    hide Numbered, Seen, Find, WellFormed, SightOf;
  }

  lemma UnlinkMoves(a: Fs, b: Fs, pos: nat, contents: seq<Content>, call: Call)
    requires call.Unlink? && Numbered(a) && Numbered(b) && WellFormed(a.nodes) && |a.nodes| > 0
    requires match Find(a.nodes, 0, call.path)
             case None => b == a
             case Some(v) => v < |a.nodes| && (b == a || Emptied(a, b, v) || (v > 0 && Unlinked(a, b, v)))
    requires var f := Find(a.nodes, 0, call.path); Tidy(a) && (f.Some? ==> NoLinksUnder(a, f.value)) ==> Tidy(b)
    ensures Moves(a, pos, b, pos, Seen(a, contents), call)
  {
    hide *;
    var v := Seen(a, contents);
    CleanIs(v, call);
    if Find(a.nodes, 0, call.path).Some? {
      RemovedCounts(a, b, Find(a.nodes, 0, call.path).value);
    }
    if Clean(v, call) {
      NothingHard(a, contents, call.path);
    }
    MovesIs(a, pos, b, pos, v, call);
  }

  lemma RemovedCounts(a: Fs, b: Fs, v: nat)
    requires WellFormed(a.nodes) && v < |a.nodes| && (b == a || Emptied(a, b, v) || (v > 0 && Unlinked(a, b, v)))
    ensures |b.nodes| == |a.nodes| && |b.inodes| == |a.inodes|
  {
    hide WellFormed, KidsWithout, Under, InodeStep;
  }

  lemma RepliesIs(a: Fs, b: Fs, path: Path, req: Request, r: Result<(), FormatError>)
    requires Replies(a, b, path, req, r)
    ensures Numbered(a) && (Plain(a) ==> r == Answer(a, path, req))
  {
    hide Numbered, Plain, Answer;
  }

  lemma ProperIs(call: Call)
    requires Proper(call)
    ensures match call
            case Create(path, req) =>
              Canonical(path) && Sensible(req.mode, req.link) && Owned(req.uid, req.gid) && (path == [] ==> !IsLinkMode(req.mode))
            case Link(linkPath, targetPath) => Canonical(linkPath) && linkPath != []
            case Unlink(path, directoryWhiteout) => true
  {
    hide Canonical, Sensible, Owned, IsLinkMode;
  }

  lemma RequestIs(req: Request)
    ensures req == Request(req.mode, req.link, req.data, req.uid, req.gid)
  {
  }

  lemma LinkedParts(a: Fs, b: Fs, contents: seq<Content>, linkPath: Path, targetPath: Path, t: nat)
    requires LinkedTo(a, b, contents, linkPath, targetPath, t)
    ensures Numbered(a) && Numbered(b) && Seen(b, contents) == AfterLink(Seen(a, contents), linkPath, targetPath)
  {
    hide Numbered, Seen, AfterLink, LinkMade, LinkFrame;
  }

  lemma AfterIs(v: Volume, call: Call)
    ensures call.Create? ==> After(v, call) == AfterCreate(v, call.path, call.req)
    ensures call.Link? ==> After(v, call) == AfterLink(v, call.linkPath, call.targetPath)
    ensures call.Unlink? ==> After(v, call) == AfterUnlink(v, call.path, call.directoryWhiteout)
  {
    hide AfterCreate, AfterLink, AfterUnlink;
  }

  lemma BlankSeen()
    ensures Numbered(InitialFs()) && Seen(InitialFs(), []) == Blank()
  {
    InitialNumbered();
    RootNode(InitialFs());
    forall q: Path ensures SightAt(InitialFs(), [], q) == NameIn(Blank(), q) {
      InitialNames(q);
      SightIs(InitialFs(), [], q);
    }
    hide Numbered, SightAt, NameIn, Seen, Find;
    SeenIs(InitialFs(), [], Blank());
  }

  // ---- What the reader makes of a run ----

  /** The reader's tree and hard links hold exactly the names seen, by number. */
  ghost predicate ListsAs(nodes: Nodes, links: map<Path, nat>, v: Volume) {
    && WellFormed(nodes) && |nodes| > 0
    && forall q: Path :: ListedUnder(nodes, links, v, q)
  }

  ghost predicate ListedUnder(nodes: Nodes, links: map<Path, nat>, v: Volume, q: Path)
    requires WellFormed(nodes) && |nodes| > 0
  {
    var g := Find(nodes, 0, q);
    && (q in v.names <==> g.Some? || q in links) && !(g.Some? && q in links)
    && (g.Some? && q in v.names ==> g.value < |nodes| && nodes[g.value].inode == v.names[q].number)
    && (q in links && q in v.names ==> links[q] == v.names[q].number)
  }

  lemma ImageListed(fs: Fs, contents: seq<Content>, nodes: Nodes, links: map<Path, nat>)
    requires Numbered(fs) && WellFormed(fs.nodes) && R.Recovered(fs, nodes, links)
    ensures ListsAs(nodes, links, Seen(fs, contents))
  {
    assert WellFormed(nodes);
    hide *;
    var v := Seen(fs, contents);
    NotEmpty(nodes);
    forall q: Path ensures ListedUnder(nodes, links, v, q) {
      NameAt(fs, contents, q);
      RecoveredAt(fs, nodes, links, q);
      if Find(fs.nodes, 0, q).Some? {
        E.SightParts(fs, contents, Find(fs.nodes, 0, q).value);
      }
      if Find(nodes, 0, q).Some? {
        InTree(nodes, q, Find(nodes, 0, q).value);
      }
      ListedIs(nodes, links, v, q);
    }
    ListsIs(nodes, links, v);
  }

  lemma NotEmpty(nodes: Nodes)
    requires WellFormed(nodes)
    ensures |nodes| > 0
  {
  }

  lemma RecoveredAt(fs: Fs, nodes: Nodes, links: map<Path, nat>, q: Path)
    requires WellFormed(fs.nodes) && |fs.nodes| > 0 && WellFormed(nodes) && |nodes| > 0 && R.Recovered(fs, nodes, links)
    ensures var f, g := Find(fs.nodes, 0, q), Find(nodes, 0, q);
      && (f.None? ==> g.None? && q !in links)
      && (f.Some? ==> f.value < |fs.nodes|) && (g.Some? ==> g.value < |nodes|)
      && (f.Some? && g.Some? ==> nodes[g.value].inode == Target(fs.nodes[f.value]) && q !in links)
      && (f.Some? && g.None? ==> q in links && links[q] == Target(fs.nodes[f.value]))
  {
    assert R.NameRecovered(fs, nodes, links, q);
    hide R.Recovered, Find, WellFormed, Target;
  }

  lemma ListedIs(nodes: Nodes, links: map<Path, nat>, v: Volume, q: Path)
    requires WellFormed(nodes) && |nodes| > 0
    ensures var g := Find(nodes, 0, q);
      ListedUnder(nodes, links, v, q) <==>
        && (q in v.names <==> g.Some? || q in links) && !(g.Some? && q in links)
        && (g.Some? && q in v.names ==> g.value < |nodes| && nodes[g.value].inode == v.names[q].number)
        && (q in links && q in v.names ==> links[q] == v.names[q].number)
  {
    hide WellFormed, Find;
  }

  lemma ListsIs(nodes: Nodes, links: map<Path, nat>, v: Volume)
    requires WellFormed(nodes) && |nodes| > 0 && forall q: Path :: ListedUnder(nodes, links, v, q)
    ensures ListsAs(nodes, links, v)
  {
    hide WellFormed, ListedUnder;
  }

  /** How a run ends: a call was refused or not covered, there were too many names,
      or the image was closed and opened. */
  datatype RunResult = Stopped(at: nat, status: Status) | TooMany | Ended(outcome: E.Outcome)

  /** No call before the `n`-th removes a hard link or builds upon one. */
  ghost predicate CleanRun(calls: seq<Call>, n: nat)
    requires n <= |calls|
  {
    forall k :: 0 <= k < n ==> Clean(AfterAll(calls[..k]), calls[k])
  }

  /** What the calls cost, in blocks. */
  ghost function CostOf(calls: seq<Call>): nat {
    if calls == [] then 0
    else CostOf(calls[..|calls| - 1]) + Cost(AfterAll(calls[..|calls| - 1]), calls[|calls| - 1])
  }

  function Links(calls: seq<Call>): nat {
    if calls == [] then 0 else Links(calls[..|calls| - 1]) + if calls[|calls| - 1].Link? then 1 else 0
  }

  /** The formatter's state after the first `n` calls: its names are what the calls
      made, its counts those the names say, and it has a node for every inode and hard
      link ever made. */
  ghost predicate Reached(fs: Fs, contents: seq<Content>, calls: seq<Call>, n: nat)
    requires n <= |calls|
  {
    && Inv(fs, 0) && Numbered(fs) && |contents| == |fs.origin| && Seen(fs, contents) == AfterAll(calls[..n])
    && |fs.nodes| + 9 == |fs.inodes| + Links(calls[..n])
    && (CleanRun(calls, n) ==> Tidy(fs))
  }

  /** The first `n` calls ended as they ought to, unless a hard link had been built
      upon before. */
  ghost predicate AllEnd(calls: seq<Call>, n: nat)
    requires n <= |calls|
  {
    forall k :: 0 <= k < n && PlainNames(AfterAll(calls[..k])) ==> Verdict(AfterAll(calls[..k]), calls[k]).Ok?
  }

  /** The inode found under a name has the link count the names say. */
  ghost predicate LinksFound(img: seq<byte>, sb: SuperBlock, v: Volume, q: Path, clean: bool)
    requires Supported(sb) && q in v.names
  {
    && v.names[q].number > 0 && ReadInode(img, sb, v.names[q].number).Ok?
    && Counted(v, q, ReadInode(img, sb, v.names[q].number).value.links, clean)
  }

  /** All of what the reader finds in an image: every path leads where the names say,
      to the contents and attributes they say, and link counts are what they say. */
  ghost predicate FoundAll(img: seq<byte>, v: Volume, clean: bool) {
    && ReadSuper(img).Ok? && Supported(ReadSuper(img).value) && Rooted(v)
    && (forall path: seq<byte>, follow: bool :: FoundAs(img, ReadSuper(img).value, v, path, follow))
    && (forall q: Path :: q in v.names ==> LinksFound(img, ReadSuper(img).value, v, q, clean))
  }

  /** A whole run. Make a file system, call what is to be called, close it, open the
      image: a run stops exactly at a call that the formatter's state says is refused or
      not covered; it is not closed exactly if it is too big; and else, if no hard link
      was built upon and the descriptors fit where they were to go, the reader finds
      what the calls made. That the calls leave all hard links bare and no symlink that
      looks like extents can be told from the calls alone. */
  method BuildAndRead(size: nat, allowPartialFinalGroup: bool, calls: seq<Call>)
    returns (r: RunResult, f: Formatter, ghost geo: Geometry, ghost fs: Fs, ghost contents: seq<Content>)
    requires size > 0 && forall k :: 0 <= k < |calls| ==> Proper(calls[k])
    requires PlainNames(AfterAll(calls)) && E.TextTargets(AfterAll(calls))
    ensures r.Stopped? ==> r.at < |calls| && !r.status.Done? && AllEnd(calls, r.at) && Reached(fs, contents, calls, r.at)
    ensures r.Stopped? && Plain(fs) ==>
      && EndsAs(fs, calls[r.at], r.status)
      && (r.status.Refused? ==> r.status.why == MaximumLinksExceeded || Verdict(AfterAll(calls[..r.at]), calls[r.at]) == Err(r.status.why))
    ensures !r.Stopped? ==> AllEnd(calls, |calls|) && Reached(fs, contents, calls, |calls|) && Plain(fs)
    ensures !r.Stopped? ==> (r.TooMany? <==> |fs.nodes| > MAX_NAMES)
    ensures r.Ended? ==>
      && Listable(fs)
      && (r.outcome.NotClosed? <==>
        TooBig(allowPartialFinalGroup, size, DirectoriesEnd(fs, (DescriptorBlocks(size) + 1 + CostOf(calls)) * 4096), |fs.inodes|))
    ensures r.Ended? && r.outcome.NotClosed? ==> r.outcome.why == NumbersOverflow
    ensures r.Ended? && !r.outcome.NotClosed? ==>
      geo.Ok() && geo.total > 0 && f.size > 0 && geo.UsedDescriptors() <= DescriptorBlocks(f.size)
    ensures r.Ended? && !r.outcome.NotClosed? && geo.UsedDescriptors() <= DescriptorBlocks(size) ==>
      && FoundAll(f.file.bytes, AfterAll(calls), CleanRun(calls, |calls|))
      && (r.outcome.Opened? <==> E.HarmlessNames(AfterAll(calls)))
      && (r.outcome.Opened? ==> ListsAs(r.outcome.reader.tree.nodes, r.outcome.reader.hardlinks, AfterAll(calls)))
  {
    hide *;
    geo := Geometry(false, 0, 0, 0, 0, 0, 0, 0);
    var made;
    f, made := WithOptions(size, allowPartialFinalGroup);
    BlankSeen();
    fs, contents := f.View(), f.contents;
    RunStarts(f, calls, size);
    for k := 0 to |calls|
      invariant f.Valid(0) && Numbered(f.View()) && f.size == size && f.first == DescriptorBlocks(size) + 1
      invariant f.allowPartialFinalGroup == allowPartialFinalGroup
      invariant fresh(f) && fresh(f.tree) && fresh(f.file)
      invariant Reached(f.View(), f.contents, calls, k) && AllEnd(calls, k)
      invariant f.file.pos == (DescriptorBlocks(size) + 1 + CostOf(calls[..k])) * 4096
    {
      Parts(f, 0);
      fs, contents := f.View(), f.contents;
      ReachedIs(fs, contents, calls, k);
      PlainIff(fs, contents);
      ghost var img, pos, v := f.file.bytes, f.file.pos, AfterAll(calls[..k]);
      ExpectedSeen(fs, contents, img, pos, f.first, calls[k]);
      var status := Perform(f, calls[k]);
      EndsIs(fs, calls[k], status);
      if !status.Done? {
        return Stopped(k, status), f, geo, fs, contents;
      }
      OneMoreEnds(calls, k);
      Parts(f, 0);
      OnDiskCounts(f);
      OneMoreReached(fs, contents, pos, f.View(), f.contents, f.file.pos, calls, k);
    }
    assert calls[..|calls|] == calls;
    Parts(f, 0);
    fs, contents := f.View(), f.contents;
    ReachedIs(fs, contents, calls, |calls|);
    PlainIff(fs, contents);
    if |f.tree.nodes| > MAX_NAMES {
      return TooMany, f, geo, fs, contents;
    }
    ghost var img0, pos0, first := f.file.bytes, f.file.pos, f.first;
    var outcome;
    outcome, geo := E.CloseAndOpen(f);
    r := Ended(outcome);
    if !outcome.NotClosed? && geo.UsedDescriptors() <= DescriptorBlocks(size) {
      AllFound(f.file.bytes, fs, contents, f.inodes, img0, pos0, first, calls);
      if outcome.Opened? {
        ImageListed(fs, contents, outcome.reader.tree.nodes, outcome.reader.hardlinks);
      }
    }
  }

  lemma RunStarts(f: Formatter, calls: seq<Call>, size: nat)
    requires f.Valid(0) && Numbered(f.View()) && Tidy(f.View()) && OnlyLostFound(f.View())
    requires Numbered(InitialFs()) && Seen(f.View(), f.contents) == AfterCreate(Seen(InitialFs(), []), [LOST_FOUND], LOST)
    requires Seen(InitialFs(), []) == Blank() && |f.View().nodes| + 9 == |f.View().inodes|
    ensures AllEnd(calls, 0) && Reached(f.View(), f.contents, calls, 0) && CostOf(calls[..0]) == 0
  {
    assert calls[..0] == [];
    Parts(f, 0);
    OnDiskCounts(f);
    hide Numbered, Tidy, Inv, Seen, AfterCreate, Blank;
  }

  lemma ReachedIs(fs: Fs, contents: seq<Content>, calls: seq<Call>, n: nat)
    requires n <= |calls| && Reached(fs, contents, calls, n)
    ensures Inv(fs, 0) && Numbered(fs) && |contents| == |fs.origin| && Seen(fs, contents) == AfterAll(calls[..n])
    ensures |fs.nodes| + 9 == |fs.inodes| + Links(calls[..n])
    ensures CleanRun(calls, n) ==> Tidy(fs)
  {
    hide Inv, Numbered, Seen, AfterAll, Tidy, CleanRun;
  }

  lemma OneMoreReached(a: Fs, was: seq<Content>, pos: nat, b: Fs, contents: seq<Content>, pos': nat, calls: seq<Call>, k: nat)
    requires k < |calls| && Reached(a, was, calls, k) && Inv(b, 0) && Numbered(a) && Numbered(b) && |contents| == |b.origin|
    requires Seen(b, contents) == After(Seen(a, was), calls[k]) && Moves(a, pos, b, pos', Seen(a, was), calls[k])
    requires pos % 4096 == 0
    ensures Reached(b, contents, calls, k + 1)
    ensures pos' == pos + (CostOf(calls[..k + 1]) - CostOf(calls[..k])) * 4096
  {
    AfterAllSnoc(calls, k);
    ReachedIs(a, was, calls, k);
    MovesIs(a, pos, b, pos', Seen(a, was), calls[k]);
    assert calls[..k + 1][..k] == calls[..k];
    assert CleanRun(calls, k + 1) ==> CleanRun(calls, k) && Clean(AfterAll(calls[..k]), calls[k]);
    hide Inv, Numbered, Seen, AfterAll, Tidy, Cost, Clean, Moves, After;
  }

  lemma OneMoreEnds(calls: seq<Call>, k: nat)
    requires k < |calls| && AllEnd(calls, k)
    requires PlainNames(AfterAll(calls[..k])) ==> Verdict(AfterAll(calls[..k]), calls[k]).Ok?
    ensures AllEnd(calls, k + 1)
  {
    hide PlainNames, AfterAll, Verdict;
  }

  lemma AllFound(img: seq<byte>, fs: Fs, contents: seq<Content>, inodes: seq<Inode>, img0: seq<byte>, pos0: nat, first: nat, calls: seq<Call>)
    requires ReadSuper(img).Ok? && E.O.ImageOf(img, ReadSuper(img).value, fs, contents, inodes)
    requires Reached(fs, contents, calls, |calls|) && Numbered(fs) && OnDiskOk(fs, contents, img0, pos0, first)
    ensures FoundAll(img, AfterAll(calls), CleanRun(calls, |calls|))
  {
    hide *;
    var sb, v, clean := ReadSuper(img).value, AfterAll(calls), CleanRun(calls, |calls|);
    assert calls[..|calls|] == calls;
    ReachedIs(fs, contents, calls, |calls|);
    E.O.ImageParts(img, sb, fs, contents, inodes);
    ImageRooted(img, sb, fs, contents, inodes);
    forall path: seq<byte>, follow: bool ensures FoundAs(img, sb, v, path, follow) {
      PathReadsBack(img, sb, fs, contents, inodes, path, follow);
    }
    forall q: Path | q in v.names ensures LinksFound(img, sb, v, q, clean) {
      Backed(img, sb, fs, contents, inodes, q);
      CountsSeen(fs, contents, img0, pos0, first, q);
      var i, n := Find(fs.nodes, 0, q).value, v.names[q].number;
      E.AttributesBack(img, sb, fs, contents, inodes, i);
      SameIs(TargetInode(fs, i), inodes[n - 1]);
      CountedLess(v, q, inodes[n - 1].links, Tidy(fs), clean);
      LinksFoundIs(img, sb, v, q, clean);
    }
    FoundAllIs(img, v, clean);
  }

  lemma CountedLess(v: Volume, q: Path, links: nat, tidy: bool, clean: bool)
    requires q in v.names && Counted(v, q, links, tidy) && (clean ==> tidy)
    ensures Counted(v, q, links, clean)
  {
    hide Subdirs, AllNames;
  }

  lemma LinksFoundIs(img: seq<byte>, sb: SuperBlock, v: Volume, q: Path, clean: bool)
    requires Supported(sb) && q in v.names && v.names[q].number > 0 && ReadInode(img, sb, v.names[q].number).Ok?
    requires Counted(v, q, ReadInode(img, sb, v.names[q].number).value.links, clean)
    ensures LinksFound(img, sb, v, q, clean)
  {
    hide Supported, ReadInode, Counted;
  }

  lemma FoundAllIs(img: seq<byte>, v: Volume, clean: bool)
    requires ReadSuper(img).Ok? && Supported(ReadSuper(img).value) && Rooted(v)
    requires forall path: seq<byte>, follow: bool :: FoundAs(img, ReadSuper(img).value, v, path, follow)
    requires forall q: Path :: q in v.names ==> LinksFound(img, ReadSuper(img).value, v, q, clean)
    ensures FoundAll(img, v, clean)
  {
    hide ReadSuper, Supported, Rooted, FoundAs, LinksFound;
  }
}
