/** What a path leads to, symlinks followed, said by names alone: the walk goes from
    path to path and takes symlink targets from the contents. On the image of a file
    system the reader's path resolution is that walk, errors included. */
module Following {
  import opened Basics
  import opened OnDisk
  import opened Extents
  import opened Directory
  import opened Trees
  import opened Namespace
  import opened Unlinking
  import opened Contents
  import opened Requests
  import opened Formatting
  import opened Views
  import opened Committing
  import opened Reading
  import opened Volumes
  import O = Opening
  import opened FileRead
  import opened Resolving
  import opened NameLookup
  import E = EndToEnd

  // ---- The walk by names ----

  predicate Slashed(target: seq<byte>) { target != [] && target[0] == '/' as int }

  /** One component, from the directory under the path `at`; `visited` are the numbers
      of the symlinks followed. */
  ghost function NameStep(v: Volume, at: Path, name: Name, follow: bool, visited: set<nat>): (r: Result<(Path, set<nat>), ReadError>)
    requires |visited| <= MAX_SYMLINK_HOPS
    ensures r.Ok? ==> visited <= r.value.1 && |visited| <= |r.value.1| <= MAX_SYMLINK_HOPS
    decreases MAX_SYMLINK_HOPS - |visited|, 0
  {
    if name == DOT then Ok((at, visited))
    else if name == DOTDOT then Ok((ParentOf(at), visited))
    else if at !in v.names || v.names[at].content != Directory then Err(NotADirectory)
    else if at + [name] !in v.names then Err(PathNotFound)
    else
      var s := v.names[at + [name]];
      if s.content.Symlink? && follow then
        if s.number in visited then Err(SymlinkLoop)
        else if |visited| + 1 > MAX_SYMLINK_HOPS then Err(SymlinkLoop)
        else if s.content.target == [] then Err(InvalidPath)
        else
          OneMoreVisited(visited, s.number);
          var r := NameWalk(v, if Slashed(s.content.target) then [] else at, Components(s.content.target), follow, visited + {s.number});
          if r.Ok? then (SeenGrows(visited, s.number, r.value.1); r) else r
      else Ok((at + [name], visited))
  }

  ghost function NameWalk(v: Volume, at: Path, comps: seq<Name>, follow: bool, visited: set<nat>): (r: Result<(Path, set<nat>), ReadError>)
    requires |visited| <= MAX_SYMLINK_HOPS
    ensures r.Ok? ==> visited <= r.value.1 && |visited| <= |r.value.1| <= MAX_SYMLINK_HOPS
    decreases MAX_SYMLINK_HOPS - |visited|, |comps|
  {
    if comps == [] then Ok((at, visited))
    else
      match NameStep(v, at, comps[0], follow, visited)
      case Err(e) => Err(e)
      case Ok((to, seen)) => NameWalk(v, to, comps[1..], follow, seen)
  }

  /** The name a path of text leads to. */
  ghost function Leads(v: Volume, path: seq<byte>, follow: bool): Result<Path, ReadError> {
    match NameWalk(v, [], Components(path), follow, {})
    case Err(e) => Err(e)
    case Ok((to, seen)) => Ok(to)
  }

  // ---- The reader's walk is that walk ----

  /** A place of the reader and the path it stands for: the directories entered are
      those on the way. */
  ghost predicate Stands(v: Volume, q: Path, p: Place) {
    && PlaceOk(p) && |p.parents| == |q| && q in v.names && p.at == v.names[q].number
    && forall k :: 0 <= k < |q| ==> q[..k] in v.names && p.parents[k] == v.names[q[..k]].number
  }

  /** A name and its inode in the image. */
  lemma Backed(img: seq<byte>, sb: SuperBlock, fs: Fs, contents: seq<Content>, inodes: seq<Inode>, q: Path)
    requires O.ImageOf(img, sb, fs, contents, inodes) && Numbered(fs)
    ensures Supported(sb) && WellFormed(fs.nodes) && |fs.nodes| > 0
    ensures var v, f := Seen(fs, contents), Find(fs.nodes, 0, q);
      && (q in v.names <==> f.Some?)
      && (f.Some? ==>
            var s, i := v.names[q], f.value;
            && i < |fs.nodes| && Attached(fs.nodes, i) && s.number == Target(fs.nodes[i]) && (s.number == ROOT_INODE <==> q == [])
            && 0 < s.number <= |inodes| && s.number < 0x1_0000_0000 && ReadInode(img, sb, s.number) == Ok(inodes[s.number - 1])
            && (IsOwnDir(fs, i) <==> s.content == Directory)
            && (inodes[s.number - 1].IsLink() <==> s.content.Symlink?)
            && (s.content.Symlink? ==> LinkBytes(img, inodes[s.number - 1]) == Ok(s.content.target)))
  {
    hide *;
    O.ImageParts(img, sb, fs, contents, inodes);
    NameAt(fs, contents, q);
    var f := Find(fs.nodes, 0, q);
    if f.Some? {
      var i, s := f.value, Seen(fs, contents).names[q];
      PathOfLookup(fs.nodes, q);
      RootOnly(fs.nodes, q, i);
      NameLookup.NodeInode(img, sb, fs, contents, inodes, i);
      E.ImageCounts(img, sb, fs, contents, inodes);
      E.SightParts(fs, contents, i);
      if i == 0 {
        RootSight(fs, contents);
      } else {
        E.HeldBy(img, sb, fs, contents, inodes, i);
        ContentCases(img, inodes[s.number - 1], s.content);
        OneType(inodes[s.number - 1]);
        if s.content.Symlink? {
          E.SameLink(s.content);
          TargetReadsBack(img, inodes[s.number - 1], s.content.target);
        }
      }
    }
  }

  lemma RootSight(fs: Fs, contents: seq<Content>)
    requires Inv(fs, 0) && Numbered(fs) && |fs.nodes| > 0
    ensures SightOf(fs, contents, 0).content == Directory && !TargetInode(fs, 0).IsLink() && IsOwnDir(fs, 0)
  {
    RootTarget(fs);
    E.RootIsNoLink(fs, contents);
    hide Inv, Numbered;
  }

  lemma OneType(inode: Inode)
    ensures inode.IsReg() || inode.IsLink() ==> !inode.IsDir()
    ensures inode.IsReg() || inode.IsDir() ==> !inode.IsLink()
  {
  }

  /** One component by name. */
  lemma EnterByName(img: seq<byte>, sb: SuperBlock, fs: Fs, contents: seq<Content>, inodes: seq<Inode>, q: Path, name: Name)
    requires O.ImageOf(img, sb, fs, contents, inodes) && Numbered(fs)
    requires q in Seen(fs, contents).names && name != DOT && name != DOTDOT
    ensures Supported(sb) && |inodes| == |fs.inodes| && 0 < Seen(fs, contents).names[q].number < 0x1_0000_0000
    ensures var v := Seen(fs, contents);
      var e, child := Enter(img, sb, v.names[q].number, name), q + [name];
      && (v.names[q].content != Directory ==> e == Err(NotADirectory))
      && (v.names[q].content == Directory && child !in v.names ==> e == Err(PathNotFound))
      && (v.names[q].content == Directory && child in v.names ==>
            && 0 < v.names[child].number <= |inodes| && e == Ok((v.names[child].number, inodes[v.names[child].number - 1])))
  {
    hide *;
    var v, child := Seen(fs, contents), q + [name];
    O.DotsCases(name);
    O.ImageParts(img, sb, fs, contents, inodes);
    Backed(img, sb, fs, contents, inodes, q);
    Backed(img, sb, fs, contents, inodes, child);
    FindSnoc(fs.nodes, q, name);
    var i := Find(fs.nodes, 0, q).value;
    FindOne(fs.nodes, i, name);
    EnterName(img, sb, fs, contents, inodes, i, name);
    if !IsOwnDir(fs, i) {
      NothingBelow(fs, i, name);
    }
    if child in v.names {
      EnterReads(img, sb, v.names[q].number, name);
    }
  }

  lemma EnterReads(img: seq<byte>, sb: SuperBlock, at: nat, name: Name)
    requires Supported(sb) && 0 < at < 0x1_0000_0000 && Enter(img, sb, at, name).Ok?
    ensures 0 < Enter(img, sb, at, name).value.0 && ReadInode(img, sb, Enter(img, sb, at, name).value.0) == Ok(Enter(img, sb, at, name).value.1)
  {
    hide Supported, ReadInode;
  }

  /** Both walks fail alike, or end at the same name with the same symlinks followed. */
  ghost predicate SameEnd(v: Volume, w: Result<(Place, set<nat>), ReadError>, n: Result<(Path, set<nat>), ReadError>) {
    match n
    case Err(e) => w == Err(e)
    case Ok((to, seen)) => w.Ok? && w.value.1 == seen && Stands(v, to, w.value.0)
  }

  lemma StepAlike(img: seq<byte>, sb: SuperBlock, fs: Fs, contents: seq<Content>, inodes: seq<Inode>,
                  q: Path, p: Place, name: Name, follow: bool, visited: set<nat>)
    requires O.ImageOf(img, sb, fs, contents, inodes) && Numbered(fs) && |visited| <= MAX_SYMLINK_HOPS
    requires Stands(Seen(fs, contents), q, p)
    ensures Supported(sb) && PlaceOk(p)
    ensures SameEnd(Seen(fs, contents), Step(img, sb, p, name, follow, visited), NameStep(Seen(fs, contents), q, name, follow, visited))
    decreases MAX_SYMLINK_HOPS - |visited|, 0
  {
    hide *;
    var v := Seen(fs, contents);
    O.ImageParts(img, sb, fs, contents, inodes);
    StandsOk(v, q, p);
    Resolving.StepCases(img, sb, p, name, follow, visited);
    DotsAreTwo();
    NameStepIs(v, q, name, follow, visited);
    Backed(img, sb, fs, contents, inodes, q);
    var n := NameStep(v, q, name, follow, visited);
    var w := Step(img, sb, p, name, follow, visited);
    if name == DOT {
      SameEndOk(v, p, q, visited);
    } else if name == DOTDOT {
      UpByName(img, sb, v, q, p);
      SameEndOk(v, Up(img, sb, p).value, ParentOf(q), visited);
    } else {
      EnterByName(img, sb, fs, contents, inodes, q, name);
      var e, child := Enter(img, sb, p.at, name), q + [name];
      if e.Err? {
        SameEndErr(v, e.error);
      } else {
        Backed(img, sb, fs, contents, inodes, child);
        var s := v.names[child];
        EnterCasesAre(img, sb, p, name, follow, visited, s.number, inodes[s.number - 1]);
        if s.content.Symlink? && follow {
          if s.number in visited || |visited| == MAX_SYMLINK_HOPS {
            SameEndErr(v, SymlinkLoop);
          } else if s.content.target == [] {
            SameEndErr(v, InvalidPath);
          } else {
            var target := s.content.target;
            LinkStep(img, sb, p, name, visited, s.number, inodes[s.number - 1], target);
            BaseStands(v, q, p, target);
            RootStands(img, sb, fs, contents, inodes);
            WalkAlike(img, sb, fs, contents, inodes, if Slashed(target) then [] else q, Base(p, target), Components(target), true,
                      visited + {s.number});
          }
        } else {
          ChildStands(v, q, p, name);
          SameEndOk(v, Place(p.parents + [p.at], s.number), child, visited);
        }
      }
    }
  }

  lemma StandsOk(v: Volume, q: Path, p: Place)
    requires Stands(v, q, p)
    ensures PlaceOk(p) && 0 < p.at < 0x1_0000_0000 && q in v.names && p.at == v.names[q].number
  {
  }

  lemma SameEndOk(v: Volume, p: Place, q: Path, visited: set<nat>)
    requires Stands(v, q, p)
    ensures SameEnd(v, Ok((p, visited)), Ok((q, visited)))
  {
    hide Stands;
  }

  lemma SameEndErr(v: Volume, e: ReadError)
    ensures SameEnd(v, Err(e), Err(e))
  {
  }

  lemma NameStepIs(v: Volume, at: Path, name: Name, follow: bool, visited: set<nat>)
    requires |visited| <= MAX_SYMLINK_HOPS
    ensures var r := NameStep(v, at, name, follow, visited);
      && (name == DOT ==> r == Ok((at, visited)))
      && (name != DOT && name == DOTDOT ==> r == Ok((ParentOf(at), visited)))
      && (name != DOT && name != DOTDOT ==>
            && (at !in v.names || v.names[at].content != Directory ==> r == Err(NotADirectory))
            && (at in v.names && v.names[at].content == Directory ==>
                  && (at + [name] !in v.names ==> r == Err(PathNotFound))
                  && (at + [name] in v.names ==>
                        var s := v.names[at + [name]];
                        && (!(s.content.Symlink? && follow) ==> r == Ok((at + [name], visited)))
                        && (s.content.Symlink? && follow ==>
                              && (s.number in visited || |visited| == MAX_SYMLINK_HOPS ==> r == Err(SymlinkLoop))
                              && (s.number !in visited && |visited| < MAX_SYMLINK_HOPS ==>
                                    && |visited + {s.number}| <= MAX_SYMLINK_HOPS
                                    && (s.content.target == [] ==> r == Err(InvalidPath))
                                    && (s.content.target != [] ==>
                                          r == NameWalk(v, if Slashed(s.content.target) then [] else at, Components(s.content.target), true,
                                                        visited + {s.number})))))))
  {
    hide NameWalk, Components, Slashed;
    if at + [name] in v.names && v.names[at + [name]].number !in visited {
      OneMoreVisited(visited, v.names[at + [name]].number);
    }
  }

  lemma UpByName(img: seq<byte>, sb: SuperBlock, v: Volume, q: Path, p: Place)
    requires Supported(sb) && Stands(v, q, p) && PlaceOk(p) && (p.at == ROOT_INODE <==> q == [])
    ensures Up(img, sb, p).Ok? && Stands(v, ParentOf(q), Up(img, sb, p).value)
  {
    hide DirEntries, Supported;
    if q != [] {
      var up := ParentOf(q);
      assert up == q[..|q| - 1];
      forall k | 0 <= k < |up| ensures up[..k] in v.names && p.parents[k] == v.names[up[..k]].number {
        assert up[..k] == q[..k];
      }
    }
  }

  lemma ChildStands(v: Volume, q: Path, p: Place, name: Name)
    requires Stands(v, q, p) && q + [name] in v.names && 0 < v.names[q + [name]].number < 0x1_0000_0000
    ensures Stands(v, q + [name], Place(p.parents + [p.at], v.names[q + [name]].number))
  {
    var c, d := q + [name], Place(p.parents + [p.at], v.names[q + [name]].number);
    forall k | 0 <= k < |c| ensures c[..k] in v.names && d.parents[k] == v.names[c[..k]].number {
      if k < |q| {
        assert c[..k] == q[..k];
      } else {
        assert c[..k] == q;
      }
    }
  }

  lemma BaseStands(v: Volume, q: Path, p: Place, target: seq<byte>)
    requires Stands(v, q, p)
    ensures Base(p, target) == (if Slashed(target) then START else p)
  {
  }

  lemma RootStands(img: seq<byte>, sb: SuperBlock, fs: Fs, contents: seq<Content>, inodes: seq<Inode>)
    requires O.ImageOf(img, sb, fs, contents, inodes) && Numbered(fs)
    ensures Stands(Seen(fs, contents), [], START)
  {
    hide *;
    Backed(img, sb, fs, contents, inodes, []);
    StartOk();
    O.ImageParts(img, sb, fs, contents, inodes);
    RootFound(fs);
    RootStandsIs(Seen(fs, contents));
  }

  lemma RootStandsIs(v: Volume)
    requires [] in v.names && v.names[[]].number == START.at
    ensures Stands(v, [], START)
  {
  }

  lemma WalkAlike(img: seq<byte>, sb: SuperBlock, fs: Fs, contents: seq<Content>, inodes: seq<Inode>,
                  q: Path, p: Place, comps: seq<Name>, follow: bool, visited: set<nat>)
    requires O.ImageOf(img, sb, fs, contents, inodes) && Numbered(fs) && |visited| <= MAX_SYMLINK_HOPS
    requires Stands(Seen(fs, contents), q, p)
    ensures Supported(sb) && PlaceOk(p)
    ensures SameEnd(Seen(fs, contents), Resolving.Walk(img, sb, p, comps, follow, visited), NameWalk(Seen(fs, contents), q, comps, follow, visited))
    decreases MAX_SYMLINK_HOPS - |visited|, |comps| + 1
  {
    hide *;
    var v := Seen(fs, contents);
    O.ImageParts(img, sb, fs, contents, inodes);
    StandsOk(v, q, p);
    if comps == [] {
      WalkNone(img, sb, p, follow, visited);
      NameWalkNone(v, q, follow, visited);
      SameEndOk(v, p, q, visited);
    } else {
      assert comps == [comps[0]] + comps[1..];
      WalkCons(img, sb, p, comps[0], comps[1..], follow, visited);
      NameWalkCons(v, q, comps, follow, visited);
      StepAlike(img, sb, fs, contents, inodes, q, p, comps[0], follow, visited);
      var w, n := Step(img, sb, p, comps[0], follow, visited), NameStep(v, q, comps[0], follow, visited);
      SameEndParts(v, w, n);
      if n.Err? {
        ThenErr(img, sb, n.error, comps[1..], follow);
        SameEndErr(v, n.error);
      } else {
        ThenIs(img, sb, w.value.0, comps[1..], follow, w.value.1);
        WalkAlike(img, sb, fs, contents, inodes, n.value.0, w.value.0, comps[1..], follow, n.value.1);
      }
    }
  }

  lemma SameEndParts(v: Volume, w: Result<(Place, set<nat>), ReadError>, n: Result<(Path, set<nat>), ReadError>)
    requires SameEnd(v, w, n)
    ensures n.Err? ==> w == Err(n.error)
    ensures n.Ok? ==> w.Ok? && w.value.1 == n.value.1 && Stands(v, n.value.0, w.value.0) && PlaceOk(w.value.0)
    ensures n.Ok? ==> w == Ok((w.value.0, w.value.1))
  {
    hide PlaceOk;
  }

  lemma NameWalkNone(v: Volume, at: Path, follow: bool, visited: set<nat>)
    requires |visited| <= MAX_SYMLINK_HOPS
    ensures NameWalk(v, at, [], follow, visited) == Ok((at, visited))
  {
  }

  lemma NameWalkCons(v: Volume, at: Path, comps: seq<Name>, follow: bool, visited: set<nat>)
    requires |visited| <= MAX_SYMLINK_HOPS && comps != []
    ensures var s := NameStep(v, at, comps[0], follow, visited);
      && (s.Err? ==> NameWalk(v, at, comps, follow, visited) == Err(s.error))
      && (s.Ok? ==> |s.value.1| <= MAX_SYMLINK_HOPS
                    && NameWalk(v, at, comps, follow, visited) == NameWalk(v, s.value.0, comps[1..], follow, s.value.1))
  {
    hide NameStep;
  }

  /** Path resolution by names: for every path, dots and symlinks included, the reader
      fails with the error the walk by names fails with, or finds the inode of the name
      that leads to. */
  lemma ResolvesByName(img: seq<byte>, sb: SuperBlock, fs: Fs, contents: seq<Content>, inodes: seq<Inode>, path: seq<byte>, follow: bool)
    requires O.ImageOf(img, sb, fs, contents, inodes) && Numbered(fs)
    ensures Supported(sb)
    ensures var v, r, to := Seen(fs, contents), Resolve(img, sb, path, follow), Leads(Seen(fs, contents), path, follow);
      && (to.Err? ==> r == Err(to.error))
      && (to.Ok? ==> to.value in v.names && 0 < v.names[to.value].number <= |inodes|
                     && r == Ok((v.names[to.value].number, inodes[v.names[to.value].number - 1])))
  {
    hide *;
    var v := Seen(fs, contents);
    O.ImageParts(img, sb, fs, contents, inodes);
    StartOk();
    NoneVisited();
    RootStands(img, sb, fs, contents, inodes);
    WalkAlike(img, sb, fs, contents, inodes, [], START, Components(path), follow, {});
    var n := NameWalk(v, [], Components(path), follow, {});
    LeadsIs(v, path, follow);
    SameEndParts(v, Resolving.Walk(img, sb, START, Components(path), follow, {}), n);
    ResolveIs(img, sb, path, follow);
    if n.Ok? {
      var w := Resolving.Walk(img, sb, START, Components(path), follow, {});
      StandsOk(v, n.value.0, w.value.0);
      Backed(img, sb, fs, contents, inodes, n.value.0);
      PlaceInode(img, sb, w.value.0);
    }
  }

  lemma LeadsIs(v: Volume, path: seq<byte>, follow: bool)
    ensures var n := NameWalk(v, [], Components(path), follow, {});
      && (n.Err? ==> Leads(v, path, follow) == Err(n.error))
      && (n.Ok? ==> Leads(v, path, follow) == Ok(n.value.0))
  {
    hide NameWalk, Components;
  }

  /** The inode found has the number, attributes and contents seen. */
  ghost predicate HoldsAs(img: seq<byte>, n: nat, inode: Inode, s: Sight) {
    && n == s.number && inode.mode == s.mode && inode.uid == s.uid && inode.gid == s.gid
    && E.ReadsBack(img, inode, inode, s.content)
  }

  /** A path is found just as the names say. */
  ghost predicate FoundAs(img: seq<byte>, sb: SuperBlock, v: Volume, path: seq<byte>, follow: bool)
    requires Supported(sb)
  {
    var r, to := Resolve(img, sb, path, follow), Leads(v, path, follow);
    && (to.Err? ==> r == Err(to.error))
    && (to.Ok? ==> to.value in v.names && r.Ok? && HoldsAs(img, r.value.0, r.value.1, v.names[to.value]))
  }

  /** End to end, by path: whatever path is asked for, the reader finds the number,
      attributes and contents of the name it leads to, or fails as the names say. */
  lemma PathReadsBack(img: seq<byte>, sb: SuperBlock, fs: Fs, contents: seq<Content>, inodes: seq<Inode>, path: seq<byte>, follow: bool)
    requires O.ImageOf(img, sb, fs, contents, inodes) && Numbered(fs)
    ensures Supported(sb) && FoundAs(img, sb, Seen(fs, contents), path, follow)
  {
    hide *;
    var v, to := Seen(fs, contents), Leads(Seen(fs, contents), path, follow);
    ResolvesByName(img, sb, fs, contents, inodes, path, follow);
    if to.Ok? {
      NameHolds(img, sb, fs, contents, inodes, to.value);
    }
    FoundIs(img, sb, v, path, follow);
  }

  lemma FoundIs(img: seq<byte>, sb: SuperBlock, v: Volume, path: seq<byte>, follow: bool)
    requires Supported(sb)
    ensures var r, to := Resolve(img, sb, path, follow), Leads(v, path, follow);
      FoundAs(img, sb, v, path, follow) <==>
        && (to.Err? ==> r == Err(to.error))
        && (to.Ok? ==> to.value in v.names && r.Ok? && HoldsAs(img, r.value.0, r.value.1, v.names[to.value]))
  {
    hide HoldsAs, Resolve, Leads, Supported;
  }

  lemma NameHolds(img: seq<byte>, sb: SuperBlock, fs: Fs, contents: seq<Content>, inodes: seq<Inode>, q: Path)
    requires O.ImageOf(img, sb, fs, contents, inodes) && Numbered(fs) && q in Seen(fs, contents).names
    ensures var s := Seen(fs, contents).names[q]; 0 < s.number <= |inodes| && HoldsAs(img, s.number, inodes[s.number - 1], s)
  {
    hide *;
    O.ImageParts(img, sb, fs, contents, inodes);
    Backed(img, sb, fs, contents, inodes, q);
    NameAt(fs, contents, q);
    E.ImageCounts(img, sb, fs, contents, inodes);
    var s, i := Seen(fs, contents).names[q], Find(fs.nodes, 0, q).value;
    var inode := inodes[s.number - 1];
    E.SightParts(fs, contents, i);
    E.AttributesBack(img, sb, fs, contents, inodes, i);
    SameIs(TargetInode(fs, i), inode);
    SameIs(inode, inode);
    if i == 0 {
      RootSight(fs, contents);
      O.ImageInode(img, sb, fs, contents, inodes, s.number);
      RootTarget(fs);
      RootIsTarget(fs);
      DirectoryReadsBack(img, inode);
    } else {
      E.HeldBy(img, sb, fs, contents, inodes, i);
      E.HeldReadsBack(img, inode, inode, s.content);
    }
    HoldsIs(img, s.number, inode, s);
  }

  lemma RootIsTarget(fs: Fs)
    requires Numbered(fs) && |fs.nodes| > 0 && Target(fs.nodes[0]) == ROOT_INODE <= |fs.inodes|
    ensures TargetInode(fs, 0) == fs.inodes[ROOT_INODE - 1]
  {
  }

  lemma DirectoryReadsBack(img: seq<byte>, inode: Inode)
    requires inode.IsDir() && |inode.block| == 60
    ensures E.ReadsBack(img, inode, inode, Directory)
  {
    hide ParseExtents, ExtentsRead;
  }

  lemma SameIs(a: Inode, b: Inode)
    ensures SameAttributes(a, b) <==> b.mode == a.mode && b.uid == a.uid && b.gid == a.gid && b.links == a.links
  {
  }

  lemma HoldsIs(img: seq<byte>, n: nat, inode: Inode, s: Sight)
    ensures HoldsAs(img, n, inode, s) <==>
      && n == s.number && inode.mode == s.mode && inode.uid == s.uid && inode.gid == s.gid
      && E.ReadsBack(img, inode, inode, s.content)
  {
    hide E.ReadsBack;
  }

  // ---- Following all but the last component ----

  /** Every name lies in a directory. */
  ghost predicate Rooted(v: Volume) {
    && [] in v.names && v.names[[]].content == Directory
    && forall q :: q in v.names && q != [] ==> InDirectory(v, q)
  }

  ghost predicate InDirectory(v: Volume, q: Path) {
    ParentOf(q) in v.names && v.names[ParentOf(q)].content == Directory
  }

  ghost predicate LinkNamed(v: Volume, q: Path) {
    q in v.names && v.names[q].content.Symlink?
  }

  /** A symlink is named before the last component. */
  ghost predicate LinkOnWay(v: Volume, q: Path) {
    exists k :: 0 < k < |q| && LinkNamed(v, q[..k])
  }

  /** The first such symlink. */
  ghost predicate FirstLink(v: Volume, q: Path, k: nat) {
    0 < k < |q| && LinkNamed(v, q[..k]) && forall j :: 0 < j < k ==> !LinkNamed(v, q[..j])
  }

  /** What is documented of stat_no_follow: all symlinks are followed but one under the
      last component. */
  ghost function AllButLast(v: Volume, at: Path, comps: seq<Name>, visited: set<nat>): Result<(Path, set<nat>), ReadError>
    requires |visited| <= MAX_SYMLINK_HOPS
  {
    if comps == [] then Ok((at, visited))
    else
      match NameWalk(v, at, comps[..|comps| - 1], true, visited)
      case Err(e) => Err(e)
      case Ok((to, seen)) => NameStep(v, to, comps[|comps| - 1], false, seen)
  }

  /** Where the symlink that `q` meets after `k` components leads, and the rest of `q`
      from there. */
  ghost function Beyond(v: Volume, q: Path, k: nat): Result<(Path, set<nat>), ReadError>
    requires 0 < k <= |q| && LinkNamed(v, q[..k])
  {
    var s := v.names[q[..k]];
    if s.content.target == [] then Err(InvalidPath)
    else
      match NameWalk(v, if Slashed(s.content.target) then [] else q[..k - 1], Components(s.content.target), true, {s.number})
      case Err(e) => Err(e)
      case Ok((to, seen)) => AllButLast(v, to, q[k..], seen)
  }

  ghost function NameThen(v: Volume, r: Result<(Path, set<nat>), ReadError>, b: seq<Name>, follow: bool): Result<(Path, set<nat>), ReadError>
    requires r.Ok? ==> |r.value.1| <= MAX_SYMLINK_HOPS
  {
    match r
    case Err(e) => Err(e)
    case Ok((to, seen)) => NameWalk(v, to, b, follow, seen)
  }

  lemma {:induction false} NameConcat(v: Volume, at: Path, a: seq<Name>, b: seq<Name>, follow: bool, visited: set<nat>)
    requires |visited| <= MAX_SYMLINK_HOPS
    ensures NameWalk(v, at, a + b, follow, visited) == NameThen(v, NameWalk(v, at, a, follow, visited), b, follow)
    decreases |a|
  {
    hide NameWalk, NameStep;
    if a == [] {
      assert a + b == b;
      NameWalkNone(v, at, follow, visited);
    } else {
      assert (a + b)[1..] == a[1..] + b && (a + b)[0] == a[0];
      NameWalkCons(v, at, a, follow, visited);
      NameWalkCons(v, at, a + b, follow, visited);
      var s := NameStep(v, at, a[0], follow, visited);
      if s.Ok? {
        NameConcat(v, s.value.0, a[1..], b, follow, s.value.1);
      }
    }
  }

  lemma NameWalkOne(v: Volume, at: Path, name: Name, follow: bool, visited: set<nat>)
    requires |visited| <= MAX_SYMLINK_HOPS
    ensures NameWalk(v, at, [name], follow, visited) == NameStep(v, at, name, follow, visited)
  {
    NameWalkCons(v, at, [name], follow, visited);
    var s := NameStep(v, at, name, follow, visited);
    if s.Ok? {
      NameWalkNone(v, s.value.0, follow, s.value.1);
    }
    assert [name][1..] == [];
    hide NameWalk, NameStep;
  }

  /** Along a path without dots, without following or without symlinks to follow, the
      walk leads to the name of that path, if there is one. */
  lemma {:induction false} StraightWalk(v: Volume, q: Path, follow: bool)
    requires Rooted(v) && NoDots(q) && (follow ==> forall k :: 0 < k <= |q| ==> !LinkNamed(v, q[..k]))
    ensures q in v.names <==> NameWalk(v, [], q, follow, {}).Ok?
    ensures q in v.names ==> NameWalk(v, [], q, follow, {}) == Ok((q, {}))
    ensures NameWalk(v, [], q, follow, {}) == NameWalk(v, [], q, false, {})
    decreases |q|
  {
    hide *;
    NoneVisited();
    if q == [] {
      NameWalkNone(v, [], follow, {});
      NameWalkNone(v, [], false, {});
      HasRoot(v);
    } else {
      var n := |q| - 1;
      var up, name := q[..n], q[n];
      assert q == up + [name];
      FrontNoDots(q);
      if follow {
        forall k | 0 < k <= |up| ensures !LinkNamed(v, up[..k]) {
          assert up[..k] == q[..k];
        }
        assert q[..|q|] == q;
      }
      StraightWalk(v, up, follow);
      NameConcat(v, [], up, [name], follow, {});
      NameConcat(v, [], up, [name], false, {});
      InRooted(v, q);
      ThenOne(v, NameWalk(v, [], up, follow, {}), name, follow);
      ThenOne(v, NameWalk(v, [], up, false, {}), name, false);
      O.DotsCases(name);
      if up in v.names {
        NameStepIs(v, up, name, follow, {});
        NameStepIs(v, up, name, false, {});
        LinkNamedIs(v, q);
      }
    }
  }

  lemma LinkNamedIs(v: Volume, q: Path)
    ensures LinkNamed(v, q) <==> q in v.names && v.names[q].content.Symlink?
  {
  }

  lemma HasRoot(v: Volume)
    requires Rooted(v)
    ensures [] in v.names
  {
  }

  lemma FrontNoDots(q: Path)
    requires q != [] && NoDots(q)
    ensures NoDots(q[..|q| - 1]) && !O.IsDots(q[|q| - 1])
  {
    hide O.IsDots;
  }

  lemma InRooted(v: Volume, q: Path)
    requires Rooted(v) && q != []
    ensures q in v.names ==> q[..|q| - 1] in v.names && v.names[q[..|q| - 1]].content == Directory
  {
    assert q in v.names ==> InDirectory(v, q);
  }

  lemma ThenOne(v: Volume, r: Result<(Path, set<nat>), ReadError>, name: Name, follow: bool)
    requires r.Ok? ==> |r.value.1| <= MAX_SYMLINK_HOPS
    ensures NameThen(v, r, [name], follow) == if r.Err? then Err(r.error) else NameStep(v, r.value.0, name, follow, r.value.1)
  {
    if r.Ok? {
      NameWalkOne(v, r.value.0, name, follow, r.value.1);
    }
    hide NameWalk, NameStep;
  }

  lemma LastComponent(v: Volume, at: Path, a: seq<Name>, b: seq<Name>, visited: set<nat>)
    requires |visited| <= MAX_SYMLINK_HOPS && b != []
    ensures var w := NameWalk(v, at, a, true, visited);
      AllButLast(v, at, a + b, visited) == if w.Err? then Err(w.error) else AllButLast(v, w.value.0, b, w.value.1)
  {
    var n := |b| - 1;
    assert (a + b)[..|a + b| - 1] == a + b[..n] && (a + b)[|a + b| - 1] == b[n];
    NameConcat(v, at, a, b[..n], true, visited);
    hide NameWalk, NameStep;
  }

  /** Past its first symlink a path goes on where the symlink leads. */
  lemma BeyondIs(v: Volume, q: Path, k: nat)
    requires Rooted(v) && NoDots(q) && FirstLink(v, q, k)
    ensures AllButLast(v, [], q, {}) == Beyond(v, q, k)
  {
    hide NameWalk, NameStep, Rooted, O.IsDots, Components, Slashed;
    NoneVisited();
    var up, name, link, rest := q[..k - 1], q[k - 1], q[..k], q[k..];
    assert q == link + rest && link == up + [name] && rest != [];
    forall j | 0 < j <= |up| ensures !LinkNamed(v, up[..j]) {
      assert up[..j] == q[..j];
    }
    InRooted(v, link);
    assert link[..|link| - 1] == up;
    StraightWalk(v, up, true);
    NameConcat(v, [], up, [name], true, {});
    ThenOne(v, NameWalk(v, [], up, true, {}), name, true);
    O.DotsCases(name);
    NameStepIs(v, up, name, true, {});
    LastComponent(v, [], link, rest, {});
    var s := v.names[link];
    var none: set<nat> := {};
    assert none + {s.number} == {s.number};
  }

  /** Without following, a symlink before the last component is a dead end. */
  lemma DeadEnd(v: Volume, q: Path)
    requires Rooted(v) && NoDots(q) && LinkOnWay(v, q)
    ensures NameWalk(v, [], q, false, {}) == Err(NotADirectory)
  {
    hide NameWalk, NameStep, Rooted, O.IsDots;
    NoneVisited();
    var k :| 0 < k < |q| && LinkNamed(v, q[..k]);
    var link, rest := q[..k], q[k..];
    assert q == link + rest;
    StraightWalk(v, link, false);
    NameConcat(v, [], link, rest, false, {});
    O.DotsCases(rest[0]);
    NameWalkCons(v, link, rest, false, {});
    NameStepIs(v, link, rest[0], false, {});
  }

  /** A path with a symlink before its last component has a first one. */
  lemma HasFirst(v: Volume, q: Path, n: nat) returns (k: nat)
    requires 0 < n < |q| && LinkNamed(v, q[..n])
    ensures k <= n && FirstLink(v, q, k)
    decreases n
  {
    hide LinkNamed;
    if j: nat :| 0 < j < n && LinkNamed(v, q[..j]) {
      k := HasFirst(v, q, j);
    } else {
      k := n;
    }
  }

  /** Exactly when not following differs from following all but the last component:
      when a symlink lies before the last component, and from where the first such one
      leads the rest of the path is found. What is found without following is found
      the documented way too. */
  lemma DiffersIff(v: Volume, q: Path)
    requires Rooted(v) && NoDots(q)
    ensures LinkOnWay(v, q) ==> NameWalk(v, [], q, false, {}) == Err(NotADirectory)
    ensures !LinkOnWay(v, q) ==> AllButLast(v, [], q, {}) == NameWalk(v, [], q, false, {})
    ensures NameWalk(v, [], q, false, {}).Err? && AllButLast(v, [], q, {}).Ok?
        <==> exists k: nat :: FirstLink(v, q, k) && Beyond(v, q, k).Ok?
  {
    hide *;
    NoneVisited();
    if LinkOnWay(v, q) {
      DeadEnd(v, q);
      var n := LinkMet(v, q);
      var k := HasFirst(v, q, n);
      FirstIsOn(v, q, k);
      BeyondIs(v, q, k);
      forall j: nat | FirstLink(v, q, j) ensures j == k {
        OneFirst(v, q, j, k);
      }
    } else {
      forall k: nat | FirstLink(v, q, k) ensures false {
        FirstIsOn(v, q, k);
      }
      NoLinkAlike(v, q);
    }
  }

  lemma LinkMet(v: Volume, q: Path) returns (n: nat)
    requires LinkOnWay(v, q)
    ensures 0 < n < |q| && LinkNamed(v, q[..n])
  {
    n :| 0 < n < |q| && LinkNamed(v, q[..n]);
  }

  lemma FirstIsOn(v: Volume, q: Path, k: nat)
    requires FirstLink(v, q, k)
    ensures LinkOnWay(v, q) && 0 < k <= |q| && LinkNamed(v, q[..k])
  {
    hide LinkNamed;
  }

  lemma OneFirst(v: Volume, q: Path, j: nat, k: nat)
    requires FirstLink(v, q, j) && FirstLink(v, q, k)
    ensures j == k
  {
    hide LinkNamed;
  }

  lemma NoLinkAlike(v: Volume, q: Path)
    requires Rooted(v) && NoDots(q) && !LinkOnWay(v, q)
    ensures AllButLast(v, [], q, {}) == NameWalk(v, [], q, false, {})
  {
    hide NameWalk, NameStep, Rooted, O.IsDots, LinkNamed;
    NoneVisited();
    if q == [] {
      NameWalkNone(v, [], false, {});
    } else {
      var n := |q| - 1;
      var up, name := q[..n], q[n];
      assert q == up + [name];
      FrontNoDots(q);
      forall k | 0 < k <= |up| ensures !LinkNamed(v, up[..k]) {
        assert up[..k] == q[..k];
      }
      StraightWalk(v, up, true);
      NameConcat(v, [], up, [name], false, {});
      ThenOne(v, NameWalk(v, [], up, false, {}), name, false);
    }
  }

  // ---- The same, of an image ----

  lemma ImageRooted(img: seq<byte>, sb: SuperBlock, fs: Fs, contents: seq<Content>, inodes: seq<Inode>)
    requires O.ImageOf(img, sb, fs, contents, inodes) && Numbered(fs)
    ensures Rooted(Seen(fs, contents))
  {
    hide *;
    var v := Seen(fs, contents);
    O.ImageParts(img, sb, fs, contents, inodes);
    Backed(img, sb, fs, contents, inodes, []);
    RootFound(fs);
    RootSight(fs, contents);
    E.ImageCounts(img, sb, fs, contents, inodes);
    forall q: Path | q in v.names && q != [] ensures ParentOf(q) in v.names && v.names[ParentOf(q)].content == Directory {
      Backed(img, sb, fs, contents, inodes, q);
      Backed(img, sb, fs, contents, inodes, ParentOf(q));
      var i := Find(fs.nodes, 0, q).value;
      FoundParent(fs.nodes, q, i);
      HasKids(fs.nodes, i);
      InvKinds(fs, 0);
      ParentIsDirectory(fs, fs.nodes[i].parent.value);
      SubDirIs(fs, fs.nodes[i].parent.value);
      OwnDirIs(fs, fs.nodes[i].parent.value);
    }
    RootedIs(v);
  }

  lemma OwnDirIs(fs: Fs, i: nat)
    requires Numbered(fs) && i < |fs.nodes|
    ensures IsOwnDir(fs, i) <==> fs.nodes[i].link == None && OwnInode(fs, i).IsDir()
  {
    hide Numbered, OwnInode;
  }

  lemma RootedIs(v: Volume)
    requires [] in v.names && v.names[[]].content == Directory
    requires forall q :: q in v.names && q != [] ==> ParentOf(q) in v.names && v.names[ParentOf(q)].content == Directory
    ensures Rooted(v)
  {
  }

  /** Of an image: a path with a symlink before its last component is not found without
      following, and exactly those are missed that lead on from the first symlink. */
  lemma NoFollowStopsAtLinks(img: seq<byte>, sb: SuperBlock, fs: Fs, contents: seq<Content>, inodes: seq<Inode>, q: Path)
    requires O.ImageOf(img, sb, fs, contents, inodes) && Numbered(fs) && Canonical(q)
    ensures Supported(sb)
    ensures var v, r := Seen(fs, contents), Resolve(img, sb, JoinPath(q), false);
      && (LinkOnWay(v, q) ==> r == Err(NotADirectory))
      && (r.Ok? ==> AllButLast(v, [], q, {}) == Ok((q, {})))
      && (r.Err? && AllButLast(v, [], q, {}).Ok? <==> exists k: nat :: FirstLink(v, q, k) && Beyond(v, q, k).Ok?)
  {
    hide *;
    var v := Seen(fs, contents);
    NoneVisited();
    E.CanonicalAt(q);
    ComponentsOfJoin(q);
    ImageRooted(img, sb, fs, contents, inodes);
    DiffersIff(v, q);
    StraightWalk(v, q, false);
    LeadsIs(v, JoinPath(q), false);
    ResolvesByName(img, sb, fs, contents, inodes, JoinPath(q), false);
  }

  /** Where the names are rooted, a path of names leads to its own name, if there is
      one, and nowhere otherwise. */
  lemma StraightLeads(v: Volume, q: Path)
    requires Rooted(v) && Canonical(q)
    ensures Leads(v, JoinPath(q), false).Ok? <==> q in v.names
    ensures q in v.names ==> Leads(v, JoinPath(q), false) == Ok(q)
  {
    hide *;
    NoneVisited();
    E.CanonicalAt(q);
    ComponentsOfJoin(q);
    StraightWalk(v, q, false);
    LeadsIs(v, JoinPath(q), false);
  }
}
