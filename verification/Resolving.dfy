/** Path resolution (reader_io.rs resolve_path). The code keeps one list of
    components and splices symlink targets into it; the specification resolves a
    target as a path of its own and goes on from there. Compare POSIX.1-2017,
    XBD section 4.13 (Pathname Resolution): this code also refuses to follow any
    symlink twice. */
module Resolving {
  import opened Basics
  import opened Image
  import opened OnDisk
  import opened Extents
  import opened Directory
  import opened Namespace
  import opened Contents
  import opened Reading
  import opened ImageReader
  import opened FileRead

  const MAX_SYMLINK_HOPS: nat := 40

  /** normalize_path: the parts between slashes, empty ones dropped. `part` is
      what has been read of the current one. */
  function Split(path: seq<byte>, part: Name): seq<Name>
    decreases |path|
  {
    var done := if part == [] then [] else [part];
    if path == [] then done
    else if path[0] == '/' as int then done + Split(path[1..], [])
    else Split(path[1..], part + [path[0]])
  }

  function Components(path: seq<byte>): seq<Name> { Split(path, []) }

  /** Where the walk stands: the directories entered on the way, and the inode. */
  datatype Place = Place(parents: seq<nat>, at: nat)

  predicate PlaceOk(p: Place) {
    0 < p.at < 0x1_0000_0000 && forall k :: 0 <= k < |p.parents| ==> 0 < p.parents[k] < 0x1_0000_0000
  }

  const START := Place([], 2)

  /** The first entry of that name. */
  function FindEntry(es: seq<Found>, name: Name): (r: Option<nat>)
    ensures r.Some? ==> exists k :: 0 <= k < |es| && es[k] == Found(name, r.value)
    ensures r.None? ==> forall k :: 0 <= k < |es| ==> es[k].name != name
  {
    if es == [] then None
    else if es[0].name == name then Some(es[0].inode)
    else FindEntry(es[1..], name)
  }

  /** "..": the directory entered before; at a place reached without entering any,
      what the directory itself calls its parent. */
  function Up(img: seq<byte>, sb: SuperBlock, p: Place): (r: Result<Place, ReadError>)
    requires Supported(sb) && PlaceOk(p)
    ensures r.Ok? ==> PlaceOk(r.value)
  {
    if p.at == ROOT_INODE then Ok(p)
    else if p.parents != [] then Ok(Place(p.parents[..|p.parents| - 1], p.parents[|p.parents| - 1]))
    else
      match DirEntries(img, sb, p.at)
      case Err(e) => Err(e)
      case Ok(es) =>
        EntriesNumbered(img, sb, p.at);
        match FindEntry(es, DOTDOT)
        case None => Ok(p)
        case Some(n) => Ok(p.(at := n))
  }

  /** The entry `name` of the directory at `at`, with its inode. */
  function Enter(img: seq<byte>, sb: SuperBlock, at: nat, name: Name): (r: Result<(nat, Inode), ReadError>)
    requires Supported(sb) && 0 < at < 0x1_0000_0000
    ensures r.Ok? ==> 0 < r.value.0 < 0x1_0000_0000 && ReadInode(img, sb, r.value.0) == Ok(r.value.1) && |r.value.1.block| == 60
  {
    match ReadInode(img, sb, at)
    case Err(e) => Err(e)
    case Ok(inode) =>
      if !inode.IsDir() then Err(NotADirectory)
      else
        match DirEntries(img, sb, at)
        case Err(e) => Err(e)
        case Ok(es) =>
          EntriesNumbered(img, sb, at);
          match FindEntry(es, name)
          case None => Err(PathNotFound)
          case Some(child) =>
            match ReadInode(img, sb, child)
            case Err(e) => Err(e)
            case Ok(i) => ReadInodeBlock(img, sb, child); Ok((child, i))
  }

  /** Where a target starts: at the root if it begins with a slash. */
  function Base(p: Place, target: seq<byte>): Place {
    if target != [] && target[0] == '/' as int then START else p
  }

  lemma BaseOk(p: Place, target: seq<byte>)
    requires PlaceOk(p)
    ensures PlaceOk(Base(p, target))
  {
  }

  lemma OneMoreVisited(visited: set<nat>, n: nat)
    requires n !in visited
    ensures |visited + {n}| == |visited| + 1
  {
  }

  /** The walk over one component. A symlink is resolved as a path of its own, from
      the root or from where it lies; `visited` are the symlinks followed. */
  function Step(img: seq<byte>, sb: SuperBlock, p: Place, name: Name, follow: bool, visited: set<nat>)
    : (r: Result<(Place, set<nat>), ReadError>)
    requires Supported(sb) && PlaceOk(p) && |visited| <= MAX_SYMLINK_HOPS
    ensures r.Ok? ==> PlaceOk(r.value.0) && visited <= r.value.1 && |visited| <= |r.value.1| <= MAX_SYMLINK_HOPS
    decreases MAX_SYMLINK_HOPS - |visited|, 0
  {
    if name == DOT then Ok((p, visited))
    else if name == DOTDOT then
      match Up(img, sb, p)
      case Err(e) => Err(e)
      case Ok(q) => Ok((q, visited))
    else
      match Enter(img, sb, p.at, name)
      case Err(e) => Err(e)
      case Ok((child, inode)) =>
        if inode.IsLink() && follow then
          if child in visited then Err(SymlinkLoop)
          else if |visited| + 1 > MAX_SYMLINK_HOPS then Err(SymlinkLoop)
          else
            match LinkBytes(img, inode)
            case Err(e) => Err(e)
            case Ok(target) =>
              if target == [] then Err(InvalidPath)
              else
                BaseOk(p, target);
                OneMoreVisited(visited, child);
                var r := Walk(img, sb, Base(p, target), Components(target), follow, visited + {child});
                if r.Ok? then (SeenGrows(visited, child, r.value.1); r) else r
        else Ok((Place(p.parents + [p.at], child), visited))
  }

  /** The recursive walk. It ends on every image: following a symlink uses up a
      hop, anything else a component. */
  function Walk(img: seq<byte>, sb: SuperBlock, p: Place, comps: seq<Name>, follow: bool, visited: set<nat>)
    : (r: Result<(Place, set<nat>), ReadError>)
    requires Supported(sb) && PlaceOk(p) && |visited| <= MAX_SYMLINK_HOPS
    ensures r.Ok? ==> PlaceOk(r.value.0) && visited <= r.value.1 && |visited| <= |r.value.1| <= MAX_SYMLINK_HOPS
    decreases MAX_SYMLINK_HOPS - |visited|, |comps|
  {
    if comps == [] then Ok((p, visited))
    else
      match Step(img, sb, p, comps[0], follow, visited)
      case Err(e) => Err(e)
      case Ok((q, seen)) => Walk(img, sb, q, comps[1..], follow, seen)
  }

  lemma SeenGrows(visited: set<nat>, child: nat, seen: set<nat>)
    requires child !in visited && visited + {child} <= seen
    ensures |visited| < |seen| && visited <= seen
  {
    OneMoreVisited(visited, child);
    SubsetSize(visited + {child}, seen);
  }

  function InodeAtPlace(img: seq<byte>, sb: SuperBlock, p: Place): Result<(nat, Inode), ReadError>
    requires Supported(sb)
  {
    if p.at == 0 then Err(CouldNotReadInode)
    else match ReadInode(img, sb, p.at) case Err(e) => Err(e) case Ok(inode) => Ok((p.at, inode))
  }

  /** What resolving a path yields. */
  function Resolve(img: seq<byte>, sb: SuperBlock, path: seq<byte>, follow: bool): Result<(nat, Inode), ReadError>
    requires Supported(sb)
  {
    match Walk(img, sb, START, Components(path), follow, {})
    case Err(e) => Err(e)
    case Ok((p, seen)) => InodeAtPlace(img, sb, p)
  }

  /** Walk `b` from wherever walking `a` led. */
  function Then(img: seq<byte>, sb: SuperBlock, r: Result<(Place, set<nat>), ReadError>, b: seq<Name>, follow: bool)
    : Result<(Place, set<nat>), ReadError>
    requires Supported(sb) && (r.Ok? ==> PlaceOk(r.value.0) && |r.value.1| <= MAX_SYMLINK_HOPS)
  {
    match r
    case Err(e) => Err(e)
    case Ok((p, seen)) => Walk(img, sb, p, b, follow, seen)
  }

  // ---- One component ----

  lemma WalkNone(img: seq<byte>, sb: SuperBlock, p: Place, follow: bool, visited: set<nat>)
    requires Supported(sb) && PlaceOk(p) && |visited| <= MAX_SYMLINK_HOPS
    ensures Walk(img, sb, p, [], follow, visited) == Ok((p, visited))
  {
  }

  lemma WalkCons(img: seq<byte>, sb: SuperBlock, p: Place, name: Name, rest: seq<Name>, follow: bool, visited: set<nat>)
    requires Supported(sb) && PlaceOk(p) && |visited| <= MAX_SYMLINK_HOPS
    ensures Walk(img, sb, p, [name] + rest, follow, visited)
         == Then(img, sb, Step(img, sb, p, name, follow, visited), rest, follow)
  {
    hide Step, PlaceOk, Supported;
    assert ([name] + rest)[1..] == rest && ([name] + rest)[0] == name && [name][1..] == [] && [name][0] == name;
  }

  /** Walking two lists one after the other. */
  lemma {:induction false} WalkConcat(img: seq<byte>, sb: SuperBlock, p: Place, a: seq<Name>, b: seq<Name>, follow: bool, visited: set<nat>)
    requires Supported(sb) && PlaceOk(p) && |visited| <= MAX_SYMLINK_HOPS
    ensures Walk(img, sb, p, a + b, follow, visited) == Then(img, sb, Walk(img, sb, p, a, follow, visited), b, follow)
    decreases |a|
  {
    if a == [] {
      assert a + b == b;
      WalkNone(img, sb, p, follow, visited);
    } else {
      hide Walk, Step;
      var name, rest := a[0], a[1..];
      assert a == [name] + rest && a + b == [name] + (rest + b);
      WalkCons(img, sb, p, name, rest, follow, visited);
      WalkCons(img, sb, p, name, rest + b, follow, visited);
      var s := Step(img, sb, p, name, follow, visited);
      if s.Ok? {
        WalkConcat(img, sb, s.value.0, rest, b, follow, s.value.1);
      }
    }
  }

  /** Splicing a target into the list of components walks it first. */
  lemma Spliced(img: seq<byte>, sb: SuperBlock, p: Place, name: Name, rest: seq<Name>, visited: set<nat>, child: nat, inode: Inode, target: seq<byte>)
    requires Supported(sb) && PlaceOk(p) && |visited| < MAX_SYMLINK_HOPS && child !in visited
    requires name != DOT && name != DOTDOT && Enter(img, sb, p.at, name) == Ok((child, inode)) && inode.IsLink()
    requires |inode.block| == 60 && LinkBytes(img, inode) == Ok(target) && target != []
    ensures PlaceOk(Base(p, target)) && |visited + {child}| == |visited| + 1
    ensures Walk(img, sb, p, [name] + rest, true, visited)
         == Walk(img, sb, Base(p, target), Components(target) + rest, true, visited + {child})
  {
    BaseOk(p, target);
    OneMoreVisited(visited, child);
    WalkCons(img, sb, p, name, rest, true, visited);
    WalkConcat(img, sb, Base(p, target), Components(target), rest, true, visited + {child});
    hide Enter, LinkBytes, Components, Supported, PlaceOk, Inode.IsLink, Walk, Base;
  }

  /** What one component does when it is no symlink to follow. */
  lemma StepCases(img: seq<byte>, sb: SuperBlock, p: Place, name: Name, follow: bool, visited: set<nat>)
    requires Supported(sb) && PlaceOk(p) && |visited| <= MAX_SYMLINK_HOPS
    ensures name == DOT ==> Step(img, sb, p, name, follow, visited) == Ok((p, visited))
    ensures name == DOTDOT ==>
      Step(img, sb, p, name, follow, visited) == match Up(img, sb, p) case Err(e) => Err(e) case Ok(q) => Ok((q, visited))
    ensures name != DOT && name != DOTDOT && Enter(img, sb, p.at, name).Err? ==>
      Step(img, sb, p, name, follow, visited) == Err(Enter(img, sb, p.at, name).error)
    ensures name != DOT && name != DOTDOT && Enter(img, sb, p.at, name).Ok? ==>
      EnterCases(img, sb, p, name, follow, visited, Enter(img, sb, p.at, name).value.0, Enter(img, sb, p.at, name).value.1)
  {
    DotsAreTwo();
    hide Up, Enter, LinkBytes, Components, Supported, PlaceOk, Inode.IsLink, Walk, Base;
  }

  lemma DotsAreTwo()
    ensures DOT != DOTDOT
  {
    assert |DOT| == 1 && |DOTDOT| == 2;
  }

  predicate EnterCases(img: seq<byte>, sb: SuperBlock, p: Place, name: Name, follow: bool, visited: set<nat>, child: nat, inode: Inode)
    requires Supported(sb) && PlaceOk(p) && |visited| <= MAX_SYMLINK_HOPS
  {
    var step := Step(img, sb, p, name, follow, visited);
    && |inode.block| == 60 && 0 < child < 0x1_0000_0000
    && (!(inode.IsLink() && follow) ==> step == Ok((Place(p.parents + [p.at], child), visited)))
    && (inode.IsLink() && follow ==>
          && (child in visited || |visited| == MAX_SYMLINK_HOPS ==> step == Err(SymlinkLoop))
          && (child !in visited && |visited| < MAX_SYMLINK_HOPS ==>
                && (LinkBytes(img, inode).Err? ==> step == Err(LinkBytes(img, inode).error))
                && (LinkBytes(img, inode) == Ok([]) ==> step == Err(InvalidPath))))
  }

  lemma EnterCasesAre(img: seq<byte>, sb: SuperBlock, p: Place, name: Name, follow: bool, visited: set<nat>, child: nat, inode: Inode)
    requires Supported(sb) && PlaceOk(p) && |visited| <= MAX_SYMLINK_HOPS && EnterCases(img, sb, p, name, follow, visited, child, inode)
    ensures var step := Step(img, sb, p, name, follow, visited);
      && |inode.block| == 60 && 0 < child < 0x1_0000_0000
      && (!(inode.IsLink() && follow) ==> step == Ok((Place(p.parents + [p.at], child), visited)))
      && (inode.IsLink() && follow && (child in visited || |visited| == MAX_SYMLINK_HOPS) ==> step == Err(SymlinkLoop))
      && (inode.IsLink() && follow && child !in visited && |visited| < MAX_SYMLINK_HOPS ==>
            && (LinkBytes(img, inode).Err? ==> step == Err(LinkBytes(img, inode).error))
            && (LinkBytes(img, inode) == Ok([]) ==> step == Err(InvalidPath)))
  {
    hide Step, LinkBytes;
  }

  lemma Descended(p: Place, child: nat)
    requires PlaceOk(p) && 0 < child < 0x1_0000_0000
    ensures PlaceOk(Place(p.parents + [p.at], child))
  {
  }

  lemma EnterIs(img: seq<byte>, sb: SuperBlock, at: nat, name: Name)
    requires Supported(sb) && 0 < at < 0x1_0000_0000
    ensures var i := ReadInode(img, sb, at);
      && (i.Err? ==> Enter(img, sb, at, name) == Err(i.error))
      && (i.Ok? && !i.value.IsDir() ==> Enter(img, sb, at, name) == Err(NotADirectory))
      && (i.Ok? && i.value.IsDir() ==> Enter(img, sb, at, name) == EnterEntries(img, sb, DirEntries(img, sb, at), name))
  {
    if DirEntries(img, sb, at).Ok? {
      EntriesNumbered(img, sb, at);
    }
    hide ReadInode, DirEntries, FindEntry, Inode.IsDir;
  }

  function EnterEntries(img: seq<byte>, sb: SuperBlock, entries: Result<seq<Found>, ReadError>, name: Name): Result<(nat, Inode), ReadError>
    requires Supported(sb)
  {
    match entries
    case Err(e) => Err(e)
    case Ok(es) =>
      match FindEntry(es, name)
      case None => Err(PathNotFound)
      case Some(child) =>
        if child == 0 then Err(PathNotFound)
        else match ReadInode(img, sb, child) case Err(e) => Err(e) case Ok(i) => Ok((child, i))
  }

  lemma FoundNumbered(es: seq<Found>, name: Name)
    requires AllNumbered(es)
    ensures FindEntry(es, name).Some? ==> 0 < FindEntry(es, name).value < 0x1_0000_0000
  {
  }

  /** A regular component: the current inode must be a directory with that entry. */
  method LookUp(r: Reader, at: nat, name: Name) returns (out: Result<(nat, Inode), ReadError>)
    requires r.Valid() && 0 < at < 0x1_0000_0000
    modifies r`groupDescriptors, r`inodes
    ensures r.Valid() && Supported(r.superblock) && out == Enter(r.file.bytes, r.superblock, at, name)
  {
    hide ReadInode, DirEntries, FindEntry, Inode.IsDir, CachesOk, Enter;
    ReaderIs(r);
    EnterIs(r.file.bytes, r.superblock, at, name);
    var current := r.GetInode(at);
    if current.Err? {
      return Err(current.error);
    }
    if !current.value.IsDir() {
      return Err(NotADirectory);
    }
    var entries := r.GetDirEntries(at);
    if entries.Err? {
      return Err(entries.error);
    }
    EntriesNumbered(r.file.bytes, r.superblock, at);
    FoundNumbered(entries.value, name);
    var child := FindEntry(entries.value, name);
    if child.None? {
      return Err(PathNotFound);
    }
    var inode := r.GetInode(child.value);
    if inode.Err? {
      return Err(inode.error);
    }
    out := Ok((child.value, inode.value));
  }

  /** "..", fallback included. */
  method GoUp(r: Reader, p: Place) returns (out: Result<Place, ReadError>)
    requires r.Valid() && PlaceOk(p)
    modifies r`groupDescriptors, r`inodes
    ensures r.Valid() && Supported(r.superblock) && out == Up(r.file.bytes, r.superblock, p)
  {
    hide ReadInode, DirEntries, FindEntry, CachesOk;
    ReaderIs(r);
    if p.at == ROOT_INODE {
      return Ok(p);
    }
    if p.parents != [] {
      return Ok(Place(p.parents[..|p.parents| - 1], p.parents[|p.parents| - 1]));
    }
    var entries := r.GetDirEntries(p.at);
    if entries.Err? {
      return Err(entries.error);
    }
    match FindEntry(entries.value, DOTDOT) {
      case None => out := Ok(p);
      case Some(n) => out := Ok(p.(at := n));
    }
  }

  lemma StartOk()
    ensures PlaceOk(START) && START == Place([], 2)
  {
  }

  lemma ResolveIs(img: seq<byte>, sb: SuperBlock, path: seq<byte>, follow: bool)
    requires Supported(sb)
    ensures PlaceOk(START)
    ensures Walk(img, sb, START, Components(path), follow, {}).Err? ==>
      Resolve(img, sb, path, follow) == Err(Walk(img, sb, START, Components(path), follow, {}).error)
    ensures Walk(img, sb, START, Components(path), follow, {}).Ok? ==>
      Resolve(img, sb, path, follow) == InodeAtPlace(img, sb, Walk(img, sb, START, Components(path), follow, {}).value.0)
  {
    hide Walk, Components, ReadInode;
  }

  /** One round of resolve_path. */
  method ResolveNext(r: Reader, components: seq<Name>, idx: nat, p: Place, follow: bool, visited: set<nat>)
    returns (error: Option<ReadError>, components': seq<Name>, idx': nat, p': Place, visited': set<nat>)
    requires r.Valid() && PlaceOk(p) && idx < |components| && |visited| <= MAX_SYMLINK_HOPS
    modifies r`groupDescriptors, r`inodes
    ensures r.Valid() && Supported(r.superblock)
    ensures error.Some? ==> Walk(r.file.bytes, r.superblock, p, components[idx..], follow, visited) == Err(error.value)
    ensures error.None? ==>
      && PlaceOk(p') && idx' <= |components'| && |visited'| <= MAX_SYMLINK_HOPS
      && Walk(r.file.bytes, r.superblock, p, components[idx..], follow, visited)
         == Walk(r.file.bytes, r.superblock, p', components'[idx'..], follow, visited')
      && (|visited'| > |visited| || (visited' == visited && components' == components && idx' == idx + 1))
  {
    hide *;
    ReaderIs(r);
    ghost var img, sb := r.file.bytes, r.superblock;
    var name := components[idx];
    ghost var rest := components[idx + 1..];
    assert components[idx..] == [name] + rest;
    WalkCons(img, sb, p, name, rest, follow, visited);
    StepCases(img, sb, p, name, follow, visited);
    error, components', idx', p', visited' := None, components, idx + 1, p, visited;
    if name == DOT {
      ThenIs(img, sb, p, rest, follow, visited);
      return;
    }
    if name == DOTDOT {
      var up := GoUp(r, p);
      if up.Err? {
        error := Some(up.error);
        ThenErr(img, sb, up.error, rest, follow);
        return;
      }
      UpOk(img, sb, p);
      p' := up.value;
      ThenIs(img, sb, p', rest, follow, visited);
      return;
    }
    PlaceAt(p);
    var entered := LookUp(r, p.at, name);
    if entered.Err? {
      error := Some(entered.error);
      ThenErr(img, sb, entered.error, rest, follow);
      return;
    }
    var child, inode := entered.value.0, entered.value.1;
    EnterCasesAre(img, sb, p, name, follow, visited, child, inode);
    if inode.IsLink() && follow {
      error, components', idx', p', visited' := FollowLink(r, components, idx, p, visited, child, inode, name, rest);
    } else {
      Descended(p, child);
      p' := Place(p.parents + [p.at], child);
      ThenIs(img, sb, p', rest, follow, visited);
    }
  }

  lemma PlaceAt(p: Place)
    requires PlaceOk(p)
    ensures 0 < p.at < 0x1_0000_0000
  {
  }

  lemma UpOk(img: seq<byte>, sb: SuperBlock, p: Place)
    requires Supported(sb) && PlaceOk(p)
    ensures Up(img, sb, p).Ok? ==> PlaceOk(Up(img, sb, p).value)
  {
  }

  lemma ThenIs(img: seq<byte>, sb: SuperBlock, p: Place, rest: seq<Name>, follow: bool, visited: set<nat>)
    requires Supported(sb) && PlaceOk(p) && |visited| <= MAX_SYMLINK_HOPS
    ensures Then(img, sb, Ok((p, visited)), rest, follow) == Walk(img, sb, p, rest, follow, visited)
  {
  }

  lemma ThenErr(img: seq<byte>, sb: SuperBlock, e: ReadError, rest: seq<Name>, follow: bool)
    requires Supported(sb)
    ensures Then(img, sb, Err(e), rest, follow) == Err(e)
  {
  }

  /** A symlink on the way: refuse one already followed and more than 40 of them;
      otherwise splice its target into the components. */
  method FollowLink(r: Reader, components: seq<Name>, idx: nat, p: Place, visited: set<nat>, child: nat, inode: Inode,
                    ghost name: Name, ghost rest: seq<Name>)
    returns (error: Option<ReadError>, components': seq<Name>, idx': nat, p': Place, visited': set<nat>)
    requires r.Valid() && PlaceOk(p) && idx < |components| && |visited| <= MAX_SYMLINK_HOPS
    requires components[idx..] == [name] + rest && rest == components[idx + 1..] && name != DOT && name != DOTDOT
    requires Supported(r.superblock) && 0 < p.at < 0x1_0000_0000
    requires Enter(r.file.bytes, r.superblock, p.at, name) == Ok((child, inode)) && inode.IsLink()
    modifies r`groupDescriptors, r`inodes
    ensures r.Valid()
    ensures error.Some? ==> Walk(r.file.bytes, r.superblock, p, components[idx..], true, visited) == Err(error.value)
    ensures error.None? ==>
      && PlaceOk(p') && idx' <= |components'| && |visited'| <= MAX_SYMLINK_HOPS && |visited'| > |visited|
      && Walk(r.file.bytes, r.superblock, p, components[idx..], true, visited)
         == Walk(r.file.bytes, r.superblock, p', components'[idx'..], true, visited')
  {
    hide *;
    ghost var img, sb := r.file.bytes, r.superblock;
    error, components', idx', p', visited' := None, components, idx, p, visited;
    WalkCons(img, sb, p, name, rest, true, visited);
    StepCases(img, sb, p, name, true, visited);
    EnterCasesAre(img, sb, p, name, true, visited, child, inode);
    EnterOk(img, sb, p.at, name, child, inode);
    if child in visited || |visited| == MAX_SYMLINK_HOPS {
      ThenErr(img, sb, SymlinkLoop, rest, true);
      error := Some(SymlinkLoop);
      return;
    }
    var target := ReadSymlinkTarget(r, inode, child);
    if target.Err? {
      ThenErr(img, sb, target.error, rest, true);
      error := Some(target.error);
      return;
    }
    if target.value == [] {
      ThenErr(img, sb, InvalidPath, rest, true);
      error := Some(InvalidPath);
      return;
    }
    Spliced(img, sb, p, name, rest, visited, child, inode, target.value);
    BaseIs(p, target.value);
    visited' := visited + {child};
    var targetComponents := Components(target.value);
    if target.value[0] == '/' as int {
      p' := START;
      components', idx' := targetComponents + components[idx + 1..], 0;
      assert components'[0..] == targetComponents + rest;
    } else {
      components' := components[..idx] + targetComponents + components[idx + 1..];
      assert components'[idx..] == targetComponents + rest;
    }
  }

  lemma BaseIs(p: Place, target: seq<byte>)
    requires target != []
    ensures Base(p, target) == if target[0] == '/' as int then START else p
  {
  }

  lemma EnterOk(img: seq<byte>, sb: SuperBlock, at: nat, name: Name, child: nat, inode: Inode)
    requires Supported(sb) && 0 < at < 0x1_0000_0000 && Enter(img, sb, at, name) == Ok((child, inode))
    ensures 0 < child < 0x1_0000_0000 && ReadInode(img, sb, child) == Ok(inode) && |inode.block| == 60
  {
  }

  lemma PlaceInode(img: seq<byte>, sb: SuperBlock, p: Place)
    requires Supported(sb) && 0 < p.at
    ensures InodeAtPlace(img, sb, p) == match ReadInode(img, sb, p.at) case Err(e) => Err(e) case Ok(inode) => Ok((p.at, inode))
  {
    hide ReadInode;
  }

  /** resolve_path: the splicing loop ends on every image and yields exactly what
      the recursive walk does, errors included. */
  method ResolvePath(r: Reader, path: seq<byte>, follow: bool) returns (out: Result<(nat, Inode), ReadError>)
    requires r.Valid()
    modifies r`groupDescriptors, r`inodes
    ensures r.Valid() && Supported(r.superblock) && out == Resolve(r.file.bytes, r.superblock, path, follow)
  {
    hide *;
    ReaderIs(r);
    StartOk();
    ghost var img, sb := r.file.bytes, r.superblock;
    ghost var walk := Walk(img, sb, START, Components(path), follow, {});
    ResolveIs(img, sb, path, follow);
    var components, p, visited := Components(path), START, {};
    var idx: nat := 0;
    assert components[0..] == components;
    while idx < |components|
      invariant r.Valid() && PlaceOk(p) && idx <= |components| && |visited| <= MAX_SYMLINK_HOPS
      invariant walk == Walk(img, sb, p, components[idx..], follow, visited)
      decreases MAX_SYMLINK_HOPS - |visited|, |components| - idx
    {
      var error;
      error, components, idx, p, visited := ResolveNext(r, components, idx, p, follow, visited);
      if error.Some? {
        return Err(error.value);
      }
    }
    assert components[idx..] == [];
    WalkNone(img, sb, p, follow, visited);
    PlaceAt(p);
    PlaceInode(img, sb, p);
    var inode := r.GetInode(p.at);
    if inode.Err? {
      return Err(inode.error);
    }
    out := Ok((p.at, inode.value));
  }
}
