/** What path resolution finds in the image of a file system: the names that are
    there, and no others; and ".." never needs the entry of that name. */
module NameLookup {
  import opened Basics
  import opened OnDisk
  import opened Extents
  import opened Directory
  import opened Trees
  import opened Namespace
  import opened Unlinking
  import opened Contents
  import opened Requests
  import opened Formatting
  import opened Listing
  import opened Committing
  import opened Reading
  import opened Volumes
  import R = Recovery
  import O = Opening
  import opened FileRead
  import opened Resolving

  // ---- ".." in a tree ----

  /** Listing directory `n` leads to known inodes, and only its "." and ".." may
      lead to the root. */
  ghost predicate TreeShapedAt(img: seq<byte>, sb: SuperBlock, numbers: set<nat>, n: nat)
    requires Supported(sb) && n > 0
  {
    ReadInode(img, sb, n).Ok? && ReadInode(img, sb, n).value.IsDir() && DirEntries(img, sb, n).Ok? ==>
      var es := DirEntries(img, sb, n).value;
      forall k :: 0 <= k < |es| ==> es[k].inode in numbers && (!O.IsDots(es[k].name) ==> es[k].inode != ROOT_INODE)
  }

  ghost predicate TreeShaped(img: seq<byte>, sb: SuperBlock, numbers: set<nat>)
    requires Supported(sb)
  {
    ROOT_INODE in numbers && forall n :: n in numbers && n > 0 ==> TreeShapedAt(img, sb, numbers, n)
  }

  /** The directories entered start with the root, and only they do: the place is
      the root exactly when none has been entered. */
  predicate Grounded(p: Place, numbers: set<nat>) {
    && PlaceOk(p) && p.at in numbers
    && (p.at == ROOT_INODE <==> p.parents == [])
    && (forall k :: 0 <= k < |p.parents| ==> p.parents[k] in numbers && (p.parents[k] == ROOT_INODE <==> k == 0))
  }

  /** In a tree ".." goes back one directory, and stays at the root; the entry of
      that name is never consulted. */
  lemma UpInTree(img: seq<byte>, sb: SuperBlock, p: Place, numbers: set<nat>)
    requires Supported(sb) && PlaceOk(p) && Grounded(p, numbers)
    ensures Up(img, sb, p)
         == Ok(if p.parents == [] then p else Place(p.parents[..|p.parents| - 1], p.parents[|p.parents| - 1]))
    ensures Grounded(Up(img, sb, p).value, numbers)
  {
    hide DirEntries;
  }

  lemma EntryKnown(img: seq<byte>, sb: SuperBlock, numbers: set<nat>, at: nat, name: Name)
    requires Supported(sb) && TreeShaped(img, sb, numbers) && at in numbers && 0 < at < 0x1_0000_0000
    requires Enter(img, sb, at, name).Ok? && !O.IsDots(name)
    ensures Enter(img, sb, at, name).value.0 in numbers && Enter(img, sb, at, name).value.0 != ROOT_INODE
  {
    assert TreeShapedAt(img, sb, numbers, at);
    hide ReadInode, DirEntries, Inode.IsDir, O.IsDots;
    var es := DirEntries(img, sb, at).value;
    var k :| 0 <= k < |es| && es[k] == Found(name, FindEntry(es, name).value);
  }

  lemma DescendGrounded(p: Place, numbers: set<nat>, child: nat)
    requires PlaceOk(p) && Grounded(p, numbers) && child in numbers && child != ROOT_INODE && 0 < child < 0x1_0000_0000
    ensures Grounded(Place(p.parents + [p.at], child), numbers)
  {
  }

  lemma StepTree(img: seq<byte>, sb: SuperBlock, p: Place, name: Name, follow: bool, visited: set<nat>, numbers: set<nat>)
    requires Supported(sb) && PlaceOk(p) && |visited| <= MAX_SYMLINK_HOPS && Grounded(p, numbers) && TreeShaped(img, sb, numbers)
    ensures var s := Step(img, sb, p, name, follow, visited); s.Ok? ==> Grounded(s.value.0, numbers)
    decreases MAX_SYMLINK_HOPS - |visited|, 0
  {
    hide *;
    O.DotsCases(name);
    PlaceAt(p);
    Resolving.StepCases(img, sb, p, name, follow, visited);
    UpInTree(img, sb, p, numbers);
    if name != DOT && name != DOTDOT && Enter(img, sb, p.at, name).Ok? {
      var child, inode := Enter(img, sb, p.at, name).value.0, Enter(img, sb, p.at, name).value.1;
      EnterCasesAre(img, sb, p, name, follow, visited, child, inode);
      AtKnown(p, numbers);
      EntryKnown(img, sb, numbers, p.at, name);
      DescendGrounded(p, numbers, child);
      if inode.IsLink() && follow && child !in visited && |visited| < MAX_SYMLINK_HOPS && LinkBytes(img, inode).Ok? && LinkBytes(img, inode).value != [] {
        var target := LinkBytes(img, inode).value;
        LinkStep(img, sb, p, name, visited, child, inode, target);
        RootKnown(img, sb, numbers);
        BaseGrounded(p, target, numbers);
        WalkTree(img, sb, Base(p, target), Components(target), true, visited + {child}, numbers);
      }
    }
  }

  lemma RootKnown(img: seq<byte>, sb: SuperBlock, numbers: set<nat>)
    requires Supported(sb) && TreeShaped(img, sb, numbers)
    ensures ROOT_INODE in numbers
  {
  }

  lemma AtKnown(p: Place, numbers: set<nat>)
    requires Grounded(p, numbers)
    ensures p.at in numbers
  {
  }

  lemma BaseGrounded(p: Place, target: seq<byte>, numbers: set<nat>)
    requires PlaceOk(p) && Grounded(p, numbers)
    ensures ROOT_INODE in numbers ==> Grounded(Base(p, target), numbers)
    ensures Base(p, target) == p || ROOT_INODE in numbers ==> Grounded(Base(p, target), numbers)
  {
  }

  /** Following a symlink resolves its target as a path of its own. */
  lemma LinkStep(img: seq<byte>, sb: SuperBlock, p: Place, name: Name, visited: set<nat>, child: nat, inode: Inode, target: seq<byte>)
    requires Supported(sb) && PlaceOk(p) && |visited| < MAX_SYMLINK_HOPS && child !in visited
    requires name != DOT && name != DOTDOT && Enter(img, sb, p.at, name) == Ok((child, inode)) && inode.IsLink()
    requires |inode.block| == 60 && LinkBytes(img, inode) == Ok(target) && target != []
    ensures PlaceOk(Base(p, target)) && |visited + {child}| == |visited| + 1
    ensures Step(img, sb, p, name, true, visited)
         == Resolving.Walk(img, sb, Base(p, target), Components(target), true, visited + {child})
  {
    BaseOk(p, target);
    OneMoreVisited(visited, child);
    hide Enter, LinkBytes, Components, Supported, PlaceOk, Inode.IsLink, Resolving.Walk, Base;
  }

  /** Wherever a walk through a tree leads, the place is the root exactly when no
      directory has been entered. */
  lemma WalkTree(img: seq<byte>, sb: SuperBlock, p: Place, comps: seq<Name>, follow: bool, visited: set<nat>, numbers: set<nat>)
    requires Supported(sb) && PlaceOk(p) && |visited| <= MAX_SYMLINK_HOPS && Grounded(p, numbers) && TreeShaped(img, sb, numbers)
    ensures var w := Walk(img, sb, p, comps, follow, visited); w.Ok? ==> Grounded(w.value.0, numbers)
    decreases MAX_SYMLINK_HOPS - |visited|, |comps| + 1
  {
    hide Step, Grounded, TreeShaped, Supported, PlaceOk;
    if comps != [] {
      StepTree(img, sb, p, comps[0], follow, visited, numbers);
      var s := Step(img, sb, p, comps[0], follow, visited);
      if s.Ok? {
        WalkTree(img, sb, s.value.0, comps[1..], follow, s.value.1, numbers);
      }
    }
  }

  // ---- The names of a file system ----

  predicate NoDots(q: Path) {
    forall k :: 0 <= k < |q| ==> !O.IsDots(q[k])
  }

  ghost function KnownNumbers(fs: Fs): set<nat>
    requires Numbered(fs)
  {
    set i | 0 <= i < |fs.nodes| && Attached(fs.nodes, i) :: Target(fs.nodes[i])
  }

  /** An attached name and its inode in the image. */
  lemma NodeInode(img: seq<byte>, sb: SuperBlock, fs: Fs, contents: seq<Content>, inodes: seq<Inode>, i: nat)
    requires O.ImageOf(img, sb, fs, contents, inodes)
    requires WellFormed(fs.nodes) && Numbered(fs) && i < |fs.nodes| && Attached(fs.nodes, i)
    ensures var n := Target(fs.nodes[i]);
      && 0 < n <= |inodes| && n < 0x1_0000_0000 && Supported(sb) && ReadInode(img, sb, n) == Ok(inodes[n - 1])
      && (inodes[n - 1].IsDir() <==> IsOwnDir(fs, i)) && (n == ROOT_INODE <==> i == 0)
      && inodes[n - 1].IsLink() == TargetInode(fs, i).IsLink()
  {
    hide *;
    O.ImageParts(img, sb, fs, contents, inodes);
    Bounded(fs);
    R.RootNumber();
    if i == 0 {
      RootTarget(fs);
    } else {
      TargetIsHandedOut(fs, i);
      O.DirIff(fs, i);
    }
    O.ImageInode(img, sb, fs, contents, inodes, Target(fs.nodes[i]));
    SameModes(img, sb, fs, contents, inodes, i);
  }

  lemma Bounded(fs: Fs)
    requires Numbered(fs) && Listable(fs)
    ensures |fs.inodes| < 0x1_0000_0000
  {
  }

  lemma RootTarget(fs: Fs)
    requires Inv(fs, 0) && Numbered(fs)
    ensures |fs.nodes| > 0 && Target(fs.nodes[0]) == ROOT_INODE <= |fs.inodes| && fs.inodes[ROOT_INODE - 1].IsDir() && IsOwnDir(fs, 0)
  {
    Shaped(fs);
    hide Counts, Ownership, Inode.IsDir, KindOk, NumberedNode, NumberedInode, WellFormed, UniqueNames;
  }

  lemma SameModes(img: seq<byte>, sb: SuperBlock, fs: Fs, contents: seq<Content>, inodes: seq<Inode>, i: nat)
    requires O.ImageOf(img, sb, fs, contents, inodes) && Numbered(fs) && i < |fs.nodes| && 0 < Target(fs.nodes[i]) <= |inodes|
    ensures inodes[Target(fs.nodes[i]) - 1].IsLink() == TargetInode(fs, i).IsLink()
  {
    hide Inv, Numbered, Plain, Listable, DirReadsAt, HeldReads, InodeReadsAt, Target;
    assert SameAttributes(fs.inodes[Target(fs.nodes[i]) - 1], inodes[Target(fs.nodes[i]) - 1]);
  }

  /** Scanning the listing of a directory finds what scanning its children does. */
  lemma NameListed(fs: Fs, i: nat, es: seq<Found>, name: Name)
    requires Numbered(fs) && Listable(fs) && i < |fs.nodes| && R.ListedAs(fs, i, es) && !O.IsDots(name)
    ensures WellFormed(fs.nodes)
    ensures FindEntry(es, name).Some? <==> Find(fs.nodes, i, [name]).Some?
    ensures FindEntry(es, name).Some? ==> FindEntry(es, name).value == Target(fs.nodes[Find(fs.nodes, i, [name]).value])
  {
    hide *;
    Shaped(fs);
    O.DotsCases(name);
    FindOne(fs.nodes, i, name);
    FirstIsKid(fs.nodes, fs.nodes[i].children, name);
    var f := FindEntry(es, name);
    if f.Some? {
      var k :| 0 <= k < |es| && es[k] == Found(name, f.value);
      var c := R.EntryIsChild(fs, i, es, k);
      UniqueKids(fs.nodes, i);
      FirstUnique(fs.nodes, i, c);
    } else if FirstNamed(fs.nodes, fs.nodes[i].children, name).Some? {
      var c := FirstNamed(fs.nodes, fs.nodes[i].children, name).value;
      R.ChildListed(fs, i, es, c);
      var j := O.NamedBy(es, |es|, fs.nodes[c].name);
      assert false;
    }
  }

  lemma UniqueKids(nodes: Nodes, i: nat)
    requires WellFormed(nodes) && UniqueNames(nodes) && i < |nodes|
    ensures KidsUnique(nodes, i)
  {
  }

  /** Nothing is found below a name that is no directory. */
  lemma NothingBelow(fs: Fs, i: nat, name: Name)
    requires Inv(fs, 0) && Numbered(fs) && WellFormed(fs.nodes) && Plain(fs) && i < |fs.nodes| && !IsOwnDir(fs, i)
    ensures Find(fs.nodes, i, [name]) == None
  {
    FindOne(fs.nodes, i, name);
    hide Numbered, Counts, Ownership, WellFormed, Attached, Inode.IsDir, Find;
    assert KindOk(fs, i);
  }

  /** One component leads from an attached name to the name below it, or nowhere. */
  lemma EnterName(img: seq<byte>, sb: SuperBlock, fs: Fs, contents: seq<Content>, inodes: seq<Inode>, i: nat, name: Name)
    requires O.ImageOf(img, sb, fs, contents, inodes)
    requires WellFormed(fs.nodes) && Numbered(fs) && i < |fs.nodes| && Attached(fs.nodes, i) && !O.IsDots(name)
    ensures Supported(sb) && 0 < Target(fs.nodes[i]) < 0x1_0000_0000
    ensures var e, f := Enter(img, sb, Target(fs.nodes[i]), name), Find(fs.nodes, i, [name]);
      && (f.None? ==> e == Err(if IsOwnDir(fs, i) then PathNotFound else NotADirectory))
      && (f.Some? ==> e.Ok? && e.value.0 == Target(fs.nodes[f.value]) && Attached(fs.nodes, f.value)
                      && e.value.1.IsLink() == TargetInode(fs, f.value).IsLink())
  {
    hide *;
    var n := Target(fs.nodes[i]);
    NodeInode(img, sb, fs, contents, inodes, i);
    O.ImageParts(img, sb, fs, contents, inodes);
    EnterIs(img, sb, n, name);
    if IsOwnDir(fs, i) {
      OwnNumber(fs, i);
      O.ImageDir(img, sb, fs, contents, inodes, i);
      var es := DirEntries(img, sb, n).value;
      NameListed(fs, i, es, name);
      var f := Find(fs.nodes, i, [name]);
      if f.Some? {
        BelowAttached(fs.nodes, i, name);
        NodeInode(img, sb, fs, contents, inodes, f.value);
      }
      EntriesLead(img, sb, DirEntries(img, sb, n), name);
    } else {
      NothingBelow(fs, i, name);
    }
  }

  lemma OwnNumber(fs: Fs, i: nat)
    requires Numbered(fs) && IsOwnDir(fs, i)
    ensures fs.nodes[i].inode == Target(fs.nodes[i])
  {
    hide Numbered, OwnInode;
  }

  lemma BelowAttached(nodes: Nodes, i: nat, name: Name)
    requires WellFormed(nodes) && i < |nodes| && Attached(nodes, i) && Find(nodes, i, [name]).Some?
    ensures Attached(nodes, Find(nodes, i, [name]).value)
  {
    FindOne(nodes, i, name);
    FirstIsKid(nodes, nodes[i].children, name);
    assert KidsOk(nodes, i);
    hide Find, FirstNamed;
  }

  lemma EntriesLead(img: seq<byte>, sb: SuperBlock, entries: Result<seq<Found>, ReadError>, name: Name)
    requires Supported(sb)
    ensures entries.Ok? && FindEntry(entries.value, name).None? ==> EnterEntries(img, sb, entries, name) == Err(PathNotFound)
    ensures entries.Ok? && FindEntry(entries.value, name).Some? && FindEntry(entries.value, name).value > 0
            && ReadInode(img, sb, FindEntry(entries.value, name).value).Ok? ==>
      EnterEntries(img, sb, entries, name)
      == Ok((FindEntry(entries.value, name).value, ReadInode(img, sb, FindEntry(entries.value, name).value).value))
  {
    hide FindEntry, ReadInode;
  }

  lemma NoneVisited()
    ensures var none: set<nat> := {}; |none| <= MAX_SYMLINK_HOPS
  {
  }

  lemma RootFound(fs: Fs)
    requires Inv(fs, 0) && Numbered(fs) && WellFormed(fs.nodes)
    ensures Find(fs.nodes, 0, []) == Some(0) && Attached(fs.nodes, 0) && Target(fs.nodes[0]) == ROOT_INODE == START.at
  {
    RootTarget(fs);
  }

  // ---- Paths as text ----

  /** "/a/b". */
  function JoinPath(q: Path): seq<byte> {
    if q == [] then [] else ['/' as int] + q[0] + JoinPath(q[1..])
  }

  lemma {:induction false} SplitName(name: Name, rest: seq<byte>, part: Name)
    requires '/' as int !in name
    ensures Split(name + rest, part) == Split(rest, part + name)
    decreases |name|
  {
    if name == [] {
      assert name + rest == rest && part + name == part;
    } else {
      assert (name + rest)[0] == name[0] && (name + rest)[1..] == name[1..] + rest;
      SplitName(name[1..], rest, part + [name[0]]);
      assert part + [name[0]] + name[1..] == part + name;
    }
  }

  lemma {:induction false} SplitJoin(q: Path, part: Name)
    requires forall k :: 0 <= k < |q| ==> q[k] != [] && '/' as int !in q[k]
    ensures Split(JoinPath(q), part) == (if part == [] then [] else [part]) + q
  {
    if q != [] {
      var rest := q[0] + JoinPath(q[1..]);
      assert JoinPath(q) == ['/' as int] + rest && (['/' as int] + rest)[1..] == rest;
      SplitName(q[0], JoinPath(q[1..]), []);
      assert [] + q[0] == q[0];
      SplitJoin(q[1..], q[0]);
      assert [q[0]] + q[1..] == q;
    }
  }

  /** normalize_path takes a path apart into the names it was put together from. */
  lemma ComponentsOfJoin(q: Path)
    requires forall k :: 0 <= k < |q| ==> ValidName(q[k])
    ensures Components(JoinPath(q)) == q && NoDots(q)
  {
    SplitJoin(q, []);
    assert [] + q == q;
  }

  // ---- The image of a file system is tree-shaped ----

  lemma ShapedNode(img: seq<byte>, sb: SuperBlock, fs: Fs, contents: seq<Content>, inodes: seq<Inode>, i: nat)
    requires O.ImageOf(img, sb, fs, contents, inodes)
    requires WellFormed(fs.nodes) && Numbered(fs) && i < |fs.nodes| && Attached(fs.nodes, i)
    ensures Supported(sb) && Target(fs.nodes[i]) > 0 && TreeShapedAt(img, sb, KnownNumbers(fs), Target(fs.nodes[i]))
  {
    hide *;
    var n, numbers := Target(fs.nodes[i]), KnownNumbers(fs);
    NodeInode(img, sb, fs, contents, inodes, i);
    O.ImageParts(img, sb, fs, contents, inodes);
    if IsOwnDir(fs, i) {
      OwnNumber(fs, i);
      O.ImageDir(img, sb, fs, contents, inodes, i);
      var es := DirEntries(img, sb, n).value;
      forall k | 0 <= k < |es| ensures es[k].inode in numbers && (!O.IsDots(es[k].name) ==> es[k].inode != ROOT_INODE) {
        EntryNumberKnown(fs, i, es, k);
      }
    }
    TreeShapedAtIs(img, sb, numbers, n);
  }

  lemma TreeShapedAtIs(img: seq<byte>, sb: SuperBlock, numbers: set<nat>, n: nat)
    requires Supported(sb) && n > 0 && ReadInode(img, sb, n).Ok?
    requires ReadInode(img, sb, n).value.IsDir() && DirEntries(img, sb, n).Ok? ==>
      var es := DirEntries(img, sb, n).value;
      forall k :: 0 <= k < |es| ==> es[k].inode in numbers && (!O.IsDots(es[k].name) ==> es[k].inode != ROOT_INODE)
    ensures TreeShapedAt(img, sb, numbers, n)
  {
    hide ReadInode, DirEntries, Inode.IsDir;
  }

  lemma EntryNumberKnown(fs: Fs, i: nat, es: seq<Found>, k: nat)
    requires Numbered(fs) && Listable(fs) && WellFormed(fs.nodes) && i < |fs.nodes| && Attached(fs.nodes, i) && IsOwnDir(fs, i)
    requires Inv(fs, 0) && R.ListedAs(fs, i, es) && k < |es|
    ensures es[k].inode in KnownNumbers(fs) && (!O.IsDots(es[k].name) ==> es[k].inode != ROOT_INODE)
  {
    hide *;
    O.DotsCases(es[k].name);
    var m := R.SourceOf(fs, i, es, k);
    R.SeenIs(DirList(fs, i)[m]);
    R.ListParts(fs, i, m);
    if m < 2 {
      DotNumbers(fs, i, m);
    } else {
      var c := SortedKids(fs, i)[m - 2];
      ValidNoDots(fs.nodes[c].name);
      O.ChildAttached(fs, i, c);
      TargetIsHandedOut(fs, c);
      R.RootNumber();
      KnownIs(fs, c);
    }
  }

  lemma ValidNoDots(name: Name)
    requires ValidName(name)
    ensures !O.IsDots(name)
  {
  }

  lemma KnownIs(fs: Fs, c: nat)
    requires Numbered(fs) && WellFormed(fs.nodes) && c < |fs.nodes| && Attached(fs.nodes, c)
    ensures Target(fs.nodes[c]) in KnownNumbers(fs)
  {
    hide Numbered, Attached, Target, WellFormed;
  }

  /** "." and ".." of an attached directory are attached directories. */
  lemma DotNumbers(fs: Fs, i: nat, m: nat)
    requires Numbered(fs) && Inv(fs, 0) && WellFormed(fs.nodes) && i < |fs.nodes| && Attached(fs.nodes, i) && IsOwnDir(fs, i)
    requires m < 2 && m < |DirList(fs, i)|
    ensures DirList(fs, i)[m].inode in KnownNumbers(fs)
    ensures DirList(fs, i)[m].name == DOT || DirList(fs, i)[m].name == DOTDOT
  {
    hide *;
    OwnNumber(fs, i);
    KnownIs(fs, i);
    DotsAt(fs, i, m);
    if m == 1 {
      ParentKnown(fs, i);
    }
  }

  lemma DotsAt(fs: Fs, i: nat, m: nat)
    requires Numbered(fs) && i < |fs.nodes| && m < 2 && m < |DirList(fs, i)|
    ensures DirList(fs, i)[m].name == (if m == 0 then DOT else DOTDOT)
    ensures i > 0 ==> fs.nodes[i].parent.Some? && fs.nodes[i].parent.value < |fs.nodes|
    ensures DirList(fs, i)[m].inode
         == fs.nodes[if m == 0 || i == 0 then i else fs.nodes[i].parent.value].inode
  {
    hide NumberedNode, NumberedInode, OwnInode, ChildEntries, SortedKids, UniqueNames;
  }

  lemma ParentKnown(fs: Fs, i: nat)
    requires Numbered(fs) && Inv(fs, 0) && WellFormed(fs.nodes) && i < |fs.nodes| && Attached(fs.nodes, i)
    ensures i > 0 ==> fs.nodes[i].parent.Some? && fs.nodes[i].parent.value < |fs.nodes|
                      && fs.nodes[fs.nodes[i].parent.value].inode in KnownNumbers(fs)
    ensures i == 0 ==> fs.nodes[0].inode in KnownNumbers(fs)
  {
    hide *;
    RootTarget(fs);
    OwnNumber(fs, 0);
    AttachedRoot(fs.nodes);
    KnownIs(fs, 0);
    if i > 0 {
      var p := UpAttached(fs, i);
      KnownIs(fs, p);
      R.RootNumber();
      ParentNumberIs(fs, p);
    }
  }

  lemma AttachedRoot(nodes: Nodes)
    requires WellFormed(nodes) && |nodes| > 0
    ensures Attached(nodes, 0)
  {
  }

  lemma UpAttached(fs: Fs, i: nat) returns (p: nat)
    requires Numbered(fs) && WellFormed(fs.nodes) && 0 < i < |fs.nodes| && Attached(fs.nodes, i)
    ensures fs.nodes[i].parent == Some(p) && p < i && Attached(fs.nodes, p)
  {
    hide Numbered;
    p := fs.nodes[i].parent.value;
  }

  lemma ParentNumberIs(fs: Fs, p: nat)
    requires Numbered(fs) && Inv(fs, 0) && p < |fs.nodes| && ROOT_INODE in KnownNumbers(fs)
    requires Target(fs.nodes[p]) in KnownNumbers(fs)
    ensures fs.nodes[p].inode in KnownNumbers(fs)
  {
    hide KnownNumbers, Kinds, Counts, Ownership, NumberedInode;
    if p > 0 {
      assert NumberedNode(fs, p);
    }
  }

  /** On the image of a file system ".." is settled by the directories entered. */
  lemma VolumeTreeShaped(img: seq<byte>, sb: SuperBlock, fs: Fs, contents: seq<Content>, inodes: seq<Inode>)
    requires O.ImageOf(img, sb, fs, contents, inodes) && Numbered(fs)
    ensures Supported(sb) && TreeShaped(img, sb, KnownNumbers(fs)) && Grounded(START, KnownNumbers(fs))
  {
    hide *;
    O.ImageParts(img, sb, fs, contents, inodes);
    RootTarget(fs);
    AttachedRoot(fs.nodes);
    KnownIs(fs, 0);
    var numbers := KnownNumbers(fs);
    forall n: nat | n in numbers && n > 0 ensures TreeShapedAt(img, sb, numbers, n) {
      var i := KnownBy(fs, n);
      ShapedNode(img, sb, fs, contents, inodes, i);
    }
    TreeShapedIs(img, sb, numbers);
    StartOk();
    StartGrounded(numbers);
  }

  lemma KnownBy(fs: Fs, n: nat) returns (i: nat)
    requires Numbered(fs) && WellFormed(fs.nodes) && n in KnownNumbers(fs)
    ensures i < |fs.nodes| && Attached(fs.nodes, i) && Target(fs.nodes[i]) == n
  {
    hide Numbered, Attached, Target, WellFormed;
    i :| 0 <= i < |fs.nodes| && Attached(fs.nodes, i) && Target(fs.nodes[i]) == n;
  }

  lemma TreeShapedIs(img: seq<byte>, sb: SuperBlock, numbers: set<nat>)
    requires Supported(sb) && ROOT_INODE in numbers && forall n: nat :: n in numbers && n > 0 ==> TreeShapedAt(img, sb, numbers, n)
    ensures TreeShaped(img, sb, numbers)
  {
    hide TreeShapedAt;
  }

  lemma StartGrounded(numbers: set<nat>)
    requires ROOT_INODE in numbers
    ensures Grounded(START, numbers)
  {
  }

  /** Every walk over the image of a file system: ".." never falls back on the
      entry of that name, because the place is the root exactly when no directory
      has been entered. */
  lemma WalksAreGrounded(img: seq<byte>, sb: SuperBlock, fs: Fs, contents: seq<Content>, inodes: seq<Inode>, q: seq<Name>, follow: bool)
    requires O.ImageOf(img, sb, fs, contents, inodes) && Numbered(fs)
    ensures Supported(sb) && PlaceOk(START)
    ensures var w := Resolving.Walk(img, sb, START, q, follow, {});
      w.Ok? ==> w.value.0.at in KnownNumbers(fs) && (w.value.0.at == ROOT_INODE <==> w.value.0.parents == [])
  {
    hide *;
    VolumeTreeShaped(img, sb, fs, contents, inodes);
    StartOk();
    WalkTree(img, sb, START, q, follow, {}, KnownNumbers(fs));
    var w := Resolving.Walk(img, sb, START, q, follow, {});
    if w.Ok? {
      GroundedIs(w.value.0, KnownNumbers(fs));
    }
  }

  lemma GroundedIs(p: Place, numbers: set<nat>)
    requires Grounded(p, numbers)
    ensures p.at in numbers && (p.at == ROOT_INODE <==> p.parents == [])
  {
  }
}
