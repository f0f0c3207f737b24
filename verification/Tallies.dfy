/** Link counts said by names: a file has as many links as names, a directory two and
    one more for every subdirectory. */
module Tallies {
  import opened Basics
  import opened OnDisk
  import opened Extents
  import opened Trees
  import opened Namespace
  import opened Unlinking
  import opened Contents
  import opened Requests
  import opened Views
  import opened Formatting
  import opened Verdicts

  ghost predicate SubdirOf(v: Volume, q: Path, d: Path) {
    d in v.names && d != [] && ParentOf(d) == q && !v.names[d].hard && v.names[d].content == Directory
  }

  /** `dirs` are the subdirectories of `q`. */
  ghost predicate Subdirs(v: Volume, q: Path, dirs: set<Path>) {
    forall d :: d in dirs <==> SubdirOf(v, q, d)
  }

  ghost predicate NameOf(v: Volume, n: nat, q: Path) {
    q in v.names && q != [] && v.names[q].number == n
  }

  /** `qs` are the names of inode `n`. */
  ghost predicate AllNames(v: Volume, n: nat, qs: set<Path>) {
    forall q :: q in qs <==> NameOf(v, n, q)
  }

  /** `links` is what the names make the link count of `q`. That of a directory is only
      right as long as no hard link has been removed or built upon (`clean`). */
  ghost predicate Counted(v: Volume, q: Path, links: nat, clean: bool)
    requires q in v.names
  {
    if v.names[q].content == Directory
    then clean ==> exists dirs: set<Path> :: Subdirs(v, q, dirs) && links == 2 + |dirs|
    else exists qs: set<Path> :: AllNames(v, v.names[q].number, qs) && links == |qs|
  }

  /** The paths of some nodes. */
  function Paths(nodes: Nodes, s: set<nat>): set<Path>
    requires WellFormed(nodes) && forall i :: i in s ==> i < |nodes|
  {
    set i | i in s :: PathOf(nodes, i)
  }

  /** Attached nodes have as many paths. */
  lemma {:induction false} PathsCount(nodes: Nodes, s: set<nat>)
    requires WellFormed(nodes) && UniqueNames(nodes) && forall i :: i in s ==> i < |nodes| && Attached(nodes, i)
    ensures |Paths(nodes, s)| == |s|
    decreases |s|
  {
    hide WellFormed, UniqueNames, Attached, PathOf;
    if s != {} {
      var i :| i in s;
      var rest := s - {i};
      PathsCount(nodes, rest);
      forall j | j in rest ensures PathOf(nodes, j) != PathOf(nodes, i) {
        LookupOfPath(nodes, i);
        LookupOfPath(nodes, j);
      }
      assert Paths(nodes, s) == Paths(nodes, rest) + {PathOf(nodes, i)};
    }
  }

  lemma FileTally(fs: Fs, contents: seq<Content>, q: Path, i: nat)
    requires Inv(fs, 0) && Numbered(fs) && WellFormed(fs.nodes) && |fs.nodes| > 0 && Find(fs.nodes, 0, q) == Some(i)
    requires i < |fs.nodes| && i > 0 && !TargetInode(fs, i).IsDir()
    ensures var v, n := Seen(fs, contents), Target(fs.nodes[i]);
      exists qs: set<Path> :: AllNames(v, n, qs) && TargetInode(fs, i).links == |qs|
  {
    hide *;
    var v, n := Seen(fs, contents), Target(fs.nodes[i]);
    Shaped(fs);
    NamedInRange(fs, i);
    HandedOut(fs, i);
    InvCounts(fs, n);
    var s := Names(fs.nodes, n);
    NamesAre(fs.nodes, n);
    PathsCount(fs.nodes, s);
    var qs := Paths(fs.nodes, s);
    forall p ensures p in qs <==> NameOf(v, n, p) {
      NameAt(fs, contents, p);
      NameOfIs(v, n, p);
      InPaths(fs.nodes, s, p);
      var f := Find(fs.nodes, 0, p);
      if f.Some? {
        PathOfLookup(fs.nodes, p);
        SightNumber(fs, contents, f.value);
        RootOnly(fs.nodes, p, f.value);
        RootNumberIs(fs, n);
      }
      forall j | j in s ensures Find(fs.nodes, 0, PathOf(fs.nodes, j)) == Some(j) && PathOf(fs.nodes, j) != [] {
        LookupOfPath(fs.nodes, j);
        RootOnly(fs.nodes, PathOf(fs.nodes, j), j);
      }
    }
    AllNamesIs(v, n, qs);
  }

  lemma HandedOut(fs: Fs, i: nat)
    requires Numbered(fs) && 0 < i < |fs.nodes|
    ensures RESERVED < Target(fs.nodes[i]) <= |fs.inodes|
  {
    assert NumberedNode(fs, i);
    hide NumberedInode, WellFormed, UniqueNames;
  }

  lemma InvCounts(fs: Fs, n: nat)
    requires Inv(fs, 0) && Numbered(fs) && WellFormed(fs.nodes) && RESERVED < n <= |fs.inodes| && !fs.inodes[n - 1].IsDir()
    ensures fs.inodes[n - 1].links == |Names(fs.nodes, n)|
  {
    assert CountOk(fs, 0, n);
    hide Names, Numbered, Kinds, Ownership;
  }

  lemma NamesAre(nodes: Nodes, n: nat)
    requires WellFormed(nodes)
    ensures forall i :: i in Names(nodes, n) <==> 0 < i < |nodes| && Attached(nodes, i) && Target(nodes[i]) == n
  {
    hide WellFormed, Attached, Target;
  }

  lemma NameOfIs(v: Volume, n: nat, q: Path)
    ensures NameOf(v, n, q) <==> q in v.names && q != [] && v.names[q].number == n
  {
  }

  lemma AllNamesIs(v: Volume, n: nat, qs: set<Path>)
    requires forall q :: q in qs <==> NameOf(v, n, q)
    ensures AllNames(v, n, qs)
  {
    hide NameOf;
  }

  lemma InPaths(nodes: Nodes, s: set<nat>, p: Path)
    requires WellFormed(nodes) && forall i :: i in s ==> i < |nodes|
    ensures p in Paths(nodes, s) <==> exists i :: i in s && PathOf(nodes, i) == p
  {
    hide WellFormed, PathOf;
  }

  lemma SightNumber(fs: Fs, contents: seq<Content>, i: nat)
    requires Numbered(fs) && i < |fs.nodes|
    ensures SightOf(fs, contents, i).number == Target(fs.nodes[i])
  {
    hide Numbered, TargetInode;
  }

  lemma RootNumberIs(fs: Fs, n: nat)
    requires Numbered(fs) && RESERVED < n
    ensures |fs.nodes| > 0 && Target(fs.nodes[0]) != n
  {
    RootNode(fs);
    hide Numbered;
  }

  lemma DirectoryTally(fs: Fs, contents: seq<Content>, img: seq<byte>, limit: nat, first: nat, q: Path, i: nat)
    requires Inv(fs, 0) && OnDiskOk(fs, contents, img, limit, first) && Numbered(fs) && WellFormed(fs.nodes) && |fs.nodes| > 0
    requires Find(fs.nodes, 0, q) == Some(i) && i < |fs.nodes| && IsSubDir(fs, i) && Tidy(fs)
    ensures var v := Seen(fs, contents); exists dirs: set<Path> :: Subdirs(v, q, dirs) && OwnInode(fs, i).links == 2 + |dirs|
  {
    hide *;
    var v := Seen(fs, contents);
    Shaped(fs);
    PathOfLookup(fs.nodes, q);
    TidyAt(fs, i);
    SubDirsIs(fs, i);
    var s := SubDirs(fs, i);
    forall c | c in s ensures Attached(fs.nodes, c) && c > 0 && PathOf(fs.nodes, c) != [] && ParentOf(PathOf(fs.nodes, c)) == q
                              && Find(fs.nodes, 0, PathOf(fs.nodes, c)) == Some(c) {
      KidPath(fs.nodes, i, c);
      LookupOfPath(fs.nodes, c);
    }
    PathsCount(fs.nodes, s);
    var dirs := Paths(fs.nodes, s);
    forall d ensures d in dirs <==> SubdirOf(v, q, d) {
      FileSeen(fs, contents, img, limit, first, d);
      SubdirOfIs(v, q, d);
      InPaths(fs.nodes, s, d);
      var f := Find(fs.nodes, 0, d);
      if f.Some? {
        SubDirIs(fs, f.value);
        if d != [] && ParentOf(d) == q {
          FoundParent(fs.nodes, d, f.value);
          UpFrom(fs.nodes, i, f.value);
          PathOfLookup(fs.nodes, d);
        }
      }
    }
    SubdirsIs(v, q, dirs);
  }

  lemma TidyAt(fs: Fs, i: nat)
    requires Numbered(fs) && Tidy(fs) && i < |fs.nodes| && Attached(fs.nodes, i) && IsSubDir(fs, i)
    ensures OwnInode(fs, i).links == 2 + |SubDirs(fs, i)|
  {
    assert DirCountOk(fs, i);
    hide Numbered, Plain, SubDirs, OwnInode, Attached, IsSubDir;
  }

  lemma KidPath(nodes: Nodes, i: nat, c: nat)
    requires WellFormed(nodes) && i < |nodes| && c in nodes[i].children && Attached(nodes, i)
    ensures c < |nodes| && c > 0 && Attached(nodes, c) && PathOf(nodes, c) != [] && ParentOf(PathOf(nodes, c)) == PathOf(nodes, i)
  {
    assert KidsOk(nodes, i);
  }

  lemma UpFrom(nodes: Nodes, i: nat, c: nat)
    requires WellFormed(nodes) && 0 < c < |nodes| && nodes[c].parent == Some(i) && Attached(nodes, c)
    ensures i < |nodes| && c in nodes[i].children
  {
  }

  lemma SubdirOfIs(v: Volume, q: Path, d: Path)
    ensures SubdirOf(v, q, d) <==> d in v.names && d != [] && ParentOf(d) == q && !v.names[d].hard && v.names[d].content == Directory
  {
  }

  lemma SubdirsIs(v: Volume, q: Path, dirs: set<Path>)
    requires forall d :: d in dirs <==> SubdirOf(v, q, d)
    ensures Subdirs(v, q, dirs)
  {
    hide SubdirOf;
  }

  /** Link counts are what the names say: those of files always, those of directories
      where no hard link was removed or built upon. */
  lemma CountsSeen(fs: Fs, contents: seq<Content>, img: seq<byte>, limit: nat, first: nat, q: Path)
    requires Inv(fs, 0) && OnDiskOk(fs, contents, img, limit, first) && Numbered(fs)
    requires q in Seen(fs, contents).names
    ensures WellFormed(fs.nodes) && Find(fs.nodes, 0, q).Some? && Find(fs.nodes, 0, q).value < |fs.nodes|
    ensures Counted(Seen(fs, contents), q, TargetInode(fs, Find(fs.nodes, 0, q).value).links, Tidy(fs))
  {
    hide *;
    var v := Seen(fs, contents);
    InvParts(fs, 0);
    FileSeen(fs, contents, img, limit, first, q);
    NameAt(fs, contents, q);
    var i := Find(fs.nodes, 0, q).value;
    SightNumber(fs, contents, i);
    CountedIs(v, q, TargetInode(fs, i).links, Tidy(fs));
    SubDirIs(fs, i);
    RootOnly(fs.nodes, q, i);
    if v.names[q].content == Directory {
      NoHardDirectory(fs, contents, img, limit, first, q, i);
      OwnTargetInode(fs, i);
      if Tidy(fs) {
        DirectoryTally(fs, contents, img, limit, first, q, i);
      }
    } else {
      NotTheRoot(fs, contents, q, i);
      TargetNoDir(fs, contents, img, limit, first, i);
      FileTally(fs, contents, q, i);
    }
  }

  lemma CountedIs(v: Volume, q: Path, links: nat, clean: bool)
    requires q in v.names
    ensures Counted(v, q, links, clean) <==>
      if v.names[q].content == Directory
      then clean ==> exists dirs: set<Path> :: Subdirs(v, q, dirs) && links == 2 + |dirs|
      else exists qs: set<Path> :: AllNames(v, v.names[q].number, qs) && links == |qs|
  {
    hide Subdirs, AllNames;
  }

  lemma OwnTargetInode(fs: Fs, i: nat)
    requires Numbered(fs) && i < |fs.nodes| && fs.nodes[i].link == None
    ensures TargetInode(fs, i) == OwnInode(fs, i)
  {
  }

  /** What a hard link names is no directory, and what the contents say is what the
      inode says. */
  lemma TargetNoDir(fs: Fs, contents: seq<Content>, img: seq<byte>, limit: nat, first: nat, i: nat)
    requires Inv(fs, 0) && OnDiskOk(fs, contents, img, limit, first) && Numbered(fs) && 0 < i < |fs.nodes|
    requires SightOf(fs, contents, i).content != Directory && WellFormed(fs.nodes) && Attached(fs.nodes, i)
    ensures !TargetInode(fs, i).IsDir()
  {
    hide *;
    HandedOut(fs, i);
    InvKinds(fs, 0);
    NamedInode(fs, 0, i);
    NamedInRange(fs, i);
    HeldType(fs, contents, img, limit, first, Target(fs.nodes[i]));
    SightContent(fs, contents, i);
    OnDiskCount(fs, contents, img, limit, first);
  }

  lemma HeldType(fs: Fs, contents: seq<Content>, img: seq<byte>, limit: nat, first: nat, n: nat)
    requires Numbered(fs) && OnDiskOk(fs, contents, img, limit, first) && RESERVED < n <= |fs.inodes| && fs.inodes[n - 1].links > 0
    ensures |contents| == |fs.origin| && |fs.inodes| == RESERVED + |fs.origin|
    ensures fs.inodes[n - 1].IsDir() <==> contents[n - 11] == Directory
  {
    Shaped(fs);
    assert StoredOk(fs, contents, img, limit, n);
    OneKind(fs.inodes[n - 1]);
    hide Numbered, DataStored, Inode.Fits, IsDirMode;
  }

  lemma SightContent(fs: Fs, contents: seq<Content>, i: nat)
    requires Numbered(fs) && i < |fs.nodes| && RESERVED < Target(fs.nodes[i]) <= RESERVED + |contents|
    ensures SightOf(fs, contents, i).content == contents[Target(fs.nodes[i]) - 11]
  {
    hide Numbered, TargetInode, Target;
  }

  lemma NotTheRoot(fs: Fs, contents: seq<Content>, q: Path, i: nat)
    requires Numbered(fs) && WellFormed(fs.nodes) && Find(fs.nodes, 0, q) == Some(i) && i < |fs.nodes|
    requires SightOf(fs, contents, i).content != Directory
    ensures i > 0 && Attached(fs.nodes, i)
  {
    RootNode(fs);
    PathOfLookup(fs.nodes, q);
    hide Numbered, WellFormed, Attached;
  }

  lemma NoHardDirectory(fs: Fs, contents: seq<Content>, img: seq<byte>, limit: nat, first: nat, q: Path, i: nat)
    requires Inv(fs, 0) && OnDiskOk(fs, contents, img, limit, first) && Numbered(fs) && WellFormed(fs.nodes)
    requires Find(fs.nodes, 0, q) == Some(i) && i < |fs.nodes| && SightOf(fs, contents, i).content == Directory
    ensures fs.nodes[i].link == None && IsSubDir(fs, i)
  {
    hide *;
    RootNode(fs);
    PathOfLookup(fs.nodes, q);
    InvKinds(fs, 0);
    NamedInode(fs, 0, i);
    NamedInRange(fs, i);
    TypeSeen(fs, contents, img, limit, first, i);
    SubDirIs(fs, i);
    if fs.nodes[i].link.Some? {
      HandedOut(fs, i);
      OnDiskCount(fs, contents, img, limit, first);
      HeldType(fs, contents, img, limit, first, Target(fs.nodes[i]));
      SightContent(fs, contents, i);
      LinkNoDir(fs, i);
      assert false;
    }
  }

  lemma LinkNoDir(fs: Fs, i: nat)
    requires Numbered(fs) && Kinds(fs) && i < |fs.nodes| && fs.nodes[i].link.Some? && Attached(fs.nodes, i)
    ensures !TargetInode(fs, i).IsDir()
  {
    assert KindOk(fs, i);
    hide Numbered, Attached, TargetInode;
  }

  // ---- Hard links out of the way ----

  /** No hard link stands at `path` or below it. */
  ghost predicate NoHardUnder(v: Volume, path: Path) {
    forall q :: q in v.names && path <= q ==> !v.names[q].hard
  }

  lemma NothingHard(fs: Fs, contents: seq<Content>, path: Path)
    requires Numbered(fs) && NoHardUnder(Seen(fs, contents), path)
    ensures WellFormed(fs.nodes) && NothingLinkedAt(fs, path)
    ensures Find(fs.nodes, 0, path).Some? ==> NoLinksUnder(fs, Find(fs.nodes, 0, path).value)
  {
    Shaped(fs);
    hide *;
    RootNode(fs);
    var f := Find(fs.nodes, 0, path);
    if f.Some? {
      var u := f.value;
      FoundHere(fs.nodes, path, u);
      forall i | 0 <= i < |fs.nodes| ensures LinkFree(fs, u, i) {
        LinkFreeIs(fs, u, i);
        if Attached(fs.nodes, i) && Under(fs.nodes, u, i) {
          LookupOfPath(fs.nodes, i);
          UnderPath(fs.nodes, path, u, i);
          NameAt(fs, contents, PathOf(fs.nodes, i));
          NoHardAt(Seen(fs, contents), path, PathOf(fs.nodes, i));
        }
      }
      AllLinkFree(fs, u);
    }
    NothingLinkedIs(fs, path);
  }

  lemma LinkFreeIs(fs: Fs, v: nat, i: nat)
    requires WellFormed(fs.nodes) && i < |fs.nodes|
    ensures LinkFree(fs, v, i) <==> (Attached(fs.nodes, i) && Under(fs.nodes, v, i) ==> fs.nodes[i].link == None)
  {
    hide WellFormed, Attached, Under;
  }

  lemma AllLinkFree(fs: Fs, v: nat)
    requires WellFormed(fs.nodes) && forall i :: 0 <= i < |fs.nodes| ==> LinkFree(fs, v, i)
    ensures NoLinksUnder(fs, v)
  {
    hide WellFormed, LinkFree;
  }

  lemma NothingLinkedIs(fs: Fs, path: Path)
    requires WellFormed(fs.nodes) && |fs.nodes| > 0
    requires Find(fs.nodes, 0, path).Some? ==> NoLinksUnder(fs, Find(fs.nodes, 0, path).value)
    ensures NothingLinkedAt(fs, path)
  {
    hide WellFormed, NoLinksUnder, Find;
  }

  lemma NoHardAt(v: Volume, path: Path, q: Path)
    requires NoHardUnder(v, path) && q in v.names && path <= q
    ensures !v.names[q].hard
  {
  }

  /** Below a node the paths begin with its path. */
  lemma {:induction false} UnderPath(nodes: Nodes, path: Path, u: nat, i: nat)
    requires WellFormed(nodes) && Find(nodes, 0, path) == Some(u) && u < |nodes| && i < |nodes| && Attached(nodes, i) && Under(nodes, u, i)
    ensures path <= PathOf(nodes, i)
    decreases i
  {
    PathOfLookup(nodes, path);
    if i != u {
      UnderPath(nodes, path, u, nodes[i].parent.value);
    }
  }
}
