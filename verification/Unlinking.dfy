/** Removing a whole subtree: what `unlink` leaves of the tree, which names are
    still found afterwards, and when directory link counts stay right. */
module Unlinking {
  import opened Basics
  import opened OnDisk
  import opened Extents
  import opened Trees
  import opened Namespace

  /** Node `i` is `v` or lies below it, going by parent links, which no call
      ever changes. */
  predicate Under(nodes: Nodes, v: nat, i: nat)
    requires WellFormed(nodes) && i < |nodes|
    decreases i
  {
    i == v || (i > 0 && Under(nodes, v, nodes[i].parent.value))
  }

  lemma {:induction false} UnderIsAfter(nodes: Nodes, v: nat, i: nat)
    requires WellFormed(nodes) && i < |nodes| && Under(nodes, v, i)
    ensures v <= i
    decreases i
  {
    if i != v {
      UnderIsAfter(nodes, v, nodes[i].parent.value);
    }
  }

  /** Only parent links matter. */
  lemma {:induction false} UnderSame(nodes: Nodes, nodes': Nodes, v: nat, i: nat)
    requires WellFormed(nodes) && WellFormed(nodes') && |nodes| == |nodes'| && i < |nodes|
    requires forall k :: 0 <= k < |nodes| ==> nodes[k].parent == nodes'[k].parent
    ensures Under(nodes, v, i) == Under(nodes', v, i)
    decreases i
  {
    if i > 0 {
      UnderSame(nodes, nodes', v, nodes[i].parent.value);
    }
  }

  /** Two trees with the same nodes, except for who lists whom. */
  ghost predicate SameNodes(a: Fs, b: Fs) {
    && |b.nodes| == |a.nodes| && |b.inodes| == |a.inodes| && b.origin == a.origin
    && (forall i :: 0 <= i < |a.nodes| ==> b.nodes[i] == a.nodes[i].(children := b.nodes[i].children))
    && (forall n :: 0 <= n < |a.inodes| ==> InodeStep(a.inodes[n], b.inodes[n]))
    && a.deleted <= b.deleted
  }

  lemma SameNodesTrans(a: Fs, b: Fs, c: Fs)
    requires SameNodes(a, b) && SameNodes(b, c)
    ensures SameNodes(a, c)
  {
    forall n | 0 <= n < |a.inodes| ensures InodeStep(a.inodes[n], c.inodes[n]) {
      assert InodeStep(a.inodes[n], b.inodes[n]) && InodeStep(b.inodes[n], c.inodes[n]);
    }
  }

  /** The child list of node `i` once `v` is gone with everything below it. */
  function KidsWithout(nodes: Nodes, v: nat, i: nat): seq<nat>
    requires WellFormed(nodes) && 0 < v < |nodes| && i < |nodes|
  {
    assert KidsOk(nodes, i);
    if Under(nodes, v, i) then []
    else if i == nodes[v].parent.value then DropFirst(nodes, nodes[i].children, nodes[v].name)
    else nodes[i].children
  }

  /** `v` is gone, with everything below it, and nothing else moved. */
  ghost predicate Unlinked(a: Fs, b: Fs, v: nat)
    requires WellFormed(a.nodes) && 0 < v < |a.nodes|
  {
    SameNodes(a, b) && forall i :: 0 <= i < |a.nodes| ==> b.nodes[i].children == KidsWithout(a.nodes, v, i)
  }

  /** Everything below `v` is gone, `v` itself is still there. */
  ghost predicate Emptied(a: Fs, b: Fs, v: nat)
    requires WellFormed(a.nodes) && v < |a.nodes|
  {
    SameNodes(a, b) && forall i :: 0 <= i < |a.nodes| ==>
      b.nodes[i].children == if Under(a.nodes, v, i) then [] else a.nodes[i].children
  }

  /** Node `i` is or lies below one of the first `k` children of `v`. */
  predicate UnderFirst(nodes: Nodes, v: nat, k: nat, i: nat)
    requires WellFormed(nodes) && v < |nodes| && i < |nodes| && k <= |nodes[v].children|
  {
    exists j :: 0 <= j < k && Under(nodes, nodes[v].children[j], i)
  }

  /** The first `k` children of `v` are gone: the state of unlink's loop. */
  ghost predicate KidsGone(a: Fs, b: Fs, v: nat, k: nat)
    requires WellFormed(a.nodes) && v < |a.nodes| && k <= |a.nodes[v].children|
  {
    SameNodes(a, b) && forall i :: 0 <= i < |a.nodes| ==>
      b.nodes[i].children == if i == v then a.nodes[v].children[k..]
                             else if UnderFirst(a.nodes, v, k, i) then []
                             else a.nodes[i].children
  }

  lemma NoneGone(a: Fs, v: nat)
    requires WellFormed(a.nodes) && v < |a.nodes|
    ensures KidsGone(a, a, v, 0)
  {
  }

  /** The next child to go is the first one left, and the first of its name. */
  lemma NextKid(a: Fs, b: Fs, v: nat, k: nat)
    requires Numbered(a) && Numbered(b) && v < |a.nodes| && k < |a.nodes[v].children| && KidsGone(a, b, v, k)
    ensures var c := a.nodes[v].children[k];
      && v < c < |b.nodes| && b.nodes[c].parent == Some(v) && b.nodes[v].children == a.nodes[v].children[k..]
      && InRange(b.nodes, b.nodes[v].children)
      && FirstNamed(b.nodes, b.nodes[v].children, b.nodes[c].name) == Some(c)
      && DropFirst(b.nodes, b.nodes[v].children, b.nodes[c].name) == a.nodes[v].children[k + 1..]
  {
    assert KidsOk(a.nodes, v) && KidsOk(b.nodes, v);
  }

  lemma KidGone(a: Fs, b: Fs, c: Fs, v: nat, k: nat)
    requires Numbered(a) && Numbered(b) && v < |a.nodes| && k < |a.nodes[v].children| && KidsGone(a, b, v, k)
    requires a.nodes[v].children[k] < |b.nodes| && a.nodes[v].children[k] > 0
    requires Unlinked(b, c, a.nodes[v].children[k])
    ensures KidsGone(a, c, v, k + 1)
  {
    var kid := a.nodes[v].children[k];
    NextKid(a, b, v, k);
    SameNodesTrans(a, b, c);
    forall i | 0 <= i < |a.nodes|
      ensures c.nodes[i].children == if i == v then a.nodes[v].children[k + 1..]
                                     else if UnderFirst(a.nodes, v, k + 1, i) then []
                                     else a.nodes[i].children
    {
      KidGoneAt(a, b, c, v, k, i);
    }
  }

  lemma KidGoneAt(a: Fs, b: Fs, c: Fs, v: nat, k: nat, i: nat)
    requires Numbered(a) && Numbered(b) && v < |a.nodes| && k < |a.nodes[v].children| && KidsGone(a, b, v, k)
    requires a.nodes[v].children[k] < |b.nodes| && a.nodes[v].children[k] > 0
    requires Unlinked(b, c, a.nodes[v].children[k]) && i < |a.nodes|
    ensures c.nodes[i].children == if i == v then a.nodes[v].children[k + 1..]
                                   else if UnderFirst(a.nodes, v, k + 1, i) then []
                                   else a.nodes[i].children
  {
    hide InodeStep, UniqueNames;
    var kid := a.nodes[v].children[k];
    NextKid(a, b, v, k);
    UnderSame(a.nodes, b.nodes, kid, i);
    assert c.nodes[i].children == KidsWithout(b.nodes, kid, i);
    if Under(b.nodes, kid, i) {
      UnderIsAfter(b.nodes, kid, i);
      assert UnderFirst(a.nodes, v, k + 1, i);
    } else {
      assert UnderFirst(a.nodes, v, k + 1, i) == UnderFirst(a.nodes, v, k, i);
    }
  }

  /** What hangs below `v` hangs below one of its children. */
  lemma {:induction false} BelowSomeKid(nodes: Nodes, v: nat, i: nat)
    requires WellFormed(nodes) && v < |nodes| && i < |nodes| && Attached(nodes, i) && Under(nodes, v, i) && i != v
    ensures UnderFirst(nodes, v, |nodes[v].children|, i)
    decreases i
  {
    var p := nodes[i].parent.value;
    if p == v {
      var j :| 0 <= j < |nodes[v].children| && nodes[v].children[j] == i;
    } else {
      BelowSomeKid(nodes, v, p);
      var j :| 0 <= j < |nodes[v].children| && Under(nodes, nodes[v].children[j], p);
      assert Under(nodes, nodes[v].children[j], i);
    }
  }

  lemma {:induction false} UnderTrans(nodes: Nodes, v: nat, c: nat, i: nat)
    requires WellFormed(nodes) && c < |nodes| && i < |nodes| && Under(nodes, v, c) && Under(nodes, c, i)
    ensures Under(nodes, v, i)
    decreases i
  {
    if i != c {
      UnderTrans(nodes, v, c, nodes[i].parent.value);
    }
  }

  /** When the loop is done, nothing is left below `v`. */
  lemma AllKidsGone(a: Fs, b: Fs, v: nat)
    requires Numbered(a) && Kinds(a) && v < |a.nodes| && KidsGone(a, b, v, |a.nodes[v].children|)
    ensures Emptied(a, b, v)
  {
    var kids := a.nodes[v].children;
    forall i | 0 <= i < |a.nodes|
      ensures b.nodes[i].children == if Under(a.nodes, v, i) then [] else a.nodes[i].children
    {
      assert KindOk(a, i);
      assert KidsOk(a.nodes, v);
      if i == v {
        assert kids[|kids|..] == [];
      } else if UnderFirst(a.nodes, v, |kids|, i) {
        var j :| 0 <= j < |kids| && Under(a.nodes, kids[j], i);
        UnderTrans(a.nodes, v, kids[j], i);
      } else if Under(a.nodes, v, i) && Attached(a.nodes, i) {
        BelowSomeKid(a.nodes, v, i);
      }
    }
  }

  /** Emptying `v` and then detaching it is unlinking it. */
  lemma EmptyThenDetach(a: Fs, b: Fs, v: nat, extra: nat)
    requires Numbered(a) && 0 < v < |a.nodes| && Emptied(a, b, v)
    requires Numbered(b) && Kinds(b) && Counts(b, extra) && Removable(b, v)
    ensures Unlinked(a, Detach(b, v), v)
  {
    hide Kinds, Counts, UniqueNames, Attached;
    var c := Detach(b, v);
    DetachSame(b, v, extra);
    SameNodesTrans(a, b, c);
    forall i | 0 <= i < |a.nodes| ensures c.nodes[i].children == KidsWithout(a.nodes, v, i) {
      EmptyThenDetachAt(a, b, v, i);
    }
  }

  lemma DetachSame(b: Fs, v: nat, extra: nat)
    requires Numbered(b) && Kinds(b) && Counts(b, extra) && Removable(b, v)
    ensures SameNodes(b, Detach(b, v))
  {
    DetachShape(b, v);
    forall n | 0 <= n < |b.inodes| ensures InodeStep(b.inodes[n], Detach(b, v).inodes[n]) {
      DetachInodes(b, extra, v, n + 1);
    }
  }

  lemma DetachKids(b: Fs, v: nat, i: nat)
    requires Numbered(b) && 0 < v < |b.nodes| && i < |b.nodes|
    ensures var p := b.nodes[v].parent.value;
      && InRange(b.nodes, b.nodes[p].children)
      && Detach(b, v).nodes[i].children == if i == p then DropFirst(b.nodes, b.nodes[p].children, b.nodes[v].name)
                                           else b.nodes[i].children
  {
    hide Dropped, ParentDropped, NodeRanges;
    assert KidsOk(b.nodes, b.nodes[v].parent.value);
  }

  lemma EmptyThenDetachAt(a: Fs, b: Fs, v: nat, i: nat)
    requires Numbered(a) && 0 < v < |a.nodes| && Emptied(a, b, v) && Numbered(b) && i < |a.nodes|
    ensures Detach(b, v).nodes[i].children == KidsWithout(a.nodes, v, i)
  {
    hide Detach, InodeStep, UniqueNames;
    var p := a.nodes[v].parent.value;
    DetachKids(b, v, i);
    assert KidsOk(a.nodes, p);
    if Under(a.nodes, v, p) {
      UnderIsAfter(a.nodes, v, p);
    }
    assert b.nodes[p].children == a.nodes[p].children;
    DropFirstSameNames(a.nodes, b.nodes, a.nodes[p].children, a.nodes[v].name);
  }

  lemma {:induction false} DropFirstSameNames(nodes: Nodes, nodes': Nodes, kids: seq<nat>, name: Name)
    requires InRange(nodes, kids) && InRange(nodes', kids)
    requires forall k :: 0 <= k < |kids| ==> nodes[kids[k]].name == nodes'[kids[k]].name
    ensures DropFirst(nodes, kids, name) == DropFirst(nodes', kids, name)
  {
    if kids != [] {
      DropFirstSameNames(nodes, nodes', kids[1..], name);
    }
  }

  // ---- What is still found ----

  /** What stays attached after a subtree goes. */
  lemma {:induction false} UnlinkedAttached(a: Fs, b: Fs, v: nat, i: nat)
    requires Numbered(a) && 0 < v < |a.nodes| && Unlinked(a, b, v) && WellFormed(b.nodes) && i < |a.nodes|
    requires Attached(a.nodes, v)
    ensures Attached(b.nodes, i) <==> Attached(a.nodes, i) && !Under(a.nodes, v, i)
    decreases i
  {
    if i > 0 {
      var p, q := a.nodes[i].parent.value, a.nodes[v].parent.value;
      UnlinkedAttached(a, b, v, p);
      assert b.nodes[p].children == KidsWithout(a.nodes, v, p);
      assert KidsOk(a.nodes, p);
      if p == q && !Under(a.nodes, v, p) {
        assert KidsUnique(a.nodes, q);
        FirstUnique(a.nodes, q, v);
        DropFirstMembers(a.nodes, a.nodes[q].children, a.nodes[v].name, v);
      }
    }
  }

  /** What stays attached after a directory is emptied. */
  lemma {:induction false} EmptiedAttached(a: Fs, b: Fs, v: nat, i: nat)
    requires Numbered(a) && v < |a.nodes| && Emptied(a, b, v) && WellFormed(b.nodes) && i < |a.nodes|
    ensures Attached(b.nodes, i) <==> Attached(a.nodes, i) && (i == v || !Under(a.nodes, v, i))
    decreases i
  {
    if i > 0 {
      var p := a.nodes[i].parent.value;
      EmptiedAttached(a, b, v, p);
      if i == v && Under(a.nodes, v, p) {
        UnderIsAfter(a.nodes, v, p);
      }
    }
  }

  lemma {:induction false} SamePath(nodes: Nodes, nodes': Nodes, i: nat)
    requires WellFormed(nodes) && WellFormed(nodes') && |nodes| <= |nodes'| && i < |nodes|
    requires forall k :: 0 <= k < |nodes| ==> nodes[k].parent == nodes'[k].parent && nodes[k].name == nodes'[k].name
    ensures PathOf(nodes', i) == PathOf(nodes, i)
    decreases i
  {
    if i > 0 {
      SamePath(nodes, nodes', nodes[i].parent.value);
    }
  }

  /** With a directory emptied, the names not below it are found as before. */
  lemma FindAfterEmptied(a: Fs, b: Fs, v: nat, path: Path)
    requires Numbered(a) && v < |a.nodes| && Attached(a.nodes, v) && Emptied(a, b, v) && Numbered(b)
    ensures Find(b.nodes, 0, path)
         == match Find(a.nodes, 0, path)
            case None => None
            case Some(i) => if i != v && Under(a.nodes, v, i) then None else Some(i)
  {
    hide Emptied;
    FindSurvives(a, b, path, (i: nat) => i < |a.nodes| && (i == v || !Under(a.nodes, v, i))) by {
      assert SameNodes(a, b) by { EmptiedSame(a, b, v); }
      forall i | 0 <= i < |a.nodes| ensures Attached(b.nodes, i) <==> Attached(a.nodes, i) && (i == v || !Under(a.nodes, v, i)) {
        EmptiedAttached(a, b, v, i);
      }
    }
  }

  lemma EmptiedSame(a: Fs, b: Fs, v: nat)
    requires WellFormed(a.nodes) && v < |a.nodes| && Emptied(a, b, v)
    ensures SameNodes(a, b)
  {
  }

  /** Names that do not lie below the removed one are found as before; it and
      everything below it are not found any more. */
  lemma FindAfterUnlink(a: Fs, b: Fs, v: nat, path: Path)
    requires Numbered(a) && 0 < v < |a.nodes| && Attached(a.nodes, v) && Unlinked(a, b, v) && Numbered(b)
    ensures Find(b.nodes, 0, path)
         == match Find(a.nodes, 0, path)
            case None => None
            case Some(i) => if Under(a.nodes, v, i) then None else Some(i)
  {
    hide Unlinked, KidsWithout;
    FindSurvives(a, b, path, (i: nat) => i < |a.nodes| && !Under(a.nodes, v, i)) by {
      assert SameNodes(a, b) by { UnlinkedSame(a, b, v); }
      forall i | 0 <= i < |a.nodes| ensures Attached(b.nodes, i) <==> Attached(a.nodes, i) && !Under(a.nodes, v, i) {
        UnlinkedAttached(a, b, v, i);
      }
    }
  }

  lemma UnlinkedSame(a: Fs, b: Fs, v: nat)
    requires WellFormed(a.nodes) && 0 < v < |a.nodes| && Unlinked(a, b, v)
    ensures SameNodes(a, b)
  {
  }

  /** If exactly the nodes satisfying `keep` stay attached, a lookup finds what
      it found before when that node is kept, and nothing otherwise. */
  lemma FindSurvives(a: Fs, b: Fs, path: Path, keep: nat -> bool)
    requires Numbered(a) && Numbered(b) && SameNodes(a, b)
    requires forall i :: 0 <= i < |a.nodes| ==> (Attached(b.nodes, i) <==> Attached(a.nodes, i) && keep(i))
    ensures Find(b.nodes, 0, path)
         == match Find(a.nodes, 0, path)
            case None => None
            case Some(i) => if keep(i) then Some(i) else None
  {
    hide InodeStep, NumberedNode, NumberedInode;
    PathOfLookup(a.nodes, path);
    PathOfLookup(b.nodes, path);
    var f, g := Find(a.nodes, 0, path), Find(b.nodes, 0, path);
    if f.Some? && keep(f.value) {
      SamePath(a.nodes, b.nodes, f.value);
      LookupOfPath(b.nodes, f.value);
    }
    if g.Some? {
      SamePath(a.nodes, b.nodes, g.value);
      LookupOfPath(a.nodes, g.value);
    }
  }

  /** Lying below a node is having a longer path that starts with its path. */
  lemma {:induction false} UnderIsPrefix(nodes: Nodes, v: nat, i: nat)
    requires WellFormed(nodes) && UniqueNames(nodes) && v < |nodes| && i < |nodes|
    requires Attached(nodes, v) && Attached(nodes, i)
    ensures Under(nodes, v, i) <==> PathOf(nodes, v) <= PathOf(nodes, i)
    decreases i
  {
    var pv, pi := PathOf(nodes, v), PathOf(nodes, i);
    if i == v {
    } else if i == 0 {
      assert |pv| > 0;
    } else {
      var p := nodes[i].parent.value;
      UnderIsPrefix(nodes, v, p);
      var pp := PathOf(nodes, p);
      assert pi == pp + [nodes[i].name];
      if pv == pi {
        LookupOfPath(nodes, v);
        LookupOfPath(nodes, i);
      } else if pv <= pi {
        assert pv <= pp;
      }
    }
  }

  // ---- Directory link counts ----

  /** Only plain entries have anything below them. `create` below the path of a
      hard link breaks this: see README. */
  predicate Plain(fs: Fs) {
    forall i :: 0 <= i < |fs.nodes| && fs.nodes[i].children != [] ==> fs.nodes[i].link == None
  }

  predicate IsSubDir(fs: Fs, c: nat)
    requires Numbered(fs) && c < |fs.nodes|
  {
    fs.nodes[c].link == None && OwnInode(fs, c).IsDir()
  }

  /** The attached subdirectories of node `i`. */
  function SubDirs(fs: Fs, i: nat): set<nat>
    requires Numbered(fs) && i < |fs.nodes|
  {
    assert KidsOk(fs.nodes, i);
    set c | c in fs.nodes[i].children && IsSubDir(fs, c)
  }

  predicate DirCountOk(fs: Fs, i: nat)
    requires Numbered(fs) && i < |fs.nodes|
  {
    Attached(fs.nodes, i) && IsSubDir(fs, i) ==> OwnInode(fs, i).links == 2 + |SubDirs(fs, i)|
  }

  /** An attached directory has two links and one more for every attached
      subdirectory. */
  predicate DirCounts(fs: Fs)
    requires Numbered(fs)
  {
    forall i :: 0 <= i < |fs.nodes| ==> DirCountOk(fs, i)
  }

  /** The tree nodes of directories have distinct inodes. */
  lemma DirsDistinct(fs: Fs, i: nat, j: nat)
    requires Numbered(fs) && i < |fs.nodes| && j < |fs.nodes| && i != j
    requires fs.nodes[i].link == None && fs.nodes[j].link == None
    ensures fs.nodes[i].inode != fs.nodes[j].inode
  {
    assert i > 0 ==> NumberedNode(fs, i);
    assert j > 0 ==> NumberedNode(fs, j);
  }

  /** How one removal changes the subdirectories of node `i`. */
  lemma DetachSubDirs(fs: Fs, extra: nat, v: nat, i: nat)
    requires Numbered(fs) && Kinds(fs) && Counts(fs, extra) && Removable(fs, v) && i < |fs.nodes|
    requires Numbered(Detach(fs, v))
    ensures SubDirs(Detach(fs, v), i) == SubDirs(fs, i) - {v}
  {
    hide Detach, UniqueNames, Attached, Counts, Kinds;
    var fs' := Detach(fs, v);
    DetachShape(fs, v);
    assert KidsOk(fs.nodes, i) && KidsOk(fs'.nodes, i);
    forall c | c in fs.nodes[i].children && c != v ensures IsSubDir(fs', c) == IsSubDir(fs, c) {
      SameSubDir(fs, extra, v, c);
    }
  }

  lemma SameSubDir(fs: Fs, extra: nat, v: nat, c: nat)
    requires Numbered(fs) && Kinds(fs) && Counts(fs, extra) && Removable(fs, v) && c < |fs.nodes|
    requires Numbered(Detach(fs, v))
    ensures IsSubDir(Detach(fs, v), c) == IsSubDir(fs, c)
  {
    hide Detach, UniqueNames, Attached, Counts, Kinds;
    DetachShape(fs, v);
    assert c > 0 ==> NumberedNode(fs, c);
    DetachInodes(fs, extra, v, fs.nodes[c].inode);
  }

  /** What one removal does to the count of directory node `i`. */
  lemma DetachDirLinks(fs: Fs, extra: nat, v: nat, i: nat)
    requires Numbered(fs) && Kinds(fs) && Counts(fs, extra) && Removable(fs, v) && Plain(fs)
    requires Numbered(Detach(fs, v)) && i < |fs.nodes| && i != v && IsSubDir(fs, i)
    ensures var p := fs.nodes[v].parent.value;
      OwnInode(Detach(fs, v), i).links
        == if i == p && OwnInode(fs, v).IsDir() && OwnInode(fs, p).links > 2 then OwnInode(fs, p).links - 1
           else OwnInode(fs, i).links
  {
    hide Detach, UniqueNames, Attached, Counts;
    var p, n := fs.nodes[v].parent.value, fs.nodes[i].inode;
    assert i > 0 ==> NumberedNode(fs, i);
    assert NumberedNode(fs, v);
    DetachTarget(fs, extra, v);
    DetachInodes(fs, extra, v, n);
    DetachNode(fs, v, i);
    assert fs.nodes[p].link == None by { HasKid(fs, v); }
    if i != p {
      DirsDistinct(fs, i, p);
    }
    if fs.nodes[v].link == None {
      DirsDistinct(fs, i, v);
    }
  }

  lemma HasKid(fs: Fs, v: nat)
    requires Numbered(fs) && 0 < v < |fs.nodes| && Attached(fs.nodes, v)
    ensures fs.nodes[fs.nodes[v].parent.value].children != []
  {
  }

  lemma DetachPlain(fs: Fs, v: nat)
    requires Numbered(fs) && Removable(fs, v) && Plain(fs)
    ensures Plain(Detach(fs, v))
  {
    hide Detach;
    DetachShape(fs, v);
    var fs' := Detach(fs, v);
    forall i | 0 <= i < |fs'.nodes| && fs'.nodes[i].children != [] ensures fs'.nodes[i].link == None {
      assert fs'.nodes[i].children[0] in fs'.nodes[i].children;
      assert fs.nodes[i].children != [];
    }
  }

  /** Removing an entry that is not a hard link keeps every directory's count. */
  lemma DetachDirCounts(fs: Fs, extra: nat, v: nat)
    requires Numbered(fs) && Kinds(fs) && Counts(fs, extra) && Removable(fs, v) && Plain(fs) && DirCounts(fs)
    requires Numbered(Detach(fs, v)) && fs.nodes[v].link == None
    ensures DirCounts(Detach(fs, v))
  {
    hide Detach, Counts, Plain, Kinds, UniqueNames, Attached, SubDirs;
    var fs' := Detach(fs, v);
    forall i | 0 <= i < |fs'.nodes| ensures DirCountOk(fs', i) {
      assert DirCountOk(fs, i);
      DetachDirCount(fs, extra, v, i);
    }
  }

  lemma DetachDirCount(fs: Fs, extra: nat, v: nat, i: nat)
    requires Numbered(fs) && Kinds(fs) && Counts(fs, extra) && Removable(fs, v) && Plain(fs) && i < |fs.nodes|
    requires Numbered(Detach(fs, v)) && fs.nodes[v].link == None && DirCountOk(fs, i)
    ensures DirCountOk(Detach(fs, v), i)
  {
    hide Detach, Counts, Plain, Kinds, UniqueNames, Attached, IsSubDir, OwnInode, WellFormed;
    DetachNode(fs, v, i);
    if i != v {
      SameSubDir(fs, extra, v, i);
      if IsSubDir(fs, i) {
        DetachSubDirs(fs, extra, v, i);
        DetachDirLinks(fs, extra, v, i);
        SubDirMember(fs, v, i);
      }
    }
  }

  lemma SubDirMember(fs: Fs, v: nat, i: nat)
    requires Numbered(fs) && i < |fs.nodes| && Removable(fs, v)
    ensures v in SubDirs(fs, i) <==> i == fs.nodes[v].parent.value && IsSubDir(fs, v)
    ensures fs.nodes[v].link == None ==> IsSubDir(fs, v) == OwnInode(fs, v).IsDir()
    ensures i == fs.nodes[v].parent.value && fs.nodes[v].link.Some? ==> OwnInode(fs, v) == fs.inodes[ROOT_INODE - 1]
  {
    assert KidsOk(fs.nodes, i) && NumberedNode(fs, v);
  }

  /** Removing a hard-link entry takes a link from the directory it was in, as
      if a subdirectory had gone: the counts stay right exactly when that
      directory had none to spare. */
  lemma HardLinkRemoval(fs: Fs, extra: nat, v: nat)
    requires Inv(fs, extra) && Removable(fs, v) && Plain(fs) && DirCounts(fs) && fs.nodes[v].link.Some?
    ensures Numbered(Detach(fs, v))
    ensures DirCounts(Detach(fs, v)) <==> OwnInode(fs, fs.nodes[v].parent.value).links == 2
  {
    DetachNumbered(fs, v);
    hide Detach, Counts, Kinds, UniqueNames, Attached, SubDirs, Ownership;
    var fs', p := Detach(fs, v), fs.nodes[v].parent.value;
    HardLinkParent(fs, extra, v);
    assert DirCountOk(fs, p);
    if OwnInode(fs, p).links == 2 {
      forall i | 0 <= i < |fs'.nodes| ensures DirCountOk(fs', i) {
        assert DirCountOk(fs, i);
        HardLinkElsewhere(fs, extra, v, i);
      }
    } else {
      assert !DirCountOk(fs', p);
    }
  }

  lemma HardLinkParent(fs: Fs, extra: nat, v: nat)
    requires Inv(fs, extra) && Removable(fs, v) && Plain(fs) && DirCounts(fs) && fs.nodes[v].link.Some?
    requires Numbered(Detach(fs, v))
    ensures var fs', p := Detach(fs, v), fs.nodes[v].parent.value;
      && Attached(fs.nodes, p) && Attached(fs'.nodes, p) && IsSubDir(fs, p) && IsSubDir(fs', p)
      && SubDirs(fs', p) == SubDirs(fs, p)
      && OwnInode(fs, p).links >= 2
      && OwnInode(fs', p).links == if OwnInode(fs, p).links > 2 then OwnInode(fs, p).links - 1 else 2
  {
    hide Detach, Counts, UniqueNames, Ownership;
    var p := fs.nodes[v].parent.value;
    DetachTarget(fs, extra, v);
    HasKid(fs, v);
    DetachNode(fs, v, p);
    SameSubDir(fs, extra, v, p);
    DetachSubDirs(fs, extra, v, p);
    SubDirMember(fs, v, p);
    DetachDirLinks(fs, extra, v, p);
  }

  lemma HardLinkElsewhere(fs: Fs, extra: nat, v: nat, i: nat)
    requires Inv(fs, extra) && Removable(fs, v) && Plain(fs) && fs.nodes[v].link.Some?
    requires i < |fs.nodes| && DirCountOk(fs, i) && Numbered(Detach(fs, v)) && OwnInode(fs, fs.nodes[v].parent.value).links == 2
    ensures DirCountOk(Detach(fs, v), i)
  {
    hide Detach, Counts, Plain, Kinds, UniqueNames, Attached, IsSubDir, OwnInode, WellFormed, Ownership;
    DetachNode(fs, v, i);
    SameSubDir(fs, extra, v, i);
    if i != v && IsSubDir(fs, i) {
      DetachSubDirs(fs, extra, v, i);
      DetachDirLinks(fs, extra, v, i);
      SubDirMember(fs, v, i);
      LinkIsNoSubDir(fs, v);
    }
    if i == v {
      LinkIsNoSubDir(fs, v);
    }
  }

  lemma LinkIsNoSubDir(fs: Fs, v: nat)
    requires Numbered(fs) && v < |fs.nodes| && fs.nodes[v].link.Some?
    ensures !IsSubDir(fs, v)
  {
  }

  /** Adding an entry below a plain directory keeps every directory's count. */
  lemma AttachDirCounts(fs: Fs, p: nat, name: Name, inode: Inode, blocks: Option<BlockRange>)
    requires Numbered(fs) && Kinds(fs) && FreeSlot(fs, p, name) && FreshCount(inode)
    requires Plain(fs) && DirCounts(fs) && fs.nodes[p].link == None
    requires Numbered(Attach(fs, p, name, inode, blocks))
    ensures Plain(Attach(fs, p, name, inode, blocks)) && DirCounts(Attach(fs, p, name, inode, blocks))
  {
    hide Kinds, UniqueNames, Attached, SubDirs, IsSubDir;
    var fs' := Attach(fs, p, name, inode, blocks);
    forall i | 0 <= i < |fs'.nodes| ensures DirCountOk(fs', i) {
      if i < |fs.nodes| {
        assert DirCountOk(fs, i);
      }
      AttachDirCount(fs, p, name, inode, blocks, i);
    }
  }

  lemma AttachDirCount(fs: Fs, p: nat, name: Name, inode: Inode, blocks: Option<BlockRange>, i: nat)
    requires Numbered(fs) && FreeSlot(fs, p, name) && FreshCount(inode) && fs.nodes[p].link == None
    requires Numbered(Attach(fs, p, name, inode, blocks)) && i <= |fs.nodes|
    requires i < |fs.nodes| ==> DirCountOk(fs, i)
    ensures DirCountOk(Attach(fs, p, name, inode, blocks), i)
  {
    hide UniqueNames, Attached, SubDirs, IsSubDir, OwnInode;
    var fs' := Attach(fs, p, name, inode, blocks);
    AddShape(fs, p, NewNode(|fs.inodes| + 1, name, blocks));
    AttachSubDirs(fs, p, name, inode, blocks, i);
    assert fs'.nodes == WithChild(fs.nodes, p, NewNode(|fs.inodes| + 1, name, blocks));
    hide Attach;
    if i < |fs.nodes| {
      AttachDirLinks(fs, p, name, inode, blocks, i);
    } else {
      AttachNewInode(fs, p, name, inode, blocks);
    }
  }

  lemma AttachNewInode(fs: Fs, p: nat, name: Name, inode: Inode, blocks: Option<BlockRange>)
    requires Numbered(fs) && p < |fs.nodes| && Numbered(Attach(fs, p, name, inode, blocks))
    ensures OwnInode(Attach(fs, p, name, inode, blocks), |fs.nodes|) == inode
    ensures IsSubDir(Attach(fs, p, name, inode, blocks), |fs.nodes|) == inode.IsDir()
  {
  }

  lemma AttachDirLinks(fs: Fs, p: nat, name: Name, inode: Inode, blocks: Option<BlockRange>, i: nat)
    requires Numbered(fs) && FreeSlot(fs, p, name) && fs.nodes[p].link == None
    requires Numbered(Attach(fs, p, name, inode, blocks)) && i < |fs.nodes|
    ensures var fs' := Attach(fs, p, name, inode, blocks);
      && IsSubDir(fs', i) == IsSubDir(fs, i)
      && (IsSubDir(fs, i) ==>
          OwnInode(fs', i).links == OwnInode(fs, i).links + if i == p && inode.IsDir() then 1 else 0)
  {
    hide UniqueNames, Attached, WellFormed;
    assert i > 0 ==> NumberedNode(fs, i);
    assert p > 0 ==> NumberedNode(fs, p);
    if i != p && IsSubDir(fs, i) {
      DirsDistinct(fs, i, p);
    }
  }

  lemma AttachSubDirs(fs: Fs, p: nat, name: Name, inode: Inode, blocks: Option<BlockRange>, i: nat)
    requires Numbered(fs) && FreeSlot(fs, p, name) && fs.nodes[p].link == None
    requires Numbered(Attach(fs, p, name, inode, blocks)) && i <= |fs.nodes|
    ensures var fs', v := Attach(fs, p, name, inode, blocks), |fs.nodes|;
      && (i == v ==> SubDirs(fs', i) == {})
      && (i < v ==> SubDirs(fs', i) == SubDirs(fs, i) + if i == p && inode.IsDir() then {v} else {})
      && (i < v ==> v !in SubDirs(fs, i))
  {
    hide *;
    SlotInTree(fs, p, name);
    var fs', v := Attach(fs, p, name, inode, blocks), |fs.nodes|;
    AttachGrows(fs, p, name, inode, blocks);
    AttachKids(fs, p, name, inode, blocks, i);
    AttachNewInode(fs, p, name, inode, blocks);
    SubDirsIs(fs', i);
    if i < v {
      SubDirsIs(fs, i);
      KidsInTree(fs, i);
      forall c | c in fs.nodes[i].children ensures IsSubDir(fs', c) == IsSubDir(fs, c) {
        AttachDirLinks(fs, p, name, inode, blocks, c);
      }
    }
  }

  lemma SlotInTree(fs: Fs, p: nat, name: Name)
    requires Numbered(fs) && FreeSlot(fs, p, name)
    ensures p < |fs.nodes|
  {
    hide Numbered;
  }

  lemma AttachGrows(fs: Fs, p: nat, name: Name, inode: Inode, blocks: Option<BlockRange>)
    requires Numbered(fs) && p < |fs.nodes|
    ensures |Attach(fs, p, name, inode, blocks).nodes| == |fs.nodes| + 1
  {
    hide Attach;
  }

  lemma SubDirsIs(fs: Fs, i: nat)
    requires Numbered(fs) && i < |fs.nodes|
    ensures forall c :: c in fs.nodes[i].children ==> c < |fs.nodes|
    ensures forall c :: c in SubDirs(fs, i) <==> c in fs.nodes[i].children && IsSubDir(fs, c)
  {
    assert KidsOk(fs.nodes, i);
    hide Numbered, IsSubDir;
  }

  lemma KidsInTree(fs: Fs, i: nat)
    requires Numbered(fs) && i < |fs.nodes|
    ensures forall c :: c in fs.nodes[i].children ==> i < c < |fs.nodes|
  {
    assert KidsOk(fs.nodes, i);
    hide NumberedNode, NumberedInode;
  }

  lemma AttachKids(fs: Fs, p: nat, name: Name, inode: Inode, blocks: Option<BlockRange>, i: nat)
    requires Numbered(fs) && p < |fs.nodes| && i <= |fs.nodes|
    ensures var fs', v := Attach(fs, p, name, inode, blocks), |fs.nodes|;
      && (i < v ==> fs'.nodes[i].children == fs.nodes[i].children + (if i == p then [v] else []))
      && fs'.nodes[v].link == None && fs'.nodes[v].children == []
  {
  }

  /** A hard link is no subdirectory: adding one changes no directory's count. */
  lemma AddLinkDirCounts(fs: Fs, p: nat, name: Name, t: nat)
    requires Numbered(fs) && FreeSlot(fs, p, name) && RESERVED < t <= |fs.inodes| && fs.nodes[p].link == None
    requires Plain(fs) && DirCounts(fs) && Numbered(AddLink(fs, p, name, t))
    ensures Plain(AddLink(fs, p, name, t)) && DirCounts(AddLink(fs, p, name, t))
  {
    hide UniqueNames, Attached;
    var fs', v := AddLink(fs, p, name, t), |fs.nodes|;
    AddShape(fs, p, LinkNode(name, t));
    forall i | 0 <= i < |fs'.nodes| ensures DirCountOk(fs', i) {
      if i < v {
        assert DirCountOk(fs, i);
        AddLinkSubDirs(fs, p, name, t, i);
      }
    }
  }

  lemma AddLinkSubDirs(fs: Fs, p: nat, name: Name, t: nat, i: nat)
    requires Numbered(fs) && p < |fs.nodes| && RESERVED < t <= |fs.inodes| && i < |fs.nodes|
    requires Numbered(AddLink(fs, p, name, t))
    ensures SubDirs(AddLink(fs, p, name, t), i) == SubDirs(fs, i)
    ensures IsSubDir(AddLink(fs, p, name, t), i) == IsSubDir(fs, i)
    ensures OwnInode(AddLink(fs, p, name, t), i) == OwnInode(fs, i)
  {
    var d := AddLink(fs, p, name, t);
    hide *;
    AddLinkOwn(fs, p, name, t, i);
    AddLinkKids(fs, p, name, t, i);
    SubDirsIs(fs, i);
    SubDirsIs(d, i);
    forall c | c in fs.nodes[i].children ensures IsSubDir(d, c) == IsSubDir(fs, c) {
      AddLinkOwn(fs, p, name, t, c);
    }
  }

  lemma AddLinkOwn(fs: Fs, p: nat, name: Name, t: nat, i: nat)
    requires Numbered(fs) && p < |fs.nodes| && i < |fs.nodes| && Numbered(AddLink(fs, p, name, t))
    ensures |AddLink(fs, p, name, t).nodes| == |fs.nodes| + 1
    ensures IsSubDir(AddLink(fs, p, name, t), i) == IsSubDir(fs, i)
    ensures OwnInode(AddLink(fs, p, name, t), i) == OwnInode(fs, i)
  {
    hide Numbered, IsDirMode;
  }

  lemma AddLinkKids(fs: Fs, p: nat, name: Name, t: nat, i: nat)
    requires Numbered(fs) && p < |fs.nodes| && i < |fs.nodes| && RESERVED < t <= |fs.inodes| && Numbered(AddLink(fs, p, name, t))
    ensures var d := AddLink(fs, p, name, t);
      && |d.nodes| == |fs.nodes| + 1 && !IsSubDir(d, |fs.nodes|)
      && d.nodes[i].children == fs.nodes[i].children + (if i == p then [|fs.nodes|] else [])
  {
    hide Numbered, OwnInode;
  }

  predicate KeepsDirLinks(a: Inode, b: Inode) {
    a.IsDir() == b.IsDir() && (a.IsDir() ==> b.links == a.links)
  }

  /** Rewriting an inode without changing its kind, or a directory's count. */
  lemma SetInodeDirCounts(fs: Fs, n: nat, inode: Inode)
    requires Numbered(fs) && 0 < n <= |fs.inodes| && KeepsDirLinks(fs.inodes[n - 1], inode)
    requires Plain(fs) && DirCounts(fs) && Numbered(SetInode(fs, n, inode))
    ensures Plain(SetInode(fs, n, inode)) && DirCounts(SetInode(fs, n, inode))
  {
    hide UniqueNames, Attached, WellFormed, IsDirMode;
    var fs' := SetInode(fs, n, inode);
    forall i | 0 <= i < |fs'.nodes| ensures DirCountOk(fs', i) {
      assert DirCountOk(fs, i);
      SetInodeSubDir(fs, n, inode, i);
      SetInodeSubDirs(fs, n, inode, i);
    }
  }

  lemma SetInodeSubDir(fs: Fs, n: nat, inode: Inode, i: nat)
    requires Numbered(fs) && 0 < n <= |fs.inodes| && KeepsDirLinks(fs.inodes[n - 1], inode)
    requires Numbered(SetInode(fs, n, inode)) && i < |fs.nodes|
    ensures IsSubDir(SetInode(fs, n, inode), i) == IsSubDir(fs, i)
    ensures IsSubDir(fs, i) ==> OwnInode(SetInode(fs, n, inode), i).links == OwnInode(fs, i).links
  {
    hide UniqueNames, Attached, WellFormed, IsDirMode;
    assert i > 0 ==> NumberedNode(fs, i);
  }

  lemma SetInodeSubDirs(fs: Fs, n: nat, inode: Inode, i: nat)
    requires Numbered(fs) && 0 < n <= |fs.inodes| && KeepsDirLinks(fs.inodes[n - 1], inode)
    requires Numbered(SetInode(fs, n, inode)) && i < |fs.nodes|
    ensures SubDirs(SetInode(fs, n, inode), i) == SubDirs(fs, i)
  {
    assert KidsOk(fs.nodes, i);
    hide UniqueNames, Attached, IsDirMode, IsSubDir, WellFormed;
    forall c | c in fs.nodes[i].children ensures IsSubDir(SetInode(fs, n, inode), c) == IsSubDir(fs, c) {
      SetInodeSubDir(fs, n, inode, c);
    }
  }

  // ---- What removal does to the inodes of directories ----

  predicate SameInodeAt(a: Fs, b: Fs, n: nat) {
    0 < n <= |a.inodes| && n <= |b.inodes| && b.inodes[n - 1] == a.inodes[n - 1]
  }

  /** If node `i` is a directory away from `v`, its inode is untouched. */
  predicate AwayAt(a: Fs, b: Fs, v: nat, i: nat)
    requires Numbered(a) && i < |a.nodes|
  {
    IsSubDir(a, i) && !Under(a.nodes, v, i) ==> SameInodeAt(a, b, a.nodes[i].inode)
  }

  /** Emptying `v` touches no directory that is not below it. */
  predicate AwayFrom(a: Fs, b: Fs, v: nat)
    requires Numbered(a)
  {
    forall i :: 0 <= i < |a.nodes| ==> AwayAt(a, b, v, i)
  }

  /** The parent of `v` loses a link when the inode `v` carries is a directory and
      the parent has some to spare. */
  predicate ParentDrops(a: Fs, b: Fs, v: nat)
    requires Numbered(a) && 0 < v < |a.nodes|
  {
    var n := a.nodes[a.nodes[v].parent.value].inode;
    && 0 < n <= |a.inodes| && n <= |b.inodes|
    && b.inodes[n - 1].links
       == if OwnInode(a, v).IsDir() && a.inodes[n - 1].links > 2 then a.inodes[n - 1].links - 1 else a.inodes[n - 1].links
  }

  /** Removing `v` touches no directory away from it but its parent. */
  predicate AwayBut(a: Fs, b: Fs, v: nat)
    requires Numbered(a) && 0 < v < |a.nodes|
  {
    && (forall i :: 0 <= i < |a.nodes| && Some(i) != a.nodes[v].parent ==> AwayAt(a, b, v, i))
    && ParentDrops(a, b, v)
  }

  lemma AwaySelf(a: Fs, v: nat)
    requires Numbered(a)
    ensures AwayFrom(a, a, v)
  {
    forall i | 0 <= i < |a.nodes| ensures AwayAt(a, a, v, i) {
      assert i > 0 ==> NumberedNode(a, i);
    }
  }

  /** One more child of `v` gone. */
  lemma AwayNext(a: Fs, b: Fs, c: Fs, v: nat, kid: nat)
    requires Numbered(a) && Numbered(b) && SameNodes(a, b) && v < |a.nodes| && 0 < kid < |a.nodes| && a.nodes[kid].parent == Some(v)
    requires AwayFrom(a, b, v) && kid < |b.nodes| && AwayBut(b, c, kid)
    ensures AwayFrom(a, c, v)
  {
    forall i | 0 <= i < |a.nodes| ensures AwayAt(a, c, v, i) {
      AwayNextAt(a, b, c, v, kid, i);
    }
    hide Numbered, AwayAt, AwayBut, SameNodes;
  }

  lemma AwayNextAt(a: Fs, b: Fs, c: Fs, v: nat, kid: nat, i: nat)
    requires Numbered(a) && Numbered(b) && SameNodes(a, b) && v < |a.nodes| && 0 < kid < |a.nodes| && a.nodes[kid].parent == Some(v)
    requires AwayFrom(a, b, v) && kid < |b.nodes| && AwayBut(b, c, kid) && i < |a.nodes|
    ensures AwayAt(a, c, v, i)
  {
    Shaped(a);
    Shaped(b);
    if IsSubDir(a, i) && !Under(a.nodes, v, i) {
      assert AwayAt(a, b, v, i);
      assert b.nodes[i] == a.nodes[i].(children := b.nodes[i].children);
      assert b.nodes[kid] == a.nodes[kid].(children := b.nodes[kid].children);
      SameParents(a, b);
      UnderSame(a.nodes, b.nodes, kid, i);
      NotUnderKid(a.nodes, v, kid, i);
      assert i != v;
      SubDirStays(a, b, i);
      assert AwayAt(b, c, kid, i);
    }
    hide Numbered, SameNodes, AwayFrom, WellFormed, UniqueNames;
  }

  lemma SameParents(a: Fs, b: Fs)
    requires SameNodes(a, b)
    ensures |a.nodes| == |b.nodes| && forall k :: 0 <= k < |a.nodes| ==> a.nodes[k].parent == b.nodes[k].parent
  {
  }

  lemma NotUnderKid(nodes: Nodes, v: nat, kid: nat, i: nat)
    requires WellFormed(nodes) && 0 < kid < |nodes| && nodes[kid].parent == Some(v) && i < |nodes| && !Under(nodes, v, i)
    ensures !Under(nodes, kid, i)
  {
    assert Under(nodes, v, v) && Under(nodes, v, kid);
    if Under(nodes, kid, i) {
      UnderTrans(nodes, v, kid, i);
    }
  }

  lemma SubDirStays(a: Fs, b: Fs, i: nat)
    requires Numbered(a) && Numbered(b) && SameNodes(a, b) && i < |a.nodes| && IsSubDir(a, i) && SameInodeAt(a, b, a.nodes[i].inode)
    ensures i < |b.nodes| && IsSubDir(b, i) && b.nodes[i].inode == a.nodes[i].inode
  {
    assert b.nodes[i] == a.nodes[i].(children := b.nodes[i].children);
    hide Numbered, InodeStep;
  }

  /** The last step of a removal. */
  lemma AwayDetached(a: Fs, b: Fs, extra: nat, v: nat)
    requires Numbered(a) && Numbered(b) && Kinds(b) && Counts(b, extra) && SameNodes(a, b) && Removable(b, v) && Plain(b)
    requires AwayFrom(a, b, v) && OwnInode(b, v).IsDir() == OwnInode(a, v).IsDir() && v < |a.nodes| && Attached(a.nodes, v)
    requires Plain(a) && Kinds(a) && a.nodes[a.nodes[v].parent.value].children != []
    ensures AwayBut(a, Detach(b, v), v)
  {
    var p, c := a.nodes[v].parent.value, Detach(b, v);
    Shaped(a);
    Shaped(b);
    SameParents(a, b);
    ParentIsDirectory(a, p);
    ParentNotUnder(a.nodes, v, p);
    assert AwayAt(a, b, v, p);
    SubDirStays(a, b, p);
    hide Detach, WellFormed, UniqueNames, NumberedInode, Plain, KindOk, Counts, Under;
    forall i | 0 <= i < |a.nodes| && Some(i) != a.nodes[v].parent ensures AwayAt(a, c, v, i) {
      AwayDetachedAt(a, b, extra, v, i);
    }
    DetachInodes(b, extra, v, b.nodes[p].inode);
    hide NumberedNode, AwayAt, SameNodes;
  }

  lemma ParentNotUnder(nodes: Nodes, v: nat, p: nat)
    requires WellFormed(nodes) && 0 < v < |nodes| && nodes[v].parent == Some(p)
    ensures p < v && !Under(nodes, v, p)
  {
    if Under(nodes, v, p) {
      UnderIsAfter(nodes, v, p);
    }
  }

  lemma ParentIsDirectory(a: Fs, p: nat)
    requires Numbered(a) && Plain(a) && Kinds(a) && p < |a.nodes| && a.nodes[p].children != []
    ensures IsSubDir(a, p) && 0 < a.nodes[p].inode <= |a.inodes|
  {
    assert KindOk(a, p);
    assert p > 0 ==> NumberedNode(a, p);
    hide WellFormed, UniqueNames, NumberedInode, Attached;
  }

  lemma AwayDetachedAt(a: Fs, b: Fs, extra: nat, v: nat, i: nat)
    requires Numbered(a) && Numbered(b) && Kinds(b) && Counts(b, extra) && SameNodes(a, b) && Removable(b, v) && Plain(b)
    requires AwayFrom(a, b, v) && v < |a.nodes| && i < |a.nodes| && Some(i) != a.nodes[v].parent
    requires var p := b.nodes[v].parent; p.Some? && p.value < |b.nodes| && b.nodes[p.value].link == None
    ensures AwayAt(a, Detach(b, v), v, i)
  {
    Shaped(a);
    Shaped(b);
    if IsSubDir(a, i) && !Under(a.nodes, v, i) {
      assert AwayAt(a, b, v, i);
      SubDirStays(a, b, i);
      assert Under(a.nodes, v, v);
      DirsDistinct(b, i, b.nodes[v].parent.value);
      OwnIsNotTarget(b, v, i);
      DetachInodes(b, extra, v, b.nodes[i].inode);
    }
    hide Numbered, SameNodes, AwayFrom, WellFormed, UniqueNames, Detach, Kinds, Counts, Plain;
  }

  lemma OwnIsNotTarget(b: Fs, v: nat, i: nat)
    requires Numbered(b) && Kinds(b) && Removable(b, v) && i < |b.nodes| && IsSubDir(b, i) && i != v
    ensures b.nodes[i].inode != Target(b.nodes[v])
  {
    assert NumberedNode(b, v) && KindOk(b, v);
    assert i > 0 ==> NumberedNode(b, i);
    if b.nodes[v].link == None {
      DirsDistinct(b, i, v);
    }
    hide WellFormed, UniqueNames, NumberedInode, Attached;
  }

  lemma PlainKidsGone(a: Fs, b: Fs, v: nat, k: nat)
    requires WellFormed(a.nodes) && v < |a.nodes| && k <= |a.nodes[v].children| && KidsGone(a, b, v, k) && Plain(a)
    ensures Plain(b)
  {
    forall i | 0 <= i < |b.nodes| && b.nodes[i].children != [] ensures b.nodes[i].link == None {
      assert b.nodes[i] == a.nodes[i].(children := b.nodes[i].children);
      assert a.nodes[i].children != [];
    }
    hide UnderFirst, InodeStep, WellFormed;
  }
}
