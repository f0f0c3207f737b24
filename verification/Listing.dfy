/** What a directory on disk must list: itself, its parent, and every child,
    sorted by inode number (formatter.rs commit_directories). */
module Listing {
  import opened Basics
  import opened OnDisk
  import opened Directory
  import opened Trees
  import opened Namespace
  import opened Contents

  // ---- Sorting children by inode number, ties in their old order ----

  /** Put `c` behind every member whose inode number is not larger. */
  function InsertChild(nodes: Nodes, sorted: seq<nat>, c: nat): (r: seq<nat>)
    requires InRange(nodes, sorted) && c < |nodes|
    ensures |r| == |sorted| + 1 && InRange(nodes, r)
  {
    if sorted == [] then [c]
    else
      var last := sorted[|sorted| - 1];
      if nodes[last].inode <= nodes[c].inode then sorted + [c]
      else InsertChild(nodes, sorted[..|sorted| - 1], c) + [last]
  }

  /** `sort_by_key` on the inode number. */
  function SortChildren(nodes: Nodes, kids: seq<nat>): (r: seq<nat>)
    requires InRange(nodes, kids)
    ensures |r| == |kids| && InRange(nodes, r)
  {
    if kids == [] then []
    else
      var n := |kids| - 1;
      assert forall k :: 0 <= k < n ==> kids[..n][k] == kids[k];
      InsertChild(nodes, SortChildren(nodes, kids[..n]), kids[n])
  }

  predicate SortedByInode(nodes: Nodes, kids: seq<nat>)
    requires InRange(nodes, kids)
  {
    forall j, k :: 0 <= j < k < |kids| ==> nodes[kids[j]].inode <= nodes[kids[k]].inode
  }

  lemma {:induction false} InsertMembers(nodes: Nodes, sorted: seq<nat>, c: nat)
    requires InRange(nodes, sorted) && c < |nodes|
    ensures multiset(InsertChild(nodes, sorted, c)) == multiset(sorted) + multiset{c}
  {
    if sorted != [] {
      var n := |sorted| - 1;
      assert sorted == sorted[..n] + [sorted[n]];
      InsertMembers(nodes, sorted[..n], c);
    }
  }

  predicate AllUpTo(nodes: Nodes, kids: seq<nat>, key: nat)
    requires InRange(nodes, kids)
  {
    forall k :: 0 <= k < |kids| ==> nodes[kids[k]].inode <= key
  }

  lemma InsertUpTo(nodes: Nodes, sorted: seq<nat>, c: nat, key: nat)
    requires InRange(nodes, sorted) && c < |nodes| && AllUpTo(nodes, sorted, key) && nodes[c].inode <= key
    ensures AllUpTo(nodes, InsertChild(nodes, sorted, c), key)
  {
    InsertMembers(nodes, sorted, c);
    hide InsertChild;
    var r := InsertChild(nodes, sorted, c);
    forall k | 0 <= k < |r| ensures nodes[r[k]].inode <= key {
      assert r[k] in multiset(r);
    }
  }

  /** A sorted list ends with a largest member, and may be given another. */
  lemma SortedSnoc(nodes: Nodes, kids: seq<nat>, x: nat)
    requires InRange(nodes, kids) && x < |nodes|
    ensures SortedByInode(nodes, kids + [x]) <==> SortedByInode(nodes, kids) && AllUpTo(nodes, kids, nodes[x].inode)
  {
    var all := kids + [x];
    assert forall k :: 0 <= k < |kids| ==> all[k] == kids[k];
    if SortedByInode(nodes, all) {
      forall k | 0 <= k < |kids| ensures nodes[kids[k]].inode <= nodes[x].inode {
        assert nodes[all[k]].inode <= nodes[all[|kids|]].inode;
      }
    }
  }

  lemma {:induction false} InsertSorted(nodes: Nodes, sorted: seq<nat>, c: nat)
    requires InRange(nodes, sorted) && c < |nodes| && SortedByInode(nodes, sorted)
    ensures SortedByInode(nodes, InsertChild(nodes, sorted, c))
  {
    if sorted != [] {
      var n := |sorted| - 1;
      hide SortedByInode, AllUpTo;
      assert sorted == sorted[..n] + [sorted[n]];
      SortedSnoc(nodes, sorted[..n], sorted[n]);
      if nodes[sorted[n]].inode > nodes[c].inode {
        InsertSorted(nodes, sorted[..n], c);
        InsertUpTo(nodes, sorted[..n], c, nodes[sorted[n]].inode);
        SortedSnoc(nodes, InsertChild(nodes, sorted[..n], c), sorted[n]);
      } else {
        UpToMore(nodes, sorted, nodes[c].inode);
        SortedSnoc(nodes, sorted, c);
      }
    }
  }

  lemma UpToMore(nodes: Nodes, sorted: seq<nat>, key: nat)
    requires InRange(nodes, sorted) && sorted != [] && SortedByInode(nodes, sorted)
    requires nodes[sorted[|sorted| - 1]].inode <= key
    ensures AllUpTo(nodes, sorted, key)
  {
  }

  /** The sorted list holds the same children, in order of their inode numbers. */
  lemma {:induction false} SortSorts(nodes: Nodes, kids: seq<nat>)
    requires InRange(nodes, kids)
    ensures multiset(SortChildren(nodes, kids)) == multiset(kids)
    ensures SortedByInode(nodes, SortChildren(nodes, kids))
  {
    if kids != [] {
      var n := |kids| - 1;
      assert kids == kids[..n] + [kids[n]];
      SortSorts(nodes, kids[..n]);
      InsertSorted(nodes, SortChildren(nodes, kids[..n]), kids[n]);
      InsertMembers(nodes, SortChildren(nodes, kids[..n]), kids[n]);
    }
  }

  /** The members of `kids` recorded under inode number `key`. */
  function WithKey(nodes: Nodes, kids: seq<nat>, key: nat): seq<nat>
    requires InRange(nodes, kids)
  {
    if kids == [] then []
    else
      var n := |kids| - 1;
      assert forall k :: 0 <= k < n ==> kids[..n][k] == kids[k];
      WithKey(nodes, kids[..n], key) + if nodes[kids[n]].inode == key then [kids[n]] else []
  }

  lemma WithKeySnoc(nodes: Nodes, kids: seq<nat>, x: nat, key: nat)
    requires InRange(nodes, kids) && x < |nodes|
    ensures InRange(nodes, kids + [x])
    ensures WithKey(nodes, kids + [x], key) == WithKey(nodes, kids, key) + if nodes[x].inode == key then [x] else []
  {
    assert (kids + [x])[..|kids|] == kids;
  }

  lemma {:induction false} InsertKeepsTies(nodes: Nodes, sorted: seq<nat>, c: nat, key: nat)
    requires InRange(nodes, sorted) && c < |nodes|
    ensures WithKey(nodes, InsertChild(nodes, sorted, c), key)
         == WithKey(nodes, sorted, key) + if nodes[c].inode == key then [c] else []
  {
    if sorted == [] {
      WithKeySnoc(nodes, [], c, key);
      assert [] + [c] == [c];
    } else {
      hide WithKey;
      var n := |sorted| - 1;
      var front, last := sorted[..n], sorted[n];
      assert sorted == front + [last];
      if nodes[last].inode <= nodes[c].inode {
        WithKeySnoc(nodes, sorted, c, key);
      } else {
        InsertKeepsTies(nodes, front, c, key);
        WithKeySnoc(nodes, front, last, key);
        WithKeySnoc(nodes, InsertChild(nodes, front, c), last, key);
        assert nodes[last].inode == key ==> nodes[c].inode != key;
      }
    }
  }

  /** Children under the same number (all hard links are) stay in order. */
  lemma {:induction false} SortKeepsTies(nodes: Nodes, kids: seq<nat>, key: nat)
    requires InRange(nodes, kids)
    ensures WithKey(nodes, SortChildren(nodes, kids), key) == WithKey(nodes, kids, key)
  {
    if kids != [] {
      var n := |kids| - 1;
      SortKeepsTies(nodes, kids[..n], key);
      SortSorts(nodes, kids[..n]);
      InsertKeepsTies(nodes, SortChildren(nodes, kids[..n]), kids[n], key);
    }
  }

  // ---- The entries of a directory ----

  /** The entry for child `c`: a hard link stands for its target. */
  function ChildEntry(fs: Fs, c: nat): Entry
    requires Numbered(fs) && c < |fs.nodes|
  {
    Entry(fs.nodes[c].name, Target(fs.nodes[c]), TargetInode(fs, c).mode)
  }

  function ChildEntries(fs: Fs, kids: seq<nat>): (es: seq<Entry>)
    requires Numbered(fs) && InRange(fs.nodes, kids)
    ensures |es| == |kids|
  {
    seq(|kids|, k requires 0 <= k < |kids| => ChildEntry(fs, kids[k]))
  }

  function Dots(fs: Fs, i: nat): (es: seq<Entry>)
    requires Numbered(fs) && i < |fs.nodes|
    ensures |es| == 2
  {
    NumbersOf(fs, i);
    var up := if i == 0 then 0 else fs.nodes[i].parent.value;
    NumbersOf(fs, up);
    [Entry(DOT, fs.nodes[i].inode, OwnInode(fs, i).mode),
     Entry(DOTDOT, fs.nodes[up].inode, OwnInode(fs, up).mode)]
  }

  function SortedKids(fs: Fs, i: nat): (kids: seq<nat>)
    requires Numbered(fs) && i < |fs.nodes|
    ensures InRange(fs.nodes, kids)
  {
    assert KidsOk(fs.nodes, i);
    SortChildren(fs.nodes, fs.nodes[i].children)
  }

  /** Everything directory node `i` lists, in the order it is written. */
  function DirList(fs: Fs, i: nat): seq<Entry>
    requires Numbered(fs) && i < |fs.nodes|
  {
    Dots(fs, i) + ChildEntries(fs, SortedKids(fs, i))
  }

  /** Every name can stand in a directory block, and there are at most as many
      inodes as 32 bits can number. */
  ghost predicate Listable(fs: Fs)
    requires Numbered(fs)
  {
    && |fs.inodes| < 0x1_0000_0000
    && forall i :: 0 < i < |fs.nodes| ==> ValidName(fs.nodes[i].name)
  }

  lemma EntryFits(fs: Fs, c: nat)
    requires Numbered(fs) && Listable(fs) && 0 < c < |fs.nodes|
    ensures ChildEntry(fs, c).Fits()
  {
    NumbersOf(fs, c);
    hide Numbered;
  }

  lemma DotsFit(fs: Fs, i: nat)
    requires Numbered(fs) && Listable(fs) && i < |fs.nodes|
    ensures Dots(fs, i)[0].Fits() && Dots(fs, i)[1].Fits()
  {
    NumbersOf(fs, i);
    var up := if i == 0 then 0 else fs.nodes[i].parent.value;
    assert up < |fs.nodes|;
    NumbersOf(fs, up);
    hide Numbered;
  }

  lemma SortedKidsAreKids(fs: Fs, i: nat)
    requires Numbered(fs) && i < |fs.nodes|
    ensures var kids := SortedKids(fs, i);
      && multiset(kids) == multiset(fs.nodes[i].children)
      && forall k :: 0 <= k < |kids| ==> i < kids[k] < |fs.nodes| && kids[k] in fs.nodes[i].children
  {
    assert KidsOk(fs.nodes, i);
    SortSorts(fs.nodes, fs.nodes[i].children);
    var kids := SortedKids(fs, i);
    forall k | 0 <= k < |kids| ensures i < kids[k] < |fs.nodes| && kids[k] in fs.nodes[i].children {
      assert kids[k] in multiset(kids);
    }
  }

  lemma DirListFits(fs: Fs, i: nat)
    requires Numbered(fs) && Listable(fs) && i < |fs.nodes|
    ensures AllFit(DirList(fs, i))
  {
    DotsFit(fs, i);
    SortedKidsAreKids(fs, i);
    hide *;
    var es, kids := DirList(fs, i), SortedKids(fs, i);
    DirListParts(fs, i);
    forall k | 0 <= k < |es| ensures es[k].Fits() {
      if k >= 2 {
        EntryFits(fs, kids[k - 2]);
      }
    }
    AllFitIs(es);
  }

  lemma DirListParts(fs: Fs, i: nat)
    requires Numbered(fs) && i < |fs.nodes|
    ensures |DirList(fs, i)| == 2 + |SortedKids(fs, i)| && |Dots(fs, i)| == 2
    ensures DirList(fs, i)[0] == Dots(fs, i)[0] && DirList(fs, i)[1] == Dots(fs, i)[1]
    ensures forall k :: 2 <= k < |DirList(fs, i)| ==>
      SortedKids(fs, i)[k - 2] < |fs.nodes| && DirList(fs, i)[k] == ChildEntry(fs, SortedKids(fs, i)[k - 2])
  {
    hide Numbered, Dots, SortedKids, ChildEntry;
  }

  lemma AllFitIs(es: seq<Entry>)
    requires forall k :: 0 <= k < |es| ==> es[k].Fits()
    ensures AllFit(es)
  {
    hide Entry.Fits;
  }

  /** No directory needs more blocks than it has entries, plus one. */
  lemma {:induction false} PackedSize(es: seq<Entry>)
    requires AllFit(es)
    ensures |Pack(es).closed| <= 4096 * |es|
  {
    hide Record, ParseFrom, Chained, ParseBlocks, AllChained, SeenAll;
    if es != [] {
      var front := es[..|es| - 1];
      PackedSize(front);
    }
  }
}
