/** Rebuilding the tree from directory listings (Reader::new): what the tree read
    so far has to do with the file system the image was made from. */
module Recovery {
  import opened Basics
  import opened Image
  import opened OnDisk
  import opened Extents
  import opened Directory
  import opened Trees
  import opened Namespace
  import opened Unlinking
  import opened Contents
  import opened Requests
  import opened Formatting
  import opened Listing
  import opened Traversal
  import opened Committing
  import opened Reading
  import opened Volumes

  /** The tree and the hard links found so far. `from[j]` is the name reader node
      `j` was found as, `linked` are the names recorded as hard links. */
  datatype Walk = Walk(nodes: Nodes, links: map<Path, nat>, from: seq<nat>, linked: set<nat>)

  predicate Covered(w: Walk, i: nat) { i in w.from || i in w.linked }

  /** Reader node `j` is the name `from[j]`: same name, same inode, same place. */
  predicate NodeMatch(fs: Fs, w: Walk, j: nat)
    requires Numbered(fs) && WellFormed(w.nodes) && |w.from| == |w.nodes| && j < |w.nodes|
  {
    var i := w.from[j];
    && i < |fs.nodes| && Attached(fs.nodes, i)
    && if j == 0 then i == 0 && w.nodes[0].inode == ROOT_INODE
       else
         var p := w.nodes[j].parent.value;
         && i > 0 && w.nodes[j].name == fs.nodes[i].name && w.nodes[j].inode == Target(fs.nodes[i])
         && fs.nodes[i].parent == Some(w.from[p]) && j in w.nodes[p].children
  }

  function Numbers(nodes: Nodes): set<nat> { set j | 0 <= j < |nodes| :: nodes[j].inode }

  predicate NumbersDiffer(nodes: Nodes) {
    forall j, k :: 0 <= j < k < |nodes| ==> nodes[j].inode != nodes[k].inode
  }

  ghost predicate NodesMatch(fs: Fs, w: Walk)
    requires Numbered(fs)
  {
    && WellFormed(w.nodes) && |w.from| == |w.nodes| && Distinct(w.from) && NumbersDiffer(w.nodes)
    && forall j :: 0 <= j < |w.nodes| ==> NodeMatch(fs, w, j)
  }

  predicate LinkMatch(fs: Fs, w: Walk, i: nat)
    requires Numbered(fs)
  {
    && 0 < i < |fs.nodes| && Attached(fs.nodes, i) && i !in w.from && fs.nodes[i].parent.value in w.from
    && PathOf(fs.nodes, i) in w.links && w.links[PathOf(fs.nodes, i)] == Target(fs.nodes[i])
    && Target(fs.nodes[i]) in Numbers(w.nodes)
  }

  ghost predicate LinksMatch(fs: Fs, w: Walk)
    requires Numbered(fs)
  {
    && (forall i :: i in w.linked ==> LinkMatch(fs, w, i))
    && (forall q :: q in w.links ==> exists i :: i in w.linked && i < |fs.nodes| && PathOf(fs.nodes, i) == q)
  }

  /** Directory `j` waits to be listed: nothing below it has been met. */
  predicate Waiting(fs: Fs, w: Walk, j: nat)
    requires Numbered(fs) && |w.from| == |w.nodes|
  {
    && j < |w.nodes| && w.nodes[j].children == [] && IsOwnDir(fs, w.from[j])
    && forall i :: i in w.linked && i < |fs.nodes| ==> fs.nodes[i].parent != Some(w.from[j])
  }

  /** Everything below directory `j` has been met. */
  predicate Expanded(fs: Fs, w: Walk, j: nat)
    requires Numbered(fs) && |w.from| == |w.nodes| && j < |w.nodes|
  {
    w.from[j] < |fs.nodes| && forall c :: c in fs.nodes[w.from[j]].children ==> Covered(w, c)
  }

  ghost predicate QueueOk(fs: Fs, w: Walk, queue: seq<nat>, busy: set<nat>)
    requires Numbered(fs) && |w.from| == |w.nodes|
  {
    && Distinct(queue)
    && (forall k :: 0 <= k < |queue| ==> Waiting(fs, w, queue[k]))
    && (forall j :: 0 <= j < |w.nodes| && IsOwnDir(fs, w.from[j]) && j !in queue && j !in busy ==> Expanded(fs, w, j))
  }

  /** Between two directories: `queue` is what waits; `busy` is being listed. */
  ghost predicate Walking(fs: Fs, w: Walk, queue: seq<nat>, busy: set<nat>)
    requires Numbered(fs)
  {
    NodesMatch(fs, w) && LinksMatch(fs, w) && QueueOk(fs, w, queue, busy)
  }

  function Named(es: seq<Found>, k: nat, name: Name): bool
    requires k <= |es|
  {
    exists j :: 0 <= j < k && es[j].name == name
  }

  /** While directory `p` is listed: its children met are those named by the
      first `k` entries. */
  predicate Partly(fs: Fs, w: Walk, p: nat, es: seq<Found>, k: nat)
    requires Numbered(fs) && p < |w.from| && k <= |es|
  {
    w.from[p] < |fs.nodes| &&
    forall c :: c in fs.nodes[w.from[p]].children && c < |fs.nodes| ==> (Covered(w, c) <==> Named(es, k, fs.nodes[c].name))
  }

  // ---- The start ----

  function StartNodes(): Nodes { [Node(ROOT_INODE, DOT, [], None, None, [], None)] }

  function StartWalk(): Walk { Walk(StartNodes(), map[], [0], {}) }

  lemma StartMatches(fs: Fs)
    requires Numbered(fs)
    ensures NodesMatch(fs, StartWalk()) && LinksMatch(fs, StartWalk())
    ensures |StartWalk().from| == |StartWalk().nodes| == 1
  {
    var w := StartWalk();
    assert KidsOk(w.nodes, 0);
    hide KidsOk, UniqueNames, NumberedNode, NumberedInode;
    assert NodeMatch(fs, w, 0);
  }

  lemma StartWaits(fs: Fs)
    requires Numbered(fs) && IsOwnDir(fs, 0)
    ensures QueueOk(fs, StartWalk(), [0], {})
  {
    var w := StartWalk();
    hide Numbered, IsOwnDir;
    assert Waiting(fs, w, 0);
  }

  lemma WalkBegins(fs: Fs)
    requires Inv(fs, 0)
    ensures Numbered(fs) && Walking(fs, StartWalk(), [0], {})
  {
    hide *;
    InvNumbered(fs, 0);
    RootIsDir(fs);
    StartMatches(fs);
    StartWaits(fs);
    WalkingIs(fs, StartWalk(), [0], {});
  }

  lemma WalkingIs(fs: Fs, w: Walk, queue: seq<nat>, busy: set<nat>)
    requires Numbered(fs) && NodesMatch(fs, w) && LinksMatch(fs, w) && |w.from| == |w.nodes| && QueueOk(fs, w, queue, busy)
    ensures Walking(fs, w, queue, busy)
  {
    hide Numbered, LinksMatch, QueueOk;
  }

  lemma WalkingParts(fs: Fs, w: Walk, queue: seq<nat>, busy: set<nat>)
    requires Numbered(fs) && Walking(fs, w, queue, busy)
    ensures NodesMatch(fs, w) && WellFormed(w.nodes) && |w.from| == |w.nodes| && |w.nodes| > 0
    ensures LinksMatch(fs, w) && QueueOk(fs, w, queue, busy)
  {
    hide Numbered, LinksMatch, QueueOk, NodeMatch;
  }

  // ---- Paths agree ----

  lemma {:induction false} SamePlace(fs: Fs, w: Walk, j: nat)
    requires Numbered(fs) && NodesMatch(fs, w) && j < |w.nodes|
    ensures w.from[j] < |fs.nodes| && Attached(w.nodes, j) && PathOf(w.nodes, j) == PathOf(fs.nodes, w.from[j])
    decreases j
  {
    assert NodeMatch(fs, w, j);
    hide Numbered, KidsOk, Distinct, NumbersDiffer;
    if j > 0 {
      SamePlace(fs, w, w.nodes[j].parent.value);
    }
  }

  lemma ReaderUnique(fs: Fs, w: Walk)
    requires Numbered(fs) && NodesMatch(fs, w)
    ensures UniqueNames(w.nodes)
  {
    Shaped(fs);
    forall p | 0 <= p < |w.nodes| ensures KidsUnique(w.nodes, p) {
      assert KidsOk(w.nodes, p);
      var kids := w.nodes[p].children;
      forall j, k | 0 <= j < k < |kids| ensures w.nodes[kids[j]].name != w.nodes[kids[k]].name {
        NamesDiffer(fs, w, p, kids[j], kids[k]);
      }
    }
  }

  lemma NamesDiffer(fs: Fs, w: Walk, p: nat, a: nat, b: nat)
    requires Numbered(fs) && NodesMatch(fs, w) && 0 < a < |w.nodes| && 0 < b < |w.nodes| && a != b
    requires w.nodes[a].parent == Some(p) && w.nodes[b].parent == Some(p)
    ensures w.nodes[a].name != w.nodes[b].name
  {
    assert NodeMatch(fs, w, a) && NodeMatch(fs, w, b);
    var i, k := w.from[a], w.from[b];
    assert i != k;
    Shaped(fs);
    hide Numbered, NumbersDiffer;
    SiblingsDiffer(fs.nodes, i, k);
  }

  lemma SiblingsDiffer(nodes: Nodes, i: nat, k: nat)
    requires WellFormed(nodes) && UniqueNames(nodes) && 0 < i < |nodes| && 0 < k < |nodes| && i != k
    requires Attached(nodes, i) && Attached(nodes, k) && nodes[i].parent == nodes[k].parent
    ensures nodes[i].name != nodes[k].name
  {
    var p := nodes[i].parent.value;
    assert KidsUnique(nodes, p) && KidsOk(nodes, p);
    var kids := nodes[p].children;
    assert i in kids && k in kids;
    var x :| 0 <= x < |kids| && kids[x] == i;
    var y :| 0 <= y < |kids| && kids[y] == k;
    if x < y {
      assert nodes[kids[x]].name != nodes[kids[y]].name;
    } else {
      assert nodes[kids[y]].name != nodes[kids[x]].name;
    }
  }

  // ---- One entry at a time ----

  /** The walk with name `c` added below reader node `p`. */
  function WithNode(w: Walk, p: nat, node: Node, c: nat): Walk
    requires p < |w.nodes|
  {
    w.(nodes := WithChild(w.nodes, p, node), from := w.from + [c])
  }

  lemma NumbersGrow(nodes: Nodes, p: nat, node: Node)
    requires p < |nodes|
    ensures Numbers(WithChild(nodes, p, node)) == Numbers(nodes) + {node.inode}
  {
    var a, b := WithChild(nodes, p, node), Numbers(nodes) + {node.inode};
    assert a[|nodes|].inode == node.inode;
    assert forall j :: 0 <= j < |nodes| ==> a[j].inode == nodes[j].inode;
    forall x ensures x in Numbers(a) <==> x in b {
    }
  }

  lemma AddedMatch(fs: Fs, w: Walk, p: nat, node: Node, c: nat, j: nat)
    requires Numbered(fs) && NodesMatch(fs, w) && p < |w.nodes| && j < |w.nodes| && node.children == []
    requires WellFormed(WithChild(w.nodes, p, node))
    ensures NodeMatch(fs, WithNode(w, p, node, c), j)
  {
    assert NodeMatch(fs, w, j);
    hide Numbered, Attached, KidsOk, Distinct, NumbersDiffer;
  }

  lemma NewMatch(fs: Fs, w: Walk, p: nat, node: Node, c: nat)
    requires Numbered(fs) && NodesMatch(fs, w) && p < |w.nodes| && node.children == []
    requires WellFormed(WithChild(w.nodes, p, node))
    requires 0 < c < |fs.nodes| && Attached(fs.nodes, c) && fs.nodes[c].parent == Some(w.from[p])
    requires node.name == fs.nodes[c].name && node.inode == Target(fs.nodes[c])
    ensures NodeMatch(fs, WithNode(w, p, node, c), |w.nodes|)
  {
    hide Numbered, Attached, KidsOk, Distinct, NumbersDiffer;
  }

  lemma NumbersStayDifferent(nodes: Nodes, p: nat, node: Node)
    requires p < |nodes| && NumbersDiffer(nodes) && node.inode !in Numbers(nodes)
    ensures NumbersDiffer(WithChild(nodes, p, node))
  {
    var a := WithChild(nodes, p, node);
    forall j, k | 0 <= j < k < |a| ensures a[j].inode != a[k].inode {
      assert nodes[j].inode in Numbers(nodes);
    }
  }

  lemma AddNodesMatch(fs: Fs, w: Walk, p: nat, node: Node, c: nat)
    requires Numbered(fs) && NodesMatch(fs, w) && p < |w.nodes| && node.children == [] && c !in w.from
    requires 0 < c < |fs.nodes| && Attached(fs.nodes, c) && fs.nodes[c].parent == Some(w.from[p])
    requires node.name == fs.nodes[c].name && node.inode == Target(fs.nodes[c]) && node.inode !in Numbers(w.nodes)
    ensures NodesMatch(fs, WithNode(w, p, node, c))
  {
    AddKeepsWellFormed(w.nodes, p, node);
    NumbersStayDifferent(w.nodes, p, node);
    DistinctConcat(w.from, [c]);
    var w' := WithNode(w, p, node, c);
    hide Numbered, NodeMatch, WellFormed, NumbersDiffer, Distinct, WithChild, Attached;
    forall j | 0 <= j < |w'.nodes| ensures NodeMatch(fs, w', j) {
      if j < |w.nodes| {
        AddedMatch(fs, w, p, node, c, j);
      } else {
        NewMatch(fs, w, p, node, c);
      }
    }
  }

  lemma AddLinksMatch(fs: Fs, w: Walk, p: nat, node: Node, c: nat)
    requires Numbered(fs) && LinksMatch(fs, w) && p < |w.nodes| && c !in w.linked
    ensures LinksMatch(fs, WithNode(w, p, node, c))
  {
    var w' := WithNode(w, p, node, c);
    NumbersGrow(w.nodes, p, node);
    hide Numbered, Attached, WithChild, Numbers, PathOf;
    forall i | i in w'.linked ensures LinkMatch(fs, w', i) {
      assert LinkMatch(fs, w, i);
    }
    forall q | q in w'.links ensures exists i :: i in w'.linked && i < |fs.nodes| && PathOf(fs.nodes, i) == q {
      var i :| i in w.linked && i < |fs.nodes| && PathOf(fs.nodes, i) == q;
    }
  }

  lemma StillWaiting(fs: Fs, w: Walk, p: nat, node: Node, c: nat, j: nat)
    requires Numbered(fs) && |w.from| == |w.nodes| && p < |w.nodes| && j != p && Waiting(fs, w, j)
    ensures Waiting(fs, WithNode(w, p, node, c), j)
  {
    hide Numbered, IsOwnDir;
  }

  lemma StillExpanded(fs: Fs, w: Walk, p: nat, node: Node, c: nat, j: nat)
    requires Numbered(fs) && |w.from| == |w.nodes| && p < |w.nodes| && j < |w.nodes| && Expanded(fs, w, j)
    ensures Expanded(fs, WithNode(w, p, node, c), j)
  {
    hide Numbered;
  }

  lemma QueueFacts(fs: Fs, w: Walk, queue: seq<nat>, busy: set<nat>)
    requires Numbered(fs) && |w.from| == |w.nodes| && QueueOk(fs, w, queue, busy)
    ensures Distinct(queue) && forall k :: 0 <= k < |queue| ==> queue[k] < |w.nodes| && Waiting(fs, w, queue[k])
  {
    hide Numbered, IsOwnDir, Expanded;
    forall k | 0 <= k < |queue| ensures queue[k] < |w.nodes| {
      assert Waiting(fs, w, queue[k]);
    }
  }

  lemma NewWaits(fs: Fs, w: Walk, p: nat, node: Node, c: nat)
    requires Numbered(fs) && |w.from| == |w.nodes| && p < |w.nodes| && node.children == [] && c < |fs.nodes| && IsOwnDir(fs, c)
    requires forall i :: i in w.linked && i < |fs.nodes| ==> fs.nodes[i].parent != Some(c)
    ensures Waiting(fs, WithNode(w, p, node, c), |w.nodes|)
  {
    hide Numbered, IsOwnDir;
  }

  lemma ExpandedAt(fs: Fs, w: Walk, queue: seq<nat>, busy: set<nat>, j: nat)
    requires Numbered(fs) && |w.from| == |w.nodes| && QueueOk(fs, w, queue, busy)
    requires j < |w.nodes| && IsOwnDir(fs, w.from[j]) && j !in queue && j !in busy
    ensures Expanded(fs, w, j)
  {
    hide Numbered, IsOwnDir, Expanded;
  }

  /** The queue after the new node, if it is a directory, has joined it. */
  function Joined(fs: Fs, w: Walk, c: nat, queue: seq<nat>): seq<nat>
    requires Numbered(fs)
  {
    if IsOwnDir(fs, c) then queue + [|w.nodes|] else queue
  }

  lemma JoinedFacts(fs: Fs, w: Walk, c: nat, queue: seq<nat>)
    requires Numbered(fs) && Distinct(queue) && forall k :: 0 <= k < |queue| ==> queue[k] < |w.nodes|
    ensures var q := Joined(fs, w, c, queue);
      && Distinct(q) && (forall x :: x in q <==> x in queue || (IsOwnDir(fs, c) && x == |w.nodes|))
  {
    hide Numbered, IsOwnDir;
    var q := Joined(fs, w, c, queue);
    if IsOwnDir(fs, c) {
      DistinctConcat(queue, [|w.nodes|]);
    }
  }

  lemma AddQueueOk(fs: Fs, w: Walk, p: nat, node: Node, c: nat, queue: seq<nat>)
    requires Numbered(fs) && |w.from| == |w.nodes| && p < |w.nodes| && node.children == [] && p !in queue
    requires QueueOk(fs, w, queue, {p}) && c < |fs.nodes|
    requires forall i :: i in w.linked && i < |fs.nodes| ==> fs.nodes[i].parent != Some(c)
    ensures QueueOk(fs, WithNode(w, p, node, c), Joined(fs, w, c, queue), {p})
  {
    var w', queue' := WithNode(w, p, node, c), Joined(fs, w, c, queue);
    assert |w'.nodes| == |w.nodes| + 1 && w'.from == w.from + [c];
    hide Numbered, IsOwnDir, Expanded, Waiting, QueueOk, WithNode, Distinct, Joined;
    QueueFacts(fs, w, queue, {p});
    JoinedFacts(fs, w, c, queue);
    forall k | 0 <= k < |queue'| ensures Waiting(fs, w', queue'[k]) {
      assert queue'[k] in queue';
      if queue'[k] in queue {
        var x :| 0 <= x < |queue| && queue[x] == queue'[k];
        StillWaiting(fs, w, p, node, c, queue[x]);
      } else {
        NewWaits(fs, w, p, node, c);
      }
    }
    forall j | 0 <= j < |w'.nodes| && IsOwnDir(fs, w'.from[j]) && j !in queue' && j !in {p} ensures Expanded(fs, w', j) {
      if j < |w.nodes| {
        ExpandedAt(fs, w, queue, {p}, j);
        StillExpanded(fs, w, p, node, c, j);
      }
    }
    QueueIs(fs, w', queue', {p});
  }

  lemma QueueIs(fs: Fs, w: Walk, queue: seq<nat>, busy: set<nat>)
    requires Numbered(fs) && |w.from| == |w.nodes| && Distinct(queue)
    requires forall k :: 0 <= k < |queue| ==> Waiting(fs, w, queue[k])
    requires forall j :: 0 <= j < |w.nodes| && IsOwnDir(fs, w.from[j]) && j !in queue && j !in busy ==> Expanded(fs, w, j)
    ensures QueueOk(fs, w, queue, busy)
  {
    hide Numbered, IsOwnDir, Expanded, Waiting, Distinct;
  }

  lemma NoLinkBelow(fs: Fs, w: Walk, c: nat)
    requires Numbered(fs) && LinksMatch(fs, w) && c !in w.from
    ensures forall i :: i in w.linked && i < |fs.nodes| ==> fs.nodes[i].parent != Some(c)
  {
    hide Numbered, Attached, PathOf, Numbers;
    forall i | i in w.linked && i < |fs.nodes| ensures fs.nodes[i].parent != Some(c) {
      assert LinkMatch(fs, w, i);
    }
  }

  /** A name whose inode is new becomes a node. */
  lemma NodeStep(fs: Fs, w: Walk, p: nat, node: Node, c: nat, queue: seq<nat>)
    requires Numbered(fs) && Walking(fs, w, queue, {p}) && p < |w.nodes| && p !in queue && !Covered(w, c)
    requires 0 < c < |fs.nodes| && Attached(fs.nodes, c) && p < |w.from| && fs.nodes[c].parent == Some(w.from[p])
    requires node.children == [] && node.name == fs.nodes[c].name && node.inode == Target(fs.nodes[c])
    requires node.inode !in Numbers(w.nodes)
    ensures Walking(fs, WithNode(w, p, node, c), Joined(fs, w, c, queue), {p})
    ensures Numbers(WithNode(w, p, node, c).nodes) == Numbers(w.nodes) + {node.inode}
  {
    hide *;
    WalkingParts(fs, w, queue, {p});
    NotCovered(w, c);
    NoLinkBelow(fs, w, c);
    AddNodesMatch(fs, w, p, node, c);
    AddLinksMatch(fs, w, p, node, c);
    AddQueueOk(fs, w, p, node, c, queue);
    NumbersGrow(w.nodes, p, node);
    WithNodeIs(w, p, node, c);
    WalkingIs(fs, WithNode(w, p, node, c), Joined(fs, w, c, queue), {p});
  }

  lemma NotCovered(w: Walk, c: nat)
    ensures !Covered(w, c) <==> c !in w.from && c !in w.linked
  {
  }

  lemma WithNodeIs(w: Walk, p: nat, node: Node, c: nat)
    requires p < |w.nodes|
    ensures var w' := WithNode(w, p, node, c);
      && w'.nodes == WithChild(w.nodes, p, node) && w'.links == w.links && w'.from == w.from + [c] && w'.linked == w.linked
      && |w'.nodes| == |w.nodes| + 1 && |w'.from| == |w.from| + 1
  {
  }

  /** The walk with name `c` recorded as a hard link to inode `n`. */
  function WithLink(w: Walk, path: Path, n: nat, c: nat): Walk {
    w.(links := w.links[path := n], linked := w.linked + {c})
  }

  lemma PathsDiffer(fs: Fs, i: nat, k: nat)
    requires Numbered(fs) && i < |fs.nodes| && k < |fs.nodes| && i != k && Attached(fs.nodes, i) && Attached(fs.nodes, k)
    ensures PathOf(fs.nodes, i) != PathOf(fs.nodes, k)
  {
    Shaped(fs);
    hide Numbered;
    LookupOfPath(fs.nodes, i);
    LookupOfPath(fs.nodes, k);
  }

  lemma LinkLinksMatch(fs: Fs, w: Walk, c: nat)
    requires Numbered(fs) && LinksMatch(fs, w) && 0 < c < |fs.nodes| && Attached(fs.nodes, c)
    requires c !in w.from && c !in w.linked && fs.nodes[c].parent.value in w.from && Target(fs.nodes[c]) in Numbers(w.nodes)
    ensures LinksMatch(fs, WithLink(w, PathOf(fs.nodes, c), Target(fs.nodes[c]), c))
  {
    var w' := WithLink(w, PathOf(fs.nodes, c), Target(fs.nodes[c]), c);
    hide Numbered, Attached, Numbers, PathOf;
    forall i | i in w'.linked ensures LinkMatch(fs, w', i) {
      if i != c {
        assert LinkMatch(fs, w, i);
        PathsDiffer(fs, i, c);
      }
    }
    forall q | q in w'.links ensures exists i :: i in w'.linked && i < |fs.nodes| && PathOf(fs.nodes, i) == q {
      if q == PathOf(fs.nodes, c) {
        assert c in w'.linked;
      } else {
        var i :| i in w.linked && i < |fs.nodes| && PathOf(fs.nodes, i) == q;
        assert i in w'.linked;
      }
    }
  }

  lemma LinkNodesMatch(fs: Fs, w: Walk, path: Path, n: nat, c: nat)
    requires Numbered(fs) && NodesMatch(fs, w)
    ensures NodesMatch(fs, WithLink(w, path, n, c))
  {
    var w' := WithLink(w, path, n, c);
    hide Numbered, WellFormed, Attached, Distinct, NumbersDiffer;
    forall j | 0 <= j < |w'.nodes| ensures NodeMatch(fs, w', j) {
      assert NodeMatch(fs, w, j);
    }
  }

  lemma LinkQueueOk(fs: Fs, w: Walk, p: nat, path: Path, n: nat, c: nat, queue: seq<nat>)
    requires Numbered(fs) && |w.from| == |w.nodes| && p < |w.nodes| && p !in queue && Distinct(w.from)
    requires QueueOk(fs, w, queue, {p}) && c < |fs.nodes| && fs.nodes[c].parent == Some(w.from[p])
    ensures QueueOk(fs, WithLink(w, path, n, c), queue, {p})
  {
    var w' := WithLink(w, path, n, c);
    assert w'.nodes == w.nodes && w'.from == w.from && w'.linked == w.linked + {c};
    hide Numbered, IsOwnDir, QueueOk, WithLink;
    QueueFacts(fs, w, queue, {p});
    forall k | 0 <= k < |queue| ensures Waiting(fs, w', queue[k]) {
      assert queue[k] in queue;
    }
    forall j | 0 <= j < |w'.nodes| && IsOwnDir(fs, w'.from[j]) && j !in queue && j !in {p} ensures Expanded(fs, w', j) {
      ExpandedAt(fs, w, queue, {p}, j);
    }
    hide Waiting, Expanded;
    QueueIs(fs, w', queue, {p});
  }

  /** A name whose inode was met before becomes a hard link. */
  lemma LinkStep(fs: Fs, w: Walk, p: nat, c: nat, queue: seq<nat>)
    requires Numbered(fs) && Walking(fs, w, queue, {p}) && p < |w.nodes| && p !in queue && !Covered(w, c)
    requires 0 < c < |fs.nodes| && Attached(fs.nodes, c) && p < |w.from| && fs.nodes[c].parent == Some(w.from[p])
    requires Target(fs.nodes[c]) in Numbers(w.nodes)
    ensures WellFormed(fs.nodes) && Walking(fs, WithLink(w, PathOf(fs.nodes, c), Target(fs.nodes[c]), c), queue, {p})
  {
    hide *;
    Shaped(fs);
    WalkingParts(fs, w, queue, {p});
    DistinctFrom(fs, w);
    NotCovered(w, c);
    LinkNodesMatch(fs, w, PathOf(fs.nodes, c), Target(fs.nodes[c]), c);
    LinkLinksMatch(fs, w, c);
    LinkQueueOk(fs, w, p, PathOf(fs.nodes, c), Target(fs.nodes[c]), c, queue);
    WithLinkIs(w, PathOf(fs.nodes, c), Target(fs.nodes[c]), c);
    WalkingIs(fs, WithLink(w, PathOf(fs.nodes, c), Target(fs.nodes[c]), c), queue, {p});
  }

  lemma DistinctFrom(fs: Fs, w: Walk)
    requires Numbered(fs) && NodesMatch(fs, w)
    ensures Distinct(w.from)
  {
  }

  lemma WithLinkIs(w: Walk, path: Path, n: nat, c: nat)
    ensures var w' := WithLink(w, path, n, c);
      w'.nodes == w.nodes && w'.from == w.from && w'.links == w.links[path := n] && w'.linked == w.linked + {c}
  {
  }

  // ---- The entries of one directory ----

  lemma NamedNext(es: seq<Found>, k: nat, name: Name)
    requires k < |es|
    ensures Named(es, k + 1, name) <==> Named(es, k, name) || es[k].name == name
  {
  }

  /** Entry `k` covers exactly the child of its name. */
  lemma PartlyNext(fs: Fs, w: Walk, w': Walk, p: nat, es: seq<Found>, k: nat, c: nat)
    requires Numbered(fs) && p < |w.from| && p < |w'.from| && w'.from[p] == w.from[p] && k < |es| && Partly(fs, w, p, es, k)
    requires forall i :: Covered(w', i) <==> Covered(w, i) || i == c
    requires c < |fs.nodes| && c in fs.nodes[w.from[p]].children && es[k].name == fs.nodes[c].name
    ensures Partly(fs, w', p, es, k + 1)
  {
    Shaped(fs);
    var d := w.from[p];
    hide Numbered, Named, Covered;
    forall x | x in fs.nodes[d].children && x < |fs.nodes| ensures Covered(w', x) <==> Named(es, k + 1, fs.nodes[x].name) {
      NamedNext(es, k, fs.nodes[x].name);
      if x != c {
        KidNamesDiffer(fs.nodes, d, x, c);
      }
    }
  }

  lemma KidNamesDiffer(nodes: Nodes, d: nat, x: nat, c: nat)
    requires WellFormed(nodes) && UniqueNames(nodes) && d < |nodes| && x in nodes[d].children && c in nodes[d].children && x != c
    ensures x < |nodes| && c < |nodes| && nodes[x].name != nodes[c].name
  {
    assert KidsUnique(nodes, d) && KidsOk(nodes, d);
    var kids := nodes[d].children;
    var a :| 0 <= a < |kids| && kids[a] == x;
    var b :| 0 <= b < |kids| && kids[b] == c;
    if a < b {
      assert nodes[kids[a]].name != nodes[kids[b]].name;
    } else {
      assert nodes[kids[b]].name != nodes[kids[a]].name;
    }
  }

  /** A "." or ".." entry covers nothing. */
  lemma PartlyDots(fs: Fs, w: Walk, p: nat, es: seq<Found>, k: nat)
    requires Numbered(fs) && Listable(fs) && p < |w.from| && k < |es| && Partly(fs, w, p, es, k)
    requires es[k].name == DOT || es[k].name == DOTDOT
    ensures Partly(fs, w, p, es, k + 1)
  {
    Shaped(fs);
    var d := w.from[p];
    assert KidsOk(fs.nodes, d);
    hide Numbered, Named, Covered;
    forall x | x in fs.nodes[d].children && x < |fs.nodes| ensures Covered(w, x) <==> Named(es, k + 1, fs.nodes[x].name) {
      NamedNext(es, k, fs.nodes[x].name);
      assert ValidName(fs.nodes[x].name);
    }
  }

  /** Nothing below a directory that has just been taken from the queue is met. */
  lemma PartlyStarts(fs: Fs, w: Walk, p: nat, es: seq<Found>)
    requires Numbered(fs) && NodesMatch(fs, w) && LinksMatch(fs, w) && p < |w.from| && Waiting(fs, w, p)
    ensures Partly(fs, w, p, es, 0)
  {
    Shaped(fs);
    OwnDirIs(fs, w.from[p]);
    var d := w.from[p];
    assert KidsOk(fs.nodes, d);
    forall c | c in fs.nodes[d].children && c < |fs.nodes| ensures !Covered(w, c) {
      assert fs.nodes[c].parent == Some(d) && c > 0;
      NotFoundYet(fs, w, p, c);
    }
  }

  lemma NotFoundYet(fs: Fs, w: Walk, p: nat, c: nat)
    requires Numbered(fs) && NodesMatch(fs, w) && p < |w.from| && Waiting(fs, w, p)
    requires 0 < c < |fs.nodes| && fs.nodes[c].parent == Some(w.from[p])
    ensures c !in w.from && c !in w.linked
  {
    hide Numbered, IsOwnDir, Attached, NumbersDiffer;
    forall j | 0 <= j < |w.from| ensures w.from[j] != c {
      assert NodeMatch(fs, w, j);
    }
  }

  lemma {:induction false} Once<T>(a: seq<T>, x: T)
    requires forall i, j :: 0 <= i < j < |a| ==> a[i] != a[j]
    ensures multiset(a)[x] <= 1
  {
    if a != [] {
      var n := |a| - 1;
      assert a == a[..n] + [a[n]];
      Once(a[..n], x);
      if a[n] == x {
        assert x !in a[..n];
      }
    }
  }

  lemma Twice<T>(b: seq<T>, i: nat, j: nat)
    requires i < j < |b| && b[i] == b[j]
    ensures multiset(b)[b[i]] >= 2
  {
    assert b == b[..j] + ([b[j]] + b[j + 1..]);
    assert b[..j][i] == b[i];
    assert b[i] in multiset(b[..j]);
  }

  /** A permutation of distinct members has distinct members. */
  lemma PermutedDistinct<T>(a: seq<T>, b: seq<T>)
    requires multiset(a) == multiset(b) && forall i, j :: 0 <= i < j < |a| ==> a[i] != a[j]
    ensures forall i, j :: 0 <= i < j < |b| ==> b[i] != b[j]
  {
    forall i, j | 0 <= i < j < |b| ensures b[i] != b[j] {
      if b[i] == b[j] {
        Once(a, b[i]);
        Twice(b, i, j);
      }
    }
  }

  /** What the reader is told about directory `i`. */
  predicate ListedAs(fs: Fs, i: nat, es: seq<Found>)
    requires Numbered(fs) && i < |fs.nodes|
  {
    es == SortByName(SeenAll(DirList(fs, i)))
  }

  lemma SourceOf(fs: Fs, i: nat, es: seq<Found>, k: nat) returns (m: nat)
    requires Numbered(fs) && i < |fs.nodes| && ListedAs(fs, i, es) && k < |es|
    ensures m < |DirList(fs, i)| && es[k] == DirList(fs, i)[m].Seen()
  {
    var seen := SeenAll(DirList(fs, i));
    SortByNameMembers(seen);
    hide Numbered, DirList, SortByName;
    assert es[k] in multiset(es);
    m :| 0 <= m < |seen| && seen[m] == es[k];
  }

  lemma ListParts(fs: Fs, i: nat, m: nat)
    requires Numbered(fs) && Listable(fs) && i < |fs.nodes| && m < |DirList(fs, i)|
    ensures |DirList(fs, i)| == 2 + |SortedKids(fs, i)|
    ensures m == 0 ==> DirList(fs, i)[m].name == DOT
    ensures m == 1 ==> DirList(fs, i)[m].name == DOTDOT
    ensures m >= 2 ==>
      var c := SortedKids(fs, i)[m - 2];
      && i < c < |fs.nodes| && c in fs.nodes[i].children && fs.nodes[c].parent == Some(i) && ValidName(fs.nodes[c].name)
      && DirList(fs, i)[m].Seen() == Found(fs.nodes[c].name, Target(fs.nodes[c]))
  {
    hide *;
    DotsAre(fs, i);
    ListingPart(fs, i, 0);
    if m < 2 {
      assert DirList(fs, i)[m] == DirList(fs, i)[..2][m];
    } else {
      ListingPart(fs, i, m - 2);
      assert DirList(fs, i)[m] == DirList(fs, i)[..m + 1][m];
      SortedKidsAreKids(fs, i);
      KidFacts(fs, i, SortedKids(fs, i)[m - 2]);
      SeenIs(DirList(fs, i)[m]);
    }
  }

  lemma KidFacts(fs: Fs, i: nat, c: nat)
    requires Numbered(fs) && Listable(fs) && i < |fs.nodes| && c in fs.nodes[i].children
    ensures i < c < |fs.nodes| && fs.nodes[c].parent == Some(i) && ValidName(fs.nodes[c].name)
    ensures ChildEntry(fs, c) == Entry(fs.nodes[c].name, Target(fs.nodes[c]), TargetInode(fs, c).mode)
  {
    assert KidsOk(fs.nodes, i);
    hide ValidName, NumberedNode, NumberedInode;
  }

  /** An entry other than "." and ".." is the name of a child. */
  lemma EntryIsChild(fs: Fs, i: nat, es: seq<Found>, k: nat) returns (c: nat)
    requires Numbered(fs) && Listable(fs) && i < |fs.nodes| && ListedAs(fs, i, es) && k < |es|
    requires es[k].name != DOT && es[k].name != DOTDOT
    ensures i < c < |fs.nodes| && c in fs.nodes[i].children && fs.nodes[c].parent == Some(i)
    ensures es[k] == Found(fs.nodes[c].name, Target(fs.nodes[c]))
  {
    hide *;
    var m := SourceOf(fs, i, es, k);
    ListParts(fs, i, m);
    SeenIs(DirList(fs, i)[m]);
    c := SortedKids(fs, i)[m - 2];
  }

  lemma SeenIs(e: Entry)
    ensures e.Seen() == Found(e.name, e.inode)
  {
  }

  lemma SeenNames(fs: Fs, i: nat, a: nat, b: nat)
    requires Numbered(fs) && Listable(fs) && i < |fs.nodes| && a < b < |DirList(fs, i)|
    ensures DirList(fs, i)[a].Seen().name != DirList(fs, i)[b].Seen().name
  {
    hide *;
    Shaped(fs);
    ListParts(fs, i, a);
    ListParts(fs, i, b);
    SeenIs(DirList(fs, i)[a]);
    SeenIs(DirList(fs, i)[b]);
    DotsDiffer();
    if b >= 2 {
      ValidIsNoDot(fs.nodes[SortedKids(fs, i)[b - 2]].name);
    }
    if a >= 2 {
      SortedKidsDistinct(fs, i);
      KidNamesDiffer(fs.nodes, i, SortedKids(fs, i)[a - 2], SortedKids(fs, i)[b - 2]);
    }
  }

  lemma DotsDiffer()
    ensures DOT != DOTDOT
  {
    assert |DOT| == 1 && |DOTDOT| == 2;
  }

  lemma ValidIsNoDot(name: Name)
    requires ValidName(name)
    ensures name != DOT && name != DOTDOT
  {
  }

  lemma SortedKidsDistinct(fs: Fs, i: nat)
    requires Numbered(fs) && i < |fs.nodes|
    ensures forall a, b :: 0 <= a < b < |SortedKids(fs, i)| ==> SortedKids(fs, i)[a] != SortedKids(fs, i)[b]
  {
    assert KidsOk(fs.nodes, i);
    SortedKidsAreKids(fs, i);
    hide Numbered, SortedKids;
    PermutedDistinct(fs.nodes[i].children, SortedKids(fs, i));
  }

  /** No name is listed twice. */
  lemma EntryOnce(fs: Fs, i: nat, es: seq<Found>, j: nat, k: nat)
    requires Numbered(fs) && Listable(fs) && i < |fs.nodes| && ListedAs(fs, i, es) && j < k < |es|
    ensures es[j].name != es[k].name
  {
    var seen := SeenAll(DirList(fs, i));
    SortByNameMembers(seen);
    forall a, b | 0 <= a < b < |seen| ensures seen[a].name != seen[b].name {
      SeenNames(fs, i, a, b);
    }
    hide Numbered, Listable, DirList, SeenAll, SortByName;
    PermutedDistinct(seen, es);
    assert es[j] in multiset(es) && es[k] in multiset(es);
    var a :| 0 <= a < |seen| && seen[a] == es[j];
    var b :| 0 <= b < |seen| && seen[b] == es[k];
    assert a != b;
    assert seen[Min(a, b)].name != seen[Max(a, b)].name;
  }

  /** Every child is listed. */
  lemma ChildListed(fs: Fs, i: nat, es: seq<Found>, c: nat)
    requires Numbered(fs) && Listable(fs) && i < |fs.nodes| && ListedAs(fs, i, es) && c in fs.nodes[i].children
    ensures c < |fs.nodes| && Named(es, |es|, fs.nodes[c].name)
  {
    SortedKidsAreKids(fs, i);
    var kids, seen := SortedKids(fs, i), SeenAll(DirList(fs, i));
    assert c in multiset(kids);
    var m :| 0 <= m < |kids| && kids[m] == c;
    ListingPart(fs, i, 0);
    ListParts(fs, i, m + 2);
    SortByNameMembers(seen);
    hide Numbered, Listable, DirList, SortedKids, SortByName;
    assert seen[m + 2] == Found(fs.nodes[c].name, Target(fs.nodes[c]));
    assert seen[m + 2] in multiset(es);
    var k :| 0 <= k < |es| && es[k] == seen[m + 2];
  }

  /** The end of a directory's listing: everything below it has been met. */
  lemma DirFinished(fs: Fs, w: Walk, p: nat, es: seq<Found>, queue: seq<nat>)
    requires Numbered(fs) && Listable(fs) && Walking(fs, w, queue, {p}) && p < |w.from| && p < |w.nodes|
    requires w.from[p] < |fs.nodes| && ListedAs(fs, w.from[p], es) && Partly(fs, w, p, es, |es|)
    ensures Walking(fs, w, queue, {})
  {
    hide *;
    WalkingParts(fs, w, queue, {p});
    forall c | c in fs.nodes[w.from[p]].children ensures Covered(w, c) {
      ChildListed(fs, w.from[p], es, c);
      PartlyAt(fs, w, p, es, |es|, c);
    }
    ExpandedIs(fs, w, p);
    forall j | 0 <= j < |w.nodes| && IsOwnDir(fs, w.from[j]) && j !in queue && j !in {} ensures Expanded(fs, w, j) {
      if j != p {
        ExpandedAt(fs, w, queue, {p}, j);
      }
    }
    QueueFacts(fs, w, queue, {p});
    QueueIs(fs, w, queue, {});
    WalkingIs(fs, w, queue, {});
  }

  lemma PartlyAt(fs: Fs, w: Walk, p: nat, es: seq<Found>, k: nat, c: nat)
    requires Numbered(fs) && p < |w.from| && k <= |es| && Partly(fs, w, p, es, k)
    requires c < |fs.nodes| && w.from[p] < |fs.nodes| && c in fs.nodes[w.from[p]].children
    ensures Covered(w, c) <==> Named(es, k, fs.nodes[c].name)
  {
    hide Numbered, Named, Covered;
  }

  lemma ExpandedIs(fs: Fs, w: Walk, p: nat)
    requires Numbered(fs) && |w.from| == |w.nodes| && p < |w.nodes| && w.from[p] < |fs.nodes|
    requires forall c :: c in fs.nodes[w.from[p]].children ==> Covered(w, c)
    ensures Expanded(fs, w, p)
  {
  }

  /** Taking the last directory from the queue. */
  lemma Taken(fs: Fs, w: Walk, queue: seq<nat>)
    requires Numbered(fs) && Walking(fs, w, queue, {}) && queue != []
    ensures var p, rest := queue[|queue| - 1], queue[..|queue| - 1];
      && p < |w.nodes| == |w.from| && p !in rest && Waiting(fs, w, p) && Walking(fs, w, rest, {p})
      && w.from[p] < |fs.nodes| && Attached(fs.nodes, w.from[p]) && IsOwnDir(fs, w.from[p])
  {
    var p, rest := queue[|queue| - 1], queue[..|queue| - 1];
    hide *;
    WalkingParts(fs, w, queue, {});
    QueueFacts(fs, w, queue, {});
    DistinctFront(queue);
    forall j | 0 <= j < |w.nodes| && IsOwnDir(fs, w.from[j]) && j !in rest && j !in {p} ensures Expanded(fs, w, j) {
      FrontOrLast(queue, j);
      ExpandedAt(fs, w, queue, {}, j);
    }
    QueueIs(fs, w, rest, {p});
    WalkingIs(fs, w, rest, {p});
    WaitingIs(fs, w, p);
    MatchAt(fs, w, p);
  }

  lemma DistinctFront(queue: seq<nat>)
    requires Distinct(queue) && queue != []
    ensures Distinct(queue[..|queue| - 1]) && queue[|queue| - 1] !in queue[..|queue| - 1]
  {
  }

  lemma FrontOrLast(queue: seq<nat>, j: nat)
    requires queue != []
    ensures j in queue <==> j in queue[..|queue| - 1] || j == queue[|queue| - 1]
  {
    assert queue == queue[..|queue| - 1] + [queue[|queue| - 1]];
  }

  lemma WaitingIs(fs: Fs, w: Walk, p: nat)
    requires Numbered(fs) && |w.from| == |w.nodes| && Waiting(fs, w, p)
    ensures p < |w.nodes| && IsOwnDir(fs, w.from[p])
  {
    hide Numbered, IsOwnDir;
  }

  lemma MatchAt(fs: Fs, w: Walk, j: nat)
    requires Numbered(fs) && NodesMatch(fs, w) && j < |w.nodes|
    ensures j < |w.from| && w.from[j] < |fs.nodes| && Attached(fs.nodes, w.from[j])
    ensures w.nodes[j].inode == if j == 0 then ROOT_INODE else Target(fs.nodes[w.from[j]])
    ensures j == 0 <==> w.from[j] == 0
  {
    assert NodeMatch(fs, w, j);
    hide Numbered, Distinct, NumbersDiffer, Attached;
  }

  // ---- Directories have one name ----

  lemma NumberAt(fs: Fs, w: Walk, n: nat) returns (j: nat)
    requires Numbered(fs) && NodesMatch(fs, w) && n in Numbers(w.nodes)
    ensures j < |w.nodes| == |w.from| && w.nodes[j].inode == n && w.from[j] < |fs.nodes| && Attached(fs.nodes, w.from[j])
    ensures if j == 0 then n == ROOT_INODE else n == Target(fs.nodes[w.from[j]]) && w.from[j] > 0
  {
    j :| 0 <= j < |w.nodes| && w.nodes[j].inode == n;
    MatchAt(fs, w, j);
  }

  /** A directory's number leads to no other attached name. */
  lemma OneName(fs: Fs, c: nat, i: nat)
    requires Inv(fs, 0) && Numbered(fs) && IsOwnDir(fs, c) && 0 < c && 0 < i < |fs.nodes| && Attached(fs.nodes, i)
    requires c < |fs.nodes| && Target(fs.nodes[i]) == Target(fs.nodes[c])
    ensures i == c
  {
    NumbersOf(fs, i);
    NumbersOf(fs, c);
    OwnDirIs(fs, c);
    hide Numbered, Counts, Ownership, IsDirMode, Attached;
    assert KindOk(fs, i);
    if i != c {
      OwnNumbersDiffer(fs, i, c);
    }
  }

  /** The number of a directory not met yet is new. */
  lemma DirIsNew(fs: Fs, w: Walk, c: nat)
    requires Inv(fs, 0) && Numbered(fs) && NodesMatch(fs, w) && 0 < c < |fs.nodes| && IsOwnDir(fs, c) && c !in w.from
    ensures Target(fs.nodes[c]) !in Numbers(w.nodes)
  {
    hide *;
    if Target(fs.nodes[c]) in Numbers(w.nodes) {
      var j := NumberAt(fs, w, Target(fs.nodes[c]));
      TargetIsHandedOut(fs, c);
      RootNumber();
      OneName(fs, c, w.from[j]);
      assert false;
    }
  }

  lemma RootNumber()
    ensures ROOT_INODE == 2 && RESERVED == 10
  {
  }

  // ---- The end ----

  lemma DirIsNode(fs: Fs, w: Walk, i: nat)
    requires Inv(fs, 0) && Numbered(fs) && NodesMatch(fs, w) && LinksMatch(fs, w) && i < |fs.nodes|
    requires Covered(w, i) && IsOwnDir(fs, i)
    ensures i in w.from
  {
    if i !in w.from {
      assert LinkMatch(fs, w, i);
      hide *;
      DirIsNew(fs, w, i);
      assert false;
    }
  }

  /** With nothing waiting, every attached name has been met. */
  lemma {:induction false} AllMet(fs: Fs, w: Walk, i: nat)
    requires Inv(fs, 0) && Numbered(fs) && Plain(fs) && Walking(fs, w, [], {}) && i < |fs.nodes| && Attached(fs.nodes, i)
    ensures Covered(w, i)
    decreases i
  {
    hide *;
    Shaped(fs);
    WalkingParts(fs, w, [], {});
    if i == 0 {
      RootMet(fs, w);
    } else {
      ParentOfAttached(fs, i);
      var p := fs.nodes[i].parent.value;
      AllMet(fs, w, p);
      DirIsNode(fs, w, p);
      var j :| 0 <= j < |w.from| && w.from[j] == p;
      ExpandedAt(fs, w, [], {}, j);
      ExpandedChild(fs, w, j, i);
    }
  }

  lemma RootMet(fs: Fs, w: Walk)
    requires Numbered(fs) && NodesMatch(fs, w) && |w.nodes| > 0
    ensures Covered(w, 0)
  {
    MatchAt(fs, w, 0);
    assert w.from[0] == 0;
  }

  lemma ParentOfAttached(fs: Fs, i: nat)
    requires Inv(fs, 0) && Numbered(fs) && Plain(fs) && 0 < i < |fs.nodes| && Attached(fs.nodes, i)
    ensures fs.nodes[i].parent.Some? && fs.nodes[i].parent.value < i
    ensures var p := fs.nodes[i].parent.value;
      Attached(fs.nodes, p) && IsOwnDir(fs, p) && i in fs.nodes[p].children
  {
    var p := fs.nodes[i].parent.value;
    assert KindOk(fs, p);
    hide Counts, Ownership, IsDirMode, UniqueNames, NumberedNode, NumberedInode;
  }

  lemma ExpandedChild(fs: Fs, w: Walk, j: nat, c: nat)
    requires Numbered(fs) && |w.from| == |w.nodes| && j < |w.nodes| && Expanded(fs, w, j) && w.from[j] < |fs.nodes|
    requires c in fs.nodes[w.from[j]].children
    ensures Covered(w, c)
  {
  }

  /** The name at path `q` is found again: as a node of the tree for the first
      name met of an inode, as a recorded hard link for any other. */
  ghost predicate NameRecovered(fs: Fs, nodes: Nodes, links: map<Path, nat>, q: Path)
    requires WellFormed(fs.nodes) && WellFormed(nodes)
  {
    var f, g := Find(fs.nodes, 0, q), Find(nodes, 0, q);
    if f.None? then g.None? && q !in links
    else if g.Some? then nodes[g.value].inode == Target(fs.nodes[f.value]) && q !in links
    else q in links && links[q] == Target(fs.nodes[f.value])
  }

  /** The reader's tree and hard links together hold exactly the names of `fs`,
      each with its inode number; every inode has one node in the tree. */
  ghost predicate Recovered(fs: Fs, nodes: Nodes, links: map<Path, nat>)
    requires WellFormed(fs.nodes)
  {
    && WellFormed(nodes) && UniqueNames(nodes) && NumbersDiffer(nodes)
    && (forall q: Path :: NameRecovered(fs, nodes, links, q))
    && (forall i :: 0 < i < |fs.nodes| && Attached(fs.nodes, i) ==> Target(fs.nodes[i]) in Numbers(nodes))
  }

  lemma FromAttached(fs: Fs, w: Walk, q: Path)
    requires Numbered(fs) && NodesMatch(fs, w) && WellFormed(w.nodes) && UniqueNames(w.nodes)
    ensures match Find(w.nodes, 0, q)
            case None => true
            case Some(j) => j < |w.from| && w.from[j] < |fs.nodes| && Find(fs.nodes, 0, q) == Some(w.from[j])
  {
    var g := Find(w.nodes, 0, q);
    if g.Some? {
      var j := g.value;
      hide *;
      FindBound(w.nodes, q, j);
      FindIff(w.nodes, q, j);
      SamePlace(fs, w, j);
      MatchAt(fs, w, j);
      Shaped(fs);
      FindIff(fs.nodes, q, w.from[j]);
    }
  }

  lemma FindBound(nodes: Nodes, q: Path, j: nat)
    requires WellFormed(nodes) && Find(nodes, 0, q) == Some(j)
    ensures j < |nodes|
  {
  }

  lemma LinkKey(fs: Fs, w: Walk, q: Path) returns (i: nat)
    requires Numbered(fs) && LinksMatch(fs, w) && q in w.links
    ensures i in w.linked && i < |fs.nodes| && PathOf(fs.nodes, i) == q && LinkMatch(fs, w, i)
    ensures Attached(fs.nodes, i) && i !in w.from && w.links[q] == Target(fs.nodes[i])
  {
    Shaped(fs);
    hide Numbered, Attached, PathOf, Numbers;
    i :| i in w.linked && i < |fs.nodes| && PathOf(fs.nodes, i) == q;
    assert LinkMatch(fs, w, i);
  }

  lemma FromMember(w: Walk, j: nat)
    requires j < |w.from|
    ensures w.from[j] in w.from
  {
  }

  lemma RecoveredAt(fs: Fs, w: Walk, q: Path)
    requires Inv(fs, 0) && Numbered(fs) && Plain(fs) && Walking(fs, w, [], {}) && WellFormed(w.nodes) && UniqueNames(w.nodes)
    requires WellFormed(fs.nodes)
    ensures NameRecovered(fs, w.nodes, w.links, q)
  {
    var f, g := Find(fs.nodes, 0, q), Find(w.nodes, 0, q);
    hide *;
    Shaped(fs);
    WalkingParts(fs, w, [], {});
    FromAttached(fs, w, q);
    if q in w.links {
      var k := LinkKey(fs, w, q);
      FindIff(fs.nodes, q, k);
      assert f == Some(k);
      if g.Some? {
        FromMember(w, g.value);
      }
      NameIs(fs, w.nodes, w.links, q);
    } else if f.Some? {
      var i := f.value;
      FindBound(fs.nodes, q, i);
      FindIff(fs.nodes, q, i);
      AllMet(fs, w, i);
      MetByNode(fs, w, i, q);
      NameIs(fs, w.nodes, w.links, q);
    } else {
      NameIs(fs, w.nodes, w.links, q);
    }
  }

  lemma NameIs(fs: Fs, nodes: Nodes, links: map<Path, nat>, q: Path)
    requires WellFormed(fs.nodes) && WellFormed(nodes)
    requires var f, g := Find(fs.nodes, 0, q), Find(nodes, 0, q);
      if f.None? then g.None? && q !in links
      else if g.Some? then g.value < |nodes| && f.value < |fs.nodes| && nodes[g.value].inode == Target(fs.nodes[f.value]) && q !in links
      else f.value < |fs.nodes| && q in links && links[q] == Target(fs.nodes[f.value])
    ensures NameRecovered(fs, nodes, links, q)
  {
  }

  /** A name met, but not as a hard link, has its node under its path. */
  lemma MetByNode(fs: Fs, w: Walk, i: nat, q: Path)
    requires Numbered(fs) && NodesMatch(fs, w) && LinksMatch(fs, w) && WellFormed(w.nodes) && UniqueNames(w.nodes)
    requires i < |fs.nodes| && Covered(w, i) && PathOf(fs.nodes, i) == q && q !in w.links
    ensures match Find(w.nodes, 0, q)
            case None => false
            case Some(j) => j < |w.nodes| && w.nodes[j].inode == Target(fs.nodes[i])
  {
    assert i in w.linked ==> LinkMatch(fs, w, i);
    assert i in w.from;
    var j :| 0 <= j < |w.from| && w.from[j] == i;
    RootTarget(fs);
    hide *;
    Shaped(fs);
    LengthsAgree(fs, w);
    SamePlace(fs, w, j);
    MatchAt(fs, w, j);
    FindIff(w.nodes, q, j);
  }

  lemma LengthsAgree(fs: Fs, w: Walk)
    requires Numbered(fs) && NodesMatch(fs, w)
    ensures |w.from| == |w.nodes|
  {
  }

  lemma RootTarget(fs: Fs)
    requires Numbered(fs)
    ensures |fs.nodes| > 0 && Target(fs.nodes[0]) == ROOT_INODE
  {
    Shaped(fs);
  }

  /** When nothing is waiting, exactly the names of the file system are back. */
  lemma AllRecovered(fs: Fs, w: Walk)
    requires Inv(fs, 0) && Numbered(fs) && Plain(fs) && Walking(fs, w, [], {})
    ensures WellFormed(fs.nodes) && Recovered(fs, w.nodes, w.links)
  {
    hide *;
    Shaped(fs);
    WalkingParts(fs, w, [], {});
    ReaderUnique(fs, w);
    forall q: Path ensures NameRecovered(fs, w.nodes, w.links, q) {
      RecoveredAt(fs, w, q);
    }
    forall i | 0 < i < |fs.nodes| && Attached(fs.nodes, i) ensures Target(fs.nodes[i]) in Numbers(w.nodes) {
      AllMet(fs, w, i);
      MetHasNumber(fs, w, i);
    }
    RecoveredIs(fs, w);
  }

  lemma MetHasNumber(fs: Fs, w: Walk, i: nat)
    requires Numbered(fs) && NodesMatch(fs, w) && LinksMatch(fs, w) && 0 < i < |fs.nodes| && Covered(w, i)
    ensures Target(fs.nodes[i]) in Numbers(w.nodes)
  {
    if i in w.linked {
      assert LinkMatch(fs, w, i);
    } else {
      var j :| 0 <= j < |w.from| && w.from[j] == i;
      MatchAt(fs, w, j);
      hide Numbered, NodesMatch, LinksMatch;
      assert w.nodes[j].inode in Numbers(w.nodes);
    }
  }

  lemma RecoveredIs(fs: Fs, w: Walk)
    requires Numbered(fs) && NodesMatch(fs, w) && WellFormed(fs.nodes) && WellFormed(w.nodes) && UniqueNames(w.nodes)
    requires forall q: Path :: NameRecovered(fs, w.nodes, w.links, q)
    requires forall i :: 0 < i < |fs.nodes| && Attached(fs.nodes, i) ==> Target(fs.nodes[i]) in Numbers(w.nodes)
    ensures Recovered(fs, w.nodes, w.links)
  {
    hide Numbered, WellFormed, UniqueNames, NameRecovered, Attached, Numbers, NodeMatch;
  }
}
