/** `Reader::new`: the traversal that turns an image into a tree and a list of
    hard links. */
module Opening {
  import opened Basics
  import opened Image
  import opened OnDisk
  import opened Extents
  import opened Directory
  import opened Trees
  import opened Namespace
  import opened Unlinking
  import opened Contents
  import opened Requests
  import opened Formatting
  import opened Listing
  import opened Committing
  import opened Reading
  import opened Volumes
  import opened Recovery
  import opened ImageReader

  /** What the traversal changes: tree, hard links, inode cache, work queue of
      (tree node, inode number). */
  datatype Memory = Memory(nodes: Nodes, links: map<Path, nat>, inodes: map<nat, Inode>, queue: seq<(nat, nat)>)

  /** The node for a new entry: its first extent, then the others. */
  function NodeFor(e: Found, rs: seq<BlockRange>): Node {
    Node(e.inode, e.name, [], None, if rs == [] then None else Some(rs[0]), if rs == [] then [] else rs[1..], None)
  }

  predicate IsDots(name: Name) { name == DOT || name == DOTDOT }

  /** One round of the inner loop: skip "." and "..", record a hard link, or add a
      node and queue it if it is a directory. */
  function EntryStep(img: seq<byte>, sb: SuperBlock, a: Memory, p: nat, e: Found): (Memory, Option<ReadError>)
    requires Supported(sb) && WellFormed(a.nodes) && p < |a.nodes| && e.inode > 0
  {
    if IsDots(e.name) then (a, None)
    else if e.inode in a.inodes then (a.(links := a.links[PathOf(a.nodes, p) + [e.name] := e.inode]), None)
    else
      match ReadInode(img, sb, e.inode)
      case Err(x) => (a, Some(x))
      case Ok(inode) =>
        ReadInodeBlock(img, sb, e.inode);
        var inodes := a.inodes[e.inode := inode];
        match ParseExtents(inode.block, img)
        case Err(x) => (a.(inodes := inodes), Some(x))
        case Ok(rs) =>
          (Memory(WithChild(a.nodes, p, NodeFor(e, rs)), a.links, inodes,
                  if inode.IsDir() then a.queue + [(|a.nodes|, e.inode)] else a.queue), None)
  }

  // ---- What it means for the image of a file system ----

  /** `img` is the image of `fs`, whose hard links lie below no other name. */
  ghost predicate ImageOf(img: seq<byte>, sb: SuperBlock, fs: Fs, contents: seq<Content>, inodes: seq<Inode>) {
    Inv(fs, 0) && Numbered(fs) && Plain(fs) && ReadsAs(img, sb, fs, contents, inodes)
  }

  /** The extents of inode `n` can be parsed. */
  predicate ParsesAt(img: seq<byte>, inodes: seq<Inode>, n: nat) {
    0 < n <= |inodes| && |inodes[n - 1].block| == 60 && ParseExtents(inodes[n - 1].block, img).Ok?
  }

  predicate AllParse(img: seq<byte>, fs: Fs, inodes: seq<Inode>)
    requires WellFormed(fs.nodes)
  {
    forall i :: 0 < i < |fs.nodes| && Attached(fs.nodes, i) ==> ParsesAt(img, inodes, Target(fs.nodes[i]))
  }

  function QueueNodes(queue: seq<(nat, nat)>): (s: seq<nat>)
    ensures |s| == |queue| && forall k :: 0 <= k < |queue| ==> s[k] == queue[k].0
  {
    seq(|queue|, k requires 0 <= k < |queue| => queue[k].0)
  }

  predicate QueueNumbers(a: Memory) {
    forall k :: 0 <= k < |a.queue| ==> a.queue[k].0 < |a.nodes| && a.queue[k].1 == a.nodes[a.queue[k].0].inode
  }

  predicate NodesParse(img: seq<byte>, inodes: seq<Inode>, nodes: Nodes) {
    forall j :: 0 < j < |nodes| ==> ParsesAt(img, inodes, nodes[j].inode)
  }

  predicate CacheRight(inodes: seq<Inode>, cache: map<nat, Inode>) {
    forall n :: n in cache ==> 0 < n <= |inodes| && cache[n] == inodes[n - 1]
  }

  /** The memory is that of a walk over `fs`. */
  ghost predicate Tracks(img: seq<byte>, fs: Fs, inodes: seq<Inode>, w: Walk, a: Memory) {
    && w.nodes == a.nodes && w.links == a.links
    && a.inodes.Keys + {ROOT_INODE} == Numbers(a.nodes)
    && QueueNumbers(a) && NodesParse(img, inodes, a.nodes) && CacheRight(inodes, a.inodes)
  }

  /** While directory node `p` is listed by `es`: `k` entries are dealt with. */
  ghost predicate Halfway(img: seq<byte>, fs: Fs, inodes: seq<Inode>, w: Walk, a: Memory, p: nat, es: seq<Found>, k: nat)
    requires Numbered(fs)
  {
    && Tracks(img, fs, inodes, w, a) && Walking(fs, w, QueueNodes(a.queue), {p})
    && p < |w.from| && p < |w.nodes| && p !in QueueNodes(a.queue)
    && w.from[p] < |fs.nodes| && Attached(fs.nodes, w.from[p]) && ListedAs(fs, w.from[p], es)
    && k <= |es| && Partly(fs, w, p, es, k)
  }

  lemma ImageParts(img: seq<byte>, sb: SuperBlock, fs: Fs, contents: seq<Content>, inodes: seq<Inode>)
    requires ImageOf(img, sb, fs, contents, inodes)
    ensures Inv(fs, 0) && Numbered(fs) && Plain(fs) && Listable(fs) && WellFormed(fs.nodes) && Supported(sb) && |inodes| == |fs.inodes|
    ensures |fs.inodes| >= RESERVED
  {
    Shaped(fs);
    hide Inv, Numbered, Plain, Listable, WellFormed;
  }

  lemma ImageInode(img: seq<byte>, sb: SuperBlock, fs: Fs, contents: seq<Content>, inodes: seq<Inode>, n: nat)
    requires ImageOf(img, sb, fs, contents, inodes) && 0 < n <= |inodes|
    ensures Supported(sb) && ReadInode(img, sb, n) == Ok(inodes[n - 1]) && |inodes[n - 1].block| == 60
    ensures |inodes| == |fs.inodes| && inodes[n - 1].IsDir() == fs.inodes[n - 1].IsDir()
  {
    hide Inv, Numbered, Plain, Listable, WellFormed, DirReadsAt, HeldReads, ReadInode;
    assert InodeReadsAt(img, sb, inodes, n) && SameAttributes(fs.inodes[n - 1], inodes[n - 1]);
    ReadInodeBlock(img, sb, n);
  }

  lemma ImageDir(img: seq<byte>, sb: SuperBlock, fs: Fs, contents: seq<Content>, inodes: seq<Inode>, i: nat)
    requires ImageOf(img, sb, fs, contents, inodes) && Numbered(fs) && i < |fs.nodes| && IsOwnDir(fs, i) && Attached(fs.nodes, i)
    ensures fs.nodes[i].inode > 0 && Supported(sb) && DirEntries(img, sb, fs.nodes[i].inode).Ok?
    ensures ListedAs(fs, i, DirEntries(img, sb, fs.nodes[i].inode).value)
  {
    NumbersOf(fs, i);
    hide Inv, Numbered, Plain, Listable, WellFormed, InodeReadsAt, HeldReads, DirEntries, IsOwnDir, Attached, DirList;
    assert DirReadsAt(img, sb, fs, i);
  }

  // ---- One entry keeps the walk ----

  lemma StepDots(img: seq<byte>, fs: Fs, inodes: seq<Inode>, w: Walk, a: Memory, p: nat, es: seq<Found>, k: nat)
    requires Numbered(fs) && Listable(fs) && Halfway(img, fs, inodes, w, a, p, es, k) && k < |es| && IsDots(es[k].name)
    ensures Halfway(img, fs, inodes, w, a, p, es, k + 1)
  {
    hide *;
    HalfwayParts(img, fs, inodes, w, a, p, es, k);
    DotsCases(es[k].name);
    PartlyDots(fs, w, p, es, k);
    HalfwayIs(img, fs, inodes, w, a, p, es, k + 1);
  }

  lemma DotsCases(name: Name)
    ensures IsDots(name) <==> name == DOT || name == DOTDOT
  {
  }

  lemma HalfwayParts(img: seq<byte>, fs: Fs, inodes: seq<Inode>, w: Walk, a: Memory, p: nat, es: seq<Found>, k: nat)
    requires Numbered(fs) && Halfway(img, fs, inodes, w, a, p, es, k)
    ensures Tracks(img, fs, inodes, w, a) && Walking(fs, w, QueueNodes(a.queue), {p})
    ensures p < |w.from| && p < |w.nodes| && p !in QueueNodes(a.queue)
    ensures w.from[p] < |fs.nodes| && WellFormed(fs.nodes) && Attached(fs.nodes, w.from[p]) && ListedAs(fs, w.from[p], es)
    ensures k <= |es| && Partly(fs, w, p, es, k)
  {
    Shaped(fs);
    hide Numbered, Tracks, Walking, ListedAs, Partly, Attached, WellFormed;
  }

  lemma HalfwayIs(img: seq<byte>, fs: Fs, inodes: seq<Inode>, w: Walk, a: Memory, p: nat, es: seq<Found>, k: nat)
    requires Numbered(fs) && Tracks(img, fs, inodes, w, a) && Walking(fs, w, QueueNodes(a.queue), {p})
    requires p < |w.from| && p < |w.nodes| && p !in QueueNodes(a.queue)
    requires w.from[p] < |fs.nodes| && WellFormed(fs.nodes) && Attached(fs.nodes, w.from[p]) && ListedAs(fs, w.from[p], es)
    requires k <= |es| && Partly(fs, w, p, es, k)
    ensures Halfway(img, fs, inodes, w, a, p, es, k)
  {
    hide Numbered, Tracks, Walking, ListedAs, Partly, Attached, WellFormed;
  }

  lemma TracksParts(img: seq<byte>, fs: Fs, inodes: seq<Inode>, w: Walk, a: Memory)
    requires Tracks(img, fs, inodes, w, a)
    ensures w.nodes == a.nodes && w.links == a.links && a.inodes.Keys + {ROOT_INODE} == Numbers(a.nodes)
    ensures QueueNumbers(a) && NodesParse(img, inodes, a.nodes) && CacheRight(inodes, a.inodes)
  {
  }

  /** The child an entry names is not met yet. */
  lemma EntryChild(fs: Fs, w: Walk, p: nat, es: seq<Found>, k: nat) returns (c: nat)
    requires Numbered(fs) && Listable(fs) && p < |w.from| && w.from[p] < |fs.nodes| && ListedAs(fs, w.from[p], es)
    requires k < |es| && Partly(fs, w, p, es, k) && !IsDots(es[k].name)
    ensures 0 < c < |fs.nodes| && c in fs.nodes[w.from[p]].children && fs.nodes[c].parent == Some(w.from[p])
    ensures es[k] == Found(fs.nodes[c].name, Target(fs.nodes[c])) && !Covered(w, c)
    ensures RESERVED < Target(fs.nodes[c]) <= |fs.inodes|
  {
    hide *;
    DotsCases(es[k].name);
    c := EntryIsChild(fs, w.from[p], es, k);
    TargetIsHandedOut(fs, c);
    PartlyAt(fs, w, p, es, k, c);
    if Named(es, k, fs.nodes[c].name) {
      var j := NamedBy(es, k, fs.nodes[c].name);
      EntryOnce(fs, w.from[p], es, j, k);
      assert false;
    }
  }

  lemma NamedBy(es: seq<Found>, k: nat, name: Name) returns (j: nat)
    requires k <= |es| && Named(es, k, name)
    ensures j < k && es[j].name == name
  {
    j :| 0 <= j < k && es[j].name == name;
  }

  lemma ChildAttached(fs: Fs, d: nat, c: nat)
    requires Numbered(fs) && d < |fs.nodes| && c < |fs.nodes| && c in fs.nodes[d].children
    requires WellFormed(fs.nodes) && Attached(fs.nodes, d) && fs.nodes[c].parent == Some(d)
    ensures Attached(fs.nodes, c) && PathOf(fs.nodes, c) == PathOf(fs.nodes, d) + [fs.nodes[c].name]
  {
    assert KidsOk(fs.nodes, d);
  }

  /** An entry of an inode met before is recorded as a hard link. */
  lemma StepLink(img: seq<byte>, sb: SuperBlock, fs: Fs, contents: seq<Content>, inodes: seq<Inode>,
                 w: Walk, a: Memory, p: nat, es: seq<Found>, k: nat) returns (w': Walk)
    requires ImageOf(img, sb, fs, contents, inodes) && Numbered(fs) && Halfway(img, fs, inodes, w, a, p, es, k)
    requires k < |es| && !IsDots(es[k].name) && es[k].inode in a.inodes
    ensures WellFormed(a.nodes) && p < |a.nodes|
    ensures Halfway(img, fs, inodes, w', a.(links := a.links[PathOf(a.nodes, p) + [es[k].name] := es[k].inode]), p, es, k + 1)
  {
    hide *;
    ImageParts(img, sb, fs, contents, inodes);
    HalfwayParts(img, fs, inodes, w, a, p, es, k);
    TracksParts(img, fs, inodes, w, a);
    WalkingParts(fs, w, QueueNodes(a.queue), {p});
    var c := EntryChild(fs, w, p, es, k);
    ChildAttached(fs, w.from[p], c);
    KeyIsNumber(a.inodes, Numbers(a.nodes), es[k].inode);
    LinkStep(fs, w, p, c, QueueNodes(a.queue));
    SamePlace(fs, w, p);
    w' := WithLink(w, PathOf(fs.nodes, c), Target(fs.nodes[c]), c);
    WithLinkIs(w, PathOf(fs.nodes, c), Target(fs.nodes[c]), c);
    LinkCovers(w, PathOf(fs.nodes, c), Target(fs.nodes[c]), c);
    PartlyNext(fs, w, w', p, es, k, c);
    var b := a.(links := a.links[PathOf(a.nodes, p) + [es[k].name] := es[k].inode]);
    TracksLink(img, fs, inodes, w, a, w', b);
    HalfwayIs(img, fs, inodes, w', b, p, es, k + 1);
  }

  lemma KeyIsNumber(cache: map<nat, Inode>, numbers: set<nat>, n: nat)
    requires cache.Keys + {ROOT_INODE} == numbers
    ensures n in cache ==> n in numbers
    ensures n !in cache && n != ROOT_INODE ==> n !in numbers
  {
  }

  lemma LinkCovers(w: Walk, path: Path, n: nat, c: nat)
    ensures forall i :: Covered(WithLink(w, path, n, c), i) <==> Covered(w, i) || i == c
  {
  }

  lemma NodeCovers(w: Walk, p: nat, node: Node, c: nat)
    requires p < |w.nodes|
    ensures forall i :: Covered(WithNode(w, p, node, c), i) <==> Covered(w, i) || i == c
  {
    var w' := WithNode(w, p, node, c);
    assert w'.from[|w.from|] == c;
  }

  lemma TracksLink(img: seq<byte>, fs: Fs, inodes: seq<Inode>, w: Walk, a: Memory, w': Walk, b: Memory)
    requires Tracks(img, fs, inodes, w, a) && w'.nodes == w.nodes && w'.links == b.links
    requires b == a.(links := b.links)
    ensures Tracks(img, fs, inodes, w', b)
  {
    hide Numbers, NodesParse, CacheRight;
  }

  /** An attached name stands for a directory exactly when it is one itself. */
  lemma DirIff(fs: Fs, c: nat)
    requires Inv(fs, 0) && Numbered(fs) && 0 < c < |fs.nodes| && Attached(fs.nodes, c)
    ensures 0 < Target(fs.nodes[c]) <= |fs.inodes|
    ensures fs.inodes[Target(fs.nodes[c]) - 1].IsDir() <==> IsOwnDir(fs, c)
  {
    NumbersOf(fs, c);
    hide Numbered, Counts, Ownership, Attached, IsDirMode;
    assert KindOk(fs, c);
  }

  lemma QueueGrows(queue: seq<(nat, nat)>, j: nat, n: nat)
    ensures QueueNodes(queue + [(j, n)]) == QueueNodes(queue) + [j]
  {
  }

  lemma JoinedIs(fs: Fs, w: Walk, c: nat, queue: seq<nat>)
    requires Numbered(fs)
    ensures IsOwnDir(fs, c) ==> Joined(fs, w, c, queue) == queue + [|w.nodes|]
    ensures !IsOwnDir(fs, c) ==> Joined(fs, w, c, queue) == queue
  {
  }

  lemma QueueNumbersGrow(a: Memory, p: nat, node: Node, inodes: map<nat, Inode>, dir: bool)
    requires QueueNumbers(a) && p < |a.nodes|
    ensures QueueNumbers(Memory(WithChild(a.nodes, p, node), a.links, inodes,
                                if dir then a.queue + [(|a.nodes|, node.inode)] else a.queue))
  {
    var nodes' := WithChild(a.nodes, p, node);
    var b := Memory(nodes', a.links, inodes, if dir then a.queue + [(|a.nodes|, node.inode)] else a.queue);
    assert forall j :: 0 <= j < |a.nodes| ==> nodes'[j].inode == a.nodes[j].inode;
    assert nodes'[|a.nodes|].inode == node.inode;
    hide WithChild;
    forall k | 0 <= k < |b.queue| ensures b.queue[k].0 < |b.nodes| && b.queue[k].1 == b.nodes[b.queue[k].0].inode {
    }
  }

  lemma NodesParseGrow(img: seq<byte>, inodes: seq<Inode>, nodes: Nodes, p: nat, node: Node)
    requires p < |nodes| && NodesParse(img, inodes, nodes) && ParsesAt(img, inodes, node.inode)
    ensures NodesParse(img, inodes, WithChild(nodes, p, node))
  {
    var nodes' := WithChild(nodes, p, node);
    assert forall j :: 0 <= j < |nodes| ==> nodes'[j].inode == nodes[j].inode;
    hide ParsesAt;
  }

  lemma CacheGrows(inodes: seq<Inode>, cache: map<nat, Inode>, n: nat, numbers: set<nat>)
    requires CacheRight(inodes, cache) && 0 < n <= |inodes| && cache.Keys + {ROOT_INODE} == numbers
    ensures CacheRight(inodes, cache[n := inodes[n - 1]])
    ensures cache[n := inodes[n - 1]].Keys + {ROOT_INODE} == numbers + {n}
  {
  }

  /** The memory after a new node. */
  function AfterNode(a: Memory, p: nat, e: Found, rs: seq<BlockRange>, inode: Inode): Memory
    requires p < |a.nodes|
  {
    Memory(WithChild(a.nodes, p, NodeFor(e, rs)), a.links, a.inodes[e.inode := inode],
           if inode.IsDir() then a.queue + [(|a.nodes|, e.inode)] else a.queue)
  }

  lemma TracksNode(img: seq<byte>, fs: Fs, inodes: seq<Inode>, w: Walk, a: Memory, w': Walk, p: nat, e: Found, rs: seq<BlockRange>)
    requires Tracks(img, fs, inodes, w, a) && p < |a.nodes| && ParsesAt(img, inodes, e.inode) && 0 < e.inode <= |inodes|
    requires w'.nodes == WithChild(a.nodes, p, NodeFor(e, rs)) && w'.links == w.links
    ensures Tracks(img, fs, inodes, w', AfterNode(a, p, e, rs, inodes[e.inode - 1]))
  {
    var inode := inodes[e.inode - 1];
    NumbersGrow(a.nodes, p, NodeFor(e, rs));
    CacheGrows(inodes, a.inodes, e.inode, Numbers(a.nodes));
    NodesParseGrow(img, inodes, a.nodes, p, NodeFor(e, rs));
    QueueNumbersGrow(a, p, NodeFor(e, rs), a.inodes[e.inode := inode], inode.IsDir());
    hide Numbers, NodesParse, CacheRight, QueueNumbers, WithChild, ParsesAt, IsDirMode;
  }

  lemma AfterNodeQueue(a: Memory, p: nat, e: Found, rs: seq<BlockRange>, inode: Inode)
    requires p < |a.nodes|
    ensures QueueNodes(AfterNode(a, p, e, rs, inode).queue)
         == if inode.IsDir() then QueueNodes(a.queue) + [|a.nodes|] else QueueNodes(a.queue)
    ensures p !in QueueNodes(a.queue) ==> p !in QueueNodes(AfterNode(a, p, e, rs, inode).queue)
  {
    if inode.IsDir() {
      QueueGrows(a.queue, |a.nodes|, e.inode);
    }
    hide QueueNodes;
  }

  lemma NodeForIs(e: Found, rs: seq<BlockRange>)
    ensures var node := NodeFor(e, rs); node.children == [] && node.name == e.name && node.inode == e.inode
  {
  }

  /** An entry of an inode not met before becomes a node. */
  lemma StepNode(img: seq<byte>, sb: SuperBlock, fs: Fs, contents: seq<Content>, inodes: seq<Inode>,
                 w: Walk, a: Memory, p: nat, es: seq<Found>, k: nat, inode: Inode, rs: seq<BlockRange>) returns (w': Walk)
    requires ImageOf(img, sb, fs, contents, inodes) && Numbered(fs) && Halfway(img, fs, inodes, w, a, p, es, k)
    requires k < |es| && !IsDots(es[k].name) && es[k].inode !in a.inodes && es[k].inode > 0
    requires Supported(sb) && ReadInode(img, sb, es[k].inode) == Ok(inode) && |inode.block| == 60 && ParseExtents(inode.block, img) == Ok(rs)
    ensures p < |a.nodes| && Halfway(img, fs, inodes, w', AfterNode(a, p, es[k], rs, inode), p, es, k + 1)
  {
    hide *;
    ImageParts(img, sb, fs, contents, inodes);
    HalfwayParts(img, fs, inodes, w, a, p, es, k);
    TracksParts(img, fs, inodes, w, a);
    WalkingParts(fs, w, QueueNodes(a.queue), {p});
    var c := EntryChild(fs, w, p, es, k);
    var e := es[k];
    ChildAttached(fs, w.from[p], c);
    RootNumber();
    KeyIsNumber(a.inodes, Numbers(a.nodes), e.inode);
    ImageInode(img, sb, fs, contents, inodes, e.inode);
    NodeForIs(e, rs);
    DirIff(fs, c);
    NodeStep(fs, w, p, NodeFor(e, rs), c, QueueNodes(a.queue));
    w' := WithNode(w, p, NodeFor(e, rs), c);
    WithNodeIs(w, p, NodeFor(e, rs), c);
    NodeCovers(w, p, NodeFor(e, rs), c);
    PartlyNext(fs, w, w', p, es, k, c);
    ParsesIs(img, inodes, e.inode, rs);
    TracksNode(img, fs, inodes, w, a, w', p, e, rs);
    JoinedIs(fs, w, c, QueueNodes(a.queue));
    AfterNodeQueue(a, p, e, rs, inode);
    HalfwayIs(img, fs, inodes, w', AfterNode(a, p, e, rs, inode), p, es, k + 1);
  }

  lemma ParsesIs(img: seq<byte>, inodes: seq<Inode>, n: nat, rs: seq<BlockRange>)
    requires 0 < n <= |inodes| && |inodes[n - 1].block| == 60 && ParseExtents(inodes[n - 1].block, img) == Ok(rs)
    ensures ParsesAt(img, inodes, n)
  {
  }

  /** Only extents that cannot be parsed stop the traversal. */
  lemma StepFails(img: seq<byte>, sb: SuperBlock, fs: Fs, contents: seq<Content>, inodes: seq<Inode>,
                  w: Walk, a: Memory, p: nat, es: seq<Found>, k: nat)
    requires ImageOf(img, sb, fs, contents, inodes) && Numbered(fs) && Halfway(img, fs, inodes, w, a, p, es, k)
    requires k < |es| && !IsDots(es[k].name) && es[k].inode > 0 && Supported(sb)
    ensures ReadInode(img, sb, es[k].inode).Ok? && |ReadInode(img, sb, es[k].inode).value.block| == 60
    ensures ParseExtents(ReadInode(img, sb, es[k].inode).value.block, img).Err? ==> WellFormed(fs.nodes) && !AllParse(img, fs, inodes)
  {
    hide *;
    ImageParts(img, sb, fs, contents, inodes);
    HalfwayParts(img, fs, inodes, w, a, p, es, k);
    var c := EntryChild(fs, w, p, es, k);
    ChildAttached(fs, w.from[p], c);
    ImageInode(img, sb, fs, contents, inodes, es[k].inode);
    if ParseExtents(ReadInode(img, sb, es[k].inode).value.block, img).Err? {
      NotAllParse(img, fs, inodes, c);
    }
  }

  lemma NotAllParse(img: seq<byte>, fs: Fs, inodes: seq<Inode>, c: nat)
    requires WellFormed(fs.nodes) && 0 < c < |fs.nodes| && Attached(fs.nodes, c) && 0 < Target(fs.nodes[c]) <= |inodes|
    requires |inodes[Target(fs.nodes[c]) - 1].block| == 60
    requires ParseExtents(inodes[Target(fs.nodes[c]) - 1].block, img).Err?
    ensures !AllParse(img, fs, inodes)
  {
    assert !ParsesAt(img, inodes, Target(fs.nodes[c]));
    hide ParsesAt, Attached, WellFormed;
  }

  // ---- Between directories ----

  ghost predicate Between(img: seq<byte>, fs: Fs, inodes: seq<Inode>, w: Walk, a: Memory)
    requires Numbered(fs)
  {
    Tracks(img, fs, inodes, w, a) && Walking(fs, w, QueueNodes(a.queue), {})
  }

  function StartMemory(): Memory { Memory(StartNodes(), map[], map[], [(0, ROOT_INODE)]) }

  lemma Begins(img: seq<byte>, fs: Fs, inodes: seq<Inode>)
    requires Inv(fs, 0)
    ensures Numbered(fs) && Between(img, fs, inodes, StartWalk(), StartMemory())
  {
    WalkBegins(fs);
    var w, a := StartWalk(), StartMemory();
    hide Inv, Numbered, Walking, ParsesAt;
    assert QueueNodes(a.queue) == [0];
    assert Numbers(a.nodes) == {ROOT_INODE} by {
      assert a.nodes[0].inode == ROOT_INODE;
    }
  }

  /** The memory once directory (`p`, `n`) has been taken from the queue and its
      inode read. */
  function AfterTaking(a: Memory, n: nat, inode: Inode): Memory
    requires a.queue != []
  {
    a.(queue := a.queue[..|a.queue| - 1], inodes := a.inodes[n := inode])
  }

  lemma TakenQueue(a: Memory)
    requires a.queue != [] && QueueNumbers(a)
    ensures var last := a.queue[|a.queue| - 1];
      && last.0 < |a.nodes| && last.1 == a.nodes[last.0].inode
      && QueueNodes(a.queue[..|a.queue| - 1]) == QueueNodes(a.queue)[..|a.queue| - 1]
      && QueueNodes(a.queue)[|a.queue| - 1] == last.0 && QueueNodes(a.queue) != []
  {
  }

  lemma TracksTaking(img: seq<byte>, fs: Fs, inodes: seq<Inode>, w: Walk, a: Memory, p: nat)
    requires Tracks(img, fs, inodes, w, a) && a.queue != [] && p < |a.nodes| && 0 < a.nodes[p].inode <= |inodes|
    ensures Tracks(img, fs, inodes, w, AfterTaking(a, a.nodes[p].inode, inodes[a.nodes[p].inode - 1]))
  {
    CacheGrows(inodes, a.inodes, a.nodes[p].inode, Numbers(a.nodes));
    assert a.nodes[p].inode in Numbers(a.nodes);
    hide Numbers, NodesParse, CacheRight;
  }

  /** A directory taken from the queue is listed as the file system has it. */
  lemma BeginDir(img: seq<byte>, sb: SuperBlock, fs: Fs, contents: seq<Content>, inodes: seq<Inode>, w: Walk, a: Memory)
    returns (es: seq<Found>)
    requires ImageOf(img, sb, fs, contents, inodes) && Numbered(fs) && Between(img, fs, inodes, w, a) && a.queue != []
    ensures var p, n := a.queue[|a.queue| - 1].0, a.queue[|a.queue| - 1].1;
      && 0 < n && Supported(sb) && ReadInode(img, sb, n).Ok? && DirEntries(img, sb, n) == Ok(es)
      && Halfway(img, fs, inodes, w, AfterTaking(a, n, ReadInode(img, sb, n).value), p, es, 0)
  {
    hide *;
    var p, n := a.queue[|a.queue| - 1].0, a.queue[|a.queue| - 1].1;
    BetweenParts(img, fs, inodes, w, a);
    ImageParts(img, sb, fs, contents, inodes);
    TracksParts(img, fs, inodes, w, a);
    TakenQueue(a);
    Taken(fs, w, QueueNodes(a.queue));
    WalkingParts(fs, w, QueueNodes(a.queue), {});
    var i := w.from[p];
    MatchAt(fs, w, p);
    DirNumber(fs, i);
    ImageDir(img, sb, fs, contents, inodes, i);
    es := DirEntries(img, sb, n).value;
    ImageInode(img, sb, fs, contents, inodes, n);
    TracksTaking(img, fs, inodes, w, a, p);
    PartlyStarts(fs, w, p, es);
    TakingIs(a, n, inodes[n - 1]);
    HalfwayIs(img, fs, inodes, w, AfterTaking(a, n, inodes[n - 1]), p, es, 0);
  }

  lemma TakingIs(a: Memory, n: nat, inode: Inode)
    requires a.queue != []
    ensures AfterTaking(a, n, inode).queue == a.queue[..|a.queue| - 1]
  {
  }

  lemma DirNumber(fs: Fs, i: nat)
    requires Numbered(fs) && IsOwnDir(fs, i)
    ensures i < |fs.nodes| && 0 < fs.nodes[i].inode <= |fs.inodes|
    ensures fs.nodes[i].inode == (if i == 0 then ROOT_INODE else Target(fs.nodes[i]))
  {
    NumbersOf(fs, i);
    hide WellFormed, UniqueNames, NumberedNode, NumberedInode, OwnInode, IsDirMode;
  }

  lemma BetweenParts(img: seq<byte>, fs: Fs, inodes: seq<Inode>, w: Walk, a: Memory)
    requires Numbered(fs) && Between(img, fs, inodes, w, a)
    ensures Tracks(img, fs, inodes, w, a) && Walking(fs, w, QueueNodes(a.queue), {})
  {
    hide Numbered, Tracks, Walking;
  }

  lemma EndDir(img: seq<byte>, fs: Fs, inodes: seq<Inode>, w: Walk, a: Memory, p: nat, es: seq<Found>)
    requires Numbered(fs) && Listable(fs) && Halfway(img, fs, inodes, w, a, p, es, |es|)
    ensures Between(img, fs, inodes, w, a)
  {
    HalfwayParts(img, fs, inodes, w, a, p, es, |es|);
    DirFinished(fs, w, p, es, QueueNodes(a.queue));
    hide Numbered, Tracks, Walking;
  }

  /** The traversal is over: all names are back and all extents were parsed. */
  lemma Ends(img: seq<byte>, sb: SuperBlock, fs: Fs, contents: seq<Content>, inodes: seq<Inode>, w: Walk, a: Memory)
    requires ImageOf(img, sb, fs, contents, inodes) && Numbered(fs) && Between(img, fs, inodes, w, a) && a.queue == []
    ensures WellFormed(fs.nodes) && Recovered(fs, a.nodes, a.links) && AllParse(img, fs, inodes) && CacheRight(inodes, a.inodes)
  {
    hide *;
    BetweenParts(img, fs, inodes, w, a);
    ImageParts(img, sb, fs, contents, inodes);
    TracksParts(img, fs, inodes, w, a);
    assert QueueNodes(a.queue) == [];
    AllRecovered(fs, w);
    forall i | 0 < i < |fs.nodes| && Attached(fs.nodes, i) ensures ParsesAt(img, inodes, Target(fs.nodes[i])) {
      NumberParses(img, fs, inodes, w, i);
    }
    AllParseIs(img, fs, inodes);
  }

  lemma AllParseIs(img: seq<byte>, fs: Fs, inodes: seq<Inode>)
    requires WellFormed(fs.nodes)
    requires forall i :: 0 < i < |fs.nodes| && Attached(fs.nodes, i) ==> ParsesAt(img, inodes, Target(fs.nodes[i]))
    ensures AllParse(img, fs, inodes)
  {
    hide ParsesAt, Attached, WellFormed;
  }

  lemma NumberParses(img: seq<byte>, fs: Fs, inodes: seq<Inode>, w: Walk, i: nat)
    requires Numbered(fs) && WellFormed(fs.nodes) && Recovered(fs, w.nodes, w.links) && NodesParse(img, inodes, w.nodes)
    requires 0 < i < |fs.nodes| && Attached(fs.nodes, i) && Walking(fs, w, [], {})
    ensures ParsesAt(img, inodes, Target(fs.nodes[i]))
  {
    hide *;
    WalkingParts(fs, w, [], {});
    RecoveredNumber(fs, w, i);
    var j := NumberAt(fs, w, Target(fs.nodes[i]));
    TargetIsHandedOut(fs, i);
    RootNumber();
    ParseAtNode(img, inodes, w.nodes, j);
  }

  lemma RecoveredNumber(fs: Fs, w: Walk, i: nat)
    requires WellFormed(fs.nodes) && Recovered(fs, w.nodes, w.links) && 0 < i < |fs.nodes| && Attached(fs.nodes, i)
    ensures Target(fs.nodes[i]) in Numbers(w.nodes)
  {
    hide WellFormed, UniqueNames, NameRecovered, Attached, Numbers, NumbersDiffer;
  }

  lemma ParseAtNode(img: seq<byte>, inodes: seq<Inode>, nodes: Nodes, j: nat)
    requires NodesParse(img, inodes, nodes) && 0 < j < |nodes|
    ensures ParsesAt(img, inodes, nodes[j].inode)
  {
    hide ParsesAt;
  }

  // ---- The loops ----

  ghost function Now(r: Reader, queue: seq<(nat, nat)>): Memory
    reads r, r.tree
  {
    Memory(r.tree.nodes, r.hardlinks, r.inodes, queue)
  }

  lemma NowIs(r: Reader, queue: seq<(nat, nat)>)
    ensures Now(r, queue) == Memory(r.tree.nodes, r.hardlinks, r.inodes, queue)
  {
  }

  /** Everything waiting has a node and a number a cache can hold. */
  predicate InRangeQueue(a: Memory) {
    forall k :: 0 <= k < |a.queue| ==> a.queue[k].0 < |a.nodes| && 0 < a.queue[k].1 < 0x1_0000_0000
  }

  /** Nothing is forgotten, and the queue grows only when a new inode is read. */
  ghost predicate Grows(a: Memory, b: Memory) {
    && a.inodes.Keys <= b.inodes.Keys && |a.nodes| <= |b.nodes|
    && (b.queue == a.queue || |a.inodes.Keys| < |b.inodes.Keys|)
  }

  lemma StrictSubset<T>(a: set<T>, b: set<T>, x: T)
    requires a <= b && x in b && x !in a
    ensures |a| < |b|
  {
    assert b == a + (b - a) && x in b - a;
  }

  lemma StepGrows(img: seq<byte>, sb: SuperBlock, a: Memory, p: nat, e: Found)
    requires Supported(sb) && WellFormed(a.nodes) && p < |a.nodes| && 0 < e.inode < 0x1_0000_0000 && InRangeQueue(a)
    ensures var b := EntryStep(img, sb, a, p, e).0; Grows(a, b) && InRangeQueue(b)
  {
    var b := EntryStep(img, sb, a, p, e).0;
    hide ReadInode, ParseExtents, PathOf, WellFormed, NodeFor, IsDirMode;
    if b.queue != a.queue {
      StrictSubset(a.inodes.Keys, b.inodes.Keys, e.inode);
    }
  }

  lemma GrowsTrans(a: Memory, b: Memory, c: Memory)
    requires Grows(a, b) && Grows(b, c)
    ensures Grows(a, c)
  {
    SubsetSize(a.inodes.Keys, b.inodes.Keys);
    SubsetSize(b.inodes.Keys, c.inodes.Keys);
  }

  /** One entry of a directory. */
  method ReadEntry(r: Reader, p: nat, e: Found, queue: seq<(nat, nat)>) returns (queue': seq<(nat, nat)>, error: Option<ReadError>)
    requires r.Valid() && p < |r.tree.nodes| && WellFormed(r.tree.nodes) && 0 < e.inode < 0x1_0000_0000
    modifies r`groupDescriptors, r`inodes, r`hardlinks, r.tree
    ensures r.Valid() && WellFormed(r.tree.nodes)
    ensures (Now(r, queue'), error) == EntryStep(r.file.bytes, r.superblock, old(Now(r, queue)), p, e)
  {
    hide CachesOk, ReadInode, ParseExtents, WellFormed, IndexOk, PathOf, WithChild, IsDirMode, IsDots;
    queue', error := queue, None;
    if IsDots(e.name) {
      return;
    }
    if e.inode in r.inodes {
      var parent := r.tree.NodePath(p);
      r.hardlinks := r.hardlinks[parent + [e.name] := e.inode];
      return;
    }
    var inode := r.GetInode(e.inode);
    if inode.Err? {
      return queue, Some(inode.error);
    }
    ReadInodeBlock(r.file.bytes, r.superblock, e.inode);
    var extents := Parse(inode.value.block, r.file);
    if extents.Err? {
      return queue, Some(extents.error);
    }
    var idx := r.tree.AddChild(p, NodeFor(e, extents.value));
    if inode.value.IsDir() {
      queue' := queue + [(idx, e.inode)];
    }
  }

  /** One entry, with the walk it belongs to. */
  method ReadNext(r: Reader, p: nat, es: seq<Found>, k: nat, queue: seq<(nat, nat)>,
                  ghost fs: Fs, ghost contents: seq<Content>, ghost inodes: seq<Inode>, ghost w: Walk)
    returns (queue': seq<(nat, nat)>, error: Option<ReadError>, ghost w': Walk)
    requires r.Valid() && p < |r.tree.nodes| && WellFormed(r.tree.nodes) && k < |es| && 0 < es[k].inode < 0x1_0000_0000
    requires InRangeQueue(Now(r, queue))
    requires ImageOf(r.file.bytes, r.superblock, fs, contents, inodes) ==>
      Numbered(fs) && Halfway(r.file.bytes, fs, inodes, w, Now(r, queue), p, es, k)
    modifies r`groupDescriptors, r`inodes, r`hardlinks, r.tree
    ensures r.Valid() && WellFormed(r.tree.nodes)
    ensures Grows(old(Now(r, queue)), Now(r, queue')) && InRangeQueue(Now(r, queue'))
    ensures ImageOf(r.file.bytes, r.superblock, fs, contents, inodes) ==>
      Numbered(fs) && WellFormed(fs.nodes)
      && if error.None? then Halfway(r.file.bytes, fs, inodes, w', Now(r, queue'), p, es, k + 1) else !AllParse(r.file.bytes, fs, inodes)
  {
    ghost var img, sb, a := r.file.bytes, r.superblock, Now(r, queue);
    ReaderSupported(r);
    hide *;
    w' := w;
    queue', error := ReadEntry(r, p, es[k], queue);
    StepGrows(img, sb, a, p, es[k]);
    if ImageOf(img, sb, fs, contents, inodes) {
      w' := StepKeeps(img, sb, fs, contents, inodes, w, a, p, es, k);
    }
  }

  lemma ReaderSupported(r: Reader)
    requires r.Valid()
    ensures Supported(r.superblock)
  {
  }

  /** What a round does with an entry whose inode has just been read. */
  predicate ReadStep(img: seq<byte>, sb: SuperBlock, a: Memory, p: nat, e: Found, inode: Inode)
    requires Supported(sb) && WellFormed(a.nodes) && p < |a.nodes| && e.inode > 0
  {
    && |inode.block| == 60
    && (ParseExtents(inode.block, img).Err? ==> EntryStep(img, sb, a, p, e).1.Some?)
    && (ParseExtents(inode.block, img).Ok? ==>
          EntryStep(img, sb, a, p, e) == (AfterNode(a, p, e, ParseExtents(inode.block, img).value, inode), None))
  }

  lemma ReadStepIs(img: seq<byte>, sb: SuperBlock, a: Memory, p: nat, e: Found, inode: Inode)
    requires Supported(sb) && WellFormed(a.nodes) && p < |a.nodes| && e.inode > 0 && ReadStep(img, sb, a, p, e, inode)
    ensures |inode.block| == 60
    ensures ParseExtents(inode.block, img).Err? ==> EntryStep(img, sb, a, p, e).1.Some?
    ensures ParseExtents(inode.block, img).Ok? ==>
      EntryStep(img, sb, a, p, e) == (AfterNode(a, p, e, ParseExtents(inode.block, img).value, inode), None)
  {
  }

  lemma StepCases(img: seq<byte>, sb: SuperBlock, a: Memory, p: nat, e: Found)
    requires Supported(sb) && WellFormed(a.nodes) && p < |a.nodes| && e.inode > 0
    ensures IsDots(e.name) ==> EntryStep(img, sb, a, p, e) == (a, None)
    ensures !IsDots(e.name) && e.inode in a.inodes ==>
      EntryStep(img, sb, a, p, e) == (a.(links := a.links[PathOf(a.nodes, p) + [e.name] := e.inode]), None)
    ensures !IsDots(e.name) && e.inode !in a.inodes && ReadInode(img, sb, e.inode).Ok? ==>
      ReadStep(img, sb, a, p, e, ReadInode(img, sb, e.inode).value)
  {
    if ReadInode(img, sb, e.inode).Ok? {
      ReadInodeBlock(img, sb, e.inode);
    }
    hide ReadInode, ParseExtents, PathOf, WellFormed, NodeFor, IsDirMode, IsDots;
  }

  lemma StepKeeps(img: seq<byte>, sb: SuperBlock, fs: Fs, contents: seq<Content>, inodes: seq<Inode>,
                  w: Walk, a: Memory, p: nat, es: seq<Found>, k: nat) returns (w': Walk)
    requires ImageOf(img, sb, fs, contents, inodes) && Numbered(fs) && Halfway(img, fs, inodes, w, a, p, es, k)
    requires Supported(sb) && WellFormed(a.nodes) && p < |a.nodes| && k < |es| && es[k].inode > 0
    ensures WellFormed(fs.nodes)
    ensures var step := EntryStep(img, sb, a, p, es[k]);
      if step.1.None? then Halfway(img, fs, inodes, w', step.0, p, es, k + 1) else !AllParse(img, fs, inodes)
  {
    hide *;
    ImageParts(img, sb, fs, contents, inodes);
    StepCases(img, sb, a, p, es[k]);
    w' := w;
    if IsDots(es[k].name) {
      StepDots(img, fs, inodes, w, a, p, es, k);
    } else if es[k].inode in a.inodes {
      w' := StepLink(img, sb, fs, contents, inodes, w, a, p, es, k);
    } else {
      StepFails(img, sb, fs, contents, inodes, w, a, p, es, k);
      var inode := ReadInode(img, sb, es[k].inode).value;
      ReadStepIs(img, sb, a, p, es[k], inode);
      if ParseExtents(inode.block, img).Ok? {
        w' := StepNode(img, sb, fs, contents, inodes, w, a, p, es, k, inode, ParseExtents(inode.block, img).value);
      }
    }
  }

  /** All entries of one directory. */
  method ReadEntries(r: Reader, p: nat, es: seq<Found>, queue: seq<(nat, nat)>,
                     ghost fs: Fs, ghost contents: seq<Content>, ghost inodes: seq<Inode>, ghost w: Walk)
    returns (queue': seq<(nat, nat)>, error: Option<ReadError>, ghost w': Walk)
    requires r.Valid() && p < |r.tree.nodes| && WellFormed(r.tree.nodes) && AllNumbered(es)
    requires InRangeQueue(Now(r, queue))
    requires ImageOf(r.file.bytes, r.superblock, fs, contents, inodes) ==>
      Numbered(fs) && Halfway(r.file.bytes, fs, inodes, w, Now(r, queue), p, es, 0)
    modifies r`groupDescriptors, r`inodes, r`hardlinks, r.tree
    ensures r.Valid() && WellFormed(r.tree.nodes)
    ensures Grows(old(Now(r, queue)), Now(r, queue')) && InRangeQueue(Now(r, queue'))
    ensures ImageOf(r.file.bytes, r.superblock, fs, contents, inodes) ==>
      Numbered(fs) && WellFormed(fs.nodes)
      && if error.None? then Halfway(r.file.bytes, fs, inodes, w', Now(r, queue'), p, es, |es|) else !AllParse(r.file.bytes, fs, inodes)
  {
    ghost var img, sb, a := r.file.bytes, r.superblock, Now(r, queue);
    ghost var good := ImageOf(img, sb, fs, contents, inodes);
    queue', error, w' := queue, None, w;
    hide *;
    GrowsSelf(a);
    if good {
      ImageParts(img, sb, fs, contents, inodes);
    }
    for k := 0 to |es|
      invariant r.Valid() && WellFormed(r.tree.nodes) && p < |r.tree.nodes| && error == None
      invariant Grows(a, Now(r, queue')) && InRangeQueue(Now(r, queue'))
      invariant good ==> Halfway(img, fs, inodes, w', Now(r, queue'), p, es, k)
    {
      NumberedAt(es, k);
      ghost var before := Now(r, queue');
      NowIs(r, queue');
      queue', error, w' := ReadNext(r, p, es, k, queue', fs, contents, inodes, w');
      NowIs(r, queue');
      GrowsTrans(a, before, Now(r, queue'));
      GrowsNodes(before, Now(r, queue'));
      if error.Some? {
        return;
      }
    }
  }

  lemma GrowsSelf(a: Memory)
    ensures Grows(a, a)
  {
  }

  /** One directory from the queue. */
  method ReadDirectory(r: Reader, p: nat, number: nat, queue: seq<(nat, nat)>,
                       ghost fs: Fs, ghost contents: seq<Content>, ghost inodes: seq<Inode>, ghost w: Walk)
    returns (queue': seq<(nat, nat)>, error: Option<ReadError>, ghost w': Walk)
    requires r.Valid() && p < |r.tree.nodes| && WellFormed(r.tree.nodes) && 0 < number < 0x1_0000_0000
    requires InRangeQueue(Now(r, queue))
    requires ImageOf(r.file.bytes, r.superblock, fs, contents, inodes) ==>
      Numbered(fs) && Between(r.file.bytes, fs, inodes, w, Now(r, queue + [(p, number)]))
    modifies r`groupDescriptors, r`inodes, r`hardlinks, r.tree
    ensures r.Valid() && WellFormed(r.tree.nodes)
    ensures Grows(old(Now(r, queue)), Now(r, queue')) && InRangeQueue(Now(r, queue'))
    ensures ImageOf(r.file.bytes, r.superblock, fs, contents, inodes) ==>
      Numbered(fs) && WellFormed(fs.nodes)
      && if error.None? then Between(r.file.bytes, fs, inodes, w', Now(r, queue')) else !AllParse(r.file.bytes, fs, inodes)
  {
    ghost var img, sb, a, a0 := r.file.bytes, r.superblock, Now(r, queue), Now(r, queue + [(p, number)]);
    ghost var good := ImageOf(img, sb, fs, contents, inodes);
    ReaderSupported(r);
    hide *;
    NowIs(r, queue);
    NowIs(r, queue + [(p, number)]);
    var es := r.GetDirEntries(number);
    NowIs(r, queue);
    ghost var b := Now(r, queue);
    CacheGrowth(a, number, ReadInode(img, sb, number), b);
    if good {
      DirIsHalfway(img, sb, fs, contents, inodes, w, a0, queue, p, number, b);
    }
    if es.Err? {
      return queue, Some(es.error), w;
    }
    EntriesNumbered(img, sb, number);
    queue', error, w' := ReadEntries(r, p, es.value, queue, fs, contents, inodes, w);
    GrowsTrans(a, b, Now(r, queue'));
    if good && error.None? {
      EndDir(img, fs, inodes, w', Now(r, queue'), p, es.value);
    }
  }

  lemma DirIsHalfway(img: seq<byte>, sb: SuperBlock, fs: Fs, contents: seq<Content>, inodes: seq<Inode>, w: Walk, a0: Memory,
                     queue: seq<(nat, nat)>, p: nat, n: nat, b: Memory)
    requires ImageOf(img, sb, fs, contents, inodes) && Numbered(fs) && Between(img, fs, inodes, w, a0) && n > 0 && Supported(sb)
    requires a0.queue == queue + [(p, n)]
    requires b == a0.(queue := queue, inodes := if ReadInode(img, sb, n).Ok? then a0.inodes[n := ReadInode(img, sb, n).value] else a0.inodes)
    ensures Listable(fs) && DirEntries(img, sb, n).Ok? && Halfway(img, fs, inodes, w, b, p, DirEntries(img, sb, n).value, 0)
  {
    hide *;
    ImageParts(img, sb, fs, contents, inodes);
    LastOf(queue, p, n);
    var es := BeginDir(img, sb, fs, contents, inodes, w, a0);
    TakenMemory(a0, queue, p, n, ReadInode(img, sb, n).value, b);
  }

  lemma LastOf(queue: seq<(nat, nat)>, p: nat, n: nat)
    ensures var q := queue + [(p, n)]; q != [] && q[|q| - 1] == (p, n)
  {
  }

  lemma NumberedAt(es: seq<Found>, k: nat)
    requires AllNumbered(es) && k < |es|
    ensures 0 < es[k].inode < 0x1_0000_0000
  {
  }

  lemma GrowsNodes(a: Memory, b: Memory)
    requires Grows(a, b)
    ensures |a.nodes| <= |b.nodes|
  {
  }

  lemma CacheGrowth(a: Memory, n: nat, inode: Result<Inode, ReadError>, b: Memory)
    requires b == a.(inodes := if inode.Ok? then a.inodes[n := inode.value] else a.inodes)
    ensures Grows(a, b) && (InRangeQueue(a) ==> InRangeQueue(b))
  {
  }

  lemma TakenMemory(a: Memory, queue: seq<(nat, nat)>, p: nat, n: nat, inode: Inode, b: Memory)
    requires a.queue == queue + [(p, n)] && b == a.(queue := queue, inodes := a.inodes[n := inode])
    ensures a.queue[|a.queue| - 1] == (p, n) && AfterTaking(a, n, inode) == b
  {
    assert a.queue[..|a.queue| - 1] == queue;
  }

  /** Cached numbers are 32-bit numbers, so there is an end to new ones. */
  lemma CacheBounded(img: seq<byte>, sb: SuperBlock, descriptors: map<nat, GroupDescriptor>, inodes: map<nat, Inode>)
    requires Supported(sb) && CachesOk(img, sb, descriptors, inodes)
    ensures |inodes.Keys| <= 0x1_0000_0000
  {
    forall n | n in inodes.Keys ensures 0 <= n < 0x1_0000_0000 {
      assert CachedOk(img, sb, inodes, n);
    }
    hide CachedOk, ReadDescriptor;
    Bounded(inodes.Keys, 0x1_0000_0000);
  }

  lemma {:induction false} Bounded(s: set<nat>, n: nat)
    requires forall x :: x in s ==> x < n
    ensures |s| <= n
  {
    if n == 0 {
      assert s == {};
    } else {
      Bounded(s - {n - 1}, n - 1);
    }
  }

  lemma ReaderBounded(r: Reader)
    requires r.Valid()
    ensures |r.inodes.Keys| <= 0x1_0000_0000
  {
    CacheBounded(r.file.bytes, r.superblock, r.groupDescriptors, r.inodes);
  }

  /** Open an image. The traversal ends on every image; on the image of a file
      system it fails only if some extents cannot be parsed, and otherwise brings
      back exactly its names, with their inodes. */
  method Open(file: ImageFile, ghost fs: Fs, ghost contents: seq<Content>, ghost inodes: seq<Inode>)
    returns (result: Result<Reader, ReadError>)
    requires ReadSuper(file.bytes).Ok? ==> Supported(ReadSuper(file.bytes).value)
    ensures ReadSuper(file.bytes).Err? ==> result == Err(ReadSuper(file.bytes).error)
    ensures result.Ok? ==>
      && fresh(result.value) && result.value.Valid() && result.value.file == file
      && ReadSuper(file.bytes) == Ok(result.value.superblock)
    ensures ReadSuper(file.bytes).Ok? && ImageOf(file.bytes, ReadSuper(file.bytes).value, fs, contents, inodes) ==>
      && WellFormed(fs.nodes)
      && (result.Ok? <==> AllParse(file.bytes, fs, inodes))
      && (result.Ok? ==>
            Recovered(fs, result.value.tree.nodes, result.value.hardlinks) && CacheRight(inodes, result.value.inodes))
  {
    hide *;
    var super := FetchSuper(file);
    if super.Err? {
      return Err(super.error);
    }
    ghost var img, sb := file.bytes, super.value;
    ghost var good := ImageOf(img, sb, fs, contents, inodes);
    var r := new Reader(file, super.value);
    var queue := [(0, ROOT_INODE)];
    ghost var w := StartWalk();
    StartIs(r, queue);
    if good {
      ImageParts(img, sb, fs, contents, inodes);
      Begins(img, fs, inodes);
    }
    while queue != []
      invariant r.Valid() && WellFormed(r.tree.nodes) && fresh(r) && fresh(r.tree)
      invariant InRangeQueue(Now(r, queue))
      invariant good ==> Numbered(fs) && Between(img, fs, inodes, w, Now(r, queue))
      decreases 0x1_0000_0000 - |r.inodes.Keys|, |queue|
    {
      ReaderBounded(r);
      var last := queue[|queue| - 1];
      ghost var was, rest := Now(r, queue), queue[..|queue| - 1];
      NowIs(r, queue);
      PopIs(was, queue);
      queue := queue[..|queue| - 1];
      var error;
      ghost var before := Now(r, queue);
      NowIs(r, queue);
      queue, error, w := ReadDirectory(r, last.0, last.1, queue, fs, contents, inodes, w);
      NowIs(r, queue);
      GrowsMeasure(before, Now(r, queue), rest);
      if error.Some? {
        return Err(error.value);
      }
    }
    NowIs(r, queue);
    if good {
      Ends(img, sb, fs, contents, inodes, w, Now(r, queue));
    }
    result := Ok(r);
  }

  method FetchSuper(file: ImageFile) returns (r: Result<SuperBlock, ReadError>)
    ensures r == ReadSuper(file.bytes)
  {
    if |file.bytes| < 2048 {
      return Err(CouldNotReadSuperBlock);
    }
    var sb := DecodeSuper(file.bytes[1024..2048]);
    if sb.magic != SUPER_MAGIC {
      return Err(InvalidSuperBlock);
    }
    r := Ok(sb);
  }

  lemma StartIs(r: Reader, queue: seq<(nat, nat)>)
    requires r.Valid() && r.tree.nodes == StartNodes() && r.inodes == map[] && r.hardlinks == map[] && queue == [(0, ROOT_INODE)]
    ensures Now(r, queue) == StartMemory() && InRangeQueue(Now(r, queue)) && WellFormed(r.tree.nodes)
  {
  }

  lemma PopIs(a: Memory, queue: seq<(nat, nat)>)
    requires a.queue == queue && queue != [] && InRangeQueue(a)
    ensures var last, rest := queue[|queue| - 1], queue[..|queue| - 1];
      && queue == rest + [(last.0, last.1)] && InRangeQueue(a.(queue := rest))
      && last.0 < |a.nodes| && 0 < last.1 < 0x1_0000_0000
  {
  }

  lemma GrowsMeasure(a: Memory, b: Memory, rest: seq<(nat, nat)>)
    requires Grows(a, b) && a.queue == rest
    ensures b.queue == rest || |a.inodes.Keys| < |b.inodes.Keys|
    ensures |a.inodes.Keys| <= |b.inodes.Keys|
  {
    SubsetSize(a.inodes.Keys, b.inodes.Keys);
  }
}
