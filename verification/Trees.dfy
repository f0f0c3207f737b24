/** The in-memory file tree (file_tree.rs): a flat list of nodes linked by
    indices, and a `(parent, name)` index that must agree with scanning the
    child lists it replaces. A path is its list of components. */
module Trees {
  import opened Basics
  import opened Extents

  type Path = seq<Name>

  datatype Node = Node(
    inode: nat,
    name: Name,
    children: seq<nat>,
    parent: Option<nat>,
    blocks: Option<BlockRange>,
    additional: seq<BlockRange>,
    link: Option<nat>)

  type Nodes = seq<Node>

  // ---- The scan ----

  /** Every index in `kids` is that of a node. */
  predicate InRange(nodes: Nodes, kids: seq<nat>) {
    forall k :: 0 <= k < |kids| ==> kids[k] < |nodes|
  }

  /** The first of `kids` called `name`: what a linear scan finds. */
  function FirstNamed(nodes: Nodes, kids: seq<nat>, name: Name): Option<nat>
    requires InRange(nodes, kids)
  {
    if kids == [] then None
    else if nodes[kids[0]].name == name then Some(kids[0])
    else FirstNamed(nodes, kids[1..], name)
  }

  /** Node 0 is the root; a child comes after its parent and knows it; no node
      is listed twice. */
  predicate WellFormed(nodes: Nodes) {
    && |nodes| > 0 && nodes[0].parent == None
    && (forall p :: 0 <= p < |nodes| ==> KidsOk(nodes, p))
    && (forall i :: 0 < i < |nodes| ==> nodes[i].parent.Some? && nodes[i].parent.value < i)
  }

  predicate KidsOk(nodes: Nodes, p: nat)
    requires p < |nodes|
  {
    var kids := nodes[p].children;
    && (forall k :: 0 <= k < |kids| ==> p < kids[k] < |nodes| && nodes[kids[k]].parent == Some(p))
    && Distinct(kids)
  }

  predicate Distinct(kids: seq<nat>) {
    forall j, k :: 0 <= j < k < |kids| ==> kids[j] != kids[k]
  }

  /** Walk `path` down from node `cur`, scanning child lists. */
  function Find(nodes: Nodes, cur: nat, path: Path): (r: Option<nat>)
    requires WellFormed(nodes) && cur < |nodes|
    ensures r.Some? ==> r.value < |nodes|
    decreases |path|
  {
    if path == [] then Some(cur)
    else
      assert KidsOk(nodes, cur);
      match FirstNamed(nodes, nodes[cur].children, path[0])
      case None => None
      case Some(c) => FirstIsKid(nodes, nodes[cur].children, path[0]); Find(nodes, c, path[1..])
  }

  lemma {:induction false} FirstIsKid(nodes: Nodes, kids: seq<nat>, name: Name)
    requires InRange(nodes, kids)
    ensures var f := FirstNamed(nodes, kids, name);
      && (f.Some? ==> f.value in kids && nodes[f.value].name == name)
      && (f.None? ==> forall k :: 0 <= k < |kids| ==> nodes[kids[k]].name != name)
  {
    if kids != [] && nodes[kids[0]].name != name {
      FirstIsKid(nodes, kids[1..], name);
      assert kids == [kids[0]] + kids[1..];
    }
  }

  /** Scanning a list in two parts. */
  lemma {:induction false} FirstOfTwo(nodes: Nodes, a: seq<nat>, b: seq<nat>, name: Name)
    requires InRange(nodes, a) && InRange(nodes, b)
    ensures InRange(nodes, a + b)
    ensures FirstNamed(nodes, a + b, name)
         == if FirstNamed(nodes, a, name).Some? then FirstNamed(nodes, a, name) else FirstNamed(nodes, b, name)
  {
    if a == [] {
      assert a + b == b;
    } else {
      FirstOfTwo(nodes, a[1..], b, name);
      assert (a + b)[1..] == a[1..] + b;
    }
  }

  /** The scan depends on nothing but the names of the nodes listed. */
  lemma {:induction false} FirstSameNames(nodes: Nodes, nodes': Nodes, kids: seq<nat>, name: Name)
    requires InRange(nodes, kids) && InRange(nodes', kids)
    requires forall k :: 0 <= k < |kids| ==> nodes[kids[k]].name == nodes'[kids[k]].name
    ensures FirstNamed(nodes, kids, name) == FirstNamed(nodes', kids, name)
  {
    if kids != [] {
      FirstSameNames(nodes, nodes', kids[1..], name);
    }
  }

  // ---- Adding and removing a child ----

  function WithChild(nodes: Nodes, parent: nat, node: Node): (r: Nodes)
    requires parent < |nodes|
    ensures |r| == |nodes| + 1
  {
    var p := nodes[parent];
    nodes[parent := p.(children := p.children + [|nodes|])] + [node.(parent := Some(parent))]
  }

  /** `kids` without its first member called `name`. */
  function DropFirst(nodes: Nodes, kids: seq<nat>, name: Name): seq<nat>
    requires InRange(nodes, kids)
  {
    if kids == [] then []
    else if nodes[kids[0]].name == name then kids[1..]
    else [kids[0]] + DropFirst(nodes, kids[1..], name)
  }

  function WithoutChild(nodes: Nodes, parent: nat, name: Name): (r: Nodes)
    requires parent < |nodes| && InRange(nodes, nodes[parent].children)
    ensures |r| == |nodes|
  {
    nodes[parent := nodes[parent].(children := DropFirst(nodes, nodes[parent].children, name))]
  }

  lemma {:induction false} DropFirstAt(nodes: Nodes, kids: seq<nat>, name: Name, pos: nat)
    requires InRange(nodes, kids) && pos < |kids|
    requires nodes[kids[pos]].name == name && forall k :: 0 <= k < pos ==> nodes[kids[k]].name != name
    ensures DropFirst(nodes, kids, name) == kids[..pos] + kids[pos + 1..]
    ensures FirstNamed(nodes, kids, name) == Some(kids[pos])
  {
    if pos > 0 {
      DropFirstAt(nodes, kids[1..], name, pos - 1);
      assert kids[1..][..pos - 1] == kids[1..pos];
      assert kids[1..][pos..] == kids[pos + 1..];
      assert [kids[0]] + kids[1..pos] == kids[..pos];
    }
  }

  lemma {:induction false} DropFirstNone(nodes: Nodes, kids: seq<nat>, name: Name)
    requires InRange(nodes, kids) && forall k :: 0 <= k < |kids| ==> nodes[kids[k]].name != name
    ensures DropFirst(nodes, kids, name) == kids
  {
    if kids != [] {
      DropFirstNone(nodes, kids[1..], name);
    }
  }

  lemma AddKeepsWellFormed(nodes: Nodes, parent: nat, node: Node)
    requires WellFormed(nodes) && parent < |nodes| && node.children == []
    ensures WellFormed(WithChild(nodes, parent, node))
  {
    var nodes' := WithChild(nodes, parent, node);
    forall p | 0 <= p < |nodes'| ensures KidsOk(nodes', p) {
      if p < |nodes| {
        assert KidsOk(nodes, p);
        var kids, kids' := nodes[p].children, nodes'[p].children;
        forall k | 0 <= k < |kids'| ensures p < kids'[k] < |nodes'| && nodes'[kids'[k]].parent == Some(p) {
          if k < |kids| {
            assert kids'[k] == kids[k];
          }
        }
      }
    }
  }

  lemma RemoveKeepsWellFormed(nodes: Nodes, parent: nat, name: Name)
    requires WellFormed(nodes) && parent < |nodes| && InRange(nodes, nodes[parent].children)
    ensures WellFormed(WithoutChild(nodes, parent, name))
  {
    var nodes' := WithoutChild(nodes, parent, name);
    assert KidsOk(nodes, parent);
    DropFirstIsSublist(nodes, nodes[parent].children, name);
    forall p | 0 <= p < |nodes'| ensures KidsOk(nodes', p) {
      assert KidsOk(nodes, p);
      var kids, kids' := nodes[p].children, nodes'[p].children;
      forall k | 0 <= k < |kids'| ensures p < kids'[k] < |nodes'| && nodes'[kids'[k]].parent == Some(p) {
        assert kids'[k] in kids;
      }
    }
  }

  /** Dropping a member takes a sublist: members stay members and distinct. */
  lemma {:induction false} DropFirstIsSublist(nodes: Nodes, kids: seq<nat>, name: Name)
    requires InRange(nodes, kids)
    ensures forall x :: x in DropFirst(nodes, kids, name) ==> x in kids
    ensures Distinct(kids) ==> Distinct(DropFirst(nodes, kids, name))
  {
    if kids != [] {
      var tail := kids[1..];
      assert kids == [kids[0]] + tail;
      assert forall k :: 0 <= k < |tail| ==> tail[k] == kids[k + 1];
      DropFirstIsSublist(nodes, tail, name);
      var d := DropFirst(nodes, kids, name);
      if Distinct(kids) && nodes[kids[0]].name != name {
        forall j, k | 0 <= j < k < |d| ensures d[j] != d[k] {
          assert d[k] in tail;
        }
      }
    }
  }

  /** Among distinct children, exactly the first one of that name goes. */
  lemma DropFirstMembers(nodes: Nodes, kids: seq<nat>, name: Name, c: nat)
    requires InRange(nodes, kids) && Distinct(kids) && FirstNamed(nodes, kids, name) == Some(c)
    ensures forall x :: x in DropFirst(nodes, kids, name) <==> x in kids && x != c
    ensures |DropFirst(nodes, kids, name)| == |kids| - 1
  {
    if kids != [] {
      assert kids == [kids[0]] + kids[1..];
      if nodes[kids[0]].name != name {
        DropFirstMembers(nodes, kids[1..], name, c);
        FirstIsKid(nodes, kids[1..], name);
      }
    }
  }

  // ---- The index ----

  type NameIndex = map<(nat, Name), nat>

  function Get(index: NameIndex, p: nat, name: Name): Option<nat> {
    if (p, name) in index then Some(index[(p, name)]) else None
  }

  /** The index answers every question exactly as the scan would. */
  ghost predicate IndexOk(nodes: Nodes, index: NameIndex)
    requires WellFormed(nodes)
  {
    && (forall p, name :: 0 <= p < |nodes| ==> IndexOkAt(nodes, index, p, name))
    && (forall key :: key in index ==> key.0 < |nodes|)
  }

  predicate IndexOkAt(nodes: Nodes, index: NameIndex, p: nat, name: Name)
    requires WellFormed(nodes) && p < |nodes|
  {
    assert KidsOk(nodes, p);
    Get(index, p, name) == FirstNamed(nodes, nodes[p].children, name)
  }

  lemma AddKeepsIndex(nodes: Nodes, index: NameIndex, parent: nat, node: Node)
    requires WellFormed(nodes) && IndexOk(nodes, index) && parent < |nodes| && node.children == []
    ensures WellFormed(WithChild(nodes, parent, node))
    ensures IndexOk(WithChild(nodes, parent, node),
                    if (parent, node.name) in index then index else index[(parent, node.name) := |nodes|])
  {
    AddKeepsWellFormed(nodes, parent, node);
    var nodes' := WithChild(nodes, parent, node);
    var index' := if (parent, node.name) in index then index else index[(parent, node.name) := |nodes|];
    forall p, name | 0 <= p < |nodes'| ensures IndexOkAt(nodes', index', p, name) {
      assert KidsOk(nodes', p);
      if p < |nodes| {
        assert IndexOkAt(nodes, index, p, name);
        var kids := nodes[p].children;
        assert KidsOk(nodes, p);
        FirstSameNames(nodes, nodes', kids, name);
        if p == parent {
          FirstOfTwo(nodes', kids, [|nodes|], name);
        }
      }
    }
  }

  /** Repointing the index at the next child of that name, or dropping the key
      when there is none, keeps it in step with the scan. */
  lemma RemoveKeepsIndex(nodes: Nodes, index: NameIndex, parent: nat, name: Name)
    requires WellFormed(nodes) && IndexOk(nodes, index) && parent < |nodes|
    requires InRange(nodes, nodes[parent].children)
    ensures var nodes' := WithoutChild(nodes, parent, name);
      && WellFormed(nodes') && InRange(nodes', nodes'[parent].children)
      && IndexOk(nodes', match FirstNamed(nodes', nodes'[parent].children, name)
                         case Some(c) => index[(parent, name) := c]
                         case None => index - {(parent, name)})
  {
    RemoveKeepsWellFormed(nodes, parent, name);
    var nodes' := WithoutChild(nodes, parent, name);
    assert KidsOk(nodes', parent);
    var next := FirstNamed(nodes', nodes'[parent].children, name);
    var index' := match next case Some(c) => index[(parent, name) := c] case None => index - {(parent, name)};
    forall p, m | 0 <= p < |nodes'| ensures IndexOkAt(nodes', index', p, m) {
      assert KidsOk(nodes, p) && KidsOk(nodes', p);
      assert IndexOkAt(nodes, index, p, m);
      if p != parent {
        FirstSameNames(nodes, nodes', nodes[p].children, m);
      } else if m != name {
        DropFirstOther(nodes, nodes[p].children, name, m);
        FirstSameNames(nodes, nodes', nodes'[p].children, m);
      }
    }
  }

  /** Dropping a child called `name` does not change what other names find. */
  lemma {:induction false} DropFirstOther(nodes: Nodes, kids: seq<nat>, name: Name, m: Name)
    requires InRange(nodes, kids) && m != name
    ensures InRange(nodes, DropFirst(nodes, kids, name))
    ensures FirstNamed(nodes, DropFirst(nodes, kids, name), m) == FirstNamed(nodes, kids, m)
  {
    if kids != [] && nodes[kids[0]].name != name {
      DropFirstOther(nodes, kids[1..], name, m);
      var d := DropFirst(nodes, kids[1..], name);
      assert ([kids[0]] + d)[1..] == d;
    }
  }

  /** The two trees differ in nothing but block ranges. */
  predicate SameShape(nodes: Nodes, nodes': Nodes) {
    |nodes| == |nodes'| && forall i :: 0 <= i < |nodes| ==> nodes'[i] == nodes[i].(blocks := nodes'[i].blocks)
  }

  lemma BlocksKeepShape(nodes: Nodes, nodes': Nodes, i: nat, range: BlockRange)
    requires i < |nodes| && nodes' == nodes[i := nodes[i].(blocks := Some(range))]
    ensures SameShape(nodes, nodes')
  {
  }

  lemma SameShapeValid(nodes: Nodes, nodes': Nodes, index: NameIndex)
    requires WellFormed(nodes) && SameShape(nodes, nodes')
    ensures WellFormed(nodes')
    ensures IndexOk(nodes, index) ==> IndexOk(nodes', index)
  {
    forall p | 0 <= p < |nodes'| ensures KidsOk(nodes', p) {
      assert KidsOk(nodes, p);
    }
    if IndexOk(nodes, index) {
      forall p, name | 0 <= p < |nodes'| ensures IndexOkAt(nodes', index, p, name) {
        assert KidsOk(nodes, p) && KidsOk(nodes', p) && IndexOkAt(nodes, index, p, name);
        FirstSameNames(nodes, nodes', nodes[p].children, name);
      }
    }
  }

  // ---- Paths ----

  /** The names on the way from the root to node `i`, the root's excluded. */
  function PathOf(nodes: Nodes, i: nat): Path
    requires WellFormed(nodes) && i < |nodes|
    decreases i
  {
    if i == 0 then [] else PathOf(nodes, nodes[i].parent.value) + [nodes[i].name]
  }

  /** Node `i` hangs under the root: its parent lists it, and so on upwards. */
  predicate Attached(nodes: Nodes, i: nat)
    requires WellFormed(nodes) && i < |nodes|
    decreases i
  {
    i == 0 || (i in nodes[nodes[i].parent.value].children && Attached(nodes, nodes[i].parent.value))
  }

  /** No two siblings share a name. */
  predicate UniqueNames(nodes: Nodes)
    requires WellFormed(nodes)
  {
    forall p :: 0 <= p < |nodes| ==> KidsUnique(nodes, p)
  }

  predicate KidsUnique(nodes: Nodes, p: nat)
    requires WellFormed(nodes) && p < |nodes|
  {
    assert KidsOk(nodes, p);
    var kids := nodes[p].children;
    forall j, k :: 0 <= j < k < |kids| ==> nodes[kids[j]].name != nodes[kids[k]].name
  }

  lemma {:induction false} FindConcat(nodes: Nodes, cur: nat, a: Path, b: Path)
    requires WellFormed(nodes) && cur < |nodes|
    ensures Find(nodes, cur, a + b)
         == match Find(nodes, cur, a) case None => None case Some(m) => Find(nodes, m, b)
    decreases |a|
  {
    if a == [] {
      assert a + b == b;
    } else {
      assert (a + b)[1..] == a[1..] + b && (a + b)[0] == a[0];
      assert KidsOk(nodes, cur);
      var f := FirstNamed(nodes, nodes[cur].children, a[0]);
      if f.Some? {
        FirstIsKid(nodes, nodes[cur].children, a[0]);
        FindConcat(nodes, f.value, a[1..], b);
      }
    }
  }

  /** One step of the walk. */
  lemma FindOne(nodes: Nodes, cur: nat, name: Name)
    requires WellFormed(nodes) && cur < |nodes|
    ensures InRange(nodes, nodes[cur].children)
    ensures Find(nodes, cur, [name]) == FirstNamed(nodes, nodes[cur].children, name)
  {
    assert KidsOk(nodes, cur);
    FirstIsKid(nodes, nodes[cur].children, name);
    assert [name][1..] == [];
  }

  lemma FindSnoc(nodes: Nodes, path: Path, name: Name)
    requires WellFormed(nodes)
    ensures Find(nodes, 0, path + [name])
         == match Find(nodes, 0, path)
            case None => None
            case Some(p) => (FindOne(nodes, p, name); FirstNamed(nodes, nodes[p].children, name))
  {
    FindConcat(nodes, 0, path, [name]);
    var f := Find(nodes, 0, path);
    if f.Some? {
      FindOne(nodes, f.value, name);
    }
  }

  /** Among uniquely named children, the scan finds exactly the one asked for. */
  lemma FirstUnique(nodes: Nodes, p: nat, c: nat)
    requires WellFormed(nodes) && p < |nodes| && KidsUnique(nodes, p) && c in nodes[p].children
    ensures c < |nodes| && InRange(nodes, nodes[p].children)
    ensures FirstNamed(nodes, nodes[p].children, nodes[c].name) == Some(c)
  {
    assert KidsOk(nodes, p);
    var kids := nodes[p].children;
    var k :| 0 <= k < |kids| && kids[k] == c;
    DropFirstAt(nodes, kids, nodes[c].name, k);
  }

  /** With unique sibling names, the path of an attached node leads back to it. */
  lemma {:induction false} LookupOfPath(nodes: Nodes, i: nat)
    requires WellFormed(nodes) && UniqueNames(nodes) && i < |nodes| && Attached(nodes, i)
    ensures Find(nodes, 0, PathOf(nodes, i)) == Some(i)
    decreases i
  {
    if i > 0 {
      var p := nodes[i].parent.value;
      LookupOfPath(nodes, p);
      FindSnoc(nodes, PathOf(nodes, p), nodes[i].name);
      assert KidsUnique(nodes, p);
      FirstUnique(nodes, p, i);
    }
  }

  /** Whatever a lookup finds is attached, and under exactly that path. */
  lemma {:induction false} PathOfLookup(nodes: Nodes, path: Path)
    requires WellFormed(nodes)
    ensures var f := Find(nodes, 0, path);
      f.Some? ==> Attached(nodes, f.value) && PathOf(nodes, f.value) == path
    decreases |path|
  {
    if path != [] {
      var up, name := path[..|path| - 1], path[|path| - 1];
      assert path == up + [name];
      PathOfLookup(nodes, up);
      FindSnoc(nodes, up, name);
      var f := Find(nodes, 0, path);
      if f.Some? {
        var p := Find(nodes, 0, up).value;
        assert KidsOk(nodes, p);
        FirstIsKid(nodes, nodes[p].children, name);
      }
    }
  }

  // ---- The tree itself ----

  class FileTree {
    var nodes: Nodes
    var index: NameIndex

    /** Lookups through the index are lookups by scanning. */
    ghost predicate Valid()
      reads this
    {
      WellFormed(nodes) && IndexOk(nodes, index)
    }

    constructor (rootInode: nat, name: Name)
      ensures Valid()
      ensures nodes == [Node(rootInode, name, [], None, None, [], None)] && index == map[]
    {
      nodes := [Node(rootInode, name, [], None, None, [], None)];
      index := map[];
      new;
      assert KidsOk(nodes, 0);
      forall p, name | 0 <= p < |nodes| ensures IndexOkAt(nodes, index, p, name) {
      }
    }

    /** Every component is one index probe, and the answer is the scan's. */
    method Lookup(path: Path) returns (r: Option<nat>)
      requires Valid()
      ensures r == Find(nodes, 0, path)
    {
      var current := 0;
      var i := 0;
      while i < |path|
        invariant i <= |path| && current < |nodes|
        invariant Find(nodes, 0, path) == Find(nodes, current, path[i..])
        decreases |path| - i
      {
        assert IndexOkAt(nodes, index, current, path[i]);
        assert path[i..][1..] == path[i + 1..];
        match Get(index, current, path[i]) {
          case Some(child) =>
            assert KidsOk(nodes, current);
            FirstIsKid(nodes, nodes[current].children, path[i]);
            current := child;
          case None =>
            return None;
        }
        i := i + 1;
      }
      r := Some(current);
    }

    method AddChild(parent: nat, node: Node) returns (idx: nat)
      requires Valid() && parent < |nodes| && node.children == []
      modifies this
      ensures Valid()
      ensures idx == |old(nodes)| && nodes == WithChild(old(nodes), parent, node)
    {
      AddKeepsIndex(nodes, index, parent, node);
      idx := |nodes|;
      var placed := node.(parent := Some(parent));
      nodes := nodes + [placed];
      var p := nodes[parent];
      nodes := nodes[parent := p.(children := p.children + [idx])];
      assert nodes == WithChild(old(nodes), parent, node);
      if (parent, node.name) !in index {
        index := index[(parent, node.name) := idx];
      }
    }

    /** Detach the first child of that name; nothing happens if there is none. */
    method RemoveChild(parent: nat, name: Name)
      requires Valid() && parent < |nodes|
      requires InRange(nodes, nodes[parent].children)
      modifies this
      ensures Valid()
      ensures nodes == WithoutChild(old(nodes), parent, name)
    {
      RemoveKeepsIndex(nodes, index, parent, name);
      var kids := nodes[parent].children;
      var pos := 0;
      while pos < |kids| && nodes[kids[pos]].name != name
        invariant pos <= |kids|
        invariant forall k :: 0 <= k < pos ==> nodes[kids[k]].name != name
      {
        pos := pos + 1;
      }
      if pos == |kids| {
        DropFirstNone(nodes, kids, name);
        return;
      }
      DropFirstAt(nodes, kids, name, pos);
      nodes := nodes[parent := nodes[parent].(children := kids[..pos] + kids[pos + 1..])];
      var next := FirstChildNamed(parent, name);
      match next
      case Some(c) => index := index[(parent, name) := c];
      case None => index := index - {(parent, name)};
    }

    /** `node_mut(i).blocks = Some(range)`: the tree keeps its shape. */
    method SetBlocks(i: nat, range: BlockRange)
      requires Valid() && i < |nodes|
      modifies this`nodes
      ensures Valid()
      ensures nodes == old(nodes)[i := old(nodes)[i].(blocks := Some(range))]
    {
      ghost var was := nodes;
      nodes := nodes[i := nodes[i].(blocks := Some(range))];
      hide *;
      BlocksKeepShape(was, nodes, i, range);
      SameShapeValid(was, nodes, index);
    }

    /** The scan that only removal still pays for. */
    method FirstChildNamed(parent: nat, name: Name) returns (r: Option<nat>)
      requires parent < |nodes| && InRange(nodes, nodes[parent].children)
      ensures r == FirstNamed(nodes, nodes[parent].children, name)
    {
      var kids := nodes[parent].children;
      for k := 0 to |kids|
        invariant FirstNamed(nodes, kids, name) == FirstNamed(nodes, kids[k..], name)
      {
        if nodes[kids[k]].name == name {
          return Some(kids[k]);
        }
        assert kids[k..][1..] == kids[k + 1..];
      }
      r := None;
    }

    /** The walk up the parent chain ends at the root and yields the path. */
    method NodePath(idx: nat) returns (path: Path)
      requires Valid() && idx < |nodes|
      ensures path == PathOf(nodes, idx)
    {
      var parts: Path := [];
      var current: nat := idx;
      assert Reversed(parts) == [];
      while nodes[current].parent.Some?
        invariant current < |nodes|
        invariant current > 0 ==> nodes[current].parent.Some?
        invariant PathOf(nodes, idx) == PathOf(nodes, current) + Reversed(parts)
        decreases current
      {
        ReversedSnoc(parts, nodes[current].name);
        parts := parts + [nodes[current].name];
        current := nodes[current].parent.value;
      }
      assert current == 0;
      path := Reversed(parts);
    }
  }

  lemma ReversedSnoc<T>(s: seq<T>, x: T)
    ensures Reversed(s + [x]) == [x] + Reversed(s)
  {
  }

  function Reversed<T>(s: seq<T>): (r: seq<T>)
    ensures |r| == |s| && forall i :: 0 <= i < |s| ==> r[i] == s[|s| - 1 - i]
  {
    seq(|s|, i requires 0 <= i < |s| => s[|s| - 1 - i])
  }
}
