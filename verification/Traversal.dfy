/** The breadth-first walk `commit_directories` starts with: every name below
    the root is met exactly once, with the node it hangs under. */
module Traversal {
  import opened Basics
  import opened Trees

  /** A node met by the walk, and where it was met. */
  datatype Visit = Visit(parent: Option<nat>, node: nat)

  function NodesOf(vs: seq<Visit>): (s: seq<nat>)
    ensures |s| == |vs| && forall k :: 0 <= k < |vs| ==> s[k] == vs[k].node
  {
    seq(|vs|, k requires 0 <= k < |vs| => vs[k].node)
  }

  /** The walk gets to node `i`: all its ancestors are listed, none is a hard
      link. */
  predicate Reached(nodes: Nodes, i: nat)
    requires WellFormed(nodes) && i < |nodes|
    decreases i
  {
    i == 0 ||
    (var p := nodes[i].parent.value;
     nodes[p].link == None && i in nodes[p].children && Reached(nodes, p))
  }

  predicate VisitOk(nodes: Nodes, v: Visit)
    requires WellFormed(nodes)
  {
    v.node < |nodes| && v.parent == nodes[v.node].parent && Reached(nodes, v.node)
  }

  /** `v` was met below a node the walk has already dealt with. */
  predicate MetFrom(nodes: Nodes, done: seq<nat>, i: nat)
    requires WellFormed(nodes)
  {
    i == 0 || (i < |nodes| && nodes[i].parent.value in done)
  }

  predicate ChildrenMet(nodes: Nodes, seen: seq<nat>, p: nat)
    requires WellFormed(nodes)
  {
    p < |nodes| && (nodes[p].link == None ==> forall c :: c in nodes[p].children ==> c in seen)
  }

  /** Between two rounds: `order` is dealt with, `queue` is waiting. */
  ghost predicate Walking(nodes: Nodes, order: seq<Visit>, queue: seq<Visit>)
    requires WellFormed(nodes)
  {
    var seen := NodesOf(order + queue);
    && Distinct(seen)
    && 0 in seen
    && (forall k :: 0 <= k < |order + queue| ==> VisitOk(nodes, (order + queue)[k]))
    && (forall i :: i in seen ==> MetFrom(nodes, NodesOf(order), i))
    && (forall p :: p in NodesOf(order) ==> ChildrenMet(nodes, seen, p))
  }

  lemma WalkStarts(nodes: Nodes)
    requires WellFormed(nodes)
    ensures Walking(nodes, [], [Visit(None, 0)])
  {
    assert NodesOf([] + [Visit(None, 0)]) == [0];
    assert VisitOk(nodes, Visit(None, 0));
  }

  /** The visits of a node's children. */
  function Below(p: nat, kids: seq<nat>): (vs: seq<Visit>)
    ensures |vs| == |kids| && NodesOf(vs) == kids
  {
    seq(|kids|, k requires 0 <= k < |kids| => Visit(Some(p), kids[k]))
  }

  /** What a round adds to the queue. */
  function Next(nodes: Nodes, v: Visit): seq<Visit>
    requires v.node < |nodes|
  {
    if nodes[v.node].link.Some? then [] else Below(v.node, nodes[v.node].children)
  }

  lemma NodesConcat(a: seq<Visit>, b: seq<Visit>)
    ensures NodesOf(a + b) == NodesOf(a) + NodesOf(b)
  {
  }

  lemma WalkFront(nodes: Nodes, order: seq<Visit>, queue: seq<Visit>)
    requires WellFormed(nodes) && queue != [] && Walking(nodes, order, queue)
    ensures VisitOk(nodes, queue[0]) && queue[0].node !in NodesOf(order)
    ensures |order| < |nodes|
  {
    var all := order + queue;
    assert all[|order|] == queue[0];
    NodesConcat(order, queue);
    var seen := NodesOf(all);
    forall k | 0 <= k < |seen| ensures seen[k] < |nodes| {
      assert VisitOk(nodes, all[k]);
    }
    DistinctBound(seen, |nodes|);
    forall k | 0 <= k < |order| ensures NodesOf(order)[k] != queue[0].node {
      assert seen[k] != seen[|order|];
    }
  }

  /** Distinct numbers below `n` are at most `n` many. */
  lemma {:induction false} DistinctBound(s: seq<nat>, n: nat)
    requires Distinct(s) && forall k :: 0 <= k < |s| ==> s[k] < n
    ensures |s| <= n
  {
    DistinctSet(s);
    SubsetSize(Members(s), UpTo(n));
  }

  function Members(s: seq<nat>): set<nat> { set x | x in s }

  function UpTo(n: nat): (s: set<nat>)
    ensures |s| == n && forall x: nat :: x in s <==> x < n
  {
    if n == 0 then {} else UpTo(n - 1) + {n - 1}
  }

  lemma {:induction false} DistinctSet(s: seq<nat>)
    requires Distinct(s)
    ensures |Members(s)| == |s|
  {
    if s != [] {
      var n := |s| - 1;
      DistinctSet(s[..n]);
      assert Members(s) == Members(s[..n]) + {s[n]};
    }
  }

  /** One round keeps all of it. */
  lemma WalkStep(nodes: Nodes, order: seq<Visit>, queue: seq<Visit>)
    requires WellFormed(nodes) && queue != [] && Walking(nodes, order, queue)
    ensures queue[0].node < |nodes|
    ensures Walking(nodes, order + [queue[0]], queue[1..] + Next(nodes, queue[0]))
  {
    WalkFront(nodes, order, queue);
    var v, more := queue[0], Next(nodes, queue[0]);
    var order', queue' := order + [v], queue[1..] + more;
    hide Walking, Reached, VisitOk, MetFrom, ChildrenMet, Next, NodesOf;
    assert order' + queue' == (order + queue) + more;
    NodesConcat(order + queue, more);
    NodesConcat(order, [v]);
    assert NodesOf([v]) == [v.node];
    NextFacts(nodes, v);
    WalkStays(nodes, order, queue, order', queue', more);
  }

  /** What the children of a node being dealt with are like. */
  lemma NextFacts(nodes: Nodes, v: Visit)
    requires WellFormed(nodes) && VisitOk(nodes, v)
    ensures var more := Next(nodes, v);
      && Distinct(NodesOf(more))
      && (forall k :: 0 <= k < |more| ==> VisitOk(nodes, more[k]) && more[k].node > 0 && nodes[more[k].node].parent == Some(v.node))
      && (nodes[v.node].link == None ==> forall c :: c in nodes[v.node].children ==> c in NodesOf(more))
  {
    assert KidsOk(nodes, v.node);
    var kids := nodes[v.node].children;
    assert forall k :: 0 <= k < |kids| ==> kids[k] in kids;
    hide WellFormed;
  }

  lemma WalkStays(nodes: Nodes, order: seq<Visit>, queue: seq<Visit>, order': seq<Visit>, queue': seq<Visit>, more: seq<Visit>)
    requires WellFormed(nodes) && queue != [] && Walking(nodes, order, queue)
    requires var v := queue[0];
      && VisitOk(nodes, v) && v.node !in NodesOf(order)
      && order' + queue' == (order + queue) + more
      && NodesOf(order' + queue') == NodesOf(order + queue) + NodesOf(more)
      && NodesOf(order') == NodesOf(order) + [v.node]
      && Distinct(NodesOf(more))
      && (forall k :: 0 <= k < |more| ==> VisitOk(nodes, more[k]) && more[k].node > 0 && nodes[more[k].node].parent == Some(v.node))
      && (nodes[v.node].link == None ==> forall c :: c in nodes[v.node].children ==> c in NodesOf(more))
    ensures Walking(nodes, order', queue')
  {
    var v, seen, seen', fresh' := queue[0], NodesOf(order + queue), NodesOf(order' + queue'), NodesOf(more);
    assert Distinct(seen') by {
      NotMetYet(nodes, order, queue, more);
      DistinctConcat(seen, fresh');
    }
    forall i | i in seen' ensures MetFrom(nodes, NodesOf(order'), i) {
      if i in seen {
        assert MetFrom(nodes, NodesOf(order), i);
      }
    }
    forall p | p in NodesOf(order') ensures ChildrenMet(nodes, seen', p) {
      if p in NodesOf(order) {
        assert ChildrenMet(nodes, seen, p);
      }
    }
    forall k | 0 <= k < |order' + queue'| ensures VisitOk(nodes, (order' + queue')[k]) {
      assert k < |order + queue| ==> VisitOk(nodes, (order + queue)[k]);
    }
  }

  /** A child of the node at the front has not been met before. */
  lemma NotMetYet(nodes: Nodes, order: seq<Visit>, queue: seq<Visit>, more: seq<Visit>)
    requires WellFormed(nodes) && queue != [] && Walking(nodes, order, queue)
    requires queue[0].node !in NodesOf(order)
    requires forall k :: 0 <= k < |more| ==> more[k].node > 0 && more[k].node < |nodes| && nodes[more[k].node].parent == Some(queue[0].node)
    ensures forall x :: x in NodesOf(more) ==> x !in NodesOf(order + queue)
  {
    forall x | x in NodesOf(more) ensures x !in NodesOf(order + queue) {
      assert x in NodesOf(order + queue) ==> MetFrom(nodes, NodesOf(order), x);
    }
  }

  lemma DistinctConcat(a: seq<nat>, b: seq<nat>)
    requires Distinct(a) && Distinct(b) && forall x :: x in b ==> x !in a
    ensures Distinct(a + b)
  {
    forall j, k | 0 <= j < k < |a + b| ensures (a + b)[j] != (a + b)[k] {
      if j < |a| <= k {
        assert b[k - |a|] in b && a[j] in a;
      }
    }
  }

  /** When nothing is waiting, every reachable node has been met. */
  lemma {:induction false} WalkComplete(nodes: Nodes, order: seq<Visit>, i: nat)
    requires WellFormed(nodes) && Walking(nodes, order, []) && i < |nodes| && Reached(nodes, i)
    ensures i in NodesOf(order)
    decreases i
  {
    assert order + [] == order;
    if i > 0 {
      var p := nodes[i].parent.value;
      WalkComplete(nodes, order, p);
      assert ChildrenMet(nodes, NodesOf(order), p);
    }
  }

  /** The result of the walk: every reachable node, once, with its parent. */
  ghost predicate BreadthFirstOrder(nodes: Nodes, order: seq<Visit>)
    requires WellFormed(nodes)
  {
    && Distinct(NodesOf(order))
    && (forall k :: 0 <= k < |order| ==> VisitOk(nodes, order[k]))
    && (forall i :: 0 <= i < |nodes| && Reached(nodes, i) ==> i in NodesOf(order))
  }

  lemma WalkDone(nodes: Nodes, order: seq<Visit>)
    requires WellFormed(nodes) && Walking(nodes, order, [])
    ensures BreadthFirstOrder(nodes, order)
  {
    assert order + [] == order;
    forall i | 0 <= i < |nodes| && Reached(nodes, i) ensures i in NodesOf(order) {
      WalkComplete(nodes, order, i);
    }
  }

  /** The queue loop of commit_directories. It ends: no node is met twice. */
  method BreadthFirst(tree: FileTree) returns (order: seq<Visit>)
    requires tree.Valid()
    ensures BreadthFirstOrder(tree.nodes, order)
  {
    var queue := [Visit(None, 0)];
    order := [];
    WalkStarts(tree.nodes);
    hide Walking, BreadthFirstOrder, VisitOk, IndexOk;
    while queue != []
      invariant Walking(tree.nodes, order, queue)
      decreases |tree.nodes| - |order|
    {
      WalkFront(tree.nodes, order, queue);
      WalkStep(tree.nodes, order, queue);
      var v := queue[0];
      queue := queue[1..];
      order := order + [v];
      if tree.nodes[v.node].link == None {
        queue := queue + Below(v.node, tree.nodes[v.node].children);
      } else {
        assert queue + [] == queue;
      }
    }
    WalkDone(tree.nodes, order);
  }
}
