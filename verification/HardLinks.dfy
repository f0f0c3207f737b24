/** Hard links of an archive (unpack.rs): a map from each link's path to the path
    it names, which may be another link. */
module HardLinks {
  import opened Basics
  import opened Trees

  type Links = map<Path, Path>

  /** Each path of `c` is a link to the next. */
  predicate Chain(links: Links, c: seq<Path>) {
    c != [] && forall i :: 0 <= i < |c| - 1 ==> c[i] in links && links[c[i]] == c[i + 1]
  }

  predicate Cycle(links: Links, c: seq<Path>) {
    Chain(links, c) && |c| > 1 && c[0] == c[|c| - 1]
  }

  ghost predicate Acyclic(links: Links) {
    forall c: seq<Path> :: !Cycle(links, c)
  }

  predicate ChainTo(links: Links, c: seq<Path>, p: Path, e: Path) {
    Chain(links, c) && c[0] == p && c[|c| - 1] == e && e !in links
  }

  /** Following the links from `p` ends at `e`, which is no link. */
  ghost predicate LeadsTo(links: Links, p: Path, e: Path) {
    exists c: seq<Path> :: ChainTo(links, c, p, e)
  }

  // ---- Chains ----

  /** A link names one path only, so chains from the same place agree. */
  lemma {:induction false} ChainsAgree(links: Links, a: seq<Path>, b: seq<Path>, i: nat)
    requires Chain(links, a) && Chain(links, b) && a[0] == b[0] && i < |a| && i < |b|
    ensures a[i] == b[i]
  {
    if i > 0 {
      ChainsAgree(links, a, b, i - 1);
    }
  }

  lemma ChainTail(links: Links, c: seq<Path>, i: nat)
    requires Chain(links, c) && i < |c|
    ensures Chain(links, c[i..])
  {
  }

  /** A chain that starts on a cycle stays on it. */
  lemma {:induction false} OnCycle(links: Links, cycle: seq<Path>, c: seq<Path>, i: nat)
    requires Cycle(links, cycle) && Chain(links, c) && c[0] == cycle[0] && i < |c|
    ensures exists k :: 0 <= k < |cycle| - 1 && c[i] == cycle[k]
  {
    if i > 0 {
      OnCycle(links, cycle, c, i - 1);
      var k :| 0 <= k < |cycle| - 1 && c[i - 1] == cycle[k];
      if k + 1 < |cycle| - 1 {
        assert c[i] == cycle[k + 1];
      } else {
        assert c[i] == cycle[0];
      }
    } else {
      assert c[i] == cycle[0];
    }
  }

  lemma CycleHasNoEnd(links: Links, cycle: seq<Path>, c: seq<Path>)
    requires Cycle(links, cycle) && Chain(links, c) && c[0] == cycle[0]
    ensures c[|c| - 1] in links
  {
    OnCycle(links, cycle, c, |c| - 1);
  }

  /** Nothing that runs into a cycle has an end. */
  lemma NoEndThroughCycle(links: Links, way: seq<Path>, at: nat, cycle: seq<Path>, e: Path)
    requires Chain(links, way) && at < |way| && Cycle(links, cycle) && way[at] == cycle[0]
    ensures !LeadsTo(links, way[0], e)
  {
    forall c: seq<Path> ensures !ChainTo(links, c, way[0], e) {
      if ChainTo(links, c, way[0], e) {
        if |c| > at {
          ChainsAgree(links, c, way, at);
          ChainTail(links, c, at);
          CycleHasNoEnd(links, cycle, c[at..]);
        } else {
          ChainsAgree(links, c, way, |c| - 1);
        }
      }
    }
  }

  /** The end is unique. */
  lemma EndIsUnique(links: Links, p: Path, d: Path, e: Path)
    requires LeadsTo(links, p, d) && LeadsTo(links, p, e)
    ensures d == e
  {
    var a: seq<Path> :| ChainTo(links, a, p, d);
    var b: seq<Path> :| ChainTo(links, b, p, e);
    ChainsAgree(links, a, b, Min(|a|, |b|) - 1);
  }

  lemma CloseCycle(links: Links, c: seq<Path>, item: Path, j: nat)
    requires Chain(links, c) && c[|c| - 1] in links && links[c[|c| - 1]] == item && j < |c| && c[j] == item
    ensures Cycle(links, c[j..] + [item])
  {
  }

  // ---- The walks ----

  /** The loop both functions share: follow links until something is no link, or
      something is met again. It ends on every finite map. */
  method Follow(links: Links, start: Path) returns (end: Option<Path>, ghost cycle: seq<Path>)
    ensures end.Some? ==> LeadsTo(links, start, end.value)
    ensures end.None? ==> Cycle(links, cycle) && forall e :: !LeadsTo(links, start, e)
  {
    var next, visited := start, {start};
    ghost var way := [start];
    while next in links
      invariant Chain(links, way) && way[0] == start && way[|way| - 1] == next
      invariant forall p :: p in visited <==> p in way
      invariant visited <= links.Values + {start}
      decreases (links.Values + {start}) - visited
    {
      var item := links[next];
      if item in visited {
        ghost var j :| 0 <= j < |way| && way[j] == item;
        CloseCycle(links, way, item, j);
        cycle := way[j..] + [item];
        forall e ensures !LeadsTo(links, start, e) {
          NoEndThroughCycle(links, way, j, cycle, e);
        }
        return None, cycle;
      }
      visited := visited + {item};
      next := item;
      way := way + [item];
    }
    assert ChainTo(links, way, start, next);
    end, cycle := Some(next), [];
  }

  /** check_acyclic: whether there is no cycle, whatever order the map is gone
      through in. */
  method CheckAcyclic(links: Links) returns (ok: bool)
    ensures ok <==> Acyclic(links)
  {
    var keys := links.Keys;
    while keys != {}
      invariant keys <= links.Keys
      invariant forall k :: k in links.Keys - keys ==> exists e :: LeadsTo(links, links[k], e)
      decreases keys
    {
      var key :| key in keys;
      var end;
      ghost var cycle;
      end, cycle := Follow(links, links[key]);
      if end.None? {
        return false;
      }
      keys := keys - {key};
    }
    forall c: seq<Path> ensures !Cycle(links, c) {
      if Cycle(links, c) {
        NoCycleLeft(links, c);
      }
    }
    ok := true;
  }

  /** A cycle would keep one of its links from leading anywhere. */
  lemma NoCycleLeft(links: Links, c: seq<Path>)
    requires Cycle(links, c)
    ensures !forall k :: k in links.Keys ==> exists e :: LeadsTo(links, links[k], e)
  {
    var key := c[|c| - 2];
    assert links[key] == c[0];
    forall e ensures !LeadsTo(links, links[key], e) {
      NoEndThroughCycle(links, c, 0, c, e);
    }
  }

  /** A link leads where what it names leads. */
  lemma FirstLink(links: Links, key: Path)
    requires key in links
    ensures forall e :: LeadsTo(links, key, e) <==> LeadsTo(links, links[key], e)
  {
    forall e ensures LeadsTo(links, key, e) <==> LeadsTo(links, links[key], e) {
      if LeadsTo(links, key, e) {
        var c: seq<Path> :| ChainTo(links, c, key, e);
        ChainTail(links, c, 1);
        assert ChainTo(links, c[1..], links[key], e);
      }
      if LeadsTo(links, links[key], e) {
        var c: seq<Path> :| ChainTo(links, c, links[key], e);
        assert ChainTo(links, [key] + c, key, e);
      }
    }
  }

  /** resolve_hardlink: of a link, the one path its chain ends at. There is one for
      every link of a map without cycles. */
  method ResolveHardLink(key: Path, links: Links) returns (r: Option<Path>)
    ensures r.Some? ==> key in links && forall e :: LeadsTo(links, key, e) <==> e == r.value
    ensures r.None? ==> key !in links || forall e :: !LeadsTo(links, key, e)
    ensures Acyclic(links) ==> (r.Some? <==> key in links)
  {
    if key !in links {
      return None;
    }
    ghost var cycle;
    r, cycle := Follow(links, links[key]);
    FirstLink(links, key);
    if r.Some? {
      forall e ensures LeadsTo(links, key, e) <==> e == r.value {
        if LeadsTo(links, key, e) {
          EndIsUnique(links, key, e, r.value);
        }
      }
    }
  }
}
