/** What the topological order guarantees: it exists exactly for acyclic graphs,
    it is a permutation along the edges, and it does not depend on how the graph is listed. */
module KahnTheory {
  import opened Graph
  import opened Kahn
  import opened Order
  import opened Sorting

  // ---- Reference notions, independent of the algorithm ----

  /** Every node once, after all its predecessors. */
  ghost predicate IsTopological(edges: seq<GraphEdge>, ids: set<string>, s: seq<string>)
  {
    && Distinct(s)
    && (forall x :: x in s <==> x in ids)
    && (forall i, p :: 0 <= i < |s| && p in Preds(edges, s[i]) ==> p in s[..i])
  }

  /** A closed walk of at least one edge through known nodes. */
  ghost predicate IsCycle(edges: seq<GraphEdge>, ids: set<string>, walk: seq<string>)
  {
    |walk| >= 2 && walk[0] == walk[|walk| - 1] && IsWalk(edges, ids, walk)
  }

  ghost predicate IsWalk(edges: seq<GraphEdge>, ids: set<string>, walk: seq<string>)
  {
    && (forall i :: 0 <= i < |walk| ==> walk[i] in ids)
    && (forall i :: 0 <= i < |walk| - 1 ==> GraphEdge(walk[i], walk[i + 1]) in edges)
  }

  ghost predicate Acyclic(g: ActionGraph)
  {
    forall walk :: !IsCycle(g.edges, Ids(g), walk)
  }

  /** No edge enters a known node from an unknown one. */
  ghost predicate KnownSources(g: ActionGraph)
  {
    forall e :: e in g.edges && e.target in Ids(g) ==> e.source in Ids(g)
  }

  /** Each emitted node is the least ready one, and nothing is ready at the end. */
  ghost predicate Canonical(edges: seq<GraphEdge>, prio: map<string, int>, s: seq<string>)
  {
    && (forall i :: 0 <= i < |s| ==> CanonicalAt(edges, prio, s, i))
    && ReadySet(edges, prio, ToSet(s)) == {}
  }

  ghost predicate CanonicalAt(edges: seq<GraphEdge>, prio: map<string, int>, s: seq<string>, i: nat)
    requires i < |s|
  {
    var ready := ReadySet(edges, prio, ToSet(s[..i]));
    s[i] in ready && forall y :: y in ready && y != s[i] ==> Before(prio, s[i], y)
  }

  // ---- The emitted order is canonical, and only one order is ----

  lemma NextIsCanonical(edges: seq<GraphEdge>, prio: map<string, int>, done: seq<string>, x: string)
    requires forall i :: 0 <= i < |done| ==> CanonicalAt(edges, prio, done, i)
    requires ReadySet(edges, prio, ToSet(done)) != {}
    requires x == Least(prio, ReadySet(edges, prio, ToSet(done)))
    ensures x in prio && x !in done
    ensures forall i :: 0 <= i < |done| + 1 ==> CanonicalAt(edges, prio, done + [x], i)
  {
    hide Preds, Least;
    var next := done + [x];
    forall i | 0 <= i < |next|
      ensures CanonicalAt(edges, prio, next, i)
    {
      assert next[..i] == done[..i];
      assert done[..|done|] == done;
      assert i < |done| ==> CanonicalAt(edges, prio, done, i);
    }
  }

  lemma {:induction false} OrderFromExtends(edges: seq<GraphEdge>, prio: map<string, int>, done: seq<string>, emitted: set<string>)
    requires emitted == ToSet(done)
    requires forall i :: 0 <= i < |done| ==> CanonicalAt(edges, prio, done, i)
    ensures Canonical(edges, prio, done + OrderFrom(edges, prio, emitted))
    decreases prio.Keys - emitted
  {
    hide Preds, Least, CanonicalAt;
    var ready := ReadySet(edges, prio, emitted);
    if ready == {} {
      assert done + [] == done;
    } else {
      var x := Least(prio, ready);
      NextIsCanonical(edges, prio, done, x);
      OrderFromExtends(edges, prio, done + [x], emitted + {x});
      assert done + ([x] + OrderFrom(edges, prio, emitted + {x})) == (done + [x]) + OrderFrom(edges, prio, emitted + {x});
    }
  }

  /** Every emitted node is the least by (priority, node_id) among the ready ones. */
  lemma OrderIsCanonical(g: ActionGraph)
    ensures Canonical(g.edges, Priorities(g), KahnOrder(g))
  {
    hide *;
    hide OrderFrom;
    var order := OrderFrom(g.edges, Priorities(g), {});
    assert {} == ToSet<string>([]);
    OrderFromExtends(g.edges, Priorities(g), [], {});
    assert [] + order == order;
    assert order == KahnOrder(g) by { OrderIsFromNothing(g); }
  }

  lemma OrderIsFromNothing(g: ActionGraph)
    ensures KahnOrder(g) == OrderFrom(g.edges, Priorities(g), {})
  {
    hide OrderFrom;
  }

  lemma {:induction false} CanonicalAgreeUpTo(edges: seq<GraphEdge>, prio: map<string, int>, s: seq<string>, t: seq<string>, n: nat)
    requires Canonical(edges, prio, s) && Canonical(edges, prio, t) && n <= |s| && n <= |t|
    ensures s[..n] == t[..n]
  {
    if n > 0 {
      var k := n - 1;
      CanonicalAgreeUpTo(edges, prio, s, t, k);
      assert CanonicalAt(edges, prio, s, k) && CanonicalAt(edges, prio, t, k);
      BeforeTotal(prio, s[k], t[k]);
      assert s[..n] == s[..k] + [s[k]] && t[..n] == t[..k] + [t[k]];
    }
  }

  /** There is only one canonical order. */
  lemma CanonicalUnique(edges: seq<GraphEdge>, prio: map<string, int>, s: seq<string>, t: seq<string>)
    requires Canonical(edges, prio, s) && Canonical(edges, prio, t)
    ensures s == t
  {
    var n := if |s| <= |t| then |s| else |t|;
    CanonicalAgreeUpTo(edges, prio, s, t, n);
    assert |s| <= |t| ==> s == t[..|s|];
    assert |t| <= |s| ==> t == s[..|t|];
    NoExtension(edges, prio, s, t);
    NoExtension(edges, prio, t, s);
  }

  lemma NoExtension(edges: seq<GraphEdge>, prio: map<string, int>, s: seq<string>, t: seq<string>)
    requires Canonical(edges, prio, s) && Canonical(edges, prio, t)
    ensures |s| < |t| ==> s != t[..|s|]
  {
    hide Preds, ReadySet;
    assert |s| < |t| ==> CanonicalAt(edges, prio, t, |s|);
  }

  // ---- The order does not depend on how nodes and edges are listed ----

  lemma {:induction false} NodeMapUnique(nodes: seq<GraphNode>)
    requires Distinct(NodeIds(nodes))
    ensures forall n :: n in nodes ==> n.id in NodeMapOf(nodes) && NodeMapOf(nodes)[n.id] == n
  {
    if |nodes| > 0 {
      var init := nodes[..|nodes| - 1];
      var last := nodes[|nodes| - 1];
      assert nodes == init + [last] && NodeIds(nodes) == NodeIds(init) + [last.id];
      NodeMapUnique(init);
      forall n | n in nodes
        ensures n.id in NodeMapOf(nodes) && NodeMapOf(nodes)[n.id] == n
      {
        if n in init {
          var i :| 0 <= i < |init| && init[i] == n;
          assert NodeIds(nodes)[i] != NodeIds(nodes)[|init|];
        }
      }
    }
  }

  lemma PrioritiesCarryOver(g: ActionGraph, h: ActionGraph, x: string)
    requires UniqueIds(h) && (forall n :: n in g.nodes ==> n in h.nodes) && x in Priorities(g)
    ensures x in Priorities(h) && Priorities(h)[x] == Priorities(g)[x]
  {
    hide NodeMapOf;
    var n := NodeMap(g)[x];
    NodeMapUnique(h.nodes);
    assert n in h.nodes;
  }

  lemma SamePriorities(g: ActionGraph, h: ActionGraph)
    requires UniqueIds(g) && UniqueIds(h) && forall n :: n in g.nodes <==> n in h.nodes
    ensures Priorities(g) == Priorities(h)
  {
    hide *;
    forall x
      ensures x in Priorities(g) ==> x in Priorities(h) && Priorities(h)[x] == Priorities(g)[x]
      ensures x in Priorities(h) ==> x in Priorities(g)
    {
      if x in Priorities(g) { PrioritiesCarryOver(g, h, x); }
      if x in Priorities(h) { PrioritiesCarryOver(h, g, x); }
    }
  }

  /** Permuting the node list (ids unique) or the edge list leaves the order unchanged. */
  lemma OrderIgnoresListing(g: ActionGraph, h: ActionGraph)
    requires UniqueIds(g) && UniqueIds(h)
    requires multiset(g.nodes) == multiset(h.nodes) && multiset(g.edges) == multiset(h.edges)
    ensures KahnOrder(g) == KahnOrder(h)
  {
    hide *;
    MultisetMembers(g.nodes, h.nodes);
    MultisetMembers(g.edges, h.edges);
    SamePriorities(g, h);
    SameReady(g.edges, h.edges, Priorities(g), {});
    OrderIsFromNothing(g);
    OrderIsFromNothing(h);
  }

  lemma {:induction false} SameReady(e: seq<GraphEdge>, f: seq<GraphEdge>, prio: map<string, int>, emitted: set<string>)
    requires forall a :: a in e <==> a in f
    ensures OrderFrom(e, prio, emitted) == OrderFrom(f, prio, emitted)
    decreases prio.Keys - emitted
  {
    assert ReadySet(e, prio, emitted) == ReadySet(f, prio, emitted) by {
      forall x
        ensures (forall p :: p in Preds(e, x) ==> p in emitted) <==> (forall p :: p in Preds(f, x) ==> p in emitted)
      {
        assert forall p :: p in Preds(e, x) <==> p in Preds(f, x);
      }
    }
    var ready := ReadySet(e, prio, emitted);
    if ready != {} {
      SameReady(e, f, prio, emitted + {Least(prio, ready)});
    }
  }

  // ---- Completeness: the order covers the graph exactly when there is no cycle ----

  lemma CanonicalShape(edges: seq<GraphEdge>, prio: map<string, int>, s: seq<string>)
    requires Canonical(edges, prio, s)
    ensures Distinct(s)
    ensures forall x :: x in s ==> x in prio
    ensures forall i, p :: 0 <= i < |s| && p in Preds(edges, s[i]) ==> p in s[..i]
  {
    forall i | 0 <= i < |s|
      ensures s[i] in prio && s[i] !in s[..i] && forall p :: p in Preds(edges, s[i]) ==> p in s[..i]
    {
      assert CanonicalAt(edges, prio, s, i);
    }
    forall i, j | 0 <= i < j < |s|
      ensures s[i] != s[j]
    {
      assert s[i] in s[..j];
    }
  }

  /** Along a walk through an ordered graph positions only grow. */
  lemma {:induction false} WalkClimbs(edges: seq<GraphEdge>, ids: set<string>, s: seq<string>, walk: seq<string>, i: nat, j: nat)
    requires IsTopological(edges, ids, s) && IsWalk(edges, ids, walk) && |walk| > 0
    requires i < |s| && j < |s| && s[i] == walk[0] && s[j] == walk[|walk| - 1]
    ensures i + |walk| - 1 <= j
  {
    if |walk| > 1 {
      var n := |walk| - 2;
      assert GraphEdge(walk[n], walk[n + 1]) in edges;
      assert walk[n] in Preds(edges, s[j]) && walk[n] in s[..j];
      var k :| 0 <= k < j && s[k] == walk[n];
      var init := walk[..n + 1];
      forall m | 0 <= m < |init| - 1
        ensures GraphEdge(init[m], init[m + 1]) in edges
      {
        assert GraphEdge(walk[m], walk[m + 1]) in edges;
      }
      WalkClimbs(edges, ids, s, init, i, k);
    }
  }

  lemma WalkBack(edges: seq<GraphEdge>, ids: set<string>, p: string, walk: seq<string>)
    requires |walk| > 0 && IsWalk(edges, ids, walk) && p in ids && GraphEdge(p, walk[0]) in edges
    ensures IsWalk(edges, ids, [p] + walk)
  {
    forall m | 0 <= m < |walk|
      ensures GraphEdge(([p] + walk)[m], walk[m]) in edges
    {
      if m > 0 { assert GraphEdge(walk[m - 1], walk[m]) in edges; }
    }
    var longer := [p] + walk;
    assert forall m :: 0 <= m < |longer| - 1 ==> longer[m + 1] == walk[m];
  }

  lemma WalkPrefix(edges: seq<GraphEdge>, ids: set<string>, walk: seq<string>, n: nat)
    requires n <= |walk| && IsWalk(edges, ids, walk)
    ensures IsWalk(edges, ids, walk[..n])
  {
    forall m | 0 <= m < n - 1
      ensures GraphEdge(walk[..n][m], walk[..n][m + 1]) in edges
    {
      assert GraphEdge(walk[m], walk[m + 1]) in edges;
    }
  }

  ghost predicate HasPredIn(edges: seq<GraphEdge>, stuck: set<string>, x: string)
  {
    exists p :: p in stuck && p in Preds(edges, x)
  }

  lemma PickPred(edges: seq<GraphEdge>, stuck: set<string>, x: string) returns (p: string)
    requires HasPredIn(edges, stuck, x)
    ensures p in stuck && GraphEdge(p, x) in edges
  {
    p :| p in stuck && p in Preds(edges, x);
  }

  lemma OneNodeWalk(edges: seq<GraphEdge>, ids: set<string>, x: string)
    requires x in ids
    ensures IsWalk(edges, ids, [x])
  {
  }

  lemma WalkStaysIn(edges: seq<GraphEdge>, ids: set<string>, walk: seq<string>)
    requires IsWalk(edges, ids, walk)
    ensures ToSet(walk) <= ids
    ensures forall more :: ids <= more ==> IsWalk(edges, more, walk)
  {
  }

  /** In a finite set where everything has a predecessor, walking backwards must repeat a node. */
  lemma {:induction false} FindCycle(edges: seq<GraphEdge>, stuck: set<string>, walk: seq<string>) returns (cycle: seq<string>)
    requires forall x :: x in stuck ==> HasPredIn(edges, stuck, x)
    requires |walk| > 0 && IsWalk(edges, stuck, walk) && |ToSet(walk)| == |walk|
    ensures IsCycle(edges, stuck, cycle)
    decreases |stuck| - |walk|
  {
    hide Preds, IsWalk, HasPredIn;
    WalkStaysIn(edges, stuck, walk);
    SubsetSize(ToSet(walk), stuck);
    assert walk[0] in ToSet(walk);
    var p := PickPred(edges, stuck, walk[0]);
    WalkBack(edges, stuck, p, walk);
    var longer := [p] + walk;
    if p in walk {
      var j :| 0 <= j < |walk| && walk[j] == p;
      cycle := longer[..j + 2];
      WalkPrefix(edges, stuck, longer, j + 2);
    } else {
      assert ToSet(longer) == ToSet(walk) + {p};
      SubsetSize(ToSet(longer), stuck);
      cycle := FindCycle(edges, stuck, longer);
    }
  }

  /** An order covering every node admits no cycle. */
  lemma OrderedIsAcyclic(edges: seq<GraphEdge>, ids: set<string>, s: seq<string>, walk: seq<string>)
    requires IsTopological(edges, ids, s)
    ensures !IsCycle(edges, ids, walk)
  {
    if IsCycle(edges, ids, walk) {
      var i :| 0 <= i < |s| && s[i] == walk[0];
      WalkClimbs(edges, ids, s, walk, i, i);
    }
  }

  /** What is never emitted contains a cycle. */
  lemma StuckHasCycle(edges: seq<GraphEdge>, prio: map<string, int>, s: seq<string>) returns (cycle: seq<string>)
    requires ReadySet(edges, prio, ToSet(s)) == {}
    requires forall e :: e in edges && e.target in prio ==> e.source in prio
    requires exists x :: x in prio && x !in s
    ensures IsCycle(edges, prio.Keys, cycle)
  {
    hide Preds, IsWalk;
    var stuck := prio.Keys - ToSet(s);
    forall x | x in stuck
      ensures HasPredIn(edges, stuck, x)
    {
      assert x !in ReadySet(edges, prio, ToSet(s));
      var p :| p in Preds(edges, x) && p !in s;
      assert GraphEdge(p, x) in edges;
      assert p in stuck;
    }
    var x :| x in prio && x !in s;
    assert ToSet([x]) == {x} && IsWalk(edges, stuck, [x]) by { OneNodeWalk(edges, stuck, x); }
    cycle := FindCycle(edges, stuck, [x]);
    WalkStaysIn(edges, stuck, cycle);
  }

  lemma CoversIffSameSize(g: ActionGraph, s: seq<string>)
    requires Distinct(s) && forall x :: x in s ==> x in Ids(g)
    ensures |s| == |g.nodes| <==> UniqueIds(g) && forall x :: x in Ids(g) ==> x in s
  {
    DistinctSize(s);
    DistinctSize(NodeIds(g.nodes));
    SubsetSize(ToSet(s), Ids(g));
    if UniqueIds(g) && forall x :: x in Ids(g) ==> x in s {
      assert ToSet(s) == Ids(g);
    }
  }

  /** Kahn's algorithm emits every node exactly when ids are unique, no edge enters
      a known node from outside, and there is no cycle. */
  lemma KahnComplete(g: ActionGraph)
    ensures |KahnOrder(g)| == |g.nodes| <==> UniqueIds(g) && KnownSources(g) && Acyclic(g)
    ensures |KahnOrder(g)| == |g.nodes| ==> IsTopological(g.edges, Ids(g), KahnOrder(g))
  {
    var s := KahnOrder(g);
    var ids := Ids(g);
    OrderIsCanonical(g);
    CanonicalShape(g.edges, Priorities(g), s);
    CoversIffSameSize(g, s);
    if |s| == |g.nodes| {
      forall e | e in g.edges && e.target in ids
        ensures e.source in ids
      {
        var j :| 0 <= j < |s| && s[j] == e.target;
        assert e.source in Preds(g.edges, s[j]);
        assert e.source in s[..j];
      }
      forall walk
        ensures !IsCycle(g.edges, ids, walk)
      {
        OrderedIsAcyclic(g.edges, ids, s, walk);
      }
    } else if UniqueIds(g) && KnownSources(g) {
      var cycle := StuckHasCycle(g.edges, Priorities(g), s);
    }
  }

  /** For a graph with unique ids and known endpoints, `topological_order` raises exactly on
      a cycle, and otherwise returns every node once with each edge's source before its target. */
  lemma RaisesIffCyclic(g: ActionGraph)
    requires UniqueIds(g) && KnownEndpoints(g)
    ensures forall x :: !Dangling(g, x)
    ensures |KahnOrder(g)| == |g.nodes| <==> Acyclic(g)
    ensures Acyclic(g) ==> IsTopological(g.edges, Ids(g), KahnOrder(g))
  {
    KahnComplete(g);
    forall x
      ensures !Dangling(g, x)
    {
      if x in Targets(g.edges) {
        var e :| e in g.edges && e.target == x;
      }
    }
  }
}
