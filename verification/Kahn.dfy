/** `ActionGraph.topological_order` (dag.py): Kahn's algorithm with a (priority, node_id) tie-break. */
module Kahn {
  import opened Graph
  import opened Order
  import opened Wrappers

  /** What the source raises: ValueError for a cycle (or a repeated id),
      KeyError when an id without a node reaches the queue. */
  datatype GraphError = CycleError | UnknownNode(id: string)

  // ---- Specification: the order as a function of the edges and the priorities of the known ids ----

  /** Known, not yet emitted, every predecessor emitted. */
  ghost function ReadySet(edges: seq<GraphEdge>, prio: map<string, int>, emitted: set<string>): set<string>
  {
    set x | x in prio && x !in emitted && forall p :: p in Preds(edges, x) ==> p in emitted
  }

  ghost function Least(prio: map<string, int>, s: set<string>): (x: string)
    requires s != {} && s <= prio.Keys
    ensures x in s && forall y :: y in s && y != x ==> Before(prio, x, y)
  {
    var y :| y in s;
    var rest := s - {y};
    if rest == {} then
      assert s == {y};
      y
    else
      var z := Least(prio, rest);
      BeforeTotal(prio, y, z);
      if Before(prio, y, z) then
        assert forall w :: w in s && w != y ==> Before(prio, y, w) by {
          forall w | w in s && w != y
            ensures Before(prio, y, w)
          {
            if w != z { BeforeTrans(prio, y, z, w); }
          }
        }
        y
      else z
  }

  ghost function OrderFrom(edges: seq<GraphEdge>, prio: map<string, int>, emitted: set<string>): seq<string>
    decreases prio.Keys - emitted
  {
    var ready := ReadySet(edges, prio, emitted);
    if ready == {} then []
    else
      var x := Least(prio, ready);
      [x] + OrderFrom(edges, prio, emitted + {x})
  }

  /** Emit the least ready node until none is ready. */
  ghost function KahnOrder(g: ActionGraph): seq<string>
  {
    OrderFrom(g.edges, Priorities(g), {})
  }

  /** An id without a node all of whose predecessors get emitted. */
  ghost predicate Dangling(g: ActionGraph, x: string)
  {
    x !in Ids(g) && x in Targets(g.edges) &&
    forall p :: p in Preds(g.edges, x) ==> p in KahnOrder(g)
  }

  /** The id is freed: an edge enters it, and the sources of all such edges are emitted. */
  ghost predicate Freed(edges: seq<GraphEdge>, x: string, emitted: set<string>)
  {
    x in Targets(edges) && forall p :: p in Preds(edges, x) ==> p in emitted
  }

  /** With these nodes emitted, no id without a node is freed before x along this list of successors:
      an id is freed at its last place in the list. */
  ghost predicate FirstIn(edges: seq<GraphEdge>, known: set<string>, emitted: set<string>, succs: seq<string>, x: string)
  {
    && x !in known && Freed(edges, x, emitted)
    && exists k :: 0 <= k < |succs| && LastPlace(succs, k, x)
                   && forall y :: y !in known && y != x && Freed(edges, y, emitted) ==> y in succs[k + 1..]
  }

  predicate LastPlace(succs: seq<string>, k: nat, x: string)
    requires k < |succs|
  {
    succs[k] == x && x !in succs[k + 1..]
  }

  /** The id without a node that the order frees first: none is free before place i, and x is the first
      that the node there frees. */
  ghost predicate FreedAt(g: ActionGraph, i: nat, x: string)
    requires i < |KahnOrder(g)|
  {
    && (forall y :: y !in Ids(g) ==> !Freed(g.edges, y, ToSet(KahnOrder(g)[..i])))
    && FirstIn(g.edges, Ids(g), ToSet(KahnOrder(g)[..i + 1]), Succs(g.edges, KahnOrder(g)[i]), x)
  }

  ghost predicate FirstDangling(g: ActionGraph, x: string)
  {
    exists i :: 0 <= i < |KahnOrder(g)| && FreedAt(g, i, x)
  }

  lemma FirstInOnce(edges: seq<GraphEdge>, known: set<string>, emitted: set<string>, succs: seq<string>, x: string, y: string)
    requires FirstIn(edges, known, emitted, succs, x) && FirstIn(edges, known, emitted, succs, y)
    ensures x == y
  {
    var k :| 0 <= k < |succs| && LastPlace(succs, k, x)
             && forall z :: z !in known && z != x && Freed(edges, z, emitted) ==> z in succs[k + 1..];
    var l :| 0 <= l < |succs| && LastPlace(succs, l, y)
             && forall z :: z !in known && z != y && Freed(edges, z, emitted) ==> z in succs[l + 1..];
    OnlyBeforeLast(succs, k, l, y);
    OnlyBeforeLast(succs, l, k, x);
  }

  lemma OnlyBeforeLast(succs: seq<string>, k: nat, l: nat, y: string)
    requires k < |succs| && l < |succs| && LastPlace(succs, l, y)
    ensures y in succs[k + 1..] ==> k < l
  {
    forall m | l < m < |succs|
      ensures succs[m] != y
    {
      assert succs[l + 1..][m - l - 1] == succs[m];
    }
  }

  lemma StaysFreed(g: ActionGraph, i: nat, j: nat, x: string)
    requires i < j <= |KahnOrder(g)| && FreedAt(g, i, x)
    ensures x !in Ids(g) && Freed(g.edges, x, ToSet(KahnOrder(g)[..j]))
  {
    hide KahnOrder, Ids;
    var order := KahnOrder(g);
    assert order[..j][..i + 1] == order[..i + 1];
    assert ToSet(order[..i + 1]) <= ToSet(order[..j]);
  }

  lemma FreedOnce(g: ActionGraph, i: nat, j: nat, x: string, y: string)
    requires i <= j < |KahnOrder(g)| && FreedAt(g, i, x) && FreedAt(g, j, y)
    ensures x == y
  {
    hide KahnOrder, Ids, Freed, FirstIn;
    if i < j {
      StaysFreed(g, i, j, x);
      assert false;
    }
    FirstInOnce(g.edges, Ids(g), ToSet(KahnOrder(g)[..i + 1]), Succs(g.edges, KahnOrder(g)[i]), x, y);
  }

  /** At most one id is freed first, and it dangles. */
  lemma FirstDanglingUnique(g: ActionGraph, x: string, y: string)
    requires FirstDangling(g, x)
    ensures Dangling(g, x)
    ensures FirstDangling(g, y) ==> x == y
  {
    hide KahnOrder, Ids, Freed;
    var i :| 0 <= i < |KahnOrder(g)| && FreedAt(g, i, x);
    FreedDangles(g, i, x);
    if FirstDangling(g, y) {
      var j :| 0 <= j < |KahnOrder(g)| && FreedAt(g, j, y);
      if i <= j { FreedOnce(g, i, j, x, y); } else { FreedOnce(g, j, i, y, x); }
    }
  }

  lemma FreedDangles(g: ActionGraph, i: nat, x: string)
    requires i < |KahnOrder(g)| && FreedAt(g, i, x)
    ensures Dangling(g, x)
  {
    hide KahnOrder, Ids;
    var order := KahnOrder(g);
    assert forall p :: p in ToSet(order[..i + 1]) ==> p in order;
  }

  // ---- The loop ----

  /** How many entries of s are not in e. */
  ghost function Outside(s: seq<string>, e: set<string>): (n: nat)
    ensures n == 0 <==> forall p :: p in s ==> p in e
  {
    if |s| == 0 then 0
    else
      var last := s[|s| - 1];
      assert s == s[..|s| - 1] + [last];
      Outside(s[..|s| - 1], e) + if last in e then 0 else 1
  }

  lemma {:induction false} OutsideNothing(s: seq<string>)
    ensures Outside(s, {}) == |s|
  {
    if |s| > 0 { OutsideNothing(s[..|s| - 1]); }
  }

  /** Emitting v pays off exactly the edges from v. */
  lemma {:induction false} OutsideStep(edges: seq<GraphEdge>, e: set<string>, v: string, x: string)
    requires v !in e
    ensures Outside(Preds(edges, x), e) ==
            Outside(Preds(edges, x), e + {v}) + multiset(Succs(edges, v))[x]
  {
    if |edges| > 0 {
      OutsideStep(edges[..|edges| - 1], e, v, x);
      var last := edges[|edges| - 1];
      var before := Preds(edges[..|edges| - 1], x);
      if last.target == x {
        assert (before + [last.source])[..|before|] == before;
      }
    }
  }

  lemma NoEdges()
    ensures Targets([]) == {} && forall x :: |Preds([], x)| == 0
  {
  }

  lemma AnotherEdge(edges: seq<GraphEdge>, i: nat)
    requires i < |edges|
    ensures Targets(edges[..i + 1]) == Targets(edges[..i]) + {edges[i].target}
    ensures forall x :: |Preds(edges[..i + 1], x)| == |Preds(edges[..i], x)| + if x == edges[i].target then 1 else 0
  {
    assert edges[..i + 1] == edges[..i] + [edges[i]] && edges[..i + 1][..i] == edges[..i];
  }

  method InDegrees(g: ActionGraph) returns (deg: map<string, int>)
    ensures deg.Keys == Ids(g) + Targets(g.edges)
    ensures forall x :: x in deg ==> deg[x] == Outside(Preds(g.edges, x), {})
  {
    hide *;
    deg := map x | x in Ids(g) :: 0;
    var edges := g.edges;
    NoEdges();
    for i := 0 to |edges|
      invariant deg.Keys == Ids(g) + Targets(edges[..i])
      invariant forall x :: |Preds(edges[..i], x)| == if x in deg then deg[x] else 0
    {
      var t := edges[i].target;
      AnotherEdge(edges, i);
      deg := deg[t := (if t in deg then deg[t] else 0) + 1];
    }
    assert edges[..|edges|] == edges;
    forall x | x in deg
      ensures deg[x] == Outside(Preds(edges, x), {})
    {
      OutsideNothing(Preds(edges, x));
    }
  }

  /** The seeds: ids of in-degree 0, sorted. */
  method Seeds(ids: seq<string>, prio: map<string, int>, deg: map<string, int>) returns (queue: seq<string>)
    requires prio.Keys <= deg.Keys && forall x :: x in ids <==> x in prio
    ensures Known(prio, queue) && Sorted(prio, queue) && Distinct(queue)
    ensures forall x :: x in queue <==> x in prio && deg[x] == 0
  {
    queue := [];
    for i := 0 to |ids|
      invariant Distinct(queue)
      invariant forall x :: x in queue <==> x in ids[..i] && deg[x] == 0
    {
      assert ids[..i + 1] == ids[..i] + [ids[i]];
      if deg[ids[i]] == 0 && ids[i] !in queue {
        queue := queue + [ids[i]];
      }
    }
    assert ids[..|ids|] == ids;
    SortIdsSorted(prio, queue);
    queue := SortIds(prio, queue);
  }

  /** In-degrees count the unemitted sources, plus what is still owed for the node just emitted. */
  ghost predicate DegreesAt(edges: seq<GraphEdge>, known: set<string>, deg: map<string, int>,
                            emitted: set<string>, owed: multiset<string>)
  {
    && (forall x :: x in deg ==> deg[x] == Outside(Preds(edges, x), emitted) + owed[x])
    && (forall x :: x in deg && x !in known ==> deg[x] > 0)
    && (forall x :: x in emitted ==> x in known && x in deg && deg[x] == 0)
  }

  /** The queue is sorted and holds exactly the free nodes. */
  ghost predicate QueueAt(prio: map<string, int>, deg: map<string, int>, emitted: set<string>, queue: seq<string>)
    requires prio.Keys <= deg.Keys
  {
    && Known(prio, queue) && Sorted(prio, queue) && Distinct(queue)
    && (forall x :: x in queue <==> x in prio && x !in emitted && deg[x] == 0)
  }

  /** Paying off one edge into x keeps the degrees; x becomes free exactly when its degree was 1. */
  lemma DegreeStep(edges: seq<GraphEdge>, known: set<string>, deg: map<string, int>, emitted: set<string>,
                   x: string, owed: multiset<string>)
    requires x in deg && DegreesAt(edges, known, deg, emitted, owed + multiset{x})
    ensures x !in emitted && deg[x] >= 1
    ensures x in known || deg[x] > 1 ==> DegreesAt(edges, known, deg[x := deg[x] - 1], emitted, owed)
    ensures deg[x] == 1 ==> forall p :: p in Preds(edges, x) ==> p in emitted
  {
    hide Outside, Preds;
    assert forall y :: (owed + multiset{x})[y] == owed[y] + multiset{x}[y];
  }

  lemma QueueStep(prio: map<string, int>, deg: map<string, int>, emitted: set<string>, queue: seq<string>, x: string)
    requires prio.Keys <= deg.Keys && QueueAt(prio, deg, emitted, queue)
    requires x in deg && deg[x] >= 1 && x !in emitted
    ensures deg[x] > 1 ==> QueueAt(prio, deg[x := deg[x] - 1], emitted, queue)
    ensures deg[x] == 1 && x in prio ==>
              Known(prio, queue + [x]) && QueueAt(prio, deg[x := 0], emitted, SortIds(prio, queue + [x]))
  {
    if deg[x] == 1 && x in prio {
      SortIdsSorted(prio, queue + [x]);
    }
  }

  lemma FreesFirst(edges: seq<GraphEdge>, known: set<string>, deg: map<string, int>, emitted: set<string>,
                   succs: seq<string>, k: nat)
    requires deg.Keys == known + Targets(edges) && k < |succs| && succs[k] in deg && succs[k] !in known && deg[succs[k]] == 1
    requires DegreesAt(edges, known, deg, emitted, multiset(succs[k..]))
    ensures FirstIn(edges, known, emitted, succs, succs[k])
  {
    hide Outside, Preds, Targets;
    var x, rest := succs[k], succs[k + 1..];
    assert succs[k..] == [x] + rest;
    assert multiset(succs[k..]) == multiset{x} + multiset(rest);
    assert LastPlace(succs, k, x);
    forall y | y !in known && y != x && Freed(edges, y, emitted)
      ensures y in rest
    {
      assert deg[y] > 0 && multiset(succs[k..])[y] > 0;
    }
  }

  /** The body of the while loop: pay off v's edges, queueing what becomes free. */
  method Release(edges: seq<GraphEdge>, prio: map<string, int>, succs: seq<string>,
                 deg0: map<string, int>, queue0: seq<string>, ghost emitted: set<string>)
    returns (deg: map<string, int>, queue: seq<string>, bad: Option<string>)
    requires deg0.Keys == prio.Keys + Targets(edges) && forall x :: x in succs ==> x in deg0
    requires DegreesAt(edges, prio.Keys, deg0, emitted, multiset(succs)) && QueueAt(prio, deg0, emitted, queue0)
    ensures deg.Keys == deg0.Keys
    ensures bad.None? ==> DegreesAt(edges, prio.Keys, deg, emitted, multiset{}) && QueueAt(prio, deg, emitted, queue)
    ensures bad.Some? ==> FirstIn(edges, prio.Keys, emitted, succs, bad.value)
  {
    hide *;
    deg, queue, bad := deg0, queue0, None;
    assert succs[0..] == succs;
    for k := 0 to |succs|
      invariant deg.Keys == deg0.Keys
      invariant DegreesAt(edges, prio.Keys, deg, emitted, multiset(succs[k..]))
      invariant QueueAt(prio, deg, emitted, queue)
    {
      var x := succs[k];
      assert succs[k..] == [x] + succs[k + 1..];
      assert multiset(succs[k..]) == multiset(succs[k + 1..]) + multiset{x};
      DegreeStep(edges, prio.Keys, deg, emitted, x, multiset(succs[k + 1..]));
      QueueStep(prio, deg, emitted, queue, x);
      if deg[x] == 1 {
        if x !in prio {
          FreesFirst(edges, prio.Keys, deg, emitted, succs, k);
          return deg[x := 0], queue, Some(x);
        }
        queue := SortIds(prio, queue + [x]);
      }
      deg := deg[x := deg[x] - 1];
    }
    assert multiset(succs[|succs|..]) == multiset{};
  }

  /** One pass of the while loop, from a queue whose head is the next node of the order. */
  method EmitHead(edges: seq<GraphEdge>, prio: map<string, int>, adj: map<string, seq<string>>,
                  deg0: map<string, int>, queue0: seq<string>, ghost emitted: set<string>)
    returns (v: string, deg: map<string, int>, queue: seq<string>, bad: Option<string>)
    requires forall x :: Lookup(adj, x) == Succs(edges, x)
    requires deg0.Keys == prio.Keys + Targets(edges) && queue0 != []
    requires DegreesAt(edges, prio.Keys, deg0, emitted, multiset{}) && QueueAt(prio, deg0, emitted, queue0)
    ensures deg.Keys == deg0.Keys && v in prio && v !in emitted
    ensures OrderFrom(edges, prio, emitted) == [v] + OrderFrom(edges, prio, emitted + {v})
    ensures bad.None? ==> DegreesAt(edges, prio.Keys, deg, emitted + {v}, multiset{}) && QueueAt(prio, deg, emitted + {v}, queue)
    ensures bad.Some? ==> FirstIn(edges, prio.Keys, emitted + {v}, Succs(edges, v), bad.value)
  {
    hide *;
    HeadIsNext(edges, prio, deg0, emitted, queue0);
    AfterPop(edges, prio, deg0, emitted, queue0, Succs(edges, queue0[0]));
    v := queue0[0];
    deg, queue, bad := Release(edges, prio, Lookup(adj, v), deg0, queue0[1..], emitted + {v});
  }

  method TopologicalOrder(g: ActionGraph) returns (r: Result<seq<string>, GraphError>)
    ensures r == Err(CycleError) <==>
            (forall x :: !Dangling(g, x)) && |KahnOrder(g)| != |g.nodes|
    ensures r.Ok? <==> (forall x :: !Dangling(g, x)) && |KahnOrder(g)| == |g.nodes|
    ensures r.Ok? ==> r.value == KahnOrder(g)
    ensures forall x :: r == Err(UnknownNode(x)) <==> FirstDangling(g, x)
  {
    hide *;
    var deg := InDegrees(g);
    var adj := Adjacency(g);
    var prio := Priorities(g);
    var queue := Seeds(NodeIds(g.nodes), prio, deg);
    var order: seq<string> := [];
    ghost var emitted: set<string> := {};
    AtStart(g, prio, deg, queue);
    while queue != []
      invariant deg.Keys == prio.Keys + Targets(g.edges)
      invariant forall x :: x in order <==> x in emitted
      invariant DegreesAt(g.edges, prio.Keys, deg, emitted, multiset{}) && QueueAt(prio, deg, emitted, queue)
      invariant order + OrderFrom(g.edges, prio, emitted) == KahnOrder(g)
      decreases prio.Keys - emitted
    {
      NoneFree(g.edges, prio.Keys, deg, emitted);
      var v, bad;
      v, deg, queue, bad := EmitHead(g.edges, prio, adj, deg, queue, emitted);
      Extend(order, v, OrderFrom(g.edges, prio, emitted + {v}));
      if bad.Some? {
        FoundFirst(g, emitted, order, v, bad.value);
        return Err(UnknownNode(bad.value));
      }
      order := order + [v];
      emitted := emitted + {v};
    }
    NothingReady(g, prio, deg, emitted, order);
    NoneFirst(g);
    r := if |order| != |g.nodes| then Err(CycleError) else Ok(order);
  }

  lemma Extend(order: seq<string>, v: string, rest: seq<string>)
    ensures order + ([v] + rest) == (order + [v]) + rest
    ensures forall x :: x in order + [v] <==> x in order || x == v
  {
  }

  lemma NoneFree(edges: seq<GraphEdge>, known: set<string>, deg: map<string, int>, emitted: set<string>)
    requires deg.Keys == known + Targets(edges) && DegreesAt(edges, known, deg, emitted, multiset{})
    ensures forall y :: y !in known ==> !Freed(edges, y, emitted)
  {
    hide Outside;
  }

  lemma FoundFirst(g: ActionGraph, emitted: set<string>, order: seq<string>, v: string, x: string)
    requires order + [v] <= KahnOrder(g) && forall y :: y in order <==> y in emitted
    requires forall y :: y !in Ids(g) ==> !Freed(g.edges, y, emitted)
    requires FirstIn(g.edges, Ids(g), emitted + {v}, Succs(g.edges, v), x)
    ensures FirstDangling(g, x)
    ensures Dangling(g, x)
    ensures forall y :: FirstDangling(g, y) ==> x == y
  {
    hide KahnOrder, Ids, Freed, FirstIn;
    var i := |order|;
    assert KahnOrder(g)[..i] == order && KahnOrder(g)[..i + 1] == order + [v];
    assert ToSet(order) == emitted && ToSet(order + [v]) == emitted + {v};
    assert FreedAt(g, i, x);
    FreedDangles(g, i, x);
    forall y
      ensures FirstDangling(g, y) ==> x == y
    {
      FirstDanglingUnique(g, x, y);
    }
  }

  lemma NothingReady(g: ActionGraph, prio: map<string, int>, deg: map<string, int>, emitted: set<string>, order: seq<string>)
    requires prio == Priorities(g) && deg.Keys == prio.Keys + Targets(g.edges)
    requires DegreesAt(g.edges, prio.Keys, deg, emitted, multiset{}) && QueueAt(prio, deg, emitted, [])
    requires forall x :: x in order <==> x in emitted
    requires order + OrderFrom(g.edges, prio, emitted) == KahnOrder(g)
    ensures order == KahnOrder(g)
    ensures forall x :: !Dangling(g, x)
  {
    assert ReadySet(g.edges, prio, emitted) == {} by {
      assert forall x :: x in ReadySet(g.edges, prio, emitted) ==> x in [];
    }
    assert forall x :: x in deg && x !in prio ==> deg[x] > 0;
  }

  lemma NoneFirst(g: ActionGraph)
    requires forall x :: !Dangling(g, x)
    ensures forall x :: !FirstDangling(g, x)
  {
    forall x
      ensures !FirstDangling(g, x)
    {
      if FirstDangling(g, x) { FirstDanglingUnique(g, x, x); }
    }
  }

  lemma AtStart(g: ActionGraph, prio: map<string, int>, deg: map<string, int>, queue: seq<string>)
    requires prio == Priorities(g) && prio.Keys <= deg.Keys == Ids(g) + Targets(g.edges)
    requires forall x :: x in deg ==> deg[x] == Outside(Preds(g.edges, x), {})
    requires Known(prio, queue) && Sorted(prio, queue) && Distinct(queue)
    requires forall x :: x in queue <==> x in prio && deg[x] == 0
    ensures DegreesAt(g.edges, prio.Keys, deg, {}, multiset{}) && QueueAt(prio, deg, {}, queue)
    ensures [] + OrderFrom(g.edges, prio, {}) == KahnOrder(g)
  {
    forall x | x in deg && x !in prio
      ensures deg[x] > 0
    {
      var e :| e in g.edges && e.target == x;
      assert e.source in Preds(g.edges, x);
    }
  }

  lemma HeadIsNext(edges: seq<GraphEdge>, prio: map<string, int>, deg: map<string, int>,
                   emitted: set<string>, queue: seq<string>)
    requires prio.Keys <= deg.Keys && DegreesAt(edges, prio.Keys, deg, emitted, multiset{}) && QueueAt(prio, deg, emitted, queue) && queue != []
    ensures OrderFrom(edges, prio, emitted) == [queue[0]] + OrderFrom(edges, prio, emitted + {queue[0]})
  {
    var ready := ReadySet(edges, prio, emitted);
    assert queue[0] in queue && queue[0] in ready;
    var x := Least(prio, ready);
    assert x in queue;
    BeforeTotal(prio, x, queue[0]);
  }

  lemma AfterPop(edges: seq<GraphEdge>, prio: map<string, int>, deg: map<string, int>,
                 emitted: set<string>, queue: seq<string>, succs: seq<string>)
    requires prio.Keys <= deg.Keys && DegreesAt(edges, prio.Keys, deg, emitted, multiset{}) && QueueAt(prio, deg, emitted, queue) && queue != []
    requires succs == Succs(edges, queue[0])
    ensures DegreesAt(edges, prio.Keys, deg, emitted + {queue[0]}, multiset(succs))
    ensures queue[0] in prio && queue[0] !in emitted && QueueAt(prio, deg, emitted + {queue[0]}, queue[1..])
    ensures forall x :: x in succs ==> x in Targets(edges)
  {
    var v := queue[0];
    assert v in queue && queue == [v] + queue[1..];
    forall x | x in deg
      ensures deg[x] == Outside(Preds(edges, x), emitted + {v}) + multiset(succs)[x]
    {
      OutsideStep(edges, emitted, v, x);
    }
  }
}
