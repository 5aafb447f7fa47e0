/** The action graph of a list of leaf operators (`_build_action_graph`). */
module HtnGraph {
  import opened Graph
  import opened Htn
  import opened JsonValues
  import opened Order
  import opened Sorting
  import opened Wrappers

  // ---- Specification ----

  /** The first leaf with an id makes the node. */
  function FirstLeaf(leaves: seq<HtnLeaf>, id: string): (leaf: HtnLeaf)
    requires id in LeafIds(leaves)
    ensures leaf in leaves && leaf.id == id
  {
    if leaves[0].id == id then leaves[0]
    else
      assert LeafIds(leaves) == [leaves[0].id] + LeafIds(leaves[1..]);
      FirstLeaf(leaves[1..], id)
  }

  /** `params.setdefault("tool_name", ...)` for a tool call. */
  function NodeOf(leaf: HtnLeaf, priority: int): GraphNode
  {
    var parameters :=
      if leaf.kind == Mcp && leaf.tool != "" && "tool_name" !in leaf.parameters
      then leaf.parameters["tool_name" := Str(leaf.tool)]
      else leaf.parameters;
    GraphNode(leaf.id, leaf.kind, parameters, priority)
  }

  /** How many of the leaves are the target of a dependency. */
  function Dependents(leaves: seq<HtnLeaf>, e: GraphEdge): nat
  {
    if leaves == [] then 0
    else
      var leaf := leaves[|leaves| - 1];
      Dependents(leaves[..|leaves| - 1], e) + if leaf.id == e.target && e.source in leaf.dependsOn then 1 else 0
  }

  /** Python's order of (source, target) pairs. */
  predicate EdgeLess(a: GraphEdge, b: GraphEdge)
  {
    StrLess(a.source, b.source) || (a.source == b.source && StrLess(a.target, b.target))
  }

  predicate EdgesSorted(edges: seq<GraphEdge>)
  {
    forall i, j :: 0 <= i < j < |edges| ==> !EdgeLess(edges[j], edges[i])
  }

  function PlanId(req: PlannerRequest): string
  {
    "plan-htn-recursive-v0-" + RunId(req)
  }

  /** One node per id, in id order and with its rank as priority; one edge per leaf and distinct known dependency. */
  ghost predicate IsGraphOf(g: ActionGraph, req: PlannerRequest, leaves: seq<HtnLeaf>)
  {
    && g.planId == PlanId(req) && g.branches == []
    && StrSorted(NodeIds(g.nodes)) && (forall x :: x in NodeIds(g.nodes) <==> x in LeafIds(leaves))
    && (forall i :: 0 <= i < |g.nodes| ==> NodeFrom(g.nodes[i], leaves, i))
    && EdgesSorted(g.edges)
    && (forall e :: multiset(g.edges)[e] == if e.source in LeafIds(leaves) then Dependents(leaves, e) else 0)
  }

  predicate NodeFrom(n: GraphNode, leaves: seq<HtnLeaf>, i: int)
  {
    n.id in LeafIds(leaves) && n == NodeOf(FirstLeaf(leaves, n.id), i)
  }

  // ---- Sorting the edges ----

  lemma EdgesOrder()
    ensures StrictOrder(EdgeLess)
  {
    forall a, b, c
      ensures OrdersThree(EdgeLess, a, b, c)
    {
      StringsOrder(a.source, b.source, c.source);
      StringsOrder(b.source, c.source, a.source);
      StringsOrder(a.target, b.target, c.target);
    }
  }

  lemma SortEdgesSorted(edges: seq<GraphEdge>)
    ensures EdgesSorted(SortBy(EdgeLess, edges))
  {
    EdgesOrder();
    SortInOrder(EdgeLess, edges);
  }

  // ---- The two loops over the leaves, and the priorities ----

  ghost predicate NodesOf(nodes: map<string, GraphNode>, leaves: seq<HtnLeaf>)
  {
    && (forall x :: x in nodes <==> x in LeafIds(leaves))
    && (forall x :: x in nodes ==> x in LeafIds(leaves) && nodes[x] == NodeOf(FirstLeaf(leaves, x), 0))
  }

  lemma LeafIdsConcat(a: seq<HtnLeaf>, b: seq<HtnLeaf>)
    ensures LeafIds(a + b) == LeafIds(a) + LeafIds(b)
  {
  }

  lemma {:induction false} FirstLeafStays(leaves: seq<HtnLeaf>, leaf: HtnLeaf, x: string)
    requires x in LeafIds(leaves + [leaf])
    ensures FirstLeaf(leaves + [leaf], x) == if x in LeafIds(leaves) then FirstLeaf(leaves, x) else leaf
  {
    hide LeafIds;
    LeafIdsConcat(leaves, [leaf]);
    if leaves == [] {
      assert leaves + [leaf] == [leaf];
    } else {
      assert leaves == [leaves[0]] + leaves[1..] && LeafIds([leaves[0]]) == [leaves[0].id];
      LeafIdsConcat([leaves[0]], leaves[1..]);
      if leaves[0].id != x {
        assert (leaves + [leaf])[1..] == leaves[1..] + [leaf];
        LeafIdsConcat(leaves[1..], [leaf]);
        FirstLeafStays(leaves[1..], leaf, x);
      }
    }
  }

  method CollectNodes(leaves: seq<HtnLeaf>) returns (nodes: map<string, GraphNode>)
    ensures NodesOf(nodes, leaves)
  {
    hide NodeOf, FirstLeaf;
    nodes := map[];
    for i := 0 to |leaves|
      invariant NodesOf(nodes, leaves[..i])
    {
      var leaf := leaves[i];
      assert leaves[..i + 1] == leaves[..i] + [leaf];
      assert LeafIds(leaves[..i + 1]) == LeafIds(leaves[..i]) + [leaf.id];
      forall x | x in LeafIds(leaves[..i + 1])
        ensures FirstLeaf(leaves[..i + 1], x) == if x in LeafIds(leaves[..i]) then FirstLeaf(leaves[..i], x) else leaf
      {
        FirstLeafStays(leaves[..i], leaf, x);
      }
      if leaf.id !in nodes {
        nodes := nodes[leaf.id := NodeOf(leaf, 0)];
      }
    }
    assert leaves[..|leaves|] == leaves;
  }

  ghost predicate EdgesOf(edges: seq<GraphEdge>, ids: set<string>, leaves: seq<HtnLeaf>)
  {
    forall e :: multiset(edges)[e] == if e.source in ids then Dependents(leaves, e) else 0
  }

  /** The edges into one leaf. */
  method AddEdges(leaf: HtnLeaf, ids: set<string>, before: seq<GraphEdge>) returns (edges: seq<GraphEdge>)
    ensures forall e :: multiset(edges)[e] ==
                        multiset(before)[e] + if e.target == leaf.id && e.source in leaf.dependsOn && e.source in ids then 1 else 0
  {
    hide StrSorted;
    var deps := SortedElements(ToSet(leaf.dependsOn));
    edges := before;
    for i := 0 to |deps|
      invariant forall e :: multiset(edges)[e] ==
                            multiset(before)[e] + if e.target == leaf.id && e.source in deps[..i] && e.source in ids then 1 else 0
    {
      assert deps[..i + 1] == deps[..i] + [deps[i]];
      assert deps[i] !in deps[..i];
      if deps[i] in ids {
        edges := edges + [GraphEdge(deps[i], leaf.id)];
      }
    }
    assert deps[..|deps|] == deps;
  }

  method CollectEdges(leaves: seq<HtnLeaf>, ids: set<string>) returns (edges: seq<GraphEdge>)
    ensures EdgesOf(edges, ids, leaves)
  {
    edges := [];
    for i := 0 to |leaves|
      invariant EdgesOf(edges, ids, leaves[..i])
    {
      assert leaves[..i + 1][..i] == leaves[..i];
      edges := AddEdges(leaves[i], ids, edges);
    }
    assert leaves[..|leaves|] == leaves;
  }

  /** The nodes in id order, with their rank as priority. */
  method Prioritize(nodes: map<string, GraphNode>, ids: seq<string>) returns (r: seq<GraphNode>)
    requires forall x :: x in ids ==> x in nodes
    ensures |r| == |ids| && forall i :: 0 <= i < |ids| ==> r[i] == nodes[ids[i]].(priority := i)
  {
    r := [];
    for i := 0 to |ids|
      invariant |r| == i && forall k :: 0 <= k < i ==> r[k] == nodes[ids[k]].(priority := k)
    {
      assert ids[i] in ids;
      r := r + [nodes[ids[i]].(priority := i)];
    }
  }

  /** `_build_action_graph`. */
  method BuildActionGraph(req: PlannerRequest, leaves: seq<HtnLeaf>) returns (r: Result<ActionGraph, PlanError>)
    ensures r.Err? <==> leaves == []
    ensures r.Err? ==> r.error == NoLeaves
    ensures r.Ok? ==> IsGraphOf(r.value, req, leaves)
  {
    hide Dependents, FirstLeaf, EdgesSorted, StrSorted, RunId;
    if leaves == [] {
      return Err(NoLeaves);
    }
    var nodeMap := CollectNodes(leaves);
    var edges := CollectEdges(leaves, nodeMap.Keys);
    var ids := SortedElements(nodeMap.Keys);
    var nodes := Prioritize(nodeMap, ids);
    forall i | 0 <= i < |ids|
      ensures nodes[i].id == ids[i] && NodeFrom(nodes[i], leaves, i)
    {
      assert ids[i] in ids;
    }
    assert NodeIds(nodes) == ids;
    SortEdgesSorted(edges);
    return Ok(ActionGraph(PlanId(req), nodes, SortBy(EdgeLess, edges), []));
  }

  // ---- What any such graph is ----

  lemma {:induction false} DependentsExist(leaves: seq<HtnLeaf>, e: GraphEdge)
    ensures Dependents(leaves, e) > 0 <==>
            exists i :: 0 <= i < |leaves| && leaves[i].id == e.target && e.source in leaves[i].dependsOn
  {
    if leaves != [] {
      var n := |leaves| - 1;
      DependentsExist(leaves[..n], e);
      if i :| 0 <= i < |leaves| && leaves[i].id == e.target && e.source in leaves[i].dependsOn {
        if i < n { assert leaves[..n][i] == leaves[i]; }
      }
      if i :| 0 <= i < n && leaves[..n][i].id == e.target && e.source in leaves[..n][i].dependsOn {
        assert leaves[i] == leaves[..n][i];
      }
    }
  }

  /** Whatever the leaves, ids are unique and both ends of each edge are nodes. */
  lemma BuiltGraphIsClosed(g: ActionGraph, req: PlannerRequest, leaves: seq<HtnLeaf>)
    requires IsGraphOf(g, req, leaves)
    ensures g.planId != "" && UniqueIds(g) && KnownEndpoints(g)
    ensures forall e :: e in g.edges <==> e.source in LeafIds(leaves) && DependsOn(leaves, e.target, e.source)
  {
    hide NodeFrom, Dependents, EdgesSorted, StrLess;
    SortedIsDistinct(NodeIds(g.nodes));
    forall e
      ensures e in g.edges <==> e.source in LeafIds(leaves) && DependsOn(leaves, e.target, e.source)
      ensures e in g.edges ==> e.target in LeafIds(leaves)
    {
      assert e in g.edges <==> multiset(g.edges)[e] > 0;
      DependentsExist(leaves, e);
      if DependsOn(leaves, e.target, e.source) {
        var i :| 0 <= i < |leaves| && leaves[i].id == e.target && e.source in leaves[i].dependsOn;
        assert LeafIds(leaves)[i] == e.target;
      }
    }
  }

  ghost predicate DependsOn(leaves: seq<HtnLeaf>, x: string, dep: string)
  {
    exists i :: 0 <= i < |leaves| && leaves[i].id == x && dep in leaves[i].dependsOn
  }
}
