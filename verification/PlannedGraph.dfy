/** Checking a graph a planner returned (dynamic_planner.py, operator_catalog.py). */
module PlannedGraph {
  import opened Graph
  import opened JsonValues
  import opened Kahn
  import opened KahnTheory
  import opened Order
  import opened Text
  import opened Wrappers

  /** `DynamicPlannerSpec`: node types and tool names a plan may use; no tool names means any. */
  datatype PlannerSpec = PlannerSpec(allowedTypes: set<NodeType>, allowedTools: seq<string>)

  /** The tools and node types with an operator contract. */
  datatype OperatorCatalog = OperatorCatalog(tools: set<string>, types: set<NodeType>)

  datatype PlanFault =
    | EmptyPlanId
    | DuplicateIds
    | NotAllowed(node: string)
    | UnknownEndpoint(id: string)
    | Cyclic

  /** `str(parameters.get("tool_name", ""))`. */
  function ToolName(n: GraphNode, str: Json -> string): string
  {
    if "tool_name" !in n.parameters then ""
    else if n.parameters["tool_name"].Str? then n.parameters["tool_name"].s
    else str(n.parameters["tool_name"])
  }

  /** `assert_node_allowed`. */
  predicate InCatalog(n: GraphNode, catalog: OperatorCatalog, str: Json -> string)
  {
    if n.kind == Mcp then var tool := Strip(ToolName(n, str)); tool != "" && tool in catalog.tools
    else n.kind in catalog.types
  }

  predicate NodeAllowed(n: GraphNode, spec: PlannerSpec, catalog: Option<OperatorCatalog>, str: Json -> string)
  {
    && n.kind in spec.allowedTypes
    && (n.kind == Mcp && spec.allowedTools != [] ==> ToolName(n, str) in spec.allowedTools)
    && (catalog.Some? ==> InCatalog(n, catalog.value, str))
  }

  ghost predicate AllAllowed(g: ActionGraph, spec: PlannerSpec, catalog: Option<OperatorCatalog>, str: Json -> string)
  {
    forall n :: n in g.nodes ==> NodeAllowed(n, spec, catalog, str)
  }

  /** What makes a plan safe to execute, but for cycles. */
  ghost predicate WellTyped(g: ActionGraph, spec: PlannerSpec, catalog: Option<OperatorCatalog>, str: Json -> string)
  {
    && g.planId != ""
    && UniqueIds(g)
    && AllAllowed(g, spec, catalog, str)
    && KnownEndpoints(g)
  }

  /** Node i is the first that may not be used. */
  ghost predicate FirstForbidden(g: ActionGraph, spec: PlannerSpec, catalog: Option<OperatorCatalog>, str: Json -> string, i: nat)
  {
    && i < |g.nodes| && !NodeAllowed(g.nodes[i], spec, catalog, str)
    && forall k :: 0 <= k < i ==> NodeAllowed(g.nodes[k], spec, catalog, str)
  }

  method FindForbidden(g: ActionGraph, spec: PlannerSpec, catalog: Option<OperatorCatalog>, str: Json -> string)
    returns (r: Option<nat>)
    ensures r.None? <==> AllAllowed(g, spec, catalog, str)
    ensures forall i: nat :: r == Some(i) <==> FirstForbidden(g, spec, catalog, str, i)
  {
    hide NodeAllowed;
    for i := 0 to |g.nodes|
      invariant forall k :: 0 <= k < i ==> NodeAllowed(g.nodes[k], spec, catalog, str)
    {
      if !NodeAllowed(g.nodes[i], spec, catalog, str) {
        return Some(i);
      }
    }
    return None;
  }

  /** Edge i is the first with an end that is no node. */
  ghost predicate FirstOpen(g: ActionGraph, i: nat)
  {
    && i < |g.edges| && !(g.edges[i].source in Ids(g) && g.edges[i].target in Ids(g))
    && forall k :: 0 <= k < i ==> g.edges[k].source in Ids(g) && g.edges[k].target in Ids(g)
  }

  /** The end that is no node, the source before the target. */
  function OpenEnd(g: ActionGraph, e: GraphEdge): string
  {
    if e.source !in Ids(g) then e.source else e.target
  }

  method FindUnknown(g: ActionGraph) returns (r: Option<string>)
    ensures r.None? <==> KnownEndpoints(g)
    ensures forall i: nat :: FirstOpen(g, i) ==> r == Some(OpenEnd(g, g.edges[i]))
    ensures r.Some? ==> exists i: nat :: FirstOpen(g, i)
  {
    hide Ids;
    var ids := Ids(g);
    for i := 0 to |g.edges|
      invariant forall k :: 0 <= k < i ==> g.edges[k].source in ids && g.edges[k].target in ids
    {
      var e := g.edges[i];
      if e.source !in ids {
        assert FirstOpen(g, i);
        return Some(e.source);
      }
      if e.target !in ids {
        assert FirstOpen(g, i);
        return Some(e.target);
      }
    }
    return None;
  }

  lemma UniqueIffSameSize(g: ActionGraph)
    ensures UniqueIds(g) <==> |Ids(g)| == |g.nodes|
  {
    DistinctSize(NodeIds(g.nodes));
  }

  /** `validate_planned_graph`: accepted exactly when well typed and acyclic; otherwise the first check
      that fails, in this order, is reported, with the first node or edge end that fails it. */
  method ValidatePlannedGraph(g: ActionGraph, spec: PlannerSpec, catalog: Option<OperatorCatalog>, str: Json -> string)
    returns (r: Result<ActionGraph, PlanFault>)
    ensures r.Ok? <==> WellTyped(g, spec, catalog, str) && Acyclic(g)
    ensures r.Ok? ==> r.value == g
    ensures r == Err(EmptyPlanId) <==> g.planId == ""
    ensures r == Err(DuplicateIds) <==> g.planId != "" && !UniqueIds(g)
    ensures forall i: nat :: g.planId != "" && UniqueIds(g) && FirstForbidden(g, spec, catalog, str, i) ==>
                          r == Err(NotAllowed(g.nodes[i].id))
    ensures r.Err? && r.error.NotAllowed? ==> exists i: nat :: FirstForbidden(g, spec, catalog, str, i)
    ensures forall i: nat :: g.planId != "" && UniqueIds(g) && AllAllowed(g, spec, catalog, str) && FirstOpen(g, i) ==>
                          r == Err(UnknownEndpoint(OpenEnd(g, g.edges[i])))
    ensures r.Err? && r.error.UnknownEndpoint? ==> AllAllowed(g, spec, catalog, str) && exists i: nat :: FirstOpen(g, i)
    ensures r == Err(Cyclic) <==> WellTyped(g, spec, catalog, str) && !Acyclic(g)
  {
    hide Acyclic, KahnOrder, Dangling, NodeAllowed, Ids, NodeIds, UniqueIds, KnownEndpoints, IsTopological, FirstDangling;
    if g.planId == "" {
      return Err(EmptyPlanId);
    }
    UniqueIffSameSize(g);
    if |Ids(g)| != |g.nodes| {
      return Err(DuplicateIds);
    }
    var forbidden := FindForbidden(g, spec, catalog, str);
    if forbidden.Some? {
      return Err(NotAllowed(g.nodes[forbidden.value].id));
    }
    var unknown := FindUnknown(g);
    if unknown.Some? {
      return Err(UnknownEndpoint(unknown.value));
    }
    RaisesIffCyclic(g);
    var order := TopologicalOrder(g);
    return if order.Ok? then Ok(g) else Err(Cyclic);
  }
}
