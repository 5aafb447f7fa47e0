/** The action graph (dag.py): typed nodes, edges and conditional branches. */
module Graph {
  import opened JsonValues
  import opened Order

  datatype NodeType = Model | Mcp | Code | Decision | Aggregate

  datatype GraphNode = GraphNode(id: string, kind: NodeType, parameters: map<string, Json>, priority: int)

  datatype GraphEdge = GraphEdge(source: string, target: string)

  datatype ConditionalBranch = ConditionalBranch(decision: string, branchLabel: string, targets: seq<string>)

  datatype ActionGraph = ActionGraph(
    planId: string, nodes: seq<GraphNode>, edges: seq<GraphEdge>, branches: seq<ConditionalBranch>)

  // ---- node_ids, node_map ----

  function NodeIds(nodes: seq<GraphNode>): (ids: seq<string>)
    ensures |ids| == |nodes|
    ensures forall i :: 0 <= i < |nodes| ==> ids[i] == nodes[i].id
  {
    seq(|nodes|, i requires 0 <= i < |nodes| => nodes[i].id)
  }

  /** A later node with the same id replaces an earlier one. */
  function NodeMapOf(nodes: seq<GraphNode>): (m: map<string, GraphNode>)
    ensures m.Keys == ToSet(NodeIds(nodes))
    ensures forall x :: x in m ==> m[x].id == x && m[x] in nodes
  {
    if |nodes| == 0 then map[]
    else
      var n := nodes[|nodes| - 1];
      assert NodeIds(nodes) == NodeIds(nodes[..|nodes| - 1]) + [n.id];
      NodeMapOf(nodes[..|nodes| - 1])[n.id := n]
  }

  lemma {:induction false} LaterNodeWins(nodes: seq<GraphNode>, i: nat)
    requires i < |nodes| && forall j :: i < j < |nodes| ==> nodes[j].id != nodes[i].id
    ensures nodes[i].id in NodeMapOf(nodes) && NodeMapOf(nodes)[nodes[i].id] == nodes[i]
    decreases |nodes|
  {
    if i < |nodes| - 1 {
      assert nodes[|nodes| - 1].id != nodes[i].id;
      LaterNodeWins(nodes[..|nodes| - 1], i);
    }
  }

  function NodeMap(g: ActionGraph): (m: map<string, GraphNode>)
  {
    NodeMapOf(g.nodes)
  }

  function Ids(g: ActionGraph): (ids: set<string>)
    ensures ids == NodeMap(g).Keys
    ensures forall x :: x in ids <==> x in NodeIds(g.nodes)
  {
    ToSet(NodeIds(g.nodes))
  }

  /** The priorities by which ready nodes are ordered. */
  function Priorities(g: ActionGraph): (p: map<string, int>)
    ensures p.Keys == Ids(g)
  {
    var m := NodeMap(g);
    map x | x in m :: m[x].priority
  }

  predicate UniqueIds(g: ActionGraph)
  {
    Distinct(NodeIds(g.nodes))
  }

  predicate KnownEndpoints(g: ActionGraph)
  {
    forall e :: e in g.edges ==> e.source in Ids(g) && e.target in Ids(g)
  }

  // ---- adjacency, predecessors ----

  /** Targets of the edges leaving x, in edge order, with repetitions. */
  function Succs(edges: seq<GraphEdge>, x: string): (s: seq<string>)
    ensures forall y :: y in s <==> GraphEdge(x, y) in edges
  {
    if |edges| == 0 then []
    else
      var e := edges[|edges| - 1];
      var rest := Succs(edges[..|edges| - 1], x);
      assert edges == edges[..|edges| - 1] + [e];
      if e.source == x then rest + [e.target] else rest
  }

  /** Sources of the edges entering x, in edge order, with repetitions. */
  function Preds(edges: seq<GraphEdge>, x: string): (s: seq<string>)
    ensures forall y :: y in s <==> GraphEdge(y, x) in edges
  {
    if |edges| == 0 then []
    else
      var e := edges[|edges| - 1];
      var rest := Preds(edges[..|edges| - 1], x);
      assert edges == edges[..|edges| - 1] + [e];
      if e.target == x then rest + [e.source] else rest
  }

  function Lookup(m: map<string, seq<string>>, x: string): seq<string>
  {
    if x in m then m[x] else []
  }

  function Sources(edges: seq<GraphEdge>): set<string>
  {
    set e | e in edges :: e.source
  }

  function Targets(edges: seq<GraphEdge>): set<string>
  {
    set e | e in edges :: e.target
  }

  /** `adjacency()`: a dictionary filled edge by edge; an unknown source gets its own entry. */
  method Adjacency(g: ActionGraph) returns (adj: map<string, seq<string>>)
    ensures adj.Keys == Ids(g) + Sources(g.edges)
    ensures forall x :: Lookup(adj, x) == Succs(g.edges, x)
  {
    adj := map x | x in Ids(g) :: [];
    for i := 0 to |g.edges|
      invariant adj.Keys == Ids(g) + Sources(g.edges[..i])
      invariant forall x :: Lookup(adj, x) == Succs(g.edges[..i], x)
    {
      var e := g.edges[i];
      assert g.edges[..i + 1] == g.edges[..i] + [e] && g.edges[..i + 1][..i] == g.edges[..i];
      adj := adj[e.source := Lookup(adj, e.source) + [e.target]];
    }
    assert g.edges[..|g.edges|] == g.edges;
  }

  /** `predecessors()`: reverse adjacency, filled edge by edge. */
  method Predecessors(g: ActionGraph) returns (preds: map<string, seq<string>>)
    ensures preds.Keys == Ids(g) + Targets(g.edges)
    ensures forall x :: Lookup(preds, x) == Preds(g.edges, x)
  {
    preds := map x | x in Ids(g) :: [];
    for i := 0 to |g.edges|
      invariant preds.Keys == Ids(g) + Targets(g.edges[..i])
      invariant forall x :: Lookup(preds, x) == Preds(g.edges[..i], x)
    {
      var e := g.edges[i];
      assert g.edges[..i + 1] == g.edges[..i] + [e] && g.edges[..i + 1][..i] == g.edges[..i];
      preds := preds[e.target := Lookup(preds, e.target) + [e.source]];
    }
    assert g.edges[..|g.edges|] == g.edges;
  }
}
