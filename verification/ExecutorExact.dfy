/** Exactly when pausing, resuming and batching make no difference, with graphs on either side. */
module ExecutorExact {
  import opened ExecutorDeadlock
  import opened ExecutorLimits
  import opened ExecutorLiveness
  import opened ExecutorRuns
  import opened ExecutorSpec
  import opened ExecutorTheory
  import opened Graph
  import opened KahnTheory
  import opened Order
  import opened Wrappers

  /** A chain that raises does so whatever session would follow. */
  lemma {:induction false} RaisingChainStops(s: Setup, sessions: seq<Session>, last: Session, r: Results)
    requires WellFormed(s.graph) && sessions != [] && Chain(s, sessions, r).1.Crashed?
    ensures Chain(s, sessions + [last], r).1.Crashed?
    decreases |sessions|
  {
    hide WellFormed, SessionRun;
    var (st, exit) := SessionRun(s, sessions[0].maxParallel, sessions[0].check, r);
    if exit.Interrupted? && |sessions| > 1 {
      RaisingChainStops(s, sessions[1..], last, st.results);
      assert (sessions + [last])[1..] == sessions[1..] + [last];
    }
  }

  lemma LeavesAreNeeded(g: ActionGraph) returns (s: Setup)
    requires WellFormed(g) && !LeafTargets(g)
    ensures SameButPriorities(s.graph, g) && WellFormed(s.graph) && !RunsAlike(s)
  {
    hide WellFormed, LeafTargets, Chain, SameButPriorities, SequentialResults;
    var pauses;
    s, pauses := OvertakenTargetsDeadlock(g);
    var last := Session(1, None);
    RaisingChainStops(s, pauses, last, map[]);
    assert Uncut(pauses + [last]);
  }

  lemma OneSession(s: Setup, m: int)
    requires WellFormed(s.graph) && m >= 1 && SessionRun(s, m, None, map[]).1.Finished? && RunsAlike(s)
    ensures ResultsOf(s, m) == SequentialResults(s)
  {
    hide WellFormed, SessionRun, SequentialResults;
    assert Uncut([Session(m, None)]);
  }

  lemma DownstreamIsNeeded(g: ActionGraph) returns (s: Setup)
    requires WellFormed(g) && LeafTargets(g) && !DownstreamBranches(g)
    ensures SameButPriorities(s.graph, g) && WellFormed(s.graph) && !RunsAlike(s)
  {
    hide WellFormed, LeafTargets, DownstreamBranches, RunsAlike, SessionRun, SequentialResults, ResultsOf, SameButPriorities;
    var m;
    s, m := BatchSizesDisagree(g);
    if RunsAlike(s) {
      OneSession(s, 1);
      OneSession(s, m);
      assert false;
    }
  }

  /** Pause/resume equivalence and schedule independence, exactly: on a well-formed graph all chains whose last
      session is not interrupted end with the one-node-at-a-time results, whatever the priorities, the nodes, the
      batch sizes and the cuts, if and only if every target that its decision can reject is downstream of it and
      has no successors. */
  lemma PauseResumeExactly(g: ActionGraph)
    requires WellFormed(g)
    ensures Tame(g) <==> forall s: Setup :: SameButPriorities(s.graph, g) ==> WellFormed(s.graph) && RunsAlike(s)
  {
    hide WellFormed, LeafTargets, DownstreamBranches, Chain, SameButPriorities, SequentialResults;
    forall s: Setup | SameButPriorities(s.graph, g)
      ensures WellFormed(s.graph) && (Tame(g) ==> RunsAlike(s))
    {
      SameStructure(s.graph, g);
      SameBranches(s.graph, g);
      if Tame(g) {
        forall sessions | Uncut(sessions)
          ensures Chain(s, sessions, map[]) == (SequentialResults(s), Finished)
        {
          PauseResume(s, sessions);
        }
      }
    }
    if !LeafTargets(g) {
      var s := LeavesAreNeeded(g);
    } else if !DownstreamBranches(g) {
      var s := DownstreamIsNeeded(g);
    }
  }

  // ---- Graphs on either side ----

  const BRANCH := ConditionalBranch("d", "a", ["t"])

  /** A decision "d" with one branch to "t". */
  function WithBranch(ids: seq<string>, edges: seq<GraphEdge>): (g: ActionGraph)
    ensures g.edges == edges && |g.nodes| == |ids|
    ensures NodeIds(g.nodes) == ids
  {
    ActionGraph("plan", seq(|ids|, i requires 0 <= i < |ids| => GraphNode(ids[i], if ids[i] == "d" then Decision else Model, map[], 0)),
                edges, [BRANCH])
  }

  /** Source before target in the list of ids. */
  ghost predicate InOrder(ids: seq<string>, e: GraphEdge)
  {
    exists i, j :: 0 <= i < j < |ids| && ids[i] == e.source && ids[j] == e.target
  }

  lemma InOrderIsWellFormed(ids: seq<string>, edges: seq<GraphEdge>)
    requires Distinct(ids) && forall e :: e in edges ==> InOrder(ids, e)
    ensures WellFormed(WithBranch(ids, edges))
  {
    hide WithBranch, IsCycle, NodeMap;
    var g := WithBranch(ids, edges);
    forall k, p | 0 <= k < |ids| && p in Preds(edges, ids[k])
      ensures p in ids[..k]
    {
      assert InOrder(ids, GraphEdge(p, ids[k]));
    }
    forall walk
      ensures !IsCycle(edges, Ids(g), walk)
    {
      OrderedIsAcyclic(edges, Ids(g), ids, walk);
    }
  }

  /** The only target is "t", by the decision "d". */
  lemma TheTarget(ids: seq<string>, edges: seq<GraphEdge>)
    requires Distinct(ids) && "t" in ids && "d" in ids
    ensures forall cb, x :: Target(WithBranch(ids, edges), cb, x) <==> cb == BRANCH && x == "t"
  {
    var g := WithBranch(ids, edges);
    assert "d" in Ids(g) && NodeMap(g)["d"] in g.nodes;
    assert "t" in Ids(g);
    assert CanSelect(g, "d");
    hide NodeMap, CanSelect, Ids;
  }

  lemma NothingAbove(edges: seq<GraphEdge>, x: string)
    requires Preds(edges, x) == []
    ensures forall a :: !Above(edges, a, x)
  {
  }

  const APART := WithBranch(["t", "d"], [])
  const BETWEEN := WithBranch(["d", "t", "u"], [GraphEdge("d", "t"), GraphEdge("t", "u")])
  const EARLY := WithBranch(["t", "d"], [GraphEdge("t", "d")])

  /** A target apart from its decision: the batch size decides whether it runs. */
  lemma ApartIsNotDownstream()
    ensures WellFormed(APART) && LeafTargets(APART) && !DownstreamBranches(APART)
  {
    InOrderIsWellFormed(["t", "d"], []);
    TheTarget(["t", "d"], []);
    NothingAbove([], "t");
    NothingAbove([], "d");
    hide Above, Target, WellFormed, WithBranch;
    assert Rejectable(APART, BRANCH, "t");
  }

  lemma BetweenIsWellFormed()
    ensures WellFormed(BETWEEN)
  {
    hide WithBranch, WellFormed;
    var ids, edges := ["d", "t", "u"], [GraphEdge("d", "t"), GraphEdge("t", "u")];
    assert InOrder(ids, edges[0]) by { assert ids[0] == "d" && ids[1] == "t"; }
    assert InOrder(ids, edges[1]) by { assert ids[1] == "t" && ids[2] == "u"; }
    InOrderIsWellFormed(ids, edges);
  }

  lemma BetweenEdges()
    ensures "d" in Preds(BETWEEN.edges, "t") && Succs(BETWEEN.edges, "t") != [] && Preds(BETWEEN.edges, "d") == []
  {
    var edges := [GraphEdge("d", "t"), GraphEdge("t", "u")];
    assert BETWEEN.edges == edges;
    assert edges[0] in edges && edges[1] in edges;
    assert "d" in Preds(edges, "t") && "u" in Succs(edges, "t");
    assert forall y :: y in Preds(edges, "d") ==> GraphEdge(y, "d") in edges;
  }

  /** A target between its decision and another node: a pause can block it for good. */
  lemma BetweenIsNoLeaf()
    ensures WellFormed(BETWEEN) && DownstreamBranches(BETWEEN) && !LeafTargets(BETWEEN)
  {
    hide Above, Target, WellFormed, WithBranch, Preds, Succs;
    BetweenIsWellFormed();
    BetweenEdges();
    TheTarget(["d", "t", "u"], [GraphEdge("d", "t"), GraphEdge("t", "u")]);
    PredIsAbove(BETWEEN.edges, "d", "t");
    NothingAbove(BETWEEN.edges, "d");
    assert Rejectable(BETWEEN, BRANCH, "t");
  }

  /** A target before its decision has run when the decision rejects it. */
  lemma EarlyIsTame()
    ensures Tame(EARLY) && Target(EARLY, BRANCH, "t") && Succs(EARLY.edges, "t") != []
  {
    var ids, edges := ["t", "d"], [GraphEdge("t", "d")];
    assert InOrder(ids, edges[0]) by { assert ids[0] == "t" && ids[1] == "d"; }
    InOrderIsWellFormed(ids, edges);
    TheTarget(ids, edges);
    assert edges[0] in edges;
    assert "t" in Preds(edges, "d") && "d" in Succs(edges, "t");
    PredIsAbove(edges, "t", "d");
    hide Above, Target, WellFormed, WithBranch, Preds, Succs;
  }
}
