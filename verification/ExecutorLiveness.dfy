/** When runs can raise: never when no target that its decision can reject has successors; and when some has, and all
    are downstream of their decisions, every batch size allows a chain that deadlocks. */
module ExecutorLiveness {
  import opened ExecutorRuns
  import opened ExecutorSpec
  import opened ExecutorTheory
  import opened Graph
  import opened JsonValues
  import opened Kahn
  import opened KahnTheory
  import opened Nodes
  import opened Order
  import opened Scope
  import opened Wrappers

  // ---- When no round can raise ----

  /** No target of another node's branch has successors. */
  ghost predicate BareTargets(g: ActionGraph)
  {
    forall cb, x :: Target(g, cb, x) ==> Succs(g.edges, x) == []
  }

  /** With a node, its predecessors are in the set too. */
  ghost predicate Closed(edges: seq<GraphEdge>, done: set<string>)
  {
    forall x, p :: x in done && p in Preds(edges, x) ==> p in done
  }

  /** Results from which a run goes on without raising: any results at all when no branch target has successors. */
  ghost predicate Unblocked(g: ActionGraph, done: set<string>)
  {
    BareTargets(g) || (LeafTargets(g) && Closed(g.edges, done))
  }

  /** No node with successors has been skipped. */
  ghost predicate NoneLost(g: ActionGraph, st: ExecState)
  {
    && st.results.Keys <= st.completed
    && forall x :: x in st.completed && Succs(g.edges, x) != [] ==> x in st.results
  }

  /** What liveness needs of a state: nothing about where its results came from. */
  ghost predicate Live(s: Setup, st: ExecState)
  {
    && PendingIsRest(s, st)
    && (forall d :: d in st.selected ==> CanSelect(s.graph, d) && d in st.completed && d in st.results)
    && Unblocked(s.graph, st.results.Keys)
    && (!BareTargets(s.graph) ==> NoneLost(s.graph, st))
  }

  lemma ClosedAbove(edges: seq<GraphEdge>, done: set<string>, a: string, x: string)
    requires Closed(edges, done) && x in done && Above(edges, a, x)
    ensures a in done
  {
    hide Preds;
    var p :| p in Preds(edges, x) && DependsOn(edges, {a}, p);
    var path := PathTo(edges, a, p);
    ClosedAlong(edges, done, path);
  }

  lemma {:induction false} ClosedAlong(edges: seq<GraphEdge>, done: set<string>, path: seq<string>)
    requires Closed(edges, done) && IsPath(edges, path) && path[|path| - 1] in done
    ensures path[0] in done
    decreases |path|
  {
    if |path| > 1 {
      var n := |path| - 2;
      assert GraphEdge(path[n], path[n + 1]) in edges;
      assert path[n] in Preds(edges, path[n + 1]);
      var init := path[..n + 1];
      forall i | 0 <= i < n
        ensures GraphEdge(init[i], init[i + 1]) in edges
      {
        assert GraphEdge(path[i], path[i + 1]) in edges;
      }
      ClosedAlong(edges, done, init);
    }
  }

  lemma {:induction false} EarliestIn(order: seq<string>, wanted: set<string>, n: nat) returns (i: nat)
    requires n < |order| && order[n] in wanted
    ensures i <= n && order[i] in wanted && forall j :: 0 <= j < i ==> order[j] !in wanted
  {
    if j :| 0 <= j < n && order[j] in wanted {
      i := EarliestIn(order, wanted, j);
    } else {
      i := n;
    }
  }

  lemma SkippedHasNoSuccessor(s: Setup, st: ExecState, p: string, x: string)
    requires Live(s, st) && Unselected(s.graph, st.selected, p) && p in Ids(s.graph) && p !in st.completed
    ensures p !in Preds(s.graph.edges, x)
  {
    hide CanSelect, Preds, Above, Closed, PendingIsRest, Ids;
    var g := s.graph;
    var cb :| cb in g.branches && p in cb.targets && cb.decision in st.selected && st.selected[cb.decision] != cb.branchLabel;
    assert Target(g, cb, p);
    if !BareTargets(g) && Above(g.edges, p, cb.decision) {
      ClosedAbove(g.edges, st.results.Keys, p, cb.decision);
    }
    assert Rejectable(g, cb, p) || BareTargets(g);
    assert x !in Succs(g.edges, p);
  }

  /** No round of such a run raises. */
  lemma NoDeadlock(s: Setup, m: int, st: ExecState)
    requires WellFormed(s.graph) && m >= 1 && Live(s, st) && PendingKnown(s, st)
    ensures !Round(s, m, st).Raise?
  {
    hide Acyclic, UniqueIds, KnownEndpoints, KahnOrder, Unblocked, NoneLost, Unselected, Preds, CanSelect, NodeMap,
         BatchOf, Commit, SelectedOf, PredsSatisfied, ReadyAmong, Without;
    var g := s.graph;
    var satisfied := PredsSatisfied(g.edges, st.pending, st.completed);
    var rest := Skip(g, st);
    if ReadyAmong(g, st.selected, satisfied) == [] && rest.pending != [] {
      var order := KahnOrder(g);
      RaisesIffCyclic(g);
      assert rest.pending[0] in rest.pending && rest.pending[0] in st.pending;
      var n :| 0 <= n < |order| && order[n] == rest.pending[0];
      var i := EarliestIn(order, ToSet(rest.pending), n);
      var x := order[i];
      forall p | p in Preds(g.edges, x)
        ensures p in st.completed
      {
        assert p in order[..i];
        if p !in st.completed {
          assert p in satisfied;
          assert Unselected(g, st.selected, p);
          SkippedHasNoSuccessor(s, st, p, x);
        }
      }
      assert false;
    }
  }

  /** The first pending node of the topological order has all its predecessors completed. */
  lemma SomeSatisfied(s: Setup, st: ExecState) returns (x: string)
    requires WellFormed(s.graph) && PendingIsRest(s, st) && st.pending != []
    ensures x in st.pending && PredsIn(s.graph.edges, x, st.completed)
  {
    hide Acyclic, UniqueIds, KnownEndpoints, KahnOrder, Preds;
    var order := KahnOrder(s.graph);
    RaisesIffCyclic(s.graph);
    assert st.pending[0] in st.pending;
    var n :| 0 <= n < |order| && order[n] == st.pending[0];
    var i := EarliestIn(order, ToSet(st.pending), n);
    x := order[i];
    forall p | p in Preds(s.graph.edges, x)
      ensures p in st.completed
    {
      assert p in order[..i];
    }
  }

  /** On any well-formed graph some pending node has its predecessors completed, and a round raises
      "Deadlock" exactly when all such nodes are in unselected branches and other nodes are pending. */
  lemma DeadlockExactly(s: Setup, m: int, st: ExecState)
    requires WellFormed(s.graph) && m >= 1 && PendingIsRest(s, st) && PendingKnown(s, st) && st.pending != []
    ensures exists x :: x in st.pending && PredsIn(s.graph.edges, x, st.completed)
    ensures Round(s, m, st).Raise? <==>
            && (forall x :: x in st.pending && PredsIn(s.graph.edges, x, st.completed) ==> Unselected(s.graph, st.selected, x))
            && exists y :: y in st.pending && !PredsIn(s.graph.edges, y, st.completed)
    ensures Round(s, m, st).Raise? ==> Round(s, m, st).error == Deadlock
  {
    hide Acyclic, UniqueIds, KnownEndpoints, KahnOrder, Unselected, Preds, NodeMap, BatchOf, Commit, PredsSatisfied,
         ReadyAmong, Without, PredsIn, PendingIsRest;
    var g := s.graph;
    var first := SomeSatisfied(s, st);
    var satisfied := PredsSatisfied(g.edges, st.pending, st.completed);
    var ready := ReadyAmong(g, st.selected, satisfied);
    var rest := Skip(g, st);
    if ready == [] {
      assert forall x :: x in rest.pending <==> x in st.pending && x !in satisfied;
      if rest.pending != [] { assert rest.pending[0] in rest.pending; }
    } else {
      assert ready[0] in ready;
    }
  }

  /** What a round completes: the rejected nodes it skips, and the batch, which gets results. */
  lemma RoundAdds(s: Setup, m: int, st: ExecState)
    requires PendingKnown(s, st) && Round(s, m, st).Next?
    ensures var (q, batch) := (Round(s, m, st).st, ToSet(BatchOf(s, m, st)));
            && q.results.Keys == st.results.Keys + batch
            && (forall x :: x in q.completed <==>
                  x in st.completed || x in batch
                  || (x in st.pending && PredsIn(s.graph.edges, x, st.completed) && Unselected(s.graph, st.selected, x)))
            && (forall x :: x in q.pending <==>
                  x in st.pending && x !in batch
                  && !(PredsIn(s.graph.edges, x, st.completed) && Unselected(s.graph, st.selected, x)))
            && (forall d :: d in q.selected ==> d in st.selected || (d in batch && CanSelect(s.graph, d)))
  {
    hide CanSelect, BranchOf, Unselected, NodeMap, PredsIn, ExecuteNode, Without, PredsSatisfied, ReadyAmong;
    var rest := Skip(s.graph, st);
    var batch := BatchOf(s, m, st);
    var outs := BatchResults(s, batch, rest.results);
    forall d | d in SelectedOf(s, outs)
      ensures CanSelect(s.graph, d)
    {
      SelectedAt(s, outs, d);
    }
  }

  /** What a round adds keeps the results closed, and nothing it skips has successors. */
  lemma RoundKeepsClosed(s: Setup, m: int, st: ExecState)
    requires Live(s, st) && PendingKnown(s, st) && Round(s, m, st).Next? && !BareTargets(s.graph)
    ensures Unblocked(s.graph, Round(s, m, st).st.results.Keys) && NoneLost(s.graph, Round(s, m, st).st)
  {
    hide CanSelect, Preds, Unselected, Round, BatchOf, BareTargets, LeafTargets, Succs, Ids, NodeMap;
    RoundAdds(s, m, st);
    var g, st' := s.graph, Round(s, m, st).st;
    var batch := BatchOf(s, m, st);
    forall x, p | x in st'.results && p in Preds(g.edges, x)
      ensures p in st'.results
    {
      assert x in Succs(g.edges, p);
      if x in batch { assert p in st.completed; }
    }
    forall x | x in st'.completed && Succs(g.edges, x) != []
      ensures x in st'.results
    {
      var y := Succs(g.edges, x)[0];
      assert y in Succs(g.edges, x);
      if x !in st.completed && x !in batch { SkippedHasNoSuccessor(s, st, x, y); }
    }
  }

  lemma RoundKeepsLive(s: Setup, m: int, st: ExecState)
    requires Live(s, st) && PendingKnown(s, st) && Round(s, m, st).Next?
    ensures Live(s, Round(s, m, st).st)
  {
    hide CanSelect, Unselected, PredsIn, BareTargets, LeafTargets, Closed, NoneLost, Round, BatchOf, Ids;
    RoundAdds(s, m, st);
    if !BareTargets(s.graph) { RoundKeepsClosed(s, m, st); }
  }

  lemma {:induction false} RunsReturn(s: Setup, m: int, check: InterruptCheck, n: nat, st: ExecState)
    requires WellFormed(s.graph) && m >= 1 && Live(s, st) && PendingKnown(s, st)
    ensures !RunFrom(s, m, check, n, st).1.Crashed?
    ensures check.None? ==> RunFrom(s, m, check, n, st).1.Finished?
    ensures Unblocked(s.graph, RunFrom(s, m, check, n, st).0.results.Keys)
    decreases |st.pending|
  {
    hide WellFormed, Unblocked, BareTargets, PendingIsRest, NoneLost, Round, PendingKnown, CanSelect;
    if st.pending != [] {
      NoDeadlock(s, m, st);
      RoundProgress(s, m, st);
      var step := Round(s, m, st);
      if step.Next? {
        RoundKeepsLive(s, m, st);
        if Poll(check, n).None? { RunsReturn(s, m, check, n + 1, step.st); }
      } else {
        DoneKeepsResults(s, m, st);
      }
    }
  }

  lemma DoneKeepsResults(s: Setup, m: int, st: ExecState)
    requires PendingKnown(s, st) && !Round(s, m, st).Next?
    ensures Round(s, m, st).st.results == st.results
  {
  }

  /** So a session on a well-formed graph never raises and finishes unless interrupted: from any results at all
      when no branch target has successors, and from closed results when those that can be rejected have none.
      It hands on such results. */
  lemma SessionsReturn(s: Setup, m: int, check: InterruptCheck, r: Results)
    requires WellFormed(s.graph) && Unblocked(s.graph, r.Keys) && m >= 1
    ensures !SessionRun(s, m, check, r).1.Crashed?
    ensures check.None? ==> SessionRun(s, m, check, r).1.Finished?
    ensures Unblocked(s.graph, SessionRun(s, m, check, r).0.results.Keys)
  {
    hide Acyclic, UniqueIds, KnownEndpoints, KahnOrder, Unblocked, BareTargets, CanSelect, NodeMap, BranchOf,
         RunFrom, PendingIsRest, PendingKnown;
    StartIsKnown(s, r);
    var st := Start(s, KahnOrder(s.graph), map[], r);
    forall d | d in st.selected
      ensures CanSelect(s.graph, d) && d in st.completed && d in st.results
    {
      SelectedAt(s, r, d);
    }
    assert st.results.Keys == r.Keys;
    RunsReturn(s, m, check, 0, st);
  }

  lemma {:induction false} ChainsReturn(s: Setup, sessions: seq<Session>, r: Results)
    requires WellFormed(s.graph) && Unblocked(s.graph, r.Keys)
    requires sessions != [] && forall i :: 0 <= i < |sessions| ==> sessions[i].maxParallel >= 1
    ensures !Chain(s, sessions, r).1.Crashed?
    ensures sessions[|sessions| - 1].check.None? ==> Chain(s, sessions, r).1.Finished?
  {
    hide Unblocked, SessionRun, Acyclic, UniqueIds, KnownEndpoints;
    SessionsReturn(s, sessions[0].maxParallel, sessions[0].check, r);
    var (st, exit) := SessionRun(s, sessions[0].maxParallel, sessions[0].check, r);
    if exit.Interrupted? && |sessions| > 1 {
      ChainsReturn(s, sessions[1..], st.results);
    }
  }

  /** What a cut leaves is closed when no target that can be rejected has successors. */
  lemma PartialIsUnblocked(s: Setup, r: Results)
    requires LeafTargets(s.graph) && Partial(s, r)
    ensures Unblocked(s.graph, r.Keys)
  {
    hide Preds, RejectedBy, Rejectable, ExecuteNode, NodeMap, Above;
    forall x, p | x in r && p in Preds(s.graph.edges, x)
      ensures p in r
    {
      assert PartialAt(s, r, x);
      PredIsAbove(s.graph.edges, p, x);
      assert x in Succs(s.graph.edges, p);
    }
  }

  /** Pause/resume equivalence and schedule independence: on a tame graph, any number of interrupted
      sessions, each with its own batch size and cut anywhere, followed by an uninterrupted one,
      ends with exactly the results of the one-node-at-a-time run. */
  lemma PauseResume(s: Setup, sessions: seq<Session>)
    requires Tame(s.graph) && Uncut(sessions)
    ensures Chain(s, sessions, map[]) == (SequentialResults(s), Finished)
  {
    hide WellFormed, DownstreamBranches, LeafTargets, Chain, SequentialResults;
    NothingIsPartial(s);
    PartialIsUnblocked(s, map[]);
    ChainsReturn(s, sessions, map[]);
    FinishedChainsAgree(s, sessions, map[]);
  }

  // ---- Otherwise, with targets downstream of their decisions, some chain deadlocks ----

  /** t, a target with the successor u, and no target above it. */
  ghost predicate FirstNonLeaf(g: ActionGraph, cb: ConditionalBranch, t: string, u: string)
  {
    && Rejectable(g, cb, t) && GraphEdge(t, u) in g.edges && u in Ids(g)
    && forall c, a :: Above(g.edges, a, t) ==> !Rejectable(g, c, a)
  }

  /** The targets with successors that can be rejected. */
  ghost function NonLeafTargets(g: ActionGraph): (r: set<string>)
    ensures forall x :: x in r <==> x in Ids(g) && Succs(g.edges, x) != [] && exists cb :: Rejectable(g, cb, x)
  {
    set x | x in Ids(g) && Succs(g.edges, x) != [] && exists cb :: Rejectable(g, cb, x)
  }

  lemma AboveHasSuccessor(edges: seq<GraphEdge>, a: string, x: string)
    requires Above(edges, a, x)
    ensures Succs(edges, a) != []
  {
    var p :| p in Preds(edges, x) && DependsOn(edges, {a}, p);
    var path :| IsPathFrom(edges, {a}, path, p);
    if |path| == 1 {
      assert x in Succs(edges, a);
    } else {
      assert GraphEdge(path[0], path[0 + 1]) in edges;
      assert path[1] in Succs(edges, a);
    }
  }

  lemma FindFirstNonLeaf(g: ActionGraph) returns (cb: ConditionalBranch, t: string, u: string)
    requires WellFormed(g) && !LeafTargets(g)
    ensures FirstNonLeaf(g, cb, t, u)
  {
    hide Acyclic, UniqueIds, KahnOrder, CanSelect, Above, Succs, Preds, NonLeafTargets;
    var order := KahnOrder(g);
    RaisesIffCyclic(g);
    var cb0, t0 :| Rejectable(g, cb0, t0) && Succs(g.edges, t0) != [];
    var n :| 0 <= n < |order| && order[n] == t0;
    var i := EarliestIn(order, NonLeafTargets(g), n);
    t := order[i];
    cb :| Rejectable(g, cb, t);
    u := Succs(g.edges, t)[0];
    assert u in Succs(g.edges, t);
    forall c, a | Above(g.edges, a, t)
      ensures !Rejectable(g, c, a)
    {
      AboveIsEarlier(g.edges, Ids(g), order, a, i);
      AboveHasSuccessor(g.edges, a, t);
      var j :| 0 <= j < i && order[j] == a;
      assert order[j] !in NonLeafTargets(g);
    }
  }

  /** A label no branch carries. */
  ghost function FreshLabel(branches: seq<ConditionalBranch>): (f: string)
    ensures forall cb :: cb in branches ==> |cb.branchLabel| < |f|
  {
    if |branches| == 0 then "x"
    else
      assert branches == [branches[0]] + branches[1..];
      branches[0].branchLabel + FreshLabel(branches[1..])
  }

  ghost function ContraryOutput(g: ActionGraph, x: string): NodeOutput
  {
    var key := if CanSelect(g, x) then BranchKey(NodeMap(g)[x]).s else "out";
    NodeOutput(map[key := Str(FreshLabel(g.branches))], map[], Completed, None, None)
  }

  /** Every node completes at once, and every decision selects a label no branch carries. */
  ghost function ContrarySetup(g: ActionGraph): Setup
  {
    Setup(g, map x | x in Ids(g) :: (v: Values, a: nat) => Returned(ContraryOutput(g, x)), map[], 0, 0,
          Prompts((v: Values, p: Values) => Null, (v: Values) => Null, (v: Values) => Null), (j: Json) => "")
  }

  lemma ContraryResult(g: ActionGraph, x: string, r: Results)
    requires x in Ids(g)
    ensures ExecuteNode(ContrarySetup(g), x, r) == ContraryOutput(g, x)
  {
    hide GatherInputs, FreshLabel, BranchKey, CanSelect, NodeMap;
    var s := ContrarySetup(g);
    var inputs := GatherInputs(s, x, r);
    assert Attempt(s, s.registry[x], inputs, 0) == ContraryOutput(g, x);
  }

  /** Once its decision has run, the target is pruned. */
  lemma ContraryPrunes(g: ActionGraph, r: Results, cb: ConditionalBranch, t: string)
    requires Rejectable(g, cb, t) && Partial(ContrarySetup(g), r) && cb.decision in r
    ensures Pruned(ContrarySetup(g), r, t)
  {
    hide ExecuteNode, NodeMap, FreshLabel, Settled, BranchKey, Pruned, SelectedOf, Above;
    var s := ContrarySetup(g);
    var d := cb.decision;
    assert PartialAt(s, r, d);
    ContraryResult(g, d, r);
    assert BranchOf(s, d, r[d]) == Some(FreshLabel(g.branches));
    SelectedAt(s, r, d);
    PrunedByIt(s, r, t, cb);
  }

  /** A first non-leaf target is settled only once it is pruned. */
  lemma SettledTargetIsPruned(g: ActionGraph, r: Results, cb: ConditionalBranch, t: string, u: string)
    requires DownstreamBranches(g) && FirstNonLeaf(g, cb, t, u) && Partial(ContrarySetup(g), r) && Settled(ContrarySetup(g), r, t)
    ensures ContrarySetup(g).graph == g && Pruned(ContrarySetup(g), r, t)
  {
    hide Partial, Above, Pruned, CanSelect;
    var s := ContrarySetup(g);
    var d := cb.decision;
    assert Above(g.edges, d, t);
    DecisionIsKnown(g, cb, t);
    if Pruned(s, r, d) { PrunedIsRejectable(s, r, d); }
    ContraryPrunes(g, r, cb, t);
  }

  lemma PrunedIsRejectable(s: Setup, r: Results, x: string)
    requires Pruned(s, r, x)
    ensures exists cb :: Rejectable(s.graph, cb, x)
  {
  }

  lemma DecisionIsKnown(g: ActionGraph, cb: ConditionalBranch, t: string)
    ensures Rejectable(g, cb, t) ==> cb.decision in Ids(g)
  {
  }

  const ALWAYS_PAUSE: nat -> Option<InterruptCommand> := (n: nat) => Some(Pause)

  /** With the target t and its successor u not yet run, one batch brings neither any closer. */
  lemma StuckRound(g: ActionGraph, m: int, st: ExecState, cb: ConditionalBranch, t: string, u: string)
    requires DownstreamBranches(g) && FirstNonLeaf(g, cb, t, u) && m >= 1
    requires Inv(ContrarySetup(g), st) && PendingKnown(ContrarySetup(g), st) && st.completed == st.results.Keys
    requires t !in st.results && u !in st.results
    ensures match Round(ContrarySetup(g), m, st)
            case Done(_) => false
            case Raise(_, e) => e == Deadlock
            case Next(st') => t !in st'.results && u !in st'.results && st.results.Keys < st'.results.Keys
  {
    hide Partial, NodeMap, Ids, SelectedOf, ExecuteNode, PredsSatisfied, ReadyAmong, Without, Unselected, SortIds,
         Priorities, TakeSlice, ContrarySetup, DownstreamBranches, Rejectable, Above, Settled, Pruned;
    var s := ContrarySetup(g);
    var satisfied := PredsSatisfied(s.graph.edges, st.pending, st.completed);
    var rest := Skip(s.graph, st);
    assert s.graph == g by { GraphOfContrary(g); }
    assert t in Preds(g.edges, u);
    assert u !in satisfied;
    assert u in rest.pending;
    var batch := BatchOf(s, m, st);
    assert u !in batch;
    if t in batch {
      SettledFromPreds(s, st, t);
      SettledTargetIsPruned(g, st.results, cb, t, u);
      SkippedIsPruned(s, st.results, t);
    }
    if Round(s, m, st).Next? {
      RoundProgress(s, m, st);
      var st' := Round(s, m, st).st;
      assert st'.results.Keys == st.results.Keys + ToSet(batch);
      assert batch != [];
      assert batch[0] in batch && batch[0] in st.pending;
    }
  }

  lemma GraphOfContrary(g: ActionGraph)
    ensures ContrarySetup(g).graph == g
  {
  }

  lemma StuckSession(g: ActionGraph, m: int, r: Results, cb: ConditionalBranch, t: string, u: string)
    requires WellFormed(g) && DownstreamBranches(g) && FirstNonLeaf(g, cb, t, u) && m >= 1
    requires ContrarySetup(g).graph == g && Partial(ContrarySetup(g), r) && t !in r && u !in r
    ensures var (st, exit) := SessionRun(ContrarySetup(g), m, Some(ALWAYS_PAUSE), r);
            exit == Crashed(Deadlock) ||
            (exit == Interrupted(Pause) && t !in st.results && u !in st.results && r.Keys < st.results.Keys)
  {
    hide Partial, CanSelect, NodeMap, SelectedOf, ContrarySetup, DownstreamBranches, KahnOrder, Acyclic, UniqueIds, Inv,
         PendingKnown, Rejectable, Round, Above;
    var s := ContrarySetup(g);
    StartIsKnown(s, r);
    StartInv(s, r);
    var st := Start(s, KahnOrder(g), map[], r);
    assert st.completed == st.results.Keys;
    StuckRound(g, m, st, cb, t, u);
    PendingMember(s, st, t);
    assert Rejectable(g, cb, t) ==> t in Ids(g) by { TargetIsKnown(g, cb, t); }
    assert st.pending != [];
  }

  lemma TargetIsKnown(g: ActionGraph, cb: ConditionalBranch, t: string)
    ensures Rejectable(g, cb, t) ==> t in Ids(g)
  {
  }

  lemma PendingMember(s: Setup, st: ExecState, t: string)
    requires PendingIsRest(s, st)
    ensures t in Ids(s.graph) && t !in st.completed ==> t in st.pending
  {
  }

  /** k sessions of batch size m, each paused after its first batch. */
  ghost function Pauses(m: int, k: nat): (p: seq<Session>)
    ensures |p| == k && forall i :: 0 <= i < k ==> p[i] == Session(m, Some(ALWAYS_PAUSE))
  {
    if k == 0 then [] else [Session(m, Some(ALWAYS_PAUSE))] + Pauses(m, k - 1)
  }

  lemma {:induction false} StuckChain(g: ActionGraph, m: int, k: nat, r: Results, cb: ConditionalBranch, t: string, u: string)
    requires WellFormed(g) && DownstreamBranches(g) && FirstNonLeaf(g, cb, t, u) && m >= 1
    requires ContrarySetup(g).graph == g && Partial(ContrarySetup(g), r) && t !in r && u !in r && k >= 1
    requires |r| + k >= |Ids(g)|
    ensures Chain(ContrarySetup(g), Pauses(m, k), r).1 == Crashed(Deadlock)
    decreases k
  {
    hide Partial, ContrarySetup, DownstreamBranches, WellFormed, Rejectable, SessionRun, Ids;
    var s := ContrarySetup(g);
    var sessions := Pauses(m, k);
    assert sessions[1..] == Pauses(m, k - 1);
    StuckSession(g, m, r, cb, t, u);
    SessionKeepsPartial(s, m, Some(ALWAYS_PAUSE), r);
    var (st, exit) := SessionRun(s, m, Some(ALWAYS_PAUSE), r);
    if exit != Crashed(Deadlock) {
      TargetIsKnown(g, cb, t);
      ResultsAreNodes(s, st.results, t);
      StrictSubsetSize(r.Keys, st.results.Keys);
      assert k > 1;
      StuckChain(g, m, k - 1, st.results, cb, t, u);
    }
  }

  lemma ResultsAreNodes(s: Setup, r: Results, t: string)
    requires Partial(s, r) && t !in r && t in Ids(s.graph)
    ensures |r| < |Ids(s.graph)|
  {
    hide NodeMap, Ids, ExecuteNode, Settled, Unselected;
    assert forall x :: x in r ==> PartialAt(s, r, x);
    StrictSubsetSize(r.Keys, Ids(s.graph));
    assert |r| == |r.Keys|;
  }

  lemma StrictSubsetSize(a: set<string>, b: set<string>)
    requires a < b
    ensures |a| < |b|
  {
    SubsetSize(a, b);
  }

  /** Leaf targets are necessary: if some target that can be rejected has a successor, then for every batch size
      there are node behaviours and pauses under which a resumed run raises "Deadlock". */
  lemma OtherGraphsDeadlock(g: ActionGraph, m: int) returns (s: Setup, sessions: seq<Session>)
    requires WellFormed(g) && DownstreamBranches(g) && !LeafTargets(g) && m >= 1
    ensures s.graph == g && sessions != [] && forall i :: 0 <= i < |sessions| ==> sessions[i].maxParallel == m
    ensures Chain(s, sessions, map[]).1 == Crashed(Deadlock)
  {
    hide ContrarySetup, DownstreamBranches, WellFormed, LeafTargets, CanSelect, Chain, Above, Partial, Ids;
    GraphOfContrary(g);
    s := ContrarySetup(g);
    NothingIsPartial(s);
    var cb, t, u := FindFirstNonLeaf(g);
    var k := |Ids(g)|;
    assert k >= 1 by { assert t in Ids(g); }
    sessions := Pauses(m, k);
    StuckChain(g, m, k, map[], cb, t, u);
  }
}
