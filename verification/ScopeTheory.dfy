/** The rollback set is exactly the set of nodes whose results the failed nodes can change. */
module ScopeTheory {
  import opened ExecutorLiveness
  import opened ExecutorRuns
  import opened ExecutorSpec
  import opened ExecutorTheory
  import opened Graph
  import opened JsonValues
  import opened Kahn
  import opened KahnTheory
  import opened Nodes
  import opened Order
  import opened Scope
  import opened Wrappers

  /** Two setups that differ only in how the given nodes behave. */
  ghost predicate DifferOnlyOn(s: Setup, t: Setup, nodes: set<string>)
  {
    && t == s.(registry := t.registry)
    && forall x :: x !in nodes ==> (x in s.registry <==> x in t.registry) && (x in s.registry ==> s.registry[x] == t.registry[x])
  }

  // ---- Soundness: nodes outside the rollback set are unaffected ----

  lemma SameAttempts(s: Setup, t: Setup, impl: NodeImpl, inputs: Values, attempt: nat)
    requires t == s.(registry := t.registry)
    ensures Attempts(s, impl, inputs, attempt) == Attempts(t, impl, inputs, attempt)
    decreases if s.maxNodeRetries > attempt then s.maxNodeRetries - attempt else 0
  {
    assert Attempt(s, impl, inputs, attempt) == Attempt(t, impl, inputs, attempt);
    if !Stops(s, Attempt(s, impl, inputs, attempt), attempt) {
      SameAttempts(s, t, impl, inputs, attempt + 1);
    }
  }

  lemma SameExecution(s: Setup, t: Setup, nodes: set<string>, x: string, r: Results)
    requires DifferOnlyOn(s, t, nodes) && x !in nodes && x in NodeMap(s.graph)
    ensures ExecuteNode(s, x, r) == ExecuteNode(t, x, r)
  {
    hide Attempts, MergeOutputs, NodeMap, Preds;
    assert GatherInputs(s, x, r) == GatherInputs(t, x, r);
    if x in s.registry {
      SameAttempts(s, t, s.registry[x], GatherInputs(s, x, r), 0);
    }
  }

  lemma SameSelection(s: Setup, t: Setup, r: Results)
    requires t == s.(registry := t.registry)
    ensures SelectedOf(s, r) == SelectedOf(t, r)
  {
    hide NodeMap, CanSelect;
    forall n, out
      ensures BranchOf(s, n, out) == BranchOf(t, n, out)
    {
    }
  }

  lemma SamePruning(s: Setup, t: Setup, r: Results, x: string)
    requires t == s.(registry := t.registry)
    ensures Pruned(s, r, x) <==> Pruned(t, r, x)
  {
    hide SelectedOf, Rejectable;
    SameSelection(s, t, r);
  }

  lemma OneMoreUnaffected(s: Setup, t: Setup, failed: set<string>, r: Results, q: Results, x: string)
    requires DownstreamBranches(s.graph) && DifferOnlyOn(s, t, failed)
    requires Complete(s, r) && Complete(t, q) && x in Ids(s.graph) && x !in failed
    requires forall a :: Above(s.graph.edges, a, x) ==> AgreeAt(r, q, a)
    ensures AgreeAt(r, q, x)
  {
    hide Preds, Pruned, ExecuteNode, NodeMap, DownstreamBranches, Settled, Above;
    forall a | Above(s.graph.edges, a, x)
      ensures AgreeAt(q, r, a)
    {
      AgreeSymmetric(r, q, a);
    }
    PredsAgree(s, r, q, x);
    NodeAgree(s, x, r, q);
    SameExecution(s, t, failed, x, q);
    SamePruning(s, t, q, x);
    if Pruned(s, r, x) { PrunedFrom(s, x, r, q); }
    if Pruned(s, q, x) { PrunedFrom(s, x, q, r); }
    assert x in r ==> PartialAt(s, r, x);
    assert x in q ==> PartialAt(t, q, x);
  }

  lemma {:induction false} UnaffectedUpTo(s: Setup, t: Setup, failed: set<string>, r: Results, q: Results, n: nat)
    requires DownstreamBranches(s.graph) && DifferOnlyOn(s, t, failed)
    requires Complete(s, r) && Complete(t, q)
    requires IsTopological(s.graph.edges, Ids(s.graph), KahnOrder(s.graph)) && n <= |KahnOrder(s.graph)|
    ensures forall x :: x in KahnOrder(s.graph)[..n] && !DependsOn(s.graph.edges, failed, x) ==> AgreeAt(r, q, x)
  {
    hide Preds, Complete, NodeMap, DownstreamBranches, KahnOrder, AgreeAt, DependsOn, DifferOnlyOn, Above;
    if n > 0 {
      var order := KahnOrder(s.graph);
      var x := order[n - 1];
      UnaffectedUpTo(s, t, failed, r, q, n - 1);
      assert order[..n] == order[..n - 1] + [x] && x in order;
      if !DependsOn(s.graph.edges, failed, x) {
        forall a | Above(s.graph.edges, a, x)
          ensures AgreeAt(r, q, a)
        {
          AboveIsEarlier(s.graph.edges, Ids(s.graph), order, a, n - 1);
          if DependsOn(s.graph.edges, failed, a) { DependenceCarries(s.graph.edges, failed, a, x); }
        }
        if x in failed { SeedDepends(s.graph.edges, failed, x); }
        OneMoreUnaffected(s, t, failed, r, q, x);
      }
    }
  }

  lemma Unaffected(s: Setup, t: Setup, failed: set<string>, r: Results, q: Results, x: string)
    requires WellFormed(s.graph) && DownstreamBranches(s.graph) && DifferOnlyOn(s, t, failed)
    requires Complete(s, r) && Complete(t, q) && !DependsOn(s.graph.edges, failed, x)
    ensures AgreeAt(r, q, x)
  {
    hide KahnOrder, DependsOn, DownstreamBranches, Acyclic, UniqueIds, KnownEndpoints, ExecuteNode, Pruned, Settled, NodeMap, Ids;
    RaisesIffCyclic(s.graph);
    var order := KahnOrder(s.graph);
    UnaffectedUpTo(s, t, failed, r, q, |order|);
    assert order[..|order|] == order;
    assert x in r ==> PartialAt(s, r, x);
    assert x in q ==> PartialAt(t, q, x);
    KeysAreIds(s.graph, x);
  }

  lemma KeysAreIds(g: ActionGraph, x: string)
    ensures x in NodeMap(g) <==> x in Ids(g)
  {
  }

  /** Non-interference: two chains of runs that differ only in how the failed nodes behave, when
      both finish, agree on every node outside the rollback set. */
  lemma RollbackIsSound(s: Setup, t: Setup, failed: set<string>, sessionsS: seq<Session>, sessionsT: seq<Session>, x: string)
    requires WellFormed(s.graph) && DownstreamBranches(s.graph) && DifferOnlyOn(s, t, failed)
    requires sessionsS != [] && sessionsT != []
    requires Chain(s, sessionsS, map[]).1.Finished? && Chain(t, sessionsT, map[]).1.Finished?
    requires !DependsOn(s.graph.edges, failed, x)
    ensures AgreeAt(Chain(s, sessionsS, map[]).0, Chain(t, sessionsT, map[]).0, x)
  {
    hide WellFormed, DownstreamBranches, Chain, SequentialResults, Complete, DependsOn;
    FinishedChainsAgree(s, sessionsS, map[]);
    FinishedChainsAgree(t, sessionsT, map[]);
    SequentialIsComplete(s);
    SequentialIsComplete(t);
    Unaffected(s, t, failed, SequentialResults(s), SequentialResults(t), x);
  }

  // ---- The preservation set: what may be kept and resumed from ----

  /** The results outside the rollback set. */
  ghost function Preserved(edges: seq<GraphEdge>, failed: set<string>, r: Results): (kept: Results)
    ensures forall x :: x in kept <==> x in r && !DependsOn(edges, failed, x)
    ensures forall x :: x in kept ==> kept[x] == r[x]
  {
    map x | x in r && !DependsOn(edges, failed, x) :: r[x]
  }

  lemma PreservedAgreesAbove(edges: seq<GraphEdge>, failed: set<string>, r: Results, x: string)
    requires !DependsOn(edges, failed, x)
    ensures forall a :: Above(edges, a, x) ==>
              !DependsOn(edges, failed, a) && AgreeAt(r, Preserved(edges, failed, r), a) && AgreeAt(Preserved(edges, failed, r), r, a)
  {
    hide Above, DependsOn;
    forall a | Above(edges, a, x)
      ensures !DependsOn(edges, failed, a)
    {
      if DependsOn(edges, failed, a) { DependenceCarries(edges, failed, a, x); }
    }
  }

  lemma PreservedIsSettled(s: Setup, failed: set<string>, r: Results, x: string)
    requires WellFormed(s.graph) && DownstreamBranches(s.graph) && Settled(s, r, x) && !DependsOn(s.graph.edges, failed, x)
    ensures Settled(s, Preserved(s.graph.edges, failed, r), x)
  {
    hide Above, DependsOn, Pruned, DownstreamBranches, Acyclic, UniqueIds, Ids, AgreeAt;
    var kept := Preserved(s.graph.edges, failed, r);
    PreservedAgreesAbove(s.graph.edges, failed, r, x);
    forall a | Above(s.graph.edges, a, x)
      ensures a in kept || Pruned(s, kept, a)
    {
      if a !in r {
        PreservedAgreesAbove(s.graph.edges, failed, r, a);
        AboveIsKnown(s.graph, a, x);
        PrunedFrom(s, a, r, kept);
      }
    }
  }

  lemma AboveIsKnown(g: ActionGraph, a: string, x: string)
    requires KnownEndpoints(g) && Above(g.edges, a, x)
    ensures a in Ids(g)
  {
    hide Ids, Preds;
    var p :| p in Preds(g.edges, x) && DependsOn(g.edges, {a}, p);
    var path := PathTo(g.edges, a, p);
    if |path| > 1 { assert GraphEdge(path[0], path[0 + 1]) in g.edges; }
    assert GraphEdge(p, x) in g.edges;
  }

  /** Whatever the failed nodes do from now on, the preserved results are what some cut of a run may leave. */
  lemma PreservedIsPartial(s: Setup, t: Setup, failed: set<string>, r: Results)
    requires WellFormed(s.graph) && DownstreamBranches(s.graph) && DifferOnlyOn(s, t, failed) && Partial(s, r)
    ensures Partial(t, Preserved(s.graph.edges, failed, r))
  {
    hide Preds, Pruned, ExecuteNode, NodeMap, DownstreamBranches, Above, DependsOn, Acyclic, UniqueIds, KnownEndpoints,
         Settled, AgreeAt, DifferOnlyOn;
    var kept := Preserved(s.graph.edges, failed, r);
    forall x | x in kept
      ensures PartialAt(t, kept, x)
    {
      assert PartialAt(s, r, x);
      KeysAreIds(s.graph, x);
      NotItselfFailed(s.graph.edges, failed, x);
      PreservedAgreesAbove(s.graph.edges, failed, r, x);
      PredsAgree(s, r, kept, x);
      NodeAgree(s, x, r, kept);
      SameExecution(s, t, failed, x, kept);
      if Pruned(s, kept, x) { PrunedFrom(s, x, kept, r); }
      PreservedIsSettled(s, failed, r, x);
      SameParts(s, t, failed, kept, x);
    }
  }

  lemma NotItselfFailed(edges: seq<GraphEdge>, failed: set<string>, x: string)
    requires !DependsOn(edges, failed, x)
    ensures x !in failed
  {
    if x in failed { SeedDepends(edges, failed, x); }
  }

  lemma SameParts(s: Setup, t: Setup, failed: set<string>, r: Results, x: string)
    requires DifferOnlyOn(s, t, failed)
    ensures t.graph == s.graph && (Pruned(s, r, x) <==> Pruned(t, r, x)) && (Settled(s, r, x) <==> Settled(t, r, x))
  {
    hide Pruned, Above;
    forall a
      ensures Pruned(s, r, a) <==> Pruned(t, r, a)
    {
      SamePruning(s, t, r, a);
    }
  }

  /** What the preservation set is for: with the failed nodes repaired, starting from the results outside the
      rollback set gives the repaired setup's own results whenever the chain finishes; and it does finish when
      targets that can be rejected have no successors and the last session is not interrupted. */
  lemma PreservationResumes(s: Setup, t: Setup, failed: set<string>, r: Results, sessions: seq<Session>)
    requires WellFormed(s.graph) && DownstreamBranches(s.graph) && DifferOnlyOn(s, t, failed) && Partial(s, r)
    requires sessions != []
    ensures t.graph == s.graph
    ensures var (q, exit) := Chain(t, sessions, Preserved(s.graph.edges, failed, r));
            && (exit.Finished? ==> q == SequentialResults(t))
            && (LeafTargets(s.graph) && Uncut(sessions) ==> exit.Finished?)
  {
    hide WellFormed, DownstreamBranches, LeafTargets, Chain, SequentialResults, Partial, Preserved;
    PreservedIsPartial(s, t, failed, r);
    var kept := Preserved(s.graph.edges, failed, r);
    FinishedChainsAgree(t, sessions, kept);
    if LeafTargets(s.graph) && Uncut(sessions) {
      PartialIsUnblocked(t, kept);
      ChainsReturn(t, sessions, kept);
    }
  }

  // ---- Tightness: every node of the rollback set can be affected ----

  /** A key that is no decision's branch key and longer than the keys the executor adds itself. */
  ghost function MarkKey(nodes: seq<GraphNode>): (k: string)
    ensures |k| > 6
    ensures forall n :: n in nodes && BranchKey(n).Str? ==> |BranchKey(n).s| < |k|
  {
    if |nodes| == 0 then "#mark##"
    else
      assert nodes == [nodes[0]] + nodes[1..];
      MarkKey(nodes[1..]) + (if BranchKey(nodes[0]).Str? then BranchKey(nodes[0]).s else "")
  }

  ghost function MarkOutput(key: string, marked: bool): NodeOutput
  {
    NodeOutput(if marked then map[key := Str("1")] else map[], map[], Completed, None, None)
  }

  /** Nodes pass the mark on; the sources put it there. */
  ghost function MarkImpl(key: string, isSource: bool): NodeImpl
  {
    (v: Values, a: nat) => Returned(MarkOutput(key, isSource || key in v))
  }

  ghost function MarkSetup(g: ActionGraph, sources: set<string>): Setup
  {
    Setup(g, map x | x in Ids(g) :: MarkImpl(MarkKey(g.nodes), x in sources), map[], 0, 0,
          Prompts((v: Values, p: Values) => Null, (v: Values) => Null, (v: Values) => Null), (j: Json) => "")
  }

  ghost function MarksOf(g: ActionGraph, sources: set<string>, done: set<string>): (r: Results)
    ensures r.Keys == done
  {
    map x | x in done :: MarkOutput(MarkKey(g.nodes), DependsOn(g.edges, sources, x))
  }

  ghost function MarkResults(g: ActionGraph, sources: set<string>): (r: Results)
  {
    MarksOf(g, sources, Ids(g))
  }

  lemma {:induction false} MarkMerges(preds: seq<string>, r: Results, key: string)
    requires forall x :: x in r ==> r[x] == MarkOutput(key, true) || r[x] == MarkOutput(key, false)
    ensures key in MergeOutputs(preds, r) <==> exists p :: p in preds && p in r && r[p] == MarkOutput(key, true)
  {
    if |preds| > 0 {
      var last := preds[|preds| - 1];
      var init := preds[..|preds| - 1];
      assert preds == init + [last];
      MarkMerges(init, r, key);
      assert key !in MarkOutput(key, false).outputs && key in MarkOutput(key, true).outputs;
      if last in r && r[last] == MarkOutput(key, true) { assert last in preds; }
      if p :| p in init && p in r && r[p] == MarkOutput(key, true) { assert p in preds; }
    }
  }

  lemma DerivedKeepsMark(s: Setup, node: GraphNode, inputs: Values, key: string)
    requires |key| > 6
    ensures key in AddDerived(s, node, inputs) <==> key in inputs
  {
    hide TruthyAt;
  }

  lemma NothingPreserved(keys: set<string>)
    ensures Restrict(map[], keys) == map[]
  {
  }

  lemma MarkedInputs(g: ActionGraph, sources: set<string>, x: string)
    requires KnownEndpoints(g) && x in Ids(g) && x !in sources
    ensures MarkKey(g.nodes) in GatherInputs(MarkSetup(g, sources), x, MarkResults(g, sources)) <==> DependsOn(g.edges, sources, x)
  {
    hide NodeMapOf, MarkImpl, BranchKey, AddDerived, MergeOutputs, DependsOn, Preds;
    var s, key, r := MarkSetup(g, sources), MarkKey(g.nodes), MarkResults(g, sources);
    var preds := Preds(g.edges, x);
    MarkMerges(preds, r, key);
    var merged := MergeOutputs(preds, r);
    var inputs := s.initialInputs + merged + Restrict(s.initialInputs, PRESERVED_KEYS);
    NothingPreserved(PRESERVED_KEYS);
    DerivedKeepsMark(s, NodeMap(g)[x], inputs, key);
    if DependsOn(g.edges, sources, x) {
      var p := DependentHasDependentPred(g.edges, sources, x);
      assert p in preds && r[p] == MarkOutput(key, true);
    }
    if p :| p in preds && p in r && r[p] == MarkOutput(key, true) {
      assert DependsOn(g.edges, sources, p);
      SuccessorDepends(g.edges, sources, p, x);
    }
  }

  lemma MarkNode(g: ActionGraph, sources: set<string>, x: string)
    requires KnownEndpoints(g) && x in Ids(g)
    ensures ExecuteNode(MarkSetup(g, sources), x, MarkResults(g, sources)) == MarkResults(g, sources)[x]
  {
    hide NodeMapOf, BranchKey, GatherInputs, DependsOn;
    var s, r := MarkSetup(g, sources), MarkResults(g, sources);
    var inputs := GatherInputs(s, x, r);
    if x in sources { SeedDepends(g.edges, sources, x); } else { MarkedInputs(g, sources, x); }
    assert Attempt(s, s.registry[x], inputs, 0) == r[x];
  }

  lemma MarksSelectNothing(g: ActionGraph, sources: set<string>, done: set<string>)
    ensures SelectedOf(MarkSetup(g, sources), MarksOf(g, sources, done)) == map[]
  {
    hide NodeMapOf, BranchKey, DependsOn, MarkImpl;
    var s, r := MarkSetup(g, sources), MarksOf(g, sources, done);
    forall n | n in r
      ensures BranchOf(s, n, r[n]).None?
    {
      if CanSelect(g, n) {
        assert NodeMap(g)[n] in g.nodes;
        assert BranchKey(NodeMap(g)[n]).s != MarkKey(g.nodes);
      }
    }
  }

  /** Nothing is selected, so nothing is rejected, and each node finds the marks of its predecessors. */
  lemma MarkStep(g: ActionGraph, sources: set<string>, done: seq<string>, x: string)
    requires KnownEndpoints(g) && x in Ids(g) && (forall y :: y in done ==> y in Ids(g))
    requires forall p :: p in Preds(g.edges, x) ==> p in done
    ensures var s, r := MarkSetup(g, sources), MarksOf(g, sources, ToSet(done));
            && s.graph == g && x in NodeMap(g) && !Unselected(g, SelectedOf(s, r), x)
            && r[x := ExecuteNode(s, x, r)] == MarksOf(g, sources, ToSet(done + [x]))
  {
    hide NodeMap, MarkOutput, MarkKey, DependsOn, MarkSetup, SelectedOf, ExecuteNode, Preds, Ids, KnownEndpoints, Unselected;
    var s, r := MarkSetup(g, sources), MarksOf(g, sources, ToSet(done));
    KeysAreIds(g, x);
    GraphOfMarks(g, sources);
    MarksSelectNothing(g, sources, ToSet(done));
    NothingSelected(g, x);
    MarkNode(g, sources, x);
    NodeAgree(s, x, r, MarkResults(g, sources));
    OneMoreMark(g, sources, done, x);
  }

  lemma GraphOfMarks(g: ActionGraph, sources: set<string>)
    ensures MarkSetup(g, sources).graph == g
  {
  }

  lemma OneMoreMark(g: ActionGraph, sources: set<string>, done: seq<string>, x: string)
    requires x in Ids(g)
    ensures x in MarkResults(g, sources)
    ensures MarksOf(g, sources, ToSet(done))[x := MarkResults(g, sources)[x]] == MarksOf(g, sources, ToSet(done + [x]))
  {
    hide MarkOutput, MarkKey, DependsOn, Ids;
  }

  lemma {:induction false} MarkFold(g: ActionGraph, sources: set<string>, done: seq<string>, todo: seq<string>)
    requires KnownEndpoints(g) && IsTopological(g.edges, Ids(g), done + todo)
    requires forall x :: x in done + todo ==> x in Ids(g) && x in NodeMap(g)
    ensures FoldFrom(MarkSetup(g, sources), todo, MarksOf(g, sources, ToSet(done))) == MarksOf(g, sources, ToSet(done + todo))
    decreases |todo|
  {
    hide NodeMap, MarkKey, DependsOn, MarkImpl, MarksOf, SelectedOf, ExecuteNode, Preds, Ids, IsTopological, Unselected, Above,
         KnownEndpoints;
    if todo == [] {
      assert done + todo == done;
    } else {
      var x := todo[0];
      NextInOrder(g.edges, Ids(g), done, todo);
      forall p | p in Preds(g.edges, x)
        ensures p in done
      {
        PredIsAbove(g.edges, p, x);
      }
      MarkStep(g, sources, done, x);
      assert done + todo == (done + [x]) + todo[1..];
      MarkFold(g, sources, done + [x], todo[1..]);
    }
  }

  lemma MarkSequential(g: ActionGraph, sources: set<string>)
    requires WellFormed(g)
    ensures MarkSetup(g, sources).graph == g && SequentialResults(MarkSetup(g, sources)) == MarkResults(g, sources)
  {
    hide Acyclic, UniqueIds, KnownEndpoints, MarkKey, MarkImpl, KahnOrder, NodeMap, FoldFrom, DependsOn;
    var s, order := MarkSetup(g, sources), KahnOrder(g);
    RaisesIffCyclic(g);
    StartIsKnown(s, map[]);
    assert [] + order == order;
    assert ToSet(order) == Ids(g);
    assert MarksOf(g, sources, ToSet<string>([])) == map[];
    forall x | x in order
      ensures x in NodeMap(g)
    {
      KeysAreIds(g, x);
    }
    MarkFold(g, sources, [], order);
  }

  lemma MarkedOutput(g: ActionGraph, sources: set<string>, x: string, r: Results)
    requires x in Ids(g) && x in NodeMap(g)
    ensures ExecuteNode(MarkSetup(g, sources), x, r) in {MarkOutput(MarkKey(g.nodes), true), MarkOutput(MarkKey(g.nodes), false)}
  {
    hide NodeMap, MarkKey, GatherInputs, Ids;
    var s := MarkSetup(g, sources);
    var inputs := GatherInputs(s, x, r);
    assert Attempt(s, s.registry[x], inputs, 0) == MarkOutput(MarkKey(g.nodes), x in sources || MarkKey(g.nodes) in inputs);
  }

  lemma YieldedMarksSelectNothing(g: ActionGraph, sources: set<string>, r: Results)
    requires Yielded(MarkSetup(g, sources), r)
    ensures SelectedOf(MarkSetup(g, sources), r) == map[]
  {
    hide NodeMapOf, BranchKey, MarkImpl, ExecuteNode, Rejected, Preds, MarkKey;
    var s := MarkSetup(g, sources);
    forall n | n in r
      ensures BranchOf(s, n, r[n]).None?
    {
      assert YieldedAt(s, r, n);
      KeysAreIds(g, n);
      MarkedOutput(g, sources, n, r);
      if CanSelect(g, n) {
        assert NodeMap(g)[n] in g.nodes;
        KeyIsNoMark(g.nodes, NodeMap(g)[n]);
      }
    }
  }

  lemma KeyIsNoMark(nodes: seq<GraphNode>, n: GraphNode)
    requires n in nodes && BranchKey(n).Str?
    ensures BranchKey(n).s != MarkKey(nodes)
  {
  }

  lemma NothingSelected(g: ActionGraph, x: string)
    ensures !Unselected(g, map[], x)
  {
  }

  lemma {:induction false} MarkRunReturns(g: ActionGraph, sources: set<string>, m: int, check: InterruptCheck, n: nat, st: ExecState)
    requires WellFormed(g) && m >= 1 && MarkSetup(g, sources).graph == g
    requires BaseInv(MarkSetup(g, sources), st) && Yielded(MarkSetup(g, sources), st.results) && PendingKnown(MarkSetup(g, sources), st)
    ensures !RunFrom(MarkSetup(g, sources), m, check, n, st).1.Crashed?
    ensures check.None? ==> RunFrom(MarkSetup(g, sources), m, check, n, st).1.Finished?
    decreases |st.pending|
  {
    hide WellFormed, MarkSetup, Yielded, Round, PendingKnown, Unselected, PredsIn, PendingIsRest, Rejected;
    var s := MarkSetup(g, sources);
    if st.pending != [] {
      YieldedMarksSelectNothing(g, sources, st.results);
      DeadlockExactly(s, m, st);
      var x :| x in st.pending && PredsIn(g.edges, x, st.completed);
      NothingSelected(g, x);
      RoundKeepsBase(s, m, st);
      RoundProgress(s, m, st);
      var step := Round(s, m, st);
      if step.Next? && Poll(check, n).None? { MarkRunReturns(g, sources, m, check, n + 1, step.st); }
    }
  }

  lemma {:induction false} YieldedMarksUpTo(g: ActionGraph, sources: set<string>, q: Results, n: nat)
    requires KnownEndpoints(g) && IsTopological(g.edges, Ids(g), KahnOrder(g)) && n <= |KahnOrder(g)|
    requires MarkSetup(g, sources).graph == g && Yielded(MarkSetup(g, sources), q) && forall x :: x in Ids(g) ==> x in q
    ensures forall x :: x in KahnOrder(g)[..n] ==> AgreeAt(q, MarkResults(g, sources), x)
  {
    hide KahnOrder, Preds, ExecuteNode, NodeMap, MarkSetup, MarkKey, DependsOn, KnownEndpoints, Ids, Rejected, Above;
    if n > 0 {
      var s, order := MarkSetup(g, sources), KahnOrder(g);
      var x := order[n - 1];
      YieldedMarksUpTo(g, sources, q, n - 1);
      assert order[..n] == order[..n - 1] + [x] && x in order;
      forall p | p in Preds(g.edges, x)
        ensures AgreeAt(q, MarkResults(g, sources), p)
      {
        assert p in order[..n - 1];
      }
      assert YieldedAt(s, q, x);
      NodeAgree(s, x, q, MarkResults(g, sources));
      MarkNode(g, sources, x);
    }
  }

  /** Every chain of runs of a mark setup ends with the marks. */
  lemma {:induction false} MarkChain(g: ActionGraph, sources: set<string>, sessions: seq<Session>, r: Results)
    requires WellFormed(g) && MarkSetup(g, sources).graph == g && Uncut(sessions) && Yielded(MarkSetup(g, sources), r)
    ensures Chain(MarkSetup(g, sources), sessions, r) == (MarkResults(g, sources), Finished)
    decreases |sessions|
  {
    hide WellFormed, MarkSetup, MarkResults, Yielded, KahnOrder, RunFrom, Start, PendingKnown, PendingIsRest, Rejected, SelectedOf;
    var s := MarkSetup(g, sources);
    var m, check := sessions[0].maxParallel, sessions[0].check;
    StartIsKnown(s, r);
    StartBase(s, r);
    var st0 := Start(s, KahnOrder(g), map[], r);
    MarkRunReturns(g, sources, m, check, 0, st0);
    RunKeepsBase(s, m, check, 0, st0);
    var (st, exit) := SessionRun(s, m, check, r);
    if exit.Finished? {
      FinishedMarks(g, sources, st);
    } else {
      assert |sessions| > 1;
      MarkChain(g, sources, sessions[1..], st.results);
    }
  }

  lemma FinishedMarks(g: ActionGraph, sources: set<string>, st: ExecState)
    requires WellFormed(g) && MarkSetup(g, sources).graph == g
    requires BaseInv(MarkSetup(g, sources), st) && Yielded(MarkSetup(g, sources), st.results) && st.pending == []
    ensures st.results == MarkResults(g, sources)
  {
    hide Acyclic, UniqueIds, KnownEndpoints, KahnOrder, MarkSetup, NodeMap, ExecuteNode, Preds, SelectedOf, DependsOn, MarkKey, Rejected, Ids;
    var s, q, order := MarkSetup(g, sources), st.results, KahnOrder(g);
    RaisesIffCyclic(g);
    YieldedMarksSelectNothing(g, sources, q);
    forall x | x in Ids(g)
      ensures x in q
    {
      if x !in q {
        RejectedIsUnselected(s, q, x);
        NothingSelected(g, x);
      }
    }
    YieldedMarksUpTo(g, sources, q, |order|);
    assert order[..|order|] == order;
    forall x | x in q
      ensures x in Ids(g)
    {
      assert YieldedAt(s, q, x);
      KeysAreIds(g, x);
    }
    assert forall x :: x in Ids(g) ==> x in order && AgreeAt(q, MarkResults(g, sources), x);
  }

  lemma MarkSetupsDiffer(g: ActionGraph, failed: set<string>)
    ensures DifferOnlyOn(MarkSetup(g, failed), MarkSetup(g, {}), failed)
  {
    hide MarkKey, MarkImpl, Ids;
  }

  lemma MarksRunAlike(g: ActionGraph, sources: set<string>)
    requires WellFormed(g)
    ensures MarkSetup(g, sources).graph == g && RunsAlike(MarkSetup(g, sources))
  {
    hide WellFormed, SequentialResults, MarkResults, Chain;
    MarkSequential(g, sources);
    forall sessions | Uncut(sessions)
      ensures Chain(MarkSetup(g, sources), sessions, map[]) == (SequentialResults(MarkSetup(g, sources)), Finished)
    {
      MarkChain(g, sources, sessions, map[]);
    }
  }

  /** Tightness: on every well-formed graph there are two setups, differing only on the failed nodes, all runs of
      which end, with results that differ on every node of the rollback set. */
  lemma RollbackIsTight(g: ActionGraph, failed: set<string>) returns (s: Setup, t: Setup)
    requires WellFormed(g)
    ensures s.graph == t.graph == g && DifferOnlyOn(s, t, failed) && RunsAlike(s) && RunsAlike(t)
    ensures forall x :: x in Ids(g) && DependsOn(g.edges, failed, x) ==> !AgreeAt(SequentialResults(s), SequentialResults(t), x)
  {
    hide WellFormed, SequentialResults, DependsOn, MarkKey, MarkSetup, DifferOnlyOn, Ids, RunsAlike;
    s, t := MarkSetup(g, failed), MarkSetup(g, {});
    MarksRunAlike(g, failed);
    MarksRunAlike(g, {});
    MarkSequential(g, failed);
    MarkSequential(g, {});
    MarkSetupsDiffer(g, failed);
    forall x | x in Ids(g) && DependsOn(g.edges, failed, x)
      ensures !AgreeAt(SequentialResults(s), SequentialResults(t), x)
    {
      NothingDependsOnNothing(g.edges, x);
      var key := MarkKey(g.nodes);
      assert key in MarkOutput(key, true).outputs && key !in MarkOutput(key, false).outputs;
    }
  }

  lemma NothingDependsOnNothing(edges: seq<GraphEdge>, x: string)
    ensures !DependsOn(edges, {}, x)
  {
  }
}
