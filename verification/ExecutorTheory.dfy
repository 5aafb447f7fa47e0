/** What every run of the executor keeps, and what every complete run returns. */
module ExecutorTheory {
  import opened ExecutorSpec
  import opened Graph
  import opened JsonValues
  import opened Kahn
  import opened KahnTheory
  import opened Scope
  import opened Wrappers

  // ---- Graph classes ----

  ghost predicate WellFormed(g: ActionGraph)
  {
    UniqueIds(g) && KnownEndpoints(g) && Acyclic(g)
  }

  /** a lies strictly upstream of x. */
  ghost predicate Above(edges: seq<GraphEdge>, a: string, x: string)
  {
    exists p :: p in Preds(edges, x) && DependsOn(edges, {a}, p)
  }

  /** x is a target of a branch that another node decides. */
  ghost predicate Target(g: ActionGraph, cb: ConditionalBranch, x: string)
  {
    cb in g.branches && x in cb.targets && x in Ids(g) && CanSelect(g, cb.decision) && x != cb.decision
  }

  /** The decision can reject the target: it does not have to wait for it. */
  ghost predicate Rejectable(g: ActionGraph, cb: ConditionalBranch, x: string)
  {
    Target(g, cb, x) && !Above(g.edges, x, cb.decision)
  }

  /** Every target that its decision can reject is downstream of it. */
  ghost predicate DownstreamBranches(g: ActionGraph)
  {
    forall cb, x :: Rejectable(g, cb, x) ==> Above(g.edges, cb.decision, x)
  }

  /** No target that its decision can reject has successors. */
  ghost predicate LeafTargets(g: ActionGraph)
  {
    forall cb, x :: Rejectable(g, cb, x) ==> Succs(g.edges, x) == []
  }

  ghost predicate Tame(g: ActionGraph)
  {
    WellFormed(g) && DownstreamBranches(g) && LeafTargets(g)
  }

  // ---- Upstream of a node ----

  lemma PredIsAbove(edges: seq<GraphEdge>, p: string, x: string)
    requires p in Preds(edges, x)
    ensures Above(edges, p, x)
  {
    SeedDepends(edges, {p}, p);
  }

  lemma AboveThroughPred(edges: seq<GraphEdge>, a: string, x: string) returns (p: string)
    requires Above(edges, a, x)
    ensures p in Preds(edges, x) && (p == a || Above(edges, a, p))
  {
    hide DependsOn;
    p :| p in Preds(edges, x) && DependsOn(edges, {a}, p);
    if p != a {
      var q := DependentHasDependentPred(edges, {a}, p);
      assert q in Preds(edges, p);
    }
  }

  /** What lies above a node comes before it in a topological order. */
  lemma {:induction false} AboveIsEarlier(edges: seq<GraphEdge>, ids: set<string>, order: seq<string>, a: string, i: nat)
    requires IsTopological(edges, ids, order) && i < |order| && Above(edges, a, order[i])
    ensures a in order[..i]
    decreases i
  {
    hide Preds, Above;
    var p := AboveThroughPred(edges, a, order[i]);
    assert p in order[..i];
    if p != a {
      var k :| 0 <= k < i && order[k] == p;
      AboveIsEarlier(edges, ids, order, a, k);
      assert order[..k] <= order[..i];
    }
  }

  lemma {:induction false} PathCarries(edges: seq<GraphEdge>, seeds: set<string>, path: seq<string>)
    requires IsPath(edges, path) && DependsOn(edges, seeds, path[0])
    ensures DependsOn(edges, seeds, path[|path| - 1])
    decreases |path|
  {
    hide DependsOn;
    if |path| > 1 {
      var n := |path| - 2;
      assert GraphEdge(path[n], path[n + 1]) in edges;
      var init := path[..n + 1];
      forall i | 0 <= i < n
        ensures GraphEdge(init[i], init[i + 1]) in edges
      {
        assert GraphEdge(path[i], path[i + 1]) in edges;
      }
      PathCarries(edges, seeds, init);
      SuccessorDepends(edges, seeds, path[n], path[n + 1]);
    }
  }

  /** What lies above a node that does not depend on some seeds does not depend on them either. */
  lemma DependenceCarries(edges: seq<GraphEdge>, seeds: set<string>, a: string, x: string)
    requires DependsOn(edges, seeds, a) && (Above(edges, a, x) || DependsOn(edges, {a}, x))
    ensures DependsOn(edges, seeds, x)
  {
    hide DependsOn;
    if Above(edges, a, x) {
      var p :| p in Preds(edges, x) && DependsOn(edges, {a}, p);
      var path := PathTo(edges, a, p);
      PathCarries(edges, seeds, path);
      SuccessorDepends(edges, seeds, p, x);
    } else {
      var path := PathTo(edges, a, x);
      PathCarries(edges, seeds, path);
    }
  }

  lemma PathTo(edges: seq<GraphEdge>, a: string, x: string) returns (path: seq<string>)
    requires DependsOn(edges, {a}, x)
    ensures IsPath(edges, path) && path[0] == a && path[|path| - 1] == x
  {
    path :| IsPathFrom(edges, {a}, path, x);
  }

  // ---- A node depends only on its predecessors ----

  ghost predicate AgreeAt(r: Results, q: Results, p: string)
  {
    (p in r <==> p in q) && (p in r ==> r[p] == q[p])
  }

  lemma {:induction false} MergeAgree(preds: seq<string>, r: Results, q: Results)
    requires forall p :: p in preds ==> AgreeAt(r, q, p)
    ensures MergeOutputs(preds, r) == MergeOutputs(preds, q)
  {
    if |preds| > 0 {
      var last := preds[|preds| - 1];
      assert preds == preds[..|preds| - 1] + [last];
      assert AgreeAt(r, q, last);
      MergeAgree(preds[..|preds| - 1], r, q);
    }
  }

  /** The last of the predecessors, in edge order, that provides a key. */
  function LastProvider(preds: seq<string>, r: Results, key: string): Option<string>
  {
    if |preds| == 0 then None
    else
      var last := preds[|preds| - 1];
      if last in r && key in r[last].outputs then Some(last) else LastProvider(preds[..|preds| - 1], r, key)
  }

  lemma {:induction false} MergedFrom(preds: seq<string>, r: Results, key: string)
    ensures match LastProvider(preds, r, key)
            case Some(p) => p in preds && p in r && key in r[p].outputs
                            && key in MergeOutputs(preds, r) && MergeOutputs(preds, r)[key] == r[p].outputs[key]
            case None => key !in MergeOutputs(preds, r) && forall p :: p in preds && p in r ==> key !in r[p].outputs
  {
    if |preds| > 0 {
      var last := preds[|preds| - 1];
      assert preds == preds[..|preds| - 1] + [last];
      MergedFrom(preds[..|preds| - 1], r, key);
    }
  }

  /** Where an input comes from: a preserved key from the initial inputs; else the last predecessor in edge order
      that provides it; else the initial inputs; a prompt or code is only derived when nothing provides it. */
  lemma InputPrecedence(s: Setup, x: string, r: Results, key: string)
    requires x in NodeMap(s.graph)
    ensures var inputs := GatherInputs(s, x, r);
            var provider := LastProvider(Preds(s.graph.edges, x), r, key);
            if key in PRESERVED_KEYS && key in s.initialInputs then
              key in inputs && inputs[key] == s.initialInputs[key]
            else if provider.Some? then
              provider.value in r && key in r[provider.value].outputs
              && key in inputs && inputs[key] == r[provider.value].outputs[key]
            else if key in s.initialInputs then
              key in inputs && inputs[key] == s.initialInputs[key]
            else key in inputs ==> key in {"prompt", "code"}
  {
    hide NodeMap, Preds, MergeOutputs, LastProvider;
    MergedFrom(Preds(s.graph.edges, x), r, key);
  }

  /** The key has a value before anything is derived. */
  predicate Given(s: Setup, x: string, r: Results, key: string)
  {
    key in s.initialInputs || LastProvider(Preds(s.graph.edges, x), r, key).Some?
  }

  /** What is derived, and when: a prompt for a model node without one, from its schema, else from earlier code, else plain; and
      code for a code node without it, from the content. */
  lemma DerivedExactly(s: Setup, x: string, r: Results)
    requires x in NodeMap(s.graph)
    ensures var node, inputs := NodeMap(s.graph)[x], GatherInputs(s, x, r);
            && ("prompt" in inputs <==> Given(s, x, r, "prompt") || node.kind == Model)
            && (!Given(s, x, r, "prompt") && node.kind == Model ==>
                  inputs["prompt"] ==
                  if "json_schema" in node.parameters && Truthy(node.parameters["json_schema"])
                  then s.prompts.critic(inputs - {"prompt"}, node.parameters)
                  else if "previous_code" in inputs && Truthy(inputs["previous_code"]) then s.prompts.fix(inputs - {"prompt"})
                  else s.prompts.plain(inputs - {"prompt"}))
            && ("code" in inputs <==> Given(s, x, r, "code") || (node.kind == Code && "content" in inputs))
            && (!Given(s, x, r, "code") && node.kind == Code && "content" in inputs ==> inputs["code"] == inputs["content"])
            && (forall key :: key != "prompt" && key != "code" ==> (key in inputs <==> Given(s, x, r, key)))
  {
    hide NodeMap, Preds, MergeOutputs, LastProvider;
    var before := s.initialInputs + MergeOutputs(Preds(s.graph.edges, x), r) + Restrict(s.initialInputs, PRESERVED_KEYS);
    forall key
      ensures key in before <==> Given(s, x, r, key)
    {
      MergedFrom(Preds(s.graph.edges, x), r, key);
    }
    var inputs := GatherInputs(s, x, r);
    assert NodeMap(s.graph)[x].kind == Model && "prompt" !in before ==> inputs - {"prompt"} == before;
  }

  lemma NodeAgree(s: Setup, x: string, r: Results, q: Results)
    requires x in NodeMap(s.graph)
    requires forall p :: p in Preds(s.graph.edges, x) ==> AgreeAt(r, q, p)
    ensures ExecuteNode(s, x, r) == ExecuteNode(s, x, q)
  {
    hide Preds, MergeOutputs, AgreeAt, NodeMap, Attempts, AddDerived;
    MergeAgree(Preds(s.graph.edges, x), r, q);
    assert GatherInputs(s, x, r) == GatherInputs(s, x, q);
  }

  lemma SelectedAt(s: Setup, r: Results, d: string)
    ensures d in SelectedOf(s, r) <==> d in r && BranchOf(s, d, r[d]).Some?
    ensures d in SelectedOf(s, r) ==> SelectedOf(s, r)[d] == BranchOf(s, d, r[d]).value && CanSelect(s.graph, d)
  {
  }

  // ---- Rejected nodes ----

  /** Another decision, with its result, has not selected a branch of x. */
  ghost predicate Rejected(s: Setup, r: Results, x: string)
  {
    Unselected(s.graph, SelectedOf(s, r) - {x}, x)
  }

  /** Without a result of its own, rejected is what the executor tests. */
  lemma RejectedIsUnselected(s: Setup, r: Results, x: string)
    requires x !in r
    ensures Rejected(s, r, x) <==> Unselected(s.graph, SelectedOf(s, r), x)
  {
    hide BranchOf;
    assert SelectedOf(s, r) - {x} == SelectedOf(s, r);
  }

  ghost predicate RejectedBy(s: Setup, r: Results, cb: ConditionalBranch)
  {
    cb.decision in SelectedOf(s, r) && SelectedOf(s, r)[cb.decision] != cb.branchLabel
  }

  lemma DecisionOf(s: Setup, r: Results, x: string) returns (cb: ConditionalBranch)
    requires Rejected(s, r, x)
    ensures cb in s.graph.branches && x in cb.targets && cb.decision != x && RejectedBy(s, r, cb)
    ensures cb.decision in r && CanSelect(s.graph, cb.decision)
    ensures x in Ids(s.graph) ==> Target(s.graph, cb, x)
  {
    hide BranchOf, SelectedOf, CanSelect, Ids;
    cb :| cb in s.graph.branches && x in cb.targets && cb.decision in SelectedOf(s, r) - {x}
          && (SelectedOf(s, r) - {x})[cb.decision] != cb.branchLabel;
    SelectedAt(s, r, cb.decision);
  }

  lemma RejectsTarget(s: Setup, r: Results, x: string, cb: ConditionalBranch)
    requires cb in s.graph.branches && x in cb.targets && cb.decision != x && RejectedBy(s, r, cb)
    ensures Rejected(s, r, x)
  {
    hide SelectedOf;
  }

  lemma SelectionIsFinal(s: Setup, r: Results, q: Results, cb: ConditionalBranch)
    requires RejectedBy(s, r, cb) && cb.decision in q && (cb.decision in r ==> q[cb.decision] == r[cb.decision])
    ensures RejectedBy(s, q, cb)
  {
    hide BranchOf, SelectedOf;
    SelectedAt(s, r, cb.decision);
    SelectedAt(s, q, cb.decision);
  }

  lemma RejectionIsFinal(s: Setup, r: Results, q: Results, x: string)
    requires forall y :: y in r ==> y in q && q[y] == r[y]
    requires Rejected(s, r, x)
    ensures Rejected(s, q, x)
  {
    hide SelectedOf, RejectedBy, Rejected, CanSelect, Ids;
    var cb := DecisionOf(s, r, x);
    SelectionIsFinal(s, r, q, cb);
    RejectsTarget(s, q, x, cb);
  }

  /** Rejected by a decision that does not wait for it. */
  ghost predicate Pruned(s: Setup, r: Results, x: string)
  {
    exists cb :: Rejectable(s.graph, cb, x) && RejectedBy(s, r, cb)
  }

  lemma PrunedIsRejected(s: Setup, r: Results, x: string)
    requires Pruned(s, r, x)
    ensures Rejected(s, r, x)
  {
    hide RejectedBy, Rejected, CanSelect, Ids, Above;
    var cb :| Rejectable(s.graph, cb, x) && RejectedBy(s, r, cb);
    RejectsTarget(s, r, x, cb);
  }

  lemma PruningIsFinal(s: Setup, r: Results, q: Results, x: string)
    requires forall y :: y in r ==> y in q && q[y] == r[y]
    requires Pruned(s, r, x)
    ensures Pruned(s, q, x)
  {
    hide SelectedOf, Rejectable;
    var cb :| Rejectable(s.graph, cb, x) && RejectedBy(s, r, cb);
    SelectedAt(s, r, cb.decision);
    SelectionIsFinal(s, r, q, cb);
  }

  /** Whether a node is pruned depends only on what lies above it. */
  lemma PrunedFrom(s: Setup, x: string, r: Results, q: Results)
    requires DownstreamBranches(s.graph)
    requires forall a :: Above(s.graph.edges, a, x) ==> AgreeAt(r, q, a)
    requires Pruned(s, r, x)
    ensures Pruned(s, q, x)
  {
    hide SelectedOf, Rejectable, Above;
    var cb :| Rejectable(s.graph, cb, x) && RejectedBy(s, r, cb);
    SelectedAt(s, r, cb.decision);
    assert AgreeAt(r, q, cb.decision);
    SelectionIsFinal(s, r, q, cb);
  }

  // ---- Partial results ----

  /** Everything above x has a result, or is pruned for good. */
  ghost predicate Settled(s: Setup, r: Results, x: string)
  {
    forall a :: Above(s.graph.edges, a, x) ==> a in r || Pruned(s, r, a)
  }

  ghost predicate PartialAt(s: Setup, r: Results, x: string)
    requires x in r
  {
    x in NodeMap(s.graph) && r[x] == ExecuteNode(s, x, r) && !Pruned(s, r, x) && Settled(s, r, x)
  }

  /** Results that some cut of a run may leave behind. */
  ghost predicate Partial(s: Setup, r: Results)
  {
    forall x :: x in r ==> PartialAt(s, r, x)
  }

  lemma NothingIsPartial(s: Setup)
    ensures Partial(s, map[])
  {
  }

  /** Every node has its result or is pruned. */
  ghost predicate Complete(s: Setup, r: Results)
  {
    Partial(s, r) && forall x :: x in Ids(s.graph) ==> x in r || Pruned(s, r, x)
  }

  ghost predicate CanCommit(s: Setup, r: Results, x: string)
  {
    x in NodeMap(s.graph) && x !in r && !Pruned(s, r, x) && Settled(s, r, x)
  }

  /** A node without a result that the executor skips has been rejected by a decision that did not wait for it. */
  lemma SkippedIsPruned(s: Setup, r: Results, x: string)
    requires Partial(s, r) && x !in r && x in Ids(s.graph)
    ensures Pruned(s, r, x) <==> Unselected(s.graph, SelectedOf(s, r), x)
  {
    hide Pruned, Rejected, RejectedBy, Unselected, SelectedOf, CanSelect, Ids, Above, ExecuteNode, NodeMap;
    RejectedIsUnselected(s, r, x);
    if Pruned(s, r, x) { PrunedIsRejected(s, r, x); }
    if Rejected(s, r, x) {
      var cb := DecisionOf(s, r, x);
      if Above(s.graph.edges, x, cb.decision) {
        assert PartialAt(s, r, cb.decision);
      } else {
        PrunedByIt(s, r, x, cb);
      }
    }
  }

  lemma PrunedByIt(s: Setup, r: Results, x: string, cb: ConditionalBranch)
    requires Rejectable(s.graph, cb, x) && RejectedBy(s, r, cb)
    ensures Pruned(s, r, x)
  {
  }

  lemma PredsAgree(s: Setup, r: Results, q: Results, x: string)
    requires forall a :: Above(s.graph.edges, a, x) ==> AgreeAt(r, q, a)
    ensures forall p :: p in Preds(s.graph.edges, x) ==> AgreeAt(r, q, p)
  {
    hide Preds, Above, AgreeAt;
    forall p | p in Preds(s.graph.edges, x)
      ensures AgreeAt(r, q, p)
    {
      PredIsAbove(s.graph.edges, p, x);
    }
  }

  /** Adding nodes whose ancestors are settled disturbs no settled node. */
  lemma SettledAgree(s: Setup, r: Results, q: Results, x: string)
    requires Settled(s, r, x)
    requires forall y :: y in r ==> y in q && q[y] == r[y]
    requires forall y :: y in q && y !in r ==> CanCommit(s, r, y)
    ensures forall a :: Above(s.graph.edges, a, x) ==> AgreeAt(r, q, a)
    ensures Settled(s, q, x)
  {
    hide Above, Pruned;
    forall a | Above(s.graph.edges, a, x)
      ensures AgreeAt(r, q, a)
      ensures a in q || Pruned(s, q, a)
    {
      if a !in r {
        PruningIsFinal(s, r, q, a);
        assert a in q ==> CanCommit(s, r, a);
      }
    }
  }

  lemma CommitKeepsPartial(s: Setup, r: Results, q: Results)
    requires DownstreamBranches(s.graph) && Partial(s, r)
    requires forall y :: y in r ==> y in q && q[y] == r[y]
    requires forall y :: y in q && y !in r ==> CanCommit(s, r, y) && q[y] == ExecuteNode(s, y, r)
    ensures Partial(s, q)
  {
    hide Preds, Pruned, ExecuteNode, NodeMap, DownstreamBranches, Settled, AgreeAt, Above;
    forall x | x in q
      ensures PartialAt(s, q, x)
    {
      assert x in r ==> PartialAt(s, r, x);
      SettledAgree(s, r, q, x);
      PredsAgree(s, r, q, x);
      NodeAgree(s, x, r, q);
      if Pruned(s, q, x) {
        forall a | Above(s.graph.edges, a, x)
          ensures AgreeAt(q, r, a)
        {
          AgreeSymmetric(r, q, a);
        }
        PrunedFrom(s, x, q, r);
      }
    }
  }

  lemma AgreeSymmetric(r: Results, q: Results, p: string)
    ensures AgreeAt(r, q, p) <==> AgreeAt(q, r, p)
  {
  }

  // ---- Complete results are unique ----

  lemma {:induction false} CompleteAgree(s: Setup, r: Results, q: Results, n: nat)
    requires WellFormed(s.graph) && DownstreamBranches(s.graph)
    requires Complete(s, r) && Complete(s, q)
    requires IsTopological(s.graph.edges, Ids(s.graph), KahnOrder(s.graph)) && n <= |KahnOrder(s.graph)|
    ensures forall x :: x in KahnOrder(s.graph)[..n] ==> AgreeAt(r, q, x)
  {
    hide Preds, Pruned, ExecuteNode, NodeMap, DownstreamBranches, Settled, WellFormed, KahnOrder, AgreeAt, Above;
    if n > 0 {
      var order := KahnOrder(s.graph);
      var x := order[n - 1];
      CompleteAgree(s, r, q, n - 1);
      assert order[..n] == order[..n - 1] + [x] && x in order;
      forall a | Above(s.graph.edges, a, x)
        ensures AgreeAt(r, q, a)
      {
        AboveIsEarlier(s.graph.edges, Ids(s.graph), order, a, n - 1);
      }
      OneMoreAgrees(s, r, q, x);
    }
  }

  lemma OneMoreAgrees(s: Setup, r: Results, q: Results, x: string)
    requires DownstreamBranches(s.graph) && Complete(s, r) && Complete(s, q) && x in Ids(s.graph)
    requires forall a :: Above(s.graph.edges, a, x) ==> AgreeAt(r, q, a)
    ensures AgreeAt(r, q, x)
  {
    hide Preds, Pruned, ExecuteNode, NodeMap, DownstreamBranches, Settled, Above;
    forall a | Above(s.graph.edges, a, x)
      ensures AgreeAt(q, r, a)
    {
      AgreeSymmetric(r, q, a);
    }
    PredsAgree(s, r, q, x);
    NodeAgree(s, x, r, q);
    if Pruned(s, r, x) { PrunedFrom(s, x, r, q); }
    if Pruned(s, q, x) { PrunedFrom(s, x, q, r); }
    assert x in r ==> PartialAt(s, r, x);
    assert x in q ==> PartialAt(s, q, x);
  }

  /** Two complete results are equal, however they were scheduled. */
  lemma CompleteUnique(s: Setup, r: Results, q: Results)
    requires WellFormed(s.graph) && DownstreamBranches(s.graph)
    requires Complete(s, r) && Complete(s, q)
    ensures r == q
  {
    hide Preds, Pruned, ExecuteNode, NodeMap, DownstreamBranches, Settled, KahnOrder, Acyclic, UniqueIds, KnownEndpoints;
    var order := KahnOrder(s.graph);
    RaisesIffCyclic(s.graph);
    CompleteAgree(s, r, q, |order|);
    assert order[..|order|] == order;
    forall x
      ensures x in r <==> x in q
      ensures x in r ==> r[x] == q[x]
    {
      assert x in r ==> PartialAt(s, r, x);
      assert x in q ==> PartialAt(s, q, x);
      assert x in Ids(s.graph) ==> x in order && AgreeAt(r, q, x);
    }
  }
}
