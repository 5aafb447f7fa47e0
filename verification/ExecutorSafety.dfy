/** Safety over all runs: what was started, when, and what never is. */
module ExecutorSafety {
  import opened ExecutorRuns
  import opened ExecutorSpec
  import opened ExecutorTheory
  import opened Graph
  import opened Kahn
  import opened KahnTheory
  import opened Order
  import opened Wrappers

  /** All started nodes, in order. */
  function Flat(batches: seq<seq<string>>): (f: seq<string>)
    ensures forall x :: x in f <==> exists k :: 0 <= k < |batches| && x in batches[k]
  {
    if |batches| == 0 then []
    else
      var n := |batches| - 1;
      var f := Flat(batches[..n]) + batches[n];
      assert forall x :: x in f <==> x in Flat(batches[..n]) || x in batches[n];
      f
  }

  // ---- List comprehensions keep lists duplicate-free ----

  lemma {:induction false} SatisfiedDistinct(edges: seq<GraphEdge>, pending: seq<string>, completed: set<string>)
    requires Distinct(pending)
    ensures Distinct(PredsSatisfied(edges, pending, completed))
  {
    hide PredsIn;
    if |pending| > 0 {
      assert pending[0] !in pending[1..];
      SatisfiedDistinct(edges, pending[1..], completed);
    }
  }

  lemma {:induction false} ReadyDistinct(g: ActionGraph, selected: map<string, string>, s: seq<string>)
    requires Distinct(s)
    ensures Distinct(ReadyAmong(g, selected, s))
  {
    hide Unselected;
    if |s| > 0 {
      assert s[0] !in s[1..];
      ReadyDistinct(g, selected, s[1..]);
    }
  }

  lemma {:induction false} WithoutDistinct(s: seq<string>, gone: set<string>)
    requires Distinct(s)
    ensures Distinct(Without(s, gone))
  {
    if |s| > 0 {
      assert s[0] !in s[1..];
      WithoutDistinct(s[1..], gone);
    }
  }

  lemma BatchDistinct(s: Setup, m: int, st: ExecState)
    requires PendingKnown(s, st) && Distinct(st.pending)
    ensures Distinct(BatchOf(s, m, st))
  {
    hide PredsSatisfied, ReadyAmong, SortIds, Priorities, NodeMap, Unselected, PredsIn;
    var satisfied := PredsSatisfied(s.graph.edges, st.pending, st.completed);
    SatisfiedDistinct(s.graph.edges, st.pending, st.completed);
    var ready := ReadyAmong(s.graph, st.selected, satisfied);
    ReadyDistinct(s.graph, st.selected, satisfied);
    SortIdsSorted(Priorities(s.graph), ready);
  }

  /** A batch holds the least ready nodes by (priority, node_id): as many as allowed, in order, and every ready
      node left out comes after all of them. */
  lemma BatchTakesLeast(s: Setup, m: int, st: ExecState)
    requires PendingKnown(s, st) && Distinct(st.pending) && m >= 1
    ensures var ready := ReadyAmong(s.graph, st.selected, PredsSatisfied(s.graph.edges, st.pending, st.completed));
            var batch := BatchOf(s, m, st);
            && |batch| == Min(m, |ready|)
            && Known(Priorities(s.graph), ready) && Known(Priorities(s.graph), batch) && Sorted(Priorities(s.graph), batch)
            && (forall x :: x in batch ==> x in ready)
            && (forall x, y :: x in batch && y in ready && y !in batch ==> Before(Priorities(s.graph), x, y))
  {
    hide PredsSatisfied, ReadyAmong, SortIds, Priorities, NodeMap, Unselected, PredsIn, Before;
    var satisfied := PredsSatisfied(s.graph.edges, st.pending, st.completed);
    SatisfiedDistinct(s.graph.edges, st.pending, st.completed);
    var ready := ReadyAmong(s.graph, st.selected, satisfied);
    ReadyDistinct(s.graph, st.selected, satisfied);
    SortIdsSorted(Priorities(s.graph), ready);
    FirstOnesAreLeast(Priorities(s.graph), SortIds(Priorities(s.graph), ready), Min(m, |ready|));
  }

  /** Without workers a round with something ready raises, unless the slice it takes happens to hold one node. */
  lemma NoWorkersExactly(s: Setup, m: int, st: ExecState)
    requires PendingKnown(s, st) && m <= 0
    ensures var ready := ReadyAmong(s.graph, st.selected, PredsSatisfied(s.graph.edges, st.pending, st.completed));
            var step := Round(s, m, st);
            && (step.Raise? && step.error == NoWorkers <==> ready != [] && (m == 0 || |ready| + m != 1))
            && (step.Next? <==> ready != [] && m < 0 && |ready| + m == 1)
  {
    hide PredsSatisfied, ReadyAmong, SortIds, Priorities, NodeMap, Unselected, PredsIn, Without, ExecuteNode;
  }

  lemma FirstOnesAreLeast(prio: map<string, int>, sorted: seq<string>, n: nat)
    requires Known(prio, sorted) && Sorted(prio, sorted) && n <= |sorted|
    ensures Known(prio, sorted[..n]) && Sorted(prio, sorted[..n])
    ensures forall x, y :: x in sorted[..n] && y in sorted && y !in sorted[..n] ==> x in prio && y in prio && Before(prio, x, y)
  {
    hide Before;
    forall x, y | x in sorted[..n] && y in sorted && y !in sorted[..n]
      ensures x in prio && y in prio && Before(prio, x, y)
    {
      var i :| 0 <= i < n && sorted[i] == x;
      assert sorted == sorted[..n] + sorted[n..];
      assert y in sorted[n..];
      var j :| n <= j < |sorted| && sorted[j] == y;
    }
  }

  // ---- The trace of a run ----

  /** x, started in batch k, had every predecessor pre-filled, started earlier, or rejected and never started. */
  ghost predicate StartedAfterPreds(s: Setup, base: set<string>, st: ExecState, k: nat, x: string)
    requires k <= |st.batches|
  {
    forall p :: p in Preds(s.graph.edges, x) ==>
      p in base || p in Flat(st.batches[..k]) || LeftOut(s, st.results, p)
  }

  ghost predicate LeftOut(s: Setup, r: Results, p: string)
  {
    p !in r && Rejected(s, r, p)
  }

  ghost predicate TraceInv(s: Setup, base: set<string>, st: ExecState)
  {
    && Distinct(st.pending) && Distinct(Flat(st.batches))
    && (forall x :: x in st.results <==> x in base || x in Flat(st.batches))
    && (forall x :: x in Flat(st.batches) ==> x !in base)
    && (forall k, x :: 0 <= k < |st.batches| && x in st.batches[k] ==> StartedAfterPreds(s, base, st, k, x))
  }

  lemma SkipKeepsTrace(s: Setup, base: set<string>, st: ExecState)
    requires TraceInv(s, base, st)
    ensures TraceInv(s, base, Skip(s.graph, st))
  {
    hide Preds, LeftOut, Flat, PredsSatisfied, ReadyAmong, Without, Distinct;
    var satisfied := PredsSatisfied(s.graph.edges, st.pending, st.completed);
    var skipped := ToSet(satisfied) - ToSet(ReadyAmong(s.graph, st.selected, satisfied));
    WithoutDistinct(st.pending, skipped);
    var rest := Skip(s.graph, st);
    forall k, x | 0 <= k < |rest.batches| && x in rest.batches[k]
      ensures StartedAfterPreds(s, base, rest, k, x)
    {
      assert StartedAfterPreds(s, base, st, k, x);
    }
  }

  lemma {:induction false} FlatAppend(batches: seq<seq<string>>, batch: seq<string>)
    requires Distinct(Flat(batches)) && Distinct(batch) && forall x :: x in batch ==> x !in Flat(batches)
    ensures Flat(batches + [batch]) == Flat(batches) + batch
    ensures Distinct(Flat(batches + [batch]))
  {
    assert (batches + [batch])[..|batches|] == batches;
    DistinctConcat(Flat(batches), batch);
  }

  lemma CommitKeepsTrace(s: Setup, base: set<string>, st: ExecState, q: ExecState, batch: seq<string>)
    requires TraceInv(s, base, st) && Distinct(batch)
    requires q.batches == st.batches + [batch] && Distinct(q.pending)
    requires forall x :: x in q.results <==> x in st.results || x in batch
    requires forall x :: x in batch ==> x !in st.results && StartedAfterPreds(s, base, st, |st.batches|, x)
    requires forall x :: LeftOut(s, st.results, x) ==> LeftOut(s, q.results, x)
    ensures TraceInv(s, base, q)
  {
    hide Preds, LeftOut, Flat, Distinct;
    FlatAppend(st.batches, batch);
    forall k, x | 0 <= k < |q.batches| && x in q.batches[k]
      ensures StartedAfterPreds(s, base, q, k, x)
    {
      assert q.batches[..k] == st.batches[..k];
      assert StartedAfterPreds(s, base, st, k, x);
    }
  }

  lemma FreshNodeStartsAfterPreds(s: Setup, base: set<string>, st: ExecState, x: string)
    requires TraceInv(s, base, st) && BaseInv(s, st) && PredsIn(s.graph.edges, x, st.completed)
    ensures StartedAfterPreds(s, base, st, |st.batches|, x)
  {
    hide Preds, Rejected, Flat, Distinct, SelectedOf, PendingIsRest;
    assert st.batches[..|st.batches|] == st.batches;
    forall p | p in Preds(s.graph.edges, x)
      ensures p in base || p in Flat(st.batches) || LeftOut(s, st.results, p)
    {
      assert p in st.completed;
    }
  }

  lemma RoundKeepsTrace(s: Setup, base: set<string>, m: int, st: ExecState)
    requires BaseInv(s, st) && TraceInv(s, base, st) && PendingKnown(s, st)
    ensures TraceInv(s, base, Round(s, m, st).st)
  {
    hide Preds, Rejected, SelectedOf, NodeMap, Ids, TraceInv, StartedAfterPreds, BatchOf, PredsIn, ExecuteNode, Flat, PendingIsRest,
         Unselected, PredsSatisfied, ReadyAmong, Without, Distinct;
    SkipKeepsTrace(s, base, st);
    var rest := Skip(s.graph, st);
    var batch := BatchOf(s, m, st);
    if Round(s, m, st).Next? {
      var q := Round(s, m, st).st;
      TracePendingDistinct(s, base, st);
      BatchDistinct(s, m, st);
      RoundKeepsBase(s, m, st);
      forall x | x in batch
        ensures x !in rest.results && StartedAfterPreds(s, base, rest, |rest.batches|, x) && !Rejected(s, st.results, x)
      {
        BatchIsFresh(s, st, x);
        RejectedIsUnselected(s, st.results, x);
        FreshNodeStartsAfterPreds(s, base, st, x);
        SameTrace(s, base, st, rest, x);
      }
      forall x | LeftOut(s, rest.results, x)
        ensures LeftOut(s, q.results, x)
      {
        RejectionIsFinal(s, rest.results, q.results, x);
      }
      TracePendingDistinct(s, base, rest);
      WithoutDistinct(rest.pending, ToSet(batch));
      CommitKeepsTrace(s, base, rest, q, batch);
    }
  }

  lemma TracePendingDistinct(s: Setup, base: set<string>, st: ExecState)
    requires TraceInv(s, base, st)
    ensures Distinct(st.pending)
  {
  }

  lemma BatchIsFresh(s: Setup, st: ExecState, x: string)
    requires BaseInv(s, st) && x in st.pending
    ensures x !in st.results
  {
  }

  lemma SameTrace(s: Setup, base: set<string>, st: ExecState, q: ExecState, x: string)
    requires StartedAfterPreds(s, base, st, |st.batches|, x)
    requires q.batches == st.batches && q.results == st.results
    ensures StartedAfterPreds(s, base, q, |q.batches|, x)
  {
  }

  lemma {:induction false} RunKeepsTrace(s: Setup, base: set<string>, m: int, check: InterruptCheck, n: nat, st: ExecState)
    requires BaseInv(s, st) && TraceInv(s, base, st) && PendingKnown(s, st)
    ensures TraceInv(s, base, RunFrom(s, m, check, n, st).0)
    decreases |st.pending|
  {
    hide BaseInv, Round, PendingKnown, TraceInv;
    if st.pending != [] {
      RoundKeepsBase(s, m, st);
      RoundKeepsTrace(s, base, m, st);
      RoundProgress(s, m, st);
      var step := Round(s, m, st);
      if step.Next? && Poll(check, n).None? {
        RunKeepsTrace(s, base, m, check, n + 1, step.st);
      }
    }
  }

  lemma StartTrace(s: Setup, r: Results)
    requires WellFormed(s.graph)
    ensures TraceInv(s, r.Keys, Start(s, KahnOrder(s.graph), map[], r))
  {
    hide Acyclic, KnownEndpoints, UniqueIds, KahnOrder, SelectedOf, StartedAfterPreds;
    RaisesIffCyclic(s.graph);
    WithoutDistinct(KahnOrder(s.graph), r.Keys);
  }

  /** Over a whole session on any well-formed graph and from any initial results: every node is started at most
      once and never when pre-filled; it is started only after its predecessors (pre-filled, run in an earlier
      batch, or rejected and never started); results are exactly the pre-filled and the started nodes; and the
      selected branches are those the results determine. When decisions only reject what is downstream of them, no
      node that such a decision has rejected has a result. */
  lemma SessionIsSafe(s: Setup, m: int, check: InterruptCheck, r: Results)
    requires WellFormed(s.graph)
    ensures var st := SessionRun(s, m, check, r).0;
            && Distinct(Flat(st.batches))
            && (forall x :: x in Flat(st.batches) ==> x !in r)
            && (forall x :: x in st.results <==> x in r || x in Flat(st.batches))
            && (forall k, x :: 0 <= k < |st.batches| && x in st.batches[k] ==> StartedAfterPreds(s, r.Keys, st, k, x))
            && st.selected == SelectedOf(s, st.results)
            && (DownstreamBranches(s.graph) && Partial(s, r) ==> forall x :: x in st.results ==> !Pruned(s, st.results, x))
  {
    hide WellFormed, DownstreamBranches, KahnOrder, RunFrom, Start, StartedAfterPreds, Flat, Distinct, SelectedOf, Pruned,
         PendingKnown, PendingIsRest, ExecuteNode, Settled, NodeMap, Rejected;
    StartIsKnown(s, r);
    StartBase(s, r);
    StartTrace(s, r);
    var st0 := Start(s, KahnOrder(s.graph), map[], r);
    RunKeepsBase(s, m, check, 0, st0);
    RunKeepsTrace(s, r.Keys, m, check, 0, st0);
    if DownstreamBranches(s.graph) && Partial(s, r) {
      SessionKeepsPartial(s, m, check, r);
      var q := SessionRun(s, m, check, r).0.results;
      assert forall x :: x in q ==> PartialAt(s, q, x);
    }
  }

  /** No two nodes of one batch are joined by an edge. */
  lemma BatchIsIndependent(s: Setup, m: int, check: InterruptCheck, r: Results, k: nat, x: string, y: string)
    requires WellFormed(s.graph)
    requires var st := SessionRun(s, m, check, r).0;
             k < |st.batches| && x in st.batches[k] && y in st.batches[k]
    ensures GraphEdge(x, y) !in s.graph.edges
  {
    hide WellFormed, DownstreamBranches, Partial, SessionRun, SelectedOf, Pruned, Rejected;
    SessionIsSafe(s, m, check, r);
    var st := SessionRun(s, m, check, r).0;
    assert StartedAfterPreds(s, r.Keys, st, k, y);
    assert x in Flat(st.batches);
    EarlierIsOther(st.batches, k, x);
    assert GraphEdge(x, y) in s.graph.edges ==> x in Preds(s.graph.edges, y);
  }

  lemma {:induction false} EarlierIsOther(batches: seq<seq<string>>, k: nat, x: string)
    requires Distinct(Flat(batches)) && k < |batches| && x in batches[k]
    ensures x !in Flat(batches[..k])
    decreases |batches|
  {
    var n := |batches| - 1;
    var f := Flat(batches[..n]);
    assert Flat(batches) == f + batches[n];
    DistinctConcat(f, batches[n]);
    if k < n {
      assert batches[..n][..k] == batches[..k];
      EarlierIsOther(batches[..n], k, x);
    }
  }
}
