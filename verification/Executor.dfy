/** `DAGExecutor` (execution/executor.py): the object whose `results` the run updates. */
module Executor {
  import opened Classifier
  import opened ExecutorLiveness
  import opened ExecutorRuns
  import opened ExecutorSafety
  import opened ExecutorSpec
  import opened ExecutorTheory
  import opened Graph
  import opened JsonValues
  import opened Kahn
  import opened KahnTheory
  import opened Nodes
  import opened Order
  import opened Wrappers

  /** A plain dictionary without an interrupt check, an outcome with one, or an exception. */
  datatype ExecuteResult =
    | Plain(results: Results)
    | Outcome(results: Results, pending: seq<string>, interrupted: Option<InterruptCommand>)
    | Raises(error: ExecError)

  /** How the exit of a run is reported to the caller. */
  function Report(check: InterruptCheck, st: ExecState, exit: Exit): ExecuteResult
  {
    match exit
    case Crashed(e) => Raises(e)
    case Interrupted(c) => Outcome(st.results, st.pending, Some(c))
    case Finished => if check.Some? then Outcome(st.results, [], None) else Plain(st.results)
  }

  /** What the caller gets, in terms of the final state: its results; with a check, the answer of the poll after the last
      batch, and if it answered, the nodes still pending. */
  predicate Reported(check: InterruptCheck, st: ExecState, exit: Exit, r: ExecuteResult)
  {
    if exit.Crashed? then r.Raises? && r.error == exit.error
    else if check.None? then r.Plain? && r.results == st.results
    else
      && r.Outcome? && r.results == st.results
      && r.interrupted == LastAnswer(check.value, |st.batches|)
      && r.pending == if r.interrupted.Some? then st.pending else []
  }

  /** One poll after every batch. */
  function LastAnswer(check: nat -> Option<InterruptCommand>, batches: nat): Option<InterruptCommand>
  {
    if batches == 0 then None else check(batches - 1)
  }

  /** A run polls once after every batch and stops at the first answer. */
  lemma {:induction false} RunAnswers(s: Setup, m: int, check: InterruptCheck, n: nat, st: ExecState)
    requires PendingKnown(s, st) && |st.batches| == n && (check.Some? ==> forall i :: 0 <= i < n ==> check.value(i).None?)
    ensures var (q, exit) := RunFrom(s, m, check, n, st);
            && |q.batches| >= n
            && (check.None? ==> !exit.Interrupted?)
            && (check.Some? && !exit.Crashed? ==>
                  && (exit == match LastAnswer(check.value, |q.batches|) case Some(c) => Interrupted(c) case None => Finished)
                  && (forall i :: 0 <= i < |q.batches| - 1 ==> check.value(i).None?))
    decreases |st.pending|
  {
    hide Round, PendingKnown;
    if st.pending != [] {
      RoundProgress(s, m, st);
      RoundBatches(s, m, st);
      var step := Round(s, m, st);
      if step.Next? && Poll(check, n).None? { RunAnswers(s, m, check, n + 1, step.st); }
    }
  }

  lemma RoundBatches(s: Setup, m: int, st: ExecState)
    requires PendingKnown(s, st)
    ensures var step := Round(s, m, st);
            |step.st.batches| == |st.batches| + (if step.Next? then 1 else 0) && st.results.Keys <= step.st.results.Keys
  {
    hide PredsSatisfied, ReadyAmong, Without, BatchOf, BatchResults, SelectedOf;
  }

  lemma RunIsReported(s: Setup, m: int, check: InterruptCheck, st0: ExecState)
    requires PendingKnown(s, st0) && st0.batches == []
    ensures var (st, exit) := RunFrom(s, m, check, 0, st0);
            Reported(check, st, exit, Report(check, st, exit))
  {
    hide RunFrom, PendingKnown;
    RunAnswers(s, m, check, 0, st0);
    var (st, exit) := RunFrom(s, m, check, 0, st0);
    if check.Some? && !exit.Crashed? {
      var last := LastAnswer(check.value, |st.batches|);
      assert exit == if last.Some? then Interrupted(last.value) else Finished;
      assert Report(check, st, exit) == Outcome(st.results, if last.Some? then st.pending else [], last);
    }
  }

  ghost predicate Orderable(g: ActionGraph)
  {
    |KahnOrder(g)| == |g.nodes| && forall x :: !Dangling(g, x)
  }

  lemma OrderIsKnown(s: Setup, held: Results, initial: Results)
    ensures PendingKnown(s, Start(s, KahnOrder(s.graph), held, initial))
    ensures Distinct(KahnOrder(s.graph))
    ensures Distinct(Start(s, KahnOrder(s.graph), held, initial).pending)
  {
    hide Canonical, KahnOrder, SelectedOf, NodeMap;
    OrderIsCanonical(s.graph);
    CanonicalShape(s.graph.edges, Priorities(s.graph), KahnOrder(s.graph));
    WithoutDistinct(KahnOrder(s.graph), initial.Keys);
  }

  /** Without an interrupt check, a fresh executor on a tame graph returns the results of the one-node-at-a-time
      run, from nothing or from what any cut of a run left. */
  lemma TameExecution(s: Setup, m: int, initial: Results)
    requires Tame(s.graph) && m >= 1 && Partial(s, initial)
    ensures Orderable(s.graph) && PendingKnown(s, Start(s, KahnOrder(s.graph), map[], initial))
    ensures var (st, exit) := RunFrom(s, m, None, 0, Start(s, KahnOrder(s.graph), map[], initial));
            Report(None, st, exit) == Plain(SequentialResults(s))
  {
    hide DownstreamBranches, LeafTargets, KahnOrder, Dangling, Acyclic, UniqueIds, KnownEndpoints, Partial, RunFrom, Start, PendingKnown,
         SequentialResults, Complete;
    RaisesIffCyclic(s.graph);
    StartIsKnown(s, initial);
    PartialIsUnblocked(s, initial);
    SessionsReturn(s, m, None, initial);
    SessionKeepsPartial(s, m, None, initial);
    SequentialIsComplete(s);
    CompleteUnique(s, SessionRun(s, m, None, initial).0.results, SequentialResults(s));
  }

  // ---- `list.remove` on a list without repetitions ----

  function RemoveFirst(s: seq<string>, x: string): seq<string>
    requires x in s
  {
    if s[0] == x then s[1..] else [s[0]] + RemoveFirst(s[1..], x)
  }

  lemma {:induction false} RemoveIsWithout(s: seq<string>, x: string)
    requires Distinct(s) && x in s
    ensures RemoveFirst(s, x) == Without(s, {x})
  {
    if s[0] == x {
      WithoutAbsent(s[1..], {x});
    } else {
      RemoveIsWithout(s[1..], x);
    }
  }

  lemma {:induction false} WithoutAbsent(s: seq<string>, gone: set<string>)
    requires forall x :: x in s ==> x !in gone
    ensures Without(s, gone) == s
  {
    if |s| > 0 { WithoutAbsent(s[1..], gone); }
  }

  lemma {:induction false} WithoutTwice(s: seq<string>, a: set<string>, b: set<string>)
    ensures Without(Without(s, a), b) == Without(s, a + b)
  {
    if |s| > 0 { WithoutTwice(s[1..], a, b); }
  }

  /** `pending` is the order without what is completed. */
  ghost predicate PendingInOrder(order: seq<string>, st: ExecState)
  {
    st.pending == Without(order, st.completed)
  }

  lemma RoundKeepsOrder(s: Setup, m: int, order: seq<string>, st: ExecState)
    requires PendingKnown(s, st) && PendingInOrder(order, st)
    ensures PendingInOrder(order, Round(s, m, st).st)
  {
    hide PredsSatisfied, ReadyAmong, Without, BatchOf, BatchResults, SelectedOf;
    var satisfied := PredsSatisfied(s.graph.edges, st.pending, st.completed);
    var skipped := ToSet(satisfied) - ToSet(ReadyAmong(s.graph, st.selected, satisfied));
    WithoutTwice(order, st.completed, skipped);
    WithoutTwice(order, st.completed + skipped, ToSet(BatchOf(s, m, st)));
  }

  lemma {:induction false} RunKeepsOrder(s: Setup, m: int, check: InterruptCheck, n: nat, order: seq<string>, st: ExecState)
    requires PendingKnown(s, st) && PendingInOrder(order, st)
    ensures PendingInOrder(order, RunFrom(s, m, check, n, st).0)
    decreases |st.pending|
  {
    hide Round, PendingKnown, PendingInOrder;
    if st.pending != [] {
      RoundProgress(s, m, st);
      RoundKeepsOrder(s, m, order, st);
      var step := Round(s, m, st);
      if step.Next? && Poll(check, n).None? { RunKeepsOrder(s, m, check, n + 1, order, step.st); }
    }
  }

  /** What an executor already held, or was given, it still holds after the run. */
  lemma {:induction false} RunKeepsKeys(s: Setup, m: int, check: InterruptCheck, n: nat, st: ExecState)
    requires PendingKnown(s, st)
    ensures st.results.Keys <= RunFrom(s, m, check, n, st).0.results.Keys
    decreases |st.pending|
  {
    hide Round, PendingKnown;
    if st.pending != [] {
      RoundProgress(s, m, st);
      RoundBatches(s, m, st);
      var step := Round(s, m, st);
      if step.Next? && Poll(check, n).None? { RunKeepsKeys(s, m, check, n + 1, step.st); }
    }
  }

  /** Starting over keeps what is held; resuming puts the given results in its place. */
  lemma StartHolds(s: Setup, order: seq<string>, held: Results, initial: Results)
    ensures Start(s, order, held, initial).results == if initial == map[] then held else initial
  {
  }

  lemma StartInOrder(s: Setup, order: seq<string>, held: Results, initial: Results)
    ensures PendingInOrder(order, Start(s, order, held, initial))
  {
    WithoutAbsent(order, {});
  }

  /** Removing one by one is removing at once. */
  method RemoveAll(s: seq<string>, xs: seq<string>) returns (r: seq<string>)
    requires Distinct(s) && Distinct(xs) && forall x :: x in xs ==> x in s
    ensures r == Without(s, ToSet(xs))
  {
    r := s;
    WithoutAbsent(s, {});
    assert ToSet(xs[..0]) == {};
    for i := 0 to |xs|
      invariant r == Without(s, ToSet(xs[..i]))
    {
      assert xs[..i + 1] == xs[..i] + [xs[i]];
      assert ToSet(xs[..i + 1]) == ToSet(xs[..i]) + {xs[i]};
      assert xs[i] !in xs[..i];
      WithoutDistinct(s, ToSet(xs[..i]));
      RemoveIsWithout(r, xs[i]);
      WithoutTwice(s, ToSet(xs[..i]), {xs[i]});
      r := RemoveFirst(r, xs[i]);
    }
    assert xs[..|xs|] == xs;
  }

  // ---- `_gather_inputs`, loop by loop ----

  /** Update from each predecessor that has a result. */
  method MergeFrom(preds: seq<string>, results: Results) returns (inputs: Values)
    ensures inputs == MergeOutputs(preds, results)
  {
    inputs := map[];
    for i := 0 to |preds|
      invariant inputs == MergeOutputs(preds[..i], results)
    {
      assert preds[..i + 1][..i] == preds[..i];
      if preds[i] in results {
        inputs := inputs + results[preds[i]].outputs;
      }
    }
    assert preds[..|preds|] == preds;
  }

  /** `setdefault` for every initial input. */
  method SetDefaults(merged: Values, initialInputs: Values) returns (inputs: Values)
    ensures inputs == initialInputs + merged
  {
    inputs := merged;
    var keys := initialInputs.Keys;
    while keys != {}
      invariant keys <= initialInputs.Keys && merged.Keys <= inputs.Keys && inputs.Keys + keys == merged.Keys + initialInputs.Keys
      invariant forall k :: k in inputs ==> inputs[k] == (initialInputs + merged)[k]
      decreases keys
    {
      var k :| k in keys;
      if k !in inputs { inputs := inputs[k := initialInputs[k]]; }
      keys := keys - {k};
    }
  }

  /** Initial inputs under a preserved key win. */
  method ForcePreserved(before: Values, initialInputs: Values, preserved: set<string>) returns (inputs: Values)
    ensures inputs == before + Restrict(initialInputs, preserved)
  {
    inputs := before;
    ghost var forced := Restrict(initialInputs, preserved);
    var keys := preserved;
    while keys != {}
      invariant keys <= preserved
      invariant inputs == before + (forced - keys)
      decreases keys
    {
      var k :| k in keys;
      if k in initialInputs { inputs := inputs[k := initialInputs[k]]; }
      keys := keys - {k};
    }
    assert forced - {} == forced;
  }

  /** The retry loop of `_execute_single`. */
  method CallUntilDone(s: Setup, impl: NodeImpl, inputs: Values) returns (calls: seq<NodeOutput>)
    ensures calls == Attempts(s, impl, inputs, 0)
  {
    hide Attempt, Stops;
    calls := [];
    var attempt := 0;
    while true
      invariant calls + Attempts(s, impl, inputs, attempt) == Attempts(s, impl, inputs, 0)
      decreases s.maxNodeRetries - attempt
    {
      var out := Attempt(s, impl, inputs, attempt);
      ghost var rest := Attempts(s, impl, inputs, attempt + 1);
      assert calls + ([out] + rest) == (calls + [out]) + rest;
      StopsAtLimit(s, out, attempt);
      calls := calls + [out];
      if Stops(s, out, attempt) {
        return;
      }
      attempt := attempt + 1;
    }
  }

  lemma StopsAtLimit(s: Setup, out: NodeOutput, attempt: nat)
    ensures attempt >= s.maxNodeRetries ==> Stops(s, out, attempt)
  {
  }

  // ---- Running a batch ----

  /** Whatever order the nodes of a sorted batch finish in, sorting gives the batch back. */
  lemma SortRestores(prio: map<string, int>, finished: seq<string>, batch: seq<string>)
    requires Known(prio, batch) && Sorted(prio, batch) && Distinct(batch)
    requires Distinct(finished) && ToSet(finished) == ToSet(batch)
    ensures Known(prio, finished) && SortIds(prio, finished) == batch
    ensures forall i :: 0 <= i < |batch| ==> batch[i] in finished
  {
    hide SortIds, Sorted;
    forall i | 0 <= i < |finished|
      ensures finished[i] in prio
    {
      assert finished[i] in ToSet(batch);
    }
    SortIdsSorted(prio, finished);
    DistinctSize(finished);
    DistinctSize(batch);
    SortedUnique(prio, SortIds(prio, finished), batch);
  }

  // ---- Committing a batch ----

  /** Record the branch a result selects, if any. */
  function Select(s: Setup, selected: map<string, string>, nid: string, out: NodeOutput): map<string, string>
  {
    if BranchOf(s, nid, out).Some? then selected[nid := BranchOf(s, nid, out).value] else selected
  }

  /** The state after committing the first i nodes of a batch. */
  ghost function CommittedUpTo(s: Setup, st: ExecState, batch: seq<string>, i: nat): ExecState
    requires i <= |batch| && forall x :: x in batch ==> x in NodeMap(s.graph)
  {
    var outs := BatchResults(s, batch[..i], st.results);
    ExecState(st.results + outs, st.completed + ToSet(batch[..i]), Without(st.pending, ToSet(batch[..i])),
              st.selected + SelectedOf(s, outs), st.batches)
  }

  lemma PendingOneMore(pending: seq<string>, done: seq<string>, x: string)
    requires Distinct(pending) && x in pending && x !in done
    ensures x in Without(pending, ToSet(done))
    ensures Without(pending, ToSet(done + [x])) == RemoveFirst(Without(pending, ToSet(done)), x)
  {
    hide RemoveFirst, Without;
    assert ToSet(done + [x]) == ToSet(done) + {x};
    WithoutDistinct(pending, ToSet(done));
    RemoveIsWithout(Without(pending, ToSet(done)), x);
    WithoutTwice(pending, ToSet(done), {x});
  }

  lemma ResultsOneMore(s: Setup, r: Results, done: seq<string>, x: string)
    requires x !in done && x in NodeMap(s.graph) && forall y :: y in done ==> y in NodeMap(s.graph)
    ensures BatchResults(s, done + [x], r) == BatchResults(s, done, r)[x := ExecuteNode(s, x, r)]
  {
    hide ExecuteNode, NodeMap;
  }

  lemma CommitOneMore(s: Setup, st: ExecState, batch: seq<string>, i: nat)
    requires i < |batch| && forall x :: x in batch ==> x in NodeMap(s.graph)
    requires Distinct(batch) && Distinct(st.pending) && forall x :: x in batch ==> x in st.pending
    ensures var x, c := batch[i], CommittedUpTo(s, st, batch, i);
            var out := ExecuteNode(s, x, st.results);
            x in c.pending &&
            CommittedUpTo(s, st, batch, i + 1) ==
            ExecState(c.results[x := out], c.completed + {x}, RemoveFirst(c.pending, x), Select(s, c.selected, x, out), st.batches)
  {
    hide ExecuteNode, BranchOf, NodeMap, Without, RemoveFirst, SelectedOf, BatchResults;
    var x, done := batch[i], batch[..i];
    var out := ExecuteNode(s, x, st.results);
    assert batch[..i + 1] == done + [x] && x !in done;
    PendingOneMore(st.pending, done, x);
    ResultsOneMore(s, st.results, done, x);
    var outs := BatchResults(s, done, st.results);
    SelectOneMore(s, outs, x, out);
    assert st.results + outs[x := out] == (st.results + outs)[x := out];
    assert st.completed + ToSet(done + [x]) == st.completed + ToSet(done) + {x};
    assert st.selected + Select(s, SelectedOf(s, outs), x, out) == Select(s, st.selected + SelectedOf(s, outs), x, out);
  }

  lemma SelectOneMore(s: Setup, outs: Results, x: string, out: NodeOutput)
    requires x !in outs
    ensures SelectedOf(s, outs[x := out]) == Select(s, SelectedOf(s, outs), x, out)
  {
    hide BranchOf;
  }

  lemma CommitNone(s: Setup, st: ExecState, batch: seq<string>)
    requires forall x :: x in batch ==> x in NodeMap(s.graph)
    ensures CommittedUpTo(s, st, batch, 0) == st
  {
    hide BranchOf, NodeMap, ExecuteNode, Without;
    assert batch[..0] == [] && ToSet<string>([]) == {};
    WithoutAbsent(st.pending, {});
  }

  lemma CommitAll(s: Setup, st: ExecState, batch: seq<string>)
    requires forall x :: x in batch ==> x in NodeMap(s.graph)
    ensures CommittedUpTo(s, st, batch, |batch|).(batches := st.batches + [batch]) == Commit(s, st, batch)
  {
    hide BranchOf, NodeMap, ExecuteNode, Without;
    assert batch[..|batch|] == batch;
  }

  // ---- One round ----

  /** The nodes skipped in a round, in list order. */
  lemma SkippedList(g: ActionGraph, st: ExecState)
    requires Distinct(st.pending)
    ensures var satisfied := PredsSatisfied(g.edges, st.pending, st.completed);
            var skipped := Without(satisfied, ToSet(ReadyAmong(g, st.selected, satisfied)));
            && Distinct(skipped) && (forall x :: x in skipped ==> x in st.pending)
            && Skip(g, st) == st.(pending := Without(st.pending, ToSet(skipped)), completed := st.completed + ToSet(skipped))
  {
    hide PredsSatisfied, ReadyAmong, Without, PredsIn, Unselected;
    var satisfied := PredsSatisfied(g.edges, st.pending, st.completed);
    var ready := ReadyAmong(g, st.selected, satisfied);
    SatisfiedDistinct(g.edges, st.pending, st.completed);
    WithoutDistinct(satisfied, ToSet(ready));
    assert ToSet(Without(satisfied, ToSet(ready))) == ToSet(satisfied) - ToSet(ready);
  }

  /** The batch is sorted, duplicate-free, and still pending after the skips. */
  lemma BatchShape(s: Setup, m: int, st: ExecState)
    requires PendingKnown(s, st) && Distinct(st.pending)
    ensures var batch := BatchOf(s, m, st);
            && Known(Priorities(s.graph), batch) && Sorted(Priorities(s.graph), batch) && Distinct(batch)
            && Distinct(Skip(s.graph, st).pending)
            && forall x :: x in batch ==> x in NodeMap(s.graph) && x in Skip(s.graph, st).pending
  {
    hide PredsSatisfied, ReadyAmong, Without, SortIds, Unselected, PredsIn, NodeMap, Before;
    BatchDistinct(s, m, st);
    var satisfied := PredsSatisfied(s.graph.edges, st.pending, st.completed);
    var ready := ReadyAmong(s.graph, st.selected, satisfied);
    SatisfiedDistinct(s.graph.edges, st.pending, st.completed);
    ReadyDistinct(s.graph, st.selected, satisfied);
    SortIdsSorted(Priorities(s.graph), ready);
    WithoutDistinct(st.pending, ToSet(satisfied) - ToSet(ready));
  }

  /** Rebuild the selected branches from resumed results. */
  method RestoreBranches(s: Setup, results: Results) returns (selected: map<string, string>)
    ensures selected == SelectedOf(s, results)
  {
    hide BranchOf;
    selected := map[];
    var todo := results.Keys;
    while todo != {}
      invariant todo <= results.Keys
      invariant selected == SelectedOf(s, results - todo)
      decreases todo
    {
      var nid :| nid in todo;
      SelectOneMore(s, results - todo, nid, results[nid]);
      assert results - (todo - {nid}) == (results - todo)[nid := results[nid]];
      selected := Select(s, selected, nid, results[nid]);
      todo := todo - {nid};
    }
    assert results - {} == results;
  }

  lemma CommitDistinct(s: Setup, st: ExecState, batch: seq<string>)
    requires Distinct(st.pending) && forall x :: x in batch ==> x in NodeMap(s.graph)
    ensures Distinct(Commit(s, st, batch).pending)
  {
    hide NodeMap, ExecuteNode, BranchOf, Without;
    WithoutDistinct(st.pending, ToSet(batch));
  }

  /** One unfolding of the run. */
  lemma UnfoldRun(s: Setup, m: int, check: InterruptCheck, n: nat, st: ExecState)
    requires PendingKnown(s, st)
    ensures st.pending == [] ==> RunFrom(s, m, check, n, st) == (st, Finished)
    ensures st.pending != [] ==>
              match Round(s, m, st)
              case Done(st') => RunFrom(s, m, check, n, st) == (st', Finished)
              case Raise(st', e) => RunFrom(s, m, check, n, st) == (st', Crashed(e))
              case Next(st') => (
                PendingKnown(s, st') &&
                RunFrom(s, m, check, n, st) ==
                if Poll(check, n).Some? then (st', Interrupted(Poll(check, n).value)) else RunFrom(s, m, check, n + 1, st'))
  {
    hide Round, PendingKnown;
    if st.pending != [] { RoundProgress(s, m, st); }
  }

  class DAGExecutor {
    const registry: map<string, NodeImpl>
    const maxParallel: int
    const interruptCheck: InterruptCheck
    const maxNodeRetries: int
    const upgradeThreshold: int
    const prompts: Prompts
    const render: Json -> string

    var results: Results

    constructor (registry: map<string, NodeImpl>, maxParallel: int, interruptCheck: InterruptCheck,
                 maxNodeRetries: int, upgradeThreshold: int, prompts: Prompts, render: Json -> string)
      ensures results == map[]
      ensures this.registry == registry && this.maxParallel == maxParallel && this.interruptCheck == interruptCheck
      ensures this.maxNodeRetries == maxNodeRetries && this.upgradeThreshold == upgradeThreshold
      ensures this.prompts == prompts && this.render == render
    {
      this.registry, this.maxParallel, this.interruptCheck := registry, maxParallel, interruptCheck;
      this.maxNodeRetries, this.upgradeThreshold := maxNodeRetries, upgradeThreshold;
      this.prompts, this.render := prompts, render;
      results := map[];
    }

    function SetupFor(graph: ActionGraph, initialInputs: Values): Setup
    {
      Setup(graph, registry, initialInputs, maxNodeRetries, upgradeThreshold, prompts, render)
    }

    /** `_gather_inputs`. */
    method GatherNodeInputs(graph: ActionGraph, initialInputs: Values, nid: string) returns (inputs: Values)
      requires nid in NodeMap(graph)
      ensures inputs == GatherInputs(SetupFor(graph, initialInputs), nid, results)
    {
      hide Preds, MergeOutputs, AddDerived, NodeMap;
      var predMap := Predecessors(graph);
      inputs := MergeFrom(Lookup(predMap, nid), results);
      inputs := SetDefaults(inputs, initialInputs);
      inputs := ForcePreserved(inputs, initialInputs, PRESERVED_KEYS);
      inputs := AddDerived(SetupFor(graph, initialInputs), NodeMap(graph)[nid], inputs);
    }

    /** `_execute_single`; `calls` lists the outputs of all calls of the node. */
    method ExecuteSingle(graph: ActionGraph, initialInputs: Values, nid: string)
      returns (out: NodeOutput, calls: seq<NodeOutput>)
      requires nid in NodeMap(graph)
      ensures out == ExecuteNode(SetupFor(graph, initialInputs), nid, results)
      ensures nid in registry ==>
                calls == Attempts(SetupFor(graph, initialInputs), registry[nid],
                                  GatherInputs(SetupFor(graph, initialInputs), nid, results), 0)
      ensures nid !in registry ==>
                && calls == [] && out.outputs == map[] && out.quality == map[] && out.status == Failed
                && out.error == Some("No implementation registered for node " + nid)
                && out.failureClass == Some(ClassifyFailure(out.error, 0, upgradeThreshold))
    {
      hide Attempts, GatherInputs, NodeMap;
      var s := SetupFor(graph, initialInputs);
      if nid !in registry {
        return NoImplementation(s, nid), [];
      }
      var inputs := GatherNodeInputs(graph, initialInputs, nid);
      calls := CallUntilDone(s, registry[nid], inputs);
      out := calls[|calls| - 1];
    }

    /** `_execute_batch`: nodes finish in any order; sorting restores the batch order. */
    method ExecuteBatch(graph: ActionGraph, initialInputs: Values, batch: seq<string>)
      returns (pairs: seq<(string, NodeOutput)>)
      requires Known(Priorities(graph), batch) && Sorted(Priorities(graph), batch) && Distinct(batch)
      requires forall x :: x in batch ==> x in NodeMap(graph)
      ensures |pairs| == |batch|
      ensures forall i :: 0 <= i < |batch| ==>
                pairs[i] == (batch[i], ExecuteNode(SetupFor(graph, initialInputs), batch[i], results))
    {
      hide ExecuteNode, SortIds, NodeMap, Priorities, Attempts, Sorted;
      if |batch| == 1 {
        var out, _ := ExecuteSingle(graph, initialInputs, batch[0]);
        return [(batch[0], out)];
      }
      var running := ToSet(batch);
      var finished: seq<string> := [];
      var outputs: Results := map[];
      while running != {}
        invariant Distinct(finished) && ToSet(finished) + running == ToSet(batch) && ToSet(finished) !! running
        invariant outputs.Keys == ToSet(finished)
        invariant forall x :: x in finished ==>
                    x in NodeMap(graph) && outputs[x] == ExecuteNode(SetupFor(graph, initialInputs), x, results)
        decreases running
      {
        var nid :| nid in running;
        var out, _ := ExecuteSingle(graph, initialInputs, nid);
        finished := finished + [nid];
        outputs := outputs[nid := out];
        running := running - {nid};
      }
      SortRestores(Priorities(graph), finished, batch);
      var sorted := SortIds(Priorities(graph), finished);
      pairs := seq(|sorted|, i requires 0 <= i < |sorted| => (sorted[i], outputs[sorted[i]]));
    }

    /** The commit loop of a batch: `results`, `completed`, `pending` and the selected branches, node by node. */
    method CommitBatch(graph: ActionGraph, initialInputs: Values, pairs: seq<(string, NodeOutput)>, st: ExecState,
                       batch: seq<string>)
      returns (q: ExecState)
      requires st.results == results && |pairs| == |batch|
      requires Distinct(batch) && Distinct(st.pending)
      requires forall x :: x in batch ==> x in NodeMap(graph) && x in st.pending
      requires forall i :: 0 <= i < |batch| ==>
                 pairs[i] == (batch[i], ExecuteNode(SetupFor(graph, initialInputs), batch[i], results))
      modifies this`results
      ensures q == Commit(SetupFor(graph, initialInputs), st, batch) && results == q.results
    {
      hide ExecuteNode, CommittedUpTo, Commit, NodeMap, Select, Distinct, RemoveFirst;
      var s := SetupFor(graph, initialInputs);
      var completed, pending, selected := st.completed, st.pending, st.selected;
      CommitNone(s, st, batch);
      for i := 0 to |pairs|
        invariant ExecState(results, completed, pending, selected, st.batches) == CommittedUpTo(s, st, batch, i)
      {
        CommitOneMore(s, st, batch, i);
        var (nid, out) := pairs[i];
        results := results[nid := out];
        completed := completed + {nid};
        pending := RemoveFirst(pending, nid);
        selected := Select(s, selected, nid, out);
      }
      CommitAll(s, st, batch);
      q := ExecState(results, completed, pending, selected, st.batches + [batch]);
    }

    /** One pass of the while loop. */
    method RunRound(graph: ActionGraph, initialInputs: Values, st: ExecState) returns (step: Step)
      requires PendingKnown(SetupFor(graph, initialInputs), st) && Distinct(st.pending) && st.results == results
      modifies this`results
      ensures step == Round(SetupFor(graph, initialInputs), maxParallel, st)
      ensures results == step.st.results && Distinct(step.st.pending)
    {
      hide PredsSatisfied, ReadyAmong, Without, SortIds, Unselected, PredsIn, NodeMap, Commit, Skip, Distinct, Sorted, ExecuteNode,
           Priorities, TakeSlice;
      var s := SetupFor(graph, initialInputs);
      var satisfied := PredsSatisfied(graph.edges, st.pending, st.completed);
      var ready := ReadyAmong(graph, st.selected, satisfied);
      var skipped := Without(satisfied, ToSet(ready));
      SkippedList(graph, st);
      BatchShape(s, maxParallel, st);
      var pending := RemoveAll(st.pending, skipped);
      var rest := st.(pending := pending, completed := st.completed + ToSet(skipped));
      if ready == [] {
        return if rest.pending == [] then Done(rest) else Raise(rest, Deadlock);
      }
      var batch := TakeSlice(SortIds(Priorities(graph), ready), maxParallel);
      if |batch| != 1 && maxParallel <= 0 {
        return Raise(rest, NoWorkers);
      }
      var pairs := ExecuteBatch(graph, initialInputs, batch);
      var q := CommitBatch(graph, initialInputs, pairs, rest, batch);
      CommitDistinct(s, rest, batch);
      step := Next(q);
    }

    /** `execute`: exactly the run the specification describes, from the order of the graph. */
    method Execute(graph: ActionGraph, initialInputs: Values, initialResults: Results) returns (r: ExecuteResult)
      modifies this`results
      ensures !Orderable(graph) ==>
                r.Raises? && r.error.GraphFailed? && results == old(results) &&
                match r.error.error
                case CycleError => forall x :: !Dangling(graph, x)
                case UnknownNode(x) => FirstDangling(graph, x)
      ensures Orderable(graph) ==>
                var s := SetupFor(graph, initialInputs);
                var st0 := Start(s, KahnOrder(graph), old(results), initialResults);
                PendingKnown(s, st0) &&
                var (st, exit) := RunFrom(s, maxParallel, interruptCheck, 0, st0);
                && results == st.results && r == Report(interruptCheck, st, exit)
                && (if initialResults == map[] then old(results) else initialResults).Keys <= results.Keys
                && Reported(interruptCheck, st, exit, r) && st.pending == Without(KahnOrder(graph), st.completed)
    {
      hide KahnOrder, Dangling, FirstDangling, NodeMap, RunFrom, Round, PendingKnown, Distinct, SelectedOf, Without, Reported;
      var s := SetupFor(graph, initialInputs);
      var topo := TopologicalOrder(graph);
      if topo.Err? {
        return Raises(GraphFailed(topo.error));
      }
      var order := topo.value;
      OrderIsKnown(s, results, initialResults);
      ghost var st0 := Start(s, order, results, initialResults);
      RunIsReported(s, maxParallel, interruptCheck, st0);
      StartInOrder(s, order, results, initialResults);
      RunKeepsOrder(s, maxParallel, interruptCheck, 0, order, st0);
      StartHolds(s, order, results, initialResults);
      RunKeepsKeys(s, maxParallel, interruptCheck, 0, st0);
      var st: ExecState;
      if initialResults != map[] {
        results := initialResults;
        var selected := RestoreBranches(s, initialResults);
        st := ExecState(results, initialResults.Keys, Without(order, initialResults.Keys), selected, []);
      } else {
        st := ExecState(results, {}, order, map[], []);
      }
      var polls := 0;
      while st.pending != []
        invariant PendingKnown(s, st) && Distinct(st.pending) && st.results == results
        invariant RunFrom(s, maxParallel, interruptCheck, polls, st) == RunFrom(s, maxParallel, interruptCheck, 0, st0)
        decreases |st.pending|
      {
        RoundProgress(s, maxParallel, st);
        UnfoldRun(s, maxParallel, interruptCheck, polls, st);
        var step := RunRound(graph, initialInputs, st);
        match step {
          case Raise(st', e) => return Raises(e);
          case Done(st') => return Report(interruptCheck, st', Finished);
          case Next(st') =>
            st := st';
            var request := Poll(interruptCheck, polls);
            if request.Some? {
              return Report(interruptCheck, st, Interrupted(request.value));
            }
            polls := polls + 1;
        }
      }
      UnfoldRun(s, maxParallel, interruptCheck, polls, st);
      return Report(interruptCheck, st, Finished);
    }
  }
  /** A run that is cut, and a second executor that resumes from the results the first one returned: on a tame graph the
      first never raises, and the second returns what a run of one node at a time returns, wherever the cut was. */
  method PauseAndResume(first: DAGExecutor, second: DAGExecutor, graph: ActionGraph, initialInputs: Values)
    returns (cut: ExecuteResult, whole: ExecuteResult)
    requires Tame(graph) && first != second && first.results == map[] && second.results == map[]
    requires first.maxParallel >= 1 && second.maxParallel >= 1 && first.interruptCheck.Some? && second.interruptCheck.None?
    requires second.SetupFor(graph, initialInputs) == first.SetupFor(graph, initialInputs)
    modifies first`results, second`results
    ensures cut.Outcome? && cut.results == first.results
    ensures whole == Plain(SequentialResults(first.SetupFor(graph, initialInputs)))
    ensures cut.interrupted.None? ==> cut.pending == [] && cut.results == whole.results
  {
    hide DownstreamBranches, LeafTargets, WellFormed, KahnOrder, RunFrom, Start, PendingKnown, SequentialResults, Complete, Partial, Orderable;
    ghost var s := first.SetupFor(graph, initialInputs);
    NothingIsPartial(s);
    PartialIsUnblocked(s, map[]);
    SessionsReturn(s, first.maxParallel, first.interruptCheck, map[]);
    SessionKeepsPartial(s, first.maxParallel, first.interruptCheck, map[]);
    TameExecution(s, first.maxParallel, map[]);
    cut := first.Execute(graph, initialInputs, map[]);
    TameExecution(s, second.maxParallel, cut.results);
    whole := second.Execute(graph, initialInputs, cut.results);
    if cut.interrupted.None? {
      FinishedIsSequential(s, first.maxParallel, first.interruptCheck);
    }
  }

  lemma FinishedIsSequential(s: Setup, m: int, check: InterruptCheck)
    requires Tame(s.graph) && SessionRun(s, m, check, map[]).1.Finished?
    ensures SessionRun(s, m, check, map[]).0.results == SequentialResults(s)
  {
    hide WellFormed, DownstreamBranches, LeafTargets, SessionRun, SequentialResults, Complete;
    NothingIsPartial(s);
    SessionKeepsPartial(s, m, check, map[]);
    SequentialIsComplete(s);
    CompleteUnique(s, SessionRun(s, m, check, map[]).0.results, SequentialResults(s));
  }
}
