/** Whole runs: what every run keeps, and that every schedule, every cut and every resume that finishes ends in the
    results of the one-node-at-a-time run when decisions can only reject what is downstream of them. */
module ExecutorRuns {
  import opened ExecutorSpec
  import opened ExecutorTheory
  import opened Graph
  import opened JsonValues
  import opened Kahn
  import opened KahnTheory
  import opened Nodes
  import opened Order
  import opened Wrappers

  // ---- The invariant of the scheduling loop ----

  ghost predicate PendingIsRest(s: Setup, st: ExecState)
  {
    forall x :: x in st.pending <==> x in Ids(s.graph) && x !in st.completed
  }

  /** On every well-formed graph, from any initial results: nodes completed without a result are rejected. */
  ghost predicate BaseInv(s: Setup, st: ExecState)
  {
    && PendingIsRest(s, st)
    && st.selected == SelectedOf(s, st.results)
    && st.results.Keys <= st.completed
    && forall x :: x in st.completed ==> x in st.results || Rejected(s, st.results, x)
  }

  /** When decisions can only reject what is downstream of them: rejected nodes and all they block are settled. */
  ghost predicate Inv(s: Setup, st: ExecState)
  {
    && BaseInv(s, st)
    && Partial(s, st.results)
    && forall x :: x in st.completed ==> (x in st.results || Pruned(s, st.results, x)) && Settled(s, st.results, x)
  }

  ghost predicate YieldedAt(s: Setup, r: Results, x: string)
    requires x in r
  {
    && x in NodeMap(s.graph) && r[x] == ExecuteNode(s, x, r)
    && forall p :: p in Preds(s.graph.edges, x) ==> p in r || Rejected(s, r, p)
  }

  /** Every result is what the node yields on these results, whose predecessors have results or are rejected. */
  ghost predicate Yielded(s: Setup, r: Results)
  {
    forall x :: x in r ==> YieldedAt(s, r, x)
  }

  lemma PartialIsYielded(s: Setup, r: Results)
    requires Partial(s, r)
    ensures Yielded(s, r)
  {
    hide Preds, Pruned, Rejected, Above, ExecuteNode, NodeMap;
    forall x | x in r
      ensures YieldedAt(s, r, x)
    {
      assert PartialAt(s, r, x);
      forall p | p in Preds(s.graph.edges, x)
        ensures p in r || Rejected(s, r, p)
      {
        PredIsAbove(s.graph.edges, p, x);
        if p !in r { PrunedIsRejected(s, r, p); }
      }
    }
  }

  // ---- The base invariant, on every well-formed graph ----

  /** Results are only added, and not to rejected nodes. */
  ghost predicate Extends(s: Setup, q: Results, r: Results)
  {
    && (forall y :: y in r ==> y in q && q[y] == r[y])
    && (forall y :: y !in r && Rejected(s, r, y) ==> y !in q)
  }

  lemma ExtendsItself(s: Setup, r: Results)
    ensures Extends(s, r, r)
  {
  }

  lemma ExtendsFurther(s: Setup, t: Results, q: Results, r: Results)
    requires Extends(s, q, r) && Extends(s, t, q)
    ensures Extends(s, t, r)
  {
    hide Rejected;
    forall y | y !in r && Rejected(s, r, y)
      ensures y !in t
    {
      RejectionIsFinal(s, r, q, y);
    }
  }

  lemma SelectedGrowsFresh(s: Setup, r: Results, outs: Results)
    requires r.Keys !! outs.Keys
    ensures SelectedOf(s, r + outs) == SelectedOf(s, r) + SelectedOf(s, outs)
  {
    hide BranchOf;
  }

  lemma SkipKeepsBase(s: Setup, st: ExecState)
    requires BaseInv(s, st)
    ensures BaseInv(s, Skip(s.graph, st))
  {
    hide Preds, Unselected, SelectedOf, Ids, PredsSatisfied, ReadyAmong, Without, PredsIn, Rejected;
    var satisfied := PredsSatisfied(s.graph.edges, st.pending, st.completed);
    forall x | x in satisfied && x !in ReadyAmong(s.graph, st.selected, satisfied)
      ensures Rejected(s, st.results, x)
    {
      RejectedIsUnselected(s, st.results, x);
    }
  }

  lemma CommitKeepsBase(s: Setup, st: ExecState, batch: seq<string>)
    requires BaseInv(s, st)
    requires forall x :: x in batch ==> x in NodeMap(s.graph) && x in st.pending && !Rejected(s, st.results, x)
    ensures BaseInv(s, Commit(s, st, batch)) && Extends(s, Commit(s, st, batch).results, st.results)
  {
    hide SelectedOf, ExecuteNode, NodeMap, Without, Ids, Rejected;
    var outs := BatchResults(s, batch, st.results);
    var q := st.results + outs;
    assert forall x :: x in batch ==> x !in st.results;
    SelectedGrowsFresh(s, st.results, outs);
    forall x | x in st.completed && x !in st.results
      ensures Rejected(s, q, x)
    {
      RejectionIsFinal(s, st.results, q, x);
    }
  }

  /** Rejected nodes without a result are in no batch, so what a node has seen of its predecessors stays. */
  lemma BatchKeepsYielded(s: Setup, r: Results, q: Results)
    requires Yielded(s, r) && Extends(s, q, r)
    requires forall x :: x in q && x !in r ==> !Rejected(s, r, x) && x in NodeMap(s.graph) && q[x] == ExecuteNode(s, x, r)
    requires forall x, p :: x in q && x !in r && p in Preds(s.graph.edges, x) ==> p in r || Rejected(s, r, p)
    ensures Yielded(s, q)
  {
    hide Preds, Rejected, ExecuteNode, NodeMap;
    forall x | x in q
      ensures YieldedAt(s, q, x)
    {
      assert x in r ==> YieldedAt(s, r, x);
      forall p | p in Preds(s.graph.edges, x)
        ensures AgreeAt(r, q, p)
        ensures p in q || Rejected(s, q, p)
      {
        if p !in r { RejectionIsFinal(s, r, q, p); }
      }
      NodeAgree(s, x, r, q);
    }
  }

  lemma RoundKeepsBase(s: Setup, m: int, st: ExecState)
    requires BaseInv(s, st) && PendingKnown(s, st)
    ensures BaseInv(s, Round(s, m, st).st) && Extends(s, Round(s, m, st).st.results, st.results)
    ensures Yielded(s, st.results) ==> Yielded(s, Round(s, m, st).st.results)
    ensures Round(s, m, st).Done? ==> Round(s, m, st).st.pending == []
  {
    hide Preds, Unselected, SelectedOf, ExecuteNode, NodeMap, Ids, PredsSatisfied, ReadyAmong, BatchOf, Without, Rejected, Yielded;
    SkipKeepsBase(s, st);
    var rest := Skip(s.graph, st);
    var batch := BatchOf(s, m, st);
    if Round(s, m, st).Next? {
      BatchIsPending(s, m, st);
      forall x | x in batch
        ensures x !in st.results && !Rejected(s, st.results, x)
      {
        RejectedIsUnselected(s, st.results, x);
      }
      CommitKeepsBase(s, rest, batch);
      if Yielded(s, st.results) { BatchKeepsYielded(s, st.results, Round(s, m, st).st.results); }
    }
  }

  lemma BatchIsPending(s: Setup, m: int, st: ExecState)
    requires PendingKnown(s, st)
    ensures forall x :: x in BatchOf(s, m, st) ==> x in NodeMap(s.graph) && x in Skip(s.graph, st).pending
  {
    hide NodeMap, BatchOf, PredsSatisfied, ReadyAmong, PredsIn, Unselected;
  }

  /** What every run on a well-formed graph keeps; results are only added. */
  lemma {:induction false} RunKeepsBase(s: Setup, m: int, check: InterruptCheck, n: nat, st: ExecState)
    requires BaseInv(s, st) && PendingKnown(s, st)
    ensures BaseInv(s, RunFrom(s, m, check, n, st).0) && Extends(s, RunFrom(s, m, check, n, st).0.results, st.results)
    ensures Yielded(s, st.results) ==> Yielded(s, RunFrom(s, m, check, n, st).0.results)
    ensures RunFrom(s, m, check, n, st).1.Finished? ==> RunFrom(s, m, check, n, st).0.pending == []
    decreases |st.pending|
  {
    hide BaseInv, Yielded, Extends, Round, PendingKnown;
    if st.pending != [] {
      RoundKeepsBase(s, m, st);
      RoundProgress(s, m, st);
      var step := Round(s, m, st);
      if step.Next? && Poll(check, n).None? {
        RunKeepsBase(s, m, check, n + 1, step.st);
        ExtendsFurther(s, RunFrom(s, m, check, n + 1, step.st).0.results, step.st.results, st.results);
      }
    } else {
      ExtendsItself(s, st.results);
    }
  }

  // ---- The pruning invariant ----

  /** With completed predecessors, everything above a node has a result or is pruned. */
  lemma SettledFromPreds(s: Setup, st: ExecState, x: string)
    requires Inv(s, st) && PredsIn(s.graph.edges, x, st.completed)
    ensures Settled(s, st.results, x)
  {
    hide Preds, Above, Pruned, Partial, PendingIsRest, SelectedOf;
    forall a | Above(s.graph.edges, a, x)
      ensures a in st.results || Pruned(s, st.results, a)
    {
      var p := AboveThroughPred(s.graph.edges, a, x);
      assert p in st.completed;
    }
  }

  lemma SkippedIsSettled(s: Setup, st: ExecState, x: string)
    requires Inv(s, st) && x in st.pending && PredsIn(s.graph.edges, x, st.completed)
    requires Unselected(s.graph, st.selected, x)
    ensures Pruned(s, st.results, x) && Settled(s, st.results, x)
  {
    hide Unselected, SelectedOf, Partial, PredsIn, Pruned;
    SkippedIsPruned(s, st.results, x);
    SettledFromPreds(s, st, x);
  }

  lemma SkipKeepsInv(s: Setup, st: ExecState)
    requires Inv(s, st)
    ensures Inv(s, Skip(s.graph, st))
  {
    hide Preds, Unselected, SelectedOf, Partial, Ids, PredsSatisfied, ReadyAmong, Without, PredsIn, Pruned, Settled, Rejected;
    SkipKeepsBase(s, st);
    var satisfied := PredsSatisfied(s.graph.edges, st.pending, st.completed);
    forall x | x in satisfied && x !in ReadyAmong(s.graph, st.selected, satisfied)
      ensures Pruned(s, st.results, x) && Settled(s, st.results, x)
    {
      SkippedIsSettled(s, st, x);
    }
  }

  lemma BatchCanCommit(s: Setup, st: ExecState, x: string)
    requires Inv(s, st) && x in st.pending
    requires PredsIn(s.graph.edges, x, st.completed) && !Unselected(s.graph, st.selected, x)
    ensures CanCommit(s, st.results, x) && !Rejected(s, st.results, x)
  {
    hide Preds, Unselected, SelectedOf, Partial, Pruned, Settled, PredsIn, Rejected;
    RejectedIsUnselected(s, st.results, x);
    SkippedIsPruned(s, st.results, x);
    SettledFromPreds(s, st, x);
  }

  lemma CommitKeepsInv(s: Setup, st: ExecState, batch: seq<string>)
    requires DownstreamBranches(s.graph) && Inv(s, st)
    requires forall x :: x in batch ==> x in NodeMap(s.graph) && x in st.pending
    requires forall x :: x in batch ==> CanCommit(s, st.results, x) && !Rejected(s, st.results, x)
    ensures Inv(s, Commit(s, st, batch))
  {
    hide Preds, Pruned, SelectedOf, Partial, ExecuteNode, DownstreamBranches, Settled, NodeMap, Without, Ids, BaseInv, Rejected;
    CommitKeepsBase(s, st, batch);
    var q := st.results + BatchResults(s, batch, st.results);
    CommitKeepsPartial(s, st.results, q);
    forall x | x in st.completed + ToSet(batch)
      ensures (x in q || Pruned(s, q, x)) && Settled(s, q, x)
    {
      SettledAgree(s, st.results, q, x);
      if x in st.completed && x !in st.results {
        PruningIsFinal(s, st.results, q, x);
      }
    }
  }

  lemma RoundKeepsInv(s: Setup, m: int, st: ExecState)
    requires DownstreamBranches(s.graph) && Inv(s, st) && PendingKnown(s, st)
    ensures Inv(s, Round(s, m, st).st)
  {
    hide Preds, Unselected, SelectedOf, Partial, ExecuteNode, DownstreamBranches, CanCommit, NodeMap, Ids, Inv,
         PredsSatisfied, ReadyAmong, PredsIn, BatchOf, Commit;
    SkipKeepsInv(s, st);
    var rest := Skip(s.graph, st);
    var batch := BatchOf(s, m, st);
    if Round(s, m, st).Next? {
      BatchIsPending(s, m, st);
      forall x | x in batch
        ensures CanCommit(s, rest.results, x) && !Rejected(s, rest.results, x)
      {
        BatchCanCommit(s, st, x);
      }
      CommitKeepsInv(s, rest, batch);
    }
  }

  /** What it keeps besides when decisions can only reject what is downstream of them. */
  lemma {:induction false} RunKeepsInv(s: Setup, m: int, check: InterruptCheck, n: nat, st: ExecState)
    requires DownstreamBranches(s.graph) && Inv(s, st) && PendingKnown(s, st)
    ensures Inv(s, RunFrom(s, m, check, n, st).0)
    decreases |st.pending|
  {
    hide Inv, Round, DownstreamBranches, PendingKnown;
    if st.pending != [] {
      RoundKeepsInv(s, m, st);
      RoundProgress(s, m, st);
      var step := Round(s, m, st);
      if step.Next? && Poll(check, n).None? {
        RunKeepsInv(s, m, check, n + 1, step.st);
      }
    }
  }

  lemma FinishedIsComplete(s: Setup, st: ExecState)
    requires Inv(s, st) && st.pending == []
    ensures Complete(s, st.results)
  {
    hide Pruned, SelectedOf, Partial, Settled;
  }

  // ---- Sessions: a run, possibly cut, resumed by later runs ----

  /** One call of `execute` on a fresh executor, resuming from given results. */
  ghost function SessionRun(s: Setup, m: int, check: InterruptCheck, r: Results): (ExecState, Exit)
    requires WellFormed(s.graph)
  {
    StartIsKnown(s, r);
    RunFrom(s, m, check, 0, Start(s, KahnOrder(s.graph), map[], r))
  }

  lemma StartIsKnown(s: Setup, r: Results)
    requires WellFormed(s.graph)
    ensures PendingKnown(s, Start(s, KahnOrder(s.graph), map[], r))
    ensures PendingIsRest(s, Start(s, KahnOrder(s.graph), map[], r))
  {
    hide Acyclic, KnownEndpoints, KahnOrder, SelectedOf, NodeMap, UniqueIds;
    RaisesIffCyclic(s.graph);
  }

  lemma StartBase(s: Setup, r: Results)
    requires WellFormed(s.graph)
    ensures BaseInv(s, Start(s, KahnOrder(s.graph), map[], r))
    ensures Start(s, KahnOrder(s.graph), map[], r).results == r
  {
    hide WellFormed, KahnOrder, NodeMap, BranchOf, Rejected;
    StartIsKnown(s, r);
    assert SelectedOf(s, map[]) == map[];
  }

  lemma StartInv(s: Setup, r: Results)
    requires WellFormed(s.graph) && Partial(s, r)
    ensures Inv(s, Start(s, KahnOrder(s.graph), map[], r))
  {
    hide WellFormed, KahnOrder, NodeMap, BranchOf, Pruned, Settled, ExecuteNode, BaseInv;
    StartBase(s, r);
    assert forall x :: x in r ==> PartialAt(s, r, x);
  }

  datatype Session = Session(maxParallel: int, check: InterruptCheck)

  /** Positive batch sizes, and a last session that nothing interrupts. */
  ghost predicate Uncut(sessions: seq<Session>)
  {
    sessions != [] && sessions[|sessions| - 1].check.None? && forall i :: 0 <= i < |sessions| ==> sessions[i].maxParallel >= 1
  }

  /** Each interrupted session hands its results to the next; the last exit is reported. */
  ghost function Chain(s: Setup, sessions: seq<Session>, r: Results): (Results, Exit)
    requires WellFormed(s.graph) && sessions != []
  {
    var (st, exit) := SessionRun(s, sessions[0].maxParallel, sessions[0].check, r);
    if exit.Interrupted? && |sessions| > 1 then Chain(s, sessions[1..], st.results) else (st.results, exit)
  }

  /** A session keeps the given results, and from such as nodes have yielded it leaves such. */
  lemma SessionKeepsYielded(s: Setup, m: int, check: InterruptCheck, r: Results)
    requires WellFormed(s.graph)
    ensures Extends(s, SessionRun(s, m, check, r).0.results, r)
    ensures Yielded(s, r) ==> Yielded(s, SessionRun(s, m, check, r).0.results)
  {
    hide WellFormed, KahnOrder, RunFrom, Start, Yielded, PendingKnown, Extends, BaseInv;
    StartIsKnown(s, r);
    StartBase(s, r);
    RunKeepsBase(s, m, check, 0, Start(s, KahnOrder(s.graph), map[], r));
  }

  lemma SessionKeepsPartial(s: Setup, m: int, check: InterruptCheck, r: Results)
    requires WellFormed(s.graph) && DownstreamBranches(s.graph) && Partial(s, r)
    ensures Partial(s, SessionRun(s, m, check, r).0.results)
    ensures SessionRun(s, m, check, r).1.Finished? ==> Complete(s, SessionRun(s, m, check, r).0.results)
  {
    hide WellFormed, KahnOrder, RunFrom, Start, DownstreamBranches, Partial, Complete, PendingKnown;
    StartIsKnown(s, r);
    StartInv(s, r);
    var st0 := Start(s, KahnOrder(s.graph), map[], r);
    StartBase(s, r);
    RunKeepsBase(s, m, check, 0, st0);
    RunKeepsInv(s, m, check, 0, st0);
    var (st, exit) := RunFrom(s, m, check, 0, st0);
    if exit.Finished? { FinishedIsComplete(s, st); }
  }

  // ---- The one-node-at-a-time run along the topological order ----

  ghost function FoldFrom(s: Setup, todo: seq<string>, r: Results): Results
    requires forall x :: x in todo ==> x in NodeMap(s.graph)
  {
    if todo == [] then r
    else
      var x := todo[0];
      FoldFrom(s, todo[1..], if Unselected(s.graph, SelectedOf(s, r), x) then r else r[x := ExecuteNode(s, x, r)])
  }

  ghost function SequentialResults(s: Setup): Results
    requires WellFormed(s.graph)
  {
    StartIsKnown(s, map[]);
    FoldFrom(s, KahnOrder(s.graph), map[])
  }

  /** Every uncut chain of runs, whatever its batch sizes and cuts, ends with the one-node-at-a-time results. */
  ghost predicate RunsAlike(s: Setup)
    requires WellFormed(s.graph)
  {
    forall sessions :: Uncut(sessions) ==> Chain(s, sessions, map[]) == (SequentialResults(s), Finished)
  }

  ghost predicate FoldInv(s: Setup, done: seq<string>, r: Results)
  {
    Partial(s, r) && (forall x :: x in r ==> x in done)
    && forall x :: x in done ==> x in r || Pruned(s, r, x)
  }

  lemma FoldStep(s: Setup, done: seq<string>, x: string, r: Results)
    requires DownstreamBranches(s.graph) && FoldInv(s, done, r)
    requires x in NodeMap(s.graph) && x !in done && forall a :: Above(s.graph.edges, a, x) ==> a in done
    ensures FoldInv(s, done + [x], if Unselected(s.graph, SelectedOf(s, r), x) then r else r[x := ExecuteNode(s, x, r)])
  {
    hide Above, Unselected, SelectedOf, Partial, ExecuteNode, DownstreamBranches, Pruned, NodeMap;
    SkippedIsPruned(s, r, x);
    if !Unselected(s.graph, SelectedOf(s, r), x) {
      var q := r[x := ExecuteNode(s, x, r)];
      assert CanCommit(s, r, x);
      CommitKeepsPartial(s, r, q);
      forall y | y in done + [x]
        ensures y in q || Pruned(s, q, y)
      {
        if y in done && y !in r { PruningIsFinal(s, r, q, y); }
      }
    }
  }

  lemma NextInOrder(edges: seq<GraphEdge>, ids: set<string>, done: seq<string>, todo: seq<string>)
    requires IsTopological(edges, ids, done + todo) && todo != []
    ensures todo[0] !in done && forall a :: Above(edges, a, todo[0]) ==> a in done
  {
    hide Preds, Above;
    var order := done + todo;
    assert order[|done|] == todo[0] && order[..|done|] == done;
    forall i | 0 <= i < |done|
      ensures done[i] != todo[0]
    {
      assert order[i] == done[i];
    }
    forall a | Above(edges, a, todo[0])
      ensures a in done
    {
      AboveIsEarlier(edges, ids, order, a, |done|);
    }
  }

  lemma {:induction false} FoldKeeps(s: Setup, done: seq<string>, todo: seq<string>, r: Results)
    requires DownstreamBranches(s.graph) && FoldInv(s, done, r)
    requires IsTopological(s.graph.edges, Ids(s.graph), done + todo)
    requires forall x :: x in todo ==> x in NodeMap(s.graph)
    ensures FoldInv(s, done + todo, FoldFrom(s, todo, r))
    decreases |todo|
  {
    hide Preds, Unselected, SelectedOf, FoldInv, ExecuteNode, DownstreamBranches, NodeMap, IsTopological, Above;
    if todo == [] {
      assert done + todo == done;
    } else {
      var x := todo[0];
      assert x in todo;
      NextInOrder(s.graph.edges, Ids(s.graph), done, todo);
      assert done + todo == (done + [x]) + todo[1..];
      FoldStep(s, done, x, r);
      FoldKeeps(s, done + [x], todo[1..],
                if Unselected(s.graph, SelectedOf(s, r), x) then r else r[x := ExecuteNode(s, x, r)]);
    }
  }

  lemma SequentialIsComplete(s: Setup)
    requires WellFormed(s.graph) && DownstreamBranches(s.graph)
    ensures Complete(s, SequentialResults(s))
  {
    hide Acyclic, KnownEndpoints, UniqueIds, KahnOrder, NodeMap, SelectedOf, Pruned, DownstreamBranches, FoldFrom, PartialAt;
    var order := KahnOrder(s.graph);
    RaisesIffCyclic(s.graph);
    StartIsKnown(s, map[]);
    assert [] + order == order;
    FoldKeeps(s, [], order, map[]);
  }

  // ---- Which nodes run ----

  /** `str()` of a branch value. */
  function TextOf(s: Setup, value: Json): string
  {
    if value.Str? then value.s else if value.Bool? then (if value.b then "True" else "False") else s.render(value)
  }

  /** The output under which a decision names its branch. */
  function BranchOutput(node: GraphNode): Json
  {
    if "branch_output_key" in node.parameters then node.parameters["branch_output_key"] else Str("branch")
  }

  /** The decision of the branch completed with another label than the branch's. */
  predicate ChoseAnother(s: Setup, r: Results, cb: ConditionalBranch)
  {
    && cb.decision in r && r[cb.decision].status == Completed
    && cb.decision in NodeMap(s.graph) && NodeMap(s.graph)[cb.decision].kind == Decision
    && var key := BranchOutput(NodeMap(s.graph)[cb.decision]);
       && key.Str? && key.s in r[cb.decision].outputs && r[cb.decision].outputs[key.s] != Null
       && TextOf(s, r[cb.decision].outputs[key.s]) != cb.branchLabel
  }

  lemma RejectsIffOther(s: Setup, r: Results, cb: ConditionalBranch)
    ensures RejectedBy(s, r, cb) <==> ChoseAnother(s, r, cb)
  {
    hide NodeMap;
  }

  /** In a finished run exactly those nodes have results that no decision, other than their own or one downstream of them, has
      left aside by choosing another branch. */
  lemma RunsWhatIsChosen(s: Setup, sessions: seq<Session>, x: string)
    requires WellFormed(s.graph) && DownstreamBranches(s.graph) && sessions != [] && Chain(s, sessions, map[]).1.Finished?
    requires x in Ids(s.graph)
    ensures var r := Chain(s, sessions, map[]).0;
            x in r <==> !exists cb :: cb in s.graph.branches && x in cb.targets && cb.decision != x
                                      && !Above(s.graph.edges, x, cb.decision) && ChoseAnother(s, r, cb)
  {
    hide WellFormed, DownstreamBranches, Chain, SequentialResults, RejectedBy, ChoseAnother, CanSelect, Above, ExecuteNode, Settled, NodeMap, Ids;
    NothingIsPartial(s);
    FinishedChainsAgree(s, sessions, map[]);
    SequentialIsComplete(s);
    var r := SequentialResults(s);
    forall cb
      ensures RejectedBy(s, r, cb) <==> ChoseAnother(s, r, cb)
      ensures ChoseAnother(s, r, cb) ==> CanSelect(s.graph, cb.decision)
    {
      RejectsIffOther(s, r, cb);
      OnlyDecisionsChoose(s, r, cb);
    }
    assert x in r ==> PartialAt(s, r, x);
  }

  lemma OnlyDecisionsChoose(s: Setup, r: Results, cb: ConditionalBranch)
    ensures ChoseAnother(s, r, cb) ==> CanSelect(s.graph, cb.decision)
  {
    hide NodeMap;
  }

  // ---- Every run that returns agrees with every other ----

  /** Whatever the batch sizes, cuts and resumes: a chain of runs that finishes returns the
      results of the one-node-at-a-time run over the topological order. */
  lemma {:induction false} FinishedChainsAgree(s: Setup, sessions: seq<Session>, r: Results)
    requires WellFormed(s.graph) && DownstreamBranches(s.graph) && Partial(s, r) && sessions != []
    ensures Chain(s, sessions, r).1.Finished? ==> Chain(s, sessions, r).0 == SequentialResults(s)
  {
    hide WellFormed, DownstreamBranches, Partial, Complete, SessionRun, SequentialResults;
    var (st, exit) := SessionRun(s, sessions[0].maxParallel, sessions[0].check, r);
    SessionKeepsPartial(s, sessions[0].maxParallel, sessions[0].check, r);
    if exit.Finished? {
      SequentialIsComplete(s);
      CompleteUnique(s, st.results, SequentialResults(s));
    } else if exit.Interrupted? && |sessions| > 1 {
      FinishedChainsAgree(s, sessions[1..], st.results);
    }
  }
}
