/** Why targets that can be rejected have to be downstream of their decisions: when they have no successors, all batch
    sizes agree exactly then. Otherwise there are priorities and node behaviours under which two of them disagree. */
module ExecutorLimits {
  import opened ExecutorLiveness
  import opened ExecutorRuns
  import opened ExecutorSafety
  import opened ExecutorSpec
  import opened ExecutorTheory
  import opened Graph
  import opened JsonValues
  import opened Kahn
  import opened KahnTheory
  import opened Nodes
  import opened Order
  import opened Scope
  import opened Wrappers

  // ---- The same graph with other priorities ----

  ghost predicate SameButPriorities(h: ActionGraph, g: ActionGraph)
  {
    && h.edges == g.edges && h.branches == g.branches && |h.nodes| == |g.nodes|
    && forall i :: 0 <= i < |g.nodes| ==> h.nodes[i] == g.nodes[i].(priority := h.nodes[i].priority)
  }

  lemma {:induction false} SameNodeMap(h: seq<GraphNode>, g: seq<GraphNode>)
    requires |h| == |g| && forall i :: 0 <= i < |g| ==> h[i] == g[i].(priority := h[i].priority)
    ensures NodeMapOf(h).Keys == NodeMapOf(g).Keys
    ensures forall x :: x in NodeMapOf(g) ==> NodeMapOf(h)[x] == NodeMapOf(g)[x].(priority := NodeMapOf(h)[x].priority)
    decreases |g|
  {
    if |g| > 0 { SameNodeMap(h[..|h| - 1], g[..|g| - 1]); }
  }

  lemma SameStructure(h: ActionGraph, g: ActionGraph)
    requires SameButPriorities(h, g)
    ensures NodeIds(h.nodes) == NodeIds(g.nodes) && Ids(h) == Ids(g) && NodeMap(h).Keys == NodeMap(g).Keys
    ensures forall x :: x in NodeMap(g) ==> NodeMap(h)[x] == NodeMap(g)[x].(priority := NodeMap(h)[x].priority)
    ensures forall x :: CanSelect(h, x) <==> CanSelect(g, x)
    ensures forall x :: CanSelect(g, x) ==> BranchKey(NodeMap(h)[x]) == BranchKey(NodeMap(g)[x])
    ensures WellFormed(h) <==> WellFormed(g)
  {
    hide NodeMapOf, IsCycle, Distinct;
    SameNodeMap(h.nodes, g.nodes);
    assert NodeIds(h.nodes) == NodeIds(g.nodes);
  }

  lemma SameBranches(h: ActionGraph, g: ActionGraph)
    requires SameButPriorities(h, g)
    ensures forall cb, x :: Rejectable(h, cb, x) <==> Rejectable(g, cb, x)
    ensures LeafTargets(h) <==> LeafTargets(g)
    ensures DownstreamBranches(h) <==> DownstreamBranches(g)
  {
    hide CanSelect, Above, NodeMap, Ids, Succs, WellFormed;
    SameStructure(h, g);
  }

  /** The graph with the given nodes before all others. */
  function WithFirst(g: ActionGraph, first: set<string>): (h: ActionGraph)
  {
    g.(nodes := seq(|g.nodes|, i requires 0 <= i < |g.nodes| => g.nodes[i].(priority := if g.nodes[i].id in first then 0 else 1)))
  }

  lemma WithFirstIsSame(g: ActionGraph, first: set<string>)
    ensures SameButPriorities(WithFirst(g, first), g)
  {
  }

  lemma FirstHasPriority(g: ActionGraph, first: set<string>, x: string)
    requires x in Ids(g)
    ensures x in Priorities(WithFirst(g, first)) && Priorities(WithFirst(g, first))[x] == if x in first then 0 else 1
  {
    hide NodeMapOf;
    var h := WithFirst(g, first);
    WithFirstIsSame(g, first);
    SameStructure(h, g);
    assert NodeMap(h)[x] in h.nodes;
  }

  // ---- One decision that rejects all its targets, and nodes that do nothing else ----

  ghost function SoleOutput(g: ActionGraph, d: string, x: string): NodeOutput
  {
    if x == d then ContraryOutput(g, d) else NodeOutput(map[], map[], Completed, None, None)
  }

  ghost function SoleSetup(g: ActionGraph, d: string, first: set<string>): Setup
  {
    Setup(WithFirst(g, first), map x | x in Ids(g) :: (v: Values, a: nat) => Returned(SoleOutput(g, d, x)), map[], 0, 0,
          Prompts((v: Values, p: Values) => Null, (v: Values) => Null, (v: Values) => Null), (j: Json) => "")
  }

  lemma SoleExecutes(g: ActionGraph, d: string, first: set<string>, x: string, r: Results)
    requires CanSelect(g, d) && x in Ids(g)
    ensures x in NodeMap(WithFirst(g, first)) && ExecuteNode(SoleSetup(g, d, first), x, r) == SoleOutput(g, d, x)
    ensures BranchOf(SoleSetup(g, d, first), x, SoleOutput(g, d, x)) == if x == d then Some(FreshLabel(g.branches)) else None
  {
    hide GatherInputs, NodeMapOf, BranchKey, FreshLabel, CanSelect, WithFirst;
    var s := SoleSetup(g, d, first);
    WithFirstIsSame(g, first);
    SameStructure(WithFirst(g, first), g);
    assert Attempt(s, s.registry[x], GatherInputs(s, x, r), 0) == SoleOutput(g, d, x);
  }

  ghost function SoleResults(g: ActionGraph, d: string, done: set<string>): (r: Results)
    ensures r.Keys == done
    ensures done == {} ==> r == map[]
  {
    map x | x in done :: SoleOutput(g, d, x)
  }

  /** The selected branches once some nodes have their results. */
  ghost function Chosen(g: ActionGraph, d: string, done: set<string>): map<string, string>
  {
    if d in done then map[d := FreshLabel(g.branches)] else map[]
  }

  lemma SoleSelected(g: ActionGraph, d: string, first: set<string>, done: set<string>)
    requires CanSelect(g, d) && done <= Ids(g)
    ensures SelectedOf(SoleSetup(g, d, first), SoleResults(g, d, done)) == Chosen(g, d, done)
  {
    hide ExecuteNode, NodeMap, BranchOf, SoleOutput, SoleSetup, FreshLabel, WithFirst, CanSelect, Ids;
    forall x | x in done
      ensures BranchOf(SoleSetup(g, d, first), x, SoleOutput(g, d, x)) == if x == d then Some(FreshLabel(g.branches)) else None
    {
      SoleExecutes(g, d, first, x, map[]);
    }
  }

  lemma SoleBatch(g: ActionGraph, d: string, first: set<string>, batch: seq<string>, r: Results)
    requires CanSelect(g, d) && forall x :: x in batch ==> x in Ids(g)
    ensures forall x :: x in batch ==> x in NodeMap(WithFirst(g, first))
    ensures BatchResults(SoleSetup(g, d, first), batch, r) == SoleResults(g, d, ToSet(batch))
    ensures SelectedOf(SoleSetup(g, d, first), BatchResults(SoleSetup(g, d, first), batch, r)) == Chosen(g, d, ToSet(batch))
  {
    hide ExecuteNode, NodeMap, SelectedOf, SoleOutput, SoleSetup, FreshLabel, WithFirst, CanSelect, Ids;
    SoleGraph(g, d, first);
    forall x | x in batch
      ensures x in NodeMap(WithFirst(g, first)) && ExecuteNode(SoleSetup(g, d, first), x, r) == SoleOutput(g, d, x)
    {
      SoleExecutes(g, d, first, x, r);
    }
    SoleSelected(g, d, first, ToSet(batch));
  }

  lemma SoleGraph(g: ActionGraph, d: string, first: set<string>)
    ensures SoleSetup(g, d, first).graph == WithFirst(g, first)
    ensures WithFirst(g, first).edges == g.edges && WithFirst(g, first).branches == g.branches
  {
  }

  /** A state of such a run. */
  ghost predicate Sole(g: ActionGraph, d: string, st: ExecState)
  {
    && Distinct(st.pending) && (forall x :: x in st.pending <==> x in Ids(g) && x !in st.completed)
    && st.results.Keys <= st.completed
    && st.selected == Chosen(g, d, st.results.Keys)
    && (d !in st.results ==> st.completed == st.results.Keys)
  }

  ghost function ReadyOf(g: ActionGraph, st: ExecState): seq<string>
  {
    ReadyAmong(g, st.selected, PredsSatisfied(g.edges, st.pending, st.completed))
  }

  lemma SamePending(g: ActionGraph, d: string, first: set<string>, st: ExecState)
    requires Sole(g, d, st)
    ensures PendingKnown(SoleSetup(g, d, first), st) && PendingIsRest(SoleSetup(g, d, first), st)
    ensures ReadyOf(WithFirst(g, first), st) == ReadyOf(g, st) && Skip(WithFirst(g, first), st) == Skip(g, st)
  {
    hide NodeMap, WithFirst, SoleOutput, Ids, CanSelect, PredsSatisfied, ReadyAmong, Without;
    SoleGraph(g, d, first);
    WithFirstIsSame(g, first);
    SameStructure(WithFirst(g, first), g);
    SameReady(WithFirst(g, first), g, st.selected, PredsSatisfied(g.edges, st.pending, st.completed));
    KeysAreIds(g);
  }

  lemma KeysAreIds(g: ActionGraph)
    ensures forall x :: x in NodeMap(g) <==> x in Ids(g)
  {
  }

  lemma {:induction false} SameReady(h: ActionGraph, g: ActionGraph, selected: map<string, string>, satisfied: seq<string>)
    requires h.branches == g.branches
    ensures ReadyAmong(h, selected, satisfied) == ReadyAmong(g, selected, satisfied)
    decreases |satisfied|
  {
    if |satisfied| > 0 { SameReady(h, g, selected, satisfied[1..]); }
  }

  /** One round: what has a result afterwards, and that the shape of the state stays. */
  lemma SoleRound(g: ActionGraph, d: string, first: set<string>, m: int, st: ExecState)
    requires CanSelect(g, d) && Sole(g, d, st) && m >= 1
    ensures PendingKnown(SoleSetup(g, d, first), st)
    ensures var step := Round(SoleSetup(g, d, first), m, st);
            var batch := BatchOf(SoleSetup(g, d, first), m, st);
            && (step.Next? <==> ReadyOf(g, st) != [])
            && (step.Next? ==>
                  && step.st.results == st.results + SoleResults(g, d, ToSet(batch))
                  && step.st.completed == Skip(g, st).completed + ToSet(batch)
                  && step.st.pending == Without(Skip(g, st).pending, ToSet(batch))
                  && step.st.selected == st.selected + Chosen(g, d, ToSet(batch)))
            && (!step.Next? ==> step.st == Skip(g, st))
            && (step.Done? ==> step.st.pending == [])
            && (step.Done? <==> ReadyOf(g, st) == [] && Skip(g, st).pending == [])
  {
    hide NodeMap, WithFirst, SoleOutput, Ids, CanSelect, PredsSatisfied, ReadyAmong, Without, BatchOf, SoleSetup, Chosen,
         Skip, BatchResults, SelectedOf, Distinct;
    var s := SoleSetup(g, d, first);
    SoleGraph(g, d, first);
    SamePending(g, d, first, st);
    var batch := BatchOf(s, m, st);
    SkipKeepsRest(g, st);
    SoleBatch(g, d, first, batch, st.results);
  }

  lemma SkipKeepsRest(g: ActionGraph, st: ExecState)
    ensures Skip(g, st).results == st.results && Skip(g, st).selected == st.selected
  {
  }

  lemma BatchIsReady(g: ActionGraph, d: string, first: set<string>, m: int, st: ExecState)
    requires Sole(g, d, st) && m >= 1
    ensures PendingKnown(SoleSetup(g, d, first), st)
    ensures var batch := BatchOf(SoleSetup(g, d, first), m, st);
            var prio := Priorities(WithFirst(g, first));
            && |batch| == Min(m, |ReadyOf(g, st)|) && Distinct(batch)
            && (forall x :: x in batch ==> x in ReadyOf(g, st))
            && (forall x :: x in ReadyOf(g, st) ==> x in prio)
            && (forall x, y :: x in batch && y in ReadyOf(g, st) && y !in batch ==> Before(prio, x, y))
  {
    hide NodeMap, WithFirst, SoleSetup, Ids, Chosen, PredsSatisfied, ReadyAmong, BatchOf, Before, Distinct, Priorities;
    SoleGraph(g, d, first);
    SamePending(g, d, first, st);
    BatchTakesLeast(SoleSetup(g, d, first), m, st);
    BatchDistinct(SoleSetup(g, d, first), m, st);
  }

  /** A ready node is pending, has its predecessors completed and is not rejected. */
  lemma ReadyMeans(g: ActionGraph, st: ExecState, x: string)
    ensures x in ReadyOf(g, st) <==> x in st.pending && PredsIn(g.edges, x, st.completed) && !Unselected(g, st.selected, x)
    ensures x in Skip(g, st).completed <==>
            x in st.completed || (x in st.pending && PredsIn(g.edges, x, st.completed) && Unselected(g, st.selected, x))
    ensures x in Skip(g, st).pending <==>
            x in st.pending && !(PredsIn(g.edges, x, st.completed) && Unselected(g, st.selected, x))
  {
    hide PredsSatisfied, ReadyAmong, PredsIn, Unselected, Without;
  }

  lemma NothingRejected(g: ActionGraph, x: string)
    ensures !Unselected(g, map[], x)
  {
  }

  lemma SkipStaysSole(g: ActionGraph, d: string, st: ExecState)
    requires Sole(g, d, st)
    ensures Sole(g, d, Skip(g, st))
  {
    hide Ids, PredsSatisfied, ReadyAmong, PredsIn, Unselected, Without, FreshLabel;
    SkipKeepsRest(g, st);
    var satisfied := PredsSatisfied(g.edges, st.pending, st.completed);
    WithoutDistinct(st.pending, ToSet(satisfied) - ToSet(ReadyAmong(g, st.selected, satisfied)));
    forall x
      ensures x in Skip(g, st).pending <==> x in Ids(g) && x !in Skip(g, st).completed
      ensures x in st.completed ==> x in Skip(g, st).completed
      ensures d !in st.results ==> (x in Skip(g, st).completed <==> x in st.completed)
    {
      ReadyMeans(g, st, x);
      NothingRejected(g, x);
    }
  }

  lemma CommitStaysSole(g: ActionGraph, d: string, rest: ExecState, batch: seq<string>, q: ExecState)
    requires Sole(g, d, rest) && forall x :: x in batch ==> x in rest.pending
    requires q.results.Keys == rest.results.Keys + ToSet(batch) && q.completed == rest.completed + ToSet(batch)
    requires q.pending == Without(rest.pending, ToSet(batch)) && q.selected == rest.selected + Chosen(g, d, ToSet(batch))
    ensures Sole(g, d, q)
  {
    hide Ids, Without, FreshLabel;
    WithoutDistinct(rest.pending, ToSet(batch));
  }

  lemma SoleStays(g: ActionGraph, d: string, first: set<string>, m: int, st: ExecState)
    requires CanSelect(g, d) && Sole(g, d, st) && m >= 1
    ensures PendingKnown(SoleSetup(g, d, first), st) && Sole(g, d, Round(SoleSetup(g, d, first), m, st).st)
  {
    hide NodeMap, WithFirst, SoleSetup, Ids, PredsSatisfied, ReadyOf, BatchOf, Round, SoleOutput, CanSelect, Before, PredsIn,
         Unselected, Without, Priorities, Sole, Skip, Chosen, Distinct;
    SoleRound(g, d, first, m, st);
    SkipStaysSole(g, d, st);
    if ReadyOf(g, st) != [] {
      BatchIsReady(g, d, first, m, st);
      SkipKeepsRest(g, st);
      var batch := BatchOf(SoleSetup(g, d, first), m, st);
      forall x | x in batch
        ensures x in Skip(g, st).pending
      {
        ReadyMeans(g, st, x);
      }
      CommitStaysSole(g, d, Skip(g, st), batch, Round(SoleSetup(g, d, first), m, st).st);
    }
  }

  // ---- Batches of one, with a node and everything above it first ----

  ghost function Up(g: ActionGraph, c: string): (up: set<string>)
    ensures forall x :: x in up <==> x in Ids(g) && (x == c || Above(g.edges, x, c))
  {
    set x | x in Ids(g) && (x == c || Above(g.edges, x, c))
  }

  lemma PredOfUp(g: ActionGraph, c: string, x: string, p: string)
    requires KnownEndpoints(g) && x in Up(g, c) && p in Preds(g.edges, x)
    ensures p in Up(g, c)
  {
    hide DependsOn, Ids;
    assert GraphEdge(p, x) in g.edges;
    PredIsAbove(g.edges, p, x);
    if x != c {
      var q :| q in Preds(g.edges, c) && DependsOn(g.edges, {x}, q);
      SeedDepends(g.edges, {p}, p);
      SuccessorDepends(g.edges, {p}, p, x);
      DependenceCarries(g.edges, {p}, x, q);
    }
  }

  /** As long as c and the decision have not run, something in c's part of the graph is ready. */
  lemma UpIsReady(g: ActionGraph, d: string, c: string, st: ExecState) returns (x: string)
    requires WellFormed(g) && Sole(g, d, st) && d !in st.results && c in Ids(g) && c !in st.results
    ensures x in Up(g, c) && x in ReadyOf(g, st)
  {
    hide Acyclic, UniqueIds, Preds, Above, KahnOrder, PredsSatisfied, ReadyAmong, Ids, Unselected;
    var order := KahnOrder(g);
    RaisesIffCyclic(g);
    var n :| 0 <= n < |order| && order[n] == c;
    var wanted := Up(g, c) - st.completed;
    var i := EarliestIn(order, wanted, n);
    x := order[i];
    forall p | p in Preds(g.edges, x)
      ensures p in st.completed
    {
      PredOfUp(g, c, x, p);
      assert p in order[..i];
      var j :| 0 <= j < i && order[j] == p;
      assert order[j] !in wanted;
    }
    ReadyMeans(g, st, x);
    NothingRejected(g, x);
  }

  lemma OneLeast(prio: map<string, int>, batch: seq<string>, ready: seq<string>, y: string)
    requires |batch| == Min(1, |ready|) && y in ready && y in prio && prio[y] == 0
    requires forall x :: x in batch ==> x in ready && x in prio
    requires forall x :: x in batch && y !in batch ==> Before(prio, x, y)
    ensures batch == [batch[0]] && prio[batch[0]] <= 0
  {
    assert batch[0] in batch;
  }

  /** Then the batch of one is in that part. */
  lemma UpRuns(g: ActionGraph, d: string, c: string, st: ExecState) returns (x: string)
    requires WellFormed(g) && Sole(g, d, st) && d !in st.results && c in Ids(g) && c !in st.results
    ensures PendingKnown(SoleSetup(g, d, Up(g, c)), st)
    ensures x in Up(g, c) && BatchOf(SoleSetup(g, d, Up(g, c)), 1, st) == [x] && ReadyOf(g, st) != []
  {
    hide WellFormed, Sole, ReadyOf, Ids, Above, SoleSetup, BatchOf, Priorities, WithFirst, Before, Distinct;
    var y := UpIsReady(g, d, c, st);
    var prio := Priorities(WithFirst(g, Up(g, c)));
    BatchIsReady(g, d, Up(g, c), 1, st);
    FirstHasPriority(g, Up(g, c), y);
    var batch := BatchOf(SoleSetup(g, d, Up(g, c)), 1, st);
    OneLeast(prio, batch, ReadyOf(g, st), y);
    x := batch[0];
    assert x in batch;
    ReadyIsKnown(g, d, st, x);
    FirstHasPriority(g, Up(g, c), x);
  }

  lemma ReadyIsKnown(g: ActionGraph, d: string, st: ExecState, x: string)
    requires Sole(g, d, st) && x in ReadyOf(g, st)
    ensures x in Ids(g) && x !in st.results
  {
    hide Ids, PredsSatisfied, ReadyAmong;
    ReadyMeans(g, st, x);
  }

  /** Until c has run, only its part of the graph has, and not the decision. */
  ghost predicate Focused(g: ActionGraph, d: string, c: string, st: ExecState)
  {
    Sole(g, d, st) && (c !in st.results ==> st.results.Keys <= Up(g, c) && d !in st.results)
  }

  lemma StaysFocused(g: ActionGraph, d: string, c: string, st: ExecState)
    requires WellFormed(g) && CanSelect(g, d) && c in Ids(g) && (c == d || d !in Up(g, c)) && Focused(g, d, c, st)
    ensures PendingKnown(SoleSetup(g, d, Up(g, c)), st) && Focused(g, d, c, Round(SoleSetup(g, d, Up(g, c)), 1, st).st)
  {
    hide WellFormed, CanSelect, Sole, Up, SoleSetup, BatchOf, ReadyOf, Round, Ids, Skip, Chosen;
    SoleStays(g, d, Up(g, c), 1, st);
    SoleRound(g, d, Up(g, c), 1, st);
    SkipKeepsRest(g, st);
    if c !in st.results {
      var x := UpRuns(g, d, c, st);
    }
  }

  /** With the decision's part first, a target outside it never gets a result. */
  ghost predicate Barred(g: ActionGraph, d: string, t: string, st: ExecState)
  {
    Focused(g, d, d, st) && t !in st.results
  }

  lemma RejectedOnceChosen(g: ActionGraph, cb: ConditionalBranch, t: string)
    requires Rejectable(g, cb, t)
    ensures Unselected(g, map[cb.decision := FreshLabel(g.branches)], t)
  {
    hide FreshLabel, Ids, CanSelect;
  }

  lemma StaysBarred(g: ActionGraph, cb: ConditionalBranch, t: string, st: ExecState)
    requires WellFormed(g) && Rejectable(g, cb, t) && t !in Up(g, cb.decision) && Barred(g, cb.decision, t, st)
    ensures cb.decision in Ids(g) && PendingKnown(SoleSetup(g, cb.decision, Up(g, cb.decision)), st)
    ensures Barred(g, cb.decision, t, Round(SoleSetup(g, cb.decision, Up(g, cb.decision)), 1, st).st)
  {
    hide WellFormed, CanSelect, Up, SoleSetup, BatchOf, Round, Ids, Skip, PredsSatisfied, ReadyAmong, FreshLabel, Unselected, PredsIn;
    var d := cb.decision;
    DecisionIsKnown(g, cb, t);
    StaysFocused(g, d, d, st);
    SoleRound(g, d, Up(g, d), 1, st);
    SkipKeepsRest(g, st);
    if d !in st.results {
      var x := UpRuns(g, d, d, st);
    } else {
      BatchIsReady(g, d, Up(g, d), 1, st);
      RejectedOnceChosen(g, cb, t);
      ReadyMeans(g, st, t);
    }
  }

  // ---- One batch of everything ready does not look at priorities ----

  ghost predicate Alike(p: ExecState, q: ExecState)
  {
    p.results == q.results && p.completed == q.completed && p.selected == q.selected && forall x :: x in p.pending <==> x in q.pending
  }

  lemma AlikeReady(g: ActionGraph, p: ExecState, q: ExecState)
    requires Alike(p, q)
    ensures Alike(Skip(g, p), Skip(g, q)) && forall x :: x in ReadyOf(g, p) <==> x in ReadyOf(g, q)
  {
    hide ReadyOf, PredsIn, Unselected, Skip;
    SkipKeepsRest(g, p);
    SkipKeepsRest(g, q);
    forall x
      ensures x in ReadyOf(g, p) <==> x in ReadyOf(g, q)
      ensures x in Skip(g, p).pending <==> x in Skip(g, q).pending
      ensures x in Skip(g, p).completed <==> x in Skip(g, q).completed
    {
      ReadyMeans(g, p, x);
      ReadyMeans(g, q, x);
    }
  }

  /** A batch that may hold all nodes holds all ready ones. */
  lemma WholeBatch(g: ActionGraph, d: string, first: set<string>, m: int, st: ExecState)
    requires Sole(g, d, st) && m >= 1 && m >= |Ids(g)|
    ensures PendingKnown(SoleSetup(g, d, first), st)
    ensures forall x :: x in BatchOf(SoleSetup(g, d, first), m, st) <==> x in ReadyOf(g, st)
  {
    hide ReadyOf, SoleSetup, BatchOf, WithFirst, Priorities, Before, Ids, Distinct;
    BatchIsReady(g, d, first, m, st);
    var batch, ready := BatchOf(SoleSetup(g, d, first), m, st), ReadyOf(g, st);
    forall x | x in ready
      ensures x in Ids(g)
    {
      ReadyIsKnown(g, d, st, x);
    }
    ReadyIsDistinct(g, d, st);
    DistinctSize(batch);
    DistinctSize(ready);
    SubsetSize(ToSet(ready), Ids(g));
    SubsetSize(ToSet(batch), ToSet(ready));
    assert forall x :: x in batch <==> x in ToSet(batch);
  }

  lemma ReadyIsDistinct(g: ActionGraph, d: string, st: ExecState)
    requires Sole(g, d, st)
    ensures Distinct(ReadyOf(g, st))
  {
    hide PredsSatisfied, ReadyAmong, Ids, Chosen;
    SatisfiedDistinct(g.edges, st.pending, st.completed);
    ReadyDistinct(g, st.selected, PredsSatisfied(g.edges, st.pending, st.completed));
  }

  lemma AlikeRound(g: ActionGraph, d: string, a: set<string>, b: set<string>, m: int, p: ExecState, q: ExecState)
    requires CanSelect(g, d) && Sole(g, d, p) && Sole(g, d, q) && Alike(p, q) && m >= 1 && m >= |Ids(g)|
    ensures PendingKnown(SoleSetup(g, d, a), p) && PendingKnown(SoleSetup(g, d, b), q)
    ensures var left, right := Round(SoleSetup(g, d, a), m, p), Round(SoleSetup(g, d, b), m, q);
            (left.Next? <==> right.Next?) && (left.Done? <==> right.Done?) && Alike(left.st, right.st)
  {
    hide CanSelect, Sole, ReadyOf, SoleSetup, BatchOf, Round, Ids, Skip, Chosen, SoleResults, Without;
    SoleRound(g, d, a, m, p);
    SoleRound(g, d, b, m, q);
    AlikeReady(g, p, q);
    WholeBatch(g, d, a, m, p);
    WholeBatch(g, d, b, m, q);
    var left, right := BatchOf(SoleSetup(g, d, a), m, p), BatchOf(SoleSetup(g, d, b), m, q);
    assert ToSet(left) == ToSet(right);
    SameEmptiness(ReadyOf(g, p), ReadyOf(g, q));
    SameEmptiness(Skip(g, p).pending, Skip(g, q).pending);
  }

  lemma SameEmptiness(a: seq<string>, b: seq<string>)
    requires forall x :: x in a <==> x in b
    ensures a == [] <==> b == []
  {
    if a != [] { assert a[0] in a; }
    if b != [] { assert b[0] in b; }
  }

  lemma {:induction false} AlikeRuns(g: ActionGraph, d: string, a: set<string>, b: set<string>, m: int, n: nat, p: ExecState, q: ExecState)
    requires CanSelect(g, d) && Sole(g, d, p) && Sole(g, d, q) && Alike(p, q) && m >= 1 && m >= |Ids(g)|
    ensures PendingKnown(SoleSetup(g, d, a), p) && PendingKnown(SoleSetup(g, d, b), q)
    ensures RunFrom(SoleSetup(g, d, a), m, None, n, p).0.results == RunFrom(SoleSetup(g, d, b), m, None, n, q).0.results
    decreases |p.pending|
  {
    hide CanSelect, Sole, SoleSetup, Round, Ids, PendingKnown;
    AlikeRound(g, d, a, b, m, p, q);
    SameEmptiness(p.pending, q.pending);
    if p.pending != [] {
      RoundProgress(SoleSetup(g, d, a), m, p);
      RoundProgress(SoleSetup(g, d, b), m, q);
      SoleStays(g, d, a, m, p);
      SoleStays(g, d, b, m, q);
      var left, right := Round(SoleSetup(g, d, a), m, p), Round(SoleSetup(g, d, b), m, q);
      if left.Next? { AlikeRuns(g, d, a, b, m, n + 1, left.st, right.st); }
    }
  }

  // ---- Whole runs ----

  /** A session that starts from results of such a run. */
  lemma StartIsSole(g: ActionGraph, d: string, first: set<string>, done: set<string>)
    requires WellFormed(g) && CanSelect(g, d) && done <= Ids(g)
    ensures WellFormed(SoleSetup(g, d, first).graph)
    ensures var st := Start(SoleSetup(g, d, first), KahnOrder(SoleSetup(g, d, first).graph), map[], SoleResults(g, d, done));
            Sole(g, d, st) && st.results == SoleResults(g, d, done) && st.completed == done && PendingKnown(SoleSetup(g, d, first), st)
  {
    hide WellFormed, KahnOrder, NodeMap, Ids, TraceInv, CanSelect, WithFirst, SoleOutput, SelectedOf;
    SoleGraph(g, d, first);
    WithFirstIsSame(g, first);
    SameStructure(WithFirst(g, first), g);
    var s := SoleSetup(g, d, first);
    var r := SoleResults(g, d, done);
    SoleSelected(g, d, first, done);
    StartIsKnown(s, r);
    StartTrace(s, r);
    TracePendingDistinct(s, r.Keys, Start(s, KahnOrder(s.graph), map[], r));
  }

  lemma {:induction false} RunStaysFocused(g: ActionGraph, d: string, c: string, n: nat, st: ExecState)
    requires WellFormed(g) && CanSelect(g, d) && c in Ids(g) && (c == d || d !in Up(g, c)) && Focused(g, d, c, st)
    ensures PendingKnown(SoleSetup(g, d, Up(g, c)), st)
    ensures var (q, exit) := RunFrom(SoleSetup(g, d, Up(g, c)), 1, None, n, st);
            Focused(g, d, c, q) && (exit.Finished? ==> q.pending == [])
    decreases |st.pending|
  {
    hide WellFormed, CanSelect, SoleSetup, Round, Ids, PendingKnown, Focused, Up;
    var s := SoleSetup(g, d, Up(g, c));
    StaysFocused(g, d, c, st);
    FocusedIsSole(g, d, c, st);
    SoleRound(g, d, Up(g, c), 1, st);
    if st.pending != [] {
      RoundProgress(s, 1, st);
      var step := Round(s, 1, st);
      if step.Next? { RunStaysFocused(g, d, c, n + 1, step.st); }
    }
  }

  lemma FocusedIsSole(g: ActionGraph, d: string, c: string, st: ExecState)
    requires Focused(g, d, c, st)
    ensures Sole(g, d, st)
  {
  }

  lemma {:induction false} RunStaysBarred(g: ActionGraph, cb: ConditionalBranch, t: string, n: nat, st: ExecState)
    requires WellFormed(g) && Rejectable(g, cb, t) && t !in Up(g, cb.decision) && Barred(g, cb.decision, t, st)
    ensures PendingKnown(SoleSetup(g, cb.decision, Up(g, cb.decision)), st)
    ensures t !in RunFrom(SoleSetup(g, cb.decision, Up(g, cb.decision)), 1, None, n, st).0.results
    decreases |st.pending|
  {
    hide WellFormed, Rejectable, SoleSetup, Round, Ids, PendingKnown, Focused, Up;
    var s := SoleSetup(g, cb.decision, Up(g, cb.decision));
    StaysBarred(g, cb, t, st);
    if st.pending != [] {
      RoundProgress(s, 1, st);
      var step := Round(s, 1, st);
      if step.Next? { RunStaysBarred(g, cb, t, n + 1, step.st); }
    }
  }

  ghost function ResultsOf(s: Setup, m: int): Results
    requires WellFormed(s.graph)
  {
    SessionRun(s, m, None, map[]).0.results
  }

  /** With the decision's part first, the target is left out. */
  lemma TargetLeftOut(g: ActionGraph, cb: ConditionalBranch, t: string)
    requires WellFormed(g) && Rejectable(g, cb, t)
    ensures WellFormed(SoleSetup(g, cb.decision, Up(g, cb.decision)).graph)
    ensures t !in ResultsOf(SoleSetup(g, cb.decision, Up(g, cb.decision)), 1)
  {
    hide WellFormed, SoleSetup, KahnOrder, Above, PendingKnown, RunFrom, CanSelect, Start, Sole, Ids;
    var d := cb.decision;
    StartIsSole(g, d, Up(g, d), {});
    var st := Start(SoleSetup(g, d, Up(g, d)), KahnOrder(SoleSetup(g, d, Up(g, d)).graph), map[], map[]);
    RunStaysBarred(g, cb, t, 0, st);
  }

  /** With the target's part first, the target runs. */
  lemma RunFirst(g: ActionGraph, cb: ConditionalBranch, t: string)
    requires WellFormed(g) && LeafTargets(g) && Rejectable(g, cb, t) && !Above(g.edges, cb.decision, t)
    ensures WellFormed(SoleSetup(g, cb.decision, Up(g, t)).graph)
    ensures t in ResultsOf(SoleSetup(g, cb.decision, Up(g, t)), 1)
  {
    hide WellFormed, SoleSetup, KahnOrder, Above, PendingKnown, RunFrom, CanSelect, Start, Ids, LeafTargets;
    var d := cb.decision;
    StartIsSole(g, d, Up(g, t), {});
    var st := Start(SoleSetup(g, d, Up(g, t)), KahnOrder(SoleSetup(g, d, Up(g, t)).graph), map[], map[]);
    RunStaysFocused(g, d, t, 0, st);
    Finishes(g, d, Up(g, t), 1);
  }

  lemma Finishes(g: ActionGraph, d: string, first: set<string>, m: int)
    requires WellFormed(g) && LeafTargets(g) && m >= 1
    ensures WellFormed(SoleSetup(g, d, first).graph)
    ensures SessionRun(SoleSetup(g, d, first), m, None, map[]).1.Finished?
  {
    hide WellFormed, LeafTargets, WithFirst, SessionRun;
    SoleGraph(g, d, first);
    WithFirstIsSame(g, first);
    SameStructure(WithFirst(g, first), g);
    SameBranches(WithFirst(g, first), g);
    SessionsReturn(SoleSetup(g, d, first), m, None, map[]);
  }

  lemma BatchesOfAll(g: ActionGraph, d: string, a: set<string>, b: set<string>, m: int)
    requires WellFormed(g) && CanSelect(g, d) && m >= 1 && m >= |Ids(g)|
    ensures WellFormed(SoleSetup(g, d, a).graph) && WellFormed(SoleSetup(g, d, b).graph)
    ensures ResultsOf(SoleSetup(g, d, a), m) == ResultsOf(SoleSetup(g, d, b), m)
  {
    hide WellFormed, SoleSetup, KahnOrder, PendingKnown, RunFrom, CanSelect, Start, Ids;
    StartIsSole(g, d, a, {});
    StartIsSole(g, d, b, {});
    var p := Start(SoleSetup(g, d, a), KahnOrder(SoleSetup(g, d, a).graph), map[], map[]);
    var q := Start(SoleSetup(g, d, b), KahnOrder(SoleSetup(g, d, b).graph), map[], map[]);
    AlikeStarts(g, d, p, q);
    AlikeRuns(g, d, a, b, m, 0, p, q);
  }

  lemma AlikeStarts(g: ActionGraph, d: string, p: ExecState, q: ExecState)
    requires Sole(g, d, p) && Sole(g, d, q) && p.results == q.results && p.completed == q.completed
    ensures Alike(p, q)
  {
    hide Ids, Distinct, Chosen;
  }

  /** Some target that its decision can reject is not downstream of it: then with some priorities and node behaviours
      batches of one and one batch of everything both finish, with different results. */
  lemma BatchSizesDisagree(g: ActionGraph) returns (s: Setup, m: int)
    requires WellFormed(g) && LeafTargets(g) && !DownstreamBranches(g)
    ensures SameButPriorities(s.graph, g) && WellFormed(s.graph) && m >= 1
    ensures SessionRun(s, 1, None, map[]).1.Finished? && SessionRun(s, m, None, map[]).1.Finished?
    ensures ResultsOf(s, 1) != ResultsOf(s, m)
  {
    hide WellFormed, LeafTargets, Above, CanSelect, SoleSetup, ResultsOf, SessionRun, SameButPriorities, Up, Ids, WithFirst;
    var cb, t :| Rejectable(g, cb, t) && !Above(g.edges, cb.decision, t);
    var d := cb.decision;
    m := |Ids(g)|;
    assert t in Ids(g);
    TargetLeftOut(g, cb, t);
    RunFirst(g, cb, t);
    BatchesOfAll(g, d, Up(g, d), Up(g, t), m);
    var first := if t in ResultsOf(SoleSetup(g, d, Up(g, d)), m) then Up(g, d) else Up(g, t);
    s := SoleSetup(g, d, first);
    Finishes(g, d, first, 1);
    Finishes(g, d, first, m);
    SoleGraph(g, d, first);
    WithFirstIsSame(g, first);
  }

  // ---- The exact condition ----

  /** All batch sizes give the same results. */
  ghost predicate SizesAgree(s: Setup)
    requires WellFormed(s.graph)
  {
    forall m, n :: m >= 1 && n >= 1 ==> ResultsOf(s, m) == ResultsOf(s, n)
  }

  /** When no target that can be rejected has successors: results do not depend on the batch size, whatever the
      priorities and the nodes, exactly when every such target lies downstream of its decision. */
  lemma AgreementExactly(g: ActionGraph)
    requires WellFormed(g) && LeafTargets(g)
    ensures DownstreamBranches(g) <==> forall s: Setup :: SameButPriorities(s.graph, g) ==> WellFormed(s.graph) && SizesAgree(s)
  {
    hide WellFormed, LeafTargets, DownstreamBranches, SessionRun, SameButPriorities, SequentialResults, ResultsOf;
    forall s: Setup | SameButPriorities(s.graph, g)
      ensures WellFormed(s.graph) && (DownstreamBranches(g) ==> SizesAgree(s))
    {
      SameStructure(s.graph, g);
      SameBranches(s.graph, g);
      if DownstreamBranches(g) {
        forall m, n | m >= 1 && n >= 1
          ensures ResultsOf(s, m) == ResultsOf(s, n)
        {
          TameResults(s, m);
          TameResults(s, n);
        }
      }
    }
    if !DownstreamBranches(g) {
      var s, m := BatchSizesDisagree(g);
      assert !SizesAgree(s);
    }
  }

  lemma TameResults(s: Setup, m: int)
    requires WellFormed(s.graph) && LeafTargets(s.graph) && DownstreamBranches(s.graph) && m >= 1
    ensures ResultsOf(s, m) == SequentialResults(s)
  {
    hide WellFormed, LeafTargets, DownstreamBranches, SessionRun, SequentialResults;
    var sessions := [Session(m, None)];
    PauseResume(s, sessions);
    SessionsReturn(s, m, None, map[]);
  }
}
