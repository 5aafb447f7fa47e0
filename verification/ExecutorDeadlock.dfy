/** When chains of sessions can raise "Deadlock": on a well-formed graph exactly when some target that its decision
    can reject has successors. */
module ExecutorDeadlock {
  import opened ExecutorLimits
  import opened ExecutorLiveness
  import opened ExecutorRuns
  import opened ExecutorSpec
  import opened ExecutorTheory
  import opened Graph
  import opened Kahn
  import opened Order
  import opened Wrappers

  /** The run is that of the sole decision with its part first, and neither the target nor its successor has run. */
  ghost predicate Held(g: ActionGraph, cb: ConditionalBranch, t: string, u: string, r: Results)
  {
    && r.Keys <= Ids(g) && r == SoleResults(g, cb.decision, r.Keys)
    && (cb.decision !in r ==> r.Keys <= Up(g, cb.decision))
    && t !in r && u !in r
  }

  /** A target with a successor that its decision can overtake. */
  ghost predicate Overtaken(g: ActionGraph, cb: ConditionalBranch, t: string, u: string)
  {
    Rejectable(g, cb, t) && GraphEdge(t, u) in g.edges && u in Ids(g) && t !in Up(g, cb.decision)
  }

  ghost function HeldSetup(g: ActionGraph, cb: ConditionalBranch): Setup
  {
    SoleSetup(g, cb.decision, Up(g, cb.decision))
  }

  lemma HeldStart(g: ActionGraph, cb: ConditionalBranch, t: string, u: string, r: Results)
    requires WellFormed(g) && Overtaken(g, cb, t, u) && Held(g, cb, t, u, r)
    ensures WellFormed(HeldSetup(g, cb).graph)
    ensures var st := Start(HeldSetup(g, cb), KahnOrder(HeldSetup(g, cb).graph), map[], r);
            Barred(g, cb.decision, t, st) && st.results == r && st.completed == r.Keys && PendingKnown(HeldSetup(g, cb), st)
  {
    hide WellFormed, SoleSetup, KahnOrder, Start, Sole, Up, CanSelect, Ids, SoleResults;
    StartIsSole(g, cb.decision, Up(g, cb.decision), r.Keys);
  }

  lemma SoleUnion(g: ActionGraph, d: string, a: set<string>, b: set<string>)
    ensures SoleResults(g, d, a) + SoleResults(g, d, b) == SoleResults(g, d, a + b)
  {
    hide SoleOutput;
  }

  /** The batch holds one node that is not the successor. */
  lemma HeldBatch(g: ActionGraph, cb: ConditionalBranch, t: string, u: string, st: ExecState)
    requires Overtaken(g, cb, t, u) && Sole(g, cb.decision, st) && t !in st.completed && u !in st.completed
    ensures PendingKnown(HeldSetup(g, cb), st) && st.pending != []
    ensures ReadyOf(g, st) != [] ==>
              var batch := BatchOf(HeldSetup(g, cb), 1, st);
              batch != [] && forall x :: x in batch ==> x in Ids(g) && x !in st.results && x != u
  {
    hide SoleSetup, Up, Ids, ReadyOf, Sole, Skip, Before, Priorities, Rejectable, Distinct, BatchOf, WithFirst;
    SuccessorWaits(g, cb, t, u, st);
    BatchIsReady(g, cb.decision, Up(g, cb.decision), 1, st);
    var batch := BatchOf(HeldSetup(g, cb), 1, st);
    forall x | x in batch
      ensures x in Ids(g) && x !in st.results
    {
      ReadyIsKnown(g, cb.decision, st, x);
    }
  }

  /** One batch brings the successor no closer, but some result is new. */
  lemma HeldRound(g: ActionGraph, cb: ConditionalBranch, t: string, u: string, st: ExecState)
    requires WellFormed(g) && Overtaken(g, cb, t, u) && Barred(g, cb.decision, t, st) && Held(g, cb, t, u, st.results)
    requires st.completed == st.results.Keys
    ensures PendingKnown(HeldSetup(g, cb), st) && st.pending != []
    ensures match Round(HeldSetup(g, cb), 1, st)
            case Done(_) => false
            case Raise(_, e) => e == Deadlock
            case Next(q) => Held(g, cb, t, u, q.results) && st.results.Keys < q.results.Keys
  {
    hide WellFormed, SoleSetup, Sole, Up, CanSelect, Ids, BatchOf, ReadyOf, Skip, SoleResults, Round;
    var d, s := cb.decision, HeldSetup(g, cb);
    StaysBarred(g, cb, t, st);
    SoleRound(g, d, Up(g, d), 1, st);
    SuccessorWaits(g, cb, t, u, st);
    HeldBatch(g, cb, t, u, st);
    RaisesDeadlock(s, 1, st);
    var batch := BatchOf(s, 1, st);
    if Round(s, 1, st).Next? {
      SoleUnion(g, d, st.results.Keys, ToSet(batch));
      assert batch[0] in batch && batch[0] in ToSet(batch);
    }
  }

  lemma RaisesDeadlock(s: Setup, m: int, st: ExecState)
    requires m >= 1 && PendingKnown(s, st)
    ensures Round(s, m, st).Raise? ==> Round(s, m, st).error == Deadlock
  {
    hide PredsSatisfied, ReadyAmong, BatchOf, Commit, Skip;
  }

  lemma SuccessorWaits(g: ActionGraph, cb: ConditionalBranch, t: string, u: string, st: ExecState)
    requires Overtaken(g, cb, t, u) && Sole(g, cb.decision, st) && t !in st.completed && u !in st.completed
    ensures u !in ReadyOf(g, st) && Skip(g, st).pending != []
  {
    hide Ids, ReadyOf, Skip, Up, Unselected, Chosen, Distinct, Rejectable;
    assert t in Preds(g.edges, u);
    ReadyMeans(g, st, u);
    assert u in Skip(g, st).pending;
  }

  lemma HeldSession(g: ActionGraph, cb: ConditionalBranch, t: string, u: string, r: Results)
    requires WellFormed(g) && Overtaken(g, cb, t, u) && Held(g, cb, t, u, r)
    ensures WellFormed(HeldSetup(g, cb).graph)
    ensures var (st, exit) := SessionRun(HeldSetup(g, cb), 1, Some(ALWAYS_PAUSE), r);
            exit == Crashed(Deadlock) || (exit == Interrupted(Pause) && Held(g, cb, t, u, st.results) && r.Keys < st.results.Keys)
  {
    hide WellFormed, HeldSetup, KahnOrder, Start, Barred, Held, Overtaken, Round, PendingKnown;
    HeldStart(g, cb, t, u, r);
    HeldRound(g, cb, t, u, Start(HeldSetup(g, cb), KahnOrder(HeldSetup(g, cb).graph), map[], r));
  }

  lemma {:induction false} HeldChain(g: ActionGraph, cb: ConditionalBranch, t: string, u: string, k: nat, r: Results)
    requires WellFormed(g) && Overtaken(g, cb, t, u) && Held(g, cb, t, u, r) && k >= 1 && |r| + k >= |Ids(g)|
    ensures WellFormed(HeldSetup(g, cb).graph)
    ensures Chain(HeldSetup(g, cb), Pauses(1, k), r).1 == Crashed(Deadlock)
    decreases k
  {
    hide WellFormed, HeldSetup, SessionRun, Ids, Up, SoleResults;
    var sessions := Pauses(1, k);
    assert sessions[1..] == Pauses(1, k - 1);
    HeldSession(g, cb, t, u, r);
    var (st, exit) := SessionRun(HeldSetup(g, cb), 1, Some(ALWAYS_PAUSE), r);
    if exit != Crashed(Deadlock) {
      StrictSubsetSize(r.Keys, st.results.Keys);
      StrictSubsetSize(st.results.Keys, Ids(g));
      assert k > 1;
      HeldChain(g, cb, t, u, k - 1, st.results);
    }
  }

  /** With priorities that put the decision's part first, nodes that let the decision reject its target, batches of
      one and a pause after every batch, the chain ends in "Deadlock". */
  lemma OvertakenTargetsDeadlock(g: ActionGraph) returns (s: Setup, sessions: seq<Session>)
    requires WellFormed(g) && !LeafTargets(g)
    ensures SameButPriorities(s.graph, g) && WellFormed(s.graph)
    ensures sessions != [] && forall i :: 0 <= i < |sessions| ==> sessions[i].maxParallel == 1
    ensures Chain(s, sessions, map[]).1 == Crashed(Deadlock)
  {
    hide WellFormed, CanSelect, Chain, Above, Ids, SoleSetup, SameButPriorities, SoleResults;
    var cb, t :| Rejectable(g, cb, t) && Succs(g.edges, t) != [] && !Above(g.edges, t, cb.decision);
    var u := Succs(g.edges, t)[0];
    assert u in Succs(g.edges, t);
    EndsAreKnown(g, GraphEdge(t, u));
    s := HeldSetup(g, cb);
    SoleGraph(g, cb.decision, Up(g, cb.decision));
    WithFirstIsSame(g, Up(g, cb.decision));
    var k := |Ids(g)|;
    assert k >= 1 by { assert t in Ids(g); }
    sessions := Pauses(1, k);
    HeldChain(g, cb, t, u, k, map[]);
  }

  lemma EndsAreKnown(g: ActionGraph, e: GraphEdge)
    requires WellFormed(g) && e in g.edges
    ensures e.target in Ids(g)
  {
  }

  // ---- The exact condition ----

  /** No chain of sessions on a fresh start raises. */
  ghost predicate NeverRaises(s: Setup)
    requires WellFormed(s.graph)
  {
    forall sessions :: BatchesAllowed(sessions) ==> !Chain(s, sessions, map[]).1.Crashed?
  }

  ghost predicate BatchesAllowed(sessions: seq<Session>)
  {
    sessions != [] && forall i :: 0 <= i < |sessions| ==> sessions[i].maxParallel >= 1
  }

  /** Chains never raise, whatever the priorities and the nodes, the batch sizes and the pauses, exactly when every
      target with successors lies upstream of its decision, which then cannot reject it in time. */
  lemma DeadlockFreeExactly(g: ActionGraph)
    requires WellFormed(g)
    ensures LeafTargets(g) <==> forall s: Setup :: SameButPriorities(s.graph, g) ==> WellFormed(s.graph) && NeverRaises(s)
  {
    hide WellFormed, LeafTargets, Chain, SameButPriorities;
    forall s: Setup | SameButPriorities(s.graph, g)
      ensures WellFormed(s.graph) && (LeafTargets(g) ==> NeverRaises(s))
    {
      SameStructure(s.graph, g);
      SameBranches(s.graph, g);
      if LeafTargets(g) {
        forall sessions | BatchesAllowed(sessions)
          ensures !Chain(s, sessions, map[]).1.Crashed?
        {
          ChainsReturn(s, sessions, map[]);
        }
      }
    }
    if !LeafTargets(g) {
      var s, sessions := OvertakenTargetsDeadlock(g);
      assert BatchesAllowed(sessions);
      assert !NeverRaises(s);
    }
  }
}
