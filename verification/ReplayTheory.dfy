/** Replaying the recorded responses of a run gives the run's results again, however either was cut and
    scheduled (trace/replay.py with execution/executor.py). */
module ReplayTheory {
  import opened ExecutorLiveness
  import opened ExecutorRuns
  import opened ExecutorSafety
  import opened ExecutorSpec
  import opened ExecutorTheory
  import opened Graph
  import opened KahnTheory
  import opened Nodes
  import opened Order
  import opened Replay
  import opened Wrappers

  // ---- The nodes of a registry ----

  /** Blank code is refused, and a completed output carries no error. */
  ghost predicate CallsAsNode(kind: NodeType, blank: Values -> bool, impl: NodeImpl)
  {
    forall inputs, n :: CallIsPlain(kind, blank, inputs, impl(inputs, n))
  }

  predicate CallIsPlain(kind: NodeType, blank: Values -> bool, inputs: Values, reply: Reply)
  {
    && (Refuses(kind, blank, inputs) ==> reply == Returned(FailedWith("No code provided")))
    && (reply.Returned? && reply.output.status.Completed? ==> reply.output.error == None && reply.output.failureClass == None)
  }

  /** Every graph node has an implementation of its kind. */
  ghost predicate Registered(s: Setup, blank: Values -> bool)
  {
    forall x :: x in Ids(s.graph) ==> x in s.registry && CallsAsNode(NodeMap(s.graph)[x].kind, blank, s.registry[x])
  }

  predicate Capable(s: Setup, x: string)
  {
    x in NodeMap(s.graph) && HasReplay(NodeMap(s.graph)[x].kind)
  }

  /** The node completes when it is first called. */
  predicate FirstTry(s: Setup, r: Results, x: string)
  {
    x in NodeMap(s.graph) && x in s.registry && Attempt(s, s.registry[x], GatherInputs(s, x, r), 0).status.Completed?
  }

  // ---- What a run leaves in the trace ----

  /** The recorded calls: the completed ones, and those failed ones that a node records. */
  function Kept(keeps: NodeOutput -> bool, outs: seq<NodeOutput>): seq<Recording>
  {
    if outs == [] then []
    else (if outs[0].status.Completed? || keeps(outs[0]) then [RecordingOf(outs[0])] else []) + Kept(keeps, outs[1..])
  }

  function RecordingsOf(s: Setup, keeps: NodeOutput -> bool, x: string, r: Results): seq<Recording>
    requires x in NodeMap(s.graph)
  {
    if x in s.registry then Kept(keeps, Attempts(s, s.registry[x], GatherInputs(s, x, r), 0)) else []
  }

  /** The `replay_data` events after a session, node by node, for the nodes it started. */
  function EventsOf(s: Setup, keeps: NodeOutput -> bool, order: seq<string>, started: set<string>, r: Results): seq<TraceEvent>
  {
    if order == [] then []
    else EventsOf(s, keeps, order[..|order| - 1], started, r) + EventOf(s, keeps, order[|order| - 1], started, r)
  }

  function EventOf(s: Setup, keeps: NodeOutput -> bool, x: string, started: set<string>, r: Results): (events: seq<TraceEvent>)
    ensures RecordedFor(events, x) == if x in started && Capable(s, x) && x != "" then RecordingsOf(s, keeps, x, r) else []
    ensures forall y :: y != x ==> RecordedFor(events, y) == []
  {
    if x in started && Capable(s, x) && RecordingsOf(s, keeps, x, r) != [] then
      var events := [ReplayData(x, RecordingsOf(s, keeps, x, r))];
      assert events[..0] == [];
      events
    else []
  }

  /** The trace of a chain of sessions; a session that raises records nothing. */
  ghost function ChainTrace(s: Setup, keeps: NodeOutput -> bool, sessions: seq<Session>, r: Results): seq<TraceEvent>
    requires WellFormed(s.graph) && sessions != []
  {
    var (st, exit) := SessionRun(s, sessions[0].maxParallel, sessions[0].check, r);
    (if exit.Crashed? then [] else EventsOf(s, keeps, NodeIds(s.graph.nodes), ToSet(Flat(st.batches)), st.results))
    + if exit.Interrupted? && |sessions| > 1 then ChainTrace(s, keeps, sessions[1..], st.results) else []
  }

  lemma {:induction false} RecordedForConcat(a: seq<TraceEvent>, b: seq<TraceEvent>, x: string)
    ensures RecordedFor(a + b, x) == RecordedFor(a, x) + RecordedFor(b, x)
  {
    if b == [] {
      assert a + b == a;
    } else {
      var n := |b| - 1;
      assert (a + b)[..|a + b| - 1] == a + b[..n];
      RecordedForConcat(a, b[..n], x);
    }
  }

  lemma NoEvents(x: string)
    ensures RecordedFor([], x) == []
  {
  }

  lemma {:induction false} EventsRecord(s: Setup, keeps: NodeOutput -> bool, order: seq<string>, started: set<string>, r: Results, x: string)
    requires Distinct(order)
    ensures RecordedFor(EventsOf(s, keeps, order, started, r), x)
            == if x in order && x in started && Capable(s, x) && x != "" then RecordingsOf(s, keeps, x, r) else []
  {
    hide RecordingsOf, Capable, EventOf, RecordedFor;
    NoEvents(x);
    if order != [] {
      var n := |order| - 1;
      var y := order[n];
      EventsRecord(s, keeps, order[..n], started, r, x);
      assert order == order[..n] + [y];
      RecordedForConcat(EventsOf(s, keeps, order[..n], started, r), EventOf(s, keeps, y, started, r), x);
    }
  }

  // ---- What a node has seen is final ----

  lemma InputsAreFinal(s: Setup, r: Results, q: Results, x: string)
    requires Yielded(s, r) && Extends(s, q, r) && x in r
    ensures x in NodeMap(s.graph) && GatherInputs(s, x, r) == GatherInputs(s, x, q)
  {
    hide Preds, Rejected, ExecuteNode, NodeMap, AddDerived, MergeOutputs;
    assert YieldedAt(s, r, x);
    MergeAgree(Preds(s.graph.edges, x), r, q);
  }

  // ---- The trace holds each node's calls once ----

  /** What the trace of a chain from r to q holds for a node. */
  ghost predicate RecordedOnce(s: Setup, keeps: NodeOutput -> bool, events: seq<TraceEvent>, r: Results, q: Results, x: string)
    requires x in NodeMap(s.graph)
  {
    RecordedFor(events, x) == if x in q && x !in r && Capable(s, x) && x != "" then RecordingsOf(s, keeps, x, q) else []
  }

  lemma SessionRecords(s: Setup, keeps: NodeOutput -> bool, m: int, check: InterruptCheck, r: Results, x: string)
    requires WellFormed(s.graph) && x in NodeMap(s.graph)
    ensures var st := SessionRun(s, m, check, r).0;
            RecordedOnce(s, keeps, EventsOf(s, keeps, NodeIds(s.graph.nodes), ToSet(Flat(st.batches)), st.results), r, st.results, x)
  {
    hide DownstreamBranches, Partial, SessionRun, EventsOf, RecordedFor, RecordingsOf, Capable, Acyclic, KnownEndpoints,
         StartedAfterPreds, Flat, SelectedOf, Pruned;
    var st := SessionRun(s, m, check, r).0;
    SessionIsSafe(s, m, check, r);
    assert x in Ids(s.graph);
    EventsRecord(s, keeps, NodeIds(s.graph.nodes), ToSet(Flat(st.batches)), st.results, x);
  }

  lemma {:induction false} ChainRecords(s: Setup, keeps: NodeOutput -> bool, sessions: seq<Session>, r: Results, x: string)
    requires WellFormed(s.graph) && Yielded(s, r) && sessions != []
    requires !Chain(s, sessions, r).1.Crashed? && x in NodeMap(s.graph)
    ensures var q := Chain(s, sessions, r).0;
            && Yielded(s, q) && Extends(s, q, r)
            && RecordedOnce(s, keeps, ChainTrace(s, keeps, sessions, r), r, q, x)
    decreases |sessions|
  {
    hide WellFormed, Yielded, Extends, SessionRun, EventsOf, RecordedFor, RecordingsOf, Capable, Flat, NodeMap, RecordedOnce;
    var m, check := sessions[0].maxParallel, sessions[0].check;
    var (st, exit) := SessionRun(s, m, check, r);
    SessionKeepsYielded(s, m, check, r);
    SessionRecords(s, keeps, m, check, r, x);
    var here := EventsOf(s, keeps, NodeIds(s.graph.nodes), ToSet(Flat(st.batches)), st.results);
    if exit.Interrupted? && |sessions| > 1 {
      ChainRecords(s, keeps, sessions[1..], st.results, x);
      ExtendsFurther(s, Chain(s, sessions[1..], st.results).0, st.results, r);
      JoinRecords(s, keeps, here, ChainTrace(s, keeps, sessions[1..], st.results), r, st.results, Chain(s, sessions[1..], st.results).0, x);
    } else {
      assert here + [] == here;
    }
  }

  lemma JoinRecords(s: Setup, keeps: NodeOutput -> bool, a: seq<TraceEvent>, b: seq<TraceEvent>, r: Results, p: Results, q: Results, x: string)
    requires x in NodeMap(s.graph) && Yielded(s, p) && Extends(s, p, r) && Extends(s, q, p)
    requires RecordedOnce(s, keeps, a, r, p, x) && RecordedOnce(s, keeps, b, p, q, x)
    ensures RecordedOnce(s, keeps, a + b, r, q, x)
  {
    hide Yielded, Rejected, RecordedFor, Capable, NodeMap, GatherInputs, Attempts, Kept;
    RecordedForConcat(a, b, x);
    if x in p { InputsAreFinal(s, p, q, x); }
  }

  // ---- Replaying ----

  /** The setup of a replay: nodes that can replay answer from the trace, the others run. */
  function Replaying(s: Setup, blank: Values -> bool, events: seq<TraceEvent>): Setup
  {
    s.(registry := map x | x in s.registry ::
         if Capable(s, x) then ReplayImpl(NodeMap(s.graph)[x].kind, blank, RecordedFor(events, x)) else s.registry[x])
  }

  function ReplayImpl(kind: NodeType, blank: Values -> bool, responses: seq<Recording>): NodeImpl
  {
    (inputs: Values, call: nat) => ReplayReply(kind, blank, responses, inputs, call)
  }

  lemma SameInputs(s: Setup, t: Setup, x: string, r: Results)
    requires t == s.(registry := t.registry) && x in NodeMap(s.graph)
    ensures GatherInputs(t, x, r) == GatherInputs(s, x, r)
  {
    hide NodeMap, Preds, MergeOutputs;
  }

  /** A node that completed at its first call left one recording, and answers with it. */
  lemma FirstCallReplays(s: Setup, keeps: NodeOutput -> bool, blank: Values -> bool, events: seq<TraceEvent>, r: Results, x: string)
    requires FirstTry(s, r, x) && CallsAsNode(NodeMap(s.graph)[x].kind, blank, s.registry[x])
    requires Capable(s, x) ==> RecordedFor(events, x) == RecordingsOf(s, keeps, x, r)
    ensures |RecordingsOf(s, keeps, x, r)| == 1
    ensures ExecuteNode(Replaying(s, blank, events), x, r) == ExecuteNode(s, x, r)
  {
    hide NodeMap, RecordedFor, Capable, Preds, MergeOutputs, AddDerived;
    var inputs := GatherInputs(s, x, r);
    var impl := s.registry[x];
    var out := Attempt(s, impl, inputs, 0);
    assert CallIsPlain(NodeMap(s.graph)[x].kind, blank, inputs, impl(inputs, 0));
    assert impl(inputs, 0) == Returned(out);
    var outs := Attempts(s, impl, inputs, 0);
    assert outs == [out] && Kept(keeps, outs[1..]) == [];
    assert RecordingsOf(s, keeps, x, r) == [RecordingOf(out)];
    var t := Replaying(s, blank, events);
    SameInputs(s, t, x, r);
    assert Attempt(t, t.registry[x], inputs, 0) == out;
  }

  lemma CompleteAgain(s: Setup, keeps: NodeOutput -> bool, blank: Values -> bool, events: seq<TraceEvent>, r: Results)
    requires Complete(s, r) && Registered(s, blank)
    requires forall x :: x in r ==> FirstTry(s, r, x)
    requires forall x :: x in r && Capable(s, x) ==> RecordedFor(events, x) == RecordingsOf(s, keeps, x, r)
    ensures Complete(Replaying(s, blank, events), r)
  {
    hide ExecuteNode, Replaying, RecordingsOf, RecordedFor, Capable, FirstTry, NodeMap, CallsAsNode, Unselected, Preds, SelectedOf;
    var t := Replaying(s, blank, events);
    SameButRegistry(s, blank, events, r);
    forall x | x in r
      ensures PartialAt(t, r, x)
    {
      assert PartialAt(s, r, x);
      FirstCallReplays(s, keeps, blank, events, r, x);
    }
  }

  lemma SameButRegistry(s: Setup, blank: Values -> bool, events: seq<TraceEvent>, r: Results)
    ensures var t := Replaying(s, blank, events);
            t.graph == s.graph && SelectedOf(t, r) == SelectedOf(s, r) && t.registry.Keys == s.registry.Keys
  {
    hide RecordedFor;
    var t := Replaying(s, blank, events);
    assert forall x :: x in r ==> BranchOf(t, x, r[x]) == BranchOf(s, x, r[x]);
  }

  /** Strict injection has a response for every node that can replay. */
  ghost predicate NothingMissing(s: Setup, events: seq<TraceEvent>)
  {
    forall x :: Capable(s, x) ==> RecordedFor(events, x) != []
  }

  lemma RecordedIffRun(s: Setup, keeps: NodeOutput -> bool, blank: Values -> bool, events: seq<TraceEvent>, q: Results, x: string)
    requires Registered(s, blank) && Capable(s, x) && (x in q ==> FirstTry(s, q, x))
    requires RecordedOnce(s, keeps, events, map[], q, x)
    ensures RecordedFor(events, x) != [] <==> x in q && x != ""
  {
    hide RecordedFor, CallsAsNode, Preds, MergeOutputs, AddDerived, Ids;
    if x in q {
      assert x in Ids(s.graph);
      RecordingCompleted(s, keeps, q, x);
    }
  }

  lemma RecordingCompleted(s: Setup, keeps: NodeOutput -> bool, q: Results, x: string)
    requires FirstTry(s, q, x)
    ensures RecordingsOf(s, keeps, x, q) != []
  {
    hide GatherInputs, NodeMap;
  }

  /** A chain of replaying sessions that finishes has the recorded results, and it does finish on a tame graph. */
  ghost predicate Repeats(s: Setup, blank: Values -> bool, events: seq<TraceEvent>, r: Results, replays: seq<Session>)
    requires WellFormed(s.graph) && replays != []
  {
    var (q, exit) := Chain(Replaying(s, blank, events), replays, map[]);
    (exit.Finished? ==> q == r) && (LeafTargets(s.graph) && Uncut(replays) ==> exit.Finished?)
  }

  /** Strict replay round trip. When every node of a run (in any number of sessions) that finished completed at
      its first call, strict injection finds its trace incomplete exactly when a node that can replay has no result
      or no id; otherwise, with downstream branches, every replay that finishes, whatever its batches and its cuts,
      has the same results, and on a tame graph it finishes. */
  lemma StrictReplayRoundTrip(s: Setup, keeps: NodeOutput -> bool, blank: Values -> bool, recorded: seq<Session>, replays: seq<Session>)
    requires WellFormed(s.graph) && Registered(s, blank)
    requires recorded != [] && Chain(s, recorded, map[]).1.Finished?
    requires forall x :: x in Chain(s, recorded, map[]).0 ==> FirstTry(s, Chain(s, recorded, map[]).0, x)
    requires replays != []
    ensures var r, events := Chain(s, recorded, map[]).0, ChainTrace(s, keeps, recorded, map[]);
            && (NothingMissing(s, events) <==> forall x :: Capable(s, x) ==> x in r && x != "")
            && (NothingMissing(s, events) && DownstreamBranches(s.graph) ==> Repeats(s, blank, events, r, replays))
  {
    hide *;
    var r, events := Chain(s, recorded, map[]).0, ChainTrace(s, keeps, recorded, map[]);
    ChainRecordsAll(s, keeps, recorded);
    MissingIffNotRun(s, keeps, blank, events, r);
    if NothingMissing(s, events) && DownstreamBranches(s.graph) {
      FinishedIsSequential(s, recorded);
      ReplayIsComplete(s, keeps, blank, events, r, replays);
    }
  }

  lemma FinishedIsSequential(s: Setup, sessions: seq<Session>)
    requires WellFormed(s.graph) && DownstreamBranches(s.graph) && sessions != [] && Chain(s, sessions, map[]).1.Finished?
    ensures Complete(s, Chain(s, sessions, map[]).0)
  {
    hide WellFormed, DownstreamBranches, Chain, SequentialResults, Complete;
    NothingIsPartial(s);
    FinishedChainsAgree(s, sessions, map[]);
    SequentialIsComplete(s);
  }

  lemma ChainRecordsAll(s: Setup, keeps: NodeOutput -> bool, sessions: seq<Session>)
    requires WellFormed(s.graph) && sessions != [] && Chain(s, sessions, map[]).1.Finished?
    ensures forall x :: x in NodeMap(s.graph) ==>
              RecordedOnce(s, keeps, ChainTrace(s, keeps, sessions, map[]), map[], Chain(s, sessions, map[]).0, x)
  {
    hide *;
    NothingIsPartial(s);
    PartialIsYielded(s, map[]);
    forall x | x in NodeMap(s.graph)
      ensures RecordedOnce(s, keeps, ChainTrace(s, keeps, sessions, map[]), map[], Chain(s, sessions, map[]).0, x)
    {
      ChainRecords(s, keeps, sessions, map[], x);
    }
  }

  lemma MissingIffNotRun(s: Setup, keeps: NodeOutput -> bool, blank: Values -> bool, events: seq<TraceEvent>, r: Results)
    requires Registered(s, blank) && forall x :: x in r ==> FirstTry(s, r, x)
    requires forall x :: x in NodeMap(s.graph) ==> RecordedOnce(s, keeps, events, map[], r, x)
    ensures NothingMissing(s, events) <==> forall x :: Capable(s, x) ==> x in r && x != ""
  {
    hide Registered, FirstTry, Capable, RecordedFor, RecordedOnce;
    forall x | Capable(s, x)
      ensures RecordedFor(events, x) != [] <==> x in r && x != ""
    {
      CapableIsKnown(s, x);
      RecordedIffRun(s, keeps, blank, events, r, x);
    }
  }

  lemma ReplayIsComplete(s: Setup, keeps: NodeOutput -> bool, blank: Values -> bool, events: seq<TraceEvent>, r: Results, replays: seq<Session>)
    requires WellFormed(s.graph) && DownstreamBranches(s.graph) && Registered(s, blank)
    requires Complete(s, r) && forall x :: x in r ==> FirstTry(s, r, x)
    requires forall x :: x in NodeMap(s.graph) ==> RecordedOnce(s, keeps, events, map[], r, x)
    requires forall x :: Capable(s, x) ==> x in r && x != ""
    requires replays != []
    ensures Repeats(s, blank, events, r, replays)
  {
    hide DownstreamBranches, LeafTargets, WellFormed, Chain, Registered, FirstTry, RecordedFor, RecordingsOf,
         Replaying, Complete, SequentialResults, SelectedOf;
    forall x | x in r && Capable(s, x)
      ensures RecordedFor(events, x) == RecordingsOf(s, keeps, x, r)
    {
      CapableIsKnown(s, x);
      assert RecordedOnce(s, keeps, events, map[], r, x);
    }
    CompleteAgain(s, keeps, blank, events, r);
    var t := Replaying(s, blank, events);
    SameButRegistry(s, blank, events, r);
    NothingIsPartial(t);
    FinishedChainsAgree(t, replays, map[]);
    SequentialIsComplete(t);
    CompleteUnique(t, r, SequentialResults(t));
    if LeafTargets(s.graph) && Uncut(replays) {
      PartialIsUnblocked(t, map[]);
      ChainsReturn(t, replays, map[]);
    }
  }

  lemma CapableIsKnown(s: Setup, x: string)
    requires Capable(s, x)
    ensures x in NodeMap(s.graph)
  {
  }
}
