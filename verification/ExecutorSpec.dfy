/** The executor (execution/executor.py) as functions: node inputs, the retry loop,
    one scheduling round, and a run up to its end, an interrupt or an exception. */
module ExecutorSpec {
  import opened Classifier
  import opened Graph
  import opened JsonValues
  import opened Kahn
  import opened Nodes
  import opened Order
  import opened Sorting
  import opened Wrappers

  /** Prompt builders: text formatting, left abstract. */
  datatype Prompts = Prompts(critic: (Values, Values) -> Json, fix: Values -> Json, plain: Values -> Json)

  /** What a run depends on besides its scheduling. */
  datatype Setup = Setup(
    graph: ActionGraph,
    registry: map<string, NodeImpl>,
    initialInputs: Values,
    maxNodeRetries: int,
    upgradeThreshold: int,
    prompts: Prompts,
    render: Json -> string)

  type Results = map<string, NodeOutput>

  // ---- _gather_inputs ----

  const PRESERVED_KEYS := {"clarification_request_artifact_id", "clarification_response_artifact_id",
                           "clarification_evidence_artifact_ids", "clarification_context_envelope"}

  /** Predecessor outputs in edge order, later ones winning. */
  function MergeOutputs(preds: seq<string>, results: Results): Values
  {
    if |preds| == 0 then map[]
    else
      var last := preds[|preds| - 1];
      var before := MergeOutputs(preds[..|preds| - 1], results);
      if last in results then before + results[last].outputs else before
  }

  function Restrict(v: Values, keys: set<string>): Values
  {
    map k | k in keys && k in v :: v[k]
  }

  function TruthyAt(v: Values, key: string): bool
  {
    key in v && Truthy(v[key])
  }

  function AddDerived(s: Setup, node: GraphNode, inputs: Values): Values
  {
    if node.kind.Model? && "prompt" !in inputs then
      inputs["prompt" :=
        if TruthyAt(node.parameters, "json_schema") then s.prompts.critic(inputs, node.parameters)
        else if TruthyAt(inputs, "previous_code") then s.prompts.fix(inputs)
        else s.prompts.plain(inputs)]
    else if node.kind.Code? && "code" !in inputs && "content" in inputs then
      inputs["code" := inputs["content"]]
    else inputs
  }

  /** Predecessors first, then initial inputs for keys still absent, then the preserved keys. */
  function GatherInputs(s: Setup, nid: string, results: Results): Values
    requires nid in NodeMap(s.graph)
  {
    var merged := MergeOutputs(Preds(s.graph.edges, nid), results);
    AddDerived(s, NodeMap(s.graph)[nid], s.initialInputs + merged + Restrict(s.initialInputs, PRESERVED_KEYS))
  }

  // ---- _execute_single ----

  /** One call of the node, with a failure classified. */
  function Attempt(s: Setup, impl: NodeImpl, inputs: Values, attempt: nat): NodeOutput
  {
    var out := match impl(inputs, attempt)
               case Returned(o) => o
               case Raised(m) => NodeOutput(map[], map[], Failed, Some(m), None);
    if out.status.Completed? then out
    else out.(failureClass := Some(ClassifyFailure(out.error, attempt, s.upgradeThreshold)))
  }

  predicate Stops(s: Setup, out: NodeOutput, attempt: nat)
  {
    out.status.Completed? || out.failureClass.None? || out.failureClass.value.kind == Critical
    || !out.failureClass.value.retryable || attempt >= s.maxNodeRetries
  }

  /** The outputs of all calls from this attempt on; the last one is returned. */
  function Attempts(s: Setup, impl: NodeImpl, inputs: Values, attempt: nat): (outs: seq<NodeOutput>)
    ensures |outs| > 0
    decreases if s.maxNodeRetries > attempt then s.maxNodeRetries - attempt else 0
  {
    var out := Attempt(s, impl, inputs, attempt);
    if Stops(s, out, attempt) then [out] else [out] + Attempts(s, impl, inputs, attempt + 1)
  }

  const NO_IMPLEMENTATION := "No implementation registered for node "

  function NoImplementation(s: Setup, nid: string): NodeOutput
  {
    var error := Some(NO_IMPLEMENTATION + nid);
    NodeOutput(map[], map[], Failed, error, Some(ClassifyFailure(error, 0, s.upgradeThreshold)))
  }

  function ExecuteNode(s: Setup, nid: string, results: Results): NodeOutput
    requires nid in NodeMap(s.graph)
  {
    if nid !in s.registry then NoImplementation(s, nid)
    else
      var outs := Attempts(s, s.registry[nid], GatherInputs(s, nid, results), 0);
      outs[|outs| - 1]
  }

  // ---- Conditional branches ----

  const BRANCH_OUTPUT_KEY := "branch"

  function StrOf(s: Setup, j: Json): string
  {
    match j
    case Str(t) => t
    case Bool(b) => if b then "True" else "False"
    case _ => s.render(j)
  }

  function BranchKey(node: GraphNode): Json
  {
    if "branch_output_key" in node.parameters then node.parameters["branch_output_key"] else Str(BRANCH_OUTPUT_KEY)
  }

  /** A decision node whose branch key can name an output. */
  predicate CanSelect(g: ActionGraph, nid: string)
  {
    nid in NodeMap(g) && NodeMap(g)[nid].kind.Decision? && BranchKey(NodeMap(g)[nid]).Str?
  }

  /** The branch a completed decision node selects. */
  function BranchOf(s: Setup, nid: string, out: NodeOutput): Option<string>
  {
    if CanSelect(s.graph, nid) && out.status.Completed? then
      var key := BranchKey(NodeMap(s.graph)[nid]).s;
      if key in out.outputs && out.outputs[key] != Null then Some(StrOf(s, out.outputs[key])) else None
    else None
  }

  function SelectedOf(s: Setup, results: Results): map<string, string>
  {
    map n | n in results && BranchOf(s, n, results[n]).Some? :: BranchOf(s, n, results[n]).value
  }

  /** `_is_in_unselected_branch`. */
  predicate Unselected(g: ActionGraph, selected: map<string, string>, nid: string)
  {
    exists cb :: cb in g.branches && nid in cb.targets
                 && cb.decision in selected && selected[cb.decision] != cb.branchLabel
  }

  // ---- One round of the scheduling loop ----

  /** `batches` records which nodes were started together, as the trace does. */
  datatype ExecState = ExecState(
    results: Results, completed: set<string>, pending: seq<string>, selected: map<string, string>,
    batches: seq<seq<string>>)

  predicate PredsIn(edges: seq<GraphEdge>, nid: string, completed: set<string>)
  {
    forall p :: p in Preds(edges, nid) ==> p in completed
  }

  /** Pending nodes all of whose predecessors are completed. */
  function PredsSatisfied(edges: seq<GraphEdge>, pending: seq<string>, completed: set<string>): (r: seq<string>)
    ensures forall x :: x in r <==> x in pending && PredsIn(edges, x, completed)
  {
    if |pending| == 0 then []
    else
      var rest := PredsSatisfied(edges, pending[1..], completed);
      assert pending == [pending[0]] + pending[1..];
      if PredsIn(edges, pending[0], completed) then [pending[0]] + rest else rest
  }

  /** Those among them not in an unselected branch. */
  function ReadyAmong(g: ActionGraph, selected: map<string, string>, satisfied: seq<string>): (r: seq<string>)
    ensures forall x :: x in r <==> x in satisfied && !Unselected(g, selected, x)
  {
    if |satisfied| == 0 then []
    else
      var rest := ReadyAmong(g, selected, satisfied[1..]);
      assert satisfied == [satisfied[0]] + satisfied[1..];
      if Unselected(g, selected, satisfied[0]) then rest else [satisfied[0]] + rest
  }

  /** `[nid for nid in s if nid not in gone]`. */
  function Without(s: seq<string>, gone: set<string>): (r: seq<string>)
    ensures forall x :: x in r <==> x in s && x !in gone
    ensures |r| <= |s|
    ensures (exists x :: x in s && x in gone) ==> |r| < |s|
  {
    if |s| == 0 then []
    else
      var rest := Without(s[1..], gone);
      assert s == [s[0]] + s[1..];
      if s[0] in gone then rest else [s[0]] + rest
  }

  /** The outputs of a batch, all computed from the results before the batch. */
  function BatchResults(s: Setup, batch: seq<string>, results: Results): (r: Results)
    requires forall x :: x in batch ==> x in NodeMap(s.graph)
    ensures r.Keys == ToSet(batch)
  {
    map x | x in batch :: ExecuteNode(s, x, results)
  }

  datatype ExecError = GraphFailed(error: GraphError) | Deadlock | NoWorkers

  datatype Step = Next(st: ExecState) | Done(st: ExecState) | Raise(st: ExecState, error: ExecError)

  predicate PendingKnown(s: Setup, st: ExecState)
  {
    forall x :: x in st.pending ==> x in NodeMap(s.graph)
  }

  function Skip(g: ActionGraph, st: ExecState): (r: ExecState)
    ensures forall x :: x in r.pending ==> x in st.pending
    ensures |r.pending| <= |st.pending|
  {
    var satisfied := PredsSatisfied(g.edges, st.pending, st.completed);
    var skipped := ToSet(satisfied) - ToSet(ReadyAmong(g, st.selected, satisfied));
    st.(pending := Without(st.pending, skipped), completed := st.completed + skipped)
  }

  function BatchOf(s: Setup, m: int, st: ExecState): (batch: seq<string>)
    requires PendingKnown(s, st)
    ensures forall x :: x in batch ==> x in st.pending && PredsIn(s.graph.edges, x, st.completed)
                                       && !Unselected(s.graph, st.selected, x)
  {
    var ready := ReadyAmong(s.graph, st.selected, PredsSatisfied(s.graph.edges, st.pending, st.completed));
    var sorted := SortIds(Priorities(s.graph), ready);
    MultisetMembers(sorted, ready);
    TakeSlice(sorted, m)
  }

  function Commit(s: Setup, st: ExecState, batch: seq<string>): ExecState
    requires forall x :: x in batch ==> x in NodeMap(s.graph)
  {
    var outs := BatchResults(s, batch, st.results);
    ExecState(st.results + outs, st.completed + ToSet(batch), Without(st.pending, ToSet(batch)),
              st.selected + SelectedOf(s, outs), st.batches + [batch])
  }

  function Round(s: Setup, m: int, st: ExecState): Step
    requires PendingKnown(s, st)
  {
    var ready := ReadyAmong(s.graph, st.selected, PredsSatisfied(s.graph.edges, st.pending, st.completed));
    var rest := Skip(s.graph, st);
    if ready == [] then
      if rest.pending == [] then Done(rest) else Raise(rest, Deadlock)
    else
      var batch := BatchOf(s, m, st);
      if |batch| != 1 && m <= 0 then Raise(rest, NoWorkers)
      else Next(Commit(s, rest, batch))
  }

  /** A round either leaves the loop or shrinks `pending`. */
  lemma RoundProgress(s: Setup, m: int, st: ExecState)
    requires PendingKnown(s, st)
    ensures var step := Round(s, m, st);
            step.Next? ==> |step.st.pending| < |st.pending| && PendingKnown(s, step.st)
  {
    hide PredsSatisfied, ReadyAmong, Without, PredsIn, Unselected, SortIds, TakeSlice, BatchResults, SelectedOf, Priorities, NodeMap;
    var satisfied := PredsSatisfied(s.graph.edges, st.pending, st.completed);
    var ready := ReadyAmong(s.graph, st.selected, satisfied);
    var batch := BatchOf(s, m, st);
    var rest := Skip(s.graph, st);
    if ready != [] && (|batch| == 1 || m >= 1) {
      var sorted := SortIds(Priorities(s.graph), ready);
      assert batch == TakeSlice(sorted, m);
      assert batch != [];
      assert batch[0] in batch;
      assert batch[0] in rest.pending;
      assert batch[0] in ToSet(batch);
      assert |Without(rest.pending, ToSet(batch))| < |rest.pending|;
    }
  }

  // ---- A whole run ----

  datatype InterruptCommand = Pause | Stop

  /** `interrupt_check`: absent, or what each poll (one after every batch) answers. */
  type InterruptCheck = Option<nat -> Option<InterruptCommand>>

  datatype Exit = Finished | Interrupted(command: InterruptCommand) | Crashed(error: ExecError)

  function Poll(check: InterruptCheck, n: nat): Option<InterruptCommand>
  {
    if check.Some? then check.value(n) else None
  }

  /** The while loop from a given state, after n polls. */
  function RunFrom(s: Setup, m: int, check: InterruptCheck, n: nat, st: ExecState): (ExecState, Exit)
    requires PendingKnown(s, st)
    decreases |st.pending|
  {
    if st.pending == [] then (st, Finished)
    else
      RoundProgress(s, m, st);
      match Round(s, m, st)
      case Done(st') => (st', Finished)
      case Raise(st', e) => (st', Crashed(e))
      case Next(st') =>
        var poll := Poll(check, n);
        if poll.Some? then (st', Interrupted(poll.value)) else RunFrom(s, m, check, n + 1, st')
  }

  /** Where `execute` starts: from initial results, or (when there are none) from the whole order,
      keeping whatever the executor already held. */
  function Start(s: Setup, order: seq<string>, held: Results, initial: Results): ExecState
  {
    if initial != map[] then
      ExecState(initial, initial.Keys, Without(order, initial.Keys), SelectedOf(s, initial), [])
    else
      ExecState(held, {}, order, map[], [])
  }
}
