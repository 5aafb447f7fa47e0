/** The execute-control-adapt loop of one stage (`_run_runbook`, core/orchestrator.py). */
module StageLoop {
  import opened ExecutorSpec
  import opened Gate
  import opened Nodes
  import opened Policy
  import opened Wrappers

  datatype StageConfig = StageConfig(gate: StageGate, recovery: RecoveryConfig, hasPlanner: bool, proceedOnFail: bool)

  datatype Execution = Cut | Ran(results: Results)

  /** What the loop does not control: the n-th execution of the stage, whether the n-th replanning
      yields a graph, and JSON parsing. */
  datatype World = World(executed: nat -> Execution, replanned: nat -> bool, loads: Loads)

  /** A completed critic's content is text, as model nodes write it. */
  ghost predicate TextCritics(c: StageConfig, w: World)
  {
    forall n: nat :: w.executed(n).Ran? && HasCritic(c.gate) ==> CriticText(w.executed(n).results, c.gate.critic.value)
  }

  /** The loop's variables; `executions` and `replans` count calls of the executor and of the planner. */
  datatype LoopState = LoopState(
    executions: nat, replans: nat, retries: int, fixes: nat, history: seq<seq<string>>,
    skipExecute: bool, skipControl: bool, results: Results, verdict: Option<Verdict>, snapshot: Option<Snapshot>)

  datatype StageExit = Passed | Proceeded | CutShort | RunFailed | PausedRun | Errored

  datatype Pass = Again(st: LoopState) | Leave(st: LoopState, exit: StageExit)

  // ---- One pass ----

  /** EXECUTE: run the stage and snapshot the gate, unless skipped on resume. */
  function ExecutePhase(c: StageConfig, w: World, st: LoopState): Pass
    requires w.executed(st.executions).Ran? && HasCritic(c.gate) ==>
               CriticText(w.executed(st.executions).results, c.gate.critic.value)
  {
    if st.skipExecute then Again(st)
    else
      var ran := st.(executions := st.executions + 1);
      match w.executed(st.executions)
      case Cut => Leave(ran, CutShort)
      case Ran(results) =>
        match BuildSnapshot(w.loads, results, c.gate)
        case None => Leave(ran.(results := results), Errored)
        case Some(snapshot) => Again(ran.(results := results, snapshot := Some(snapshot)))
  }

  /** CONTROL: the verdict from the results, or from the snapshot on resume. */
  function ControlPhase(c: StageConfig, w: World, st: LoopState): Pass
    requires HasCritic(c.gate) && !st.skipExecute ==> CriticText(st.results, c.gate.critic.value)
  {
    if st.skipControl then Again(st)
    else if HasCritic(c.gate) && !st.skipExecute then
      Again(st.(verdict := Some(ExtractVerdict(w.loads, st.results, c.gate.critic.value))))
    else if HasCritic(c.gate) && st.snapshot.Some? then
      match VerdictFromSnapshot(st.snapshot.value)
      case None => Leave(st, Errored)
      case Some(v) => Again(st.(verdict := Some(v)))
    else Again(st.(verdict := None))
  }

  function GatePasses(c: StageConfig, st: LoopState): bool
  {
    EvaluateGate(if st.skipExecute then map[] else st.results, c.gate, st.verdict, st.snapshot)
  }

  function FailedOf(required: seq<string>, results: Results): FailedNodes
  {
    if |required| == 0 then []
    else
      var nid := required[|required| - 1];
      var rest := FailedOf(required[..|required| - 1], results);
      if nid in results && !results[nid].status.Completed? then rest + [(nid, results[nid])] else rest
  }

  function CriticFailed(c: StageConfig, st: LoopState): bool
  {
    HasCritic(c.gate) && (st.verdict.None? || st.verdict.value.verdict != "PASS" || st.verdict.value.evidence == [])
  }

  function HasFixHints(st: LoopState): bool
  {
    st.verdict.Some? && (st.verdict.value.gaps != [] || st.verdict.value.suggestions != [])
  }

  predicate TriesFix(c: StageConfig, st: LoopState)
  {
    CriticFailed(c, st) && HasFixHints(st) && st.fixes < c.recovery.maxVerdictFixAttempts && !st.skipExecute
  }

  ghost function ActionAt(c: StageConfig, st: LoopState): RecoveryAction
  {
    ActionFor(FailedOf(c.gate.required, st.results), st.retries, c.recovery, CriticFailed(c, st), st.history, c.hasPlanner)
  }

  /** What the loop does with the decided action. */
  function Apply(c: StageConfig, w: World, st: LoopState, action: RecoveryAction): Pass
  {
    match action
    case FailRun => Leave(st, RunFailed)
    case Escalate => Leave(st, PausedRun)
    case Replan =>
      if c.hasPlanner && w.replanned(st.replans) then
        Again(st.(replans := st.replans + 1, results := map[], skipExecute := false, skipControl := false))
      else Leave(st, PausedRun)
    case RetryStage =>
      Again(st.(history := st.history + [IdsOf(FailedOf(c.gate.required, st.results))], retries := st.retries + 1,
                skipExecute := false, skipControl := false))
  }

  /** ADAPT: pass, proceed, try a verdict-driven fix, or recover. */
  ghost function AdaptPhase(c: StageConfig, w: World, st: LoopState): Pass
  {
    if GatePasses(c, st) then Leave(st, Passed)
    else if c.proceedOnFail then Leave(st, Proceeded)
    else if TriesFix(c, st) then Again(st.(fixes := st.fixes + 1, skipExecute := false, skipControl := false))
    else Apply(c, w, st, ActionAt(c, st))
  }

  ghost function PassOf(c: StageConfig, w: World, st: LoopState): Pass
    requires TextCritics(c, w)
  {
    match ExecutePhase(c, w, st)
    case Leave(st1, e) => Leave(st1, e)
    case Again(st1) =>
      match ControlPhase(c, w, st1)
      case Leave(st2, e) => Leave(st2, e)
      case Again(st2) => AdaptPhase(c, w, st2)
  }

  /** The first `limit` passes of the loop. */
  ghost function RunPasses(c: StageConfig, w: World, st: LoopState, limit: nat): Pass
    requires TextCritics(c, w)
    decreases limit
  {
    if limit == 0 then Again(st)
    else
      match PassOf(c, w, st)
      case Leave(st', e) => Leave(st', e)
      case Again(st') => RunPasses(c, w, st', limit - 1)
  }

  // ---- The loop itself ----

  method CollectFailed(required: seq<string>, results: Results) returns (failed: FailedNodes)
    ensures failed == FailedOf(required, results)
  {
    failed := [];
    for i := 0 to |required|
      invariant failed == FailedOf(required[..i], results)
    {
      assert required[..i + 1][..i] == required[..i];
      var nid := required[i];
      if nid in results && !results[nid].status.Completed? {
        failed := failed + [(nid, results[nid])];
      }
    }
    assert required[..|required|] == required;
  }

  /** `while True`, watched for `limit` passes. */
  method RunStage(c: StageConfig, w: World, start: LoopState, limit: nat) returns (last: Pass)
    requires TextCritics(c, w)
    ensures last == RunPasses(c, w, start, limit)
  {
    hide ExecutePhase, ControlPhase, GatePasses, TriesFix, Apply, ActionFor, FailedOf, CriticFailed;
    var st := start;
    for n := 0 to limit
      invariant RunPasses(c, w, st, limit - n) == RunPasses(c, w, start, limit)
    {
      var executed := ExecutePhase(c, w, st);
      ExecutedResultsAreText(c, w, st);
      if executed.Leave? { return executed; }
      var controlled := ControlPhase(c, w, executed.st);
      if controlled.Leave? { return controlled; }
      st := controlled.st;
      if GatePasses(c, st) { return Leave(st, Passed); }
      if c.proceedOnFail { return Leave(st, Proceeded); }
      if TriesFix(c, st) {
        st := st.(fixes := st.fixes + 1, skipExecute := false, skipControl := false);
      } else {
        var failed := CollectFailed(c.gate.required, st.results);
        var d := DecideRecovery(failed, st.retries, c.recovery, CriticFailed(c, st), st.history, c.hasPlanner);
        var applied := Apply(c, w, st, d.action);
        if applied.Leave? { return applied; }
        st := applied.st;
      }
    }
    return Again(st);
  }

  lemma ExecutedResultsAreText(c: StageConfig, w: World, st: LoopState)
    requires TextCritics(c, w)
    ensures var e := ExecutePhase(c, w, st);
            e.Again? && HasCritic(c.gate) && !e.st.skipExecute ==> CriticText(e.st.results, c.gate.critic.value)
  {
    hide CriticText, BuildSnapshot;
  }
}
