/** The stage loop ends, within a bound on executions, exactly when it cannot keep replanning. */
module StageLoopTheory {
  import opened Gate
  import opened Nodes
  import opened Policy
  import opened RetryTheory
  import opened StageLoop
  import opened Wrappers

  /** Replanning is allowed, possible, reachable from a failed required node, and not pre-empted. */
  ghost predicate CanKeepReplanning(c: StageConfig)
  {
    c.recovery.allowAutoReplan && c.hasPlanner && c.gate.required != [] && !c.proceedOnFail
  }

  /** Fixes and stage retries that are left. */
  ghost function Left(c: StageConfig, st: LoopState): nat
  {
    AtLeastZero(c.recovery.maxVerdictFixAttempts - st.fixes) + AtLeastZero(c.recovery.maxStageRetries - st.retries)
  }

  /** Without required nodes no failure is ever recorded. */
  ghost predicate HistoryFits(c: StageConfig, st: LoopState)
  {
    c.gate.required == [] ==> forall x :: Failures(st.history, x) == 0
  }

  lemma PhasesKeepCounters(c: StageConfig, w: World, st: LoopState)
    requires TextCritics(c, w)
    ensures var e := ExecutePhase(c, w, st).st;
            && e.executions <= st.executions + 1
            && e.retries == st.retries && e.fixes == st.fixes && e.history == st.history
    ensures ExecutePhase(c, w, st).Again? ==>
              var k := ControlPhase(c, w, ExecutePhase(c, w, st).st).st;
              && k.executions <= st.executions + 1
              && k.retries == st.retries && k.fixes == st.fixes && k.history == st.history
  {
    hide CriticText, BuildSnapshot, VerdictFromSnapshot, ExtractVerdict;
    ExecutedResultsAreText(c, w, st);
  }

  lemma NoFailuresWithoutRequired(c: StageConfig, st: LoopState)
    requires c.gate.required == [] && HistoryFits(c, st)
    ensures FailedOf(c.gate.required, st.results) == []
    ensures ActionAt(c, st) != Replan && ActionAt(c, st) != RetryStage
  {
    var attempts := st.history + [IdsOf([])];
    forall x
      ensures Failures(attempts, x) == 0
    {
      assert attempts[..|st.history|] == st.history;
    }
    assert Classes([], CriticFailed(c, st)) == [] || Classes([], CriticFailed(c, st)) == [Persistent];
    assert Persistent in [Persistent];
  }

  /** Adapting either leaves the loop or spends a fix or a stage retry. */
  lemma AdaptSpends(c: StageConfig, w: World, st: LoopState)
    requires !CanKeepReplanning(c) && HistoryFits(c, st)
    ensures AdaptPhase(c, w, st).st.executions == st.executions
    ensures AdaptPhase(c, w, st).Again? ==>
              Left(c, AdaptPhase(c, w, st).st) < Left(c, st) && HistoryFits(c, AdaptPhase(c, w, st).st)
  {
    hide GatePasses, CriticFailed, HasFixHints, Failures, Repeated, KindsOf, FailedOf;
    if c.gate.required == [] { NoFailuresWithoutRequired(c, st); }
  }

  lemma PassSpends(c: StageConfig, w: World, st: LoopState)
    requires TextCritics(c, w) && !CanKeepReplanning(c) && HistoryFits(c, st)
    ensures PassOf(c, w, st).st.executions <= st.executions + 1
    ensures PassOf(c, w, st).Again? ==>
              Left(c, PassOf(c, w, st).st) < Left(c, st) && HistoryFits(c, PassOf(c, w, st).st)
  {
    hide CanKeepReplanning, ExecutePhase, ControlPhase, AdaptPhase, Failures;
    PhasesKeepCounters(c, w, st);
    var executed := ExecutePhase(c, w, st);
    if executed.Again? {
      ExecutedResultsAreText(c, w, st);
      var controlled := ControlPhase(c, w, executed.st);
      if controlled.Again? {
        AdaptSpends(c, w, controlled.st);
      }
    }
  }

  /** Whatever the nodes, the critic and the planner do: a stage that cannot keep replanning is left
      after at most 1 + (fixes left) + (stage retries left) passes, each executing at most once. */
  lemma {:induction false} StageIsBounded(c: StageConfig, w: World, st: LoopState, limit: nat)
    requires TextCritics(c, w) && !CanKeepReplanning(c) && HistoryFits(c, st)
    requires limit >= 1 + Left(c, st)
    ensures RunPasses(c, w, st, limit).Leave?
    ensures RunPasses(c, w, st, limit).st.executions <= st.executions + 1 + Left(c, st)
    decreases limit
  {
    hide TextCritics, CanKeepReplanning, PassOf, Left, HistoryFits;
    PassSpends(c, w, st);
    var pass := PassOf(c, w, st);
    if pass.Again? {
      StageIsBounded(c, w, pass.st, limit - 1);
    }
  }

  /** The state in which a stage enters the loop, with the retry count of the checkpoint it resumes from. */
  function Enter(retries: int, skipExecute: bool, skipControl: bool, snapshot: Option<Snapshot>): LoopState
  {
    LoopState(0, 0, retries, 0, [], skipExecute, skipControl, map[], None, snapshot)
  }

  /** A stage executes at most 1 + max_verdict_fix_attempts + max(0, max_stage_retries - starting count) times. */
  lemma StageExecutionBound(c: StageConfig, w: World, retries: int, skipExecute: bool, skipControl: bool,
                            snapshot: Option<Snapshot>, limit: nat)
    requires TextCritics(c, w) && !CanKeepReplanning(c)
    requires limit >= 1 + AtLeastZero(c.recovery.maxVerdictFixAttempts) + AtLeastZero(c.recovery.maxStageRetries - retries)
    ensures var last := RunPasses(c, w, Enter(retries, skipExecute, skipControl, snapshot), limit);
            last.Leave? && last.st.executions <=
            1 + AtLeastZero(c.recovery.maxVerdictFixAttempts) + AtLeastZero(c.recovery.maxStageRetries - retries)
  {
    hide TextCritics, CanKeepReplanning, RunPasses;
    StageIsBounded(c, w, Enter(retries, skipExecute, skipControl, snapshot), limit);
  }

  // ---- The other stages can run forever ----

  ghost function SystemicOutput(): NodeOutput
  {
    NodeOutput(map[], map[], Failed, Some("constraint"), Some(FailureClass(Systemic, "constraint", false)))
  }

  ghost function HopelessResults(c: StageConfig): map<string, NodeOutput>
  {
    map nid | nid in c.gate.required :: SystemicOutput()
  }

  /** Every required node fails for a systemic reason, every time, and the planner always replies. */
  ghost function HopelessWorld(c: StageConfig): World
  {
    World((n: nat) => Ran(HopelessResults(c)), (n: nat) => true, (s: string) => None)
  }

  lemma HopelessIsText(c: StageConfig)
    ensures TextCritics(c, HopelessWorld(c))
  {
  }

  lemma {:induction false} AllSystemic(required: seq<string>, results: map<string, NodeOutput>)
    requires forall x :: x in required ==> x in results && results[x] == SystemicOutput()
    ensures |FailedOf(required, results)| == |required|
    ensures |KindsOf(FailedOf(required, results))| == |required| && AllAre(KindsOf(FailedOf(required, results)), Systemic)
  {
    if |required| > 0 {
      AllSystemic(required[..|required| - 1], results);
    }
  }

  lemma HopelessPhases(c: StageConfig, st: LoopState)
    requires TextCritics(c, HopelessWorld(c)) && c.gate.required != [] && !st.skipExecute && !st.skipControl
    ensures var w := HopelessWorld(c);
            var e := ExecutePhase(c, w, st);
            e.Again? && e.st.executions == st.executions + 1 && !e.st.skipExecute &&
            var k := ControlPhase(c, w, e.st);
            && k.Again? && k.st.executions == st.executions + 1
            && k.st.results == HopelessResults(c)
            && !GatePasses(c, k.st)
  {
    hide SnapshotFields, Project, ParseCriticVerdict, Downgrade, ParseVerdict;
    assert c.gate.required[0] in HopelessResults(c);
  }

  lemma HopelessPass(c: StageConfig, st: LoopState)
    requires CanKeepReplanning(c) && TextCritics(c, HopelessWorld(c)) && !st.skipExecute && !st.skipControl
    ensures var pass := PassOf(c, HopelessWorld(c), st);
            pass.Again? && pass.st.executions == st.executions + 1 && !pass.st.skipExecute && !pass.st.skipControl
  {
    hide ExecutePhase, ControlPhase, GatePasses, KindsOf, Repeated, CriticFailed, FailedOf, HasFixHints;
    var w := HopelessWorld(c);
    HopelessPhases(c, st);
    ExecutedResultsAreText(c, w, st);
    var k := ControlPhase(c, w, ExecutePhase(c, w, st).st).st;
    AllSystemic(c.gate.required, k.results);
    var failed := FailedOf(c.gate.required, k.results);
    var kinds := KindsOf(failed);
    assert Classes(failed, CriticFailed(c, k)) == kinds;
    assert kinds[0] in kinds;
    assert ActionAt(c, k) == Replan;
  }

  /** A stage that can keep replanning may execute any number of times: no bound exists. */
  lemma {:induction false} ReplanningIsUnbounded(c: StageConfig, st: LoopState, limit: nat)
    requires CanKeepReplanning(c) && !st.skipExecute && !st.skipControl
    ensures TextCritics(c, HopelessWorld(c))
    ensures RunPasses(c, HopelessWorld(c), st, limit).Again?
    ensures RunPasses(c, HopelessWorld(c), st, limit).st.executions == st.executions + limit
    decreases limit
  {
    hide CanKeepReplanning, TextCritics, PassOf, HopelessWorld;
    HopelessIsText(c);
    if limit > 0 {
      HopelessPass(c, st);
      ReplanningIsUnbounded(c, PassOf(c, HopelessWorld(c), st).st, limit - 1);
    }
  }
}
