/** What one pass of the stage loop does, and how a stage ends, in terms of what its nodes returned. */
module StageExits {
  import opened Gate
  import opened JsonValues
  import opened Nodes
  import opened Policy
  import opened StageLoop
  import opened Wrappers

  // ---- The failed nodes ----

  predicate Fails(required: seq<string>, results: map<string, NodeOutput>, nid: string)
  {
    nid in required && nid in results && results[nid].status != Completed
  }

  lemma {:induction false} FailedExactly(required: seq<string>, results: map<string, NodeOutput>)
    ensures var failed := FailedOf(required, results);
            && (forall i :: 0 <= i < |failed| ==> Fails(required, results, failed[i].0) && failed[i].1 == results[failed[i].0])
            && (forall nid :: multiset(IdsOf(failed))[nid] == if Fails(required, results, nid) then multiset(required)[nid] else 0)
  {
    if |required| > 0 {
      var n := |required| - 1;
      var nid := required[n];
      FailedExactly(required[..n], results);
      assert required == required[..n] + [nid];
      var rest := FailedOf(required[..n], results);
      assert forall x :: x in required[..n] ==> x in required;
      forall i | 0 <= i < |rest|
        ensures Fails(required, results, rest[i].0)
      {
        assert Fails(required[..n], results, rest[i].0);
      }
      if Fails(required, results, nid) {
        assert IdsOf(rest + [(nid, results[nid])]) == IdsOf(rest) + [nid];
      }
    }
  }

  // ---- The state in which a pass decides ----

  /** The critic's content is text wherever this pass reads it. */
  predicate Readable(c: StageConfig, st: LoopState)
  {
    HasCritic(c.gate) && !st.skipExecute ==> CriticText(st.results, c.gate.critic.value)
  }

  /** The stage was executed in this pass, and the execution was cut. */
  ghost predicate LastCut(w: World, st: LoopState)
  {
    !st.skipExecute && st.executions > 0 && w.executed(st.executions - 1).Cut?
  }

  /** A completed critic left no object to snapshot; or, on resume, the snapshot's fields do not have the verdict's types. */
  predicate Unreadable(c: StageConfig, w: World, st: LoopState)
    requires Readable(c, st)
  {
    HasCritic(c.gate) &&
    if st.skipExecute then !st.skipControl && st.snapshot.Some? && !KeptFits(st.snapshot.value.critic)
    else NoObject(w.loads, st.results, c.gate.critic.value)
  }

  predicate NoObject(loads: Loads, results: map<string, NodeOutput>, critic: string)
    requires CriticText(results, critic)
  {
    critic in results && results[critic].status == Completed &&
    var out := results[critic];
    var text := if "content" in out.outputs then out.outputs["content"].s else "";
    !("parsed" in out.outputs && out.outputs["parsed"].Obj?) && loads(text).Some? && !loads(text).value.Obj?
  }

  /** The gate: every required node completed and the critic, if there is one, passes; on resume as far as the snapshot
      tells. */
  predicate GateHolds(c: StageConfig, w: World, st: LoopState)
    requires Readable(c, st)
  {
    && (if st.skipExecute then st.snapshot.Some? && st.snapshot.value.requiredOk else AllCompleted(c.gate.required, st.results))
    && (HasCritic(c.gate) ==>
          if st.skipExecute || st.skipControl then st.snapshot.Some? && SaysPass(st.snapshot.value.critic)
          else CriticPasses(w.loads, st.results, c.gate.critic.value))
  }

  /** What counts as a rejection by the critic: without a verdict of this pass, its mere existence. */
  predicate CriticRejects(c: StageConfig, w: World, st: LoopState)
    requires Readable(c, st)
  {
    && HasCritic(c.gate)
    && (st.skipControl ||
        if st.skipExecute then !(st.snapshot.Some? && SaysPass(st.snapshot.value.critic))
        else !CriticPasses(w.loads, st.results, c.gate.critic.value))
  }

  /** A rejection of this pass with reasons or suggestions, and fixes left. */
  predicate FixFollows(c: StageConfig, w: World, st: LoopState)
    requires Readable(c, st)
  {
    && HasCritic(c.gate) && !st.skipExecute && !st.skipControl && st.fixes < c.recovery.maxVerdictFixAttempts
    && !CriticPasses(w.loads, st.results, c.gate.critic.value) && !SaysNothing(w.loads, st.results, c.gate.critic.value)
  }

  // ---- The phases lead there ----

  /** Control is skipped only before there is a verdict. */
  predicate Entered(st: LoopState)
  {
    st.skipControl ==> st.verdict.None?
  }

  ghost predicate Judged(c: StageConfig, w: World, st: LoopState)
  {
    && Readable(c, st)
    && (!st.skipExecute ==> st.snapshot.Some? && BuildSnapshot(w.loads, st.results, c.gate) == st.snapshot)
    && st.verdict ==
       if st.skipControl || !HasCritic(c.gate) then None
       else if !st.skipExecute then Some(ExtractVerdict(w.loads, st.results, c.gate.critic.value))
       else if st.snapshot.Some? then VerdictFromSnapshot(st.snapshot.value) else None
  }

  lemma SnapshotFails(loads: Loads, results: map<string, NodeOutput>, gate: StageGate)
    requires HasCritic(gate) ==> CriticText(results, gate.critic.value)
    ensures BuildSnapshot(loads, results, gate).None? <==> HasCritic(gate) && NoObject(loads, results, gate.critic.value)
  {
    hide Project;
  }

  lemma KeptParses(s: Snapshot)
    ensures VerdictFromSnapshot(s).Some? <==> KeptFits(s.critic)
    ensures VerdictFromSnapshot(s).Some? ==> (Passing(VerdictFromSnapshot(s).value) <==> SaysPass(s.critic))
  {
    hide FieldsFit, ParseVerdict;
    ProjectionVerdict(s.critic);
    KeptProjects(s.critic);
  }

  lemma KeptProjects(fields: map<string, Json>)
    ensures FieldsFit(Project(fields)) <==> KeptFits(fields)
    ensures Passes(fields) <==> SaysPass(fields)
  {
  }

  /** Executing and controlling: cut, unreadable, or on to the decision. */
  lemma PhasesLead(c: StageConfig, w: World, st: LoopState) returns (k: LoopState)
    requires TextCritics(c, w) && Entered(st)
    ensures Arrives(c, w, st, k) && (LastCut(w, k) || Readable(c, k))
    ensures match ExecutePhase(c, w, st)
            case Leave(st1, e) => k == st1 && (if LastCut(w, k) then e == CutShort else e == Errored && Readable(c, k) && Unreadable(c, w, k))
            case Again(st1) =>
              Readable(c, st1) && !LastCut(w, k) &&
              match ControlPhase(c, w, st1)
              case Leave(st2, e) => k == st2 && e == Errored && Readable(c, k) && Unreadable(c, w, k)
              case Again(st2) => k == st2 && Judged(c, w, k) && !Unreadable(c, w, k)
  {
    hide VerdictFromSnapshot, ExtractVerdict, BuildSnapshot, KeptFits, NoObject, CriticText;
    ExecutedResultsAreText(c, w, st);
    var executed := ExecutePhase(c, w, st);
    if !st.skipExecute && w.executed(st.executions).Ran? {
      assert w.executed(st.executions).Ran?;
      SnapshotFails(w.loads, w.executed(st.executions).results, c.gate);
    }
    if executed.Leave? {
      k := executed.st;
    } else {
      if st.skipExecute && st.snapshot.Some? { KeptParses(st.snapshot.value); }
      k := ControlPhase(c, w, executed.st).st;
    }
  }

  /** What a pass changes before it decides. */
  ghost predicate Arrives(c: StageConfig, w: World, st: LoopState, k: LoopState)
  {
    && k.retries == st.retries && k.fixes == st.fixes && k.history == st.history && k.replans == st.replans
    && k.skipExecute == st.skipExecute && k.skipControl == st.skipControl
    && k.executions == st.executions + (if st.skipExecute then 0 else 1)
    && (st.skipExecute ==> k.results == st.results && k.snapshot == st.snapshot)
    && (!st.skipExecute && w.executed(st.executions).Ran? ==> k.results == w.executed(st.executions).results)
  }

  lemma GateIsThere(c: StageConfig, w: World, k: LoopState)
    requires Judged(c, w, k) && !Unreadable(c, w, k)
    ensures GatePasses(c, k) <==> GateHolds(c, w, k)
    ensures CriticFailed(c, k) <==> CriticRejects(c, w, k)
    ensures TriesFix(c, k) <==> FixFollows(c, w, k)
  {
    hide VerdictFromSnapshot, ExtractVerdict, KeptFits, CriticPasses, SaysNothing, SnapshotFields, Project, NoObject;
    if !k.skipExecute { SnapshotRequired(w.loads, k.results, c.gate); }
    if HasCritic(c.gate) {
      if k.snapshot.Some? { KeptParses(k.snapshot.value); }
      if !k.skipExecute {
        HeardVerdict(w.loads, k.results, c.gate.critic.value);
        if !CriticPasses(w.loads, k.results, c.gate.critic.value) { HeardHints(w.loads, k.results, c.gate.critic.value); }
      }
    }
  }

  // ---- One pass, exactly ----

  /** With the gate closed, nothing to fix and no leave to proceed: what the policy answers, and what becomes of it. */
  ghost function Recovered(c: StageConfig, w: World, k: LoopState): Pass
    requires Readable(c, k)
  {
    var failed := FailedOf(c.gate.required, k.results);
    if FailsRun(failed, c.recovery, CriticRejects(c, w, k), k.history) then Leave(k, RunFailed)
    else if Retries(failed, k.retries, c.recovery, k.history) then
      Again(k.(history := k.history + [IdsOf(failed)], retries := k.retries + 1, skipExecute := false, skipControl := false))
    else if Replans(failed, c.recovery, k.history, c.hasPlanner) && w.replanned(k.replans) then
      Again(k.(replans := k.replans + 1, results := map[], skipExecute := false, skipControl := false))
    else Leave(k, PausedRun)
  }

  lemma RecoversSo(c: StageConfig, w: World, k: LoopState)
    requires Readable(c, k) && (CriticFailed(c, k) <==> CriticRejects(c, w, k))
    ensures Apply(c, w, k, ActionAt(c, k)) == Recovered(c, w, k)
  {
    hide ActionFor, FailsRun, Retries, FailedOf, CriticFailed, CriticRejects, HasKind, OnlyKind, FailedTooOften;
    ActionIsDecided(FailedOf(c.gate.required, k.results), k.retries, c.recovery, CriticFailed(c, k), k.history, c.hasPlanner);
  }

  /** One pass: it executes unless that is skipped, and then leaves on a cut, on an unreadable critic, when the gate holds or
      when the stage may proceed anyway; otherwise it fixes what the critic said, or recovers. */
  lemma PassExactly(c: StageConfig, w: World, st: LoopState) returns (k: LoopState)
    requires TextCritics(c, w) && Entered(st)
    ensures Arrives(c, w, st, k) && (LastCut(w, k) || Readable(c, k))
    ensures !LastCut(w, k) && !Unreadable(c, w, k) && !st.skipExecute ==> k.snapshot == BuildSnapshot(w.loads, k.results, c.gate)
    ensures PassOf(c, w, st) ==
            if LastCut(w, k) then Leave(k, CutShort)
            else if Unreadable(c, w, k) then Leave(k, Errored)
            else if GateHolds(c, w, k) then Leave(k, Passed)
            else if c.proceedOnFail then Leave(k, Proceeded)
            else if FixFollows(c, w, k) then Again(k.(fixes := k.fixes + 1, skipExecute := false, skipControl := false))
            else Recovered(c, w, k)
  {
    hide TextCritics, ExecutePhase, ControlPhase, GatePasses, GateHolds, TriesFix, FixFollows, Apply, ActionAt, Recovered, CriticFailed,
         CriticRejects, Unreadable, Judged, Readable, LastCut;
    ExecutedResultsAreText(c, w, st);
    k := PhasesLead(c, w, st);
    if !LastCut(w, k) && JudgedAndReadable(c, w, k) {
      SnapshotIsBuilt(c, w, k);
      GateIsThere(c, w, k);
      RecoversSo(c, w, k);
    }
  }

  lemma SnapshotIsBuilt(c: StageConfig, w: World, k: LoopState)
    requires Judged(c, w, k)
    ensures Readable(c, k) && (!k.skipExecute ==> k.snapshot == BuildSnapshot(w.loads, k.results, c.gate))
  {
  }

  ghost predicate JudgedAndReadable(c: StageConfig, w: World, k: LoopState)
  {
    Judged(c, w, k) && Readable(c, k) && !Unreadable(c, w, k)
  }

  // ---- How a stage ends ----

  /** Each exit under its exact condition, in the state the stage is left with. */
  ghost predicate Explained(c: StageConfig, w: World, k: LoopState, exit: StageExit)
  {
    var failed := FailedOf(c.gate.required, k.results);
    && (exit == CutShort <==> LastCut(w, k))
    && (!LastCut(w, k) ==>
          && Readable(c, k)
          && (exit == Errored <==> Unreadable(c, w, k))
          && (!Unreadable(c, w, k) ==>
                && (exit == Passed <==> GateHolds(c, w, k))
                && (exit == Proceeded <==> !GateHolds(c, w, k) && c.proceedOnFail)
                && (!GateHolds(c, w, k) && !c.proceedOnFail ==>
                      && !FixFollows(c, w, k)
                      && !Retries(failed, k.retries, c.recovery, k.history)
                      && (exit == RunFailed <==> FailsRun(failed, c.recovery, CriticRejects(c, w, k), k.history))
                      && (exit == PausedRun <==> !FailsRun(failed, c.recovery, CriticRejects(c, w, k), k.history))
                      && (Replans(failed, c.recovery, k.history, c.hasPlanner) ==> !w.replanned(k.replans)))))
  }

  /** However a stage ends, it ends so for the stated reason. */
  lemma {:induction false} StageEndsExactly(c: StageConfig, w: World, st: LoopState, limit: nat)
    requires TextCritics(c, w) && Entered(st) && RunPasses(c, w, st, limit).Leave?
    ensures Explained(c, w, RunPasses(c, w, st, limit).st, RunPasses(c, w, st, limit).exit)
    decreases limit
  {
    hide TextCritics, PassOf, LastCut, Unreadable, GateHolds, FixFollows, FailsRun, Retries, Replans, CriticRejects, Readable, FailedOf, Arrives;
    var k := PassExactly(c, w, st);
    var pass := PassOf(c, w, st);
    if pass.Again? {
      StageEndsExactly(c, w, pass.st, limit - 1);
    } else if !LastCut(w, k) {
      RetriesNotFails(FailedOf(c.gate.required, k.results), k.retries, c.recovery, CriticRejects(c, w, k), k.history, c.hasPlanner);
    }
  }

  lemma RetriesNotFails(failed: FailedNodes, retries: int, cfg: RecoveryConfig, criticFailed: bool, history: seq<seq<string>>, hasPlanner: bool)
    ensures FailsRun(failed, cfg, criticFailed, history) ==> !Retries(failed, retries, cfg, history)
    ensures FailsRun(failed, cfg, criticFailed, history) ==> !Replans(failed, cfg, history, hasPlanner)
  {
    hide FailsRun, Retries, Replans, ActionFor;
    ActionIsDecided(failed, retries, cfg, criticFailed, history, hasPlanner);
  }
}
