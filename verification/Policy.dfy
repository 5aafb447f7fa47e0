/** `decide_recovery` (recovery/policy.py). */
module Policy {
  import opened Nodes
  import opened Wrappers

  datatype RecoveryAction = RetryStage | Escalate | FailRun | Replan

  /** The recovery section of the configuration (config.py). */
  datatype RecoveryConfig = RecoveryConfig(
    maxNodeRetries: int, maxStageRetries: int, upgradeThreshold: int,
    repeatedRollbackThreshold: int, allowAutoReplan: bool, maxVerdictFixAttempts: int)

  const DEFAULT_RECOVERY := RecoveryConfig(3, 2, 2, 3, false, 1)

  type FailedNodes = seq<(string, NodeOutput)>

  datatype EscalationContext = EscalationContext(
    failureClasses: seq<FailureKind>, stageRetryCount: int, failedNodeIds: seq<string>, repeatedRollback: bool)

  datatype Decision = Decision(action: RecoveryAction, context: Option<EscalationContext>)

  // ---- What the decision depends on ----

  function IdsOf(failed: FailedNodes): (ids: seq<string>)
    ensures |ids| == |failed|
  {
    seq(|failed|, i requires 0 <= i < |failed| => failed[i].0)
  }

  /** The failure kinds of the failed nodes, in order. */
  function KindsOf(failed: FailedNodes): seq<FailureKind>
  {
    if |failed| == 0 then []
    else
      var (nid, out) := failed[|failed| - 1];
      var kinds := KindsOf(failed[..|failed| - 1]);
      if out.failureClass.Some? then kinds + [out.failureClass.value.kind] else kinds
  }

  /** A rejecting critic with no failed node counts as one persistent failure. */
  function Classes(failed: FailedNodes, criticFailed: bool): seq<FailureKind>
  {
    if criticFailed && failed == [] then KindsOf(failed) + [Persistent] else KindsOf(failed)
  }

  /** How often a node failed over all attempts. */
  function Failures(attempts: seq<seq<string>>, nid: string): nat
  {
    if |attempts| == 0 then 0
    else Failures(attempts[..|attempts| - 1], nid) + multiset(attempts[|attempts| - 1])[nid]
  }

  ghost predicate Repeated(attempts: seq<seq<string>>, threshold: int)
  {
    exists nid :: Failures(attempts, nid) >= 1 && Failures(attempts, nid) >= threshold
  }

  predicate AllAre(kinds: seq<FailureKind>, kind: FailureKind)
  {
    forall k :: k in kinds ==> k == kind
  }

  /** The action, by the order of the rules. */
  ghost function ActionFor(failed: FailedNodes, stageRetryCount: int, cfg: RecoveryConfig, criticFailed: bool,
                           history: seq<seq<string>>, hasPlanner: bool): RecoveryAction
  {
    var classes := Classes(failed, criticFailed);
    if Critical in classes then FailRun
    else if Repeated(history + [IdsOf(failed)], cfg.repeatedRollbackThreshold) then
      if cfg.allowAutoReplan && hasPlanner then Replan else Escalate
    else if classes == [] then FailRun
    else if AllAre(classes, Transient) && stageRetryCount < cfg.maxStageRetries then RetryStage
    else if cfg.allowAutoReplan && hasPlanner && AllAre(classes, Systemic) then Replan
    else Escalate
  }

  // ---- What the action means, node by node ----

  /** Some failed node has a failure of this kind. */
  ghost predicate HasKind(failed: FailedNodes, kind: FailureKind)
  {
    exists i :: 0 <= i < |failed| && failed[i].1.failureClass.Some? && failed[i].1.failureClass.value.kind == kind
  }

  /** The class of some failed node is known, and all known ones are of this kind. */
  ghost predicate OnlyKind(failed: FailedNodes, kind: FailureKind)
  {
    HasKind(failed, kind) &&
    forall i :: 0 <= i < |failed| && failed[i].1.failureClass.Some? ==> failed[i].1.failureClass.value.kind == kind
  }

  ghost predicate NoClassKnown(failed: FailedNodes)
  {
    forall i :: 0 <= i < |failed| ==> failed[i].1.failureClass.None?
  }

  lemma {:induction false} KindsAreHeld(failed: FailedNodes)
    ensures forall kind :: kind in KindsOf(failed) <==> HasKind(failed, kind)
  {
    if |failed| > 0 {
      var init, last := failed[..|failed| - 1], failed[|failed| - 1];
      KindsAreHeld(init);
      forall kind
        ensures HasKind(failed, kind) <==> HasKind(init, kind) || (last.1.failureClass.Some? && last.1.failureClass.value.kind == kind)
      {
        if i :| 0 <= i < |init| && init[i].1.failureClass.Some? && init[i].1.failureClass.value.kind == kind {
          assert failed[i] == init[i];
        }
        if last.1.failureClass.Some? && last.1.failureClass.value.kind == kind { assert failed[|failed| - 1] == last; }
      }
    }
  }

  lemma ClassesAreHeld(failed: FailedNodes, criticFailed: bool)
    ensures forall kind :: kind in Classes(failed, criticFailed) <==>
              HasKind(failed, kind) || (criticFailed && failed == [] && kind == Persistent)
    ensures Classes(failed, criticFailed) == [] <==> NoClassKnown(failed) && !(criticFailed && failed == [])
  {
    hide KindsOf;
    KindsAreHeld(failed);
    var kinds := KindsOf(failed);
    if kinds != [] { assert kinds[0] in kinds; }
    forall i | 0 <= i < |failed| && failed[i].1.failureClass.Some?
      ensures HasKind(failed, failed[i].1.failureClass.value.kind)
    {
    }
  }

  lemma AllAreOnly(failed: FailedNodes, criticFailed: bool, kind: FailureKind)
    requires Classes(failed, criticFailed) != [] && kind != Persistent
    ensures AllAre(Classes(failed, criticFailed), kind) <==> OnlyKind(failed, kind)
  {
    hide Classes;
    ClassesAreHeld(failed, criticFailed);
    var classes := Classes(failed, criticFailed);
    assert classes[0] in classes;
    forall i | 0 <= i < |failed| && failed[i].1.failureClass.Some?
      ensures HasKind(failed, failed[i].1.failureClass.value.kind)
    {
    }
  }

  /** Some node has failed at least as often as the threshold says, this time included. */
  ghost predicate FailedTooOften(failed: FailedNodes, cfg: RecoveryConfig, history: seq<seq<string>>)
  {
    exists nid :: Max1(cfg.repeatedRollbackThreshold) <= Failures(history, nid) + multiset(IdsOf(failed))[nid]
  }

  /** A critical failure, or nothing to go by. */
  ghost predicate FailsRun(failed: FailedNodes, cfg: RecoveryConfig, criticFailed: bool, history: seq<seq<string>>)
  {
    || HasKind(failed, Critical)
    || (!FailedTooOften(failed, cfg, history) && NoClassKnown(failed) && !(criticFailed && failed == []))
  }

  /** Only transient failures, none too often, and retries left. */
  ghost predicate Retries(failed: FailedNodes, stageRetryCount: int, cfg: RecoveryConfig, history: seq<seq<string>>)
  {
    !FailedTooOften(failed, cfg, history) && OnlyKind(failed, Transient) && stageRetryCount < cfg.maxStageRetries
  }

  /** Replanning is allowed and possible, and some node failed too often or all failures are systemic. */
  ghost predicate Replans(failed: FailedNodes, cfg: RecoveryConfig, history: seq<seq<string>>, hasPlanner: bool)
  {
    && cfg.allowAutoReplan && hasPlanner && !HasKind(failed, Critical)
    && (FailedTooOften(failed, cfg, history) || OnlyKind(failed, Systemic))
  }

  /** The exact condition of each action. */
  ghost predicate DecidedFor(action: RecoveryAction, failed: FailedNodes, stageRetryCount: int, cfg: RecoveryConfig, criticFailed: bool,
                             history: seq<seq<string>>, hasPlanner: bool)
  {
    && (action == FailRun <==> FailsRun(failed, cfg, criticFailed, history))
    && (action == RetryStage <==> Retries(failed, stageRetryCount, cfg, history))
    && (action == Replan <==> Replans(failed, cfg, history, hasPlanner))
    && (action == Escalate <==>
          && !FailsRun(failed, cfg, criticFailed, history)
          && !Retries(failed, stageRetryCount, cfg, history)
          && !Replans(failed, cfg, history, hasPlanner))
  }

  /** When no attempt lists a node twice, a node has failed as often as attempts list it. */
  lemma {:induction false} FailuresCountAttempts(attempts: seq<seq<string>>, nid: string)
    requires forall i :: 0 <= i < |attempts| ==> multiset(attempts[i])[nid] <= 1
    ensures Failures(attempts, nid) == |AttemptsWith(attempts, nid)|
  {
    hide AttemptsWith;
    if |attempts| == 0 {
      NoAttempts(nid);
    } else {
      var n := |attempts| - 1;
      FailuresCountAttempts(attempts[..n], nid);
      OneMoreAttempt(attempts, nid);
    }
  }

  lemma NoAttempts(nid: string)
    ensures AttemptsWith([], nid) == {}
  {
  }

  lemma OneMoreAttempt(attempts: seq<seq<string>>, nid: string)
    requires |attempts| > 0 && multiset(attempts[|attempts| - 1])[nid] <= 1
    ensures |AttemptsWith(attempts, nid)| == |AttemptsWith(attempts[..|attempts| - 1], nid)| + multiset(attempts[|attempts| - 1])[nid]
  {
    var n := |attempts| - 1;
    var before := AttemptsWith(attempts[..n], nid);
    assert nid in attempts[n] <==> nid in multiset(attempts[n]);
    if nid in attempts[n] {
      assert AttemptsWith(attempts, nid) == before + {n} && n !in before;
    } else {
      assert AttemptsWith(attempts, nid) == before;
    }
  }

  ghost function AttemptsWith(attempts: seq<seq<string>>, nid: string): set<int>
  {
    set i | 0 <= i < |attempts| && nid in attempts[i]
  }

  function Max1(n: int): nat
  {
    if n > 1 then n else 1
  }

  lemma RepeatedIffOften(history: seq<seq<string>>, failed: FailedNodes, cfg: RecoveryConfig)
    ensures Repeated(history + [IdsOf(failed)], cfg.repeatedRollbackThreshold) <==> FailedTooOften(failed, cfg, history)
  {
    hide IdsOf;
    var attempts := history + [IdsOf(failed)];
    assert attempts[..|attempts| - 1] == history;
    assert forall nid :: Failures(attempts, nid) == Failures(history, nid) + multiset(IdsOf(failed))[nid];
    if nid :| Max1(cfg.repeatedRollbackThreshold) <= Failures(history, nid) + multiset(IdsOf(failed))[nid] {
      assert Failures(attempts, nid) >= 1;
    }
  }

  lemma ActionIsDecided(failed: FailedNodes, stageRetryCount: int, cfg: RecoveryConfig, criticFailed: bool,
                        history: seq<seq<string>>, hasPlanner: bool)
    ensures DecidedFor(ActionFor(failed, stageRetryCount, cfg, criticFailed, history, hasPlanner),
                       failed, stageRetryCount, cfg, criticFailed, history, hasPlanner)
  {
    hide Classes, Repeated, AllAre, FailedTooOften, IdsOf;
    ClassesAreHeld(failed, criticFailed);
    RepeatedIffOften(history, failed, cfg);
    if Classes(failed, criticFailed) != [] {
      AllAreOnly(failed, criticFailed, Transient);
      AllAreOnly(failed, criticFailed, Systemic);
    }
  }

  // ---- The loops ----

  method CollectClasses(failed: FailedNodes, criticFailed: bool) returns (classes: seq<FailureKind>)
    ensures classes == Classes(failed, criticFailed)
  {
    classes := [];
    for i := 0 to |failed|
      invariant classes == KindsOf(failed[..i])
    {
      assert failed[..i + 1][..i] == failed[..i];
      var (_, out) := failed[i];
      if out.failureClass.Some? {
        classes := classes + [out.failureClass.value.kind];
      }
    }
    assert failed[..|failed|] == failed;
    if criticFailed && failed == [] {
      classes := classes + [Persistent];
    }
  }

  method CountAttempt(counts0: map<string, nat>, attempt: seq<string>) returns (counts: map<string, nat>)
    ensures forall nid :: Count(counts, nid) == Count(counts0, nid) + multiset(attempt)[nid]
    ensures forall nid :: nid in counts ==> nid in counts0 || counts[nid] >= 1
  {
    counts := counts0;
    for i := 0 to |attempt|
      invariant forall nid :: Count(counts, nid) == Count(counts0, nid) + multiset(attempt[..i])[nid]
      invariant forall nid :: nid in counts ==> nid in counts0 || counts[nid] >= 1
    {
      assert attempt[..i + 1] == attempt[..i] + [attempt[i]];
      counts := counts[attempt[i] := Count(counts, attempt[i]) + 1];
    }
    assert attempt[..|attempt|] == attempt;
  }

  /** `counts[nid]` of a Counter. */
  function Count(counts: map<string, nat>, nid: string): nat
  {
    if nid in counts then counts[nid] else 0
  }

  method CountFailures(attempts: seq<seq<string>>) returns (counts: map<string, nat>)
    ensures forall nid :: Count(counts, nid) == Failures(attempts, nid)
    ensures forall nid :: nid in counts ==> counts[nid] >= 1
  {
    counts := map[];
    for i := 0 to |attempts|
      invariant forall nid :: Count(counts, nid) == Failures(attempts[..i], nid)
      invariant forall nid :: nid in counts ==> counts[nid] >= 1
    {
      assert attempts[..i + 1][..i] == attempts[..i];
      ghost var before := counts;
      counts := CountAttempt(counts, attempts[i]);
      forall nid | nid in counts
        ensures counts[nid] >= 1
      {
        if nid in before { assert Count(counts, nid) >= Count(before, nid); }
      }
    }
    assert attempts[..|attempts|] == attempts;
  }

  method DecideRecovery(failed: FailedNodes, stageRetryCount: int, cfg: RecoveryConfig, criticFailed: bool,
                        history: seq<seq<string>>, hasPlanner: bool) returns (d: Decision)
    ensures d.action == ActionFor(failed, stageRetryCount, cfg, criticFailed, history, hasPlanner)
    ensures DecidedFor(d.action, failed, stageRetryCount, cfg, criticFailed, history, hasPlanner)
    ensures d.context.Some? <==> d.action == Escalate
    ensures d.context.Some? ==>
              d.context.value == EscalationContext(
                Classes(failed, criticFailed), stageRetryCount, IdsOf(failed),
                Repeated(history + [IdsOf(failed)], cfg.repeatedRollbackThreshold))
  {
    hide Failures, Count, DecidedFor;
    ActionIsDecided(failed, stageRetryCount, cfg, criticFailed, history, hasPlanner);
    var currentIds := IdsOf(failed);
    var classes := CollectClasses(failed, criticFailed);
    if Critical in classes {
      return Decision(FailRun, None);
    }
    var counts := CountFailures(history + [currentIds]);
    var threshold := cfg.repeatedRollbackThreshold;
    var repeated := exists nid :: nid in counts && counts[nid] >= threshold;
    RepeatedIffCounted(history + [currentIds], threshold, counts);
    if repeated {
      if cfg.allowAutoReplan && hasPlanner {
        return Decision(Replan, None);
      }
      return Decision(Escalate, Some(EscalationContext(classes, stageRetryCount, currentIds, true)));
    }
    if classes == [] {
      return Decision(FailRun, None);
    }
    if AllAre(classes, Transient) && stageRetryCount < cfg.maxStageRetries {
      return Decision(RetryStage, None);
    }
    if cfg.allowAutoReplan && hasPlanner && AllAre(classes, Systemic) {
      return Decision(Replan, None);
    }
    return Decision(Escalate, Some(EscalationContext(classes, stageRetryCount, currentIds, false)));
  }

  lemma RepeatedIffCounted(attempts: seq<seq<string>>, threshold: int, counts: map<string, nat>)
    requires forall nid :: Count(counts, nid) == Failures(attempts, nid)
    requires forall nid :: nid in counts ==> counts[nid] >= 1
    ensures Repeated(attempts, threshold) <==> exists nid :: nid in counts && counts[nid] >= threshold
  {
    hide Failures;
    if Repeated(attempts, threshold) {
      var nid :| Failures(attempts, nid) >= 1 && Failures(attempts, nid) >= threshold;
      assert Count(counts, nid) >= 1;
    }
    if nid :| nid in counts && counts[nid] >= threshold {
      assert Failures(attempts, nid) == Count(counts, nid);
    }
  }
}
