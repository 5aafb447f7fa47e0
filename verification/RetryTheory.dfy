/** The retry chain: node retries (executor), classification and the recovery policy together. */
module RetryTheory {
  import opened Classifier
  import opened ExecutorSpec
  import opened Graph
  import opened MissingMessage
  import opened Nodes
  import opened Order
  import opened Policy
  import opened Text
  import opened Wrappers

  function AtLeastZero(n: int): nat
  {
    if n > 0 then n else 0
  }

  // ---- Node retries ----

  ghost predicate IsFailure(out: NodeOutput, kind: FailureKind)
  {
    !out.status.Completed? && out.failureClass.Some? && out.failureClass.value.kind == kind
  }

  lemma RetriesOnlyTransient(s: Setup, impl: NodeImpl, inputs: Values, attempt: nat)
    ensures var out := Attempt(s, impl, inputs, attempt);
            && (!out.status.Completed? ==> out.failureClass.Some?)
            && (IsFailure(out, Transient) ==> attempt < s.upgradeThreshold)
            && (!Stops(s, out, attempt) ==> IsFailure(out, Transient) && attempt < s.maxNodeRetries)
            && (Stops(s, out, attempt) && IsFailure(out, Transient) ==> attempt >= s.maxNodeRetries)
  {
    hide ContainsAny;
  }

  /** A node is called at most 1 + min(max_node_retries, threshold) times; it is retried only after
      transient failures; and a transient failure is the last output only when the retry limit lies
      below the upgrade threshold. */
  lemma {:induction false} AttemptsAreBounded(s: Setup, impl: NodeImpl, inputs: Values, attempt: nat)
    ensures var outs := Attempts(s, impl, inputs, attempt);
            && |outs| <= 1 + AtLeastZero(Min(s.maxNodeRetries, s.upgradeThreshold) - attempt)
            && (forall i :: 0 <= i < |outs| - 1 ==> IsFailure(outs[i], Transient))
            && (!outs[|outs| - 1].status.Completed? ==> outs[|outs| - 1].failureClass.Some?)
            && (IsFailure(outs[|outs| - 1], Transient) ==>
                  attempt < s.upgradeThreshold && AtLeastZero(s.maxNodeRetries) < s.upgradeThreshold)
    decreases AtLeastZero(s.maxNodeRetries - attempt)
  {
    hide Attempt, Stops, IsFailure;
    RetriesOnlyTransient(s, impl, inputs, attempt);
    var out := Attempt(s, impl, inputs, attempt);
    if !Stops(s, out, attempt) {
      AttemptsAreBounded(s, impl, inputs, attempt + 1);
    }
  }

  /** The output of the call with the given number: what the node returned, or that it raised, with a failure classified. */
  predicate IsCall(s: Setup, impl: NodeImpl, inputs: Values, n: nat, out: NodeOutput)
  {
    match impl(inputs, n)
    case Raised(m) => out == NodeOutput(map[], map[], Failed, Some(m), Some(ClassifyFailure(Some(m), n, s.upgradeThreshold)))
    case Returned(o) =>
      && out.outputs == o.outputs && out.quality == o.quality && out.status == o.status && out.error == o.error
      && out.failureClass == if o.status == Completed then o.failureClass else Some(ClassifyFailure(o.error, n, s.upgradeThreshold))
  }

  lemma AttemptIsCall(s: Setup, impl: NodeImpl, inputs: Values, n: nat)
    ensures IsCall(s, impl, inputs, n, Attempt(s, impl, inputs, n))
  {
    hide ClassifyFailure;
  }

  /** Each call gets the number of the attempt, and the last one is the last for a reason. */
  lemma {:induction false} CallsAreMade(s: Setup, impl: NodeImpl, inputs: Values, attempt: nat)
    ensures var outs := Attempts(s, impl, inputs, attempt);
            && (forall i :: 0 <= i < |outs| ==> IsCall(s, impl, inputs, attempt + i, outs[i]))
            && (!IsFailure(outs[|outs| - 1], Transient) || attempt + |outs| - 1 >= s.maxNodeRetries)
    decreases AtLeastZero(s.maxNodeRetries - attempt)
  {
    hide Attempt, Stops, IsFailure, IsCall;
    AttemptIsCall(s, impl, inputs, attempt);
    RetriesOnlyTransient(s, impl, inputs, attempt);
    var out := Attempt(s, impl, inputs, attempt);
    if !Stops(s, out, attempt) {
      CallsAreMade(s, impl, inputs, attempt + 1);
      var rest := Attempts(s, impl, inputs, attempt + 1);
      forall i | 0 < i < |rest| + 1
        ensures IsCall(s, impl, inputs, attempt + i, ([out] + rest)[i])
      {
        assert IsCall(s, impl, inputs, attempt + 1 + (i - 1), rest[i - 1]);
      }
    }
  }

  // ---- The bound is attained: a node that always times out ----

  const ALWAYS_TIMES_OUT: NodeImpl := (v: Values, attempt: nat) => Raised("timeout")

  lemma TimeoutIsTransient(retryCount: nat, threshold: int)
    ensures ClassifyFailure(Some("timeout"), retryCount, threshold).kind == if retryCount >= threshold then Persistent else Transient
  {
    hide Contains;
    LowerCaseStays("timeout");
    TooLong("timeout", "permission denied");
    TooLong("timeout", "access denied");
    TooLong("timeout", "security");
    NoDoubleO();
    TooLong("timeout", "out of memory");
    TooLong("timeout", "memory limit");
    AbsentLetter("timeout", "killed", 'k');
    AbsentLetter("timeout", "sigkill", 'k');
    Whole("timeout");
  }

  lemma NoDoubleO()
    ensures !Contains("timeout", "oom")
  {
    if i: nat :| i <= 7 && OccursAt("timeout", "oom", i) {
      assert "timeout"[i] == "oom"[0] && "timeout"[i + 1] == "oom"[1];
    }
  }

  lemma Whole(s: string)
    ensures Contains(s, s)
  {
    assert OccursAt(s, s, 0);
  }

  lemma {:induction false} TimeoutsAttainTheBound(s: Setup, inputs: Values, attempt: nat)
    requires attempt <= AtLeastZero(Min(s.maxNodeRetries, s.upgradeThreshold))
    ensures var outs := Attempts(s, ALWAYS_TIMES_OUT, inputs, attempt);
            && |outs| == 1 + AtLeastZero(Min(s.maxNodeRetries, s.upgradeThreshold)) - attempt
            && (IsFailure(outs[|outs| - 1], Transient) <==> AtLeastZero(s.maxNodeRetries) < s.upgradeThreshold)
    decreases AtLeastZero(s.maxNodeRetries - attempt)
  {
    hide ClassifyFailure;
    TimeoutIsTransient(attempt, s.upgradeThreshold);
    var out := Attempt(s, ALWAYS_TIMES_OUT, inputs, attempt);
    if !Stops(s, out, attempt) {
      TimeoutsAttainTheBound(s, inputs, attempt + 1);
    }
  }

  // ---- What the policy can answer to the executor ----

  /** Failed nodes as the stage loop collects them from the results of a run. */
  ghost predicate FailedIn(s: Setup, r: map<string, NodeOutput>, failed: FailedNodes)
  {
    forall i :: 0 <= i < |failed| ==> FailedAt(s, r, failed[i].0, failed[i].1)
  }

  ghost predicate FailedAt(s: Setup, r: map<string, NodeOutput>, nid: string, out: NodeOutput)
  {
    nid in r && nid in NodeMap(s.graph) && out == r[nid] == ExecuteNode(s, nid, r) && !out.status.Completed?
  }

  /** The id has no implementation, and the message naming it reads as transient. */
  ghost predicate LooksTransient(s: Setup, nid: string)
  {
    nid !in s.registry && NoImplementation(s, nid).failureClass.value.kind == Transient
  }

  lemma FailureOfNode(s: Setup, r: map<string, NodeOutput>, nid: string)
    requires nid in NodeMap(s.graph) && !ExecuteNode(s, nid, r).status.Completed?
    ensures ExecuteNode(s, nid, r).failureClass.Some?
    ensures ExecuteNode(s, nid, r).failureClass.value.kind == Transient <==>
            LooksTransient(s, nid) ||
            (nid in s.registry && ExecuteNode(s, nid, r).failureClass.value.kind == Transient
             && AtLeastZero(s.maxNodeRetries) < s.upgradeThreshold)
  {
    hide ClassifyFailure, GatherInputs, NodeMap, Attempts;
    if nid in s.registry {
      AttemptsAreBounded(s, s.registry[nid], GatherInputs(s, nid, r), 0);
    }
  }

  lemma {:induction false} KindsAreAll(failed: FailedNodes)
    requires forall i :: 0 <= i < |failed| ==> failed[i].1.failureClass.Some?
    ensures |KindsOf(failed)| == |failed|
    ensures forall i :: 0 <= i < |failed| ==> KindsOf(failed)[i] == failed[i].1.failureClass.value.kind
  {
    if |failed| > 0 {
      KindsAreAll(failed[..|failed| - 1]);
    }
  }

  /** With node retries up to the upgrade threshold (as by default), the policy answers RETRY_STAGE to
      the executor exactly when retries are left, no node failed too often, and every failed node lacks
      an implementation and has an id that makes the message look transient. */
  lemma RetryStageOnExecutorFailures(s: Setup, r: map<string, NodeOutput>, failed: FailedNodes, retries: int,
                                     cfg: RecoveryConfig, criticFailed: bool, history: seq<seq<string>>, hasPlanner: bool)
    requires FailedIn(s, r, failed) && s.upgradeThreshold <= AtLeastZero(s.maxNodeRetries)
    ensures ActionFor(failed, retries, cfg, criticFailed, history, hasPlanner) == RetryStage <==>
            && failed != [] && retries < cfg.maxStageRetries
            && !Repeated(history + [IdsOf(failed)], cfg.repeatedRollbackThreshold)
            && forall i :: 0 <= i < |failed| ==> LooksTransient(s, failed[i].0)
  {
    hide ExecuteNode, NodeMap, Repeated, KindsOf, LooksTransient;
    forall i | 0 <= i < |failed|
      ensures failed[i].1.failureClass.Some?
      ensures failed[i].1.failureClass.value.kind == Transient <==> LooksTransient(s, failed[i].0)
    {
      assert FailedAt(s, r, failed[i].0, failed[i].1);
      FailureOfNode(s, r, failed[i].0);
    }
    KindsAreAll(failed);
    var kinds := KindsOf(failed);
    assert AllAre(kinds, Transient) ==> forall i :: 0 <= i < |failed| ==> LooksTransient(s, failed[i].0) by {
      forall i | 0 <= i < |failed|
        ensures AllAre(kinds, Transient) ==> LooksTransient(s, failed[i].0)
      {
        assert kinds[i] in kinds;
      }
    }
    assert (forall i :: 0 <= i < |failed| ==> LooksTransient(s, failed[i].0)) ==> AllAre(kinds, Transient) by {
      forall k | k in kinds && forall i :: 0 <= i < |failed| ==> LooksTransient(s, failed[i].0)
        ensures k == Transient
      {
        var i :| 0 <= i < |kinds| && kinds[i] == k;
        assert LooksTransient(s, failed[i].0);
      }
    }
    assert AllAre(kinds, Transient) ==> Critical !in kinds;
    assert failed == [] ==> Classes(failed, criticFailed) == [] || Persistent in Classes(failed, criticFailed);
  }

  /** Hence RETRY_STAGE is out of reach when every failed node has an implementation. */
  lemma RegisteredNodesNeverRetryStage(s: Setup, r: map<string, NodeOutput>, failed: FailedNodes, retries: int,
                                       cfg: RecoveryConfig, criticFailed: bool, history: seq<seq<string>>, hasPlanner: bool)
    requires FailedIn(s, r, failed) && s.upgradeThreshold <= AtLeastZero(s.maxNodeRetries)
    requires forall i :: 0 <= i < |failed| ==> failed[i].0 in s.registry
    ensures ActionFor(failed, retries, cfg, criticFailed, history, hasPlanner) != RetryStage
  {
    hide ActionFor, NoImplementation, Repeated;
    RetryStageOnExecutorFailures(s, r, failed, retries, cfg, criticFailed, history, hasPlanner);
    if failed != [] { assert !LooksTransient(s, failed[0].0); }
  }

  /** That depends on the id alone: it has to hold a transient phrase and no critical one. */
  lemma LooksTransientByItsId(s: Setup, nid: string)
    ensures LooksTransient(s, nid) <==>
            && nid !in s.registry && 0 < s.upgradeThreshold
            && !ContainsAny(Lower(nid), CRITICAL_PHRASES) && ContainsAny(Lower(nid), TRANSIENT_PHRASES)
  {
    hide ContainsAny;
    IdDecides(nid);
  }

  /** Under the default limits one failed node without implementation makes the policy retry the stage
      exactly when its id holds a transient phrase and no critical one. */
  lemma MissingImplementationRetriesStage(s: Setup, nid: string)
    requires nid in NodeMap(s.graph) && nid !in s.registry
    requires s.maxNodeRetries == DEFAULT_RECOVERY.maxNodeRetries && s.upgradeThreshold == DEFAULT_RECOVERY.upgradeThreshold
    ensures ActionFor([(nid, ExecuteNode(s, nid, map[]))], 0, DEFAULT_RECOVERY, false, [], false) == RetryStage
            <==> !ContainsAny(Lower(nid), CRITICAL_PHRASES) && ContainsAny(Lower(nid), TRANSIENT_PHRASES)
  {
    hide NodeMap, ActionFor, ContainsAny, Failures, LooksTransient;
    var out := ExecuteNode(s, nid, map[]);
    var r := map[nid := out];
    var failed := [(nid, out)];
    assert out == ExecuteNode(s, nid, r) == NoImplementation(s, nid);
    OneFailure(nid);
    assert FailedAt(s, r, nid, out);
    assert failed[0].0 == nid && IdsOf(failed) == [nid];
    RetryStageOnExecutorFailures(s, r, failed, 0, DEFAULT_RECOVERY, false, [], false);
    LooksTransientByItsId(s, nid);
  }

  /** An id for which it does. */
  lemma TimeoutNodeRetriesStage(s: Setup)
    requires "timeout" in NodeMap(s.graph) && "timeout" !in s.registry
    requires s.maxNodeRetries == DEFAULT_RECOVERY.maxNodeRetries && s.upgradeThreshold == DEFAULT_RECOVERY.upgradeThreshold
    ensures ActionFor([("timeout", ExecuteNode(s, "timeout", map[]))], 0, DEFAULT_RECOVERY, false, [], false) == RetryStage
  {
    hide NodeMap, ActionFor, ContainsAny, ExecuteNode;
    TimeoutIsTransient(0, 1);
    MissingImplementationRetriesStage(s, "timeout");
  }

  lemma OneFailure(nid: string)
    ensures !Repeated([] + [[nid]], DEFAULT_RECOVERY.repeatedRollbackThreshold)
  {
    forall x
      ensures Failures([[nid]], x) <= 1
    {
      assert [[nid]][..0] == [];
    }
    assert [] + [[nid]] == [[nid]];
  }
}
