/** The rollback scope (recovery/scope.py). */
module Scope {
  import opened Graph

  // ---- Reachability along edges ----

  ghost predicate IsPath(edges: seq<GraphEdge>, path: seq<string>)
  {
    |path| > 0 && forall i :: 0 <= i < |path| - 1 ==> GraphEdge(path[i], path[i + 1]) in edges
  }

  ghost predicate IsPathFrom(edges: seq<GraphEdge>, seeds: set<string>, path: seq<string>, x: string)
  {
    IsPath(edges, path) && path[0] in seeds && path[|path| - 1] == x
  }

  /** x is a seed or downstream of one. */
  ghost predicate DependsOn(edges: seq<GraphEdge>, seeds: set<string>, x: string)
  {
    exists path :: IsPathFrom(edges, seeds, path, x)
  }

  lemma SeedDepends(edges: seq<GraphEdge>, seeds: set<string>, x: string)
    requires x in seeds
    ensures DependsOn(edges, seeds, x)
  {
    assert IsPathFrom(edges, seeds, [x], x);
  }

  lemma PathExtends(edges: seq<GraphEdge>, path: seq<string>, y: string)
    requires IsPath(edges, path) && GraphEdge(path[|path| - 1], y) in edges
    ensures IsPath(edges, path + [y])
  {
    var longer := path + [y];
    forall i | 0 <= i < |longer| - 1
      ensures GraphEdge(longer[i], longer[i + 1]) in edges
    {
      if i < |path| - 1 { assert GraphEdge(path[i], path[i + 1]) in edges; }
    }
  }

  lemma SuccessorDepends(edges: seq<GraphEdge>, seeds: set<string>, x: string, y: string)
    requires DependsOn(edges, seeds, x) && GraphEdge(x, y) in edges
    ensures DependsOn(edges, seeds, y)
  {
    var path :| IsPathFrom(edges, seeds, path, x);
    PathExtends(edges, path, y);
    assert IsPathFrom(edges, seeds, path + [y], y);
  }

  /** A dependent that is not itself a seed has a dependent predecessor. */
  lemma DependentHasDependentPred(edges: seq<GraphEdge>, seeds: set<string>, x: string) returns (p: string)
    requires DependsOn(edges, seeds, x) && x !in seeds
    ensures DependsOn(edges, seeds, p) && GraphEdge(p, x) in edges
  {
    var path :| IsPathFrom(edges, seeds, path, x);
    var init := path[..|path| - 1];
    p := init[|init| - 1];
    forall i | 0 <= i < |init| - 1
      ensures GraphEdge(init[i], init[i + 1]) in edges
    {
      assert GraphEdge(path[i], path[i + 1]) in edges;
    }
    assert GraphEdge(path[|path| - 2], path[|path| - 1]) in edges;
    assert IsPathFrom(edges, seeds, init, p);
  }

  /** A set with the seeds that is closed under edges holds every dependent. */
  lemma {:induction false} ClosedHoldsDependents(edges: seq<GraphEdge>, seeds: set<string>, closed: set<string>, path: seq<string>)
    requires seeds <= closed && forall x, y :: x in closed && GraphEdge(x, y) in edges ==> y in closed
    requires IsPath(edges, path) && path[0] in seeds
    ensures path[|path| - 1] in closed
  {
    if |path| > 1 {
      var init := path[..|path| - 1];
      forall i | 0 <= i < |init| - 1
        ensures GraphEdge(init[i], init[i + 1]) in edges
      {
        assert GraphEdge(path[i], path[i + 1]) in edges;
      }
      ClosedHoldsDependents(edges, seeds, closed, init);
      assert GraphEdge(path[|path| - 2], path[|path| - 1]) in edges;
    }
  }

  // ---- _transitive_dependents ----

  /** The worklist invariant: everything found depends on a seed, and only queued nodes may have unseen successors. */
  ghost predicate Explored(edges: seq<GraphEdge>, seeds: set<string>, result: set<string>, queue: seq<string>)
  {
    && seeds <= result
    && (forall x :: x in result ==> DependsOn(edges, seeds, x))
    && (forall x :: x in queue ==> x in result)
    && (forall x, y :: x in result && x !in queue && GraphEdge(x, y) in edges ==> y in result)
  }

  method Listing(s: set<string>) returns (list: seq<string>)
    ensures forall x :: x in list <==> x in s
  {
    list := [];
    var rest := s;
    while rest != {}
      invariant forall x :: x in s <==> x in list || x in rest
      decreases rest
    {
      var x :| x in rest;
      list := list + [x];
      rest := rest - {x};
    }
  }

  /** Add the unseen ones among the successors of x to the result and the queue. */
  method Visit(edges: seq<GraphEdge>, seeds: set<string>, x: string, result0: set<string>, queue0: seq<string>)
    returns (result: set<string>, queue: seq<string>)
    requires Explored(edges, seeds, result0, queue0 + [x])
    ensures Explored(edges, seeds, result, queue)
    ensures result0 <= result <= seeds + Targets(edges) + result0
    ensures result == result0 ==> queue == queue0
  {
    result, queue := result0, queue0;
    var succs := Succs(edges, x);
    assert x in queue0 + [x];
    for i := 0 to |succs|
      invariant result0 <= result <= result0 + Targets(edges)
      invariant result == result0 ==> queue == queue0
      invariant forall z :: z in result ==> DependsOn(edges, seeds, z)
      invariant forall z :: z in queue ==> z in result
      invariant forall z :: z in queue0 ==> z in queue
      invariant forall z :: z in result && z !in result0 ==> z in queue
      invariant forall z :: z in succs[..i] ==> z in result
    {
      var y := succs[i];
      assert succs[..i + 1] == succs[..i] + [y] && y in succs;
      if y !in result {
        SuccessorDepends(edges, seeds, x, y);
        result := result + {y};
        queue := queue + [y];
      }
    }
    forall a, b | a in result && a !in queue && GraphEdge(a, b) in edges
      ensures b in result
    {
      if a == x { assert b in succs[..|succs|]; } else { assert a !in queue0 + [x]; }
    }
  }

  method TransitiveDependents(g: ActionGraph, seeds: set<string>) returns (result: set<string>)
    ensures forall x :: x in result <==> DependsOn(g.edges, seeds, x)
  {
    result := seeds;
    var queue := Listing(seeds);
    forall x | x in seeds
      ensures DependsOn(g.edges, seeds, x)
    {
      SeedDepends(g.edges, seeds, x);
    }
    while queue != []
      invariant Explored(g.edges, seeds, result, queue)
      invariant result <= seeds + Targets(g.edges)
      decreases seeds + Targets(g.edges) - result, |queue|
    {
      var x := queue[|queue| - 1];
      assert queue == queue[..|queue| - 1] + [x];
      ghost var before := result;
      result, queue := Visit(g.edges, seeds, x, result, queue[..|queue| - 1]);
      assert result != before ==> exists y :: y in result && y !in before;
    }
    forall x | DependsOn(g.edges, seeds, x)
      ensures x in result
    {
      var path :| IsPathFrom(g.edges, seeds, path, x);
      ClosedHoldsDependents(g.edges, seeds, result, path);
    }
  }

  // ---- compute_rollback_scope ----

  datatype FailureType = NodeExecution | CriticRejection | ConstraintViolation | PlanInvalidation

  datatype ScopeType = NodeScope | SubgraphScope | ConstraintScope | IntentionScope

  datatype RollbackScope = RollbackScope(scopeType: ScopeType, nodeIds: set<string>, preservation: set<string>)

  /** The nodes whose rejection a scope starts from. */
  function RejectedNodes(failure: FailureType, failed: set<string>, criticFailed: bool, gateRequired: set<string>): (rejected: set<string>)
    ensures failed != {} || failure != CriticRejection || !criticFailed ==> rejected == failed
    ensures failed == {} && failure == CriticRejection && criticFailed ==> rejected == gateRequired
  {
    if failure.CriticRejection? && criticFailed && gateRequired != {} && failed == {} then gateRequired else failed
  }

  /** The whole graph for constraint violations and invalid plans; otherwise the rejected nodes
      with everything downstream, keeping the other completed nodes. */
  method ComputeRollbackScope(failure: FailureType, g: ActionGraph, failed: set<string>, criticFailed: bool,
                              completed: set<string>, gateRequired: set<string>)
    returns (scope: RollbackScope)
    ensures failure.ConstraintViolation? || failure.PlanInvalidation? ==>
              scope == RollbackScope(IntentionScope, Ids(g), {})
    ensures failure.NodeExecution? || failure.CriticRejection? ==>
              && (scope.scopeType == if failure.CriticRejection? && criticFailed && gateRequired != {}
                                     then SubgraphScope else NodeScope)
              && (forall x :: x in scope.nodeIds <==>
                    DependsOn(g.edges, RejectedNodes(failure, failed, criticFailed, gateRequired), x))
              && scope.preservation == completed - scope.nodeIds
  {
    if failure.ConstraintViolation? || failure.PlanInvalidation? {
      return RollbackScope(IntentionScope, Ids(g), {});
    }
    if failure.CriticRejection? && criticFailed && gateRequired != {} {
      var rejected := if failed != {} then failed else gateRequired;
      var ids := TransitiveDependents(g, rejected);
      return RollbackScope(SubgraphScope, ids, completed - ids);
    }
    var ids := TransitiveDependents(g, failed);
    return RollbackScope(NodeScope, ids, completed - ids);
  }
}
