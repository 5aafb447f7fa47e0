/** Every plan is a valid graph, or has too many nodes (htn_recursive_backend.py with dynamic_planner.py). */
module HtnTheory {
  import opened ExecutorTheory
  import opened Graph
  import opened Htn
  import opened HtnGraph
  import opened JsonValues
  import opened KahnTheory
  import opened Order
  import opened Patch
  import opened PlannedGraph
  import opened Text
  import opened Wrappers

  // ---- The leaves of a whole plan, in the order the queue yields them ----

  function Collected(req: PlannerRequest, context: ContextKind): seq<HtnLeaf>
  {
    if context == Web then WebLeaves(req) else []
  }

  function Reads(req: PlannerRequest, context: ContextKind): seq<HtnLeaf>
  {
    if context == Docs then ReadLeaves(DocPaths(req)) else []
  }

  function AllLeaves(req: PlannerRequest, context: ContextKind): seq<HtnLeaf>
  {
    Collected(req, context) + DraftLeaves(req, context) + [CriticLeaf(req, context)] + Reads(req, context)
  }

  /** How many distinct nodes some leaves make. */
  function NodeCount(leaves: seq<HtnLeaf>): nat
  {
    |ToSet(LeafIds(leaves))|
  }

  lemma NodeCountGrows(a: seq<HtnLeaf>, b: seq<HtnLeaf>)
    ensures NodeCount(a) <= NodeCount(a + b)
  {
    assert LeafIds(a + b) == LeafIds(a) + LeafIds(b);
    SubsetSize(ToSet(LeafIds(a)), ToSet(LeafIds(a + b)));
  }

  // ---- Draining the queue, from its last state back to its first ----

  function DocsTail(context: ContextKind, read: HtnSubgoal): seq<HtnSubgoal>
  {
    if context == Docs then [read] else []
  }

  /** What a stage of the loop still yields: all the leaves given, unless they are too many or too deep. */
  ghost predicate Yields(req: PlannerRequest, context: ContextKind, opts: BackendOptions, replies: Replies, p: Planning, rest: seq<HtnLeaf>)
  {
    var r := PlanFrom(req, context, opts, replies, p);
    && (r.Ok? <==> (context != Docs || opts.maxDepth >= 2) && NodeCount(p.leaves + rest) <= opts.maxTotalNodes)
    && (r.Ok? ==> r.value.leaves == p.leaves + rest)
    && (r.Err? && (context != Docs || opts.maxDepth >= 2) ==> r.error == TooManyNodes)
  }

  /** Enough frontier for three subgoals, and depth for the first expansions. */
  predicate Roomy(req: PlannerRequest, context: ContextKind, opts: BackendOptions, p: Planning)
  {
    && context == ContextOf(req.metadata)
    && opts.maxFrontier >= 3 && opts.maxDepth >= 1
    && NodeCount(p.leaves) <= opts.maxTotalNodes
  }

  lemma DocsHasPaths(req: PlannerRequest)
    requires ContextOf(req.metadata) == Docs
    ensures DocPaths(req) != []
  {
    hide Strip;
  }

  /** One pass that is not refused for its depth or the length of the queue. */
  lemma OnePass(req: PlannerRequest, context: ContextKind, opts: BackendOptions, replies: Replies, p: Planning,
                methodId: string, e: Expansion, rest: seq<HtnLeaf>) returns (next: Planning)
    requires Roomy(req, context, opts, p) && p.queue != [] && |p.queue| <= 3 && p.queue[0].depth <= opts.maxDepth
    requires methodId == SelectMethod(p.queue[0], context, opts, replies, p.calls).0
    requires e == ExpansionOf(req, p.queue[0], methodId, context)
    ensures next.queue == p.queue[1..] + e.subgoals && next.leaves == p.leaves + e.leaves
    ensures NodeCount(next.leaves) <= opts.maxTotalNodes ==> Roomy(req, context, opts, next)
    ensures NodeCount(next.leaves) <= opts.maxTotalNodes && Yields(req, context, opts, replies, next, rest)
            ==> Yields(req, context, opts, replies, p, e.leaves + rest)
    ensures NodeCount(next.leaves) > opts.maxTotalNodes ==> Yields(req, context, opts, replies, p, e.leaves + rest)
  {
    hide SelectMethod, ExpansionOf, LeafIds, ToSet, ContextOf;
    var choice := SelectMethod(p.queue[0], context, opts, replies, p.calls);
    next := Planning(p.queue[1..] + e.subgoals, p.leaves + e.leaves, p.calls + if choice.1 then 1 else 0, p.path + [choice.0]);
    assert p.leaves + (e.leaves + rest) == next.leaves + rest;
    NodeCountGrows(next.leaves, rest);
  }

  lemma NothingLeft(req: PlannerRequest, context: ContextKind, opts: BackendOptions, replies: Replies, p: Planning)
    requires p.queue == [] && NodeCount(p.leaves) <= opts.maxTotalNodes && (context == Docs ==> opts.maxDepth >= 2)
    ensures Yields(req, context, opts, replies, p, [])
  {
    hide NodeCount;
    assert p.leaves + [] == p.leaves;
  }

  lemma FromReads(req: PlannerRequest, context: ContextKind, opts: BackendOptions, replies: Replies, p: Planning, read: HtnSubgoal)
    requires Roomy(req, context, opts, p) && p.queue == DocsTail(context, read) && read.kind == ReadDocs && read.depth == 2
    ensures Yields(req, context, opts, replies, p, Reads(req, context))
  {
    hide SelectMethod, ReadLeaves, NodeCount, ContextOf, Yields;
    if context != Docs {
      NothingLeft(req, context, opts, replies, p);
    } else if opts.maxDepth < 2 {
      TooDeep(req, opts, replies, p);
    } else {
      DocsHasPaths(req);
      var m := SelectMethod(read, context, opts, replies, p.calls).0;
      var e := ExpansionOf(req, read, m, context);
      assert e == Expansion([], Reads(req, context));
      var next := OnePass(req, context, opts, replies, p, m, e, []);
      assert e.leaves + [] == e.leaves && next.queue == [];
      if NodeCount(next.leaves) <= opts.maxTotalNodes { NothingLeft(req, context, opts, replies, next); }
    }
  }

  lemma TooDeep(req: PlannerRequest, opts: BackendOptions, replies: Replies, p: Planning)
    requires |p.queue| == 1 && opts.maxFrontier >= 1 && p.queue[0].depth == 2 && opts.maxDepth < 2
    ensures Yields(req, Docs, opts, replies, p, Reads(req, Docs))
  {
    hide SelectMethod, NodeCount, ExpansionOf;
  }

  lemma FromVerify(req: PlannerRequest, context: ContextKind, opts: BackendOptions, replies: Replies, p: Planning,
                   verify: HtnSubgoal, read: HtnSubgoal)
    requires Roomy(req, context, opts, p) && p.queue == [verify] + DocsTail(context, read)
    requires verify.kind == Verify && verify.depth == 1 && read.kind == ReadDocs && read.depth == 2
    ensures Yields(req, context, opts, replies, p, [CriticLeaf(req, context)] + Reads(req, context))
  {
    hide SelectMethod, Reads, CriticLeaf, NodeCount, Yields, ContextOf;
    var m := SelectMethod(verify, context, opts, replies, p.calls).0;
    var next := OnePass(req, context, opts, replies, p, m, ExpansionOf(req, verify, m, context), Reads(req, context));
    assert next.queue == DocsTail(context, read);
    if NodeCount(next.leaves) <= opts.maxTotalNodes { FromReads(req, context, opts, replies, next, read); }
  }

  lemma FromSynthesize(req: PlannerRequest, context: ContextKind, opts: BackendOptions, replies: Replies, p: Planning,
                       synthesize: HtnSubgoal, verify: HtnSubgoal, read: HtnSubgoal)
    requires Roomy(req, context, opts, p) && p.queue == [synthesize, verify] + DocsTail(context, read)
    requires synthesize.kind == Synthesize && synthesize.depth == 1
    requires verify.kind == Verify && verify.depth == 1 && read.kind == ReadDocs && read.depth == 2
    ensures Yields(req, context, opts, replies, p, DraftLeaves(req, context) + ([CriticLeaf(req, context)] + Reads(req, context)))
  {
    hide SelectMethod, Reads, CriticLeaf, DraftLeaves, NodeCount, Yields, ContextOf;
    var m := SelectMethod(synthesize, context, opts, replies, p.calls).0;
    var rest := [CriticLeaf(req, context)] + Reads(req, context);
    var next := OnePass(req, context, opts, replies, p, m, ExpansionOf(req, synthesize, m, context), rest);
    assert next.queue == [verify] + DocsTail(context, read);
    if NodeCount(next.leaves) <= opts.maxTotalNodes { FromVerify(req, context, opts, replies, next, verify, read); }
  }

  /** Input collection is never left to the model. */
  lemma CollectingIsRuleBased(subgoal: HtnSubgoal, context: ContextKind, opts: BackendOptions, replies: Replies, calls: nat)
    requires subgoal.kind == CollectInputs
    ensures SelectMethod(subgoal, context, opts, replies, calls) == (RuleBased(CollectInputs, context), false)
  {
  }

  lemma CollectExpansion(req: PlannerRequest, subgoal: HtnSubgoal, context: ContextKind)
    requires subgoal.kind == CollectInputs
    ensures ExpansionOf(req, subgoal, RuleBased(CollectInputs, context), context)
            == Expansion(DocsTail(context, ChildOf(subgoal, ".read_docs", ReadDocs)), Collected(req, context))
  {
    hide WebLeaves;
  }

  lemma FromCollect(req: PlannerRequest, context: ContextKind, opts: BackendOptions, replies: Replies, p: Planning,
                    collect: HtnSubgoal, synthesize: HtnSubgoal, verify: HtnSubgoal)
    requires Roomy(req, context, opts, p) && p.queue == [collect, synthesize, verify]
    requires collect.kind == CollectInputs && synthesize.kind == Synthesize && verify.kind == Verify
    requires collect.depth == synthesize.depth == verify.depth == 1
    ensures Yields(req, context, opts, replies, p, AllLeaves(req, context))
  {
    hide SelectMethod, Reads, CriticLeaf, DraftLeaves, NodeCount, Yields, Collected, ExpansionOf, RuleBased, ContextOf;
    CollectingIsRuleBased(collect, context, opts, replies, p.calls);
    CollectExpansion(req, collect, context);
    var m := RuleBased(CollectInputs, context);
    var rest := DraftLeaves(req, context) + ([CriticLeaf(req, context)] + Reads(req, context));
    var next := OnePass(req, context, opts, replies, p, m, ExpansionOf(req, collect, m, context), rest);
    var read := ChildOf(collect, ".read_docs", ReadDocs);
    assert next.queue == [synthesize, verify] + DocsTail(context, read);
    if NodeCount(next.leaves) <= opts.maxTotalNodes {
      FromSynthesize(req, context, opts, replies, next, synthesize, verify, read);
    }
    assert Collected(req, context) + rest == AllLeaves(req, context);
  }

  /** The frontier and the depth a context needs. */
  predicate EnoughRoom(context: ContextKind, opts: BackendOptions)
  {
    opts.maxFrontier >= 3 && opts.maxDepth >= if context == Docs then 2 else 1
  }

  lemma NoLeavesCount()
    ensures NodeCount([]) == 0
  {
  }

  lemma FromRoot(req: PlannerRequest, context: ContextKind, opts: BackendOptions, replies: Replies)
    requires context == ContextOf(req.metadata) && opts.maxFrontier >= 3 && opts.maxDepth >= 1
    ensures Yields(req, context, opts, replies, StartPlanning(), AllLeaves(req, context))
  {
    hide SelectMethod, AllLeaves, NodeCount, ContextOf, PlanFrom;
    NoLeavesCount();
    var p := StartPlanning();
    var root := p.queue[0];
    var all := AllLeaves(req, context);
    assert [] + all == all;
    NodeCountGrows([], all);
    if opts.maxTotalNodes < 0 {
      RootRefused(req, context, opts, replies);
    } else {
      var m := SelectMethod(root, context, opts, replies, 0).0;
      var next := OnePass(req, context, opts, replies, p, m, ExpansionOf(req, root, m, context), all);
      FromCollect(req, context, opts, replies, next, next.queue[0], next.queue[1], next.queue[2]);
    }
  }

  lemma RootRefused(req: PlannerRequest, context: ContextKind, opts: BackendOptions, replies: Replies)
    requires opts.maxFrontier >= 1 && opts.maxDepth >= 0 && opts.maxTotalNodes < 0
    ensures PlanFrom(req, context, opts, replies, StartPlanning()) == Err(TooManyNodes)
  {
    hide SelectMethod;
  }

  /** The choice of the model is taken only when that is allowed, and only so often. */
  lemma {:induction false} ModelCallsAreBounded(req: PlannerRequest, context: ContextKind, opts: BackendOptions, replies: Replies, p: Planning)
    requires p.calls == 0 || (opts.modelAssisted && p.calls <= opts.maxCalls)
    ensures var r := PlanFrom(req, context, opts, replies, p);
            r.Ok? ==> r.value.calls == 0 || (opts.modelAssisted && r.value.calls <= opts.maxCalls)
    decreases TotalWeight(p.queue)
  {
    hide ExpansionOf, LeafIds, Assisted, RuleBased;
    if p.queue != [] {
      var step := PlanStep(req, context, opts, replies, p);
      if step.Ok? {
        StepShrinks(req, context, opts, replies, p);
        ModelCallsAreBounded(req, context, opts, replies, step.value);
      }
    }
  }

  /** With less room the loop raises, whatever the leaves. */
  lemma TooLittleRoom(req: PlannerRequest, context: ContextKind, opts: BackendOptions, replies: Replies)
    requires context == ContextOf(req.metadata) && !EnoughRoom(context, opts)
    ensures PlanFrom(req, context, opts, replies, StartPlanning()).Err?
  {
    hide SelectMethod, AllLeaves, NodeCount, ContextOf;
    if opts.maxFrontier >= 3 && opts.maxDepth >= 1 {
      FromRoot(req, context, opts, replies);
    }
  }

  // ---- The leaves have different names ----

  lemma {:induction false} DecimalReads(n: nat)
    ensures IsDigits(Decimal(n)) && ToNat(Decimal(n)) == n
    decreases n
  {
    if n >= 10 {
      DecimalReads(n / 10);
      var d := Decimal(n);
      assert d[..|d| - 1] == Decimal(n / 10);
    }
  }

  lemma {:induction false} ZeroInFront(d: string)
    requires IsDigits(d)
    ensures IsDigits("0" + d) && ToNat("0" + d) == ToNat(d)
    decreases |d|
  {
    var z := "0" + d;
    if |d| == 1 {
      assert z[..1] == "0";
    } else {
      assert z[..|z| - 1] == "0" + d[..|d| - 1];
      ZeroInFront(d[..|d| - 1]);
    }
  }

  lemma Pad3Reads(n: nat)
    ensures IsDigits(Pad3(n)) && ToNat(Pad3(n)) == n
  {
    hide Decimal;
    var d := Decimal(n);
    DecimalReads(n);
    ZeroInFront(d);
    ZeroInFront("0" + d);
    assert "0" + ("0" + d) == "00" + d;
  }

  lemma ReadIdsDiffer(i: nat, j: nat)
    ensures ReadId(i) == ReadId(j) ==> i == j
    ensures ReadId(i) != "" && ReadId(i)[0] == 'r'
  {
    hide Pad3, ToNat;
    Pad3Reads(i);
    Pad3Reads(j);
    assert ReadId(i)[5..] == Pad3(i) && ReadId(j)[5..] == Pad3(j);
  }

  /** The fixed names differ from each other, and from the names of the reads. */
  lemma NamesDiffer()
    ensures Distinct([DraftReport(), CriticReport(), MergeDocs()])
    ensures Distinct([FetchHtml(), ExtractArticle(), DraftReport(), ExportUserOutput(), CriticReport()])
    ensures Distinct([WriteFile(), DraftReport(), CriticReport()])
    ensures forall i: nat :: ReadId(i) != DraftReport() && ReadId(i) != CriticReport() && ReadId(i) != MergeDocs()
  {
    hide Pad3;
    assert |DraftReport()| == 12 && |CriticReport()| == 13 && |MergeDocs()| == 10 && |FetchHtml()| == 10;
    assert |ExtractArticle()| == 15 && |ExportUserOutput()| == 18 && |WriteFile()| == 10;
    forall i: nat
      ensures ReadId(i)[0] == 'r'
    {
    }
  }

  function ReadIds(n: nat): (ids: seq<string>)
    ensures |ids| == n && forall i :: 0 <= i < n ==> ids[i] == ReadId(i)
  {
    seq(n, i requires 0 <= i < n => ReadId(i))
  }

  /** The names of the leaves, in order. */
  function Names(context: ContextKind, docs: nat): seq<string>
  {
    match context
    case Docs => [DraftReport(), CriticReport()] + ReadIds(docs) + [MergeDocs()]
    case Web => [FetchHtml(), ExtractArticle(), DraftReport(), ExportUserOutput(), CriticReport()]
    case File => [WriteFile(), DraftReport(), CriticReport()]
    case Generic => [DraftReport(), CriticReport()]
  }

  lemma DocsLeafNames(req: PlannerRequest)
    ensures LeafIds(AllLeaves(req, Docs)) == Names(Docs, |DocPaths(req)|)
  {
    hide ReadId, DraftReport, CriticReport, MergeDocs, DocPaths, Pad3;
    var readings := ReadLeaves(DocPaths(req));
    assert AllLeaves(req, Docs) == [DraftLeaves(req, Docs)[0], CriticLeaf(req, Docs)] + readings;
    assert LeafIds(readings) == ReadIds(|DocPaths(req)|) + [MergeDocs()];
    assert LeafIds(AllLeaves(req, Docs)) == [DraftReport(), CriticReport()] + LeafIds(readings);
  }

  lemma LeafNames(req: PlannerRequest, context: ContextKind)
    ensures LeafIds(AllLeaves(req, context)) == Names(context, |DocPaths(req)|)
  {
    hide ReadId, DraftReport, CriticReport, MergeDocs, FetchHtml, ExtractArticle, WriteFile, ExportUserOutput,
         ExportName, Trimmed, DocPaths, RunId, DraftSources, ReadLeaves;
    if context == Docs { DocsLeafNames(req); }
  }

  lemma NamesDistinct(context: ContextKind, docs: nat)
    ensures Distinct(Names(context, docs))
  {
    hide ReadId, DraftReport, CriticReport, MergeDocs, FetchHtml, ExtractArticle, WriteFile, ExportUserOutput;
    NamesDiffer();
    if context == Docs {
      var readings := ReadIds(docs);
      forall i, j | 0 <= i < j < docs
        ensures readings[i] != readings[j]
      {
        ReadIdsDiffer(i, j);
      }
      FixedAndReads(docs);
    } else if context == Generic {
      var three := [DraftReport(), CriticReport(), MergeDocs()];
      assert three[0] != three[1];
    }
  }

  lemma FixedAndReads(docs: nat)
    requires Distinct(ReadIds(docs)) && Distinct([DraftReport(), CriticReport(), MergeDocs()])
    requires forall i: nat :: ReadId(i) != DraftReport() && ReadId(i) != CriticReport() && ReadId(i) != MergeDocs()
    ensures Distinct([DraftReport(), CriticReport()] + ReadIds(docs) + [MergeDocs()])
  {
    hide ReadId, DraftReport, CriticReport, MergeDocs;
    var three := [DraftReport(), CriticReport(), MergeDocs()];
    assert three[0] != three[1] && three[0] != three[2] && three[1] != three[2];
    DistinctConcat([DraftReport(), CriticReport()], ReadIds(docs));
    DistinctConcat([DraftReport(), CriticReport()] + ReadIds(docs), [MergeDocs()]);
  }

  /** How many nodes a plan needs. */
  function PlanSize(context: ContextKind, docs: nat): nat
  {
    match context case Docs => docs + 3 case Web => 5 case File => 3 case Generic => 2
  }

  lemma PlanSizeIsExact(req: PlannerRequest, context: ContextKind)
    ensures NodeCount(AllLeaves(req, context)) == PlanSize(context, |DocPaths(req)|)
  {
    hide ReadId, AllLeaves, DocPaths;
    LeafNames(req, context);
    NamesDistinct(context, |DocPaths(req)|);
    DistinctSize(LeafIds(AllLeaves(req, context)));
  }

  // ---- The graph of a plan ----

  /** Later than everything it depends on. */
  function Rank(x: string): nat
  {
    if x == CriticReport() || x == ExportUserOutput() then 3
    else if x == DraftReport() then 2
    else if x == MergeDocs() || x == ExtractArticle() then 1
    else 0
  }

  lemma Ranks()
    ensures Rank(CriticReport()) == Rank(ExportUserOutput()) == 3 && Rank(DraftReport()) == 2
    ensures Rank(MergeDocs()) == Rank(ExtractArticle()) == 1
    ensures Rank(FetchHtml()) == Rank(WriteFile()) == 0 && forall i: nat :: Rank(ReadId(i)) == 0
  {
    hide Pad3;
    assert |DraftReport()| == 12 && |CriticReport()| == 13 && |MergeDocs()| == 10 && |FetchHtml()| == 10;
    assert |ExtractArticle()| == 15 && |ExportUserOutput()| == 18 && |WriteFile()| == 10;
    forall i: nat
      ensures ReadId(i)[0] == 'r'
    {
    }
  }

  predicate Climbs(leaf: HtnLeaf)
  {
    forall dep :: dep in leaf.dependsOn ==> Rank(dep) < Rank(leaf.id)
  }

  lemma LeavesClimb(req: PlannerRequest, context: ContextKind)
    ensures forall leaf :: leaf in AllLeaves(req, context) ==> Climbs(leaf)
  {
    hide Rank, ReadId, DraftReport, CriticReport, MergeDocs, FetchHtml, ExtractArticle, WriteFile, ExportUserOutput,
         ExportName, Trimmed, DocPaths, RunId, Pad3;
    Ranks();
  }

  /** Along a walk of dependencies that climb, the rank grows with each edge. */
  lemma {:induction false} RankGrows(edges: seq<GraphEdge>, ids: set<string>, walk: seq<string>)
    requires forall e :: e in edges ==> Rank(e.source) < Rank(e.target)
    requires walk != [] && IsWalk(edges, ids, walk)
    ensures Rank(walk[0]) + |walk| - 1 <= Rank(walk[|walk| - 1])
    decreases |walk|
  {
    hide Rank;
    if |walk| > 1 {
      var n := |walk| - 2;
      assert GraphEdge(walk[n], walk[n + 1]) in edges;
      WalkPrefix(edges, ids, walk, n + 1);
      RankGrows(edges, ids, walk[..n + 1]);
    }
  }

  lemma ClimbingIsAcyclic(g: ActionGraph)
    requires forall e :: e in g.edges ==> Rank(e.source) < Rank(e.target)
    ensures Acyclic(g)
  {
    hide Rank, IsWalk;
    forall walk
      ensures !IsCycle(g.edges, Ids(g), walk)
    {
      if IsCycle(g.edges, Ids(g), walk) { RankGrows(g.edges, Ids(g), walk); }
    }
  }

  lemma PlanIsAcyclic(g: ActionGraph, req: PlannerRequest, context: ContextKind)
    requires IsGraphOf(g, req, AllLeaves(req, context))
    ensures Acyclic(g)
  {
    hide AllLeaves, IsGraphOf, Rank, Acyclic, LeafIds;
    var leaves := AllLeaves(req, context);
    BuiltGraphIsClosed(g, req, leaves);
    LeavesClimb(req, context);
    forall e | e in g.edges
      ensures Rank(e.source) < Rank(e.target)
    {
      var i :| 0 <= i < |leaves| && leaves[i].id == e.target && e.source in leaves[i].dependsOn;
      assert Climbs(leaves[i]);
    }
    ClimbingIsAcyclic(g);
  }

  lemma PlanNodes(g: ActionGraph, req: PlannerRequest, context: ContextKind)
    requires IsGraphOf(g, req, AllLeaves(req, context))
    ensures DraftReport() in Ids(g) && CriticReport() in Ids(g)
    ensures |g.nodes| == PlanSize(context, |DocPaths(req)|)
  {
    hide AllLeaves, DocPaths, DraftReport, CriticReport, Distinct, NodeFrom, EdgesSorted, Dependents;
    var leaves := AllLeaves(req, context);
    LeafNames(req, context);
    PlanSizeIsExact(req, context);
    BuiltGraphIsClosed(g, req, leaves);
    DistinctSize(NodeIds(g.nodes));
    assert Ids(g) == ToSet(LeafIds(leaves));
    NamesHaveReports(context, |DocPaths(req)|);
  }

  lemma NamesHaveReports(context: ContextKind, docs: nat)
    ensures DraftReport() in Names(context, docs) && CriticReport() in Names(context, docs)
  {
    hide DraftReport, CriticReport, ReadId;
    var names := Names(context, docs);
    if context == Docs {
      assert names[0] == DraftReport() && names[1] == CriticReport();
    }
  }

  // ---- The data flow of a plan ----

  lemma OnlyThisLeaf(leaves: seq<HtnLeaf>, k: nat, dep: string)
    requires Distinct(LeafIds(leaves)) && k < |leaves|
    ensures DependsOn(leaves, leaves[k].id, dep) <==> dep in leaves[k].dependsOn
  {
    if DependsOn(leaves, leaves[k].id, dep) {
      var i :| 0 <= i < |leaves| && leaves[i].id == leaves[k].id && dep in leaves[i].dependsOn;
      assert LeafIds(leaves)[i] == LeafIds(leaves)[k];
    }
  }

  lemma EdgesInto(g: ActionGraph, req: PlannerRequest, context: ContextKind, k: nat, x: string)
    requires IsGraphOf(g, req, AllLeaves(req, context)) && k < |AllLeaves(req, context)|
    ensures GraphEdge(x, AllLeaves(req, context)[k].id) in g.edges <==>
            x in Names(context, |DocPaths(req)|) && x in AllLeaves(req, context)[k].dependsOn
  {
    hide AllLeaves, Names, DocPaths, IsGraphOf, LeafIds, DependsOn, Distinct;
    var leaves := AllLeaves(req, context);
    BuiltGraphIsClosed(g, req, leaves);
    LeafNames(req, context);
    NamesDistinct(context, |DocPaths(req)|);
    OnlyThisLeaf(leaves, k, x);
  }

  /** The document pipeline: every read feeds the merge, the merge the draft, both the critic. */
  lemma DocsDataFlow(g: ActionGraph, req: PlannerRequest, x: string)
    requires IsGraphOf(g, req, AllLeaves(req, Docs))
    ensures GraphEdge(x, MergeDocs()) in g.edges <==> x in ReadIds(|DocPaths(req)|)
    ensures GraphEdge(x, DraftReport()) in g.edges <==> x == MergeDocs()
    ensures GraphEdge(x, CriticReport()) in g.edges <==> x == DraftReport() || x == MergeDocs()
  {
    hide ReadId, DraftReport, CriticReport, MergeDocs, DocPaths, IsGraphOf, Pad3;
    var leaves, n := AllLeaves(req, Docs), |DocPaths(req)|;
    var readings := ReadLeaves(DocPaths(req));
    assert leaves == [DraftLeaves(req, Docs)[0], CriticLeaf(req, Docs)] + readings;
    assert leaves[n + 2] == readings[n];
    EdgesInto(g, req, Docs, n + 2, x);
    EdgesInto(g, req, Docs, 0, x);
    EdgesInto(g, req, Docs, 1, x);
    assert readings[n].dependsOn == ReadIds(n);
    DocsNamesHold(n);
  }

  lemma DocsNamesHold(n: nat)
    ensures DraftReport() in Names(Docs, n) && MergeDocs() in Names(Docs, n)
    ensures forall x :: x in ReadIds(n) ==> x in Names(Docs, n)
  {
    hide DraftReport, CriticReport, MergeDocs, ReadId;
    var names := Names(Docs, n);
    assert names[0] == DraftReport() && names[n + 2] == MergeDocs();
    assert forall i :: 0 <= i < n ==> names[i + 2] == ReadIds(n)[i];
  }

  /** The web pipeline: the page feeds the article, the article the draft, both the export; the critic sees all but the export. */
  lemma WebDataFlow(g: ActionGraph, req: PlannerRequest, x: string)
    requires IsGraphOf(g, req, AllLeaves(req, Web))
    ensures GraphEdge(x, ExtractArticle()) in g.edges <==> x == FetchHtml()
    ensures GraphEdge(x, DraftReport()) in g.edges <==> x == ExtractArticle()
    ensures GraphEdge(x, ExportUserOutput()) in g.edges <==> x == DraftReport() || x == ExtractArticle()
    ensures GraphEdge(x, CriticReport()) in g.edges <==> x == DraftReport() || x == ExtractArticle() || x == FetchHtml()
  {
    hide DraftReport, CriticReport, FetchHtml, ExtractArticle, ExportUserOutput, ExportName, Trimmed, RunId, DocPaths, IsGraphOf;
    EdgesInto(g, req, Web, 1, x);
    EdgesInto(g, req, Web, 2, x);
    EdgesInto(g, req, Web, 3, x);
    EdgesInto(g, req, Web, 4, x);
  }

  /** Otherwise the draft comes from the file written, if any, and feeds the critic. */
  lemma OtherDataFlow(g: ActionGraph, req: PlannerRequest, context: ContextKind, x: string)
    requires (context == File || context == Generic) && IsGraphOf(g, req, AllLeaves(req, context))
    ensures GraphEdge(x, DraftReport()) in g.edges <==> context == File && x == WriteFile()
    ensures GraphEdge(x, CriticReport()) in g.edges <==> x == DraftReport()
  {
    hide DraftReport, CriticReport, WriteFile, Trimmed, RunId, DocPaths, IsGraphOf;
    EdgesInto(g, req, context, 0, x);
    EdgesInto(g, req, context, 1, x);
    if context == File { EdgesInto(g, req, context, 2, x); }
  }

  // ---- Which planner specifications accept a plan ----

  function ToolsOf(context: ContextKind): seq<string>
  {
    match context
    case Docs => ["fs.read_text"]
    case Web => ["web.fetch_html", "web.extract_article", "export.write_text"]
    case File => ["export.write_text"]
    case Generic => []
  }

  predicate ToolOk(tool: string, spec: PlannerSpec, catalog: Option<OperatorCatalog>)
  {
    && Mcp in spec.allowedTypes
    && (spec.allowedTools == [] || tool in spec.allowedTools)
    && (catalog.Some? ==> tool in catalog.value.tools)
  }

  predicate KindOk(kind: NodeType, spec: PlannerSpec, catalog: Option<OperatorCatalog>)
  {
    kind in spec.allowedTypes && (catalog.Some? ==> kind in catalog.value.types)
  }

  /** The specification and the catalog know the node types and tools a context uses. */
  predicate Supports(spec: PlannerSpec, catalog: Option<OperatorCatalog>, context: ContextKind)
  {
    && KindOk(Model, spec, catalog)
    && (context == Docs ==> KindOk(Aggregate, spec, catalog))
    && forall tool :: tool in ToolsOf(context) ==> ToolOk(tool, spec, catalog)
  }

  predicate LeafOk(leaf: HtnLeaf, spec: PlannerSpec, catalog: Option<OperatorCatalog>)
  {
    if leaf.kind == Mcp then ToolOk(leaf.tool, spec, catalog) else KindOk(leaf.kind, spec, catalog)
  }

  /** A tool leaf carries its tool's name, without white space around it. */
  predicate NamesItsTool(leaf: HtnLeaf)
  {
    leaf.kind == Mcp ==>
      && leaf.tool != "" && !IsSpace(leaf.tool[0]) && !IsSpace(leaf.tool[|leaf.tool| - 1])
      && "tool_name" in leaf.parameters && leaf.parameters["tool_name"] == Str(leaf.tool)
  }

  lemma NodeAllowedIffLeafOk(leaf: HtnLeaf, i: int, spec: PlannerSpec, catalog: Option<OperatorCatalog>, str: Json -> string)
    requires NamesItsTool(leaf)
    ensures NodeAllowed(NodeOf(leaf, i), spec, catalog, str) <==> LeafOk(leaf, spec, catalog)
  {
    assert leaf.kind == Mcp ==> Strip(leaf.tool) == leaf.tool;
  }

  lemma LeavesNameTheirTools(req: PlannerRequest, context: ContextKind)
    ensures forall leaf :: leaf in AllLeaves(req, context) ==> NamesItsTool(leaf)
  {
    hide ReadId, DraftReport, CriticReport, MergeDocs, FetchHtml, ExtractArticle, WriteFile, ExportUserOutput,
         ExportName, Trimmed, DocPaths, RunId, DraftSources, Pad3;
  }

  ghost predicate AllOk(leaves: seq<HtnLeaf>, spec: PlannerSpec, catalog: Option<OperatorCatalog>)
  {
    forall leaf :: leaf in leaves ==> LeafOk(leaf, spec, catalog)
  }

  /** The operators of the document pipeline. */
  lemma DocsOperators(req: PlannerRequest)
    requires DocPaths(req) != []
    ensures |ToolsOf(Docs)| == 1 && |DraftLeaves(req, Docs)| == 1 && |Reads(req, Docs)| == |DocPaths(req)| + 1
    ensures DraftLeaves(req, Docs)[0].kind == CriticLeaf(req, Docs).kind == Model
    ensures Reads(req, Docs)[|DocPaths(req)|].kind == Aggregate
    ensures forall i :: 0 <= i < |DocPaths(req)| ==> Reads(req, Docs)[i].kind == Mcp && Reads(req, Docs)[i].tool == ToolsOf(Docs)[0]
  {
    hide ReadId, DraftReport, CriticReport, MergeDocs, DocPaths, Pad3;
  }

  lemma DocsLeavesOk(req: PlannerRequest, spec: PlannerSpec, catalog: Option<OperatorCatalog>)
    requires DocPaths(req) != []
    ensures AllOk(AllLeaves(req, Docs), spec, catalog) <==> Supports(spec, catalog, Docs)
  {
    hide Reads, DraftLeaves, CriticLeaf, DocPaths, ToolsOf, ToolOk, KindOk;
    DocsOperators(req);
    var leaves := AllLeaves(req, Docs);
    var readings := Reads(req, Docs);
    assert leaves == [DraftLeaves(req, Docs)[0], CriticLeaf(req, Docs)] + readings;
    assert leaves[1] in leaves && leaves[2] in leaves && leaves[2 + |DocPaths(req)|] in leaves;
    assert ToolsOf(Docs)[0] in ToolsOf(Docs);
  }

  /** The operators of the web pipeline. */
  lemma WebOperators(req: PlannerRequest)
    ensures |WebLeaves(req)| == 2 && |DraftLeaves(req, Web)| == 2
    ensures WebLeaves(req)[0].kind == Mcp && WebLeaves(req)[0].tool == ToolsOf(Web)[0]
    ensures WebLeaves(req)[1].kind == Mcp && WebLeaves(req)[1].tool == ToolsOf(Web)[1]
    ensures DraftLeaves(req, Web)[1].kind == Mcp && DraftLeaves(req, Web)[1].tool == ToolsOf(Web)[2]
    ensures DraftLeaves(req, Web)[0].kind == CriticLeaf(req, Web).kind == Model && |ToolsOf(Web)| == 3
  {
    hide DraftReport, CriticReport, FetchHtml, ExtractArticle, ExportUserOutput, ExportName, Trimmed, RunId, DraftSources;
  }

  lemma AllOkOfBoth(a: seq<HtnLeaf>, b: seq<HtnLeaf>, spec: PlannerSpec, catalog: Option<OperatorCatalog>)
    ensures AllOk(a + b, spec, catalog) <==> AllOk(a, spec, catalog) && AllOk(b, spec, catalog)
  {
    hide LeafOk;
  }

  lemma AllOkOfTwo(leaves: seq<HtnLeaf>, spec: PlannerSpec, catalog: Option<OperatorCatalog>)
    requires |leaves| == 2
    ensures AllOk(leaves, spec, catalog) <==> LeafOk(leaves[0], spec, catalog) && LeafOk(leaves[1], spec, catalog)
  {
    hide LeafOk;
    assert leaves[0] in leaves && leaves[1] in leaves;
  }

  lemma WebLeavesOk(req: PlannerRequest, spec: PlannerSpec, catalog: Option<OperatorCatalog>)
    ensures AllOk(AllLeaves(req, Web), spec, catalog) <==> Supports(spec, catalog, Web)
  {
    hide WebLeaves, DraftLeaves, CriticLeaf, ToolsOf, ToolOk, KindOk, AllOk, AllLeaves;
    WebOperators(req);
    var drafts, critic := DraftLeaves(req, Web), [CriticLeaf(req, Web)];
    AllOkOfBoth(WebLeaves(req), drafts + critic, spec, catalog);
    AllOkOfBoth(drafts, critic, spec, catalog);
    AllOkOfTwo(WebLeaves(req), spec, catalog);
    AllOkOfTwo(drafts, spec, catalog);
    WebLeavesAre(req);
    CriticOk(req, spec, catalog);
    var tools := ToolsOf(Web);
    assert tools[0] in tools && tools[1] in tools && tools[2] in tools;
  }

  lemma WebLeavesAre(req: PlannerRequest)
    ensures AllLeaves(req, Web) == WebLeaves(req) + (DraftLeaves(req, Web) + [CriticLeaf(req, Web)])
  {
    hide WebLeaves, DraftLeaves, CriticLeaf;
  }

  lemma CriticOk(req: PlannerRequest, spec: PlannerSpec, catalog: Option<OperatorCatalog>)
    ensures AllOk([CriticLeaf(req, Web)], spec, catalog) <==> LeafOk(CriticLeaf(req, Web), spec, catalog)
  {
    hide CriticLeaf, LeafOk;
    assert [CriticLeaf(req, Web)][0] == CriticLeaf(req, Web);
  }

  lemma OtherLeavesOk(req: PlannerRequest, context: ContextKind, spec: PlannerSpec, catalog: Option<OperatorCatalog>)
    requires context == File || context == Generic
    ensures AllOk(AllLeaves(req, context), spec, catalog) <==> Supports(spec, catalog, context)
  {
    hide DraftReport, CriticReport, WriteFile, Trimmed, RunId, ToolOk, KindOk;
    var leaves := AllLeaves(req, context);
    assert CriticLeaf(req, context) in leaves && DraftLeaves(req, context)[0] in leaves;
  }

  /** The tools and node types of the leaves are those of the context. */
  lemma LeavesOkIffSupported(req: PlannerRequest, spec: PlannerSpec, catalog: Option<OperatorCatalog>)
    ensures AllOk(AllLeaves(req, ContextOf(req.metadata)), spec, catalog) <==> Supports(spec, catalog, ContextOf(req.metadata))
  {
    hide AllLeaves, AllOk, Supports, ContextOf, DocPaths;
    match ContextOf(req.metadata) {
      case Docs =>
        DocsHasPaths(req);
        DocsLeavesOk(req, spec, catalog);
      case Web => WebLeavesOk(req, spec, catalog);
      case _ => OtherLeavesOk(req, ContextOf(req.metadata), spec, catalog);
    }
  }

  lemma NodesOkIffLeavesOk(g: ActionGraph, req: PlannerRequest, leaves: seq<HtnLeaf>, spec: PlannerSpec, catalog: Option<OperatorCatalog>)
    requires IsGraphOf(g, req, leaves) && Distinct(LeafIds(leaves)) && forall leaf :: leaf in leaves ==> NamesItsTool(leaf)
    ensures (forall n :: n in g.nodes ==> NodeAllowed(n, spec, catalog, req.str)) <==> AllOk(leaves, spec, catalog)
  {
    hide NodeAllowed, NodeOf, FirstLeaf, LeafOk, StrSorted, EdgesSorted, Dependents, NamesItsTool, PlanId;
    forall i | 0 <= i < |g.nodes|
      ensures var leaf := FirstLeaf(leaves, g.nodes[i].id);
              leaf in leaves && (NodeAllowed(g.nodes[i], spec, catalog, req.str) <==> LeafOk(leaf, spec, catalog))
    {
      assert NodeFrom(g.nodes[i], leaves, i);
      NodeAllowedIffLeafOk(FirstLeaf(leaves, g.nodes[i].id), i, spec, catalog, req.str);
    }
    if forall n :: n in g.nodes ==> NodeAllowed(n, spec, catalog, req.str) {
      forall leaf | leaf in leaves
        ensures LeafOk(leaf, spec, catalog)
      {
        var k :| 0 <= k < |leaves| && leaves[k] == leaf;
        assert LeafIds(leaves)[k] == leaf.id && leaf.id in NodeIds(g.nodes);
        var i :| 0 <= i < |g.nodes| && g.nodes[i].id == leaf.id;
        OnlyLeaf(leaves, k, FirstLeaf(leaves, leaf.id));
        assert g.nodes[i] in g.nodes;
      }
    }
  }

  lemma OnlyLeaf(leaves: seq<HtnLeaf>, k: nat, other: HtnLeaf)
    requires k < |leaves| && Distinct(LeafIds(leaves)) && other in leaves && other.id == leaves[k].id
    ensures other == leaves[k]
  {
    var m :| 0 <= m < |leaves| && leaves[m] == other;
    assert LeafIds(leaves)[m] == LeafIds(leaves)[k];
  }

  /** A plan has the draft and the critic, is acyclic, and passes validation exactly under a specification
      and a catalog that support its context. */
  lemma PlansAreValid(g: ActionGraph, req: PlannerRequest, spec: PlannerSpec, catalog: Option<OperatorCatalog>)
    requires IsGraphOf(g, req, AllLeaves(req, ContextOf(req.metadata)))
    ensures DraftReport() in Ids(g) && CriticReport() in Ids(g)
    ensures |g.nodes| == PlanSize(ContextOf(req.metadata), |DocPaths(req)|)
    ensures Acyclic(g)
    ensures WellTyped(g, spec, catalog, req.str) <==> Supports(spec, catalog, ContextOf(req.metadata))
  {
    hide *;
    var context := ContextOf(req.metadata);
    var leaves := AllLeaves(req, context);
    PlanIsAcyclic(g, req, context);
    PlanNodes(g, req, context);
    BuiltGraphIsClosed(g, req, leaves);
    LeafNames(req, context);
    NamesDistinct(context, |DocPaths(req)|);
    LeavesNameTheirTools(req, context);
    NodesOkIffLeavesOk(g, req, leaves, spec, catalog);
    LeavesOkIffSupported(req, spec, catalog);
    WellTypedParts(g, spec, catalog, req.str);
  }

  lemma WellTypedParts(g: ActionGraph, spec: PlannerSpec, catalog: Option<OperatorCatalog>, str: Json -> string)
    requires g.planId != "" && UniqueIds(g) && KnownEndpoints(g)
    ensures WellTyped(g, spec, catalog, str) <==> forall n :: n in g.nodes ==> NodeAllowed(n, spec, catalog, str)
  {
    hide UniqueIds, KnownEndpoints, NodeAllowed;
  }

  /** The executor never deadlocks on a plan: plans are tame. */
  lemma PlansAreTame(g: ActionGraph, req: PlannerRequest)
    requires IsGraphOf(g, req, AllLeaves(req, ContextOf(req.metadata)))
    ensures Tame(g)
  {
    hide AllLeaves, ContextOf, Acyclic, UniqueIds, KnownEndpoints, StrSorted, EdgesSorted, NodeFrom, Dependents;
    PlanIsAcyclic(g, req, ContextOf(req.metadata));
    BuiltGraphIsClosed(g, req, AllLeaves(req, ContextOf(req.metadata)));
  }

  // ---- The planner ----

  /** `plan`, from the effective metadata on: it raises exactly when the room or the node limit is too
      small; with enough room the only reason is the number of nodes. */
  method Plan(req: PlannerRequest, opts: BackendOptions, replies: Replies) returns (r: Result<ActionGraph, PlanError>)
    ensures var context := ContextOf(req.metadata);
            && (r.Ok? <==> EnoughRoom(context, opts) && PlanSize(context, |DocPaths(req)|) <= opts.maxTotalNodes)
            && (r.Err? && EnoughRoom(context, opts) ==> r.error == TooManyNodes)
            && (r.Ok? ==> IsGraphOf(r.value, req, AllLeaves(req, context)))
  {
    hide *;
    var context := ContextOf(req.metadata);
    var planning := Decompose(req, context, opts, replies);
    DecompositionResult(req, opts, replies);
    if planning.Err? {
      return Err(planning.error);
    }
    r := BuildActionGraph(req, planning.value.leaves);
  }

  /** The loop's outcome does not depend on what the model replies. */
  lemma DecompositionResult(req: PlannerRequest, opts: BackendOptions, replies: Replies)
    ensures var context := ContextOf(req.metadata);
            var r := PlanFrom(req, context, opts, replies, StartPlanning());
            && (r.Ok? <==> EnoughRoom(context, opts) && PlanSize(context, |DocPaths(req)|) <= opts.maxTotalNodes)
            && (r.Err? && EnoughRoom(context, opts) ==> r.error == TooManyNodes)
            && (r.Ok? ==> r.value.leaves == AllLeaves(req, context) && r.value.leaves != [])
  {
    hide ContextOf, DocPaths, PlanFrom, NodeCount, DraftLeaves, Collected, Reads, CriticLeaf;
    var context := ContextOf(req.metadata);
    var all := AllLeaves(req, context);
    PlanSizeIsExact(req, context);
    assert CriticLeaf(req, context) in all;
    assert [] + all == all;
    if EnoughRoom(context, opts) {
      FromRoot(req, context, opts, replies);
    } else {
      TooLittleRoom(req, context, opts, replies);
    }
  }

  // ---- The super-agent runbook ----

  function SuperAgentSpec(): PlannerSpec
  {
    PlannerSpec({Model, Mcp, Code, Decision, Aggregate},
                ["fs.read_text", "fs.write_text", "fs.glob", "web.fetch_html", "web.extract_article",
                 "text.extract_entities", "artifact.put_json", "export.write_text"])
  }

  function SuperAgentOptions(): BackendOptions
  {
    BackendOptions(4, 64, 64, false, 2)
  }

  function DefaultCatalog(): OperatorCatalog
  {
    OperatorCatalog({"fs.read_text", "fs.write_text", "fs.list_dir", "fs.glob", "web.fetch_html", "web.extract_article",
                     "text.extract_entities", "artifact.put_json", "export.write_text", "memory.ingest_files", "memory.query"},
                    {Model, Code, Decision, Aggregate})
  }

  lemma SuperAgentSupportsAll(context: ContextKind)
    ensures Supports(SuperAgentSpec(), Some(DefaultCatalog()), context)
  {
    var tools := SuperAgentSpec().allowedTools;
    assert tools[0] == "fs.read_text" && tools[3] == "web.fetch_html" && tools[4] == "web.extract_article"
           && tools[7] == "export.write_text";
  }

  /** Planning and validating under the super-agent runbook: the only failure is a document list of more
      than 61 paths. */
  method PlanSuperAgent(req: PlannerRequest, replies: Replies) returns (r: Result<ActionGraph, PlanError>)
    ensures r.Err? <==> ContextOf(req.metadata) == Docs && |DocPaths(req)| + 3 > 64
    ensures r.Err? ==> r.error == TooManyNodes
    ensures r.Ok? ==> DraftReport() in Ids(r.value) && CriticReport() in Ids(r.value) && Acyclic(r.value)
    ensures r.Ok? ==> WellTyped(r.value, SuperAgentSpec(), Some(DefaultCatalog()), req.str)
  {
    hide ContextOf, DocPaths, Acyclic, WellTyped, IsGraphOf, AllLeaves, Supports, Ids, SuperAgentSpec, DefaultCatalog;
    r := Plan(req, SuperAgentOptions(), replies);
    if r.Ok? {
      PlansAreValid(r.value, req, SuperAgentSpec(), Some(DefaultCatalog()));
      SuperAgentSupportsAll(ContextOf(req.metadata));
      var checked := ValidatePlannedGraph(r.value, SuperAgentSpec(), Some(DefaultCatalog()), req.str);
      assert checked == Ok(r.value);
    }
  }
}
