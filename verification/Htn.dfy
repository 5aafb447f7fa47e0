/** The recursive HTN planner (planning/htn_recursive_backend.py): a queue of subgoals expanded into
    leaf operators, and the action graph built from them. */
module Htn {
  import opened Graph
  import opened JsonValues
  import opened Order
  import opened Text
  import opened Wrappers

  datatype ContextKind = Docs | Web | File | Generic

  datatype SubgoalKind = Root | CollectInputs | ReadDocs | Synthesize | Verify

  datatype HtnSubgoal = HtnSubgoal(id: string, depth: nat, kind: SubgoalKind)

  datatype HtnLeaf = HtnLeaf(id: string, kind: NodeType, tool: string, parameters: map<string, Json>, dependsOn: seq<string>)

  datatype BackendOptions = BackendOptions(
    maxDepth: int, maxFrontier: int, maxTotalNodes: int, modelAssisted: bool, maxCalls: int)

  datatype PlanError = FrontierExceeded | DepthExceeded | TooManyNodes | NoLeaves

  /** Prompt texts and the critic's schema are left abstract. */
  datatype PlanTexts = PlanTexts(draft: string, fileDraft: string, critic: ContextKind -> string, criticSchema: Json)

  /** The effective metadata, the execution, and `str()` of a JSON value that is no string. */
  datatype PlannerRequest = PlannerRequest(metadata: map<string, Json>, executionId: string, texts: PlanTexts, str: Json -> string)

  /** The method id in the model's reply for a subgoal at a call index, when the reply parses. */
  type Replies = (HtnSubgoal, nat) -> Option<string>

  // ---- The nodes' names ----

  function DraftReport(): string { "draft_report" }
  function CriticReport(): string { "critic_report" }
  function MergeDocs(): string { "merge_docs" }
  function FetchHtml(): string { "fetch_html" }
  function ExtractArticle(): string { "extract_article" }
  function WriteFile(): string { "write_file" }
  function ExportUserOutput(): string { "export_user_output" }

  /** `f"{idx:03d}"`. */
  function Pad3(n: nat): string
  {
    var d := Decimal(n);
    if |d| == 1 then "00" + d else if |d| == 2 then "0" + d else d
  }

  function ReadId(i: nat): string
  {
    "read_" + Pad3(i)
  }

  // ---- The request ----

  predicate HasItems(m: map<string, Json>, key: string)
  {
    key in m && m[key].Arr? && m[key].items != []
  }

  predicate HasText(m: map<string, Json>, key: string)
  {
    key in m && m[key].Str? && Strip(m[key].s) != ""
  }

  /** `_context_kind`. */
  function ContextOf(m: map<string, Json>): ContextKind
  {
    if HasItems(m, "urls") || HasText(m, "url") then Web
    else if HasItems(m, "doc_paths") then Docs
    else if HasText(m, "output_filename") then File
    else Generic
  }

  function StrOf(req: PlannerRequest, j: Json): string
  {
    if j.Str? then j.s else req.str(j)
  }

  /** `str(metadata.get(key, "")).strip()`. */
  function Trimmed(req: PlannerRequest, key: string): string
  {
    if key in req.metadata then Strip(StrOf(req, req.metadata[key])) else ""
  }

  /** The document paths as text, sorted. */
  function DocPaths(req: PlannerRequest): (paths: seq<string>)
    ensures |paths| == if HasItems(req.metadata, "doc_paths") then |req.metadata["doc_paths"].items| else 0
  {
    if HasItems(req.metadata, "doc_paths") then
      var items := req.metadata["doc_paths"].items;
      SortStrings(seq(|items|, i requires 0 <= i < |items| => StrOf(req, items[i])))
    else []
  }

  function RunId(req: PlannerRequest): string
  {
    if |req.executionId| <= 12 then req.executionId else req.executionId[..12]
  }

  // ---- Choosing a method ----

  /** `_rule_based_method`. */
  function RuleBased(kind: SubgoalKind, context: ContextKind): string
  {
    match kind
    case Root => (match context case Docs => "root_docs_pipeline" case Web => "root_web_pipeline" case _ => "root_generic_pipeline")
    case CollectInputs => (match context case Docs => "collect_docs" case Web => "collect_web" case _ => "collect_generic")
    case ReadDocs => "expand_read_docs"
    case Synthesize => "draft_direct"
    case Verify => "critic_standard"
  }

  function Candidates(kind: SubgoalKind): seq<string>
  {
    match kind
    case Root => ["root_docs_pipeline", "root_web_pipeline", "root_generic_pipeline"]
    case Synthesize => ["draft_direct"]
    case _ => []
  }

  /** `_model_assisted_method`: only a candidate for the root or the draft is taken over. */
  function Assisted(subgoal: HtnSubgoal, calls: nat, replies: Replies): Option<string>
  {
    if Candidates(subgoal.kind) == [] then None
    else
      match replies(subgoal, calls)
      case Some(m) => if m in Candidates(subgoal.kind) then Some(m) else None
      case None => None
  }

  /** `_select_method`: the method, and whether the model chose it. */
  function SelectMethod(subgoal: HtnSubgoal, context: ContextKind, opts: BackendOptions, replies: Replies, calls: nat): (string, bool)
  {
    if opts.modelAssisted && calls < opts.maxCalls && Assisted(subgoal, calls, replies).Some?
    then (Assisted(subgoal, calls, replies).value, true)
    else (RuleBased(subgoal.kind, context), false)
  }

  // ---- Expanding a subgoal ----

  function ToolLeaf(id: string, tool: string, args: map<string, Json>, deps: seq<string>): HtnLeaf
  {
    HtnLeaf(id, Mcp, tool, map["tool_name" := Str(tool), "tool_args" := Obj(args)], deps)
  }

  function ModelLeaf(id: string, parameters: map<string, Json>, deps: seq<string>): HtnLeaf
  {
    HtnLeaf(id, Model, "", parameters, deps)
  }

  function ReadLeaf(i: nat, path: string): HtnLeaf
  {
    ToolLeaf(ReadId(i), "fs.read_text", map["path" := Str(path), "out_key" := Str("doc_" + Pad3(i))], [])
  }

  /** One read per document, and a merge of all of them. */
  function ReadLeaves(paths: seq<string>): (leaves: seq<HtnLeaf>)
    ensures |leaves| == |paths| + 1
  {
    seq(|paths|, i requires 0 <= i < |paths| => ReadLeaf(i, paths[i]))
    + [HtnLeaf(MergeDocs(), Aggregate, "", map[], seq(|paths|, i requires 0 <= i < |paths| => ReadId(i)))]
  }

  function WebLeaves(req: PlannerRequest): seq<HtnLeaf>
  {
    var url := Str(Trimmed(req, "url"));
    [ToolLeaf(FetchHtml(), "web.fetch_html", map["url" := url], []),
     ToolLeaf(ExtractArticle(), "web.extract_article", map["url" := url], [FetchHtml()])]
  }

  /** What the draft is made from. */
  function DraftSources(context: ContextKind): seq<string>
  {
    match context case Docs => [MergeDocs()] case Web => [ExtractArticle()] case _ => []
  }

  function ExportName(req: PlannerRequest): string
  {
    var format := Lower(Trimmed(req, "output_format"));
    var ext := if format == "html" || format == "htm" then "html" else if format == "txt" || format == "text" then "txt" else "md";
    if Trimmed(req, "output_filename") != "" then Trimmed(req, "output_filename") else "summary." + ext
  }

  function DraftLeaves(req: PlannerRequest, context: ContextKind): seq<HtnLeaf>
  {
    if context == File then
      var name := Trimmed(req, "output_filename");
      var text := if "output_text" in req.metadata && req.metadata["output_text"].Str? then req.metadata["output_text"] else Str("");
      [ToolLeaf(WriteFile(), "export.write_text",
                map["run_id" := Str(RunId(req)), "filename" := Str(if name != "" then name else "output.txt"),
                    "text" := text, "encoding" := Str("utf-8"), "overwrite" := Bool(true)], []),
       ModelLeaf(DraftReport(), map["system_prompt" := Str(req.texts.fileDraft)], [WriteFile()])]
    else
      [ModelLeaf(DraftReport(), map["system_prompt" := Str(req.texts.draft)], DraftSources(context))]
      + (if context == Web then
           [ToolLeaf(ExportUserOutput(), "export.write_text",
                     map["run_id" := Str(RunId(req)), "kind" := Str("news_summary"),
                         "filename" := Str(ExportName(req)), "overwrite" := Bool(true)],
                     [DraftReport()] + DraftSources(context))]
         else [])
  }

  function CriticLeaf(req: PlannerRequest, context: ContextKind): HtnLeaf
  {
    var deps := match context
      case Docs => [DraftReport(), MergeDocs()]
      case Web => [DraftReport(), ExtractArticle(), FetchHtml()]
      case _ => [DraftReport()];
    ModelLeaf(CriticReport(), map["system_prompt" := Str(req.texts.critic(context)), "json_schema" := req.texts.criticSchema], deps)
  }

  function ChildOf(subgoal: HtnSubgoal, suffix: string, kind: SubgoalKind): HtnSubgoal
  {
    HtnSubgoal(subgoal.id + suffix, subgoal.depth + 1, kind)
  }

  datatype Expansion = Expansion(subgoals: seq<HtnSubgoal>, leaves: seq<HtnLeaf>)

  function ExpansionOf(req: PlannerRequest, subgoal: HtnSubgoal, methodId: string, context: ContextKind): Expansion
  {
    match subgoal.kind
    case Root =>
      Expansion([ChildOf(subgoal, ".collect", CollectInputs), ChildOf(subgoal, ".synthesize", Synthesize),
                 ChildOf(subgoal, ".verify", Verify)], [])
    case CollectInputs =>
      if methodId == "collect_docs" then Expansion([ChildOf(subgoal, ".read_docs", ReadDocs)], [])
      else if methodId == "collect_web" then Expansion([], WebLeaves(req))
      else Expansion([], [])
    case ReadDocs => Expansion([], if DocPaths(req) == [] then [] else ReadLeaves(DocPaths(req)))
    case Synthesize => Expansion([], DraftLeaves(req, context))
    case Verify => Expansion([], [CriticLeaf(req, context)])
  }

  /** The loop over the document paths. */
  method CollectReads(paths: seq<string>) returns (leaves: seq<HtnLeaf>)
    ensures leaves == ReadLeaves(paths)
  {
    hide ReadLeaf, ReadId;
    leaves := [];
    var ids: seq<string> := [];
    for i := 0 to |paths|
      invariant |leaves| == |ids| == i
      invariant forall k :: 0 <= k < i ==> leaves[k] == ReadLeaf(k, paths[k]) && ids[k] == ReadId(k)
    {
      leaves := leaves + [ReadLeaf(i, paths[i])];
      ids := ids + [ReadId(i)];
    }
    assert ids == seq(|paths|, i requires 0 <= i < |paths| => ReadId(i));
    leaves := leaves + [HtnLeaf(MergeDocs(), Aggregate, "", map[], ids)];
    assert leaves == ReadLeaves(paths);
  }

  /** `_expand_subgoal`. */
  method ExpandSubgoal(req: PlannerRequest, subgoal: HtnSubgoal, methodId: string, context: ContextKind) returns (e: Expansion)
    ensures e == ExpansionOf(req, subgoal, methodId, context)
  {
    hide ReadLeaves, DocPaths, DraftLeaves, CriticLeaf, WebLeaves;
    if subgoal.kind == ReadDocs && DocPaths(req) != [] {
      var leaves := CollectReads(DocPaths(req));
      return Expansion([], leaves);
    }
    return ExpansionOf(req, subgoal, methodId, context);
  }

  // ---- The decomposition loop ----

  function LeafIds(leaves: seq<HtnLeaf>): (ids: seq<string>)
    ensures |ids| == |leaves| && forall i :: 0 <= i < |leaves| ==> ids[i] == leaves[i].id
  {
    seq(|leaves|, i requires 0 <= i < |leaves| => leaves[i].id)
  }

  datatype Planning = Planning(queue: seq<HtnSubgoal>, leaves: seq<HtnLeaf>, calls: nat, path: seq<string>)

  /** One pass of the loop. */
  function PlanStep(req: PlannerRequest, context: ContextKind, opts: BackendOptions, replies: Replies, p: Planning): Result<Planning, PlanError>
    requires p.queue != []
  {
    if |p.queue| > opts.maxFrontier then Err(FrontierExceeded)
    else if p.queue[0].depth > opts.maxDepth then Err(DepthExceeded)
    else
      var choice := SelectMethod(p.queue[0], context, opts, replies, p.calls);
      var e := ExpansionOf(req, p.queue[0], choice.0, context);
      var leaves := p.leaves + e.leaves;
      if |ToSet(LeafIds(leaves))| > opts.maxTotalNodes then Err(TooManyNodes)
      else Ok(Planning(p.queue[1..] + e.subgoals, leaves, p.calls + if choice.1 then 1 else 0, p.path + [choice.0]))
  }

  /** How many expansions a subgoal can still cause. */
  function Weight(kind: SubgoalKind): nat
  {
    match kind case Root => 5 case CollectInputs => 2 case _ => 1
  }

  function TotalWeight(queue: seq<HtnSubgoal>): nat
  {
    if queue == [] then 0 else Weight(queue[0].kind) + TotalWeight(queue[1..])
  }

  lemma {:induction false} WeightsAdd(a: seq<HtnSubgoal>, b: seq<HtnSubgoal>)
    ensures TotalWeight(a + b) == TotalWeight(a) + TotalWeight(b)
  {
    if a == [] {
      assert a + b == b;
    } else {
      assert (a + b)[1..] == a[1..] + b;
      WeightsAdd(a[1..], b);
    }
  }

  lemma StepShrinks(req: PlannerRequest, context: ContextKind, opts: BackendOptions, replies: Replies, p: Planning)
    requires p.queue != [] && PlanStep(req, context, opts, replies, p).Ok?
    ensures TotalWeight(PlanStep(req, context, opts, replies, p).value.queue) < TotalWeight(p.queue)
  {
    hide SelectMethod, ReadLeaves, DocPaths, DraftLeaves, CriticLeaf, WebLeaves;
    var e := ExpansionOf(req, p.queue[0], SelectMethod(p.queue[0], context, opts, replies, p.calls).0, context);
    WeightsAdd(p.queue[1..], e.subgoals);
    if p.queue[0].kind == Root {
      assert e.subgoals == [e.subgoals[0]] + ([e.subgoals[1]] + [e.subgoals[2]]);
      WeightsAdd([e.subgoals[0]], [e.subgoals[1]] + [e.subgoals[2]]);
      WeightsAdd([e.subgoals[1]], [e.subgoals[2]]);
    }
  }

  function PlanFrom(req: PlannerRequest, context: ContextKind, opts: BackendOptions, replies: Replies, p: Planning): Result<Planning, PlanError>
    decreases TotalWeight(p.queue)
  {
    if p.queue == [] then Ok(p)
    else
      match PlanStep(req, context, opts, replies, p)
      case Err(e) => Err(e)
      case Ok(p') =>
        StepShrinks(req, context, opts, replies, p);
        PlanFrom(req, context, opts, replies, p')
  }

  function StartPlanning(): Planning
  {
    Planning([HtnSubgoal("sg_root", 0, Root)], [], 0, [])
  }

  /** The queue is drained pass by pass. */
  method Decompose(req: PlannerRequest, context: ContextKind, opts: BackendOptions, replies: Replies)
    returns (r: Result<Planning, PlanError>)
    ensures r == PlanFrom(req, context, opts, replies, StartPlanning())
  {
    hide SelectMethod, ExpansionOf, LeafIds;
    var queue := StartPlanning().queue;
    var leaves: seq<HtnLeaf> := [];
    var calls: nat := 0;
    var path: seq<string> := [];
    while queue != []
      invariant PlanFrom(req, context, opts, replies, Planning(queue, leaves, calls, path))
                == PlanFrom(req, context, opts, replies, StartPlanning())
      decreases TotalWeight(queue)
    {
      ghost var before := Planning(queue, leaves, calls, path);
      if |queue| > opts.maxFrontier {
        return Err(FrontierExceeded);
      }
      var current := queue[0];
      queue := queue[1..];
      if current.depth > opts.maxDepth {
        return Err(DepthExceeded);
      }
      var choice := SelectMethod(current, context, opts, replies, calls);
      if choice.1 {
        calls := calls + 1;
      }
      path := path + [choice.0];
      var e := ExpandSubgoal(req, current, choice.0, context);
      queue := queue + e.subgoals;
      leaves := leaves + e.leaves;
      if |ToSet(LeafIds(leaves))| > opts.maxTotalNodes {
        return Err(TooManyNodes);
      }
      StepShrinks(req, context, opts, replies, before);
    }
    return Ok(Planning(queue, leaves, calls, path));
  }
}
