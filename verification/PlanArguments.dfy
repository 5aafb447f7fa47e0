/** What the nodes of a plan are told to do: the tools they call, with which arguments, for every request. */
module PlanArguments {
  import opened Graph
  import opened Htn
  import opened HtnGraph
  import opened HtnTheory
  import opened JsonValues
  import opened Order
  import opened Patch
  import opened PlannedGraph
  import opened Sorting
  import opened Text
  import opened Wrappers

  // ---- What the request says ----

  predicate IsBlank(s: string)
  {
    forall i :: 0 <= i < |s| ==> IsSpace(s[i])
  }

  /** The white space around the text taken away, and nothing else. */
  ghost predicate IsTrimOf(t: string, s: string)
  {
    && (t == "" || (!IsSpace(t[0]) && !IsSpace(t[|t| - 1])))
    && exists a, b :: IsBlank(a) && IsBlank(b) && s == a + t + b
  }

  lemma BlankBoth(a: string, b: string)
    ensures IsBlank(a + b) <==> IsBlank(a) && IsBlank(b)
  {
    assert forall i :: 0 <= i < |a| ==> (a + b)[i] == a[i];
    assert forall i :: 0 <= i < |b| ==> (a + b)[|a| + i] == b[i];
  }

  lemma TrimFits(t: string, a: string, b: string)
    requires IsBlank(a) && IsBlank(b) && (t == "" || (!IsSpace(t[0]) && !IsSpace(t[|t| - 1])))
    ensures IsTrimOf(t, a + t + b)
    ensures t == "" <==> IsBlank(a + t + b)
  {
    BlankBoth(a, t);
    BlankBoth(a + t, b);
  }

  lemma {:induction false} StripTrims(s: string)
    ensures IsTrimOf(Strip(s), s)
    ensures Strip(s) == "" <==> IsBlank(s)
    decreases |s|
  {
    hide IsBlank, IsTrimOf, IsSpace;
    var a, b := StrippedFrom(s);
    TrimFits(Strip(s), a, b);
  }

  lemma {:induction false} StrippedFrom(s: string) returns (a: string, b: string)
    ensures IsBlank(a) && IsBlank(b) && s == a + Strip(s) + b
    decreases |s|
  {
    if s == "" {
      a, b := "", "";
    } else if IsSpace(s[0]) {
      a, b := StrippedFrom(s[1..]);
      a := [s[0]] + a;
      assert s == [s[0]] + s[1..];
    } else if IsSpace(s[|s| - 1]) {
      a, b := StrippedFrom(s[..|s| - 1]);
      b := b + [s[|s| - 1]];
      assert s == s[..|s| - 1] + [s[|s| - 1]];
    } else {
      a, b := "", "";
    }
  }

  predicate HasList(m: map<string, Json>, key: string)
  {
    key in m && m[key].Arr? && |m[key].items| > 0
  }

  predicate HasWords(m: map<string, Json>, key: string)
  {
    key in m && m[key].Str? && !IsBlank(m[key].s)
  }

  /** A page to summarize goes before documents to read, and these before a file to write. */
  predicate AsksForPage(m: map<string, Json>)
  {
    HasList(m, "urls") || HasWords(m, "url")
  }

  predicate AsksForDocs(m: map<string, Json>)
  {
    !AsksForPage(m) && HasList(m, "doc_paths")
  }

  predicate AsksForFile(m: map<string, Json>)
  {
    !AsksForPage(m) && !AsksForDocs(m) && HasWords(m, "output_filename")
  }

  lemma ContextExactly(m: map<string, Json>)
    ensures ContextOf(m) == if AsksForPage(m) then Web else if AsksForDocs(m) then Docs else if AsksForFile(m) then File else Generic
  {
    hide Strip, IsBlank;
    if "url" in m && m["url"].Str? { StripTrims(m["url"].s); }
    if "output_filename" in m && m["output_filename"].Str? { StripTrims(m["output_filename"].s); }
  }

  /** `str()` of a metadata value. */
  function Said(req: PlannerRequest, key: string): string
  {
    if key !in req.metadata then "" else if req.metadata[key].Str? then req.metadata[key].s else req.str(req.metadata[key])
  }

  // ---- What a node is told ----

  ghost predicate Calls(g: ActionGraph, id: string, tool: string, args: map<string, Json>)
  {
    && id in NodeMap(g) && NodeMap(g)[id].kind == Mcp
    && NodeMap(g)[id].parameters == map["tool_name" := Str(tool), "tool_args" := Obj(args)]
  }

  ghost predicate Prompted(g: ActionGraph, id: string, parameters: map<string, Json>)
  {
    id in NodeMap(g) && NodeMap(g)[id].kind == Model && NodeMap(g)[id].parameters == parameters
  }

  lemma NodeOfLeaf(g: ActionGraph, req: PlannerRequest, context: ContextKind, k: nat)
    requires IsGraphOf(g, req, AllLeaves(req, context)) && k < |AllLeaves(req, context)|
    ensures var leaf := AllLeaves(req, context)[k];
            leaf.id in NodeMap(g) && NodeMap(g)[leaf.id].kind == leaf.kind && NodeMap(g)[leaf.id].parameters == leaf.parameters
  {
    hide AllLeaves, LeafIds, FirstLeaf, StrSorted, EdgesSorted, Dependents, NodeMapOf, NamesItsTool, PlanId, Distinct, DocPaths;
    var leaves := AllLeaves(req, context);
    var leaf := leaves[k];
    LeafNames(req, context);
    NamesDistinct(context, |DocPaths(req)|);
    LeavesNameTheirTools(req, context);
    assert LeafIds(leaves)[k] == leaf.id;
    var n := NodeMap(g)[leaf.id];
    var i :| 0 <= i < |g.nodes| && g.nodes[i] == n;
    assert NodeFrom(g.nodes[i], leaves, i);
    OnlyLeaf(leaves, k, FirstLeaf(leaves, leaf.id));
    KeepsParameters(leaf, i);
  }

  lemma KeepsParameters(leaf: HtnLeaf, priority: int)
    requires NamesItsTool(leaf)
    ensures NodeOf(leaf, priority).kind == leaf.kind && NodeOf(leaf, priority).parameters == leaf.parameters
  {
  }

  /** Which nodes a planner may use: the type has to be listed; a tool has to be listed under its written name, if tools are, and
      in the catalog under its trimmed one; any other node has to have its type in the catalog. */
  lemma NodeAllowedExactly(n: GraphNode, spec: PlannerSpec, catalog: Option<OperatorCatalog>, str: Json -> string)
    returns (written: string, trimmed: string)
    ensures written == if "tool_name" !in n.parameters then "" else if n.parameters["tool_name"].Str? then n.parameters["tool_name"].s
                       else str(n.parameters["tool_name"])
    ensures IsTrimOf(trimmed, written)
    ensures NodeAllowed(n, spec, catalog, str) <==>
            && n.kind in spec.allowedTypes
            && (n.kind == Mcp && |spec.allowedTools| > 0 ==> written in spec.allowedTools)
            && (catalog.Some? && n.kind == Mcp ==> trimmed != "" && trimmed in catalog.value.tools)
            && (catalog.Some? && n.kind != Mcp ==> n.kind in catalog.value.types)
  {
    hide Strip, IsTrimOf;
    written := ToolName(n, str);
    StripTrims(written);
    trimmed := Strip(written);
  }

  // ---- The document pipeline ----

  function Texts(req: PlannerRequest, items: seq<Json>): (texts: seq<string>)
    ensures |texts| == |items|
  {
    seq(|items|, i requires 0 <= i < |items| => if items[i].Str? then items[i].s else req.str(items[i]))
  }

  /** The same documents, by code point. */
  ghost predicate IsSortOf(paths: seq<string>, texts: seq<string>)
  {
    multiset(paths) == multiset(texts) && forall i, j :: 0 <= i < j < |paths| ==> !StrLess(paths[j], paths[i])
  }

  lemma DocsAreSorted(req: PlannerRequest)
    requires HasList(req.metadata, "doc_paths")
    ensures IsSortOf(DocPaths(req), Texts(req, req.metadata["doc_paths"].items))
  {
    var texts := Texts(req, req.metadata["doc_paths"].items);
    assert seq(|texts|, i requires 0 <= i < |texts| => Htn.StrOf(req, req.metadata["doc_paths"].items[i])) == texts;
    SortedText(texts);
  }

  lemma SortedText(texts: seq<string>)
    ensures IsSortOf(SortStrings(texts), texts)
  {
    hide SortBy, StrLess;
    var prio := map x | x in texts :: 0;
    PrioritiesOrder(prio);
    SortInOrder(ByPriority(prio), texts);
    var paths := SortStrings(texts);
    forall i, j | 0 <= i < j < |paths|
      ensures !StrLess(paths[j], paths[i])
    {
      assert paths[i] in texts && paths[j] in texts;
    }
  }

  /** A number of at least three digits. */
  lemma ThreeDigits(n: nat)
    ensures IsDigits(Pad3(n)) && ToNat(Pad3(n)) == n && |Pad3(n)| >= 3
    ensures n < 1000 ==> |Pad3(n)| == 3
  {
    hide ToNat;
    Pad3Reads(n);
    assert n < 1000 ==> |Decimal(n)| <= 3 by {
      assert n < 1000 ==> |Decimal(n / 10 / 10)| == 1;
    }
  }

  /** For each document, in sorted order, one node that reads it under its own number; and a merge without arguments. */
  lemma DocsAreRead(g: ActionGraph, req: PlannerRequest) returns (paths: seq<string>)
    requires IsGraphOf(g, req, AllLeaves(req, ContextOf(req.metadata))) && AsksForDocs(req.metadata)
    ensures |paths| == |req.metadata["doc_paths"].items| && IsSortOf(paths, Texts(req, req.metadata["doc_paths"].items))
    ensures forall i :: 0 <= i < |paths| ==>
              Calls(g, "read_" + Pad3(i), "fs.read_text", map["path" := Str(paths[i]), "out_key" := Str("doc_" + Pad3(i))])
    ensures MergeDocs() in NodeMap(g) && NodeMap(g)[MergeDocs()].kind == Aggregate && NodeMap(g)[MergeDocs()].parameters == map[]
    ensures Prompted(g, DraftReport(), map["system_prompt" := Str(req.texts.draft)])
    ensures Prompted(g, CriticReport(), map["system_prompt" := Str(req.texts.critic(Docs)), "json_schema" := req.texts.criticSchema])
  {
    hide DraftReport, CriticReport, MergeDocs, DocPaths, Pad3, IsGraphOf, NodeMap, IsSortOf, Texts, ContextOf;
    ContextExactly(req.metadata);
    DocsAreSorted(req);
    paths := DocPaths(req);
    var readings := ReadLeaves(paths);
    assert AllLeaves(req, Docs) == [DraftLeaves(req, Docs)[0], CriticLeaf(req, Docs)] + readings;
    forall i | 0 <= i < |paths|
      ensures Calls(g, "read_" + Pad3(i), "fs.read_text", map["path" := Str(paths[i]), "out_key" := Str("doc_" + Pad3(i))])
    {
      assert AllLeaves(req, Docs)[i + 2] == readings[i];
      NodeOfLeaf(g, req, Docs, i + 2);
    }
    assert AllLeaves(req, Docs)[|paths| + 2] == readings[|paths|];
    NodeOfLeaf(g, req, Docs, |paths| + 2);
    NodeOfLeaf(g, req, Docs, 0);
    NodeOfLeaf(g, req, Docs, 1);
  }

  // ---- The other pipelines ----

  /** "html", "txt" or "md", as the output format says. */
  function Extension(format: string): string
  {
    if Lower(format) in {"html", "htm"} then "html" else if Lower(format) in {"txt", "text"} then "txt" else "md"
  }

  /** At most twelve characters of the execution id. */
  predicate IsRunId(run: string, id: string)
  {
    run <= id && |run| == if |id| < 12 then |id| else 12
  }

  /** The page and its article are fetched from the trimmed address, and the summary is exported under the trimmed file name,
      or one made from the output format. */
  lemma PageIsFetched(g: ActionGraph, req: PlannerRequest) returns (url: string, name: string, format: string, run: string)
    requires IsGraphOf(g, req, AllLeaves(req, ContextOf(req.metadata))) && AsksForPage(req.metadata)
    ensures IsTrimOf(url, Said(req, "url")) && IsTrimOf(format, Said(req, "output_format")) && IsRunId(run, req.executionId)
    ensures if IsBlank(Said(req, "output_filename")) then name == "summary." + Extension(format)
            else IsTrimOf(name, Said(req, "output_filename"))
    ensures Calls(g, FetchHtml(), "web.fetch_html", map["url" := Str(url)])
    ensures Calls(g, ExtractArticle(), "web.extract_article", map["url" := Str(url)])
    ensures Calls(g, ExportUserOutput(), "export.write_text",
                  map["run_id" := Str(run), "kind" := Str("news_summary"), "filename" := Str(name), "overwrite" := Bool(true)])
    ensures Prompted(g, DraftReport(), map["system_prompt" := Str(req.texts.draft)])
    ensures Prompted(g, CriticReport(), map["system_prompt" := Str(req.texts.critic(Web)), "json_schema" := req.texts.criticSchema])
  {
    hide DraftReport, CriticReport, FetchHtml, ExtractArticle, ExportUserOutput, DocPaths, IsGraphOf, NodeMap, ContextOf,
         Strip, IsTrimOf, IsBlank, Lower, AsksForPage;
    ContextExactly(req.metadata);
    StripTrims(Said(req, "url"));
    StripTrims(Said(req, "output_format"));
    StripTrims(Said(req, "output_filename"));
    NothingToStrip();
    url, name, format, run := Trimmed(req, "url"), ExportName(req), Trimmed(req, "output_format"), RunId(req);
    NodeOfLeaf(g, req, Web, 0);
    NodeOfLeaf(g, req, Web, 1);
    NodeOfLeaf(g, req, Web, 2);
    NodeOfLeaf(g, req, Web, 3);
    NodeOfLeaf(g, req, Web, 4);
  }

  lemma NothingToStrip()
    ensures Strip("") == ""
  {
  }

  /** The given text is written under the trimmed file name. */
  lemma FileIsWritten(g: ActionGraph, req: PlannerRequest) returns (name: string, run: string)
    requires IsGraphOf(g, req, AllLeaves(req, ContextOf(req.metadata))) && AsksForFile(req.metadata)
    ensures IsTrimOf(name, req.metadata["output_filename"].s) && name != "" && IsRunId(run, req.executionId)
    ensures Calls(g, WriteFile(), "export.write_text",
                  map["run_id" := Str(run), "filename" := Str(name),
                      "text" := if "output_text" in req.metadata && req.metadata["output_text"].Str? then req.metadata["output_text"] else Str(""),
                      "encoding" := Str("utf-8"), "overwrite" := Bool(true)])
    ensures Prompted(g, DraftReport(), map["system_prompt" := Str(req.texts.fileDraft)])
    ensures Prompted(g, CriticReport(), map["system_prompt" := Str(req.texts.critic(File)), "json_schema" := req.texts.criticSchema])
  {
    hide DraftReport, CriticReport, WriteFile, DocPaths, IsGraphOf, NodeMap, ContextOf, Strip, IsTrimOf, IsBlank, AsksForPage, AsksForDocs;
    ContextExactly(req.metadata);
    StripTrims(req.metadata["output_filename"].s);
    name, run := Trimmed(req, "output_filename"), RunId(req);
    NodeOfLeaf(g, req, File, 0);
    NodeOfLeaf(g, req, File, 1);
    NodeOfLeaf(g, req, File, 2);
  }

  /** Otherwise there is nothing to collect: a draft and its critic. */
  lemma ReportIsDrafted(g: ActionGraph, req: PlannerRequest)
    requires IsGraphOf(g, req, AllLeaves(req, ContextOf(req.metadata)))
    requires !AsksForPage(req.metadata) && !AsksForDocs(req.metadata) && !AsksForFile(req.metadata)
    ensures |g.nodes| == 2
    ensures Prompted(g, DraftReport(), map["system_prompt" := Str(req.texts.draft)])
    ensures Prompted(g, CriticReport(), map["system_prompt" := Str(req.texts.critic(Generic)), "json_schema" := req.texts.criticSchema])
  {
    hide DraftReport, CriticReport, DocPaths, IsGraphOf, NodeMap, ContextOf, AsksForPage, AsksForDocs, AsksForFile;
    ContextExactly(req.metadata);
    PlanNodes(g, req, Generic);
    NodeOfLeaf(g, req, Generic, 0);
    NodeOfLeaf(g, req, Generic, 1);
  }

  /** A plan is named after its execution. */
  lemma PlanIsNamed(g: ActionGraph, req: PlannerRequest) returns (run: string)
    requires IsGraphOf(g, req, AllLeaves(req, ContextOf(req.metadata)))
    ensures IsRunId(run, req.executionId) && g.planId == "plan-htn-recursive-v0-" + run
  {
    hide AllLeaves, ContextOf, StrSorted, EdgesSorted, NodeFrom, Dependents, LeafIds;
    run := RunId(req);
  }
}
