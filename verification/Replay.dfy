/** Recording and replaying node responses (trace/replay.py, nodes/model_node.py, mcp_node.py, code_node.py). */
module Replay {
  import opened Graph
  import opened Nodes
  import opened Order
  import opened Wrappers

  /** One recorded response; without a status it counts as completed. */
  datatype Recording = Recording(outputs: Values, quality: Values, status: Option<Status>)

  datatype TraceEvent =
    | ReplayData(node: string, responses: seq<Recording>)
    | NodeEnd(node: string, outputs: Values, status: Status)
    | PlannerRequest(catalogHash: string)
    | OtherEvent

  /** Model, code and tool nodes take recorded responses; decisions and aggregates always run. */
  predicate HasReplay(kind: NodeType)
  {
    kind == Model || kind == Code || kind == Mcp
  }

  function Replayed(r: Recording): NodeOutput
  {
    NodeOutput(r.outputs, r.quality, if r.status.Some? then r.status.value else Completed, None, None)
  }

  function FailedWith(error: string): NodeOutput
  {
    NodeOutput(map[], map[], Failed, Some(error), None)
  }

  function Exhausted(kind: NodeType): NodeOutput
  {
    FailedWith(if kind == Mcp then "Replay exhausted" else "Replay exhausted: no more recorded responses")
  }

  /** A code node refuses blank code before it looks at anything else. */
  predicate Refuses(kind: NodeType, blank: Values -> bool, inputs: Values)
  {
    kind == Code && blank(inputs)
  }

  /** A node that replays: the call with a given number gets the response with that number. */
  function ReplayReply(kind: NodeType, blank: Values -> bool, responses: seq<Recording>, inputs: Values, call: nat): Reply
  {
    if Refuses(kind, blank, inputs) then Returned(FailedWith("No code provided"))
    else if call < |responses| then Returned(Replayed(responses[call]))
    else Returned(Exhausted(kind))
  }

  /** Beyond its responses, and on blank code, a replaying node fails; and it fails without outputs. */
  lemma RunsOut(kind: NodeType, blank: Values -> bool, responses: seq<Recording>, inputs: Values, call: nat)
    ensures var reply := ReplayReply(kind, blank, responses, inputs, call);
            && reply.Returned?
            && ((kind == Code && blank(inputs)) || call >= |responses| ==>
                  reply.output.status == Failed && reply.output.outputs == map[] && reply.output.error.Some?)
            && (!(kind == Code && blank(inputs)) && call < |responses| ==>
                  && reply.output.outputs == responses[call].outputs && reply.output.quality == responses[call].quality
                  && reply.output.status == (if responses[call].status.Some? then responses[call].status.value else Completed)
                  && reply.output.error == None && reply.output.failureClass == None)
  {
  }

  // ---- Nodes ----

  /** What a live call does, and whether it is recorded. */
  datatype LiveCall = LiveCall(reply: Reply, recorded: bool)

  function RecordingOf(out: NodeOutput): Recording
  {
    Recording(out.outputs, out.quality, Some(out.status))
  }

  class ReplayNode {
    const kind: NodeType
    const blank: Values -> bool
    const live: (Values, nat) -> LiveCall

    var replayResponses: Option<seq<Recording>>
    var replayIndex: nat
    var recordedResponses: Option<seq<Recording>>

    constructor (kind: NodeType, blank: Values -> bool, live: (Values, nat) -> LiveCall)
      ensures this.kind == kind && this.blank == blank && this.live == live
      ensures replayResponses == None && replayIndex == 0 && recordedResponses == None
    {
      this.kind, this.blank, this.live := kind, blank, live;
      replayResponses, replayIndex, recordedResponses := None, 0, None;
    }

    method SetReplayResponses(responses: seq<Recording>)
      modifies this
      ensures replayResponses == Some(responses) && replayIndex == 0
      ensures recordedResponses == old(recordedResponses)
    {
      replayResponses := Some(responses);
      replayIndex := 0;
    }

    method EnableRecording()
      modifies this
      ensures recordedResponses == Some([])
      ensures replayResponses == old(replayResponses) && replayIndex == old(replayIndex)
    {
      recordedResponses := Some([]);
    }

    /** `execute`; while replaying the cursor moves by one unless the call is refused or there is nothing left. */
    method Execute(inputs: Values, attempt: nat) returns (reply: Reply)
      modifies this
      ensures replayResponses == old(replayResponses)
      ensures replayResponses.Some? ==>
                && reply == ReplayReply(kind, blank, replayResponses.value, inputs, old(replayIndex))
                && replayIndex == old(replayIndex)
                   + if Refuses(kind, blank, inputs) || old(replayIndex) >= |replayResponses.value| then 0 else 1
      ensures replayResponses.None? ==>
                && replayIndex == old(replayIndex)
                && reply == (if Refuses(kind, blank, inputs) then Returned(FailedWith("No code provided")) else live(inputs, attempt).reply)
                && recordedResponses ==
                   if old(recordedResponses).Some? && !Refuses(kind, blank, inputs) && live(inputs, attempt).recorded
                      && live(inputs, attempt).reply.Returned?
                   then Some(old(recordedResponses).value + [RecordingOf(live(inputs, attempt).reply.output)])
                   else old(recordedResponses)
    {
      if Refuses(kind, blank, inputs) {
        return Returned(FailedWith("No code provided"));
      }
      if replayResponses.Some? {
        if replayIndex >= |replayResponses.value| {
          return Returned(Exhausted(kind));
        }
        var out := Replayed(replayResponses.value[replayIndex]);
        replayIndex := replayIndex + 1;
        if kind != Code && recordedResponses.Some? {
          recordedResponses := Some(recordedResponses.value + [RecordingOf(out)]);
        }
        return Returned(out);
      }
      var call := live(inputs, attempt);
      if recordedResponses.Some? && call.recorded && call.reply.Returned? {
        recordedResponses := Some(recordedResponses.value + [RecordingOf(call.reply.output)]);
      }
      return call.reply;
    }
  }

  /** Called again and again with the same inputs from a fresh injection, a replaying node is the function
      `ReplayReply` of the number of the call. */
  method CallTimes(node: ReplayNode, inputs: Values, n: nat) returns (replies: seq<Reply>)
    requires node.replayResponses.Some? && node.replayIndex == 0
    modifies node
    ensures node.replayResponses == old(node.replayResponses) && |replies| == n
    ensures forall k :: 0 <= k < n ==> replies[k] == ReplayReply(node.kind, node.blank, node.replayResponses.value, inputs, k)
  {
    replies := [];
    for k := 0 to n
      invariant node.replayResponses == old(node.replayResponses) && |replies| == k
      invariant Refuses(node.kind, node.blank, inputs) || node.replayIndex == if k < |node.replayResponses.value| then k else |node.replayResponses.value|
      invariant forall i :: 0 <= i < k ==> replies[i] == ReplayReply(node.kind, node.blank, node.replayResponses.value, inputs, i)
    {
      var reply := node.Execute(inputs, k);
      replies := replies + [reply];
    }
  }

  /** A call: the inputs and the number of the attempt. */
  type Call = (Values, nat)

  function LiveReply(node: ReplayNode, call: Call): Reply
  {
    if Refuses(node.kind, node.blank, call.0) then Returned(FailedWith("No code provided"))
    else node.live(call.0, call.1).reply
  }

  /** The call is refused, or its reply is recorded. */
  predicate Kept(node: ReplayNode, call: Call)
  {
    Refuses(node.kind, node.blank, call.0) || (node.live(call.0, call.1).recorded && LiveReply(node, call).Returned?)
  }

  /** What calls that are all kept record: one response for each that is not refused. */
  function Records(node: ReplayNode, calls: seq<Call>): seq<Recording>
    requires forall i :: 0 <= i < |calls| ==> Kept(node, calls[i])
  {
    if calls == [] then []
    else
      var last := calls[|calls| - 1];
      assert Kept(node, last);
      Records(node, calls[..|calls| - 1])
      + if Refuses(node.kind, node.blank, last.0) then [] else [RecordingOf(LiveReply(node, last).output)]
  }

  lemma OneMoreCall(node: ReplayNode, calls: seq<Call>, i: nat)
    requires i < |calls| && forall k :: 0 <= k < |calls| ==> Kept(node, calls[k])
    ensures Kept(node, calls[i])
    ensures Records(node, calls[..i + 1]) ==
            if Refuses(node.kind, node.blank, calls[i].0) then Records(node, calls[..i])
            else Records(node, calls[..i]) + [RecordingOf(LiveReply(node, calls[i]).output)]
  {
    assert calls[..i + 1][..i] == calls[..i];
  }

  lemma {:induction false} RecordsGrow(node: ReplayNode, calls: seq<Call>, i: nat)
    requires i <= |calls| && forall k :: 0 <= k < |calls| ==> Kept(node, calls[k])
    ensures Records(node, calls[..i]) <= Records(node, calls)
    decreases |calls| - i
  {
    if i < |calls| {
      OneMoreCall(node, calls, i);
      RecordsGrow(node, calls, i + 1);
    } else {
      assert calls[..i] == calls;
    }
  }

  method CallLive(node: ReplayNode, calls: seq<Call>) returns (replies: seq<Reply>)
    requires node.replayResponses.None? && forall i :: 0 <= i < |calls| ==> Kept(node, calls[i])
    modifies node
    ensures node.recordedResponses == Some(Records(node, calls)) && |replies| == |calls|
    ensures forall i :: 0 <= i < |calls| ==> replies[i] == LiveReply(node, calls[i])
  {
    hide Refuses;
    replies := [];
    node.EnableRecording();
    for i := 0 to |calls|
      invariant node.replayResponses.None? && node.recordedResponses == Some(Records(node, calls[..i])) && |replies| == i
      invariant forall k :: 0 <= k < i ==> replies[k] == LiveReply(node, calls[k])
    {
      OneMoreCall(node, calls, i);
      var reply := node.Execute(calls[i].0, calls[i].1);
      replies := replies + [reply];
    }
    assert calls[..|calls|] == calls;
  }

  /** What a replay gives back for a live reply: outputs, quality and status, without the error. */
  function Remembered(node: ReplayNode, call: Call): Reply
    requires Kept(node, call)
  {
    if Refuses(node.kind, node.blank, call.0) then LiveReply(node, call)
    else Returned(Replayed(RecordingOf(LiveReply(node, call).output)))
  }

  /** The cursor after i calls points at the record of call i, if it has one. */
  lemma CursorAt(node: ReplayNode, calls: seq<Call>, i: nat)
    requires i < |calls| && forall k :: 0 <= k < |calls| ==> Kept(node, calls[k])
    ensures Kept(node, calls[i])
    ensures var (all, cursor) := (Records(node, calls), |Records(node, calls[..i])|);
            && ReplayReply(node.kind, node.blank, all, calls[i].0, cursor) == Remembered(node, calls[i])
            && |Records(node, calls[..i + 1])|
               == cursor + if Refuses(node.kind, node.blank, calls[i].0) || cursor >= |all| then 0 else 1
  {
    hide Kept, Refuses, Records;
    OneMoreCall(node, calls, i);
    RecordsGrow(node, calls, i + 1);
  }

  lemma NoCalls(node: ReplayNode, calls: seq<Call>)
    ensures Records(node, calls[..0]) == []
  {
  }

  /** Recording a node's calls and injecting what was recorded into another node of its kind makes that
      node answer the same calls from memory, although refused calls leave no recording. */
  method RecordThenReplay(node: ReplayNode, player: ReplayNode, calls: seq<Call>) returns (replies: seq<Reply>)
    requires node != player && node.kind == player.kind && node.blank == player.blank && node.replayResponses.None?
    requires forall i :: 0 <= i < |calls| ==> Kept(node, calls[i])
    modifies node, player
    ensures |replies| == |calls| && forall i :: 0 <= i < |calls| ==> replies[i] == Remembered(node, calls[i])
    ensures player.replayResponses == Some(Records(node, calls)) && player.replayIndex == |Records(node, calls)|
  {
    hide *;
    NoCalls(node, calls);
    var _ := CallLive(node, calls);
    player.SetReplayResponses(node.recordedResponses.value);
    replies := [];
    for i := 0 to |calls|
      invariant player.replayResponses == Some(Records(node, calls)) && player.replayIndex == |Records(node, calls[..i])|
      invariant |replies| == i && forall k :: 0 <= k < i ==> replies[k] == Remembered(node, calls[k])
    {
      CursorAt(node, calls, i);
      var reply := player.Execute(calls[i].0, calls[i].1);
      replies := replies + [reply];
    }
    assert calls[..|calls|] == calls;
  }

  // ---- The provider ----

  /** All recorded responses of a node, in trace order. */
  function RecordedFor(events: seq<TraceEvent>, node: string): seq<Recording>
  {
    if events == [] then []
    else
      var last := events[|events| - 1];
      RecordedFor(events[..|events| - 1], node)
      + if last.ReplayData? && last.node == node && node != "" then last.responses else []
  }

  /** The outputs of its `node_end` events, without quality signals. */
  function EndedFor(events: seq<TraceEvent>, node: string): seq<Recording>
  {
    if events == [] then []
    else
      var last := events[|events| - 1];
      EndedFor(events[..|events| - 1], node)
      + if last.NodeEnd? && last.node == node && node != "" then [Recording(last.outputs, map[], Some(last.status))] else []
  }

  /** The `node_end` events of a node, by their places in the trace. */
  ghost predicate EndsAt(events: seq<TraceEvent>, node: string, at: seq<nat>)
  {
    && (forall k :: 0 <= k < |at| ==> at[k] < |events| && events[at[k]].NodeEnd? && events[at[k]].node == node)
    && (forall k, l :: 0 <= k < l < |at| ==> at[k] < at[l])
    && (forall i :: 0 <= i < |events| && events[i].NodeEnd? && events[i].node == node ==> i in at)
  }

  /** One response for each of them, in order. */
  lemma {:induction false} EndedAt(events: seq<TraceEvent>, node: string) returns (at: seq<nat>)
    requires node != ""
    ensures EndsAt(events, node, at) && |EndedFor(events, node)| == |at|
    ensures forall k :: 0 <= k < |at| ==>
              EndedFor(events, node)[k] == Recording(events[at[k]].outputs, map[], Some(events[at[k]].status))
    decreases |events|
  {
    at := [];
    if events != [] {
      var n := |events| - 1;
      at := EndedAt(events[..n], node);
      if events[n].NodeEnd? && events[n].node == node { at := at + [n]; }
    }
  }

  function HashesOf(events: seq<TraceEvent>): (hashes: seq<string>)
    ensures forall h :: h in hashes <==> h != "" && PlannerRequest(h) in events
  {
    if events == [] then []
    else
      var last := events[|events| - 1];
      assert events == events[..|events| - 1] + [last];
      HashesOf(events[..|events| - 1])
      + if last.PlannerRequest? && last.catalogHash != "" then [last.catalogHash] else []
  }

  function ListAt(m: map<string, seq<Recording>>, key: string): seq<Recording>
  {
    if key in m then m[key] else []
  }

  /** The dictionary has exactly the nodes with recorded responses, and all of these. */
  ghost predicate HoldsRecorded(m: map<string, seq<Recording>>, events: seq<TraceEvent>)
  {
    forall x :: ListAt(m, x) == RecordedFor(events, x) && (x in m ==> m[x] != [])
  }

  ghost predicate HoldsEnded(m: map<string, seq<Recording>>, events: seq<TraceEvent>)
  {
    forall x :: ListAt(m, x) == EndedFor(events, x) && (x in m ==> m[x] != [])
  }

  /** `setdefault(...).extend(...)` for one event. */
  function WithRecorded(m: map<string, seq<Recording>>, e: TraceEvent): map<string, seq<Recording>>
  {
    if e.ReplayData? && e.node != "" && e.responses != [] then m[e.node := ListAt(m, e.node) + e.responses] else m
  }

  function WithEnded(m: map<string, seq<Recording>>, e: TraceEvent): map<string, seq<Recording>>
  {
    if e.NodeEnd? && e.node != "" then m[e.node := ListAt(m, e.node) + [Recording(e.outputs, map[], Some(e.status))]] else m
  }

  lemma OneMoreRecorded(events: seq<TraceEvent>, i: nat, m: map<string, seq<Recording>>)
    requires i < |events| && HoldsRecorded(m, events[..i])
    ensures HoldsRecorded(WithRecorded(m, events[i]), events[..i + 1])
  {
    assert events[..i + 1][..i] == events[..i];
  }

  lemma OneMoreEnded(events: seq<TraceEvent>, i: nat, m: map<string, seq<Recording>>)
    requires i < |events| && HoldsEnded(m, events[..i])
    ensures HoldsEnded(WithEnded(m, events[i]), events[..i + 1])
  {
    assert events[..i + 1][..i] == events[..i];
  }

  lemma OneMoreHash(events: seq<TraceEvent>, i: nat)
    requires i < |events|
    ensures var e := events[i];
            HashesOf(events[..i + 1]) ==
            HashesOf(events[..i]) + if e.PlannerRequest? && e.catalogHash != "" then [e.catalogHash] else []
  {
    assert events[..i + 1][..i] == events[..i];
  }

  datatype InjectReport = InjectReport(injected: seq<string>, fallback: seq<string>, missing: seq<string>)

  /** Where a node's responses come from. */
  datatype Source = FromRecorded | FromNodeEnd | Nowhere | NotReplayed

  function SourceOf(kind: NodeType, recorded: map<string, seq<Recording>>, ended: map<string, seq<Recording>>, strict: bool, x: string): Source
  {
    if !HasReplay(kind) then NotReplayed
    else if x in recorded then FromRecorded
    else if !strict && x in ended then FromNodeEnd
    else Nowhere
  }

  /** The nodes with a given source, in order. */
  function Those(order: seq<string>, sources: map<string, Source>, which: Source): (r: seq<string>)
    requires forall x :: x in order ==> x in sources
    ensures forall x :: x in r <==> x in order && sources[x] == which
  {
    if order == [] then []
    else
      var last := order[|order| - 1];
      assert order == order[..|order| - 1] + [last];
      Those(order[..|order| - 1], sources, which) + if sources[last] == which then [last] else []
  }

  /** The three lists of the report. */
  ghost predicate Reports(report: InjectReport, order: seq<string>, sources: map<string, Source>)
  {
    && (forall x :: x in order ==> x in sources)
    && report == InjectReport(Those(order, sources, FromRecorded), Those(order, sources, FromNodeEnd), Those(order, sources, Nowhere))
  }

  function WithNode(report: InjectReport, x: string, source: Source): InjectReport
  {
    match source
    case FromRecorded => report.(injected := report.injected + [x])
    case FromNodeEnd => report.(fallback := report.fallback + [x])
    case Nowhere => report.(missing := report.missing + [x])
    case NotReplayed => report
  }

  lemma OneMoreReported(report: InjectReport, order: seq<string>, i: nat, sources: map<string, Source>)
    requires i < |order| && order[i] in sources && Reports(report, order[..i], sources)
    ensures Reports(WithNode(report, order[i], sources[order[i]]), order[..i + 1], sources)
  {
    assert order[..i + 1][..i] == order[..i] && order[..i + 1] == order[..i] + [order[i]];
  }

  lemma {:induction false} ThoseDistinct(order: seq<string>, sources: map<string, Source>, which: Source)
    requires Distinct(order) && forall x :: x in order ==> x in sources
    ensures Distinct(Those(order, sources, which))
  {
    if order != [] {
      ThoseDistinct(order[..|order| - 1], sources, which);
    }
  }

  class ReplayProvider {
    var replayData: map<string, seq<Recording>>
    var nodeEndFallback: map<string, seq<Recording>>
    var plannerCatalogHashes: seq<string>

    /** The dictionaries are filled event by event. */
    constructor (events: seq<TraceEvent>)
      ensures HoldsRecorded(replayData, events) && HoldsEnded(nodeEndFallback, events)
      ensures plannerCatalogHashes == HashesOf(events)
    {
      replayData, nodeEndFallback, plannerCatalogHashes := map[], map[], [];
      new;
      hide HoldsRecorded, HoldsEnded, HashesOf;
      NothingHeld();
      for i := 0 to |events|
        modifies this
        invariant HoldsRecorded(replayData, events[..i]) && HoldsEnded(nodeEndFallback, events[..i])
        invariant plannerCatalogHashes == HashesOf(events[..i])
      {
        OneMoreRecorded(events, i, replayData);
        OneMoreEnded(events, i, nodeEndFallback);
        OneMoreHash(events, i);
        match events[i] {
          case ReplayData(nid, responses) =>
            if nid != "" && responses != [] {
              replayData := replayData[nid := ListAt(replayData, nid) + responses];
            }
          case NodeEnd(nid, outputs, status) =>
            if nid != "" {
              nodeEndFallback := nodeEndFallback[nid := ListAt(nodeEndFallback, nid) + [Recording(outputs, map[], Some(status))]];
            }
          case PlannerRequest(hash) =>
            if hash != "" {
              plannerCatalogHashes := plannerCatalogHashes + [hash];
            }
          case OtherEvent =>
        }
      }
      assert events[..|events|] == events;
    }

    /** Each node's source. */
    function Sources(registry: map<string, ReplayNode>, strict: bool): (sources: map<string, Source>)
      reads this
      ensures sources.Keys == registry.Keys
    {
      map x | x in registry :: SourceOf(registry[x].kind, replayData, nodeEndFallback, strict, x)
    }

    /** One node of the registry. */
    method InjectNode(node: ReplayNode, nid: string, strict: bool) returns (source: Source)
      modifies node
      ensures source == SourceOf(node.kind, replayData, nodeEndFallback, strict, nid)
      ensures Injected(node, source, nid)
      ensures source in {Nowhere, NotReplayed} ==> unchanged(node)
    {
      if !HasReplay(node.kind) {
        return NotReplayed;
      } else if nid in replayData {
        node.SetReplayResponses(replayData[nid]);
        return FromRecorded;
      } else if !strict && nid in nodeEndFallback {
        node.SetReplayResponses(nodeEndFallback[nid]);
        return FromNodeEnd;
      }
      return Nowhere;
    }

    /** The loop over the registry. */
    method InjectAll(order: seq<string>, registry: map<string, ReplayNode>, strict: bool) returns (report: InjectReport)
      requires Distinct(order) && forall x :: x in order <==> x in registry
      requires forall x, y :: x in registry && y in registry && registry[x] == registry[y] ==> x == y
      modifies registry.Values
      ensures Reports(report, order, Sources(registry, strict))
      ensures forall x :: x in registry ==> Injected(registry[x], Sources(registry, strict)[x], x)
      ensures forall x :: x in registry && Sources(registry, strict)[x] in {Nowhere, NotReplayed} ==> unchanged(registry[x])
    {
      hide Reports, SourceOf, Injected, Distinct;
      ghost var sources := Sources(registry, strict);
      report := InjectReport([], [], []);
      NoneYet(sources);
      for i := 0 to |order|
        invariant Reports(report, order[..i], sources)
        invariant forall x :: x in order[..i] ==> Injected(registry[x], sources[x], x)
        invariant forall x :: x in registry && (x !in order[..i] || sources[x] in {Nowhere, NotReplayed}) ==> unchanged(registry[x])
      {
        var nid := order[i];
        OneMoreId(order, i);
        OneMoreReported(report, order, i, sources);
        var source := InjectNode(registry[nid], nid, strict);
        report := WithNode(report, nid, source);
      }
      assert order[..|order|] == order;
    }

    /** `inject`: every node with a source gets its responses and a cursor at 0; in strict mode it raises,
        naming the missing nodes in order, exactly when some replay-capable node has no recorded response. */
    method Inject(order: seq<string>, registry: map<string, ReplayNode>, strict: bool) returns (r: Result<InjectReport, seq<string>>)
      requires Distinct(order) && forall x :: x in order <==> x in registry
      requires forall x, y :: x in registry && y in registry && registry[x] == registry[y] ==> x == y
      modifies registry.Values
      ensures r.Err? <==> strict && exists x :: x in registry && Sources(registry, strict)[x] == Nowhere
      ensures r.Err? ==> StrSorted(r.error) && forall x :: x in r.error <==> x in registry && Sources(registry, strict)[x] == Nowhere
      ensures r.Ok? ==> Reports(r.value, order, Sources(registry, strict))
      ensures forall x :: x in registry ==> Injected(registry[x], Sources(registry, strict)[x], x)
      ensures forall x :: x in registry && Sources(registry, strict)[x] in {Nowhere, NotReplayed} ==> unchanged(registry[x])
    {
      hide Those, SourceOf, Injected;
      var report := InjectAll(order, registry, strict);
      if strict && report.missing != [] {
        assert report.missing[0] in report.missing;
        ThoseDistinct(order, Sources(registry, strict), Nowhere);
        SortStringsSorted(report.missing);
        return Err(SortStrings(report.missing));
      }
      return Ok(report);
    }

    /** A node with a source holds its responses, with the cursor at 0. */
    ghost predicate Injected(node: ReplayNode, source: Source, x: string)
      reads this, node
    {
      && (source == FromRecorded ==> x in replayData && node.replayResponses == Some(replayData[x]) && node.replayIndex == 0)
      && (source == FromNodeEnd ==> x in nodeEndFallback && node.replayResponses == Some(nodeEndFallback[x]) && node.replayIndex == 0)
    }
  }

  /** A strict replay from a trace: it raises exactly when a node that can replay has no recorded response;
      otherwise each of them will answer its calls with its recorded responses, in trace order. */
  method PrepareStrictReplay(events: seq<TraceEvent>, order: seq<string>, registry: map<string, ReplayNode>)
    returns (r: Result<InjectReport, seq<string>>)
    requires Distinct(order) && forall x :: x in order <==> x in registry
    requires forall x, y :: x in registry && y in registry && registry[x] == registry[y] ==> x == y
    modifies registry.Values
    ensures r.Ok? <==> forall x :: x in registry && HasReplay(registry[x].kind) ==> RecordedFor(events, x) != []
    ensures r.Ok? ==> forall x :: x in registry && HasReplay(registry[x].kind) ==>
                        registry[x].replayResponses == Some(RecordedFor(events, x)) && registry[x].replayIndex == 0
    ensures r.Err? ==> forall x :: x in r.error <==> x in registry && HasReplay(registry[x].kind) && RecordedFor(events, x) == []
  {
    hide RecordedFor, EndedFor, HashesOf, Reports, Distinct;
    var provider := new ReplayProvider(events);
    r := provider.Inject(order, registry, true);
    ghost var sources := provider.Sources(registry, true);
    forall x | x in registry
      ensures (sources[x] == Nowhere) == (HasReplay(registry[x].kind) && RecordedFor(events, x) == [])
      ensures (sources[x] == FromRecorded) == (HasReplay(registry[x].kind) && RecordedFor(events, x) != [])
      ensures sources[x] == FromRecorded ==> registry[x].replayResponses == Some(RecordedFor(events, x)) && registry[x].replayIndex == 0
    {
      assert ListAt(provider.replayData, x) == RecordedFor(events, x);
      assert provider.Injected(registry[x], sources[x], x);
    }
  }

  /** A lenient replay never raises: nodes without recorded responses fall back to their `node_end` outputs, and nodes
      without either stay as they are. */
  method PrepareLenientReplay(events: seq<TraceEvent>, order: seq<string>, registry: map<string, ReplayNode>)
    returns (r: Result<InjectReport, seq<string>>)
    requires Distinct(order) && forall x :: x in order <==> x in registry
    requires forall x, y :: x in registry && y in registry && registry[x] == registry[y] ==> x == y
    modifies registry.Values
    ensures r.Ok?
    ensures forall x :: x in registry && HasReplay(registry[x].kind) && RecordedFor(events, x) + EndedFor(events, x) != [] ==>
              && registry[x].replayIndex == 0
              && registry[x].replayResponses == Some(if RecordedFor(events, x) != [] then RecordedFor(events, x) else EndedFor(events, x))
    ensures forall x :: x in registry && !(HasReplay(registry[x].kind) && RecordedFor(events, x) + EndedFor(events, x) != []) ==>
              unchanged(registry[x])
    ensures forall x :: x in registry ==>
              var capable, recorded, ended := HasReplay(registry[x].kind), RecordedFor(events, x) != [], EndedFor(events, x) != [];
              && (x in r.value.injected <==> capable && recorded)
              && (x in r.value.fallback <==> capable && !recorded && ended)
              && (x in r.value.missing <==> capable && !recorded && !ended)
  {
    hide RecordedFor, EndedFor, HashesOf, Distinct, Those;
    var provider := new ReplayProvider(events);
    r := provider.Inject(order, registry, false);
    ghost var sources := provider.Sources(registry, false);
    forall x | x in registry
      ensures sources[x] ==
              if !HasReplay(registry[x].kind) then NotReplayed else if RecordedFor(events, x) != [] then FromRecorded
              else if EndedFor(events, x) != [] then FromNodeEnd else Nowhere
      ensures sources[x] == FromRecorded ==> registry[x].replayResponses == Some(RecordedFor(events, x)) && registry[x].replayIndex == 0
      ensures sources[x] == FromNodeEnd ==> registry[x].replayResponses == Some(EndedFor(events, x)) && registry[x].replayIndex == 0
    {
      assert ListAt(provider.replayData, x) == RecordedFor(events, x);
      assert ListAt(provider.nodeEndFallback, x) == EndedFor(events, x);
      assert provider.Injected(registry[x], sources[x], x);
    }
  }

  lemma OneMoreId(order: seq<string>, i: nat)
    requires Distinct(order) && i < |order|
    ensures order[i] in order && order[i] !in order[..i]
    ensures forall x :: x in order[..i + 1] <==> x in order[..i] || x == order[i]
  {
    assert order[..i + 1] == order[..i] + [order[i]];
  }

  lemma NothingHeld()
    ensures HoldsRecorded(map[], []) && HoldsEnded(map[], []) && HashesOf([]) == []
  {
  }

  lemma NoneYet(sources: map<string, Source>)
    ensures Reports(InjectReport([], [], []), [], sources)
  {
  }
}
