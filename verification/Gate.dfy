/** The stage success gate (core/orchestrator.py) and the critic verdict it reads
    (verification/demo_critic.py), live and from a checkpoint snapshot. */
module Gate {
  import opened JsonValues
  import opened Nodes
  import opened Wrappers

  datatype StageGate = StageGate(required: seq<string>, critic: Option<string>)

  /** `gate.critic_node_id` is set and not empty. */
  predicate HasCritic(gate: StageGate)
  {
    gate.critic.Some? && gate.critic.value != ""
  }

  // ---- DemoCriticVerdict ----

  datatype Verdict = Verdict(
    verdict: string, confidence: Json, evidence: seq<Json>, gaps: seq<Json>, suggestions: seq<Json>)

  const FIELDS := {"verdict", "confidence", "evidence", "gaps", "suggestions"}

  const UNCERTAIN := Verdict("UNCERTAIN", Num(0.0), [], [], [])

  function GetOr(fields: map<string, Json>, key: string, default: Json): Json
  {
    if key in fields then fields[key] else default
  }

  predicate IsListOf(j: Json, kind: Json -> bool)
  {
    j.Arr? && forall i :: 0 <= i < |j.items| ==> kind(j.items[i])
  }

  const IS_TEXT: Json -> bool := (j: Json) => j.Str?
  const IS_OBJECT: Json -> bool := (j: Json) => j.Obj?

  /** The types of the fields that are present; absent ones take their defaults. */
  predicate FieldsFit(fields: map<string, Json>)
  {
    && "verdict" in fields && fields["verdict"] in {Str("PASS"), Str("FAIL"), Str("UNCERTAIN")}
    && GetOr(fields, "confidence", Num(1.0)).Num?
    && IsListOf(GetOr(fields, "evidence", Arr([])), IS_TEXT)
    && IsListOf(GetOr(fields, "gaps", Arr([])), IS_TEXT)
    && IsListOf(GetOr(fields, "suggestions", Arr([])), IS_OBJECT)
  }

  /** `DemoCriticVerdict(**fields)`: unknown fields are forbidden. */
  function ParseVerdict(fields: map<string, Json>): Option<Verdict>
  {
    if fields.Keys <= FIELDS && FieldsFit(fields) then
      Some(Verdict(fields["verdict"].s, GetOr(fields, "confidence", Num(1.0)),
                   GetOr(fields, "evidence", Arr([])).items, GetOr(fields, "gaps", Arr([])).items,
                   GetOr(fields, "suggestions", Arr([])).items))
    else None
  }

  /** PASS without evidence becomes UNCERTAIN. */
  function Downgrade(v: Verdict, gap: string): Verdict
  {
    if v.verdict == "PASS" && v.evidence == [] then Verdict("UNCERTAIN", v.confidence, [], [Str(gap)], []) else v
  }

  /** `json.loads`, left abstract. */
  type Loads = string -> Option<Json>

  /** `parse_critic_verdict`. */
  function ParseCriticVerdict(loads: Loads, raw: string): Verdict
  {
    match loads(raw)
    case Some(Obj(fields)) =>
      (match ParseVerdict(fields)
       case Some(v) => Downgrade(v, "Critic returned PASS without evidence — downgraded to UNCERTAIN")
       case None => UNCERTAIN.(gaps := [Str("Failed to parse critic output: " + Take200(raw))]))
    case _ => UNCERTAIN.(gaps := [Str("Failed to parse critic output: " + Take200(raw))])
  }

  function Take200(s: string): string
  {
    if |s| <= 200 then s else s[..200]
  }

  /** A completed critic writes its text under "content". */
  predicate ContentIsText(out: NodeOutput)
  {
    GetOr(out.outputs, "content", Str("")).Str?
  }

  function Raw(out: NodeOutput): string
    requires ContentIsText(out)
  {
    GetOr(out.outputs, "content", Str("")).s
  }

  predicate CriticText(results: map<string, NodeOutput>, critic: string)
  {
    critic in results && results[critic].status.Completed? ==> ContentIsText(results[critic])
  }

  /** `_extract_verdict`. */
  function ExtractVerdict(loads: Loads, results: map<string, NodeOutput>, critic: string): Verdict
    requires CriticText(results, critic)
  {
    if critic !in results || !results[critic].status.Completed? then
      var error := if critic in results && results[critic].error.Some? then results[critic].error.value else "";
      UNCERTAIN.(gaps := [Str("Critic node '" + critic + "' failed: " + error)])
    else
      var out := results[critic];
      match GetOr(out.outputs, "parsed", Null)
      case Obj(fields) =>
        (match ParseVerdict(fields)
         case Some(v) => Downgrade(v, "PASS without evidence — downgraded")
         case None => ParseCriticVerdict(loads, Raw(out)))
      case _ => ParseCriticVerdict(loads, Raw(out))
  }

  // ---- _build_gate_snapshot, and the verdict read back from it ----

  /** `critic` holds the five critic entries when the gate has a critic. */
  datatype Snapshot = Snapshot(requiredOk: bool, critic: map<string, Json>)

  predicate RequiredOk(results: map<string, NodeOutput>, gate: StageGate)
  {
    forall i :: 0 <= i < |gate.required| ==>
      gate.required[i] in results && results[gate.required[i]].status.Completed?
  }

  /** The five fields of a critic object, with the snapshot's defaults. */
  function Project(fields: map<string, Json>): map<string, Json>
  {
    map["verdict" := GetOr(fields, "verdict", Str("UNCERTAIN")),
        "confidence" := GetOr(fields, "confidence", Num(0.0)),
        "evidence" := GetOr(fields, "evidence", Arr([])),
        "gaps" := GetOr(fields, "gaps", Arr([])),
        "suggestions" := GetOr(fields, "suggestions", Arr([]))]
  }

  /** The object the snapshot reads: the parsed one, else the text; a text holding JSON that is
      not an object makes the source raise. */
  function SnapshotFields(loads: Loads, out: NodeOutput): Option<map<string, Json>>
    requires ContentIsText(out)
  {
    match GetOr(out.outputs, "parsed", Null)
    case Obj(fields) => Some(fields)
    case _ =>
      match loads(Raw(out))
      case None => Some(map[])
      case Some(Obj(fields)) => Some(fields)
      case Some(_) => None
  }

  function BuildSnapshot(loads: Loads, results: map<string, NodeOutput>, gate: StageGate): Option<Snapshot>
    requires HasCritic(gate) ==> CriticText(results, gate.critic.value)
  {
    var ok := RequiredOk(results, gate);
    if !HasCritic(gate) then Some(Snapshot(ok, map[]))
    else
      var critic := gate.critic.value;
      if critic in results && results[critic].status.Completed? then
        match SnapshotFields(loads, results[critic])
        case Some(fields) => Some(Snapshot(ok, Project(fields)))
        case None => None
      else
        Some(Snapshot(ok, Project(map["gaps" := Arr([Str("critic node did not complete")])])))
  }

  /** The verdict rebuilt on resume; None when validation raises. */
  function VerdictFromSnapshot(s: Snapshot): Option<Verdict>
  {
    ParseVerdict(Project(s.critic))
  }

  // ---- _evaluate_gate ----

  function EvaluateGate(results: map<string, NodeOutput>, gate: StageGate, verdict: Option<Verdict>,
                        snapshot: Option<Snapshot>): bool
  {
    var requiredOk :=
      if results != map[] then RequiredOk(results, gate) else snapshot.Some? && snapshot.value.requiredOk;
    requiredOk &&
    (HasCritic(gate) ==>
       if verdict.Some? then verdict.value.verdict == "PASS" && verdict.value.evidence != []
       else snapshot.Some? && GetOr(snapshot.value.critic, "verdict", Null) == Str("PASS")
            && Truthy(GetOr(snapshot.value.critic, "evidence", Null)))
  }

  // ---- Live decision and resumed decision ----

  /** Right after executing. */
  function LiveDecision(loads: Loads, results: map<string, NodeOutput>, gate: StageGate): bool
    requires HasCritic(gate) && CriticText(results, gate.critic.value)
  {
    EvaluateGate(results, gate, Some(ExtractVerdict(loads, results, gate.critic.value)), BuildSnapshot(loads, results, gate))
  }

  /** Resuming from the checkpoint written after executing; None when the source raises. */
  function ResumedDecision(snapshot: Snapshot, gate: StageGate): Option<bool>
  {
    match VerdictFromSnapshot(snapshot)
    case Some(v) => Some(EvaluateGate(map[], gate, Some(v), Some(snapshot)))
    case None => None
  }

  /** What the critic said, as an object: its own parse when there is one, else its text; empty when
      it did not complete or its text is no JSON. */
  function CriticObject(loads: Loads, results: map<string, NodeOutput>, critic: string): map<string, Json>
    requires CriticText(results, critic)
  {
    if critic in results && results[critic].status.Completed? then
      match SnapshotFields(loads, results[critic])
      case Some(fields) => fields
      case None => map[]
    else map[]
  }

  /** The parsed object, when present, is the parse of the text (as ModelNode records it). */
  predicate ParseIsOfText(loads: Loads, results: map<string, NodeOutput>, critic: string)
    requires CriticText(results, critic)
  {
    critic in results && results[critic].status.Completed? ==>
      var parsed := GetOr(results[critic].outputs, "parsed", Null);
      parsed.Obj? ==> loads(Raw(results[critic])) == Some(parsed)
  }

  predicate Passes(fields: map<string, Json>)
  {
    GetOr(fields, "verdict", Null) == Str("PASS") && Truthy(GetOr(fields, "evidence", Null))
  }

  lemma ProjectFits(fields: map<string, Json>)
    ensures Project(fields).Keys == FIELDS
    ensures Project(Project(fields)) == Project(fields)
    ensures "verdict" in fields ==> (FieldsFit(Project(fields)) <==> FieldsFit(fields))
    ensures "verdict" !in fields ==> GetOr(Project(fields), "verdict", Null) == Str("UNCERTAIN")
  {
  }

  predicate Passing(v: Verdict)
  {
    v.verdict == "PASS" && v.evidence != []
  }

  lemma ParsedPasses(fields: map<string, Json>, gap: string)
    ensures var v := ParseVerdict(fields);
            v.Some? ==> (Passing(Downgrade(v.value, gap)) <==> Passes(fields)) && (Passing(v.value) <==> Passes(fields))
  {
  }

  lemma TextPasses(loads: Loads, raw: string)
    ensures Passing(ParseCriticVerdict(loads, raw)) <==>
            match loads(raw)
            case Some(Obj(fields)) => ParseVerdict(fields).Some? && Passes(fields)
            case _ => false
  {
    hide ParseVerdict, Passes, Downgrade, Take200;
    if loads(raw).Some? && loads(raw).value.Obj? {
      ParsedPasses(loads(raw).value.fields, "Critic returned PASS without evidence — downgraded to UNCERTAIN");
    }
  }

  lemma EmptyDoesNotPass()
    ensures ParseVerdict(map[]).None? && !Passes(map[])
  {
  }

  /** The live verdict passes exactly when the critic's object conforms and passes. */
  lemma LivePasses(loads: Loads, results: map<string, NodeOutput>, critic: string)
    requires CriticText(results, critic) && ParseIsOfText(loads, results, critic)
    ensures var fields := CriticObject(loads, results, critic);
            Passing(ExtractVerdict(loads, results, critic)) <==> ParseVerdict(fields).Some? && Passes(fields)
  {
    hide ParseVerdict, Passes, Downgrade, ParseCriticVerdict;
    EmptyDoesNotPass();
    if critic in results && results[critic].status.Completed? {
      TextPasses(loads, Raw(results[critic]));
      var parsed := GetOr(results[critic].outputs, "parsed", Null);
      if parsed.Obj? { ParsedPasses(parsed.fields, "PASS without evidence — downgraded"); }
    }
  }

  lemma SnapshotKeepsProjection(loads: Loads, results: map<string, NodeOutput>, gate: StageGate)
    requires HasCritic(gate) && CriticText(results, gate.critic.value) && BuildSnapshot(loads, results, gate).Some?
    ensures var fields := CriticObject(loads, results, gate.critic.value);
            var s := BuildSnapshot(loads, results, gate).value;
            && s.requiredOk == RequiredOk(results, gate)
            && (VerdictFromSnapshot(s).Some? <==> FieldsFit(Project(fields)))
            && (VerdictFromSnapshot(s).Some? ==> (Passing(VerdictFromSnapshot(s).value) <==> Passes(fields)))
  {
    hide ParseVerdict, SnapshotFields, FieldsFit, Passes;
    var critic := gate.critic.value;
    var fields := CriticObject(loads, results, critic);
    var s := BuildSnapshot(loads, results, gate).value;
    if critic in results && results[critic].status.Completed? {
      ProjectFits(fields);
    } else {
      ProjectFits(map["gaps" := Arr([Str("critic node did not complete")])]);
      DefaultsFit();
    }
    ProjectionVerdict(fields);
    ProjectionVerdict(s.critic);
  }

  lemma DefaultsFit()
    ensures FieldsFit(Project(map[])) && !Passes(map[])
    ensures var gaps := map["gaps" := Arr([Str("critic node did not complete")])];
            FieldsFit(Project(gaps)) && !Passes(gaps) && !Passes(Project(gaps))
  {
  }

  lemma ProjectionVerdict(fields: map<string, Json>)
    ensures ParseVerdict(Project(fields)).Some? <==> FieldsFit(Project(fields))
    ensures Passes(Project(fields)) <==> Passes(fields)
    ensures ParseVerdict(Project(fields)).Some? ==>
              (Passing(ParseVerdict(Project(fields)).value) <==> Passes(fields))
    ensures ParseVerdict(fields).Some? && Passes(fields) <==>
              FieldsFit(Project(fields)) && Passes(fields) && fields.Keys <= FIELDS
  {
    hide FieldsFit;
    ProjectFits(fields);
    ParsedPasses(Project(fields), "");
    ProjectedPasses(fields);
  }

  lemma ProjectedPasses(fields: map<string, Json>)
    ensures Passes(Project(fields)) <==> Passes(fields)
    ensures Passes(fields) ==> "verdict" in fields
  {
  }

  /** The gate decision recomputed from the snapshot equals the live one exactly when the five fields
      the snapshot keeps conform, and no extra field hides a passing verdict from the live parse. */
  lemma ResumedGateAgrees(loads: Loads, results: map<string, NodeOutput>, gate: StageGate)
    requires HasCritic(gate) && CriticText(results, gate.critic.value)
    requires ParseIsOfText(loads, results, gate.critic.value)
    requires BuildSnapshot(loads, results, gate).Some?
    ensures var fields := CriticObject(loads, results, gate.critic.value);
            ResumedDecision(BuildSnapshot(loads, results, gate).value, gate) == Some(LiveDecision(loads, results, gate))
            <==> FieldsFit(Project(fields)) && (RequiredOk(results, gate) && Passes(fields) ==> fields.Keys <= FIELDS)
  {
    hide ParseVerdict, Passes, FieldsFit, Project, ExtractVerdict, CriticObject, BuildSnapshot, VerdictFromSnapshot, RequiredOk;
    var critic := gate.critic.value;
    LivePasses(loads, results, critic);
    SnapshotKeepsProjection(loads, results, gate);
    ProjectionVerdict(CriticObject(loads, results, critic));
  }

  // ---- The gate, in terms of what the nodes returned ----

  /** Every listed node has a completed result. */
  predicate AllCompleted(required: seq<string>, results: map<string, NodeOutput>)
  {
    forall nid :: nid in required ==> nid in results && results[nid].status == Completed
  }

  /** An object with the verdict's fields and no others. */
  predicate Conforms(fields: map<string, Json>)
  {
    fields.Keys <= FIELDS && FieldsFit(fields)
  }

  /** The conforming object a completed critic is taken to mean: its own parse, else its text. */
  function Heard(loads: Loads, out: NodeOutput): Option<map<string, Json>>
    requires ContentIsText(out)
  {
    var text := if "content" in out.outputs then out.outputs["content"].s else "";
    if "parsed" in out.outputs && out.outputs["parsed"].Obj? && Conforms(out.outputs["parsed"].fields) then
      Some(out.outputs["parsed"].fields)
    else if loads(text).Some? && loads(text).value.Obj? && Conforms(loads(text).value.fields) then
      Some(loads(text).value.fields)
    else None
  }

  predicate SaysPass(fields: map<string, Json>)
  {
    "verdict" in fields && fields["verdict"] == Str("PASS") && "evidence" in fields && Truthy(fields["evidence"])
  }

  /** The critic completed and is taken to say PASS, with evidence. */
  predicate CriticPasses(loads: Loads, results: map<string, NodeOutput>, critic: string)
    requires CriticText(results, critic)
  {
    && critic in results && results[critic].status == Completed
    && Heard(loads, results[critic]).Some? && SaysPass(Heard(loads, results[critic]).value)
  }

  lemma HeardVerdict(loads: Loads, results: map<string, NodeOutput>, critic: string)
    requires CriticText(results, critic)
    ensures Passing(ExtractVerdict(loads, results, critic)) <==> CriticPasses(loads, results, critic)
  {
    hide FieldsFit, Downgrade, ParseCriticVerdict;
    if critic in results && results[critic].status.Completed? {
      var out := results[critic];
      TextPasses(loads, Raw(out));
      var parsed := GetOr(out.outputs, "parsed", Null);
      if parsed.Obj? { ParsedPasses(parsed.fields, "PASS without evidence — downgraded"); }
    }
  }

  /** Not PASS, and neither a reason nor a suggestion. */
  predicate Quiet(fields: map<string, Json>)
  {
    && GetOr(fields, "verdict", Null) != Str("PASS")
    && ("gaps" in fields ==> fields["gaps"] == Arr([])) && ("suggestions" in fields ==> fields["suggestions"] == Arr([]))
  }

  /** The critic completed, was understood, did not say PASS, and gave no reason and no suggestion. */
  predicate SaysNothing(loads: Loads, results: map<string, NodeOutput>, critic: string)
    requires CriticText(results, critic)
  {
    && critic in results && results[critic].status == Completed
    && Heard(loads, results[critic]).Some? && Quiet(Heard(loads, results[critic]).value)
  }

  predicate Hints(v: Verdict)
  {
    v.gaps != [] || v.suggestions != []
  }

  lemma ParsedHints(fields: map<string, Json>, gap: string)
    requires Conforms(fields) && !SaysPass(fields)
    ensures ParseVerdict(fields).Some? && (Hints(Downgrade(ParseVerdict(fields).value, gap)) <==> !Quiet(fields))
  {
  }

  lemma TextHints(loads: Loads, raw: string)
    requires !Passing(ParseCriticVerdict(loads, raw))
    ensures !Hints(ParseCriticVerdict(loads, raw)) <==>
            loads(raw).Some? && loads(raw).value.Obj? && Conforms(loads(raw).value.fields) && Quiet(loads(raw).value.fields)
  {
    hide Conforms, Take200, Quiet, SaysPass, Passes;
    TextPasses(loads, raw);
    if loads(raw).Some? && loads(raw).value.Obj? {
      var fields := loads(raw).value.fields;
      ConformsParses(fields);
      if Conforms(fields) { ParsedHints(fields, "Critic returned PASS without evidence — downgraded to UNCERTAIN"); }
    }
  }

  lemma ConformsParses(fields: map<string, Json>)
    ensures ParseVerdict(fields).Some? <==> Conforms(fields)
    ensures Passes(fields) <==> SaysPass(fields)
  {
  }

  /** A verdict that does not pass carries something to work with, unless the critic said nothing. */
  lemma HeardHints(loads: Loads, results: map<string, NodeOutput>, critic: string)
    requires CriticText(results, critic) && !CriticPasses(loads, results, critic)
    ensures !Hints(ExtractVerdict(loads, results, critic)) <==> SaysNothing(loads, results, critic)
  {
    hide Conforms, Quiet, SaysPass, Downgrade, ParseVerdict, ParseCriticVerdict, Passing, Take200;
    HeardVerdict(loads, results, critic);
    if critic in results && results[critic].status.Completed? {
      var out := results[critic];
      var parsed := GetOr(out.outputs, "parsed", Null);
      if parsed.Obj? {
        ConformsParses(parsed.fields);
        if Conforms(parsed.fields) { ParsedHints(parsed.fields, "PASS without evidence — downgraded"); }
      }
      if !Passing(ParseCriticVerdict(loads, Raw(out))) { TextHints(loads, Raw(out)); }
    }
  }

  /** The live gate, exactly: every required node completed, and the critic, if there is one, passes with evidence. */
  lemma LiveGateExactly(loads: Loads, results: map<string, NodeOutput>, gate: StageGate)
    requires HasCritic(gate) ==> CriticText(results, gate.critic.value)
    ensures HasCritic(gate) ==>
              (LiveDecision(loads, results, gate) <==>
               AllCompleted(gate.required, results) && CriticPasses(loads, results, gate.critic.value))
    ensures !HasCritic(gate) ==>
              (EvaluateGate(results, gate, None, BuildSnapshot(loads, results, gate)) <==> AllCompleted(gate.required, results))
  {
    hide ExtractVerdict, CriticPasses, SnapshotFields, Project;
    if HasCritic(gate) {
      HeardVerdict(loads, results, gate.critic.value);
      SnapshotRequired(loads, results, gate);
    }
  }

  lemma SnapshotRequired(loads: Loads, results: map<string, NodeOutput>, gate: StageGate)
    requires HasCritic(gate) ==> CriticText(results, gate.critic.value)
    ensures BuildSnapshot(loads, results, gate).Some? ==>
              (BuildSnapshot(loads, results, gate).value.requiredOk <==> AllCompleted(gate.required, results))
  {
    hide SnapshotFields, Project;
  }

  /** What the snapshot keeps of a critic: its parse or its text, whichever is an object, conforming or not. */
  function Kept(loads: Loads, results: map<string, NodeOutput>, critic: string): map<string, Json>
    requires CriticText(results, critic)
  {
    if critic !in results || results[critic].status != Completed then map[]
    else
      var out := results[critic];
      var text := if "content" in out.outputs then out.outputs["content"].s else "";
      if "parsed" in out.outputs && out.outputs["parsed"].Obj? then out.outputs["parsed"].fields
      else if loads(text).Some? && loads(text).value.Obj? then loads(text).value.fields
      else map[]
  }

  /** The five kept fields, where present, have the verdict's types. */
  predicate KeptFits(fields: map<string, Json>)
  {
    && ("verdict" in fields ==> fields["verdict"] in {Str("PASS"), Str("FAIL"), Str("UNCERTAIN")})
    && ("confidence" in fields ==> fields["confidence"].Num?)
    && ("evidence" in fields ==> IsListOf(fields["evidence"], IS_TEXT))
    && ("gaps" in fields ==> IsListOf(fields["gaps"], IS_TEXT))
    && ("suggestions" in fields ==> IsListOf(fields["suggestions"], IS_OBJECT))
  }

  lemma KeptIsObject(loads: Loads, results: map<string, NodeOutput>, critic: string)
    requires CriticText(results, critic)
    ensures Kept(loads, results, critic) == CriticObject(loads, results, critic)
    ensures FieldsFit(Project(Kept(loads, results, critic))) <==> KeptFits(Kept(loads, results, critic))
    ensures Passes(Kept(loads, results, critic)) <==> SaysPass(Kept(loads, results, critic))
  {
  }

  /** The gate on resume, exactly: it raises when the kept fields do not have the verdict's types, and otherwise passes
      when every required node had completed and the kept fields say PASS with evidence. */
  lemma ResumedGateExactly(loads: Loads, results: map<string, NodeOutput>, gate: StageGate)
    requires HasCritic(gate) ==> CriticText(results, gate.critic.value)
    requires BuildSnapshot(loads, results, gate).Some?
    ensures HasCritic(gate) ==>
              var fields := Kept(loads, results, gate.critic.value);
              ResumedDecision(BuildSnapshot(loads, results, gate).value, gate) ==
              if KeptFits(fields) then Some(AllCompleted(gate.required, results) && SaysPass(fields)) else None
    ensures !HasCritic(gate) ==>
              (EvaluateGate(map[], gate, None, BuildSnapshot(loads, results, gate)) <==> AllCompleted(gate.required, results))
  {
    hide VerdictFromSnapshot, SnapshotFields, Project, KeptFits, SaysPass, Kept, CriticObject, Passes, FieldsFit;
    SnapshotRequired(loads, results, gate);
    if HasCritic(gate) {
      KeptIsObject(loads, results, gate.critic.value);
      SnapshotKeepsProjection(loads, results, gate);
    }
  }

  /** A passing verdict with one field more than the five. */
  function NotedVerdict(note: Json): map<string, Json>
  {
    map["verdict" := Str("PASS"), "evidence" := Arr([Str("exit code 0")]), "note" := note]
  }

  function CriticAnswered(raw: string, note: Json): map<string, NodeOutput>
  {
    map["critic" := NodeOutput(map["content" := Str(raw), "parsed" := Obj(NotedVerdict(note))], map[], Completed, None, None)]
  }

  /** A concrete disagreement, for any parser and any text it reads as that verdict: the extra field makes
      the live parse fail, and the snapshot drops it. */
  lemma ExtraFieldFlipsResumedGate(loads: Loads, raw: string, note: Json)
    requires loads(raw) == Some(Obj(NotedVerdict(note)))
    ensures var results, gate := CriticAnswered(raw, note), StageGate([], Some("critic"));
            && HasCritic(gate) && CriticText(results, "critic") && ParseIsOfText(loads, results, "critic")
            && BuildSnapshot(loads, results, gate).Some?
            && !LiveDecision(loads, results, gate)
            && ResumedDecision(BuildSnapshot(loads, results, gate).value, gate) == Some(true)
  {
    hide ParseVerdict, FieldsFit, Project, ExtractVerdict, VerdictFromSnapshot;
    var fields, results, gate := NotedVerdict(note), CriticAnswered(raw, note), StageGate([], Some("critic"));
    assert CriticObject(loads, results, "critic") == fields;
    assert Passes(fields) && "note" in fields.Keys && "note" !in FIELDS;
    OnlyVerdictAndEvidenceFit(fields);
    LivePasses(loads, results, "critic");
    SnapshotKeepsProjection(loads, results, gate);
    ProjectionVerdict(fields);
  }

  lemma OnlyVerdictAndEvidenceFit(fields: map<string, Json>)
    requires GetOr(fields, "verdict", Null) == Str("PASS") && GetOr(fields, "evidence", Null) == Arr([Str("exit code 0")])
    requires forall k :: k in {"confidence", "gaps", "suggestions"} ==> k !in fields
    ensures FieldsFit(Project(fields))
  {
  }
}
