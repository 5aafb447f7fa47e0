/** Answering a clarification: missing slots, patched, are filled for good
    (planning/missing_slots.py, planning/state_patch.py, schemas/tool_schema_registry.py together). */
module Clarification {
  import opened JsonValues
  import opened MissingSlots
  import opened Patch
  import opened PatchTheory
  import opened Pointer
  import opened Schema
  import opened Wrappers

  // ---- Ancestors of pointers are prefixes of token lists ----

  lemma JoinEscaped(tokens: seq<string>)
    ensures Join([""] + EscapeAll(tokens)) == Encode(tokens)
  {
    hide Join, Encode, Escape;
    SplitEncode(tokens);
    JoinSplit(Encode(tokens));
  }

  lemma AncestorIffPrefix(a: seq<string>, p: seq<string>)
    requires a != [] && p != []
    ensures IsAncestor(Encode(a), Encode(p)) <==> a <= p && a != p
  {
    hide Join, Encode, Split, Escape;
    var parts := Split(Encode(p));
    SplitEncode(p);
    assert parts == [""] + EscapeAll(p);
    forall idx: nat | 2 <= idx < |parts|
      ensures Join(parts[..idx]) == Encode(p[..idx - 1])
    {
      assert parts[..idx] == [""] + EscapeAll(p[..idx - 1]);
      JoinEscaped(p[..idx - 1]);
    }
    if IsAncestor(Encode(a), Encode(p)) {
      var idx: nat :| IsAncestorAt(Encode(a), Encode(p), idx);
      EncodeInjective(a, p[..idx - 1]);
    }
    if a <= p && a != p {
      assert a == p[..|a|];
      assert IsAncestorAt(Encode(a), Encode(p), |a| + 1);
    }
  }

  // ---- Filling an empty place only grows a document ----

  /** Every readable place stays readable; non-null stays non-null, objects stay objects, lists keep their length. */
  ghost predicate Grows(j: Json, k: Json)
  {
    forall u :: GrowsAt(j, k, u)
  }

  ghost predicate GrowsAt(j: Json, k: Json, u: seq<string>)
  {
    Get(j, u).Some? ==> Get(k, u).Some? && StaysLike(Get(j, u).value, Get(k, u).value)
  }

  predicate StaysLike(x: Json, y: Json)
  {
    && (x != Null ==> y != Null)
    && (x.Obj? ==> y.Obj?)
    && (x.Arr? ==> y.Arr? && |y.items| == |x.items|)
  }

  predicate Filled(j: Json, tokens: seq<string>)
  {
    Get(j, tokens).Some? && Get(j, tokens).value != Null
  }

  ghost predicate HasObjectParent(j: Json, tokens: seq<string>)
  {
    tokens != [] && ParentExists(j, tokens) && Parent(j, tokens).Obj?
  }

  /** The parent is an object, and the member is absent or null. */
  ghost predicate IsEmptyPlace(j: Json, tokens: seq<string>)
  {
    HasObjectParent(j, tokens) && !Filled(j, tokens)
  }

  lemma GetOne(j: Json, tokens: seq<string>)
    requires |tokens| == 1
    ensures Get(j, tokens) == if Child(j, tokens[0]).Ok? then Some(Child(j, tokens[0]).value) else None
  {
    assert tokens[1..] == [];
  }

  lemma ObjectParentBelow(j: Json, tokens: seq<string>)
    requires HasObjectParent(j, tokens)
    ensures tokens != []
    ensures |tokens| == 1 ==> j.Obj? && (Filled(j, tokens) <==> tokens[0] in j.fields && j.fields[tokens[0]] != Null)
    ensures |tokens| > 1 ==> Child(j, tokens[0]).Ok? && HasObjectParent(Child(j, tokens[0]).value, tokens[1..])
                             && Child(j, tokens[0]).value != Null
                             && (Filled(j, tokens) <==> Filled(Child(j, tokens[0]).value, tokens[1..]))
  {
    if |tokens| == 1 {
      assert ParentOf(tokens) == [];
      GetOne(j, tokens);
    } else {
      ParentBelow(j, tokens);
      var child := Child(j, tokens[0]).value;
      if child == Null {
        NothingBelowNull(ParentOf(tokens[1..]));
      }
    }
  }

  lemma NothingBelowNull(tokens: seq<string>)
    ensures tokens != [] ==> Get(Null, tokens) == None
  {
  }

  lemma GrowsBelow(j: Json, k: Json, token: string)
    requires Grows(j, k) && Child(j, token).Ok?
    ensures Child(k, token).Ok? && Grows(Child(j, token).value, Child(k, token).value)
  {
    hide Child, StaysLike;
    assert GrowsAt(j, k, [token]);
    assert [token][1..] == [];
    assert Get(j, [token]) == Some(Child(j, token).value);
    assert Get(k, [token]).Some?;
    forall u: seq<string>
      ensures GrowsAt(Child(j, token).value, Child(k, token).value, u)
    {
      assert GrowsAt(j, k, [token] + u);
      assert ([token] + u)[1..] == u;
    }
  }

  lemma GrowsSelf(j: Json)
    ensures Grows(j, j)
  {
    assert forall u: seq<string> :: GrowsAt(j, j, u);
  }

  lemma RootStaysLike(j: Json, k: Json)
    requires Grows(j, k)
    ensures StaysLike(j, k)
  {
    assert GrowsAt(j, k, []);
  }

  /** Two tokens that name the same member of a container. */
  predicate SameMember(j: Json, token: string, other: string)
    requires Child(j, token).Ok?
  {
    Child(j, other).Ok? && StepOf(j, token) == StepOf(j, other)
  }

  lemma ExchangedMember(j: Json, k: Json, token: string, other: string, child: Json)
    requires Child(j, token).Ok? && Child(k, token).Ok? && StaysLike(j, k)
    ensures StaysLike(j, WithChild(k, token, child))
    ensures if SameMember(j, token, other)
            then Child(j, other) == Child(j, token) && Child(k, other) == Child(k, token)
                 && Child(WithChild(k, token, child), other) == Ok(child)
            else Child(WithChild(k, token, child), other) == Child(k, other)
  {
  }

  /** If k has grown from j, adding a value at a place empty in j still is growth from j. */
  lemma {:induction false} AddGrows(j: Json, k: Json, tokens: seq<string>, op: PatchOp)
    requires op.Add? && op.value != Null && IsEmptyPlace(j, tokens) && Grows(j, k)
    ensures tokens != [] && ApplyAt(op, k, tokens).Ok? && Grows(j, ApplyAt(op, k, tokens).value)
    decreases |tokens|
  {
    hide HasObjectParent, Filled, Child, WithChild, Grows, StaysLike;
    ObjectParentBelow(j, tokens);
    if |tokens| == 1 {
      AddMemberGrows(j, k, tokens[0], op.value);
    } else {
      var token := tokens[0];
      GrowsBelow(j, k, token);
      var below := Child(j, token).value;
      AddGrows(below, Child(k, token).value, tokens[1..], op);
      ExchangeGrows(j, k, token, ApplyAt(op, Child(k, token).value, tokens[1..]).value);
    }
  }

  lemma AddMemberGrows(j: Json, k: Json, key: string, value: Json)
    requires j.Obj? && (key !in j.fields || j.fields[key] == Null) && value != Null && Grows(j, k)
    ensures k.Obj? && Grows(j, Obj(k.fields[key := value]))
  {
    RootStaysLike(j, k);
    var after := Obj(k.fields[key := value]);
    forall u: seq<string>
      ensures GrowsAt(j, after, u)
    {
      assert GrowsAt(j, k, u);
      if |u| == 1 {
        GetOne(j, u);
        GetOne(after, u);
      } else if u != [] && u[0] == key {
        NothingBelowNull(u[1..]);
      }
    }
  }

  lemma ExchangeGrows(j: Json, k: Json, token: string, child: Json)
    requires Grows(j, k) && Child(j, token).Ok? && Child(k, token).Ok? && Grows(Child(j, token).value, child)
    ensures Grows(j, WithChild(k, token, child))
  {
    hide Child, WithChild, StaysLike, SameMember;
    RootStaysLike(j, k);
    forall u: seq<string>
      ensures GrowsAt(j, WithChild(k, token, child), u)
    {
      if u == [] {
        ExchangedMember(j, k, token, token, child);
      } else {
        ExchangedMember(j, k, token, u[0], child);
        assert GrowsAt(Child(j, token).value, child, u[1..]);
        assert GrowsAt(j, k, u);
      }
    }
  }

  /** Filling one empty place leaves the places already filled filled. */
  lemma {:induction false} AddKeepsFilled(j: Json, k: Json, tokens: seq<string>, op: PatchOp, u: seq<string>)
    requires op.Add? && op.value != Null && IsEmptyPlace(j, tokens) && Grows(j, k)
    requires HasObjectParent(j, u) && Filled(k, u)
    ensures tokens != [] && ApplyAt(op, k, tokens).Ok? && Filled(ApplyAt(op, k, tokens).value, u)
    decreases |tokens|
  {
    hide HasObjectParent, Grows, WithChild, Child, StaysLike, SameMember;
    AddGrows(j, k, tokens, op);
    ObjectParentBelow(j, tokens);
    ObjectParentBelow(j, u);
    RootStaysLike(j, k);
    if |tokens| == 1 {
      FilledBesideMember(j, k, tokens[0], op.value, u);
    } else {
      var token := tokens[0];
      GrowsBelow(j, k, token);
      var below := Child(j, token).value;
      AddGrows(below, Child(k, token).value, tokens[1..], op);
      var after := ApplyAt(op, Child(k, token).value, tokens[1..]).value;
      ExchangedMember(j, k, token, u[0], after);
      if SameMember(j, token, u[0]) {
        RootStaysLike(below, after);
        if |u| == 1 {
          NonNullStays(below, after);
          GetOne(WithChild(k, token, after), u);
        } else {
          AddKeepsFilled(below, Child(k, token).value, tokens[1..], op, u[1..]);
        }
      }
    }
  }

  lemma NonNullStays(x: Json, y: Json)
    requires StaysLike(x, y) && x != Null
    ensures y != Null
  {
  }

  lemma FilledBesideMember(j: Json, k: Json, key: string, value: Json, u: seq<string>)
    requires value != Null && j.Obj? && k.Obj? && (key !in j.fields || j.fields[key] == Null)
    requires HasObjectParent(j, u) && Filled(k, u)
    ensures Filled(Obj(k.fields[key := value]), u)
  {
    ObjectParentBelow(j, u);
    if u[0] == key {
      GetOne(Obj(k.fields[key := value]), u);
    }
  }

  lemma AddFills(j: Json, k: Json, tokens: seq<string>, op: PatchOp)
    requires op.Add? && op.value != Null && IsEmptyPlace(j, tokens) && Grows(j, k)
    ensures tokens != [] && ApplyAt(op, k, tokens).Ok? && Filled(ApplyAt(op, k, tokens).value, tokens)
  {
    hide ApplyAt, Grows, Get;
    AddGrows(j, k, tokens, op);
    ParentStaysObject(j, k, tokens);
    ReadAfterWrite(op, k, tokens);
  }

  lemma ParentStaysObject(j: Json, k: Json, tokens: seq<string>)
    requires HasObjectParent(j, tokens) && Grows(j, k)
    ensures ParentExists(k, tokens) && Parent(k, tokens).Obj?
  {
    assert GrowsAt(j, k, ParentOf(tokens));
  }

  // ---- A whole answer ----

  /** An `add` with a non-null value, at a place that is empty in the document. */
  ghost predicate Fills(op: PatchOp, j: Json)
  {
    op.Add? && ValidOp(op) && IsEmptyPlace(j, TokensOf(op))
  }

  /** A patch of such operations never fails, and only makes the document grow. */
  lemma {:induction false} FillingGrows(j: Json, k: Json, ops: seq<PatchOp>, index: nat)
    requires (forall i :: 0 <= i < |ops| ==> Fills(ops[i], j)) && Grows(j, k)
    ensures ApplyOps(ops, index, k).Ok? && Grows(j, ApplyOps(ops, index, k).value)
    decreases |ops|
  {
    hide ApplyAt, IsEmptyPlace, Grows, TokensOf;
    if ops != [] {
      assert Fills(ops[0], j);
      AddGrows(j, k, TokensOf(ops[0]), ops[0]);
      FillingGrows(j, ApplyOp(ops[0], index, k).value, ops[1..], index + 1);
    }
  }

  /** The places it names are filled afterwards, and so are those that were before. */
  lemma {:induction false} FillingFills(j: Json, k: Json, ops: seq<PatchOp>, index: nat, u: seq<string>)
    requires (forall i :: 0 <= i < |ops| ==> Fills(ops[i], j)) && Grows(j, k)
    requires HasObjectParent(j, u)
    requires Filled(k, u) || exists i :: 0 <= i < |ops| && ValidOp(ops[i]) && TokensOf(ops[i]) == u
    ensures ApplyOps(ops, index, k).Ok? && Filled(ApplyOps(ops, index, k).value, u)
    decreases |ops|
  {
    hide ApplyAt, HasObjectParent, Filled, Grows, TokensOf;
    FillingGrows(j, k, ops, index);
    if ops != [] {
      assert Fills(ops[0], j);
      var tokens := TokensOf(ops[0]);
      var after := ApplyOp(ops[0], index, k).value;
      AddGrows(j, k, tokens, ops[0]);
      if tokens == u {
        AddFills(j, k, tokens, ops[0]);
      } else if Filled(k, u) {
        AddKeepsFilled(j, k, tokens, ops[0], u);
      } else {
        var i :| 0 <= i < |ops| && ValidOp(ops[i]) && TokensOf(ops[i]) == u;
        assert ops[1..][i - 1] == ops[i];
      }
      FillingFills(j, after, ops[1..], index + 1, u);
    }
  }

  // ---- Progress ----

  /** The answer to a list of missing paths: one `add` per path. */
  function Answer(paths: seq<string>, values: map<string, Json>): (ops: seq<PatchOp>)
    requires forall p :: p in paths ==> p in values
    ensures |ops| == |paths| && forall i :: 0 <= i < |paths| ==> ops[i] == Add(paths[i], values[paths[i]])
  {
    seq(|paths|, i requires 0 <= i < |paths| => Add(paths[i], values[paths[i]]))
  }

  /** The slots of a state, each with an object as its parent, and a non-null answer for each. */
  ghost predicate Answers(state: Json, schema: Json, paths: seq<string>, values: map<string, Json>)
  {
    && (forall p :: p in paths <==> IsSlot(state, schema, "", p))
    && (forall p :: p in paths ==> HasObjectParent(state, Decode(p).value))
    && (forall p :: p in paths ==> p in values && values[p] != Null)
  }

  lemma SlotIsEmpty(state: Json, schema: Json, p: string)
    requires IsSlot(state, schema, "", p)
    ensures Decode(p).Ok? && p != "" && p[0] == '/' && !Filled(state, Decode(p).value)
  {
    hide Decode, Encode, Get, IsAncestor;
    var tokens :| IsRequired(schema, tokens) && p == "" + Encode(tokens);
    EncodeStartsWithSlash(tokens);
  }

  lemma AnswerFills(state: Json, schema: Json, paths: seq<string>, values: map<string, Json>, i: nat)
    requires Answers(state, schema, paths, values) && i < |paths|
    ensures Fills(Answer(paths, values)[i], state) && TokensOf(Answer(paths, values)[i]) == Decode(paths[i]).value
    ensures HasObjectParent(state, Decode(paths[i]).value)
  {
    hide IsSlot, HasObjectParent, Filled, Decode;
    assert paths[i] in paths;
    SlotIsEmpty(state, schema, paths[i]);
  }

  lemma MissingBefore(state: Json, after: Json, schema: Json, q: string)
    requires Grows(state, after) && MissingRequired(after, schema, "", q)
    ensures MissingRequired(state, schema, "", q)
  {
    hide Get, IsRequiredPath, Decode, AllowsNull, FragmentAt;
    assert GrowsAt(state, after, Decode(q).value);
  }

  /** Answering every slot with an `add` of a non-null value never fails; none of the slots is missing
      afterwards, nothing that was not missing is, and every slot left lies strictly below an answered one. */
  lemma ClarificationProgress(state: Json, schema: Json, paths: seq<string>, values: map<string, Json>)
    requires Answers(state, schema, paths, values)
    ensures ApplyPatch(state, Answer(paths, values)).Ok?
    ensures var after := ApplyPatch(state, Answer(paths, values)).value;
            && (forall p :: p in paths ==> !IsMissing(after, schema, p))
            && (forall q :: MissingRequired(after, schema, "", q) ==> MissingRequired(state, schema, "", q))
            && (forall q :: IsSlot(after, schema, "", q) ==> exists p :: p in paths && IsAncestor(p, q))
  {
    hide *;
    FillsAll(state, schema, paths, values);
    var ops := Answer(paths, values);
    var after := ApplyPatch(state, ops).value;
    forall q | MissingRequired(after, schema, "", q)
      ensures MissingRequired(state, schema, "", q)
    {
      MissingBefore(state, after, schema, q);
    }
    forall q | IsSlot(after, schema, "", q)
      ensures exists p :: p in paths && IsAncestor(p, q)
    {
      SlotIsMissing(after, schema, q);
      MissingBefore(state, after, schema, q);
      var p := SlotAbove(state, schema, "", q);
      SlotAnswered(state, schema, paths, values, p);
    }
  }

  lemma SlotIsMissing(state: Json, schema: Json, q: string)
    requires IsSlot(state, schema, "", q)
    ensures MissingRequired(state, schema, "", q) && IsMissing(state, schema, q)
  {
  }

  lemma SlotAnswered(state: Json, schema: Json, paths: seq<string>, values: map<string, Json>, p: string)
    requires Answers(state, schema, paths, values) && IsSlot(state, schema, "", p)
    ensures p in paths
  {
  }

  lemma FillsAll(state: Json, schema: Json, paths: seq<string>, values: map<string, Json>)
    requires Answers(state, schema, paths, values)
    ensures forall p :: p in paths ==> p in values
    ensures ApplyPatch(state, Answer(paths, values)).Ok?
    ensures Grows(state, ApplyPatch(state, Answer(paths, values)).value)
    ensures forall p :: p in paths ==> !IsMissing(ApplyPatch(state, Answer(paths, values)).value, schema, p)
  {
    hide Grows, Fills, HasObjectParent, IsSlot, ApplyOps, Decode, Get, FragmentAt, AllowsNull;
    var ops := Answer(paths, values);
    forall i | 0 <= i < |ops|
      ensures Fills(ops[i], state)
    {
      AnswerFills(state, schema, paths, values, i);
    }
    GrowsSelf(state);
    FillingGrows(state, state, ops, 0);
    forall p | p in paths
      ensures !IsMissing(ApplyPatch(state, ops).value, schema, p)
    {
      var i :| 0 <= i < |paths| && paths[i] == p;
      SlotIsEmpty(state, schema, p);
      AnswerFills(state, schema, paths, values, i);
      assert Fills(ops[i], state);
      FillingFills(state, state, ops, 0, Decode(p).value);
    }
  }

  // ---- Answering round after round ----

  ghost predicate Answered(state: Json, schema: Json, after: Json)
  {
    exists paths, values :: Answers(state, schema, paths, values) && ApplyPatch(state, Answer(paths, values)) == Ok(after)
  }

  /** Each state answers the slots of the one before. */
  ghost predicate Rounds(states: seq<Json>, schema: Json)
  {
    states != [] && forall i :: 0 <= i < |states| - 1 ==> Answered(states[i], schema, states[i + 1])
  }

  lemma RequiredTokens(state: Json, schema: Json, q: string) returns (tokens: seq<string>)
    requires IsSlot(state, schema, "", q)
    ensures IsRequired(schema, tokens) && tokens != [] && q == Encode(tokens)
  {
    tokens :| IsRequired(schema, tokens) && q == "" + Encode(tokens);
  }

  lemma SlotsDeepenOnce(state: Json, after: Json, schema: Json, q: seq<string>) returns (p: seq<string>)
    requires Answered(state, schema, after) && q != [] && IsSlot(after, schema, "", Encode(q))
    ensures p != [] && IsSlot(state, schema, "", Encode(p)) && |p| < |q|
  {
    hide IsSlot, IsAncestor, Encode, ApplyPatch, IsMissing, MissingRequired;
    var paths, values :| Answers(state, schema, paths, values) && ApplyPatch(state, Answer(paths, values)) == Ok(after);
    ClarificationProgress(state, schema, paths, values);
    var path :| path in paths && IsAncestor(path, Encode(q));
    p := RequiredTokens(state, schema, path);
    AncestorIffPrefix(p, q);
  }

  /** After n rounds, a missing path still reported has more than n tokens. */
  lemma {:induction false} SlotsDeepen(states: seq<Json>, schema: Json, n: nat, q: seq<string>)
    requires Rounds(states, schema) && n < |states| && q != [] && IsSlot(states[n], schema, "", Encode(q))
    ensures |q| > n
  {
    hide IsSlot, Encode, Answered;
    if n > 0 {
      assert Answered(states[n - 1], schema, states[n - 1 + 1]);
      var p := SlotsDeepenOnce(states[n - 1], states[n], schema, q);
      SlotsDeepen(states, schema, n - 1, p);
    }
  }

  /** Clarification ends: with as many rounds as the deepest required path has tokens, nothing is missing. */
  lemma ClarificationEnds(states: seq<Json>, schema: Json, q: string)
    requires Rounds(states, schema)
    requires forall tokens :: IsRequired(schema, tokens) ==> |tokens| < |states|
    ensures !MissingRequired(states[|states| - 1], schema, "", q)
  {
    hide IsSlot, Encode, Answered, MissingRequired, IsAncestor;
    var n := |states| - 1;
    if MissingRequired(states[n], schema, "", q) {
      var slot := SlotAbove(states[n], schema, "", q);
      var tokens := RequiredTokens(states[n], schema, slot);
      SlotsDeepen(states, schema, n, tokens);
    }
  }

  // ---- Why the parents have to be objects ----

  lemma AddThenRead(j: Json, tokens: seq<string>, op: PatchOp)
    requires tokens != [] && op.Add?
    ensures ApplyAt(op, j, tokens).Ok? && Get(ApplyAt(op, j, tokens).value, tokens).Some? <==>
            ParentExists(j, tokens) &&
            var parent, key := Parent(j, tokens), LastOf(tokens);
            parent.Obj? || (parent.Arr? && IsDigits(key) && ToNat(key) <= |parent.items|)
    ensures ApplyAt(op, j, tokens).Ok? && Get(ApplyAt(op, j, tokens).value, tokens).Some? ==>
            Get(ApplyAt(op, j, tokens).value, tokens) == Some(op.value)
  {
    hide ApplyAt, Get, ToNat;
    SucceedsExactly(op, j, tokens);
    assert "-"[0] == '-' && !IsDigits("-");
    if ApplyAt(op, j, tokens).Ok? {
      if Appends(op, j, tokens) {
        AppendedIsNotRead(op, j, tokens);
      } else {
        ReadAfterWrite(op, j, tokens);
      }
    }
  }

  /** Answering one slot, under whatever parent: its `add` succeeds and leaves the slot filled exactly under an object,
      or under a list at a numeric position up to its length. */
  lemma AnswerFillsExactly(state: Json, schema: Json, p: string, value: Json)
    requires IsSlot(state, schema, "", p) && value != Null
    ensures Decode(p).Ok? && Decode(p).value != []
    ensures var patched, tokens := ApplyPatch(state, [Add(p, value)]), Decode(p).value;
            patched.Ok? && !IsMissing(patched.value, schema, p) <==>
            ParentExists(state, tokens) &&
            var parent, key := Parent(state, tokens), LastOf(tokens);
            parent.Obj? || (parent.Arr? && IsDigits(key) && ToNat(key) <= |parent.items|)
  {
    hide IsSlot, Decode, ApplyAt, Get, ToNat, IsDigits, ParentExists, FragmentAt, AllowsNull;
    SlotIsEmpty(state, schema, p);
    var op, tokens := Add(p, value), Decode(p).value;
    assert ValidOp(op) && TokensOf(op) == tokens;
    AddThenRead(state, tokens, op);
    OneOperation(state, op);
  }

  lemma OneOperation(state: Json, op: PatchOp)
    requires ValidOp(op)
    ensures ApplyPatch(state, [op]) == ApplyAt(op, state, TokensOf(op))
  {
    hide ApplyAt, TokensOf;
    var ops := [op];
    assert ops[0] == op && ops[1..] == [];
    var patched := ApplyOp(op, 0, state);
    if patched.Ok? { assert ApplyOps(ops[1..], 1, patched.value) == patched; }
  }

  function Requiring(name: string, property: Json, kinds: seq<Json>): Json
  {
    Obj(map["type" := Arr(kinds), "required" := Arr([Str(name)]), "properties" := Obj(map[name := property])])
  }

  /** A member that may be null, and whose own member is required. */
  function NullableSchema(): Json
  {
    Requiring("a", Requiring("b", Obj(map[]), [Str("object"), Str("null")]), [])
  }

  lemma RequiringName(name: string, property: Json, kinds: seq<Json>)
    requires property.Obj?
    ensures forall token :: RequiresName(Requiring(name, property, kinds), token) <==> token == name
    ensures PropertySchema(Requiring(name, property, kinds), name) == Some(property)
  {
  }

  /** A slot under a null that the schema allows: adding its value fails. */
  lemma NullParentRefusesAnswer(value: Json)
    requires value != Null
    ensures IsSlot(Obj(map["a" := Null]), NullableSchema(), "", Encode(["a", "b"]))
    ensures ApplyPatch(Obj(map["a" := Null]), [Add(Encode(["a", "b"]), value)]) == Err(NotAContainer)
  {
    hide Encode, Decode, IsAncestor, Requiring;
    var state, schema, tokens := Obj(map["a" := Null]), NullableSchema(), ["a", "b"];
    var inner := Requiring("b", Obj(map[]), [Str("object"), Str("null")]);
    var path := Encode(tokens);
    NullableLevels();
    assert tokens[1..] == ["b"];
    NothingBelowNull(["b"]);
    DecodeEncode(tokens);
    EncodeStartsWithSlash(tokens);
    assert IsRequired(inner, ["b"]);
    assert IsRequired(schema, tokens) && path == "" + Encode(tokens);
    assert MissingReason(state, schema, tokens) == Some(Absent);
    forall a | IsRequiredPath(schema, "", a) && IsAncestor(a, path)
      ensures !IsMissing(state, schema, a)
    {
      var above :| IsRequired(schema, above) && a == "" + Encode(above);
      assert a == Encode(above);
      DecodeEncode(above);
      AncestorIffPrefix(above, tokens);
      assert above == ["a"];
      GetOne(state, above);
      assert FragmentAt(schema, above) == FragmentAt(inner, []) by { assert above[1..] == []; }
    }
    assert ApplyAt(Add(path, value), state, tokens) == Err(NotAContainer);
    assert [Add(path, value)][0] == Add(path, value);
  }

  lemma NullableLevels()
    ensures var inner := Requiring("b", Obj(map[]), [Str("object"), Str("null")]);
            && PropertySchema(NullableSchema(), "a") == Some(inner)
            && (forall token :: RequiresName(NullableSchema(), token) <==> token == "a")
            && (forall token :: RequiresName(inner, token) <==> token == "b")
            && inner.Obj? && AllowsNull(inner.fields)
  {
    RequiringName("a", Requiring("b", Obj(map[]), [Str("object"), Str("null")]), []);
    RequiringName("b", Obj(map[]), [Str("object"), Str("null")]);
    assert Str("null") in [Str("object"), Str("null")];
  }
}
