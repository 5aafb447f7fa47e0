/** Missing required slots (planning/missing_slots.py). */
module MissingSlots {
  import opened JsonValues
  import opened Order
  import opened Patch
  import opened Pointer
  import opened Schema
  import opened Wrappers

  datatype Reason = Absent | IsNull

  datatype MissingSlot = MissingSlot(path: string, expected: map<string, Json>, reason: Reason)

  // ---- Reading the state, and the schema, at a pointer ----

  /** `_state_value_at_pointer`. */
  method StateValueAt(state: Json, pointer: string) returns (r: Result<Option<Json>, PointerError>)
    ensures r.Ok? ==> Decode(pointer).Ok? && r.value == Get(state, Decode(pointer).value)
    ensures r.Err? ==> Decode(pointer) == Err(r.error)
  {
    hide Child, Decode;
    var decoded := Decode(pointer);
    if decoded.Err? { return Err(decoded.error); }
    var tokens := decoded.value;
    var current := state;
    assert tokens[0..] == tokens;
    for i := 0 to |tokens|
      invariant Get(current, tokens[i..]) == Get(state, tokens)
    {
      assert tokens[i..][1..] == tokens[i + 1..];
      var child := Child(current, tokens[i]);
      if child.Err? { return Ok(None); }
      current := child.value;
    }
    return Ok(Some(current));
  }

  /** `schema_fragment_at_pointer`, on decoded tokens. */
  method FragmentAtTokens(schema: Json, tokens: seq<string>) returns (fragment: map<string, Json>)
    ensures fragment == FragmentAt(schema, tokens)
  {
    hide PropertySchema;
    var current := schema;
    assert tokens[0..] == tokens;
    for i := 0 to |tokens|
      invariant FragmentAt(current, tokens[i..]) == FragmentAt(schema, tokens)
    {
      assert tokens[i..][1..] == tokens[i + 1..];
      var child := PropertySchema(current, tokens[i]);
      if child.None? { return map[]; }
      current := child.value;
    }
    return if current.Obj? then current.fields else map[];
  }

  // ---- What is missing ----

  /** Absent, or null where the schema does not allow null. */
  function MissingReason(state: Json, schema: Json, tokens: seq<string>): Option<Reason>
  {
    match Get(state, tokens)
    case None => Some(Absent)
    case Some(v) => if v == Null && !AllowsNull(FragmentAt(schema, tokens)) then Some(IsNull) else None
  }

  predicate IsMissing(state: Json, schema: Json, path: string)
  {
    Decode(path).Ok? && MissingReason(state, schema, Decode(path).value).Some?
  }

  predicate IsNullType(schema: Json)
  {
    schema.Obj? && "type" in schema.fields && schema.fields["type"] == Str("null")
  }

  /** Null is among the types listed; or, without a list of types, it is the type, or that of a branch of the union. */
  predicate Nullable(f: map<string, Json>)
  {
    if "type" in f && f["type"].Arr? then exists i :: 0 <= i < |f["type"].items| && f["type"].items[i] == Str("null")
    else
      || IsNullType(Obj(f))
      || ("anyOf" in f && f["anyOf"].Arr? && exists i :: 0 <= i < |f["anyOf"].items| && IsNullType(f["anyOf"].items[i]))
  }

  lemma NullableExactly(f: map<string, Json>)
    ensures AllowsNull(f) <==> Nullable(f)
  {
    if "type" in f && f["type"].Arr? {
      assert Str("null") in f["type"].items <==> exists i :: 0 <= i < |f["type"].items| && f["type"].items[i] == Str("null");
    } else if !IsNullType(Obj(f)) && "anyOf" in f && f["anyOf"].Arr? {
      NullBranch(f["anyOf"].items);
    }
  }

  lemma NullBranch(branches: seq<Json>)
    ensures HasNullBranch(branches) <==> exists i :: 0 <= i < |branches| && IsNullType(branches[i])
  {
    forall i | 0 <= i < |branches|
      ensures Field(branches[i], "type") == Str("null") <==> IsNullType(branches[i])
    {
    }
  }

  /** A null is no gap exactly where the schema is nullable; anything else that is there never is. */
  lemma NullIsNoGap(state: Json, schema: Json, tokens: seq<string>)
    ensures Get(state, tokens) == Some(Null) ==>
              MissingReason(state, schema, tokens) == if Nullable(FragmentAt(schema, tokens)) then None else Some(IsNull)
    ensures Get(state, tokens).Some? && Get(state, tokens) != Some(Null) ==> MissingReason(state, schema, tokens) == None
    ensures Get(state, tokens).None? ==> MissingReason(state, schema, tokens) == Some(Absent)
  {
    hide AllowsNull, Nullable, Get, FragmentAt;
    NullableExactly(FragmentAt(schema, tokens));
  }

  // ---- Ancestors ----

  /** a is the pointer of a proper, non-empty prefix of the parts of p. */
  ghost predicate IsAncestor(a: string, p: string)
  {
    exists idx :: IsAncestorAt(a, p, idx)
  }

  predicate IsAncestorAt(a: string, p: string, idx: nat)
  {
    2 <= idx < |Split(p)| && a == Join(Split(p)[..idx])
  }

  /** `_has_missing_ancestor`. */
  method HasMissingAncestor(path: string, missing: set<string>) returns (r: bool)
    ensures r <==> exists a :: a in missing && IsAncestor(a, path)
  {
    hide Split, Join;
    var parts := Split(path);
    for idx := 2 to if |parts| < 2 then 2 else |parts|
      invariant forall k, a :: 2 <= k < idx && a in missing ==> !IsAncestorAt(a, path, k)
    {
      var parent := Join(parts[..idx]);
      if parent in missing {
        assert IsAncestorAt(parent, path, idx);
        return true;
      }
    }
    return false;
  }

  lemma {:induction false} JoinSplitParts(parts: seq<string>)
    requires parts != [] && forall i :: 0 <= i < |parts| ==> '/' !in parts[i]
    ensures Split(Join(parts)) == parts
    decreases |parts|
  {
    hide Split;
    if |parts| == 1 {
      SplitPlain(parts[0]);
      assert parts == [parts[0]];
    } else {
      var init, last := parts[..|parts| - 1], parts[|parts| - 1];
      JoinSplitParts(init);
      JoinSnoc(init, last);
      assert parts == init + [last];
      SplitAppend(Join(init), last);
    }
  }

  lemma {:induction false} JoinSnoc(parts: seq<string>, last: string)
    requires parts != []
    ensures Join(parts + [last]) == Join(parts) + "/" + last
    decreases |parts|
  {
    var all := parts + [last];
    assert all[1..] == parts[1..] + [last];
    if |parts| == 1 {
      assert all[1..] == [last];
    } else {
      JoinSnoc(parts[1..], last);
      var p := parts[0];
      assert p + "/" + (Join(parts[1..]) + "/" + last) == p + "/" + Join(parts[1..]) + "/" + last;
    }
  }

  lemma AncestorParts(a: string, p: string, idx: nat)
    requires IsAncestorAt(a, p, idx)
    ensures Split(a) == Split(p)[..idx]
  {
    hide Split, Join;
    JoinSplitParts(Split(p)[..idx]);
  }

  lemma {:induction false} JoinPrefix(parts: seq<string>, idx: nat)
    requires 1 <= idx <= |parts|
    ensures Join(parts[..idx]) <= Join(parts) && (idx < |parts| ==> |Join(parts[..idx])| < |Join(parts)|)
    decreases |parts| - idx
  {
    hide Join;
    if idx < |parts| {
      JoinPrefix(parts, idx + 1);
      JoinSnoc(parts[..idx], parts[idx]);
      assert parts[..idx + 1] == parts[..idx] + [parts[idx]];
    } else {
      assert parts[..idx] == parts;
    }
  }

  /** An ancestor is a proper prefix of the path, so it sorts first. */
  lemma AncestorSortsFirst(a: string, p: string)
    requires IsAncestor(a, p)
    ensures |a| < |p| && StrLess(a, p)
  {
    hide Split, Join;
    var idx: nat :| IsAncestorAt(a, p, idx);
    JoinSplit(p);
    JoinPrefix(Split(p), idx);
    PrefixSortsFirst(a, p);
  }

  lemma AncestorTransitive(a: string, b: string, p: string)
    requires IsAncestor(a, b) && IsAncestor(b, p)
    ensures IsAncestor(a, p)
  {
    hide Split, Join;
    var i: nat :| IsAncestorAt(a, b, i);
    var k: nat :| IsAncestorAt(b, p, k);
    AncestorParts(b, p, k);
    assert Split(b)[..i] == Split(p)[..i];
    assert IsAncestorAt(a, p, i);
  }

  // ---- The minimal missing paths ----

  ghost predicate MissingRequired(state: Json, schema: Json, base: string, path: string)
  {
    IsRequiredPath(schema, base, path) && IsMissing(state, schema, path)
  }

  /** Missing, required, and with no missing required ancestor. */
  ghost predicate IsSlot(state: Json, schema: Json, base: string, path: string)
  {
    MissingRequired(state, schema, base, path) &&
    forall a :: MissingRequired(state, schema, base, a) ==> !IsAncestor(a, path)
  }

  /** Above every missing required path, or at it, there is a slot. */
  lemma {:induction false} SlotAbove(state: Json, schema: Json, base: string, path: string) returns (slot: string)
    requires MissingRequired(state, schema, base, path)
    ensures IsSlot(state, schema, base, slot) && (slot == path || IsAncestor(slot, path))
    decreases |path|
  {
    hide IsAncestor, MissingRequired;
    if a :| MissingRequired(state, schema, base, a) && IsAncestor(a, path) {
      AncestorSortsFirst(a, path);
      slot := SlotAbove(state, schema, base, a);
      if slot != a { AncestorTransitive(slot, a, path); }
    } else {
      slot := path;
    }
  }

  /** The loop's test, given the slots among the earlier paths. */
  lemma AncestorTest(state: Json, schema: Json, base: string, paths: seq<string>, k: nat, found: set<string>)
    requires StrSorted(paths) && k < |paths| && forall p :: p in paths <==> IsRequiredPath(schema, base, p)
    requires forall p :: p in found <==> p in paths[..k] && IsSlot(state, schema, base, p)
    ensures IsSlot(state, schema, base, paths[k]) <==>
            IsMissing(state, schema, paths[k]) && !exists a :: a in found && IsAncestor(a, paths[k])
  {
    hide IsAncestor, IsMissing, IsRequiredPath;
    var path := paths[k];
    assert path in paths;
    if IsMissing(state, schema, path) && !IsSlot(state, schema, base, path) {
      var a :| MissingRequired(state, schema, base, a) && IsAncestor(a, path);
      var slot := SlotAbove(state, schema, base, a);
      if slot != a { AncestorTransitive(slot, a, path); }
      AncestorSortsFirst(slot, path);
      var i :| 0 <= i < |paths| && paths[i] == slot;
      StrLessTotal(slot, path);
      assert i < k;
      assert slot in paths[..k];
    }
  }

  /** Every path found is a slot, in order, with its schema and reason. */
  ghost predicate Reports(state: Json, schema: Json, slot: MissingSlot)
  {
    Decode(slot.path).Ok? && slot.expected == FragmentAt(schema, Decode(slot.path).value)
    && MissingReason(state, schema, Decode(slot.path).value) == Some(slot.reason)
  }

  function PathsOf(slots: seq<MissingSlot>): (paths: seq<string>)
    ensures |paths| == |slots| && forall i :: 0 <= i < |slots| ==> paths[i] == slots[i].path
  {
    seq(|slots|, i requires 0 <= i < |slots| => slots[i].path)
  }

  lemma RequiredPathsDecode(schema: Json, base: string, path: string)
    requires IsRequiredPath(schema, base, path)
    ensures Decode(path).Ok? <==> base == "" || base[0] == '/'
  {
    hide Encode;
    var tokens :| IsRequired(schema, tokens) && path == base + Encode(tokens);
    EncodeStartsWithSlash(tokens);
  }

  function ReasonFor(value: Option<Json>, expected: map<string, Json>): Option<Reason>
  {
    if value.None? then Some(Absent) else if value.value == Null && !AllowsNull(expected) then Some(IsNull) else None
  }

  /** One required path: is it missing, and what is reported. */
  method CheckPath(state: Json, schema: Json, path: string) returns (r: Result<Option<MissingSlot>, PointerError>)
    ensures r.Ok? <==> Decode(path).Ok?
    ensures r.Ok? ==> (r.value.Some? <==> IsMissing(state, schema, path))
    ensures r.Ok? && r.value.Some? ==> r.value.value.path == path && Reports(state, schema, r.value.value)
  {
    hide Decode, FragmentAt, Get, AllowsNull;
    var value := StateValueAt(state, path);
    if value.Err? {
      return Err(value.error);
    }
    var expected := FragmentAtTokens(schema, Decode(path).value);
    var reason := ReasonFor(value.value, expected);
    return Ok(if reason.Some? then Some(MissingSlot(path, expected, reason.value)) else None);
  }

  lemma SlotIsRequired(state: Json, schema: Json, base: string, p: string)
    ensures IsSlot(state, schema, base, p) ==> IsRequiredPath(schema, base, p)
  {
  }

  /** The slots found so far, by path. */
  ghost predicate FoundUpTo(state: Json, schema: Json, base: string, paths: seq<string>, k: nat, missing: map<string, MissingSlot>)
    requires k <= |paths|
  {
    && (forall p :: p in missing <==> p in paths[..k] && IsSlot(state, schema, base, p))
    && (forall p :: p in missing ==> missing[p].path == p && Reports(state, schema, missing[p]))
  }

  lemma FoundOneMore(state: Json, schema: Json, base: string, paths: seq<string>, k: nat,
                     missing: map<string, MissingSlot>, after: map<string, MissingSlot>)
    requires k < |paths| && FoundUpTo(state, schema, base, paths, k, missing)
    requires if IsSlot(state, schema, base, paths[k])
             then paths[k] in after && after[paths[k]].path == paths[k] && Reports(state, schema, after[paths[k]])
                  && after == missing[paths[k] := after[paths[k]]]
             else after == missing
    ensures FoundUpTo(state, schema, base, paths, k + 1, after)
  {
    hide IsSlot, Reports;
    assert paths[..k + 1] == paths[..k] + [paths[k]];
  }

  /** The values of a dictionary in the order of its sorted keys. */
  method InKeyOrder(missing: map<string, MissingSlot>) returns (slots: seq<MissingSlot>)
    requires forall p :: p in missing ==> missing[p].path == p
    ensures StrSorted(PathsOf(slots)) && forall p :: p in PathsOf(slots) <==> p in missing
    ensures forall i :: 0 <= i < |slots| ==> slots[i].path in missing && slots[i] == missing[slots[i].path]
  {
    var keys := SortedElements(missing.Keys);
    assert forall i :: 0 <= i < |keys| ==> keys[i] in keys;
    slots := seq(|keys|, i requires 0 <= i < |keys| => missing[keys[i]]);
    assert PathsOf(slots) == keys;
  }

  /** What one pass of the loop needs to know about the slots found so far. */
  lemma TestAt(state: Json, schema: Json, base: string, paths: seq<string>, k: nat, missing: map<string, MissingSlot>)
    requires StrSorted(paths) && k < |paths| && forall p :: p in paths <==> IsRequiredPath(schema, base, p)
    requires FoundUpTo(state, schema, base, paths, k, missing)
    ensures IsSlot(state, schema, base, paths[k]) <==>
            IsMissing(state, schema, paths[k]) && !exists a :: a in missing.Keys && IsAncestor(a, paths[k])
    ensures (exists a :: a in missing.Keys && IsAncestor(a, paths[k])) ==> k > 0
    ensures Decode(paths[k]).Ok? <==> base == "" || base[0] == '/'
    ensures IsRequiredPath(schema, base, paths[k])
  {
    hide IsSlot, IsRequiredPath, IsAncestor, Decode, IsMissing, Reports, StrSorted;
    assert paths[k] in paths;
    AncestorTest(state, schema, base, paths, k, missing.Keys);
    RequiredPathsDecode(schema, base, paths[k]);
    if a :| a in missing.Keys && IsAncestor(a, paths[k]) {
      assert a in paths[..k];
    }
  }

  lemma FoundAll(state: Json, schema: Json, base: string, paths: seq<string>, missing: map<string, MissingSlot>)
    requires forall p :: p in paths <==> IsRequiredPath(schema, base, p)
    requires FoundUpTo(state, schema, base, paths, |paths|, missing)
    ensures forall p :: p in missing <==> IsSlot(state, schema, base, p)
    ensures forall p :: p in missing ==> missing[p].path == p && Reports(state, schema, missing[p])
  {
    hide IsSlot, IsRequiredPath, Reports;
    assert paths[..|paths|] == paths;
    forall p
      ensures p in missing <==> IsSlot(state, schema, base, p)
    {
      SlotIsRequired(state, schema, base, p);
    }
  }

  /** `compute_missing_slots`: the paths reported are exactly the slots, in sorted order; a base that is
      neither empty nor starting with "/" makes the source raise as soon as some path is required. */
  method ComputeMissingSlots(state: Json, schema: Json, base: string) returns (r: Result<seq<MissingSlot>, PointerError>)
    ensures r.Err? <==> base != "" && base[0] != '/' && exists p :: IsRequiredPath(schema, base, p)
    ensures r.Ok? ==> StrSorted(PathsOf(r.value))
    ensures r.Ok? ==> forall p :: p in PathsOf(r.value) <==> IsSlot(state, schema, base, p)
    ensures r.Ok? ==> forall i :: 0 <= i < |r.value| ==> Reports(state, schema, r.value[i])
  {
    hide *;
    var required := ExtractRequiredPointers(schema, base);
    var missing: map<string, MissingSlot> := map[];
    NothingFound(state, schema, base, required);
    for k := 0 to |required|
      invariant FoundUpTo(state, schema, base, required, k, missing)
      invariant k > 0 ==> base == "" || base[0] == '/'
    {
      var path := required[k];
      TestAt(state, schema, base, required, k, missing);
      var covered := HasMissingAncestor(path, missing.Keys);
      ghost var before := missing;
      if !covered {
        var checked := CheckPath(state, schema, path);
        if checked.Err? {
          return Err(checked.error);
        }
        if checked.value.Some? {
          missing := missing[path := checked.value.value];
        }
      }
      FoundOneMore(state, schema, base, required, k, before, missing);
    }
    FoundAll(state, schema, base, required, missing);
    var slots := InKeyOrder(missing);
    assert |required| > 0 ==> base == "" || base[0] == '/';
    assert forall p :: IsRequiredPath(schema, base, p) ==> p in required;
    return Ok(slots);
  }

  lemma NothingFound(state: Json, schema: Json, base: string, paths: seq<string>)
    ensures FoundUpTo(state, schema, base, paths, 0, map[])
  {
  }
}
