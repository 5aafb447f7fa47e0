/** Required pointers of an input schema (schemas/tool_schema_registry.py). */
module Schema {
  import opened JsonValues
  import opened Order
  import opened Pointer
  import opened Wrappers

  function Field(j: Json, key: string): Json
  {
    if j.Obj? && key in j.fields then j.fields[key] else Null
  }

  /** A schema level with properties and a list of required names. */
  predicate IsObjectSchema(schema: Json)
  {
    schema.Obj? && Field(schema, "properties").Obj? && Field(schema, "required").Arr?
  }

  /** The schema of one property, when it is an object. */
  function PropertySchema(schema: Json, name: string): Option<Json>
  {
    var p := Field(Field(schema, "properties"), name);
    if p.Obj? then Some(p) else None
  }

  predicate RequiresName(schema: Json, name: string)
  {
    IsObjectSchema(schema) && Str(name) in Field(schema, "required").items
  }

  /** Each token is required at its level. */
  ghost predicate IsRequired(schema: Json, tokens: seq<string>)
    decreases |tokens|
  {
    tokens != [] && RequiresName(schema, tokens[0]) &&
    (|tokens| > 1 ==>
       PropertySchema(schema, tokens[0]).Some? && IsRequired(PropertySchema(schema, tokens[0]).value, tokens[1..]))
  }

  /** What a level requires: the names its list holds, if it has an object of properties; and what is required below a required
      name is what the property's own schema requires. */
  lemma RequiredExactly(schema: Json, name: string, rest: seq<string>)
    ensures IsRequired(schema, [name]) <==>
            && schema.Obj? && "properties" in schema.fields && schema.fields["properties"].Obj?
            && "required" in schema.fields && schema.fields["required"].Arr? && Str(name) in schema.fields["required"].items
    ensures rest != [] ==>
              (IsRequired(schema, [name] + rest) <==>
               IsRequired(schema, [name]) &&
               var properties := schema.fields["properties"].fields;
               name in properties && properties[name].Obj? && IsRequired(properties[name], rest))
  {
    assert ([name] + rest)[1..] == rest;
  }

  /** A path is the base followed by the pointer of required tokens. */
  ghost predicate IsRequiredPath(schema: Json, base: string, path: string)
  {
    exists tokens :: IsRequired(schema, tokens) && path == base + Encode(tokens)
  }

  lemma {:induction false} EncodeCons(t: string, tokens: seq<string>)
    ensures Encode([t] + tokens) == "/" + Escape(t) + Encode(tokens)
    decreases |tokens|
  {
    hide Escape;
    var all := [t] + tokens;
    if tokens == [] {
      assert all[..0] == [];
    } else {
      assert all[..|all| - 1] == [t] + tokens[..|tokens| - 1];
      EncodeCons(t, tokens[..|tokens| - 1]);
    }
  }

  /** The recursive visit, name by name. */
  lemma RequiredBelow(schema: Json, base: string, name: string, path: string)
    requires RequiresName(schema, name)
    ensures IsRequiredPath(schema, base, PointerJoin(base, name))
    ensures PropertySchema(schema, name).Some? && IsRequiredPath(PropertySchema(schema, name).value, PointerJoin(base, name), path)
            ==> IsRequiredPath(schema, base, path)
  {
    hide Escape, PropertySchema, RequiresName, Encode;
    EncodeCons(name, []);
    NoTokens();
    assert [name] + [] == [name];
    assert IsRequired(schema, [name]) && PointerJoin(base, name) == base + Encode([name]);
    if PropertySchema(schema, name).Some? && IsRequiredPath(PropertySchema(schema, name).value, PointerJoin(base, name), path) {
      var rest :| IsRequired(PropertySchema(schema, name).value, rest) && path == PointerJoin(base, name) + Encode(rest);
      EncodeCons(name, rest);
      assert ([name] + rest)[1..] == rest;
      assert IsRequired(schema, [name] + rest) && path == base + Encode([name] + rest);
    }
  }

  lemma NoTokens()
    ensures Encode([]) == ""
  {
  }

  lemma RequiredStartsWithName(schema: Json, base: string, path: string) returns (name: string)
    requires IsRequiredPath(schema, base, path)
    ensures RequiresName(schema, name)
    ensures path == PointerJoin(base, name) ||
            (PropertySchema(schema, name).Some? &&
             IsRequiredPath(PropertySchema(schema, name).value, PointerJoin(base, name), path))
  {
    hide Escape, PropertySchema, RequiresName, Encode;
    var tokens :| IsRequired(schema, tokens) && path == base + Encode(tokens);
    name := tokens[0];
    var rest := tokens[1..];
    assert tokens == [name] + rest;
    EncodeCons(name, rest);
    NoTokens();
    if |tokens| > 1 {
      assert path == PointerJoin(base, name) + Encode(rest);
    }
  }

  // ---- extract_required_json_pointers ----

  /** `visit`: add the paths required at and below a schema. */
  method Visit(schema: Json, pointer: string, before: set<string>) returns (paths: set<string>)
    ensures forall p :: p in paths <==> p in before || IsRequiredPath(schema, pointer, p)
    decreases schema
  {
    hide Escape, IsRequiredPath, Encode;
    paths := before;
    if !IsObjectSchema(schema) {
      forall p
        ensures !IsRequiredPath(schema, pointer, p)
      {
        if IsRequiredPath(schema, pointer, p) { var _ := RequiredStartsWithName(schema, pointer, p); }
      }
      return;
    }
    var required := Field(schema, "required").items;
    for i := 0 to |required|
      invariant forall p :: p in before ==> p in paths
      invariant forall p :: p in paths ==> p in before || IsRequiredPath(schema, pointer, p)
      invariant forall k :: 0 <= k < i && required[k].Str? ==> VisitedName(schema, pointer, required[k].s, paths)
    {
      if required[i].Str? {
        var name := required[i].s;
        var path := PointerJoin(pointer, name);
        ghost var sofar := paths;
        forall p
          ensures IsRequiredPath(schema, pointer, path)
          ensures PropertySchema(schema, name).Some? && IsRequiredPath(PropertySchema(schema, name).value, path, p)
                  ==> IsRequiredPath(schema, pointer, p)
        {
          RequiredBelow(schema, pointer, name, p);
        }
        paths := paths + {path};
        if PropertySchema(schema, name).Some? {
          paths := Visit(PropertySchema(schema, name).value, path, paths);
        }
        assert VisitedName(schema, pointer, name, paths);
        assert forall k :: 0 <= k < i && required[k].Str? ==> VisitedName(schema, pointer, required[k].s, sofar);
        assert sofar <= paths;
      }
    }
    forall p | IsRequiredPath(schema, pointer, p)
      ensures p in paths
    {
      var name := RequiredStartsWithName(schema, pointer, p);
      var k :| 0 <= k < |required| && required[k] == Str(name);
      assert VisitedName(schema, pointer, required[k].s, paths);
    }
  }

  ghost predicate VisitedName(schema: Json, pointer: string, name: string, paths: set<string>)
  {
    PointerJoin(pointer, name) in paths &&
    (PropertySchema(schema, name).Some? ==>
       forall p :: IsRequiredPath(PropertySchema(schema, name).value, PointerJoin(pointer, name), p) ==> p in paths)
  }

  /** The required paths, sorted. */
  method ExtractRequiredPointers(schema: Json, base: string) returns (paths: seq<string>)
    ensures StrSorted(paths)
    ensures forall p :: p in paths <==> IsRequiredPath(schema, base, p)
  {
    hide IsRequiredPath;
    var found := Visit(schema, base, {});
    paths := SortedElements(found);
  }

  // ---- schema_fragment_at_pointer ----

  /** The schema the tokens lead to, empty when some step is missing. */
  function FragmentAt(schema: Json, tokens: seq<string>): map<string, Json>
    decreases |tokens|
  {
    if tokens == [] then if schema.Obj? then schema.fields else map[]
    else
      match PropertySchema(schema, tokens[0])
      case None => map[]
      case Some(child) => FragmentAt(child, tokens[1..])
  }

  /** `_schema_allows_null`: a list of types decides alone; otherwise the type, or a branch of a union. */
  predicate AllowsNull(fragment: map<string, Json>)
  {
    var kind := if "type" in fragment then fragment["type"] else Null;
    var anyOf := if "anyOf" in fragment then fragment["anyOf"] else Null;
    if kind.Arr? then Str("null") in kind.items
    else kind == Str("null") || (anyOf.Arr? && HasNullBranch(anyOf.items))
  }

  predicate HasNullBranch(branches: seq<Json>)
  {
    exists i :: 0 <= i < |branches| && Field(branches[i], "type") == Str("null")
  }
}
