/** JSON Patch add/replace/remove (planning/state_patch.py) as functions on JSON values. */
module Patch {
  import opened JsonValues
  import opened Pointer
  import opened Wrappers

  datatype PatchOp =
    | Add(path: string, value: Json)
    | Replace(path: string, value: Json)
    | Remove(path: string)

  datatype PatchError =
    | InvalidOp(index: nat)
    | PathNotFound(token: string)
    | NotAnIndex(token: string)
    | OutOfRange(index: nat)
    | NotAContainer
    | TargetMissing(token: string)

  type Patched = Result<Json, PatchError>

  // ---- List indices ----

  /** `token.isdigit()`, for ASCII digits. */
  predicate IsDigits(token: string)
  {
    token != "" && forall i :: 0 <= i < |token| ==> '0' <= token[i] <= '9'
  }

  /** `int(token)`; leading zeros are accepted. */
  function ToNat(token: string): nat
    requires IsDigits(token)
  {
    var last := (token[|token| - 1] - '0') as int;
    if |token| == 1 then last else 10 * ToNat(token[..|token| - 1]) + last
  }

  // ---- One step down ----

  /** Following one token from a container. */
  function Child(j: Json, token: string): Patched
  {
    match j
    case Obj(fields) => if token in fields then Ok(fields[token]) else Err(PathNotFound(token))
    case Arr(items) =>
      if !IsDigits(token) then Err(NotAnIndex(token))
      else if ToNat(token) >= |items| then Err(OutOfRange(ToNat(token)))
      else Ok(items[ToNat(token)])
    case _ => Err(NotAContainer)
  }

  /** The container with that child exchanged. */
  function WithChild(j: Json, token: string, child: Json): Json
    requires Child(j, token).Ok?
  {
    if j.Obj? then Obj(j.fields[token := child]) else Arr(j.items[ToNat(token) := child])
  }

  // ---- _apply_add, _apply_replace, _apply_remove ----

  function AddInto(parent: Json, key: string, value: Json): Patched
  {
    match parent
    case Obj(fields) => Ok(Obj(fields[key := value]))
    case Arr(items) =>
      if key == "-" then Ok(Arr(items + [value]))
      else if !IsDigits(key) then Err(NotAnIndex(key))
      else if ToNat(key) > |items| then Err(OutOfRange(ToNat(key)))
      else Ok(Arr(items[..ToNat(key)] + [value] + items[ToNat(key)..]))
    case _ => Err(NotAContainer)
  }

  function ReplaceIn(parent: Json, key: string, value: Json): Patched
  {
    match parent
    case Obj(fields) => if key in fields then Ok(Obj(fields[key := value])) else Err(TargetMissing(key))
    case Arr(items) =>
      if !IsDigits(key) then Err(NotAnIndex(key))
      else if ToNat(key) >= |items| then Err(OutOfRange(ToNat(key)))
      else Ok(Arr(items[ToNat(key) := value]))
    case _ => Err(NotAContainer)
  }

  function RemoveFrom(parent: Json, key: string): Patched
  {
    match parent
    case Obj(fields) => if key in fields then Ok(Obj(fields - {key})) else Err(TargetMissing(key))
    case Arr(items) =>
      if !IsDigits(key) then Err(NotAnIndex(key))
      else if ToNat(key) >= |items| then Err(OutOfRange(ToNat(key)))
      else Ok(Arr(items[..ToNat(key)] + items[ToNat(key) + 1..]))
    case _ => Err(NotAContainer)
  }

  function ApplyInto(op: PatchOp, parent: Json, key: string): Patched
  {
    match op
    case Add(_, v) => AddInto(parent, key, v)
    case Replace(_, v) => ReplaceIn(parent, key, v)
    case Remove(_) => RemoveFrom(parent, key)
  }

  // ---- A patch ----

  /** The document with the operation applied at the parent the tokens lead to. */
  function ApplyAt(op: PatchOp, j: Json, tokens: seq<string>): Patched
    requires tokens != []
  {
    if |tokens| == 1 then ApplyInto(op, j, tokens[0])
    else
      match Child(j, tokens[0])
      case Err(e) => Err(e)
      case Ok(child) =>
        match ApplyAt(op, child, tokens[1..])
        case Err(e) => Err(e)
        case Ok(child') => Ok(WithChild(j, tokens[0], child'))
  }

  /** `PatchOperation` validation: a path starting with "/", and a non-null value to add or replace. */
  predicate ValidOp(op: PatchOp)
  {
    op.path != "" && op.path[0] == '/' && (op.Remove? || op.value != Null)
  }

  function TokensOf(op: PatchOp): (tokens: seq<string>)
    requires ValidOp(op)
    ensures tokens != []
  {
    Decode(op.path).value
  }

  function ApplyOp(op: PatchOp, index: nat, j: Json): Patched
  {
    if !ValidOp(op) then Err(InvalidOp(index)) else ApplyAt(op, j, TokensOf(op))
  }

  /** The operations from the given index on, applied in order; the first failure is the result. */
  function ApplyOps(ops: seq<PatchOp>, index: nat, j: Json): Patched
  {
    if ops == [] then Ok(j)
    else
      match ApplyOp(ops[0], index, j)
      case Err(e) => Err(e)
      case Ok(j') => ApplyOps(ops[1..], index + 1, j')
  }

  /** `apply_patch`. */
  function ApplyPatch(state: Json, ops: seq<PatchOp>): Patched
  {
    ApplyOps(ops, 0, state)
  }

  /** Reading through tokens; None when some step is missing. */
  function Get(j: Json, tokens: seq<string>): Option<Json>
  {
    if tokens == [] then Some(j)
    else
      match Child(j, tokens[0])
      case Err(_) => None
      case Ok(child) => Get(child, tokens[1..])
  }
}
