/** Algebraic laws of patches (RFC 6902, sections 4.1 to 4.3). */
module PatchTheory {
  import opened JsonValues
  import opened Patch
  import opened Wrappers

  /** Both fail, or both succeed with the same document (the error may name another operation). */
  ghost predicate SameOutcome(a: Patched, b: Patched)
  {
    (a.Ok? <==> b.Ok?) && (a.Ok? ==> a.value == b.value)
  }

  // ---- Composition ----

  lemma {:induction false} IndexOnlyReports(ops: seq<PatchOp>, i: nat, k: nat, j: Json)
    ensures SameOutcome(ApplyOps(ops, i, j), ApplyOps(ops, k, j))
    decreases |ops|
  {
    hide ValidOp, TokensOf, ApplyAt;
    if ops != [] {
      var r := ApplyOp(ops[0], i, j);
      if r.Ok? { IndexOnlyReports(ops[1..], i + 1, k + 1, r.value); }
    }
  }

  lemma {:induction false} OpsAppend(p: seq<PatchOp>, q: seq<PatchOp>, i: nat, j: Json)
    ensures ApplyOps(p + q, i, j) ==
            match ApplyOps(p, i, j) case Err(e) => Err(e) case Ok(j') => ApplyOps(q, i + |p|, j')
    decreases |p|
  {
    hide ApplyOp;
    if p == [] {
      assert p + q == q;
    } else {
      assert (p + q)[0] == p[0] && (p + q)[1..] == p[1..] + q;
      var r := ApplyOp(p[0], i, j);
      if r.Ok? { OpsAppend(p[1..], q, i + 1, r.value); }
    }
  }

  /** Applying `p ++ q` is applying p and then q to its result. */
  lemma PatchesCompose(p: seq<PatchOp>, q: seq<PatchOp>, j: Json)
    ensures SameOutcome(ApplyPatch(j, p + q),
                        match ApplyPatch(j, p) case Err(e) => Err(e) case Ok(j') => ApplyPatch(j', q))
  {
    hide ApplyOps;
    OpsAppend(p, q, 0, j);
    if ApplyPatch(j, p).Ok? { IndexOnlyReports(q, |p|, 0, ApplyPatch(j, p).value); }
  }

  // ---- Locations ----

  /** A step into a member or an element, whatever token named it. */
  datatype Step = Key(key: string) | At(index: nat)

  function Enter(j: Json, step: Step): Option<Json>
  {
    match step
    case Key(k) => if j.Obj? && k in j.fields then Some(j.fields[k]) else None
    case At(i) => if j.Arr? && i < |j.items| then Some(j.items[i]) else None
  }

  /** What is at a location. */
  function Look(j: Json, loc: seq<Step>): Option<Json>
  {
    if loc == [] then Some(j)
    else
      match Enter(j, loc[0])
      case None => None
      case Some(child) => Look(child, loc[1..])
  }

  /** The step a token makes from a container. */
  function StepOf(j: Json, token: string): Step
    requires Child(j, token).Ok?
  {
    if j.Obj? then Key(token) else At(ToNat(token))
  }

  /** The location tokens lead to. */
  function Locate(j: Json, tokens: seq<string>): (loc: seq<Step>)
    requires Get(j, tokens).Some?
    ensures Look(j, loc) == Get(j, tokens)
  {
    if tokens == [] then []
    else
      var loc := [StepOf(j, tokens[0])] + Locate(Child(j, tokens[0]).value, tokens[1..]);
      assert loc[1..] == Locate(Child(j, tokens[0]).value, tokens[1..]);
      loc
  }

  function ParentOf(tokens: seq<string>): seq<string>
    requires tokens != []
  {
    tokens[..|tokens| - 1]
  }

  /** The document with another value at a location. */
  function Put(j: Json, loc: seq<Step>, v: Json): Json
    requires Look(j, loc).Some?
  {
    if loc == [] then v
    else
      var below := Put(Enter(j, loc[0]).value, loc[1..], v);
      match loc[0]
      case Key(k) => Obj(j.fields[k := below])
      case At(i) => Arr(j.items[i := below])
  }

  lemma {:induction false} LookInside(j: Json, loc: seq<Step>, v: Json, below: seq<Step>)
    requires Look(j, loc).Some?
    ensures Look(Put(j, loc, v), loc + below) == Look(v, below)
    ensures Look(j, loc + below) == Look(Look(j, loc).value, below)
  {
    if loc == [] {
      assert loc + below == below;
    } else {
      assert (loc + below)[0] == loc[0] && (loc + below)[1..] == loc[1..] + below;
      LookInside(Enter(j, loc[0]).value, loc[1..], v, below);
    }
  }

  lemma {:induction false} LookElsewhere(j: Json, loc: seq<Step>, v: Json, other: seq<Step>)
    requires Look(j, loc).Some? && !(loc <= other) && !(other <= loc)
    ensures Look(Put(j, loc, v), other) == Look(j, other)
  {
    if loc[0] == other[0] {
      assert loc == [loc[0]] + loc[1..] && other == [other[0]] + other[1..];
      LookElsewhere(Enter(j, loc[0]).value, loc[1..], v, other[1..]);
    }
  }

  // ---- An operation acts on its parent only ----

  ghost predicate ParentExists(j: Json, tokens: seq<string>)
    requires tokens != []
  {
    Get(j, ParentOf(tokens)).Some?
  }

  function Parent(j: Json, tokens: seq<string>): Json
    requires tokens != [] && ParentExists(j, tokens)
  {
    Get(j, ParentOf(tokens)).value
  }

  function LastOf(tokens: seq<string>): string
    requires tokens != []
  {
    tokens[|tokens| - 1]
  }

  lemma ParentBelow(j: Json, tokens: seq<string>)
    requires |tokens| > 1
    ensures ParentOf(tokens) == [tokens[0]] + ParentOf(tokens[1..]) && LastOf(tokens[1..]) == LastOf(tokens)
    ensures ParentExists(j, tokens) <==> Child(j, tokens[0]).Ok? && ParentExists(Child(j, tokens[0]).value, tokens[1..])
    ensures ParentExists(j, tokens) ==> Parent(j, tokens) == Parent(Child(j, tokens[0]).value, tokens[1..])
  {
    assert ParentOf(tokens)[1..] == ParentOf(tokens[1..]);
  }

  /** An operation succeeds exactly when its parent exists and it succeeds on the parent; then it
      changes nothing but the value at the parent's location. */
  lemma {:induction false} ActsOnParent(op: PatchOp, j: Json, tokens: seq<string>)
    requires tokens != []
    ensures ApplyAt(op, j, tokens).Ok? <==>
            ParentExists(j, tokens) && ApplyInto(op, Parent(j, tokens), LastOf(tokens)).Ok?
    ensures ApplyAt(op, j, tokens).Ok? ==>
            ApplyAt(op, j, tokens).value ==
            Put(j, Locate(j, ParentOf(tokens)), ApplyInto(op, Parent(j, tokens), LastOf(tokens)).value)
    decreases |tokens|
  {
    hide ApplyInto;
    if |tokens| > 1 {
      ParentBelow(j, tokens);
      if Child(j, tokens[0]).Ok? {
        ActsOnParent(op, Child(j, tokens[0]).value, tokens[1..]);
        if ParentExists(j, tokens) {
          var loc := Locate(j, ParentOf(tokens));
          assert ParentOf(tokens)[1..] == ParentOf(tokens[1..]);
          assert loc[1..] == Locate(Child(j, tokens[0]).value, ParentOf(tokens[1..]));
        }
      }
    }
  }

  // ---- What is written, and what is left alone ----

  /** The position an operation names in a list. */
  function Position(items: seq<Json>, key: string): nat
  {
    if IsDigits(key) then ToNat(key) else |items|
  }

  /** Where a member of the parent is afterwards; None for the one the operation touches. */
  function Moved(op: PatchOp, parent: Json, key: string, step: Step): Option<Step>
  {
    if parent.Arr? && step.At? then
      var n := Position(parent.items, key);
      match op
      case Add(_, _) => Some(if step.index < n then step else At(step.index + 1))
      case Replace(_, _) => if step.index == n then None else Some(step)
      case Remove(_) => if step.index == n then None else Some(if step.index < n then step else At(step.index - 1))
    else if parent.Obj? && step == Key(key) then None
    else Some(step)
  }

  lemma MembersMove(op: PatchOp, parent: Json, key: string, step: Step)
    requires ApplyInto(op, parent, key).Ok? && Enter(parent, step).Some? && Moved(op, parent, key, step).Some?
    ensures Enter(ApplyInto(op, parent, key).value, Moved(op, parent, key, step).value) == Enter(parent, step)
  {
  }

  lemma SubtreesMove(op: PatchOp, j: Json, at: seq<Step>, key: string, step: Step, below: seq<Step>)
    requires Look(j, at).Some? && ApplyInto(op, Look(j, at).value, key).Ok?
    requires var parent := Look(j, at).value; Enter(parent, step).Some? && Moved(op, parent, key, step).Some?
    ensures var parent := Look(j, at).value;
            Look(Put(j, at, ApplyInto(op, parent, key).value), at + ([Moved(op, parent, key, step).value] + below))
            == Look(j, at + ([step] + below))
  {
    hide ApplyInto, Moved, Enter, Put;
    var parent := Look(j, at).value;
    var moved := Moved(op, parent, key, step).value;
    var after := ApplyInto(op, parent, key).value;
    MembersMove(op, parent, key, step);
    LookInside(j, at, after, [step] + below);
    LookInside(j, at, after, [moved] + below);
    assert ([step] + below)[1..] == below && ([moved] + below)[1..] == below;
  }

  /** Everything not under the touched place keeps its value: locations neither through nor above the
      parent stay; members of the parent keep their subtrees, a list's tail shifted by one. */
  lemma UntouchedLocations(op: PatchOp, j: Json, tokens: seq<string>, loc: seq<Step>)
    requires tokens != [] && ApplyAt(op, j, tokens).Ok?
    ensures ParentExists(j, tokens)
    ensures var at := Locate(j, ParentOf(tokens));
            !(at <= loc) && !(loc <= at) ==> Look(ApplyAt(op, j, tokens).value, loc) == Look(j, loc)
    ensures var at := Locate(j, ParentOf(tokens));
            at <= loc && |at| < |loc| && Enter(Parent(j, tokens), loc[|at|]).Some? ==>
              var moved := Moved(op, Parent(j, tokens), LastOf(tokens), loc[|at|]);
              moved.Some? ==> Look(ApplyAt(op, j, tokens).value, at + ([moved.value] + loc[|at| + 1..])) == Look(j, loc)
  {
    hide ApplyInto, ApplyAt, Moved, Enter, Put, Look;
    ActsOnParent(op, j, tokens);
    var at := Locate(j, ParentOf(tokens));
    var parent := Parent(j, tokens);
    if !(at <= loc) && !(loc <= at) {
      LookElsewhere(j, at, ApplyInto(op, parent, LastOf(tokens)).value, loc);
    } else if at <= loc && |at| < |loc| && Enter(parent, loc[|at|]).Some? {
      var step, below := loc[|at|], loc[|at| + 1..];
      if Moved(op, parent, LastOf(tokens), step).Some? {
        SubtreesMove(op, j, at, LastOf(tokens), step, below);
        assert loc == at + ([step] + below);
      }
    }
  }

  /** "-" appends; any other key of a successful add or replace names the place written. */
  predicate Appends(op: PatchOp, j: Json, tokens: seq<string>)
    requires tokens != []
  {
    op.Add? && LastOf(tokens) == "-" && Get(j, ParentOf(tokens)).Some? && Get(j, ParentOf(tokens)).value.Arr?
  }

  lemma WithChildHas(j: Json, token: string, child: Json)
    requires Child(j, token).Ok?
    ensures Child(WithChild(j, token, child), token) == Ok(child)
  {
  }

  /** After an add or a replace, reading at the pointer gives the value. */
  lemma {:induction false} ReadAfterWrite(op: PatchOp, j: Json, tokens: seq<string>)
    requires tokens != [] && !op.Remove? && ApplyAt(op, j, tokens).Ok? && !Appends(op, j, tokens)
    ensures Get(ApplyAt(op, j, tokens).value, tokens) == Some(op.value)
    decreases |tokens|
  {
    hide WithChild;
    if |tokens| > 1 {
      ParentBelow(j, tokens);
      var child := Child(j, tokens[0]).value;
      ReadAfterWrite(op, child, tokens[1..]);
      WithChildHas(j, tokens[0], ApplyAt(op, child, tokens[1..]).value);
    } else {
      WrittenThere(op, j, tokens[0]);
    }
  }

  lemma WrittenThere(op: PatchOp, j: Json, key: string)
    requires !op.Remove? && ApplyInto(op, j, key).Ok? && !(op.Add? && j.Arr? && key == "-")
    ensures Child(ApplyInto(op, j, key).value, key) == Ok(op.value)
  {
  }

  lemma {:induction false} AppendedIsNotRead(op: PatchOp, j: Json, tokens: seq<string>)
    requires tokens != [] && ApplyAt(op, j, tokens).Ok? && Appends(op, j, tokens)
    ensures Get(ApplyAt(op, j, tokens).value, tokens) == None
    decreases |tokens|
  {
    hide WithChild;
    if |tokens| > 1 {
      ParentBelow(j, tokens);
      var child := Child(j, tokens[0]).value;
      AppendedIsNotRead(op, child, tokens[1..]);
      WithChildHas(j, tokens[0], ApplyAt(op, child, tokens[1..]).value);
    } else {
      assert "-"[0] == '-' && !IsDigits("-");
    }
  }

  /** An append puts the value after the old elements. */
  lemma AppendedLast(op: PatchOp, j: Json, tokens: seq<string>)
    requires tokens != [] && ApplyAt(op, j, tokens).Ok? && Appends(op, j, tokens)
    ensures Look(ApplyAt(op, j, tokens).value, Locate(j, ParentOf(tokens)) + [At(|Parent(j, tokens).items|)]) == Some(op.value)
  {
    hide ApplyAt, Put;
    ActsOnParent(op, j, tokens);
    var at := Locate(j, ParentOf(tokens));
    LookInside(j, at, ApplyInto(op, Parent(j, tokens), LastOf(tokens)).value, [At(|Parent(j, tokens).items|)]);
  }

  // ---- When an operation succeeds ----

  lemma SucceedsInParent(op: PatchOp, parent: Json, key: string)
    ensures !op.Add? ==> (ApplyInto(op, parent, key).Ok? <==> Child(parent, key).Ok?)
    ensures op.Add? ==> (ApplyInto(op, parent, key).Ok? <==>
                         parent.Obj? || (parent.Arr? && (key == "-" || (IsDigits(key) && ToNat(key) <= |parent.items|))))
  {
  }

  lemma {:induction false} GetFromParent(j: Json, tokens: seq<string>)
    requires tokens != []
    ensures Get(j, tokens).Some? <==> ParentExists(j, tokens) && Child(Parent(j, tokens), LastOf(tokens)).Ok?
    decreases |tokens|
  {
    hide Child;
    if |tokens| == 1 {
      assert ParentOf(tokens) == [] && tokens[1..] == [];
    } else {
      ParentBelow(j, tokens);
      if Child(j, tokens[0]).Ok? { GetFromParent(Child(j, tokens[0]).value, tokens[1..]); }
    }
  }

  /** Replacing and removing succeed exactly where something can be read; adding succeeds exactly under an
      object, at the end of a list, or at a list position up to its length. */
  lemma SucceedsExactly(op: PatchOp, j: Json, tokens: seq<string>)
    requires tokens != []
    ensures !op.Add? ==> (ApplyAt(op, j, tokens).Ok? <==> Get(j, tokens).Some?)
    ensures op.Add? ==> (ApplyAt(op, j, tokens).Ok? <==>
                         ParentExists(j, tokens) &&
                         var parent, key := Parent(j, tokens), LastOf(tokens);
                         parent.Obj? || (parent.Arr? && (key == "-" || (IsDigits(key) && ToNat(key) <= |parent.items|))))
  {
    hide ApplyInto, ApplyAt, Get, Child, ToNat, IsDigits;
    ActsOnParent(op, j, tokens);
    GetFromParent(j, tokens);
    if ParentExists(j, tokens) { SucceedsInParent(op, Parent(j, tokens), LastOf(tokens)); }
  }

  // ---- Inverses ----

  /** The operation names a place that is not there yet: a new member, or a numeric list position. */
  ghost predicate IsFresh(j: Json, tokens: seq<string>)
    requires tokens != []
  {
    ParentExists(j, tokens) &&
    var parent := Parent(j, tokens);
    (parent.Obj? && LastOf(tokens) !in parent.fields) || (parent.Arr? && IsDigits(LastOf(tokens)))
  }

  lemma UndoInParent(add: PatchOp, remove: PatchOp, parent: Json, key: string)
    requires add.Add? && remove.Remove? && ApplyInto(add, parent, key).Ok?
    requires (parent.Obj? && key !in parent.fields) || (parent.Arr? && IsDigits(key))
    ensures ApplyInto(remove, ApplyInto(add, parent, key).value, key) == Ok(parent)
  {
    if parent.Obj? {
      assert parent.fields[key := add.value] - {key} == parent.fields;
    } else {
      var n := ToNat(key);
      var items := parent.items[..n] + [add.value] + parent.items[n..];
      assert items[..n] + items[n + 1..] == parent.items;
    }
  }

  lemma RestoreInParent(remove: PatchOp, add: PatchOp, parent: Json, key: string)
    requires add.Add? && remove.Remove? && ApplyInto(remove, parent, key).Ok? && Child(parent, key) == Ok(add.value)
    ensures ApplyInto(add, ApplyInto(remove, parent, key).value, key) == Ok(parent)
  {
    if parent.Obj? {
      assert (parent.fields - {key})[key := add.value] == parent.fields;
    } else {
      var n := ToNat(key);
      var items := parent.items[..n] + parent.items[n + 1..];
      assert items[..n] + [add.value] + items[n..] == parent.items;
    }
  }

  lemma WithChildTwice(j: Json, token: string, a: Json, b: Json)
    requires Child(j, token).Ok?
    ensures Child(WithChild(j, token, a), token) == Ok(a)
    ensures WithChild(WithChild(j, token, a), token, b) == WithChild(j, token, b)
    ensures Child(j, token) == Ok(b) ==> WithChild(j, token, b) == j
  {
    if j.Obj? {
      assert Child(j, token) == Ok(b) ==> j.fields[token := b] == j.fields;
      assert j.fields[token := a][token := b] == j.fields[token := b];
    } else {
      assert Child(j, token) == Ok(b) ==> j.items[ToNat(token) := b] == j.items;
    }
  }

  /** Adding a fresh member or element and then removing it restores the document. */
  lemma {:induction false} AddThenRemove(add: PatchOp, remove: PatchOp, j: Json, tokens: seq<string>)
    requires tokens != [] && add.Add? && remove.Remove?
    requires ApplyAt(add, j, tokens).Ok? && IsFresh(j, tokens)
    ensures ApplyAt(remove, ApplyAt(add, j, tokens).value, tokens) == Ok(j)
    decreases |tokens|
  {
    hide ApplyInto, WithChild;
    if |tokens| == 1 {
      assert ParentOf(tokens) == [];
      UndoInParent(add, remove, j, tokens[0]);
    } else {
      ParentBelow(j, tokens);
      var child := Child(j, tokens[0]).value;
      AddThenRemove(add, remove, child, tokens[1..]);
      WithChildTwice(j, tokens[0], ApplyAt(add, child, tokens[1..]).value, child);
    }
  }

  lemma ReplaceBackInParent(replace: PatchOp, back: PatchOp, parent: Json, key: string)
    requires replace.Replace? && back.Replace? && ApplyInto(replace, parent, key).Ok? && Child(parent, key) == Ok(back.value)
    ensures ApplyInto(back, ApplyInto(replace, parent, key).value, key) == Ok(parent)
  {
    if parent.Obj? {
      assert parent.fields[key := replace.value][key := back.value] == parent.fields;
    } else {
      assert parent.items[ToNat(key) := replace.value][ToNat(key) := back.value] == parent.items;
    }
  }

  /** Replacing a value and then replacing it by the old one restores the document. */
  lemma {:induction false} ReplaceThenReplaceBack(replace: PatchOp, back: PatchOp, j: Json, tokens: seq<string>)
    requires tokens != [] && replace.Replace? && back.Replace?
    requires ApplyAt(replace, j, tokens).Ok? && Get(j, tokens) == Some(back.value)
    ensures ApplyAt(back, ApplyAt(replace, j, tokens).value, tokens) == Ok(j)
    decreases |tokens|
  {
    hide ApplyInto, WithChild;
    if |tokens| == 1 {
      assert tokens[1..] == [];
      ReplaceBackInParent(replace, back, j, tokens[0]);
    } else {
      var child := Child(j, tokens[0]).value;
      ReplaceThenReplaceBack(replace, back, child, tokens[1..]);
      WithChildTwice(j, tokens[0], ApplyAt(replace, child, tokens[1..]).value, child);
    }
  }

  /** Removing and then adding the removed value at the same place restores the document. */
  lemma {:induction false} RemoveThenAdd(remove: PatchOp, add: PatchOp, j: Json, tokens: seq<string>)
    requires tokens != [] && add.Add? && remove.Remove?
    requires ApplyAt(remove, j, tokens).Ok? && Get(j, tokens) == Some(add.value)
    ensures ApplyAt(add, ApplyAt(remove, j, tokens).value, tokens) == Ok(j)
    decreases |tokens|
  {
    hide ApplyInto, WithChild;
    if |tokens| == 1 {
      assert tokens[1..] == [];
      RestoreInParent(remove, add, j, tokens[0]);
    } else {
      var child := Child(j, tokens[0]).value;
      RemoveThenAdd(remove, add, child, tokens[1..]);
      WithChildTwice(j, tokens[0], ApplyAt(remove, child, tokens[1..]).value, child);
    }
  }

  // ---- Operations in different members of an object commute ----

  function Then(r: Patched, op: PatchOp, tokens: seq<string>): Patched
    requires tokens != []
  {
    match r
    case Err(e) => Err(e)
    case Ok(j) => ApplyAt(op, j, tokens)
  }

  /** The pointer goes through member `key` of the object at `at`, or names it. */
  predicate Through(tokens: seq<string>, at: seq<string>, key: string)
  {
    |at| < |tokens| && tokens[..|at|] == at && tokens[|at|] == key
  }

  /** An operation through one member of an object leaves the other members, and depends on none of them. */
  lemma OneMember(op: PatchOp, f: map<string, Json>, g: map<string, Json>, tokens: seq<string>, key: string)
    requires tokens != [] && tokens[0] == key
    requires (key in f <==> key in g) && (key in f ==> f[key] == g[key])
    ensures ApplyAt(op, Obj(f), tokens).Ok? <==> ApplyAt(op, Obj(g), tokens).Ok?
    ensures ApplyAt(op, Obj(f), tokens).Ok? ==>
              var a, b := ApplyAt(op, Obj(f), tokens).value, ApplyAt(op, Obj(g), tokens).value;
              && a.Obj? && b.Obj?
              && (key in a.fields <==> key in b.fields) && (key in a.fields ==> a.fields[key] == b.fields[key])
              && a.fields - {key} == f - {key} && b.fields - {key} == g - {key}
  {
  }

  lemma MembersCommute(p: PatchOp, ps: seq<string>, q: PatchOp, qs: seq<string>, f: map<string, Json>, a: string, b: string)
    requires ps != [] && qs != [] && ps[0] == a && qs[0] == b && a != b
    ensures SameOutcome(Then(ApplyAt(p, Obj(f), ps), q, qs), Then(ApplyAt(q, Obj(f), qs), p, ps))
  {
    hide ApplyAt;
    var rp, rq := ApplyAt(p, Obj(f), ps), ApplyAt(q, Obj(f), qs);
    OneMember(p, f, f, ps, a);
    OneMember(q, f, f, qs, b);
    if rp.Ok? {
      OtherMember(f, rp.value.fields, a, b);
      OneMember(q, f, rp.value.fields, qs, b);
    }
    if rq.Ok? {
      OtherMember(f, rq.value.fields, b, a);
      OneMember(p, f, rq.value.fields, ps, a);
    }
    if rp.Ok? && rq.Ok? {
      var x, y := Then(rp, q, qs).value.fields, Then(rq, p, ps).value.fields;
      SameMembers(f, rp.value.fields, rq.value.fields, x, y, a, b);
    }
  }

  lemma OtherMember(f: map<string, Json>, g: map<string, Json>, a: string, b: string)
    requires a != b && g - {a} == f - {a}
    ensures (b in f <==> b in g) && (b in f ==> f[b] == g[b])
  {
    assert b in f <==> b in f - {a};
    assert b in g <==> b in g - {a};
  }

  lemma SameMembers(f: map<string, Json>, fa: map<string, Json>, fb: map<string, Json>, x: map<string, Json>, y: map<string, Json>,
                    a: string, b: string)
    requires a != b && fa - {a} == f - {a} && fb - {b} == f - {b}
    requires x - {b} == fa - {b} && y - {a} == fb - {a}
    requires (b in fb <==> b in x) && (b in fb ==> fb[b] == x[b])
    requires (a in fa <==> a in y) && (a in fa ==> fa[a] == y[a])
    ensures x == y
  {
    forall k
      ensures k in x <==> k in y
      ensures k in x ==> x[k] == y[k]
    {
      if k != b { OtherMember(fa, x, b, k); }
      if k != a { OtherMember(fb, y, a, k); }
      if k != a && k != b { OtherMember(f, fa, a, k); OtherMember(f, fb, b, k); }
    }
  }

  /** Operations through different members of one object commute, whether they succeed or fail. */
  lemma {:induction false} DifferentMembersCommute(p: PatchOp, ps: seq<string>, q: PatchOp, qs: seq<string>, j: Json,
                                                   at: seq<string>, a: string, b: string)
    requires ps != [] && qs != [] && Through(ps, at, a) && Through(qs, at, b) && a != b
    requires Get(j, at).Some? && Get(j, at).value.Obj?
    ensures SameOutcome(Then(ApplyAt(p, j, ps), q, qs), Then(ApplyAt(q, j, qs), p, ps))
    decreases |at|
  {
    hide ApplyInto, WithChild;
    if at == [] {
      MembersCommute(p, ps, q, qs, j.fields, a, b);
    } else {
      var token := at[0];
      assert ps[0] == token && qs[0] == token && |ps| > 1 && |qs| > 1;
      var child := Child(j, token).value;
      assert ps[1..][..|at| - 1] == at[1..] && qs[1..][..|at| - 1] == at[1..];
      DifferentMembersCommute(p, ps[1..], q, qs[1..], child, at[1..], a, b);
      var cp, cq := ApplyAt(p, child, ps[1..]), ApplyAt(q, child, qs[1..]);
      if cp.Ok? {
        WithChildTwice(j, token, cp.value, cp.value);
        if Then(cp, q, qs[1..]).Ok? { WithChildTwice(j, token, cp.value, Then(cp, q, qs[1..]).value); }
      }
      if cq.Ok? {
        WithChildTwice(j, token, cq.value, cq.value);
        if Then(cq, p, ps[1..]).Ok? { WithChildTwice(j, token, cq.value, Then(cq, p, ps[1..]).value); }
      }
    }
  }

  // ---- Whole patches in different members commute ----

  /** Every operation is valid and goes through one member of the object at `at`. */
  ghost predicate AllThrough(ops: seq<PatchOp>, at: seq<string>, key: string)
  {
    forall op :: op in ops ==> ValidOp(op) && Through(TokensOf(op), at, key)
  }

  /** Applying the operations to a document that may already be a failure. */
  ghost function Run(r: Patched, ops: seq<PatchOp>): Patched
  {
    match r
    case Err(e) => Err(e)
    case Ok(j) => ApplyOps(ops, 0, j)
  }

  lemma RunCons(r: Patched, op: PatchOp, ops: seq<PatchOp>)
    requires ValidOp(op)
    ensures SameOutcome(Run(r, [op] + ops), Run(Then(r, op, TokensOf(op)), ops))
  {
    hide ValidOp, TokensOf, ApplyAt;
    if r.Ok? {
      assert ([op] + ops)[1..] == ops;
      var first := ApplyAt(op, r.value, TokensOf(op));
      if first.Ok? { IndexOnlyReports(ops, 1, 0, first.value); }
    }
  }

  lemma RunSame(a: Patched, b: Patched, ops: seq<PatchOp>)
    requires SameOutcome(a, b)
    ensures SameOutcome(Run(a, ops), Run(b, ops))
  {
  }

  lemma {:induction false} StaysObject(op: PatchOp, j: Json, tokens: seq<string>, at: seq<string>, key: string)
    requires Through(tokens, at, key) && ApplyAt(op, j, tokens).Ok?
    requires Get(j, at).Some? && Get(j, at).value.Obj?
    ensures Get(ApplyAt(op, j, tokens).value, at).Some? && Get(ApplyAt(op, j, tokens).value, at).value.Obj?
    decreases |at|
  {
    hide WithChild;
    if at == [] {
      OneMember(op, j.fields, j.fields, tokens, key);
    } else {
      assert tokens[0] == at[0] && tokens[1..][..|at| - 1] == at[1..];
      var child := Child(j, at[0]).value;
      StaysObject(op, child, tokens[1..], at[1..], key);
      WithChildTwice(j, at[0], ApplyAt(op, child, tokens[1..]).value, child);
    }
  }

  lemma {:induction false} OnePastMany(op: PatchOp, ops: seq<PatchOp>, j: Json, at: seq<string>, a: string, b: string)
    requires AllThrough([op], at, a) && AllThrough(ops, at, b) && a != b
    requires Get(j, at).Some? && Get(j, at).value.Obj?
    ensures SameOutcome(Run(ApplyAt(op, j, TokensOf(op)), ops), Then(Run(Ok(j), ops), op, TokensOf(op)))
    decreases |ops|
  {
    hide ApplyAt, ValidOp, TokensOf, Get, Through;
    assert op in [op];
    var tokens := TokensOf(op);
    if ops != [] {
      var next, rest := ops[0], ops[1..];
      assert next in ops && ops == [next] + rest && AllThrough(rest, at, b);
      var nextTokens := TokensOf(next);
      DifferentMembersCommute(op, tokens, next, nextTokens, j, at, a, b);
      RunCons(ApplyAt(op, j, tokens), next, rest);
      RunCons(Ok(j), next, rest);
      var moved := ApplyAt(next, j, nextTokens);
      RunSame(Then(ApplyAt(op, j, tokens), next, nextTokens), Then(moved, op, tokens), rest);
      if moved.Ok? {
        StaysObject(next, j, nextTokens, at, b);
        OnePastMany(op, rest, moved.value, at, a, b);
      }
    }
  }

  /** Two patches whose pointers go through different members of one object commute. */
  lemma {:induction false} PatchesCommute(p: seq<PatchOp>, q: seq<PatchOp>, j: Json, at: seq<string>, a: string, b: string)
    requires AllThrough(p, at, a) && AllThrough(q, at, b) && a != b
    requires Get(j, at).Some? && Get(j, at).value.Obj?
    ensures SameOutcome(Run(Run(Ok(j), p), q), Run(Run(Ok(j), q), p))
    decreases |p|
  {
    hide ApplyAt, ValidOp, TokensOf, Get, Through;
    if p != [] {
      var op, rest := p[0], p[1..];
      assert op in p && p == [op] + rest && AllThrough(rest, at, a) && AllThrough([op], at, a);
      var tokens := TokensOf(op);
      var first := ApplyAt(op, j, tokens);
      RunCons(Ok(j), op, rest);
      RunCons(Run(Ok(j), q), op, rest);
      RunSame(Run(Ok(j), p), Run(first, rest), q);
      OnePastMany(op, q, j, at, a, b);
      RunSame(Run(first, q), Then(Run(Ok(j), q), op, tokens), rest);
      if first.Ok? {
        StaysObject(op, j, tokens, at, a);
        PatchesCommute(rest, q, first.value, at, a, b);
      }
    }
  }

  lemma SeparatePatchesCommute(p: seq<PatchOp>, q: seq<PatchOp>, j: Json, at: seq<string>, a: string, b: string)
    requires AllThrough(p, at, a) && AllThrough(q, at, b) && a != b
    requires Get(j, at).Some? && Get(j, at).value.Obj?
    ensures SameOutcome(ApplyPatch(j, p + q), ApplyPatch(j, q + p))
  {
    hide ApplyOps, AllThrough, Get;
    PatchesCommute(p, q, j, at, a, b);
    PatchesCompose(p, q, j);
    PatchesCompose(q, p, j);
  }
}
