/** `apply_patch` (planning/state_patch.py) in place, on a mutable copy of the state. */
module PatchHeap {
  import opened JsonValues
  import opened Patch
  import opened PatchTheory
  import opened Pointer
  import opened Wrappers

  /** What a Python value holds: a scalar, or references to other values. */
  datatype Content = Leaf(scalar: Json) | ListOf(items: seq<Cell>) | DictOf(members: map<string, Cell>)

  class Cell {
    var content: Content

    constructor (content: Content)
      ensures this.content == content
    {
      this.content := content;
    }
  }

  // ---- A heap value as a tree of cells ----

  /** The cells of a value, by the steps that lead to them. */
  datatype Tree = Tree(cell: Cell, kids: map<Step, Tree>)

  ghost function Cells(t: Tree): (cells: set<Cell>)
    ensures t.cell in cells
  {
    {t.cell} + set k, c | k in t.kids.Keys && c in Cells(t.kids[k]) :: c
  }

  /** The content of a cell is that of a JSON value, with the tree's children in its places. */
  ghost predicate Matches(content: Content, kids: map<Step, Tree>, j: Json)
  {
    match j
    case Obj(fields) => (
      && content.DictOf? && content.members.Keys == fields.Keys
      && (forall k :: k in kids <==> k.Key? && k.key in fields)
      && (forall key :: key in fields ==> kids[Key(key)].cell == content.members[key]))
    case Arr(items) => (
      && content.ListOf? && |content.items| == |items|
      && (forall k :: k in kids <==> k.At? && k.index < |items|)
      && (forall i :: 0 <= i < |items| ==> kids[At(i)].cell == content.items[i]))
    case _ => content == Leaf(j) && kids == map[]
  }

  /** The cells of t hold the value j. */
  ghost predicate Holds(t: Tree, j: Json)
    reads Cells(t)
    decreases t
  {
    && Matches(t.cell.content, t.kids, j)
    && forall k :: k in t.kids.Keys ==> Enter(j, k).Some? && Holds(t.kids[k], Enter(j, k).value)
  }

  /** No cell occurs twice. */
  ghost predicate Separate(t: Tree)
  {
    && (forall k :: k in t.kids.Keys ==> Separate(t.kids[k]) && t.cell !in Cells(t.kids[k]))
    && (forall k, l :: k in t.kids.Keys && l in t.kids.Keys && k != l ==> Cells(t.kids[k]) !! Cells(t.kids[l]))
  }

  lemma KidCells(t: Tree, k: Step)
    requires k in t.kids
    ensures Cells(t.kids[k]) <= Cells(t)
  {
  }

  lemma {:induction false} CellsExist(t: Tree)
    ensures forall c :: c in Cells(t) ==> allocated(c)
  {
    forall k | k in t.kids.Keys
      ensures forall c :: c in Cells(t.kids[k]) ==> allocated(c)
    {
      CellsExist(t.kids[k]);
    }
  }

  // ---- deepcopy ----

  /** A deep copy: the same value in new cells, each occurring once. */
  method DeepCopy(c: Cell, ghost t: Tree, ghost j: Json) returns (r: Cell, ghost u: Tree)
    requires Holds(t, j) && t.cell == c
    ensures Holds(u, j) && Separate(u) && u.cell == r && fresh(Cells(u))
    decreases t, 1
  {
    match c.content {
      case Leaf(v) =>
        r := new Cell(Leaf(v));
        u := Tree(r, map[]);
      case ListOf(items) =>
        r, u := CopyList(items, t, j);
      case DictOf(members) =>
        r, u := CopyDict(members, t, j);
    }
  }

  /** Copies of children, on separate cells among the given ones. */
  ghost predicate CopiedKids(kids: map<Step, Tree>, cells: set<Cell>, j: Json)
    reads cells
  {
    && (forall k :: k in kids.Keys ==> Cells(kids[k]) <= cells && Enter(j, k).Some? && Holds(kids[k], Enter(j, k).value) && Separate(kids[k]))
    && (forall k, l :: k in kids.Keys && l in kids.Keys && k != l ==> Cells(kids[k]) !! Cells(kids[l]))
  }

  lemma AnotherCopy(kids: map<Step, Tree>, cells: set<Cell>, j: Json, k: Step, kid: Tree)
    requires CopiedKids(kids, cells, j) && k !in kids
    requires Enter(j, k).Some? && Holds(kid, Enter(j, k).value) && Separate(kid) && Cells(kid) !! cells
    ensures CopiedKids(kids[k := kid], cells + Cells(kid), j)
  {
    hide Cells, Holds, Separate, Enter;
  }

  lemma WholeCopy(r: Cell, kids: map<Step, Tree>, cells: set<Cell>, j: Json)
    requires CopiedKids(kids, cells, j) && r !in cells && Matches(r.content, kids, j)
    ensures Holds(Tree(r, kids), j) && Separate(Tree(r, kids)) && Cells(Tree(r, kids)) <= cells + {r}
  {
    hide Matches, Enter;
  }

  lemma KidHolds(t: Tree, j: Json, k: Step)
    requires Holds(t, j) && Enter(j, k).Some?
    ensures k in t.kids && Holds(t.kids[k], Enter(j, k).value)
    ensures t.cell.content.ListOf? && k.At? ==> k.index < |t.cell.content.items| && t.kids[k].cell == t.cell.content.items[k.index]
    ensures t.cell.content.DictOf? && k.Key? ==> k.key in t.cell.content.members && t.kids[k].cell == t.cell.content.members[k.key]
  {
  }

  lemma RootMatches(t: Tree, j: Json)
    requires Holds(t, j)
    ensures Matches(t.cell.content, t.kids, j)
  {
  }

  /** The copied elements, and their trees. */
  ghost predicate LinesUp(copies: seq<Cell>, kids: map<Step, Tree>)
  {
    && (forall k :: k in kids <==> k.At? && k.index < |copies|)
    && (forall i :: 0 <= i < |copies| ==> kids[At(i)].cell == copies[i])
  }

  lemma AnotherElement(copies: seq<Cell>, kids: map<Step, Tree>, kid: Tree)
    requires LinesUp(copies, kids)
    ensures LinesUp(copies + [kid.cell], kids[At(|copies|) := kid]) && At(|copies|) !in kids
  {
  }

  lemma ElementsMatch(copies: seq<Cell>, kids: map<Step, Tree>, items: seq<Cell>, olds: map<Step, Tree>, j: Json)
    requires LinesUp(copies, kids) && |copies| == |items| && Matches(ListOf(items), olds, j)
    ensures Matches(ListOf(copies), kids, j)
  {
  }

  lemma ElementIsThere(items: seq<Cell>, kids: map<Step, Tree>, j: Json, i: nat)
    requires Matches(ListOf(items), kids, j) && i < |items|
    ensures j.Arr? && i < |j.items| && Enter(j, At(i)) == Some(j.items[i])
  {
  }

  method CopyList(items: seq<Cell>, ghost t: Tree, ghost j: Json) returns (r: Cell, ghost u: Tree)
    requires Holds(t, j) && t.cell.content == ListOf(items)
    ensures Holds(u, j) && Separate(u) && u.cell == r && fresh(Cells(u))
    decreases t, 0
  {
    hide *;
    RootMatches(t, j);
    var copies: seq<Cell> := [];
    ghost var kids: map<Step, Tree> := map[];
    ghost var cells: set<Cell> := {};
    NothingCopied(j);
    ghost var before := Cells(t);
    CellsExist(t);
    for i := 0 to |items|
      invariant |copies| == i && LinesUp(copies, kids)
      invariant CopiedKids(kids, cells, j) && fresh(cells)
      invariant forall c :: c in before ==> unchanged(c)
    {
      ElementIsThere(items, t.kids, j, i);
      KidHolds(t, j, At(i));
      var copy;
      ghost var kid;
      copy, kid := DeepCopy(items[i], t.kids[At(i)], j.items[i]);
      AnotherElement(copies, kids, kid);
      AnotherCopy(kids, cells, j, At(i), kid);
      copies := copies + [copy];
      kids := kids[At(i) := kid];
      cells := cells + Cells(kid);
    }
    ElementsMatch(copies, kids, items, t.kids, j);
    r := new Cell(ListOf(copies));
    u := Tree(r, kids);
    WholeCopy(r, kids, cells, j);
  }

  lemma NothingCopied(j: Json)
    ensures CopiedKids(map[], {}, j) && PairsUp(map[], map[]) && LinesUp([], map[])
  {
  }

  /** The copied members, and their trees. */
  ghost predicate PairsUp(copies: map<string, Cell>, kids: map<Step, Tree>)
  {
    && (forall k :: k in kids <==> k.Key? && k.key in copies)
    && (forall key :: key in copies ==> kids[Key(key)].cell == copies[key])
  }

  lemma AnotherPair(copies: map<string, Cell>, kids: map<Step, Tree>, key: string, kid: Tree)
    requires PairsUp(copies, kids)
    ensures PairsUp(copies[key := kid.cell], kids[Key(key) := kid])
    ensures key !in copies ==> Key(key) !in kids
  {
  }

  lemma PairsMatch(copies: map<string, Cell>, kids: map<Step, Tree>, members: map<string, Cell>, olds: map<Step, Tree>, j: Json)
    requires PairsUp(copies, kids) && copies.Keys == members.Keys && Matches(DictOf(members), olds, j)
    ensures Matches(DictOf(copies), kids, j)
  {
  }

  lemma MemberIsThere(members: map<string, Cell>, kids: map<Step, Tree>, j: Json, key: string)
    requires Matches(DictOf(members), kids, j) && key in members
    ensures j.Obj? && key in j.fields && Enter(j, Key(key)) == Some(j.fields[key])
  {
  }

  method CopyDict(members: map<string, Cell>, ghost t: Tree, ghost j: Json) returns (r: Cell, ghost u: Tree)
    requires Holds(t, j) && t.cell.content == DictOf(members)
    ensures Holds(u, j) && Separate(u) && u.cell == r && fresh(Cells(u))
    decreases t, 0
  {
    hide *;
    RootMatches(t, j);
    var copies: map<string, Cell> := map[];
    ghost var kids: map<Step, Tree> := map[];
    ghost var cells: set<Cell> := {};
    NothingCopied(j);
    ghost var before := Cells(t);
    CellsExist(t);
    var rest := members.Keys;
    while rest != {}
      invariant copies.Keys == members.Keys - rest && rest <= members.Keys
      invariant PairsUp(copies, kids)
      invariant CopiedKids(kids, cells, j) && fresh(cells)
      invariant forall c :: c in before ==> unchanged(c)
      decreases rest
    {
      var key :| key in rest;
      MemberIsThere(members, t.kids, j, key);
      KidHolds(t, j, Key(key));
      var copy;
      ghost var kid;
      copy, kid := DeepCopy(members[key], t.kids[Key(key)], j.fields[key]);
      AnotherPair(copies, kids, key, kid);
      AnotherCopy(kids, cells, j, Key(key), kid);
      copies := copies[key := copy];
      kids := kids[Key(key) := kid];
      cells := cells + Cells(kid);
      rest := rest - {key};
    }
    PairsMatch(copies, kids, members, t.kids, j);
    r := new Cell(DictOf(copies));
    u := Tree(r, kids);
    WholeCopy(r, kids, cells, j);
  }

  // ---- Subtrees ----

  ghost function Descend(t: Tree, loc: seq<Step>): Option<Tree>
  {
    if loc == [] then Some(t)
    else if loc[0] in t.kids then Descend(t.kids[loc[0]], loc[1..])
    else None
  }

  /** The tree with another subtree at a location. */
  ghost function PutTree(t: Tree, loc: seq<Step>, u: Tree): Tree
    requires Descend(t, loc).Some?
  {
    if loc == [] then u else Tree(t.cell, t.kids[loc[0] := PutTree(t.kids[loc[0]], loc[1..], u)])
  }

  lemma {:induction false} DescendHolds(t: Tree, j: Json, loc: seq<Step>)
    requires Holds(t, j) && Look(j, loc).Some?
    ensures Descend(t, loc).Some? && Holds(Descend(t, loc).value, Look(j, loc).value)
    ensures Cells(Descend(t, loc).value) <= Cells(t)
    ensures Separate(t) ==> Separate(Descend(t, loc).value)
  {
    hide Cells, Separate, Holds, Enter;
    if loc != [] {
      KidHolds(t, j, loc[0]);
      KidCells(t, loc[0]);
      KidSeparate(t, loc[0]);
      DescendHolds(t.kids[loc[0]], Enter(j, loc[0]).value, loc[1..]);
    }
  }

  lemma KidSeparate(t: Tree, k: Step)
    requires k in t.kids
    ensures Separate(t) ==> Separate(t.kids[k]) && t.cell !in Cells(t.kids[k])
    ensures Separate(t) ==> forall l :: l in t.kids && l != k ==> Cells(t.kids[l]) !! Cells(t.kids[k])
  {
  }

  /** Exchanging a subtree for one on its own cells and new ones keeps the tree separate. */
  lemma {:induction false} PutSeparate(t: Tree, loc: seq<Step>, u: Tree, news: set<Cell>)
    requires Separate(t) && Descend(t, loc).Some? && Separate(u)
    requires Cells(u) <= Cells(Descend(t, loc).value) + news && news !! Cells(t)
    ensures Separate(PutTree(t, loc, u)) && Cells(PutTree(t, loc, u)) <= Cells(t) + news
  {
    hide Cells, Separate;
    if loc != [] {
      var k := loc[0];
      KidCells(t, k);
      KidSeparate(t, k);
      PutSeparate(t.kids[k], loc[1..], u, news);
      ExchangeKid(t, k, PutTree(t.kids[k], loc[1..], u), news);
    }
  }

  lemma ExchangeKid(t: Tree, k: Step, kid: Tree, news: set<Cell>)
    requires Separate(t) && k in t.kids && Separate(kid) && Cells(kid) <= Cells(t.kids[k]) + news && news !! Cells(t)
    ensures Separate(Tree(t.cell, t.kids[k := kid])) && Cells(Tree(t.cell, t.kids[k := kid])) <= Cells(t) + news
  {
    var u := Tree(t.cell, t.kids[k := kid]);
    forall l | l in t.kids
      ensures Cells(t.kids[l]) <= Cells(t)
    {
      KidCells(t, l);
    }
    forall l | l in u.kids.Keys
      ensures Separate(u.kids[l]) && u.cell !in Cells(u.kids[l])
    {
      KidSeparate(t, l);
    }
    forall l, m | l in u.kids.Keys && m in u.kids.Keys && l != m
      ensures Cells(u.kids[l]) !! Cells(u.kids[m])
    {
      if l == k || m == k { KidSeparate(t, k); } else { KidSeparate(t, l); }
    }
  }

  // ---- Everything around a subtree ----

  /** The cells outside the subtree at a location. */
  ghost function Around(t: Tree, loc: seq<Step>): set<Cell>
    requires Descend(t, loc).Some?
  {
    if loc == [] then {}
    else {t.cell} + (set k, c | k in t.kids.Keys && k != loc[0] && c in Cells(t.kids[k]) :: c) + Around(t.kids[loc[0]], loc[1..])
  }

  /** The value is held everywhere but in the subtree at the location. */
  ghost predicate HoldsAround(t: Tree, j: Json, loc: seq<Step>)
    requires Descend(t, loc).Some?
    reads Around(t, loc)
    decreases |loc|
  {
    loc != [] ==>
      && Matches(t.cell.content, t.kids, j)
      && (forall k :: k in t.kids.Keys && k != loc[0] ==> Enter(j, k).Some? && Holds(t.kids[k], Enter(j, k).value))
      && Enter(j, loc[0]).Some? && HoldsAround(t.kids[loc[0]], Enter(j, loc[0]).value, loc[1..])
  }

  lemma {:induction false} Focus(t: Tree, j: Json, loc: seq<Step>)
    requires Holds(t, j) && Look(j, loc).Some?
    ensures Descend(t, loc).Some? && HoldsAround(t, j, loc)
    decreases |loc|
  {
    hide Cells, Matches, Enter;
    if loc != [] {
      KidHolds(t, j, loc[0]);
      Focus(t.kids[loc[0]], Enter(j, loc[0]).value, loc[1..]);
    }
  }

  lemma {:induction false} AroundAvoids(t: Tree, loc: seq<Step>)
    requires Separate(t) && Descend(t, loc).Some?
    ensures Around(t, loc) <= Cells(t) && Around(t, loc) !! Cells(Descend(t, loc).value) && Cells(Descend(t, loc).value) <= Cells(t)
    decreases |loc|
  {
    hide Separate;
    if loc != [] {
      KidSeparate(t, loc[0]);
      KidCells(t, loc[0]);
      AroundAvoids(t.kids[loc[0]], loc[1..]);
    }
  }

  /** A new value at the location makes a new whole. */
  lemma {:induction false} Refocus(t: Tree, j: Json, loc: seq<Step>, u: Tree, v: Json)
    requires Look(j, loc).Some? && Descend(t, loc).Some? && HoldsAround(t, j, loc)
    requires Holds(u, v) && u.cell == Descend(t, loc).value.cell
    ensures Holds(PutTree(t, loc, u), Put(j, loc, v)) && PutTree(t, loc, u).cell == t.cell
    decreases |loc|
  {
    hide Cells;
    if loc != [] {
      var k := loc[0];
      Refocus(t.kids[k], Enter(j, k).value, loc[1..], u, v);
      var kid := PutTree(t.kids[k], loc[1..], u);
      var below := Put(Enter(j, k).value, loc[1..], v);
      ExchangeHolds(t, j, k, kid, below);
    }
  }

  function WithStep(j: Json, k: Step, v: Json): Json
    requires Enter(j, k).Some?
  {
    if k.Key? then Obj(j.fields[k.key := v]) else Arr(j.items[k.index := v])
  }

  lemma StepsAfter(j: Json, k: Step, v: Json, l: Step)
    requires Enter(j, k).Some?
    ensures Enter(WithStep(j, k, v), l) == if l == k then Some(v) else Enter(j, l)
  {
  }

  lemma StillMatches(content: Content, kids: map<Step, Tree>, j: Json, k: Step, kid: Tree, v: Json)
    requires k in kids && Enter(j, k).Some? && Matches(content, kids, j) && kid.cell == kids[k].cell
    ensures Matches(content, kids[k := kid], WithStep(j, k, v))
  {
  }

  lemma ExchangeHolds(t: Tree, j: Json, k: Step, kid: Tree, v: Json)
    requires k in t.kids && Enter(j, k).Some? && Matches(t.cell.content, t.kids, j)
    requires forall l :: l in t.kids.Keys && l != k ==> Enter(j, l).Some? && Holds(t.kids[l], Enter(j, l).value)
    requires Holds(kid, v) && kid.cell == t.kids[k].cell
    ensures Holds(Tree(t.cell, t.kids[k := kid]), WithStep(j, k, v))
  {
    hide Cells, Matches, Enter, WithStep;
    StillMatches(t.cell.content, t.kids, j, k, kid, v);
    forall l | l in t.kids.Keys
      ensures Enter(WithStep(j, k, v), l) == if l == k then Some(v) else Enter(j, l)
    {
      StepsAfter(j, k, v, l);
    }
  }

  // ---- Changing one container ----

  /** A value on its own cells, with its root at the given cell. */
  ghost predicate Owns(t: Tree, j: Json, cell: Cell)
    reads Cells(t)
  {
    Holds(t, j) && Separate(t) && t.cell == cell
  }

  lemma KidEnters(t: Tree, j: Json, k: Step)
    requires Holds(t, j) && k in t.kids
    ensures Enter(j, k).Some? && Holds(t.kids[k], Enter(j, k).value)
  {
  }

  lemma OwnedKids(t: Tree, j: Json, cell: Cell)
    requires Owns(t, j, cell)
    ensures Matches(cell.content, t.kids, j) && CopiedKids(t.kids, Cells(t) - {cell}, j)
  {
    hide Matches, Enter, Cells, Holds, Separate;
    RootMatches(t, j);
    forall k | k in t.kids.Keys
      ensures Cells(t.kids[k]) <= Cells(t) - {cell} && Enter(j, k).Some? && Holds(t.kids[k], Enter(j, k).value) && Separate(t.kids[k])
      ensures forall l :: l in t.kids.Keys && l != k ==> Cells(t.kids[l]) !! Cells(t.kids[k])
    {
      KidEnters(t, j, k);
      KidCells(t, k);
      KidSeparate(t, k);
    }
  }

  /** Some of the children, possibly at other places of another value. */
  lemma Rearranged(kids: map<Step, Tree>, cells: set<Cell>, j: Json, kept: map<Step, Tree>, from: map<Step, Step>, j2: Json)
    requires CopiedKids(kids, cells, j) && from.Keys == kept.Keys
    requires forall k :: k in kept.Keys ==> from[k] in kids && kept[k] == kids[from[k]] && Enter(j2, k) == Enter(j, from[k])
    requires forall k, l :: k in kept.Keys && l in kept.Keys && k != l ==> from[k] != from[l]
    ensures CopiedKids(kept, cells, j2)
  {
    hide Cells, Holds, Separate, Enter;
  }

  ghost predicate IsDict(members: map<string, Cell>, kids: map<Step, Tree>, fields: map<string, Json>)
  {
    && members.Keys == fields.Keys
    && (forall k :: k in kids <==> k.Key? && k.key in fields)
    && (forall key :: key in fields ==> kids[Key(key)].cell == members[key])
  }

  lemma DictMatches(members: map<string, Cell>, kids: map<Step, Tree>, j: Json)
    ensures Matches(DictOf(members), kids, j) <==> j.Obj? && IsDict(members, kids, j.fields)
  {
  }

  lemma DropShapeOfDict(members: map<string, Cell>, kids: map<Step, Tree>, fields: map<string, Json>, key: string)
    requires IsDict(members, kids, fields)
    ensures IsDict(members - {key}, kids - {Key(key)}, fields - {key})
    ensures forall k :: k in kids - {Key(key)} ==> Enter(Obj(fields - {key}), k) == Enter(Obj(fields), k)
  {
    assert (members - {key}).Keys == members.Keys - {key} && (fields - {key}).Keys == fields.Keys - {key};
  }

  lemma SetShapeOfDict(members: map<string, Cell>, kids: map<Step, Tree>, fields: map<string, Json>, key: string, tv: Tree, v: Json)
    requires IsDict(members, kids, fields)
    ensures IsDict(members[key := tv.cell], kids[Key(key) := tv], fields[key := v])
    ensures forall k :: k in kids - {Key(key)} ==> Enter(Obj(fields[key := v]), k) == Enter(Obj(fields), k)
    ensures Enter(Obj(fields[key := v]), Key(key)) == Some(v)
  {
  }

  lemma SetMember(members: map<string, Cell>, kids: map<Step, Tree>, cells: set<Cell>, j: Json, key: string, tv: Tree, v: Json)
    requires Matches(DictOf(members), kids, j) && CopiedKids(kids, cells, j)
    requires Holds(tv, v) && Separate(tv) && Cells(tv) !! cells
    ensures j.Obj? && Matches(DictOf(members[key := tv.cell]), kids[Key(key) := tv], Obj(j.fields[key := v]))
    ensures CopiedKids(kids[Key(key) := tv], cells + Cells(tv), Obj(j.fields[key := v]))
  {
    hide Cells, Holds, Separate, CopiedKids, Matches, IsDict, Enter;
    DictMatches(members, kids, j);
    SetShapeOfDict(members, kids, j.fields, key, tv, v);
    var j2 := Obj(j.fields[key := v]);
    DictMatches(members[key := tv.cell], kids[Key(key) := tv], j2);
    var kept := kids - {Key(key)};
    Rearranged(kids, cells, j, kept, (map k | k in kept :: k), j2);
    AnotherCopy(kept, cells, j2, Key(key), tv);
    assert kept[Key(key) := tv] == kids[Key(key) := tv];
  }

  lemma DropMember(members: map<string, Cell>, kids: map<Step, Tree>, cells: set<Cell>, j: Json, key: string)
    requires Matches(DictOf(members), kids, j) && CopiedKids(kids, cells, j)
    ensures j.Obj? && Matches(DictOf(members - {key}), kids - {Key(key)}, Obj(j.fields - {key}))
    ensures CopiedKids(kids - {Key(key)}, cells, Obj(j.fields - {key}))
  {
    hide Cells, Holds, Separate, CopiedKids, Matches, IsDict, Enter;
    DictMatches(members, kids, j);
    DropShapeOfDict(members, kids, j.fields, key);
    DictMatches(members - {key}, kids - {Key(key)}, Obj(j.fields - {key}));
    var kept := kids - {Key(key)};
    Rearranged(kids, cells, j, kept, (map k | k in kept :: k), Obj(j.fields - {key}));
  }

  function Places(size: nat): (s: set<Step>)
    ensures forall k :: k in s <==> k.At? && k.index < size
  {
    set i | 0 <= i < size :: At(i)
  }

  /** Where the elements of a list were before one was put in at n. */
  function BeforeInsert(size: nat, n: nat): (from: map<Step, Step>)
    requires n <= size
  {
    map k | k in Places(size + 1) && k != At(n) :: if k.index < n then k else At(k.index - 1)
  }

  /** Where they were before the one at n was taken out. */
  function BeforeDrop(size: nat, n: nat): (from: map<Step, Step>)
    requires n < size
  {
    map k | k in Places(size - 1) :: if k.index < n then k else At(k.index + 1)
  }

  ghost function Pick(kids: map<Step, Tree>, from: map<Step, Step>): map<Step, Tree>
    requires forall k :: k in from ==> from[k] in kids
  {
    map k | k in from :: kids[from[k]]
  }

  ghost predicate IsList(items: seq<Cell>, kids: map<Step, Tree>, j: Json)
  {
    Matches(ListOf(items), kids, j)
  }

  lemma ListShape(items: seq<Cell>, kids: map<Step, Tree>, j: Json)
    requires IsList(items, kids, j)
    ensures j.Arr? && |j.items| == |items| && forall k :: k in kids <==> k.At? && k.index < |items|
    ensures forall i :: 0 <= i < |items| ==> kids[At(i)].cell == items[i]
  {
  }

  lemma InsertShape(items: seq<Cell>, kids: map<Step, Tree>, j: Json, n: nat, tv: Tree, v: Json)
    requires IsList(items, kids, j) && n <= |items|
    ensures j.Arr? && |j.items| == |items| && forall k :: k in BeforeInsert(|items|, n) ==> BeforeInsert(|items|, n)[k] in kids
    ensures IsList(items[..n] + [tv.cell] + items[n..], Pick(kids, BeforeInsert(|items|, n))[At(n) := tv], Arr(j.items[..n] + [v] + j.items[n..]))
  {
    hide IsList, Matches;
    ListShape(items, kids, j);
    var from := BeforeInsert(|items|, n);
    var after := Pick(kids, from)[At(n) := tv];
    var grown := items[..n] + [tv.cell] + items[n..];
    forall i | 0 <= i < |grown|
      ensures At(i) in after && after[At(i)].cell == grown[i]
    {
      if i > n {
        assert from[At(i)] == At(i - 1) && grown[i] == items[i - 1];
      }
    }
    ListFromShape(grown, after, Arr(j.items[..n] + [v] + j.items[n..]));
  }

  lemma ListFromShape(items: seq<Cell>, kids: map<Step, Tree>, j: Json)
    requires j.Arr? && |j.items| == |items| && forall k :: k in kids <==> k.At? && k.index < |items|
    requires forall i :: 0 <= i < |items| ==> At(i) in kids && kids[At(i)].cell == items[i]
    ensures IsList(items, kids, j)
  {
  }

  lemma InsertElement(items: seq<Cell>, kids: map<Step, Tree>, cells: set<Cell>, j: Json, n: nat, tv: Tree, v: Json) returns (after: map<Step, Tree>)
    requires IsList(items, kids, j) && CopiedKids(kids, cells, j) && n <= |items|
    requires Holds(tv, v) && Separate(tv) && Cells(tv) !! cells
    ensures j.Arr? && |j.items| == |items|
    ensures IsList(items[..n] + [tv.cell] + items[n..], after, Arr(j.items[..n] + [v] + j.items[n..]))
    ensures CopiedKids(after, cells + Cells(tv), Arr(j.items[..n] + [v] + j.items[n..]))
  {
    hide Cells, Holds, Separate, CopiedKids, IsList;
    InsertShape(items, kids, j, n, tv, v);
    var from := BeforeInsert(|items|, n);
    var kept := Pick(kids, from);
    var j2 := Arr(j.items[..n] + [v] + j.items[n..]);
    Rearranged(kids, cells, j, kept, from, j2);
    AnotherCopy(kept, cells, j2, At(n), tv);
    after := kept[At(n) := tv];
  }

  lemma SetElement(items: seq<Cell>, kids: map<Step, Tree>, cells: set<Cell>, j: Json, n: nat, tv: Tree, v: Json)
    requires IsList(items, kids, j) && CopiedKids(kids, cells, j) && n < |items|
    requires Holds(tv, v) && Separate(tv) && Cells(tv) !! cells
    ensures j.Arr? && |j.items| == |items|
    ensures IsList(items[n := tv.cell], kids[At(n) := tv], Arr(j.items[n := v]))
    ensures CopiedKids(kids[At(n) := tv], cells + Cells(tv), Arr(j.items[n := v]))
  {
    hide Cells, Holds, Separate, CopiedKids;
    var j2 := Arr(j.items[n := v]);
    var kept := kids - {At(n)};
    Rearranged(kids, cells, j, kept, (map k | k in kept :: k), j2);
    AnotherCopy(kept, cells, j2, At(n), tv);
    assert kept[At(n) := tv] == kids[At(n) := tv];
  }

  lemma DropShape(items: seq<Cell>, kids: map<Step, Tree>, j: Json, n: nat)
    requires IsList(items, kids, j) && n < |items|
    ensures j.Arr? && |j.items| == |items| && forall k :: k in BeforeDrop(|items|, n) ==> BeforeDrop(|items|, n)[k] in kids
    ensures IsList(items[..n] + items[n + 1..], Pick(kids, BeforeDrop(|items|, n)), Arr(j.items[..n] + j.items[n + 1..]))
  {
    hide IsList, Matches;
    ListShape(items, kids, j);
    var from := BeforeDrop(|items|, n);
    var after := Pick(kids, from);
    var shrunk := items[..n] + items[n + 1..];
    forall i | 0 <= i < |shrunk|
      ensures At(i) in after && after[At(i)].cell == shrunk[i]
    {
      if i >= n {
        assert from[At(i)] == At(i + 1) && shrunk[i] == items[i + 1];
      }
    }
    ListFromShape(shrunk, after, Arr(j.items[..n] + j.items[n + 1..]));
  }

  lemma DropElement(items: seq<Cell>, kids: map<Step, Tree>, cells: set<Cell>, j: Json, n: nat) returns (after: map<Step, Tree>)
    requires IsList(items, kids, j) && CopiedKids(kids, cells, j) && n < |items|
    ensures j.Arr? && |j.items| == |items|
    ensures IsList(items[..n] + items[n + 1..], after, Arr(j.items[..n] + j.items[n + 1..]))
    ensures CopiedKids(after, cells, Arr(j.items[..n] + j.items[n + 1..]))
  {
    hide Cells, Holds, Separate, CopiedKids, IsList;
    DropShape(items, kids, j, n);
    var from := BeforeDrop(|items|, n);
    after := Pick(kids, from);
    Rearranged(kids, cells, j, after, from, Arr(j.items[..n] + j.items[n + 1..]));
  }

  // ---- _apply_add, _apply_replace, _apply_remove ----

  /** The cell's new content holds a new value. */
  lemma Changed(parent: Cell, kids: map<Step, Tree>, cells: set<Cell>, j: Json) returns (u: Tree)
    requires CopiedKids(kids, cells, j) && parent !in cells && Matches(parent.content, kids, j)
    ensures u == Tree(parent, kids) && Owns(u, j, parent) && Cells(u) <= cells + {parent}
  {
    hide Cells, Holds, Separate, Matches, CopiedKids;
    u := Tree(parent, kids);
    WholeCopy(parent, kids, cells, j);
  }

  lemma ListMatches(items: seq<Cell>, kids: map<Step, Tree>, j: Json)
    ensures IsList(items, kids, j) <==> Matches(ListOf(items), kids, j)
    ensures IsList(items, kids, j) ==> j.Arr? && |j.items| == |items|
    ensures (exists members :: Matches(DictOf(members), kids, j)) ==> j.Obj?
  {
  }

  /** What kind of value a cell's content says it is. */
  lemma KindOf(content: Content, kids: map<Step, Tree>, j: Json)
    requires Matches(content, kids, j)
    ensures content.DictOf? <==> j.Obj?
    ensures content.ListOf? <==> j.Arr?
    ensures content.DictOf? ==> content.members.Keys == j.fields.Keys
    ensures content.ListOf? ==> |content.items| == |j.items| && IsList(content.items, kids, j)
  {
  }

  method ApplyAdd(parent: Cell, key: string, value: Cell, ghost t: Tree, ghost j: Json, ghost tv: Tree, ghost v: Json)
    returns (failure: Option<PatchError>, ghost u: Tree)
    requires Owns(t, j, parent) && Owns(tv, v, value) && Cells(t) !! Cells(tv)
    modifies parent
    ensures failure.Some? ==> AddInto(j, key, v) == Err(failure.value) && unchanged(parent)
    ensures failure.None? ==> AddInto(j, key, v).Ok? && Owns(u, AddInto(j, key, v).value, parent) && Cells(u) <= Cells(t) + Cells(tv)
  {
    hide Cells, Holds, Separate, Matches, CopiedKids, IsList, ToNat, IsDigits, Enter;
    OwnedKids(t, j, parent);
    KindOf(parent.content, t.kids, j);
    ghost var cells, after := Cells(t) - {parent}, t.kids;
    CellsExist(t);
    CellsExist(tv);
    u := t;
    match parent.content {
      case DictOf(members) =>
        SetMember(members, t.kids, cells, j, key, tv, v);
        parent.content := DictOf(members[key := value]);
        u := Changed(parent, t.kids[Key(key) := tv], cells + Cells(tv), Obj(j.fields[key := v]));
      case ListOf(items) =>
        var n := |items|;
        if key != "-" {
          if !IsDigits(key) {
            return Some(NotAnIndex(key)), t;
          }
          n := ToNat(key);
          if n > |items| {
            return Some(OutOfRange(n)), t;
          }
        } else {
          assert j.items[..n] + [v] + j.items[n..] == j.items + [v];
        }
        after := InsertElement(items, t.kids, cells, j, n, tv, v);
        parent.content := ListOf(items[..n] + [value] + items[n..]);
        ListMatches(items[..n] + [value] + items[n..], after, Arr(j.items[..n] + [v] + j.items[n..]));
        u := Changed(parent, after, cells + Cells(tv), Arr(j.items[..n] + [v] + j.items[n..]));
      case Leaf(_) =>
        return Some(NotAContainer), t;
    }
    return None, u;
  }

  method ApplyReplace(parent: Cell, key: string, value: Cell, ghost t: Tree, ghost j: Json, ghost tv: Tree, ghost v: Json)
    returns (failure: Option<PatchError>, ghost u: Tree)
    requires Owns(t, j, parent) && Owns(tv, v, value) && Cells(t) !! Cells(tv)
    modifies parent
    ensures failure.Some? ==> ReplaceIn(j, key, v) == Err(failure.value) && unchanged(parent)
    ensures failure.None? ==> ReplaceIn(j, key, v).Ok? && Owns(u, ReplaceIn(j, key, v).value, parent) && Cells(u) <= Cells(t) + Cells(tv)
  {
    hide Cells, Holds, Separate, Matches, CopiedKids, IsList, ToNat, IsDigits, Enter;
    OwnedKids(t, j, parent);
    KindOf(parent.content, t.kids, j);
    ghost var cells := Cells(t) - {parent};
    CellsExist(t);
    CellsExist(tv);
    u := t;
    match parent.content {
      case DictOf(members) =>
        if key !in members {
          return Some(TargetMissing(key)), t;
        }
        SetMember(members, t.kids, cells, j, key, tv, v);
        parent.content := DictOf(members[key := value]);
        u := Changed(parent, t.kids[Key(key) := tv], cells + Cells(tv), Obj(j.fields[key := v]));
      case ListOf(items) =>
        if !IsDigits(key) {
          return Some(NotAnIndex(key)), t;
        }
        var n := ToNat(key);
        if n >= |items| {
          return Some(OutOfRange(n)), t;
        }
        SetElement(items, t.kids, cells, j, n, tv, v);
        parent.content := ListOf(items[n := value]);
        ListMatches(items[n := value], t.kids[At(n) := tv], Arr(j.items[n := v]));
        u := Changed(parent, t.kids[At(n) := tv], cells + Cells(tv), Arr(j.items[n := v]));
      case Leaf(_) =>
        return Some(NotAContainer), t;
    }
    return None, u;
  }

  method ApplyRemove(parent: Cell, key: string, ghost t: Tree, ghost j: Json) returns (failure: Option<PatchError>, ghost u: Tree)
    requires Owns(t, j, parent)
    modifies parent
    ensures failure.Some? ==> RemoveFrom(j, key) == Err(failure.value) && unchanged(parent)
    ensures failure.None? ==> RemoveFrom(j, key).Ok? && Owns(u, RemoveFrom(j, key).value, parent) && Cells(u) <= Cells(t)
  {
    hide Cells, Holds, Separate, Matches, CopiedKids, IsList, ToNat, IsDigits, Enter;
    OwnedKids(t, j, parent);
    KindOf(parent.content, t.kids, j);
    ghost var cells, after := Cells(t) - {parent}, t.kids;
    CellsExist(t);
    u := t;
    match parent.content {
      case DictOf(members) =>
        if key !in members {
          return Some(TargetMissing(key)), t;
        }
        DropMember(members, t.kids, cells, j, key);
        parent.content := DictOf(members - {key});
        u := Changed(parent, t.kids - {Key(key)}, cells, Obj(j.fields - {key}));
      case ListOf(items) =>
        if !IsDigits(key) {
          return Some(NotAnIndex(key)), t;
        }
        var n := ToNat(key);
        if n >= |items| {
          return Some(OutOfRange(n)), t;
        }
        after := DropElement(items, t.kids, cells, j, n);
        parent.content := ListOf(items[..n] + items[n + 1..]);
        ListMatches(items[..n] + items[n + 1..], after, Arr(j.items[..n] + j.items[n + 1..]));
        u := Changed(parent, after, cells, Arr(j.items[..n] + j.items[n + 1..]));
      case Leaf(_) =>
        return Some(NotAContainer), t;
    }
    return None, u;
  }

  // ---- _resolve_parent ----

  /** The tree at the parent of the tokens. */
  ghost function ParentTree(t: Tree, j: Json, tokens: seq<string>): Option<Tree>
    requires tokens != []
  {
    if ParentExists(j, tokens) then Descend(t, Locate(j, ParentOf(tokens))) else None
  }

  /** One token down from a container. */
  method Follow(cell: Cell, token: string, ghost t: Tree, ghost j: Json) returns (r: Result<Cell, PatchError>)
    requires Holds(t, j) && t.cell == cell
    ensures r.Ok? <==> Child(j, token).Ok?
    ensures r.Err? ==> Child(j, token) == Err(r.error)
    ensures r.Ok? ==> StepOf(j, token) in t.kids && r.value == t.kids[StepOf(j, token)].cell
                      && Holds(t.kids[StepOf(j, token)], Child(j, token).value)
  {
    hide Holds, Matches, ToNat, IsDigits, IsList;
    RootMatches(t, j);
    KindOf(cell.content, t.kids, j);
    match cell.content {
      case DictOf(members) =>
        if token !in members {
          return Err(PathNotFound(token));
        }
        KidHolds(t, j, Key(token));
        return Ok(members[token]);
      case ListOf(items) =>
        if !IsDigits(token) {
          return Err(NotAnIndex(token));
        }
        var n := ToNat(token);
        if n >= |items| {
          return Err(OutOfRange(n));
        }
        KidHolds(t, j, At(n));
        return Ok(items[n]);
      case Leaf(_) =>
        return Err(NotAContainer);
    }
  }

  /** What is reached from the rest of the tokens. */
  lemma OneStepDown(t: Tree, j: Json, tokens: seq<string>)
    requires |tokens| > 1
    ensures Child(j, tokens[0]).Err? ==> !ParentExists(j, tokens) && forall op :: ApplyAt(op, j, tokens) == Err(Child(j, tokens[0]).error)
    ensures Child(j, tokens[0]).Ok? && StepOf(j, tokens[0]) in t.kids ==>
              var child, kid := Child(j, tokens[0]).value, t.kids[StepOf(j, tokens[0])];
              && (ParentExists(j, tokens) <==> ParentExists(child, tokens[1..]))
              && ParentTree(t, j, tokens) == ParentTree(kid, child, tokens[1..])
              && (forall op :: ApplyAt(op, child, tokens[1..]).Err? ==> ApplyAt(op, j, tokens) == ApplyAt(op, child, tokens[1..]))
  {
    hide Child, WithChild, StepOf;
    ParentBelow(j, tokens);
    assert ParentOf(tokens)[1..] == ParentOf(tokens[1..]);
  }

  method ResolveParent(root: Cell, tokens: seq<string>, ghost t: Tree, ghost j: Json) returns (r: Result<Cell, PatchError>, ghost at: Tree)
    requires tokens != [] && Holds(t, j) && t.cell == root
    ensures r.Ok? <==> ParentExists(j, tokens)
    ensures r.Ok? ==> ParentTree(t, j, tokens) == Some(at) && at.cell == r.value
    ensures r.Err? ==> forall op :: ApplyAt(op, j, tokens) == Err(r.error)
  {
    hide Holds, ParentTree, ParentExists, ApplyAt, Child, StepOf;
    var parent := root;
    at := t;
    ghost var value := j;
    assert tokens[0..] == tokens;
    for i := 0 to |tokens| - 1
      invariant Holds(at, value) && at.cell == parent
      invariant ParentExists(j, tokens) <==> ParentExists(value, tokens[i..])
      invariant ParentTree(t, j, tokens) == ParentTree(at, value, tokens[i..])
      invariant forall op :: ApplyAt(op, value, tokens[i..]).Err? ==> ApplyAt(op, j, tokens) == ApplyAt(op, value, tokens[i..])
    {
      assert tokens[i..][1..] == tokens[i + 1..];
      OneStepDown(at, value, tokens[i..]);
      var next := Follow(parent, tokens[i], at, value);
      if next.Err? {
        return Err(next.error), at;
      }
      parent := next.value;
      value, at := Child(value, tokens[i]).value, at.kids[StepOf(value, tokens[i])];
    }
    AtParent(at, value, tokens[|tokens| - 1..]);
    return Ok(parent), at;
  }

  lemma AtParent(t: Tree, j: Json, tokens: seq<string>)
    requires |tokens| == 1
    ensures ParentExists(j, tokens) && ParentTree(t, j, tokens) == Some(t)
  {
  }

  // ---- One operation ----

  /** An operation whose value is a reference. */
  datatype HeapOp =
    | HeapAdd(path: string, value: Cell)
    | HeapReplace(path: string, value: Cell)
    | HeapRemove(path: string)

  /** The operation's value is the one of op, as a tree of cells. */
  ghost predicate OpIs(h: HeapOp, op: PatchOp, tv: Tree)
    reads Cells(tv)
  {
    match h
    case HeapAdd(path, value) => op.Add? && op.path == path && Owns(tv, op.value, value)
    case HeapReplace(path, value) => op.Replace? && op.path == path && Owns(tv, op.value, value)
    case HeapRemove(path) => op.Remove? && op.path == path
  }

  method IsValid(h: HeapOp, ghost op: PatchOp, ghost tv: Tree) returns (valid: bool)
    requires OpIs(h, op, tv)
    ensures valid == ValidOp(op)
  {
    valid := h.path != "" && h.path[0] == '/' && (h.HeapRemove? || h.value.content != Leaf(Null));
    if !h.HeapRemove? { RootMatches(tv, op.value); }
  }

  /** The operation on its parent, with a deep copy of its value. */
  method ChangeParent(h: HeapOp, parent: Cell, key: string, ghost op: PatchOp, ghost tv: Tree, ghost t: Tree, ghost j: Json)
    returns (failure: Option<PatchError>, ghost u: Tree, ghost news: set<Cell>)
    requires OpIs(h, op, tv) && Owns(t, j, parent)
    modifies parent
    ensures failure.Some? ==> ApplyInto(op, j, key) == Err(failure.value)
    ensures failure.None? ==> ApplyInto(op, j, key).Ok? && Owns(u, ApplyInto(op, j, key).value, parent)
                              && Cells(u) <= Cells(t) + news && fresh(news)
  {
    hide Cells, Holds, Separate, AddInto, ReplaceIn, RemoveFrom;
    news := {};
    CellsExist(t);
    match h {
      case HeapAdd(_, value) =>
        var copy;
        ghost var tc;
        copy, tc := DeepCopy(value, tv, op.value);
        news := Cells(tc);
        failure, u := ApplyAdd(parent, key, copy, t, j, tc, op.value);
      case HeapReplace(_, value) =>
        var copy;
        ghost var tc;
        copy, tc := DeepCopy(value, tv, op.value);
        news := Cells(tc);
        failure, u := ApplyReplace(parent, key, copy, t, j, tc, op.value);
      case HeapRemove(_) =>
        failure, u := ApplyRemove(parent, key, t, j);
    }
  }

  lemma {:induction false} FailsAsParent(op: PatchOp, j: Json, tokens: seq<string>)
    requires tokens != [] && ParentExists(j, tokens) && ApplyInto(op, Parent(j, tokens), LastOf(tokens)).Err?
    ensures ApplyAt(op, j, tokens) == Err(ApplyInto(op, Parent(j, tokens), LastOf(tokens)).error)
    decreases |tokens|
  {
    hide ApplyInto;
    if |tokens| > 1 {
      ParentBelow(j, tokens);
      FailsAsParent(op, Child(j, tokens[0]).value, tokens[1..]);
    }
  }

  /** What has to be known around the parent before it is changed. */
  lemma BeforeChange(t: Tree, j: Json, root: Cell, tokens: seq<string>, at: Tree)
    requires tokens != [] && Owns(t, j, root) && ParentTree(t, j, tokens) == Some(at)
    ensures ParentExists(j, tokens) && Owns(at, Parent(j, tokens), at.cell) && Cells(at) <= Cells(t)
    ensures var loc := Locate(j, ParentOf(tokens));
            Descend(t, loc) == Some(at) && HoldsAround(t, j, loc) && Around(t, loc) <= Cells(t) - Cells(at)
  {
    hide Cells, Holds, Separate, Around, HoldsAround, Descend;
    var loc := Locate(j, ParentOf(tokens));
    DescendHolds(t, j, loc);
    Focus(t, j, loc);
    AroundAvoids(t, loc);
  }

  /** The whole after the parent has changed. */
  lemma AfterChange(t: Tree, j: Json, root: Cell, tokens: seq<string>, at: Tree, op: PatchOp, u: Tree, news: set<Cell>) returns (whole: Tree)
    requires tokens != [] && Separate(t) && t.cell == root && ParentExists(j, tokens) && news !! Cells(t)
    requires var loc := Locate(j, ParentOf(tokens)); Descend(t, loc) == Some(at) && HoldsAround(t, j, loc)
    requires ApplyInto(op, Parent(j, tokens), LastOf(tokens)).Ok?
    requires Owns(u, ApplyInto(op, Parent(j, tokens), LastOf(tokens)).value, at.cell) && Cells(u) <= Cells(at) + news
    ensures ApplyAt(op, j, tokens).Ok? && Owns(whole, ApplyAt(op, j, tokens).value, root) && Cells(whole) <= Cells(t) + news
  {
    hide Cells, Holds, Separate, HoldsAround, Descend, ApplyInto, ApplyAt, PutTree;
    var loc := Locate(j, ParentOf(tokens));
    ActsOnParent(op, j, tokens);
    Refocus(t, j, loc, u, ApplyInto(op, Parent(j, tokens), LastOf(tokens)).value);
    PutSeparate(t, loc, u, news);
    whole := PutTree(t, loc, u);
  }

  method ApplyOperation(result: Cell, h: HeapOp, index: nat, ghost op: PatchOp, ghost tv: Tree, ghost t: Tree, ghost j: Json)
    returns (failure: Option<PatchError>, ghost u: Tree)
    requires OpIs(h, op, tv) && Owns(t, j, result)
    modifies Cells(t)
    ensures failure.Some? ==> ApplyOp(op, index, j) == Err(failure.value)
    ensures failure.None? ==> ApplyOp(op, index, j).Ok? && Owns(u, ApplyOp(op, index, j).value, result) && fresh(Cells(u) - Cells(t))
  {
    hide Cells, Holds, Separate, ApplyAt, ApplyInto, Decode, Around, HoldsAround, Descend, ParentTree, ParentExists, ValidOp;
    CellsExist(t);
    CellsExist(tv);
    u := t;
    var valid := IsValid(h, op, tv);
    if !valid {
      return Some(InvalidOp(index)), t;
    }
    PathDecodes(op);
    var tokens := Decode(h.path).value;
    assert tokens == TokensOf(op);
    var resolved;
    ghost var at;
    resolved, at := ResolveParent(result, tokens, t, j);
    if resolved.Err? {
      return Some(resolved.error), t;
    }
    BeforeChange(t, j, result, tokens, at);
    ghost var part, news;
    failure, part, news := ChangeParent(h, resolved.value, LastOf(tokens), op, tv, at, Parent(j, tokens));
    if failure.Some? {
      FailsAsParent(op, j, tokens);
      return failure, t;
    }
    u := AfterChange(t, j, result, tokens, at, op, part, news);
  }

  lemma PathDecodes(op: PatchOp)
    requires ValidOp(op)
    ensures Decode(op.path).Ok? && Decode(op.path).value == TokensOf(op) && TokensOf(op) != []
  {
    hide Split;
  }

  // ---- apply_patch ----

  ghost predicate OpsAre(hs: seq<HeapOp>, ops: seq<PatchOp>, trees: seq<Tree>, cells: set<Cell>)
    reads cells
  {
    |hs| == |ops| == |trees| && forall i :: 0 <= i < |hs| ==> Cells(trees[i]) <= cells && OpIs(hs[i], ops[i], trees[i])
  }

  /** `apply_patch`: the operations change a deep copy of the state in place. The result is a new value on new
      cells, the one the operations on values give; neither the state nor the operations' values change. */
  method ApplyPatchInPlace(state: Cell, hs: seq<HeapOp>, ghost t: Tree, ghost j: Json, ghost ops: seq<PatchOp>, ghost trees: seq<Tree>, ghost inputs: set<Cell>)
    returns (r: Result<Cell, PatchError>, ghost u: Tree)
    requires Owns(t, j, state) && OpsAre(hs, ops, trees, inputs)
    ensures r.Err? ==> ApplyPatch(j, ops) == Err(r.error)
    ensures r.Ok? ==> ApplyPatch(j, ops).Ok? && Owns(u, ApplyPatch(j, ops).value, r.value) && fresh(Cells(u))
    ensures Owns(t, j, state) && OpsAre(hs, ops, trees, inputs)
  {
    hide Cells, Holds, Separate, ApplyOp, OpIs;
    CellsExist(t);
    var result;
    result, u := DeepCopy(state, t, j);
    ghost var value, owned := j, Cells(u);
    assert ops[0..] == ops;
    for i := 0 to |hs|
      invariant Owns(u, value, result) && Cells(u) <= owned && fresh(owned)
      invariant ApplyOps(ops[i..], i, value) == ApplyOps(ops, 0, j)
      invariant forall c :: c in inputs ==> unchanged(c)
    {
      assert ops[i..][1..] == ops[i + 1..];
      var failure;
      ghost var next;
      label Before:
      failure, next := ApplyOperation(result, hs[i], i, ops[i], trees[i], u, value);
      if failure.Some? {
        return Err(failure.value), u;
      }
      assert forall c :: c in Cells(next) - Cells(u) ==> !old@Before(allocated(c));
      owned := owned + (Cells(next) - Cells(u));
      u, value := next, ApplyOp(ops[i], i, value).value;
    }
    return Ok(result), u;
  }
}
