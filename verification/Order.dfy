/** Deterministic orders: strings by code point, and the executor's
    (priority, node_id) tie-break, together with the sort that uses them. */
module Order {
  import opened Sorting

  function Min(a: int, b: int): int
  {
    if a <= b then a else b
  }

  /** Lexicographic order on strings, as Python compares them. */
  predicate StrLess(a: string, b: string)
  {
    |b| > 0 && (|a| == 0 || a[0] < b[0] || (a[0] == b[0] && StrLess(a[1..], b[1..])))
  }

  lemma {:induction false} StrLessTotal(a: string, b: string)
    ensures a == b || StrLess(a, b) || StrLess(b, a)
    ensures !(StrLess(a, b) && StrLess(b, a))
    ensures a == b ==> !StrLess(a, b)
  {
    if |a| > 0 && |b| > 0 && a[0] == b[0] {
      StrLessTotal(a[1..], b[1..]);
      assert a == [a[0]] + a[1..] && b == [b[0]] + b[1..];
    }
  }

  lemma {:induction false} StrLessTrans(a: string, b: string, c: string)
    requires StrLess(a, b) && StrLess(b, c)
    ensures StrLess(a, c)
  {
    if |a| > 0 && a[0] == b[0] && b[0] == c[0] {
      StrLessTrans(a[1..], b[1..], c[1..]);
    }
  }

  /** A proper prefix sorts first, so a pointer sorts before its descendants. */
  lemma {:induction false} PrefixSortsFirst(a: string, b: string)
    requires a <= b && a != b
    ensures StrLess(a, b)
  {
    if |a| > 0 {
      assert a == [a[0]] + a[1..] && b == [b[0]] + b[1..];
      PrefixSortsFirst(a[1..], b[1..]);
    }
  }

  /** The (priority, node_id) order. */
  predicate Before(prio: map<string, int>, a: string, b: string)
    requires a in prio && b in prio
  {
    prio[a] < prio[b] || (prio[a] == prio[b] && StrLess(a, b))
  }

  lemma BeforeTotal(prio: map<string, int>, a: string, b: string)
    requires a in prio && b in prio
    ensures a == b || Before(prio, a, b) || Before(prio, b, a)
    ensures !(Before(prio, a, b) && Before(prio, b, a))
    ensures a == b ==> !Before(prio, a, b)
  {
    StrLessTotal(a, b);
  }

  lemma BeforeTrans(prio: map<string, int>, a: string, b: string, c: string)
    requires a in prio && b in prio && c in prio
    requires Before(prio, a, b) && Before(prio, b, c)
    ensures Before(prio, a, c)
  {
    if prio[a] == prio[b] == prio[c] {
      StrLessTrans(a, b, c);
    }
  }

  predicate Known(prio: map<string, int>, s: seq<string>)
  {
    forall i :: 0 <= i < |s| ==> s[i] in prio
  }

  predicate Distinct<T(==)>(s: seq<T>)
  {
    forall i, j :: 0 <= i < j < |s| ==> s[i] != s[j]
  }

  /** Strictly increasing in the (priority, node_id) order. */
  predicate Sorted(prio: map<string, int>, s: seq<string>)
    requires Known(prio, s)
  {
    forall i, j :: 0 <= i < j < |s| ==> Before(prio, s[i], s[j])
  }

  function ToSet<T(!new)>(s: seq<T>): (r: set<T>)
    ensures forall x :: x in r <==> x in s
  {
    set x | x in s
  }

  lemma {:induction false} DistinctSize<T(!new)>(s: seq<T>)
    ensures |ToSet(s)| <= |s|
    ensures Distinct(s) <==> |ToSet(s)| == |s|
  {
    if |s| > 0 {
      var t := s[..|s| - 1];
      var x := s[|s| - 1];
      DistinctSize(t);
      assert s == t + [x];
      assert ToSet(s) == ToSet(t) + {x};
      if x !in t {
        assert Distinct(t) ==> Distinct(s);
        assert Distinct(s) ==> Distinct(t);
      } else {
        var i :| 0 <= i < |t| && t[i] == x;
        assert s[i] == s[|t|];
      }
    }
  }

  lemma DistinctConcat<T(!new)>(a: seq<T>, b: seq<T>)
    ensures Distinct(a + b) <==> Distinct(a) && Distinct(b) && forall x :: x in a ==> x !in b
  {
    var c := a + b;
    if Distinct(c) {
      forall i, j | 0 <= i < j < |b|
        ensures b[i] != b[j]
      {
        assert c[|a| + i] == b[i] && c[|a| + j] == b[j];
      }
      forall x | x in a
        ensures x !in b
      {
        var i :| 0 <= i < |a| && a[i] == x;
        forall j | 0 <= j < |b|
          ensures b[j] != x
        {
          assert c[i] == x && c[|a| + j] == b[j];
        }
      }
      forall i, j | 0 <= i < j < |a|
        ensures a[i] != a[j]
      {
        assert c[i] == a[i] && c[j] == a[j];
      }
    }
    if Distinct(a) && Distinct(b) && forall x :: x in a ==> x !in b {
      forall i, j | 0 <= i < j < |c|
        ensures c[i] != c[j]
      {
        if i < |a| <= j { assert a[i] in a && b[j - |a|] in b; }
      }
    }
  }

  lemma {:induction false} SubsetSize<T>(a: set<T>, b: set<T>)
    requires a <= b
    ensures |a| <= |b|
    ensures |a| == |b| ==> a == b
  {
    if a != {} {
      var x :| x in a;
      SubsetSize(a - {x}, b - {x});
    }
  }

  /** Python's comparison by the key (priority, nid); an unknown id has no key. */
  function ByPriority(prio: map<string, int>): (string, string) -> bool
  {
    (a, b) => KeyLess(prio, a, b)
  }

  predicate KeyLess(prio: map<string, int>, a: string, b: string)
  {
    var (p, q) := (if a in prio then prio[a] else 0, if b in prio then prio[b] else 0);
    p < q || (p == q && StrLess(a, b))
  }

  lemma PrioritiesOrder(prio: map<string, int>)
    ensures StrictOrder(ByPriority(prio))
  {
    forall a, b, c
      ensures OrdersThree(ByPriority(prio), a, b, c)
    {
      StringsOrder(a, b, c);
    }
  }

  lemma StringsOrder(a: string, b: string, c: string)
    ensures a == b || StrLess(a, b) || StrLess(b, a)
    ensures OrdersThree(StrLess, a, b, c)
  {
    StrLessTotal(a, b);
    StrLessTotal(b, c);
    StrLessTotal(a, c);
    if StrLess(a, b) && StrLess(b, c) { StrLessTrans(a, b, c); }
  }

  /** Python's `sort(key=lambda nid: (priority, nid))`. */
  function SortIds(prio: map<string, int>, s: seq<string>): (r: seq<string>)
    requires Known(prio, s)
    ensures multiset(r) == multiset(s)
    ensures |r| == |s|
    ensures Known(prio, r)
  {
    var r := SortBy(ByPriority(prio), s);
    MultisetMembers(r, s);
    assert forall i :: 0 <= i < |r| ==> r[i] in s;
    r
  }

  /** Sorting distinct ids gives a strictly increasing permutation. */
  lemma SortIdsSorted(prio: map<string, int>, s: seq<string>)
    requires Known(prio, s) && Distinct(s)
    ensures Sorted(prio, SortIds(prio, s))
    ensures Distinct(SortIds(prio, s))
    ensures forall x :: x in SortIds(prio, s) <==> x in s
  {
    var r := SortIds(prio, s);
    PrioritiesOrder(prio);
    SortInOrder(ByPriority(prio), s);
    DistinctSize(s);
    DistinctSize(r);
    assert ToSet(r) == ToSet(s);
    forall i, j | 0 <= i < j < |r|
      ensures Before(prio, r[i], r[j])
    {
      BeforeTotal(prio, r[i], r[j]);
    }
  }

  /** A strictly sorted sequence is determined by its elements. */
  lemma {:induction false} SortedUnique(prio: map<string, int>, a: seq<string>, b: seq<string>)
    requires Known(prio, a) && Known(prio, b)
    requires Sorted(prio, a) && Sorted(prio, b)
    requires |a| == |b| && forall x :: x in a <==> x in b
    ensures a == b
  {
    if |a| == 0 {
    } else {
      assert a[0] in b && (|b| > 0 ==> b[0] in a);
      var i :| 0 <= i < |b| && b[i] == a[0];
      var j :| 0 <= j < |a| && a[j] == b[0];
      BeforeTotal(prio, a[0], b[0]);
      assert a[0] == b[0];
      forall x
        ensures x in a[1..] <==> x in b[1..]
      {
        BeforeTotal(prio, a[0], a[0]);
        assert x in a[1..] ==> x in a && x != a[0];
        assert x in b[1..] ==> x in b && x != b[0];
        assert x in a && x != a[0] ==> x in a[1..];
        assert x in b && x != b[0] ==> x in b[1..];
      }
      SortedUnique(prio, a[1..], b[1..]);
      assert a == [a[0]] + a[1..] && b == [b[0]] + b[1..];
    }
  }

  /** Plain `sorted(strings)`: the same sort with equal priorities. */
  function SortStrings(s: seq<string>): (r: seq<string>)
    ensures multiset(r) == multiset(s)
    ensures |r| == |s|
  {
    SortIds(map x | x in s :: 0, s)
  }

  predicate StrSorted(s: seq<string>)
  {
    forall i, j :: 0 <= i < j < |s| ==> StrLess(s[i], s[j])
  }

  lemma SortStringsSorted(s: seq<string>)
    requires Distinct(s)
    ensures StrSorted(SortStrings(s))
    ensures forall x :: x in SortStrings(s) <==> x in s
  {
    var prio := map x | x in s :: 0;
    SortIdsSorted(prio, s);
    var r := SortStrings(s);
    forall i, j | 0 <= i < j < |r|
      ensures StrLess(r[i], r[j])
    {
      assert Before(prio, r[i], r[j]);
    }
  }

  lemma SortedIsDistinct(s: seq<string>)
    requires StrSorted(s)
    ensures Distinct(s)
  {
    forall i, j | 0 <= i < j < |s|
      ensures s[i] != s[j]
    {
      StrLessTotal(s[i], s[j]);
    }
  }

  /** A set's elements, sorted. */
  method SortedElements(s: set<string>) returns (r: seq<string>)
    ensures StrSorted(r) && Distinct(r) && forall x :: x in r <==> x in s
  {
    r := [];
    var rest := s;
    while rest != {}
      invariant Distinct(r) && rest <= s
      invariant forall x :: x in s <==> x in r || x in rest
      invariant forall x :: x in r ==> x !in rest
      decreases rest
    {
      var x :| x in rest;
      r := r + [x];
      rest := rest - {x};
    }
    SortStringsSorted(r);
    SortedIsDistinct(SortStrings(r));
    r := SortStrings(r);
  }

  /** Python's `s[:m]`, for negative m too. */
  function TakeSlice<T>(s: seq<T>, m: int): (r: seq<T>)
    ensures r <= s
    ensures |r| == if m >= 0 then Min(m, |s|) else if |s| + m > 0 then |s| + m else 0
  {
    if m >= |s| then s else if m >= 0 then s[..m] else if m >= -|s| then s[..|s| + m] else []
  }
}
