/** A stable insertion sort by any strict order, as Python's `sort` orders its result. */
module Sorting {

  /** Before the first element that is not less. */
  function InsertBy<T>(less: (T, T) -> bool, x: T, s: seq<T>): (r: seq<T>)
    ensures multiset(r) == multiset(s) + multiset{x}
  {
    if |s| == 0 || !less(s[0], x) then [x] + s
    else
      assert s == [s[0]] + s[1..];
      [s[0]] + InsertBy(less, x, s[1..])
  }

  function SortBy<T>(less: (T, T) -> bool, s: seq<T>): (r: seq<T>)
    ensures multiset(r) == multiset(s)
    ensures |r| == |s|
  {
    if |s| == 0 then []
    else
      assert s == [s[0]] + s[1..];
      var r := InsertBy(less, s[0], SortBy(less, s[1..]));
      assert |multiset(r)| == |multiset(s)|;
      r
  }

  /** Neither less in both directions, and not being less carries over. */
  ghost predicate StrictOrder<T(!new)>(less: (T, T) -> bool)
  {
    forall a, b, c :: OrdersThree(less, a, b, c)
  }

  predicate OrdersThree<T>(less: (T, T) -> bool, a: T, b: T, c: T)
  {
    !(less(a, b) && less(b, a)) && (!less(b, a) && !less(c, b) ==> !less(c, a))
  }

  ghost predicate InOrder<T>(less: (T, T) -> bool, s: seq<T>)
  {
    forall i, j :: 0 <= i < j < |s| ==> !less(s[j], s[i])
  }

  lemma MultisetMembers<T(!new)>(a: seq<T>, b: seq<T>)
    requires multiset(a) == multiset(b)
    ensures forall x :: x in a <==> x in b
  {
    forall x
      ensures x in a <==> x in b
    {
      assert x in a <==> x in multiset(a);
    }
  }

  lemma {:induction false} InsertInOrder<T(!new)>(less: (T, T) -> bool, x: T, s: seq<T>)
    requires StrictOrder(less) && InOrder(less, s)
    ensures InOrder(less, InsertBy(less, x, s))
  {
    if |s| == 0 {
    } else if !less(s[0], x) {
      forall j | 0 <= j < |s|
        ensures !less(s[j], x)
      {
        assert OrdersThree(less, x, s[0], s[j]);
      }
    } else {
      InsertInOrder(less, x, s[1..]);
      assert OrdersThree(less, s[0], x, x);
      var t := InsertBy(less, x, s[1..]);
      forall j | 0 <= j < |t|
        ensures !less(t[j], s[0])
      {
        assert t[j] in multiset(s[1..]) + multiset{x};
        if t[j] != x { assert t[j] in s[1..]; }
      }
    }
  }

  /** Sorting gives a permutation in order. */
  lemma {:induction false} SortInOrder<T(!new)>(less: (T, T) -> bool, s: seq<T>)
    requires StrictOrder(less)
    ensures InOrder(less, SortBy(less, s))
    ensures forall x :: x in SortBy(less, s) <==> x in s
  {
    MultisetMembers(SortBy(less, s), s);
    if |s| > 0 {
      SortInOrder(less, s[1..]);
      InsertInOrder(less, s[0], SortBy(less, s[1..]));
    }
  }
}
