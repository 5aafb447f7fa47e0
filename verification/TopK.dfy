/** Keyword search over stored chunks, and the over-fetched, filtered query on top of it
    (memory/sqlite_memory_store.py, tools/memory_tools.py). */
module TopK {
  import opened Order
  import opened Sorting
  import opened Text
  import opened Wrappers

  datatype Row = Row(id: string, text: string, sourceKind: Option<string>, visibility: Option<string>)

  datatype Scored = Scored(score: nat, row: Row)

  datatype Filters = Filters(sourceKinds: seq<string>, visibilities: seq<string>)

  // ---- Scoring ----

  /** `text.count(word)`: occurrences from the left, without overlaps. */
  function CountWord(text: string, word: string): nat
    requires word != ""
    decreases |text|
  {
    if |text| < |word| then 0
    else if word <= text then 1 + CountWord(text[|word|..], word)
    else CountWord(text[1..], word)
  }

  predicate NonEmpty(words: seq<string>)
  {
    forall i :: 0 <= i < |words| ==> words[i] != ""
  }

  function Score(text: string, words: seq<string>): nat
    requires NonEmpty(words)
  {
    if words == [] then 0 else CountWord(Lower(text), words[0]) + Score(text, words[1..])
  }

  /** Places where the word stands in the text, none of them overlapping. */
  predicate Disjoint(text: string, word: string, at: seq<nat>)
  {
    && (forall i :: 0 <= i < |at| ==> OccursAt(text, word, at[i]))
    && (forall i, j :: 0 <= i < j < |at| ==> at[i] + |word| <= at[j])
  }

  function Shift(at: seq<nat>, d: nat): (r: seq<nat>)
    ensures |r| == |at| && forall i :: 0 <= i < |at| ==> r[i] == at[i] + d
  {
    seq(|at|, i requires 0 <= i < |at| => at[i] + d)
  }

  lemma OccursLater(text: string, word: string, d: nat, i: nat)
    requires d <= |text|
    ensures OccursAt(text[d..], word, i) <==> OccursAt(text, word, i + d)
  {
    if d + i + |word| <= |text| { assert text[d..][i..i + |word|] == text[i + d..i + d + |word|]; }
  }

  lemma DisjointLater(text: string, word: string, d: nat, at: seq<nat>)
    requires d <= |text| && Disjoint(text[d..], word, at)
    ensures Disjoint(text, word, Shift(at, d))
  {
    forall i | 0 <= i < |at|
      ensures OccursAt(text, word, Shift(at, d)[i])
    {
      OccursLater(text, word, d, at[i]);
    }
  }

  /** The count is reached by some places that do not overlap. */
  lemma {:induction false} CountIsReached(text: string, word: string) returns (at: seq<nat>)
    requires word != ""
    ensures Disjoint(text, word, at) && |at| == CountWord(text, word)
    decreases |text|
  {
    if |text| < |word| {
      at := [];
    } else if word <= text {
      var rest := CountIsReached(text[|word|..], word);
      DisjointLater(text, word, |word|, rest);
      assert text[0..0 + |word|] == word;
      assert OccursAt(text, word, 0);
      at := [0] + Shift(rest, |word|);
    } else {
      var rest := CountIsReached(text[1..], word);
      DisjointLater(text, word, 1, rest);
      at := Shift(rest, 1);
    }
  }

  /** And no more places do. */
  lemma {:induction false} CountIsMost(text: string, word: string, at: seq<nat>)
    requires word != "" && Disjoint(text, word, at)
    ensures |at| <= CountWord(text, word)
    decreases |text|
  {
    if at != [] {
      assert OccursAt(text, word, at[0]);
      if word <= text {
        var rest := at[1..];
        assert forall i :: 0 <= i < |rest| ==> rest[i] >= at[0] + |word|;
        var back := seq(|rest|, i requires 0 <= i < |rest| => rest[i] - |word|);
        forall i | 0 <= i < |back|
          ensures OccursAt(text[|word|..], word, back[i])
        {
          assert OccursAt(text, word, rest[i]);
          OccursLater(text, word, |word|, back[i]);
        }
        CountIsMost(text[|word|..], word, back);
      } else {
        FirstIsLater(text, word, at);
        var back := seq(|at|, i requires 0 <= i < |at| => at[i] - 1);
        forall i | 0 <= i < |back|
          ensures OccursAt(text[1..], word, back[i])
        {
          OccursLater(text, word, 1, back[i]);
        }
        CountIsMost(text[1..], word, back);
      }
    }
  }

  lemma FirstIsLater(text: string, word: string, at: seq<nat>)
    requires word != "" && Disjoint(text, word, at) && !(word <= text)
    ensures forall i :: 0 <= i < |at| ==> at[i] >= 1
  {
    forall i | 0 <= i < |at|
      ensures at[i] >= 1
    {
      assert OccursAt(text, word, at[i]);
      assert at[i] == 0 ==> word <= text;
    }
  }

  /** The score adds up the counts of the words. */
  lemma {:induction false} ScoreAdds(text: string, a: seq<string>, b: seq<string>)
    requires NonEmpty(a) && NonEmpty(b)
    ensures NonEmpty(a + b) && Score(text, a + b) == Score(text, a) + Score(text, b)
    ensures forall word :: word != "" ==> Score(text, [word]) == CountWord(Lower(text), word)
  {
    hide CountWord, Lower;
    forall word | word != ""
      ensures Score(text, [word]) == CountWord(Lower(text), word)
    {
      assert [word][1..] == [];
    }
    if a == [] {
      assert a + b == b;
    } else {
      ScoreAdds(text, a[1..], b);
      assert (a + b)[1..] == a[1..] + b;
    }
  }

  // ---- Ranking ----

  /** Higher score first, then the chunk id. */
  predicate RanksBefore(a: Scored, b: Scored)
  {
    a.score > b.score || (a.score == b.score && StrLess(a.row.id, b.row.id))
  }

  predicate Ranked(s: seq<Scored>)
  {
    forall i, j :: 0 <= i < j < |s| ==> RanksBefore(s[i], s[j])
  }

  predicate UniqueRowIds(rows: seq<Row>)
  {
    forall i, j :: 0 <= i < j < |rows| ==> rows[i].id != rows[j].id
  }

  lemma RanksOrder()
    ensures StrictOrder(RanksBefore)
  {
    forall a, b, c
      ensures OrdersThree(RanksBefore, a, b, c)
    {
      StringsOrder(a.row.id, b.row.id, c.row.id);
    }
  }

  predicate UniqueScoredIds(s: seq<Scored>)
  {
    forall i, j :: 0 <= i < j < |s| ==> s[i].row.id != s[j].row.id
  }

  lemma SortRanked(s: seq<Scored>)
    requires UniqueScoredIds(s)
    ensures Ranked(SortBy(RanksBefore, s))
    ensures forall x :: x in SortBy(RanksBefore, s) <==> x in s
  {
    var r := SortBy(RanksBefore, s);
    RanksOrder();
    SortInOrder(RanksBefore, s);
    DistinctSize(s);
    DistinctSize(r);
    assert ToSet(r) == ToSet(s);
    forall i, j | 0 <= i < j < |r|
      ensures RanksBefore(r[i], r[j])
    {
      assert r[i] in s && r[j] in s;
      StrLessTotal(r[i].row.id, r[j].row.id);
    }
  }

  // ---- search_keyword_topk ----

  /** The rows some word occurs in, with their scores, in store order. */
  function Hits(rows: seq<Row>, words: seq<string>): (s: seq<Scored>)
    requires NonEmpty(words)
    ensures forall x :: x in s <==> x.row in rows && x.score == Score(x.row.text, words) && x.score > 0
  {
    if rows == [] then []
    else
      var row := rows[|rows| - 1];
      assert rows == rows[..|rows| - 1] + [row];
      Hits(rows[..|rows| - 1], words)
      + if Score(row.text, words) > 0 then [Scored(Score(row.text, words), row)] else []
  }

  lemma {:induction false} HitsUnique(rows: seq<Row>, words: seq<string>)
    requires UniqueRowIds(rows) && NonEmpty(words)
    ensures UniqueScoredIds(Hits(rows, words))
  {
    hide Score;
    if rows != [] {
      var n := |rows| - 1;
      HitsUnique(rows[..n], words);
      forall x | x in Hits(rows[..n], words)
        ensures x.row.id != rows[n].id
      {
        assert x.row in rows[..n];
      }
    }
  }

  /** All hits, best first. */
  function Ranking(rows: seq<Row>, words: seq<string>): seq<Scored>
    requires NonEmpty(words)
  {
    SortBy(RanksBefore, Hits(rows, words))
  }

  method SearchKeywordTopK(rows: seq<Row>, words: seq<string>, topK: int) returns (results: seq<Scored>)
    requires NonEmpty(words)
    ensures results == TakeSlice(Ranking(rows, words), topK)
  {
    hide Score;
    if words == [] {
      NoWords(rows);
      return [];
    }
    var scored: seq<Scored> := [];
    for i := 0 to |rows|
      invariant scored == Hits(rows[..i], words)
    {
      assert rows[..i + 1][..i] == rows[..i];
      var score := Score(rows[i].text, words);
      if score > 0 {
        scored := scored + [Scored(score, rows[i])];
      }
    }
    assert rows[..|rows|] == rows;
    scored := SortBy(RanksBefore, scored);
    return TakeSlice(scored, topK);
  }

  lemma {:induction false} NoWords(rows: seq<Row>)
    ensures Hits(rows, []) == []
  {
    if rows != [] { NoWords(rows[..|rows| - 1]); }
  }

  // ---- memory.query ----

  /** No filter of a kind accepts everything. */
  predicate Accepts(f: Filters, row: Row)
  {
    && (f.sourceKinds != [] ==> row.sourceKind.Some? && row.sourceKind.value in f.sourceKinds)
    && (f.visibilities != [] ==> row.visibility.Some? && row.visibility.value in f.visibilities)
  }

  function Accepted(f: Filters, s: seq<Scored>): (r: seq<Scored>)
    ensures |r| <= |s|
    ensures forall x :: x in r <==> x in s && Accepts(f, x.row)
  {
    if s == [] then []
    else
      var last := s[|s| - 1];
      assert s == s[..|s| - 1] + [last];
      Accepted(f, s[..|s| - 1]) + if Accepts(f, last.row) then [last] else []
  }

  method MemoryQuery(rows: seq<Row>, words: seq<string>, topK: int, f: Filters) returns (results: seq<Scored>)
    requires NonEmpty(words)
    ensures results == TakeSlice(Accepted(f, TakeSlice(Ranking(rows, words), topK * 3)), topK)
  {
    hide Ranking, Accepts;
    var raw := SearchKeywordTopK(rows, words, topK * 3);
    var filtered: seq<Scored> := [];
    for i := 0 to |raw|
      invariant filtered == Accepted(f, raw[..i])
    {
      assert raw[..i + 1][..i] == raw[..i];
      if Accepts(f, raw[i].row) {
        filtered := filtered + [raw[i]];
      }
    }
    assert raw[..|raw|] == raw;
    return TakeSlice(filtered, topK);
  }

  // ---- What over-fetching can lose ----

  /** Filter everything, then take the best. */
  function ExactQuery(rows: seq<Row>, words: seq<string>, topK: int, f: Filters): seq<Scored>
    requires NonEmpty(words)
  {
    TakeSlice(Accepted(f, Ranking(rows, words)), topK)
  }

  function OverfetchedQuery(rows: seq<Row>, words: seq<string>, topK: int, f: Filters): seq<Scored>
    requires NonEmpty(words)
  {
    TakeSlice(Accepted(f, TakeSlice(Ranking(rows, words), topK * 3)), topK)
  }

  lemma {:induction false} AcceptedPrefix(f: Filters, s: seq<Scored>, n: nat)
    requires n <= |s|
    ensures Accepted(f, s[..n]) <= Accepted(f, s)
    decreases |s| - n
  {
    hide Accepts;
    if n < |s| {
      AcceptedPrefix(f, s, n + 1);
      assert s[..n + 1][..n] == s[..n];
    } else {
      assert s[..n] == s;
    }
  }

  lemma SlicePrefix(a: seq<Scored>, b: seq<Scored>, m: int)
    requires a <= b
    ensures TakeSlice(a, m) <= TakeSlice(b, m)
    ensures m >= 0 && |TakeSlice(a, m)| == m ==> TakeSlice(a, m) == TakeSlice(b, m)
  {
  }

  /** The query is always a prefix of filter-then-top-k. For a non-negative k it is the whole of it exactly
      when the k * 3 best hits already hold k accepted ones, or all there are. */
  lemma QueryIsPrefixOfExact(rows: seq<Row>, words: seq<string>, topK: int, f: Filters)
    requires NonEmpty(words)
    ensures OverfetchedQuery(rows, words, topK, f) <= ExactQuery(rows, words, topK, f)
    ensures topK >= 0 ==>
              (OverfetchedQuery(rows, words, topK, f) == ExactQuery(rows, words, topK, f) <==>
               var fetched := |Accepted(f, TakeSlice(Ranking(rows, words), topK * 3))|;
               fetched >= topK || fetched == |Accepted(f, Ranking(rows, words))|)
  {
    hide Ranking, Accepts, Accepted;
    var ranking := Ranking(rows, words);
    var fetched := TakeSlice(ranking, topK * 3);
    assert fetched == ranking[..|fetched|];
    AcceptedPrefix(f, ranking, |fetched|);
    SlicePrefix(Accepted(f, fetched), Accepted(f, ranking), topK);
  }

  /** A higher score goes first, then the smaller id. */
  lemma RanksExactly(a: Scored, b: Scored)
    ensures RanksBefore(a, b) <==> b.score < a.score || (b.score == a.score && StrLess(a.row.id, b.row.id))
    ensures a.row.id != b.row.id ==> (RanksBefore(a, b) <==> !RanksBefore(b, a))
  {
    StrLessTotal(a.row.id, b.row.id);
  }

  /** A row is accepted when each filter that is set lists its kind or visibility. */
  lemma AcceptsExactly(f: Filters, row: Row)
    ensures Accepts(f, row) <==>
            && (|f.sourceKinds| == 0 || exists i :: 0 <= i < |f.sourceKinds| && row.sourceKind == Some(f.sourceKinds[i]))
            && (|f.visibilities| == 0 || exists i :: 0 <= i < |f.visibilities| && row.visibility == Some(f.visibilities[i]))
  {
  }

  /** The exact query is the right answer: hits only, best first, and everything left out ranks behind. */
  lemma ExactQueryIsBest(rows: seq<Row>, words: seq<string>, topK: nat, f: Filters)
    requires UniqueRowIds(rows) && NonEmpty(words)
    ensures var r := ExactQuery(rows, words, topK, f);
            && Ranked(r) && |r| <= topK
            && (forall x :: x in r ==> x.row in rows && Accepts(f, x.row) && x.score == Score(x.row.text, words) > 0)
            && (forall row :: row in rows && Accepts(f, row) && Score(row.text, words) > 0 && Scored(Score(row.text, words), row) !in r ==>
                  |r| == topK && forall x :: x in r ==> RanksBefore(x, Scored(Score(row.text, words), row)))
  {
    hide Score, Accepts, RanksBefore;
    HitsUnique(rows, words);
    SortRanked(Hits(rows, words));
    var all := Accepted(f, Ranking(rows, words));
    AcceptedRanked(f, Ranking(rows, words));
    var r := ExactQuery(rows, words, topK, f);
    forall row | row in rows && Accepts(f, row) && Score(row.text, words) > 0 && Scored(Score(row.text, words), row) !in r
      ensures |r| == topK && forall x :: x in r ==> RanksBefore(x, Scored(Score(row.text, words), row))
    {
      LeftOutRanksBehind(all, topK, Scored(Score(row.text, words), row));
    }
  }

  lemma LeftOutRanksBehind(all: seq<Scored>, k: nat, y: Scored)
    requires Ranked(all) && y in all && y !in TakeSlice(all, k)
    ensures |TakeSlice(all, k)| == k && forall x :: x in TakeSlice(all, k) ==> RanksBefore(x, y)
  {
    hide RanksBefore;
    var r := TakeSlice(all, k);
    var j :| 0 <= j < |all| && all[j] == y;
    assert forall i :: 0 <= i < |r| ==> r[i] == all[i] && r[i] in r;
    assert j >= |r|;
  }

  lemma {:induction false} AcceptedRanked(f: Filters, s: seq<Scored>)
    requires Ranked(s)
    ensures Ranked(Accepted(f, s))
  {
    hide RanksBefore, Accepts;
    if s != [] {
      var n := |s| - 1;
      AcceptedRanked(f, s[..n]);
      forall x | x in Accepted(f, s[..n])
        ensures RanksBefore(x, s[n])
      {
        var i :| 0 <= i < n && s[i] == x;
      }
    }
  }
}
