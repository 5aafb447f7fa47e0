/** Splitting a text into overlapping spans (`_chunk_text` of tools/memory_tools.py). */
module Chunking {
  import opened Order

  type Span = (int, int)

  /** The loop from a start, watched for a number of passes: the spans so far, and whether it has ended. */
  function Chunk(n: nat, maxChars: int, overlap: int, start: int, limit: nat): (seq<Span>, bool)
    decreases limit
  {
    if start >= n then ([], true)
    else if limit == 0 then ([], false)
    else
      var end := Min(start + maxChars, n);
      if end >= n then ([(start, end)], true)
      else
        var (rest, done) := Chunk(n, maxChars, overlap, end - overlap, limit - 1);
        ([(start, end)] + rest, done)
  }

  method ChunkText(text: string, maxChars: int, overlap: int, limit: nat) returns (spans: seq<Span>, done: bool)
    ensures (spans, done) == Chunk(|text|, maxChars, overlap, 0, limit)
  {
    spans := [];
    var start := 0;
    var left := limit;
    assert [] + Chunk(|text|, maxChars, overlap, 0, limit).0 == Chunk(|text|, maxChars, overlap, 0, limit).0;
    while start < |text|
      invariant spans + Chunk(|text|, maxChars, overlap, start, left).0 == Chunk(|text|, maxChars, overlap, 0, limit).0
      invariant Chunk(|text|, maxChars, overlap, start, left).1 == Chunk(|text|, maxChars, overlap, 0, limit).1
      decreases left
    {
      if left == 0 {
        assert spans + [] == spans;
        return spans, false;
      }
      var end := Min(start + maxChars, |text|);
      ghost var rest := Chunk(|text|, maxChars, overlap, end - overlap, left - 1).0;
      assert spans + ([(start, end)] + rest) == (spans + [(start, end)]) + rest;
      spans := spans + [(start, end)];
      if end >= |text| {
        return spans, true;
      }
      start := end - overlap;
      left := left - 1;
    }
    assert spans + [] == spans;
    return spans, true;
  }

  // ---- When the loop ends ----

  ghost predicate Ends(n: nat, maxChars: int, overlap: int)
  {
    exists limit: nat :: Chunk(n, maxChars, overlap, 0, limit).1
  }

  lemma {:induction false} EndsWhenAdvancing(n: nat, maxChars: int, overlap: int, start: int, limit: nat)
    requires overlap < maxChars && limit >= n - start
    ensures Chunk(n, maxChars, overlap, start, limit).1
    decreases limit
  {
    if start < n && start + maxChars < n {
      EndsWhenAdvancing(n, maxChars, overlap, start + maxChars - overlap, limit - 1);
    }
  }

  lemma {:induction false} RunsWhenNot(n: nat, maxChars: int, overlap: int, start: int, limit: nat)
    requires maxChars <= overlap && start < n && start + maxChars < n
    ensures !Chunk(n, maxChars, overlap, start, limit).1
    decreases limit
  {
    if limit > 0 { RunsWhenNot(n, maxChars, overlap, start + maxChars - overlap, limit - 1); }
  }

  /** The loop ends exactly on an empty text, a text of one chunk, or an overlap smaller than the chunk. */
  lemma EndsIff(n: nat, maxChars: int, overlap: int)
    ensures Ends(n, maxChars, overlap) <==> n == 0 || maxChars >= n || overlap < maxChars
  {
    if n == 0 || maxChars >= n {
      assert Chunk(n, maxChars, overlap, 0, 1).1;
    } else if overlap < maxChars {
      EndsWhenAdvancing(n, maxChars, overlap, 0, n);
    } else {
      forall limit: nat
        ensures !Chunk(n, maxChars, overlap, 0, limit).1
      {
        RunsWhenNot(n, maxChars, overlap, 0, limit);
      }
    }
  }

  // ---- Which spans, and how many ----

  /** a / b, rounded up. */
  function CeilDiv(a: nat, b: nat): (c: nat)
    requires b > 0
    ensures a > 0 <==> c > 0
  {
    if a == 0 then 0 else if a <= b then 1 else 1 + CeilDiv(a - b, b)
  }

  lemma {:induction false} CeilDivRoundsUp(a: nat, b: nat)
    requires b > 0
    ensures a <= CeilDiv(a, b) * b
    ensures a > 0 ==> (CeilDiv(a, b) - 1) * b < a
    decreases a
  {
    if a > b {
      CeilDivRoundsUp(a - b, b);
      var c := CeilDiv(a - b, b);
      assert (1 + c) * b == b + c * b && c * b == b + (c - 1) * b;
    }
  }

  /** How many spans a text of m characters gets. */
  function SpanCount(m: nat, maxChars: nat, overlap: nat): nat
    requires overlap < maxChars
  {
    if m == 0 then 0 else if m <= maxChars then 1 else 1 + CeilDiv(m - maxChars, maxChars - overlap)
  }

  lemma CountStep(m: nat, maxChars: nat, overlap: nat)
    requires overlap < maxChars < m
    ensures SpanCount(m, maxChars, overlap) == 1 + SpanCount(m - (maxChars - overlap), maxChars, overlap)
  {
    var step := maxChars - overlap;
    assert m - maxChars > step ==> CeilDiv(m - maxChars, step) == 1 + CeilDiv(m - step - maxChars, step);
  }

  /** The i-th span from a start. */
  function SpanAt(n: nat, maxChars: nat, step: nat, start: nat, i: nat): Span
  {
    (start + i * step, Min(start + i * step + maxChars, n))
  }

  lemma SpanAtShift(n: nat, maxChars: nat, step: nat, start: nat, i: nat)
    requires i > 0
    ensures SpanAt(n, maxChars, step, start + step, i - 1) == SpanAt(n, maxChars, step, start, i)
  {
    assert (i - 1) * step + step == i * step;
  }

  /** With an overlap smaller than the chunk: span i starts at i steps, and their number is the closed form. */
  lemma {:induction false} SpansFrom(n: nat, maxChars: nat, overlap: nat, start: nat, limit: nat)
    requires overlap < maxChars && start <= n && limit >= SpanCount(n - start, maxChars, overlap)
    ensures var (spans, done) := Chunk(n, maxChars, overlap, start, limit);
            && done && |spans| == SpanCount(n - start, maxChars, overlap)
            && forall i :: 0 <= i < |spans| ==> spans[i] == SpanAt(n, maxChars, maxChars - overlap, start, i)
    decreases n - start
  {
    hide SpanCount, SpanAt;
    var step := maxChars - overlap;
    SpanAtZero(n, maxChars, step, start);
    SmallCount(n - start, maxChars, overlap);
    if start + maxChars < n {
      CountStep(n - start, maxChars, overlap);
      SpansFrom(n, maxChars, overlap, start + step, limit - 1);
      var spans := Chunk(n, maxChars, overlap, start, limit).0;
      forall i | 1 <= i < |spans|
        ensures spans[i] == SpanAt(n, maxChars, step, start, i)
      {
        SpanAtShift(n, maxChars, step, start, i);
      }
    }
  }

  lemma SpanAtZero(n: nat, maxChars: nat, step: nat, start: nat)
    ensures SpanAt(n, maxChars, step, start, 0) == (start, Min(start + maxChars, n))
  {
  }

  lemma SmallCount(m: nat, maxChars: nat, overlap: nat)
    requires overlap < maxChars
    ensures m == 0 ==> SpanCount(m, maxChars, overlap) == 0
    ensures 0 < m <= maxChars ==> SpanCount(m, maxChars, overlap) == 1
    ensures m > 0 ==> SpanCount(m, maxChars, overlap) > 0
  {
  }

  /** The spans of a whole text. */
  lemma ChunkSpans(n: nat, maxChars: nat, overlap: nat, limit: nat)
    requires overlap < maxChars && limit >= SpanCount(n, maxChars, overlap)
    ensures var (spans, done) := Chunk(n, maxChars, overlap, 0, limit);
            && done
            && |spans| == (if n == 0 then 0 else if n <= maxChars then 1 else 1 + CeilDiv(n - maxChars, maxChars - overlap))
            && forall i :: 0 <= i < |spans| ==>
                 spans[i] == (i * (maxChars - overlap), Min(i * (maxChars - overlap) + maxChars, n))
  {
    hide CeilDiv;
    SpansFrom(n, maxChars, overlap, 0, limit);
    var spans := Chunk(n, maxChars, overlap, 0, limit).0;
    forall i | 0 <= i < |spans|
      ensures spans[i] == (i * (maxChars - overlap), Min(i * (maxChars - overlap) + maxChars, n))
    {
      assert spans[i] == SpanAt(n, maxChars, maxChars - overlap, 0, i);
    }
  }

  // ---- Putting the text together again ----

  predicate InText(text: string, span: Span)
  {
    0 <= span.0 <= span.1 <= |text|
  }

  /** The chunks, each without its first `skip` characters, joined. */
  function Joined(text: string, spans: seq<Span>, skip: nat): string
    requires forall i :: 0 <= i < |spans| ==> InText(text, spans[i]) && skip <= spans[i].1 - spans[i].0
  {
    if spans == [] then ""
    else
      assert InText(text, spans[0]);
      text[spans[0].0 + skip..spans[0].1] + Joined(text, spans[1..], skip)
  }

  /** Spans that follow one another with a fixed overlap, up to the end of the text. */
  predicate Tiles(text: string, spans: seq<Span>, overlap: nat)
  {
    && spans != [] && spans[|spans| - 1].1 == |text|
    && (forall i :: 0 <= i < |spans| ==> InText(text, spans[i]) && overlap <= spans[i].1 - spans[i].0)
    && (forall i :: 0 < i < |spans| ==> spans[i].0 == spans[i - 1].1 - overlap)
  }

  lemma {:induction false} TilesJoin(text: string, spans: seq<Span>, overlap: nat)
    requires Tiles(text, spans, overlap)
    ensures Joined(text, spans, overlap) == text[spans[0].0 + overlap..]
    decreases |spans|
  {
    if |spans| == 1 {
      assert spans[1..] == [];
    } else {
      var rest := spans[1..];
      assert forall i :: 0 < i < |rest| ==> rest[i] == spans[i + 1] && rest[i - 1] == spans[i];
      assert rest[|rest| - 1] == spans[|spans| - 1];
      TilesJoin(text, rest, overlap);
      var a, b := spans[0].0 + overlap, spans[0].1;
      assert text[a..b] + text[b..] == text[a..];
    }
  }

  /** Dropping the overlaps and joining gives the text back. */
  lemma ChunksRebuildText(text: string, maxChars: nat, overlap: nat, limit: nat)
    requires overlap < maxChars && text != "" && limit >= SpanCount(|text|, maxChars, overlap)
    ensures var spans := Chunk(|text|, maxChars, overlap, 0, limit).0;
            && spans != []
            && (forall i :: 0 <= i < |spans| ==> InText(text, spans[i]) && 0 < spans[i].1 - spans[i].0 <= maxChars)
            && (forall i :: 1 <= i < |spans| ==> overlap < spans[i].1 - spans[i].0)
            && text == text[spans[0].0..spans[0].1] + Joined(text, spans[1..], overlap)
  {
    hide Joined, SpanCount, Chunk;
    ChunkTiles(|text|, maxChars, overlap, 0, limit);
    TilesRebuild(text, Chunk(|text|, maxChars, overlap, 0, limit).0, overlap);
  }

  lemma TilesRebuild(text: string, spans: seq<Span>, overlap: nat)
    requires spans != [] && spans[0].0 == 0 && spans[|spans| - 1].1 == |text|
    requires forall i :: 0 <= i < |spans| ==> 0 <= spans[i].0 < spans[i].1 <= |text|
    requires forall i :: 0 < i < |spans| ==> spans[i].0 == spans[i - 1].1 - overlap && overlap < spans[i].1 - spans[i].0
    ensures text == text[spans[0].0..spans[0].1] + Joined(text, spans[1..], overlap)
  {
    hide Joined;
    var rest := spans[1..];
    if |spans| == 1 {
      NothingJoined(text, overlap);
      assert text[0..|text|] == text;
    } else {
      assert forall i :: 0 <= i < |rest| ==> rest[i] == spans[i + 1];
      TilesJoin(text, rest, overlap);
      assert text[0..spans[0].1] + text[spans[0].1..] == text;
    }
  }

  lemma NothingJoined(text: string, overlap: nat)
    ensures Joined(text, [], overlap) == ""
  {
  }

  lemma {:induction false} ChunkTiles(n: nat, maxChars: nat, overlap: nat, start: nat, limit: nat)
    requires overlap < maxChars && start < n && limit >= SpanCount(n - start, maxChars, overlap)
    ensures var spans := Chunk(n, maxChars, overlap, start, limit).0;
            && spans != [] && spans[0].0 == start && spans[|spans| - 1].1 == n
            && (forall i :: 0 <= i < |spans| ==> 0 <= spans[i].0 < spans[i].1 <= n && spans[i].1 - spans[i].0 <= maxChars)
            && (forall i :: 0 < i < |spans| ==> spans[i].0 == spans[i - 1].1 - overlap && overlap < spans[i].1 - spans[i].0)
    decreases n - start
  {
    hide SpanCount;
    SmallCount(n - start, maxChars, overlap);
    var spans := Chunk(n, maxChars, overlap, start, limit).0;
    if start + maxChars < n {
      CountStep(n - start, maxChars, overlap);
      ChunkTiles(n, maxChars, overlap, start + maxChars - overlap, limit - 1);
      var rest := Chunk(n, maxChars, overlap, start + maxChars - overlap, limit - 1).0;
      assert spans == [(start, start + maxChars)] + rest;
      assert rest[0].1 == Min(start + maxChars - overlap + maxChars, n);
    }
  }
}
