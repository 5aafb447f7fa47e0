/** The few string operations the modelled code uses, on ASCII letters and digits. */
module Text {

  function LowerChar(c: char): char
  {
    if 'A' <= c <= 'Z' then 'a' + (c - 'A') else c
  }

  /** `str.lower()`, for ASCII letters. */
  function Lower(s: string): (r: string)
    ensures |r| == |s|
  {
    seq(|s|, i requires 0 <= i < |s| => LowerChar(s[i]))
  }

  /** ASCII white space, as `str.strip()` sees it. */
  predicate IsSpace(c: char)
  {
    c == ' ' || 9 <= c as int <= 13 || 28 <= c as int <= 31
  }

  /** `str.strip()`. */
  function Strip(s: string): (r: string)
    ensures r == "" || (!IsSpace(r[0]) && !IsSpace(r[|r| - 1]))
  {
    if s == "" then ""
    else if IsSpace(s[0]) then Strip(s[1..])
    else if IsSpace(s[|s| - 1]) then Strip(s[..|s| - 1])
    else s
  }

  predicate OccursAt(hay: string, needle: string, i: nat)
  {
    i + |needle| <= |hay| && hay[i..i + |needle|] == needle
  }

  /** `needle in hay`. */
  predicate Contains(hay: string, needle: string)
  {
    exists i :: 0 <= i <= |hay| && OccursAt(hay, needle, i)
  }

  predicate ContainsAny(hay: string, needles: seq<string>)
  {
    exists n :: n in needles && Contains(hay, n)
  }

  function Digit(d: nat): char
    requires d < 10
  {
    '0' + d as char
  }

  /** Decimal rendering of a number. */
  function Decimal(n: nat): (s: string)
    ensures |s| > 0
    decreases n
  {
    if n < 10 then [Digit(n)] else Decimal(n / 10) + [Digit(n % 10)]
  }

  // ---- Telling that a phrase does not occur ----

  lemma AbsentLetter(hay: string, needle: string, c: char)
    requires c in needle && c !in hay
    ensures !Contains(hay, needle)
  {
    var k :| 0 <= k < |needle| && needle[k] == c;
    forall i: nat
      ensures !OccursAt(hay, needle, i)
    {
      assert i + |needle| <= |hay| ==> hay[i..i + |needle|][k] == hay[i + k] && hay[i + k] in hay;
    }
  }

  lemma TooLong(hay: string, needle: string)
    requires |needle| > |hay|
    ensures !Contains(hay, needle)
  {
  }

  lemma LettersAt(hay: string, needle: string, i: nat, k: nat)
    requires OccursAt(hay, needle, i) && k < |needle|
    ensures hay[i + k] == needle[k]
  {
    assert hay[i..i + |needle|][k] == hay[i + k];
  }

  /** The needle begins at the end of the text. */
  ghost predicate Overlap(head: string, needle: string)
  {
    exists k :: 0 < k < |needle| && k <= |head| && head[|head| - k..] == needle[..k]
  }

  lemma OverlapAt(head: string, tail: string, needle: string, i: nat)
    requires OccursAt(head + tail, needle, i) && i < |head| < i + |needle|
    ensures Overlap(head, needle)
  {
    var k := |head| - i;
    assert head[i..] == (head + tail)[i..i + |needle|][..k];
    assert head[|head| - k..] == needle[..k];
  }

  lemma OccursInHead(head: string, tail: string, needle: string, i: nat)
    requires i + |needle| <= |head|
    ensures OccursAt(head, needle, i) <==> OccursAt(head + tail, needle, i)
  {
    assert (head + tail)[i..i + |needle|] == head[i..i + |needle|];
  }

  lemma OccursInTail(head: string, tail: string, needle: string, j: nat)
    ensures OccursAt(tail, needle, j) <==> OccursAt(head + tail, needle, |head| + j)
  {
    if j + |needle| <= |tail| {
      assert (head + tail)[|head| + j..|head| + j + |needle|] == tail[j..j + |needle|];
    }
  }

  lemma InHeadOrTail(head: string, tail: string, needle: string)
    requires !Contains(head, needle) && !Overlap(head, needle)
    ensures Contains(head + tail, needle) <==> Contains(tail, needle)
  {
    hide Overlap;
    if i: nat :| i <= |head + tail| && OccursAt(head + tail, needle, i) {
      if i + |needle| <= |head| {
        OccursInHead(head, tail, needle, i);
      } else if i < |head| {
        OverlapAt(head, tail, needle, i);
      } else {
        OccursInTail(head, tail, needle, i - |head|);
      }
    }
    if j: nat :| j <= |tail| && OccursAt(tail, needle, j) {
      OccursInTail(head, tail, needle, j);
    }
  }

  lemma LowerOfBoth(a: string, b: string)
    ensures Lower(a + b) == Lower(a) + Lower(b)
  {
  }

  lemma LowerCaseStays(s: string)
    requires forall c :: c in s ==> !('A' <= c <= 'Z')
    ensures Lower(s) == s
  {
    assert forall i :: 0 <= i < |s| ==> s[i] in s;
  }
}
