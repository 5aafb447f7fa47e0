/** JSON Pointer text (RFC 6901, sections 3 and 4): escaping, joining and decoding, as in
    schemas/tool_schema_registry.py, planning/state_patch.py and planning/missing_slots.py. */
module Pointer {
  import opened Wrappers

  // ---- str.replace, str.split, str.join ----

  /** Replace one letter by a string. */
  function ReplaceChar(s: string, c: char, with: string): string
  {
    if s == "" then "" else (if s[0] == c then with else [s[0]]) + ReplaceChar(s[1..], c, with)
  }

  /** Replace a two-letter pattern by one letter, left to right without overlap. */
  function ReplacePair(s: string, a: char, b: char, with: char): string
  {
    if s == "" then ""
    else if |s| >= 2 && s[0] == a && s[1] == b then [with] + ReplacePair(s[2..], a, b, with)
    else [s[0]] + ReplacePair(s[1..], a, b, with)
  }

  /** `s.split("/")`. */
  function Split(s: string): (parts: seq<string>)
    ensures |parts| >= 1
    ensures forall i :: 0 <= i < |parts| ==> '/' !in parts[i]
  {
    if s == "" then [""]
    else
      var rest := Split(s[1..]);
      if s[0] == '/' then [""] + rest else [[s[0]] + rest[0]] + rest[1..]
  }

  /** `"/".join(parts)`. */
  function Join(parts: seq<string>): string
    requires parts != []
  {
    if |parts| == 1 then parts[0] else parts[0] + "/" + Join(parts[1..])
  }

  // ---- Tokens ----

  function Escape(token: string): string
  {
    ReplaceChar(ReplaceChar(token, '~', "~0"), '/', "~1")
  }

  function Unescape(token: string): string
  {
    ReplacePair(ReplacePair(token, '~', '1', '/'), '~', '0', '~')
  }

  function EscapeAll(tokens: seq<string>): (r: seq<string>)
    ensures |r| == |tokens|
  {
    seq(|tokens|, i requires 0 <= i < |tokens| => Escape(tokens[i]))
  }

  function UnescapeAll(tokens: seq<string>): (r: seq<string>)
    ensures |r| == |tokens|
  {
    seq(|tokens|, i requires 0 <= i < |tokens| => Unescape(tokens[i]))
  }

  datatype PointerError = BadPointer(pointer: string)

  /** `_decode_pointer` / `_pointer_tokens`. */
  function Decode(pointer: string): Result<seq<string>, PointerError>
  {
    if pointer == "" || pointer[0] != '/' then Err(BadPointer(pointer))
    else Ok(UnescapeAll(Split(pointer[1..])))
  }

  /** `_pointer_join`. */
  function PointerJoin(base: string, token: string): string
  {
    base + "/" + Escape(token)
  }

  /** The pointer of a token list, token by token. */
  function Encode(tokens: seq<string>): string
  {
    if tokens == [] then "" else PointerJoin(Encode(tokens[..|tokens| - 1]), tokens[|tokens| - 1])
  }

  // ---- Escaping is undone by unescaping ----

  function EscapeLetter(c: char): string
  {
    if c == '~' then "~0" else if c == '/' then "~1" else [c]
  }

  lemma CharCons(c: char, s: string, x: char, with: string)
    ensures ReplaceChar([c] + s, x, with) == (if c == x then with else [c]) + ReplaceChar(s, x, with)
  {
    assert ([c] + s)[1..] == s;
  }

  lemma EscapeCons(t: string)
    requires t != ""
    ensures Escape(t) == EscapeLetter(t[0]) + Escape(t[1..])
  {
    hide ReplaceChar;
    var rest := ReplaceChar(t[1..], '~', "~0");
    assert t == [t[0]] + t[1..];
    CharCons(t[0], t[1..], '~', "~0");
    if t[0] == '~' {
      assert "~0" + rest == ['~'] + (['0'] + rest);
      CharCons('~', ['0'] + rest, '/', "~1");
      CharCons('0', rest, '/', "~1");
    } else {
      CharCons(t[0], rest, '/', "~1");
    }
  }

  lemma PairCons(a: char, s: string, x: char, y: char, with: char)
    requires a != x || s == "" || s[0] != y
    ensures ReplacePair([a] + s, x, y, with) == [a] + ReplacePair(s, x, y, with)
  {
    assert ([a] + s)[1..] == s;
  }

  lemma PairHit(s: string, x: char, y: char, with: char)
    ensures ReplacePair([x, y] + s, x, y, with) == [with] + ReplacePair(s, x, y, with)
  {
    assert ([x, y] + s)[2..] == s;
  }

  lemma NothingToUndo()
    ensures Escape("") == "" && ReplacePair("", '~', '1', '/') == "" && ReplaceChar("", '~', "~0") == ""
  {
  }

  /** Undoing "~1" first leaves exactly the "~0" of the escaping. */
  lemma {:induction false} UndoSlash(t: string)
    ensures ReplacePair(Escape(t), '~', '1', '/') == ReplaceChar(t, '~', "~0")
  {
    hide Escape, ReplacePair, ReplaceChar;
    if t == "" {
      NothingToUndo();
    } else {
      EscapeCons(t);
      UndoSlash(t[1..]);
      assert t == [t[0]] + t[1..];
      CharCons(t[0], t[1..], '~', "~0");
      var rest := Escape(t[1..]);
      if t[0] == '~' {
        assert "~0" + rest == ['~'] + (['0'] + rest);
        PairCons('~', ['0'] + rest, '~', '1', '/');
        PairCons('0', rest, '~', '1', '/');
      } else if t[0] == '/' {
        PairHit(rest, '~', '1', '/');
      } else {
        PairCons(t[0], rest, '~', '1', '/');
      }
    }
  }

  lemma {:induction false} UndoTilde(t: string)
    ensures ReplacePair(ReplaceChar(t, '~', "~0"), '~', '0', '~') == t
  {
    if t != "" {
      UndoTilde(t[1..]);
      var rest := ReplaceChar(t[1..], '~', "~0");
      if t[0] == '~' { PairHit(rest, '~', '0', '~'); } else { PairCons(t[0], rest, '~', '0', '~'); }
      assert t == [t[0]] + t[1..];
    }
  }

  lemma UnescapeEscape(t: string)
    ensures Unescape(Escape(t)) == t
  {
    UndoSlash(t);
    UndoTilde(t);
  }

  lemma {:induction false} EscapedHasNoSlash(t: string)
    ensures '/' !in Escape(t)
  {
    if t != "" {
      EscapeCons(t);
      EscapedHasNoSlash(t[1..]);
    }
  }

  // ---- Splitting is undone by joining, and the other way round ----

  lemma {:induction false} SplitPlain(s: string)
    requires '/' !in s
    ensures Split(s) == [s]
  {
    if s != "" { SplitPlain(s[1..]); assert s == [s[0]] + s[1..]; }
  }

  lemma {:induction false} SplitAppend(a: string, s: string)
    requires '/' !in s
    ensures Split(a + "/" + s) == Split(a) + [s]
  {
    if a == "" {
      assert ("/" + s)[1..] == s && a + "/" + s == "/" + s;
      SplitPlain(s);
    } else {
      var whole := a + "/" + s;
      assert whole[1..] == a[1..] + "/" + s;
      SplitAppend(a[1..], s);
    }
  }

  lemma {:induction false} JoinSplit(s: string)
    ensures Join(Split(s)) == s
  {
    if s != "" {
      JoinSplit(s[1..]);
      var rest := Split(s[1..]);
      assert s == [s[0]] + s[1..];
      if s[0] == '/' {
        assert ([""] + rest)[1..] == rest;
      } else if |rest| > 1 {
        assert ([[s[0]] + rest[0]] + rest[1..])[1..] == rest[1..];
      }
    }
  }

  lemma EscapeAllSnoc(tokens: seq<string>)
    requires tokens != []
    ensures EscapeAll(tokens) == EscapeAll(tokens[..|tokens| - 1]) + [Escape(tokens[|tokens| - 1])]
  {
  }

  /** The raw parts of an encoded pointer: an empty one before the first slash, then the escaped tokens. */
  lemma {:induction false} SplitEncode(tokens: seq<string>)
    ensures Split(Encode(tokens)) == [""] + EscapeAll(tokens)
  {
    if tokens == [] {
      assert EscapeAll([]) == [];
    } else {
      var init, last := tokens[..|tokens| - 1], tokens[|tokens| - 1];
      SplitEncode(init);
      EscapedHasNoSlash(last);
      SplitAppend(Encode(init), Escape(last));
      EscapeAllSnoc(tokens);
    }
  }

  lemma {:induction false} EncodeStartsWithSlash(tokens: seq<string>)
    requires tokens != []
    ensures Encode(tokens) != "" && Encode(tokens)[0] == '/'
  {
    if |tokens| > 1 { EncodeStartsWithSlash(tokens[..|tokens| - 1]); }
  }

  lemma SplitTail(s: string)
    requires s != "" && s[0] == '/'
    ensures Split(s)[1..] == Split(s[1..])
  {
  }

  /** Round trip: every non-empty token list, whatever letters it holds, is recovered from its pointer. */
  lemma DecodeEncode(tokens: seq<string>)
    requires tokens != []
    ensures Decode(Encode(tokens)) == Ok(tokens)
  {
    hide Split, Encode, Escape, Unescape;
    var pointer := Encode(tokens);
    EncodeStartsWithSlash(tokens);
    SplitEncode(tokens);
    assert Split(pointer)[1..] == Split(pointer[1..]) by { SplitTail(pointer); }
    assert ([""] + EscapeAll(tokens))[1..] == EscapeAll(tokens);
    forall i | 0 <= i < |tokens|
      ensures Unescape(EscapeAll(tokens)[i]) == tokens[i]
    {
      UnescapeEscape(tokens[i]);
    }
    assert UnescapeAll(EscapeAll(tokens)) == tokens;
  }

  lemma EncodeInjective(a: seq<string>, b: seq<string>)
    ensures Encode(a) == Encode(b) ==> a == b
  {
    if a != [] { DecodeEncode(a); EncodeStartsWithSlash(a); }
    if b != [] { DecodeEncode(b); EncodeStartsWithSlash(b); }
  }

  // ---- Which raw tokens come back from decoding and escaping ----

  /** Every "~" is followed by "0" or "1" (RFC 6901, section 3). */
  predicate WellEscaped(t: string)
  {
    if t == "" then true
    else if t[0] == '~' then |t| >= 2 && (t[1] == '0' || t[1] == '1') && WellEscaped(t[2..])
    else WellEscaped(t[1..])
  }

  lemma {:induction false} EscapedIsWellEscaped(t: string)
    ensures WellEscaped(Escape(t))
  {
    if t != "" {
      EscapeCons(t);
      EscapedIsWellEscaped(t[1..]);
      var rest := Escape(t[1..]);
      assert t[0] == '~' ==> ("~0" + rest)[2..] == rest;
      assert t[0] == '/' ==> ("~1" + rest)[2..] == rest;
      assert ([t[0]] + rest)[1..] == rest;
    }
  }

  lemma {:induction false} WellEscapedComesBack(t: string)
    requires WellEscaped(t) && '/' !in t
    ensures Escape(Unescape(t)) == t
    decreases |t|
  {
    if t != "" {
      if t[0] == '~' {
        var rest := t[2..];
        WellEscapedComesBack(rest);
        var mid := ReplacePair(rest, '~', '1', '/');
        if t[1] == '1' {
          assert t == ['~', '1'] + rest;
          PairHit(rest, '~', '1', '/');
          PairCons('/', mid, '~', '0', '~');
          assert Unescape(t) == ['/'] + Unescape(rest);
        } else {
          assert t == ['~'] + (['0'] + rest);
          PairCons('~', ['0'] + rest, '~', '1', '/');
          PairCons('0', rest, '~', '1', '/');
          assert ['~'] + (['0'] + mid) == ['~', '0'] + mid;
          PairHit(mid, '~', '0', '~');
          assert Unescape(t) == ['~'] + Unescape(rest);
        }
        EscapeCons(Unescape(t));
        assert Unescape(t)[1..] == Unescape(rest);
      } else {
        var rest := t[1..];
        WellEscapedComesBack(rest);
        assert t == [t[0]] + rest;
        var mid := ReplacePair(rest, '~', '1', '/');
        PairCons(t[0], rest, '~', '1', '/');
        PairCons(t[0], mid, '~', '0', '~');
        EscapeCons(Unescape(t));
        assert Unescape(t)[1..] == Unescape(rest);
      }
    }
  }

  /** A raw token is the escape of what it decodes to exactly when it is well escaped; other raw
      tokens are accepted too, and decode like some well-escaped one. */
  lemma EscapeUnescapeIff(t: string)
    requires '/' !in t
    ensures Escape(Unescape(t)) == t <==> WellEscaped(t)
  {
    EscapedIsWellEscaped(Unescape(t));
    if WellEscaped(t) { WellEscapedComesBack(t); }
  }
}
