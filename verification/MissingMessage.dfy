/** The message about a node without implementation: whether a phrase occurs in it depends on the id alone,
    although the id follows other words and is read in lower case. */
module MissingMessage {
  import opened Classifier
  import opened ExecutorSpec
  import opened Text

  const LOWERED := "no implementation registered for node "
  const REST := "o implementation registered for node "

  lemma MessageSplits()
    ensures NO_IMPLEMENTATION == "N" + REST
  {
    assert NO_IMPLEMENTATION[1..] == REST by { assert "N"[1..] == ""; }
  }

  lemma LoweredSplits()
    ensures LOWERED == "n" + REST
  {
    assert LOWERED[1..] == REST by { assert "n"[1..] == ""; }
  }

  lemma RestIsLowerCase()
    ensures Lower(REST) == REST
  {
    LowerCaseStays(REST);
  }

  lemma MessageIsLowered()
    ensures Lower(NO_IMPLEMENTATION) == LOWERED
  {
    MessageSplits();
    LoweredSplits();
    RestIsLowerCase();
    LowerOfBoth("N", REST);
    assert Lower("N") == "n";
  }

  // ---- No phrase lies inside the fixed words ----

  lemma PlacesOfM(i: nat)
    requires i < |LOWERED| && LOWERED[i] == 'm'
    ensures i == 4 || i == 8
  {
  }

  lemma PlaceOfL(i: nat)
    requires i < |LOWERED| && LOWERED[i] == 'l'
    ensures i == 6
  {
  }

  const LETTERS := {'n', 'o', ' ', 'i', 'm', 'p', 'l', 'e', 't', 'a', 'r', 'g', 's', 'd', 'f'}

  lemma LettersOfMessage()
    ensures forall c :: c in LOWERED ==> c in LETTERS
  {
  }

  lemma AbsentLetters(s: string)
    requires forall c :: c in s ==> c in LETTERS
    ensures 'c' !in s && 'k' !in s && 'u' !in s && 'y' !in s && '5' !in s && '_' !in s
  {
  }

  lemma NoOom()
    ensures !Contains(LOWERED, "oom")
  {
    if i: nat :| i <= |LOWERED| && OccursAt(LOWERED, "oom", i) {
      LettersAt(LOWERED, "oom", i, 1);
      LettersAt(LOWERED, "oom", i, 2);
      PlacesOfM(i + 2);
    }
  }

  lemma NoPermissionDenied()
    ensures !Contains(LOWERED, "permission denied")
  {
    assert LOWERED[2] == ' ' && LOWERED[6] == 'l';
    if i: nat :| i <= |LOWERED| && OccursAt(LOWERED, "permission denied", i) {
      LettersAt(LOWERED, "permission denied", i, 1);
      LettersAt(LOWERED, "permission denied", i, 3);
      PlacesOfM(i + 3);
    }
  }

  lemma NoRateLimit()
    ensures !Contains(LOWERED, "rate limit")
  {
    if i: nat :| i <= |LOWERED| && OccursAt(LOWERED, "rate limit", i) {
      LettersAt(LOWERED, "rate limit", i, 0);
      LettersAt(LOWERED, "rate limit", i, 5);
      PlaceOfL(i + 5);
    }
  }

  lemma NotCritical(phrase: string)
    requires phrase in CRITICAL_PHRASES
    ensures !Contains(LOWERED, phrase)
  {
    hide Contains;
    LettersOfMessage();
    AbsentLetters(LOWERED);
    NoOom();
    NoPermissionDenied();
    AbsentLetter(LOWERED, "access denied", 'c');
    AbsentLetter(LOWERED, "security", 'c');
    AbsentLetter(LOWERED, "out of memory", 'u');
    AbsentLetter(LOWERED, "memory limit", 'y');
    AbsentLetter(LOWERED, "killed", 'k');
    AbsentLetter(LOWERED, "sigkill", 'k');
  }

  lemma NotTransient(phrase: string)
    requires phrase in TRANSIENT_PHRASES
    ensures !Contains(LOWERED, phrase)
  {
    hide Contains;
    LettersOfMessage();
    AbsentLetters(LOWERED);
    NoRateLimit();
    AbsentLetter(LOWERED, "timeout", 'u');
    AbsentLetter(LOWERED, "timed out", 'u');
    AbsentLetter(LOWERED, "rate_limit", '_');
    AbsentLetter(LOWERED, "too many requests", 'u');
    AbsentLetter(LOWERED, "connection refused", 'c');
    AbsentLetter(LOWERED, "connection reset", 'c');
    AbsentLetter(LOWERED, "temporary", 'y');
    AbsentLetter(LOWERED, "unavailable", 'u');
    AbsentLetter(LOWERED, "503", '5');
    AbsentLetter(LOWERED, "502", '5');
    AbsentLetter(LOWERED, "504", '5');
  }

  // ---- No phrase begins in the fixed words and ends in the id ----

  /** No beginning of the phrase reads like the end of "node ". */
  predicate Apart(phrase: string)
  {
    && |phrase| > 1 && phrase[0] != ' ' && phrase[1] != ' '
    && forall k :: 2 <= k < |phrase| ==> !(phrase[k - 2] == 'd' && phrase[k - 1] == 'e' && phrase[k] == ' ')
  }

  lemma CriticalApart(phrase: string)
    requires phrase in CRITICAL_PHRASES
    ensures Apart(phrase)
  {
  }

  lemma SpacedApart()
    ensures Apart("timed out") && Apart("rate limit") && Apart("too many requests")
    ensures Apart("connection refused") && Apart("connection reset")
  {
  }

  lemma UnspacedApart(phrase: string)
    requires |phrase| > 1 && ' ' !in phrase
    ensures Apart(phrase)
  {
  }

  lemma TransientApart(phrase: string)
    requires phrase in TRANSIENT_PHRASES
    ensures Apart(phrase)
  {
    hide Apart;
    SpacedApart();
    if ' ' !in phrase {
      UnspacedApart(phrase);
    }
  }

  lemma NoOverlap(phrase: string)
    requires Apart(phrase)
    ensures !Overlap(LOWERED, phrase)
  {
    forall k | 0 < k < |phrase| && k <= |LOWERED|
      ensures LOWERED[|LOWERED| - k..] != phrase[..k]
    {
      var end := LOWERED[|LOWERED| - k..];
      assert end[k - 1] == ' ';
      assert k > 1 ==> end[k - 2] == 'e';
      assert k > 2 ==> end[k - 3] == 'd';
    }
  }

  // ---- Hence it lies in the id ----

  lemma PhraseIsInId(nid: string, phrase: string)
    requires !Contains(LOWERED, phrase) && Apart(phrase)
    ensures Contains(Lower(NO_IMPLEMENTATION + nid), phrase) <==> Contains(Lower(nid), phrase)
  {
    hide Contains, Lower, Apart;
    MessageIsLowered();
    LowerOfBoth(NO_IMPLEMENTATION, nid);
    NoOverlap(phrase);
    InHeadOrTail(LOWERED, Lower(nid), phrase);
  }

  /** The message reads as critical, or as transient, exactly when the id does. */
  lemma IdDecides(nid: string)
    ensures ContainsAny(Lower(NO_IMPLEMENTATION + nid), CRITICAL_PHRASES) <==> ContainsAny(Lower(nid), CRITICAL_PHRASES)
    ensures ContainsAny(Lower(NO_IMPLEMENTATION + nid), TRANSIENT_PHRASES) <==> ContainsAny(Lower(nid), TRANSIENT_PHRASES)
  {
    hide Contains, Lower, Apart;
    forall phrase | phrase in CRITICAL_PHRASES || phrase in TRANSIENT_PHRASES
      ensures Contains(Lower(NO_IMPLEMENTATION + nid), phrase) <==> Contains(Lower(nid), phrase)
    {
      if phrase in CRITICAL_PHRASES {
        NotCritical(phrase);
        CriticalApart(phrase);
      } else {
        NotTransient(phrase);
        TransientApart(phrase);
      }
      PhraseIsInId(nid, phrase);
    }
  }
}
