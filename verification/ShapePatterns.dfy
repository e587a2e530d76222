/** The two patterns that catch a value by its shape, and why substituting the marker for
    their matches leaves no match behind. */
module ShapePatterns {
  import opened Wrappers
  import opened Regex
  import opened Substitution

  const REDACTED := "[Filtered]"

  // ---------------------------------------------------------------- the patterns

  function EmailDomain(): Rx {
    Cat(Plus(Chr(Label)), Cat(Star(Cat(Chr(Dot), Plus(Chr(Label)))), Cat(Chr(Dot), Cat(Chr(Alpha), Plus(Chr(Alpha))))))
  }

  /** `[A-Za-z0-9._%+-]+@[A-Za-z0-9-]+(?:\.[A-Za-z0-9-]+)*\.[A-Za-z]{2,}` */
  function Email(): Rx { Cat(Plus(Chr(EmailLocal)), Cat(Chr(At), EmailDomain())) }

  /** `[A-Z]{2}\d{2}[A-Z0-9]{11,30}` */
  function IbanBody(): Rx {
    Cat(Exactly(Chr(Upper), 2), Cat(Exactly(Chr(Digit), 2), IbanTail()))
  }

  function IbanTail(): Rx { Cat(Exactly(Chr(UpperOrDigit), 11), UpTo(Chr(UpperOrDigit), 19)) }

  function Iban(): Rx { Cat(Boundary, Cat(IbanBody(), Boundary)) }

  // ---------------------------------------------------------------- IBANs

  predicate IbanShape(s: string, i: nat, e: nat) {
    && e <= |s| && 15 <= e - i <= 34
    && (forall p | i <= p < i + 2 :: IsUpper(s[p]))
    && (forall p | i + 2 <= p < i + 4 :: IsDigit(s[p]))
    && (forall p | i + 4 <= p < e :: IsUpper(s[p]) || IsDigit(s[p]))
  }

  /** An IBAN-shaped run with no word character on either side. */
  predicate IbanAt(s: string, i: nat, e: nat) {
    IbanShape(s, i, e) && !WordAt(s, i - 1) && !WordAt(s, e)
  }

  lemma {:induction false} IbanTailEnds(s: string, i: nat, e: nat)
    requires i <= |s|
    ensures e in Ends(IbanTail(), s, i) <==>
      e <= |s| && 11 <= e - i <= 30 && forall p | i <= p < e :: In(s[p], UpperOrDigit)
  {
    if e in Ends(IbanTail(), s, i) {
      var m := CatSplit(Exactly(Chr(UpperOrDigit), 11), UpTo(Chr(UpperOrDigit), 19), s, i, e);
      ExactlyOfChars(UpperOrDigit, 11, s, i, m);
      UpToOfChars(UpperOrDigit, 19, s, m, e);
    }
    if e <= |s| && 11 <= e - i <= 30 && forall p | i <= p < e :: In(s[p], UpperOrDigit) {
      ExactlyOfChars(UpperOrDigit, 11, s, i, i + 11);
      UpToOfChars(UpperOrDigit, 19, s, i + 11, e);
      CatJoin(Exactly(Chr(UpperOrDigit), 11), UpTo(Chr(UpperOrDigit), 19), s, i, i + 11, e);
    }
  }

  lemma {:induction false} IbanBodyEnds(s: string, i: nat, e: nat)
    requires i <= |s|
    ensures e in Ends(IbanBody(), s, i) <==> IbanShape(s, i, e)
  {
    if e in Ends(IbanBody(), s, i) { BodyHasShape(s, i, e); }
    if IbanShape(s, i, e) { ShapeIsBody(s, i, e); }
  }

  function Digits(): Rx { Cat(Exactly(Chr(Digit), 2), IbanTail()) }

  lemma {:induction false} BodyHasShape(s: string, i: nat, e: nat)
    requires i <= |s| && e in Ends(IbanBody(), s, i)
    ensures IbanShape(s, i, e)
  {
    var m := CatSplit(Exactly(Chr(Upper), 2), Digits(), s, i, e);
    var n := CatSplit(Exactly(Chr(Digit), 2), IbanTail(), s, m, e);
    ExactlyOfChars(Upper, 2, s, i, m);
    ExactlyOfChars(Digit, 2, s, m, n);
    IbanTailEnds(s, n, e);
  }

  lemma {:induction false} ShapeHasDigits(s: string, i: nat, e: nat)
    requires IbanShape(s, i, e)
    ensures e in Ends(Digits(), s, i + 2)
  {
    ExactlyOfChars(Digit, 2, s, i + 2, i + 4);
    IbanTailEnds(s, i + 4, e);
    CatJoin(Exactly(Chr(Digit), 2), IbanTail(), s, i + 2, i + 4, e);
  }

  lemma {:induction false} ShapeIsBody(s: string, i: nat, e: nat)
    requires IbanShape(s, i, e)
    ensures e in Ends(IbanBody(), s, i)
  {
    ExactlyOfChars(Upper, 2, s, i, i + 2);
    ShapeHasDigits(s, i, e);
    CatJoin(Exactly(Chr(Upper), 2), Digits(), s, i, i + 2, e);
  }

  /** The engine's match is the whole word run, so there is at most one end. */
  lemma {:induction false} IbanEnds(s: string, i: nat, e: nat)
    requires i <= |s|
    ensures e in Ends(Iban(), s, i) <==> IbanAt(s, i, e)
  {
    var rest := Cat(IbanBody(), Boundary);
    if e in Ends(Iban(), s, i) {
      var m := CatSplit(Boundary, rest, s, i, e);
      var n := CatSplit(IbanBody(), Boundary, s, i, e);
      IbanBodyEnds(s, i, e);
      assert WordAt(s, i) && WordAt(s, e - 1);
    }
    if IbanAt(s, i, e) {
      IbanBodyEnds(s, i, e);
      assert WordAt(s, i) && WordAt(s, e - 1);
      CatJoin(IbanBody(), Boundary, s, i, e, e);
      CatJoin(Boundary, rest, s, i, i, e);
    }
  }

  // ------------------------------------------- substitution leaves nothing behind

  /** No stretch that the spans leave in place matches `r`. */
  ghost predicate GapsClean(r: Rx, s: string, i: nat, spans: seq<Span>)
    requires Ordered(s, i, spans)
    decreases |spans|
  {
    var stop := if spans == [] then |s| else spans[0].lo;
    && (forall a, b | i <= a <= b <= stop :: b !in Ends(r, s, a))
    && (spans != [] ==> GapsClean(r, s, spans[0].hi, spans[1..]))
  }

  /** A pattern that never reads a bracket, and needs a character the marker lacks. */
  ghost predicate BlindToMarker(r: Rx, k: CharClass) {
    && ContextFree(r) && Excludes(r, '[') && Excludes(r, ']') && Needs(r, k)
    && (forall p | 0 <= p < |REDACTED| :: !In(REDACTED[p], k))
  }

  lemma {:induction false} SpliceClean(r: Rx, k: CharClass, s: string, i: nat, spans: seq<Span>)
    requires BlindToMarker(r, k)
    requires Ordered(s, i, spans) && GapsClean(r, s, i, spans)
    ensures NoMatch(r, Splice(s, i, spans, REDACTED))
    decreases |spans|
  {
    var t := Splice(s, i, spans, REDACTED);
    if spans != [] { SpliceClean(r, k, s, spans[0].hi, spans[1..]); }
    forall a: nat | a <= |t| ensures Ends(r, t, a) == [] {
      if Ends(r, t, a) != [] {
        var b := Ends(r, t, a)[0];
        NeedsConsumes(r, k, t, a, b);
        if spans == [] {
          Locality(r, t, a, b, s, i + a);
        } else {
          NoMatchAround(r, k, s, i, spans[0].lo, Splice(s, spans[0].hi, spans[1..], REDACTED), a, b);
        }
        assert false;
      }
    }
  }

  lemma {:induction false} BeforeMarker(r: Rx, s: string, i: nat, lo: nat, t: string, a: nat, b: nat)
    requires ContextFree(r) && i <= lo <= |s|
    requires forall c, d | i <= c <= d <= lo :: d !in Ends(r, s, c)
    requires lo - i <= |t| && t[..lo - i] == s[i..lo] && a < b <= lo - i
    ensures b !in Ends(r, t, a)
  {
    forall p | a <= p < b ensures t[p] == s[p - a + (i + a)] {
      assert t[p] == t[..lo - i][p] && s[i + p] == s[i..lo][p];
    }
    if b in Ends(r, t, a) { Locality(r, t, a, b, s, i + a); }
  }

  lemma {:induction false} PastMarker(r: Rx, rest: string, t: string, skip: nat, a: nat, b: nat)
    requires ContextFree(r) && NoMatch(r, rest)
    requires skip <= |t| && t[skip..] == rest && skip <= a < b <= |t|
    ensures b !in Ends(r, t, a)
  {
    forall p | a <= p < b ensures t[p] == rest[p - a + (a - skip)] {
      assert t[p] == t[skip..][p - skip];
    }
    if b in Ends(r, t, a) { Locality(r, t, a, b, rest, a - skip); }
  }

  lemma {:induction false} AcrossBracket(r: Rx, t: string, a: nat, b: nat, p: nat)
    requires Excludes(r, '[') && Excludes(r, ']')
    requires a <= p < b <= |t| && (t[p] == '[' || t[p] == ']')
    ensures b !in Ends(r, t, a)
  {
    if b in Ends(r, t, a) { NeverSpans(r, t[p], t, a, b, p); }
  }

  /** A match in the spliced text would lie in the first gap, touch the marker, or lie in
      what follows it. */
  lemma {:induction false} NoMatchAround(r: Rx, k: CharClass, s: string, i: nat, lo: nat, rest: string, a: nat, b: nat)
    requires BlindToMarker(r, k)
    requires i <= lo <= |s|
    requires forall c, d | i <= c <= d <= lo :: d !in Ends(r, s, c)
    requires NoMatch(r, rest)
    requires a < b <= |s[i..lo] + REDACTED + rest|
    ensures b !in Ends(r, s[i..lo] + REDACTED + rest, a)
  {
    var t := s[i..lo] + REDACTED + rest;
    var gap := lo - i;
    var skip := gap + |REDACTED|;
    assert t[gap] == '[' && t[skip - 1] == ']';
    if b <= gap {
      BeforeMarker(r, s, i, lo, t, a, b);
    } else if a >= skip {
      assert t[skip..] == rest;
      PastMarker(r, rest, t, skip, a, b);
    } else if a <= gap {
      AcrossBracket(r, t, a, b, gap);
    } else if skip <= b {
      AcrossBracket(r, t, a, b, skip - 1);
    } else {
      InsideMarker(r, k, t, gap, a, b);
    }
  }

  lemma {:induction false} InsideMarker(r: Rx, k: CharClass, t: string, gap: nat, a: nat, b: nat)
    requires BlindToMarker(r, k)
    requires gap < a < b < gap + |REDACTED| <= |t|
    requires t[gap..gap + |REDACTED|] == REDACTED
    ensures b !in Ends(r, t, a)
  {
    forall p | a <= p < b ensures !In(t[p], k) {
      assert t[p] == t[gap..gap + |REDACTED|][p - gap];
    }
    if b in Ends(r, t, a) { NeedsConsumes(r, k, t, a, b); }
  }

  lemma {:induction false} OwnGapsClean(r: Rx, k: CharClass, s: string, i: nat)
    requires Needs(r, k) && i <= |s|
    ensures Ordered(s, i, Spans(MatchTable(r, s), i)) && GapsClean(r, s, i, Spans(MatchTable(r, s), i))
    decreases |s| - i
  {
    var m := MatchTable(r, s);
    SpansAreOrdered(m, s, i);
    var spans := Spans(m, i);
    var stop := if spans == [] then |s| else spans[0].lo;
    forall a, b | i <= a <= b <= stop ensures b !in Ends(r, s, a) {
      if b in Ends(r, s, a) { MatchEndsAfterFirstSpan(r, k, s, i, a, b); }
    }
    if spans != [] {
      SpansTail(m, i);
      OwnGapsClean(r, k, s, spans[0].hi);
    }
  }

  lemma {:induction false} MatchEndsAfterFirstSpan(r: Rx, k: CharClass, s: string, i: nat, a: nat, b: nat)
    requires Needs(r, k) && i <= a <= b <= |s| && b in Ends(r, s, a)
    ensures var spans := Spans(MatchTable(r, s), i); spans != [] && spans[0].lo < b
  {
    NeedsConsumes(r, k, s, a, b);
    NeedsConsumes(r, k, s, a, Ends(r, s, a)[0]);
    FirstSpanIsFirst(MatchTable(r, s), i, a);
  }

  lemma {:induction false} IbanEndsAfterFirstSpan(s: string, i: nat, a: nat, b: nat)
    requires i <= a && IbanAt(s, a, b)
    ensures var spans := Spans(MatchTable(Iban(), s), i); spans != [] && spans[0].lo < b
  {
    IbanEnds(s, a, b);
    IbanEnds(s, a, Ends(Iban(), s, a)[0]);
    FirstSpanIsFirst(MatchTable(Iban(), s), i, a);
  }

  lemma {:induction false} SpansTail(m: Matches, i: nat)
    requires i <= |m| && Bounded(m) && Spans(m, i) != []
    ensures Spans(m, i)[0].hi <= |m|
    ensures Spans(m, i)[0].hi > i
    ensures Spans(m, i)[1..] == Spans(m, Spans(m, i)[0].hi)
    decreases |m| - i
  {
    if !MatchesAt(m, i) { SpansTail(m, i + 1); }
  }

  lemma {:induction false} CleanTextGaps(r: Rx, s: string, i: nat, spans: seq<Span>)
    requires NoMatch(r, s) && Ordered(s, i, spans)
    ensures GapsClean(r, s, i, spans)
    decreases |spans|
  {
    if spans != [] { CleanTextGaps(r, s, spans[0].hi, spans[1..]); }
  }

  /** Substituting the marker for every match leaves a text with no match. */
  lemma {:induction false} SubLeavesNoMatch(r: Rx, k: CharClass, s: string)
    requires BlindToMarker(r, k)
    ensures NoMatch(r, Sub(r, REDACTED, s))
  {
    OwnGapsClean(r, k, s, 0);
    SpliceClean(r, k, s, 0, Spans(MatchTable(r, s), 0));
  }

  /** Substituting the marker for another pattern's matches brings back no match of `r`. */
  lemma {:induction false} SubKeepsClean(q: Rx, r: Rx, k: CharClass, s: string)
    requires BlindToMarker(r, k)
    requires NoMatch(r, s)
    ensures NoMatch(r, Sub(q, REDACTED, s))
  {
    var m := MatchTable(q, s);
    SpansAreOrdered(m, s, 0);
    CleanTextGaps(r, s, 0, Spans(m, 0));
    SpliceClean(r, k, s, 0, Spans(m, 0));
  }

  lemma {:induction false} DomainIsBlind(c: char)
    requires c == '[' || c == ']'
    ensures ContextFree(EmailDomain()) && Excludes(EmailDomain(), c)
  {
    var tail := Cat(Chr(Dot), Cat(Chr(Alpha), Plus(Chr(Alpha))));
    assert Excludes(tail, c);
  }

  lemma {:induction false} EmailIsBlind()
    ensures BlindToMarker(Email(), At)
  {
    DomainIsBlind('[');
    DomainIsBlind(']');
    assert Needs(Cat(Chr(At), EmailDomain()), At);
  }

  // -------------------------------------------------- the same for IBANs, with `\b`

  /** No IBAN in `t`, read with `leftWord` telling whether a word character precedes it. */
  ghost predicate NoIbanAfter(t: string, leftWord: bool) {
    forall a: nat, b: nat | IbanShape(t, a, b) && !WordAt(t, b) ::
      if a == 0 then leftWord else WordAt(t, a - 1)
  }

  lemma {:induction false} FirstSpanIsIban(s: string, i: nat)
    requires i <= |s| && Spans(MatchTable(Iban(), s), i) != []
    ensures var span := Spans(MatchTable(Iban(), s), i)[0]; IbanAt(s, span.lo, span.hi)
  {
    var m := MatchTable(Iban(), s);
    SpansAreLeftmost(m, i);
    var span := Spans(m, i)[0];
    IbanEnds(s, span.lo, span.hi);
  }

  lemma {:induction false} SpliceNoIban(s: string, i: nat)
    requires i <= |s|
    ensures Ordered(s, i, Spans(MatchTable(Iban(), s), i))
    ensures NoIbanAfter(Splice(s, i, Spans(MatchTable(Iban(), s), i), REDACTED), WordAt(s, i - 1))
    decreases |s| - i
  {
    var m := MatchTable(Iban(), s);
    var spans := Spans(m, i);
    SpansAreOrdered(m, s, i);
    var t := Splice(s, i, spans, REDACTED);
    forall a: nat, b: nat | i <= a && IbanAt(s, a, b) ensures spans != [] && spans[0].lo < b {
      IbanEndsAfterFirstSpan(s, i, a, b);
    }
    if spans != [] {
      SpansTail(m, i);
      SpliceNoIban(s, spans[0].hi);
      FirstSpanIsIban(s, i);
      forall a: nat, b: nat | IbanShape(t, a, b) && !WordAt(t, b)
        ensures if a == 0 then WordAt(s, i - 1) else WordAt(t, a - 1)
      {
        NoIbanInSplice(s, i, spans, a, b);
      }
    } else {
      forall a: nat, b: nat | IbanShape(t, a, b) && !WordAt(t, b)
        ensures if a == 0 then WordAt(s, i - 1) else WordAt(t, a - 1)
      {
        assert IbanShape(s, i + a, i + b);
        assert !IbanAt(s, i + a, i + b);
      }
    }
  }

  lemma {:induction false} NoIbanInSplice(s: string, i: nat, spans: seq<Span>, a: nat, b: nat)
    requires Ordered(s, i, spans) && spans != []
    requires IbanAt(s, spans[0].lo, spans[0].hi)
    requires forall c: nat, d: nat | i <= c && IbanAt(s, c, d) :: d > spans[0].lo
    requires NoIbanAfter(Splice(s, spans[0].hi, spans[1..], REDACTED), WordAt(s, spans[0].hi - 1))
    requires IbanShape(Splice(s, i, spans, REDACTED), a, b)
    requires !WordAt(Splice(s, i, spans, REDACTED), b)
    ensures if a == 0 then WordAt(s, i - 1) else WordAt(Splice(s, i, spans, REDACTED), a - 1)
  {
    var t := Splice(s, i, spans, REDACTED);
    var lo, hi := spans[0].lo, spans[0].hi;
    var gap := lo - i;
    var skip := gap + |REDACTED|;
    var rest := Splice(s, hi, spans[1..], REDACTED);
    assert t == s[i..lo] + REDACTED + rest;
    assert forall p | a <= p < b :: IsWord(t[p]);
    assert t[gap] == '[' && t[skip - 1] == ']';
    if b <= gap {
      InGap(s, i, lo, t, a, b);
    } else if a >= skip {
      AfterMarker(s, hi, spans[1..], t, skip, a, b);
    } else {
      assert false;
    }
  }

  lemma {:induction false} InGap(s: string, i: nat, lo: nat, t: string, a: nat, b: nat)
    requires i <= lo < |s| && WordAt(s, lo) && !WordAt(s, lo - 1)
    requires forall c: nat, d: nat | i <= c && IbanAt(s, c, d) :: d > lo
    requires |t| > lo - i && s[i..lo] == t[..lo - i]
    requires IbanShape(t, a, b) && b <= lo - i && !WordAt(t, b)
    ensures if a == 0 then WordAt(s, i - 1) else WordAt(t, a - 1)
  {
    forall p | 0 <= p < lo - i ensures t[p] == s[i + p] {
      assert s[i..lo][p] == t[..lo - i][p];
    }
    assert IbanShape(s, i + a, i + b);
    assert WordAt(s, i + b - 1);
    assert !IbanAt(s, i + a, i + b);
  }

  lemma {:induction false} AfterMarker(s: string, hi: nat, spans: seq<Span>, t: string, skip: nat, a: nat, b: nat)
    requires Ordered(s, hi, spans) && !WordAt(s, hi)
    requires NoIbanAfter(Splice(s, hi, spans, REDACTED), WordAt(s, hi - 1))
    requires 0 < skip <= |t| && t[skip..] == Splice(s, hi, spans, REDACTED)
    requires IbanShape(t, a, b) && a >= skip && !WordAt(t, b)
    ensures a > skip && WordAt(t, a - 1)
  {
    var rest := Splice(s, hi, spans, REDACTED);
    forall p | skip <= p < |t| ensures t[p] == rest[p - skip] {
      assert t[skip..][p - skip] == rest[p - skip];
    }
    assert IbanShape(rest, a - skip, b - skip);
    SpliceStart(s, hi, spans);
  }

  lemma {:induction false} SpliceStart(s: string, hi: nat, spans: seq<Span>)
    requires Ordered(s, hi, spans) && !WordAt(s, hi)
    ensures !WordAt(Splice(s, hi, spans, REDACTED), 0)
  {
    var t := Splice(s, hi, spans, REDACTED);
    if spans != [] {
      var rest := Splice(s, spans[0].hi, spans[1..], REDACTED);
      assert t == s[hi..spans[0].lo] + REDACTED + rest;
      assert t[0] == if spans[0].lo == hi then '[' else s[hi];
    }
  }

  lemma {:induction false} SubLeavesNoIban(s: string)
    ensures NoMatch(Iban(), Sub(Iban(), REDACTED, s))
  {
    SpliceNoIban(s, 0);
    var t := Sub(Iban(), REDACTED, s);
    forall a: nat | a <= |t| ensures Ends(Iban(), t, a) == [] {
      if Ends(Iban(), t, a) != [] {
        IbanEnds(t, a, Ends(Iban(), t, a)[0]);
        assert false;
      }
    }
  }
}
