/** What scrubbing makes of the plainest text there is to scrub: a name, an equals sign and a
    value. */
module BarePairs {
  import opened Wrappers
  import opened Regex
  import opened Substitution
  import opened SensitiveKeys
  import opened ShapePatterns
  import opened ErrorScrubber
  import K = KeyValuePattern

  predicate Bare(name: string, value: string) {
    && name != [] && In(name[0], IdentStart) && (forall p | 0 <= p < |name| :: In(name[p], IdentChar))
    && value != [] && (forall p | 0 <= p < |value| :: In(value[p], BareValue))
    && value[0] != '\'' && value[0] != '"'
  }

  // ---------------------------------------------------------------- scanning one

  lemma {:induction false} RunStopsAt(k: CharClass, s: string, i: nat, e: nat)
    requires i <= e <= |s| && (forall p | i <= p < e :: In(s[p], k)) && !CharAt(k, s, e)
    ensures RunEnd(k, s, i) == e
    decreases e - i
  {
    if i < e { RunStopsAt(k, s, i + 1, e); }
  }

  lemma {:induction false} KeyScans(s: string, n: nat)
    requires 0 < n < |s| && In(s[0], IdentStart) && s[n] == '='
    requires forall p | 0 <= p < n :: In(s[p], IdentChar)
    ensures K.ScanKey(s, 0) == Some(n)
  {
    RunStopsAt(IdentChar, s, 1, n);
  }

  lemma {:induction false} SepScans(s: string, n: nat)
    requires n < |s| && s[n] == '=' && !CharAt(Space, s, n + 1)
    ensures K.ScanSep(s, n) == Some(n + 1)
  {
    RunStopsAt(Space, s, n, n);
    RunStopsAt(Space, s, n + 1, n + 1);
  }

  lemma {:induction false} ValueScans(s: string, v: nat)
    requires v < |s| && s[v] != '\'' && s[v] != '"' && forall p | v <= p < |s| :: In(s[p], BareValue)
    ensures K.ScanValue(s, v) == Some(|s|)
  {
    RunStopsAt(BareValue, s, v, |s|);
  }

  /** The name up to `n`, the sign, and the value. */
  predicate LaidOut(s: string, n: nat) {
    && 0 < n && n + 1 < |s| && In(s[0], IdentStart) && s[n] == '=' && s[n + 1] != '\'' && s[n + 1] != '"'
    && (forall p | 0 <= p < n :: In(s[p], IdentChar))
    && forall p | n + 1 <= p < |s| :: In(s[p], BareValue)
  }

  lemma {:induction false} BareIsLaidOut(name: string, value: string, s: string)
    requires Bare(name, value) && s == name + "=" + value
    ensures LaidOut(s, |name|)
  {
    var n := |name|;
    assert forall p | 0 <= p < n :: s[p] == name[p];
    assert forall p | n < p < |s| :: s[p] == value[p - n - 1];
  }

  lemma {:induction false} PiecesScan(s: string, n: nat)
    requires n < |s| && K.ScanKey(s, 0) == Some(n)
    requires K.ScanSep(s, n) == Some(n + 1) && K.ScanValue(s, n + 1) == Some(|s|)
    ensures K.Scan(s, 0) == Some(K.Groups(n, n + 1, |s|))
  {
  }

  lemma {:induction false} BareScans(s: string, n: nat)
    requires LaidOut(s, n)
    ensures K.Scan(s, 0) == Some(K.Groups(n, n + 1, |s|))
  {
    KeyScans(s, n);
    SepScans(s, n);
    ValueScans(s, n + 1);
    PiecesScan(s, n);
  }

  // ---------------------------------------------------------------- redacting one

  lemma {:induction false} OneSpan(s: string, g: K.Groups)
    requires s != [] && K.Scan(s, 0) == Some(g) && g.valueEnd == |s|
    ensures Spans(PairTable(s), 0) == [Span(0, |s|)]
  {
    var m := PairTable(s);
    assert m[0] == Some(|s|);
    assert Spans(m, |s|) == [];
  }

  lemma {:induction false} OnePair(s: string, g: K.Groups)
    requires s != [] && K.Scan(s, 0) == Some(g) && g.valueEnd == |s|
    ensures RedactPairs(s) == RedactGroups(s, 0, g)
  {
    OneSpan(s, g);
    TableSpansArePairs(s);
    var spans := [Span(0, |s|)];
    RedactStep(s, 0, spans);
    assert spans[1..] == [] && RedactFrom(s, |s|, []) == s[|s|..] == [];
    assert s[0..0] == [];
  }

  lemma {:induction false} OneRedacted(name: string, value: string, s: string)
    requires s == name + "=" + value && StripQuotes(name) == name
    ensures RedactGroups(s, 0, K.Groups(|name|, |name| + 1, |s|)) ==
      name + "=" + if IsSensitiveKey(name) then REDACTED else value
  {
    var n := |name|;
    assert s[0..n] == name && s[n..n + 1] == "=" && s[0..|s|] == s;
  }

  lemma {:induction false} NameHasNoQuotes(name: string)
    requires name != [] && forall p | 0 <= p < |name| :: In(name[p], IdentChar)
    ensures StripQuotes(name) == name
  {
    StripQuotesOf([], name, []);
    assert [] + name + [] == name;
  }

  /** In such a text the value goes exactly when the name is sensitive, and nothing else does. */
  lemma {:induction false} BarePairIsRedacted(name: string, value: string)
    requires Bare(name, value)
    ensures RedactPairs(name + "=" + value) == name + "=" + if IsSensitiveKey(name) then REDACTED else value
  {
    var s := name + "=" + value;
    BareIsLaidOut(name, value, s);
    BareScans(s, |name|);
    OnePair(s, K.Groups(|name|, |name| + 1, |s|));
    NameHasNoQuotes(name);
    OneRedacted(name, value, s);
  }

  // ---------------------------------------------------------------- the shape passes after it

  lemma {:induction false} NoSpans(m: Matches, i: nat)
    requires i <= |m| && forall p | 0 <= p < |m| :: m[p] == None
    ensures Spans(m, i) == []
    decreases |m| - i
  {
    if i < |m| { NoSpans(m, i + 1); }
  }

  lemma {:induction false} NothingToReplace(r: Rx, s: string)
    requires NoMatch(r, s)
    ensures Sub(r, REDACTED, s) == s
  {
    NoSpans(MatchTable(r, s), 0);
    assert s[0..] == s;
  }

  lemma {:induction false} NothingNeededThere(r: Rx, k: CharClass, s: string)
    requires Needs(r, k) && forall p | 0 <= p < |s| :: !In(s[p], k)
    ensures NoMatch(r, s)
  {
    forall i: nat | i <= |s| ensures Ends(r, s, i) == [] {
      if Ends(r, s, i) != [] { NeedsConsumes(r, k, s, i, Ends(r, s, i)[0]); }
    }
  }

  lemma {:induction false} NoAtNoEmail(s: string)
    requires forall p | 0 <= p < |s| :: s[p] != '@'
    ensures NoMatch(Email(), s)
  {
    EmailIsBlind();
    NothingNeededThere(Email(), At, s);
  }

  predicate NoTwoCapitals(s: string) { forall p | 0 <= p < |s| - 1 :: !IsUpper(s[p]) || !IsUpper(s[p + 1]) }

  lemma {:induction false} NoIbanThere(s: string, i: nat, e: nat)
    requires NoTwoCapitals(s)
    ensures !IbanAt(s, i, e)
  {
    if i + 1 < |s| { assert !IsUpper(s[i]) || !IsUpper(s[i + 1]); }
  }

  lemma {:induction false} NoCapitalsNoIban(s: string)
    requires NoTwoCapitals(s)
    ensures NoMatch(Iban(), s)
  {
    forall i: nat | i <= |s| ensures Ends(Iban(), s, i) == [] {
      if Ends(Iban(), s, i) != [] {
        IbanEnds(s, i, Ends(Iban(), s, i)[0]);
        NoIbanThere(s, i, Ends(Iban(), s, i)[0]);
      }
    }
  }

  lemma {:induction false} PasswordIsSensitive()
    ensures IsSensitiveKey("password")
  {
    var n := "password";
    assert n[0..8] == n && IsWordRun(n, 0, 8) && Listed(n[0..8]);
    SensitiveExactlyWhen([], n, [], n);
    assert [] + n + [] == n;
  }

  lemma {:induction false} ShapePassesLeave(s: string)
    requires NoTwoCapitals(s) && forall p | 0 <= p < |s| :: s[p] != '@'
    ensures Sub(Iban(), REDACTED, Sub(Email(), REDACTED, s)) == s
  {
    NoAtNoEmail(s);
    NoCapitalsNoIban(s);
    NothingToReplace(Email(), s);
    NothingToReplace(Iban(), s);
  }

  /** Scrubbing such a text for a sensitive name leaves the name and the marker. */
  lemma {:induction false} BarePairIsScrubbed(name: string, value: string, t: string)
    requires Bare(name, value) && IsSensitiveKey(name) && t == name + "=" + REDACTED
    requires NoTwoCapitals(t) && forall p | 0 <= p < |t| :: t[p] != '@'
    ensures ScrubText(name + "=" + value) == t
  {
    BarePairIsRedacted(name, value);
    ShapePassesLeave(t);
  }

  lemma {:induction false} ExampleTexts(name: string, value: string, s: string, t: string)
    requires name == "password" && value == "x" && s == "password=x" && t == "password=[Filtered]"
    ensures Bare(name, value) && s == name + "=" + value && t == name + "=" + REDACTED
    ensures NoTwoCapitals(t) && forall p | 0 <= p < |t| :: t[p] != '@'
  {
  }

  /** An input: a password in a message. */
  lemma {:induction false} PasswordIsScrubbed(name: string, value: string, s: string, t: string)
    requires name == "password" && value == "x" && s == "password=x" && t == "password=[Filtered]"
    ensures ScrubText(s) == t
  {
    ExampleTexts(name, value, s, t);
    PasswordIsSensitive();
    BarePairIsScrubbed(name, value, t);
  }
}
