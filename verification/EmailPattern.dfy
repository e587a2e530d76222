/** What the email pattern matches, read off the text alone. */
module EmailPattern {
  import opened Regex
  import opened ShapePatterns

  predicate All(k: CharClass, s: string, i: nat, e: nat) {
    i <= e <= |s| && forall p | i <= p < e :: In(s[p], k)
  }

  /** Labels joined by dots, none of them empty: the text from `i` to `e`, read from its start. */
  predicate Dotted(s: string, i: nat, e: nat) {
    && i < e <= |s|
    && (forall p | i <= p < e :: In(s[p], Label) || s[p] == '.')
    && s[i] != '.' && s[e - 1] != '.'
    && forall p | i <= p < e - 1 :: s[p] == '.' ==> s[p + 1] != '.'
  }

  /** A local part, an at sign, labels joined by dots, and a last one of two letters or more. */
  predicate EmailParts(s: string, i: nat, at: nat, dot: nat, e: nat) {
    && i < at < dot && dot + 3 <= e <= |s|
    && All(EmailLocal, s, i, at) && s[at] == '@'
    && Dotted(s, at + 1, dot) && s[dot] == '.'
    && All(Alpha, s, dot + 1, e)
  }

  predicate EmailAt(s: string, i: nat, e: nat) {
    exists at, dot | i <= at <= e && i <= dot <= e :: EmailParts(s, i, at, dot, e)
  }

  // ---------------------------------------------------------------- the pieces

  lemma JoinRange(a: Rx, b: Rx, s: string, i: nat, m: nat, e: nat)
    requires i <= m <= e <= |s| && MatchesRange(a, s, i, m) && MatchesRange(b, s, m, e)
    ensures MatchesRange(Cat(a, b), s, i, e)
  {
  }

  lemma StarRangeJoin(a: Rx, s: string, i: nat, m: nat, e: nat)
    requires i < m <= e <= |s| && MatchesRange(a, s, i, m) && MatchesRange(Star(a), s, m, e)
    ensures MatchesRange(Star(a), s, i, e)
  {
  }

  lemma {:induction false} StarOfClass(k: CharClass, s: string, i: nat, e: nat)
    requires i <= e <= |s|
    ensures MatchesRange(Star(Chr(k)), s, i, e) <==> All(k, s, i, e)
    decreases e - i
  {
    if i < e {
      if MatchesRange(Star(Chr(k)), s, i, e) {
        var m := StarRange(Chr(k), s, i, e);
        StarOfClass(k, s, m, e);
      } else if All(k, s, i, e) {
        StarOfClass(k, s, i + 1, e);
        StarRangeJoin(Chr(k), s, i, i + 1, e);
      }
    }
  }

  lemma {:induction false} PlusOfClass(k: CharClass, s: string, i: nat, e: nat)
    requires i <= e <= |s|
    ensures MatchesRange(Plus(Chr(k)), s, i, e) <==> i < e && All(k, s, i, e)
  {
    if MatchesRange(Plus(Chr(k)), s, i, e) {
      var m := CatRange(Chr(k), Star(Chr(k)), s, i, e);
      StarOfClass(k, s, m, e);
    } else if i < e && All(k, s, i, e) {
      StarOfClass(k, s, i + 1, e);
      JoinRange(Chr(k), Star(Chr(k)), s, i, i + 1, e);
    }
  }

  function DotLabel(): Rx { Cat(Chr(Dot), Plus(Chr(Label))) }

  lemma {:induction false} OneDotLabel(s: string, i: nat, e: nat)
    requires i <= e <= |s|
    ensures MatchesRange(DotLabel(), s, i, e) <==> i + 1 < e && s[i] == '.' && All(Label, s, i + 1, e)
  {
    if MatchesRange(DotLabel(), s, i, e) {
      var m := CatRange(Chr(Dot), Plus(Chr(Label)), s, i, e);
      PlusOfClass(Label, s, m, e);
    } else if i + 1 < e && s[i] == '.' && All(Label, s, i + 1, e) {
      PlusOfClass(Label, s, i + 1, e);
      JoinRange(Chr(Dot), Plus(Chr(Label)), s, i, i + 1, e);
    }
  }

  /** Where the label that starts at `i` stops. */
  function LabelEnd(s: string, i: nat, e: nat): (m: nat)
    requires i <= e <= |s|
    ensures i <= m <= e && (forall p | i <= p < m :: s[p] != '.') && (m < e ==> s[m] == '.')
    decreases e - i
  {
    if i == e || s[i] == '.' then i else LabelEnd(s, i + 1, e)
  }

  /** Dots and labels in turn are what may follow a label. */
  predicate Tail(s: string, i: nat, e: nat) { i == e || (i + 1 < e <= |s| && s[i] == '.' && Dotted(s, i + 1, e)) }

  lemma {:induction false} TailOfLabels(s: string, i: nat, e: nat)
    requires i <= e <= |s|
    ensures MatchesRange(Star(DotLabel()), s, i, e) <==> Tail(s, i, e)
    decreases e - i
  {
    if i < e {
      if MatchesRange(Star(DotLabel()), s, i, e) {
        var m := StarRange(DotLabel(), s, i, e);
        OneDotLabel(s, i, m);
        TailOfLabels(s, m, e);
        LabelThenTail(s, i + 1, m, e);
      } else if Tail(s, i, e) {
        var m := LabelEnd(s, i + 1, e);
        TailSplits(s, i + 1, m, e);
        OneDotLabel(s, i, m);
        TailOfLabels(s, m, e);
        StarRangeJoin(DotLabel(), s, i, m, e);
      }
    }
  }

  lemma LabelThenTail(s: string, i: nat, m: nat, e: nat)
    requires i < m <= e <= |s| && All(Label, s, i, m) && Tail(s, m, e)
    ensures Dotted(s, i, e)
  {
  }

  lemma TailSplits(s: string, i: nat, m: nat, e: nat)
    requires Dotted(s, i, e) && m == LabelEnd(s, i, e)
    ensures i < m && All(Label, s, i, m) && Tail(s, m, e)
  {
  }

  function Labels(): Rx { Cat(Plus(Chr(Label)), Star(DotLabel())) }

  lemma {:induction false} LabelsAreDotted(s: string, i: nat, e: nat)
    requires i <= e <= |s|
    ensures MatchesRange(Labels(), s, i, e) <==> Dotted(s, i, e)
  {
    if MatchesRange(Labels(), s, i, e) {
      var m := CatRange(Plus(Chr(Label)), Star(DotLabel()), s, i, e);
      PlusOfClass(Label, s, i, m);
      TailOfLabels(s, m, e);
      LabelThenTail(s, i, m, e);
    } else if Dotted(s, i, e) {
      var m := LabelEnd(s, i, e);
      TailSplits(s, i, m, e);
      PlusOfClass(Label, s, i, m);
      TailOfLabels(s, m, e);
      JoinRange(Plus(Chr(Label)), Star(DotLabel()), s, i, m, e);
    }
  }

  function TopLevel(): Rx { Cat(Chr(Dot), Letters()) }

  function Letters(): Rx { Cat(Chr(Alpha), Plus(Chr(Alpha))) }

  lemma {:induction false} TopLevelIs(s: string, i: nat, e: nat)
    requires i <= e <= |s|
    ensures MatchesRange(TopLevel(), s, i, e) <==> i + 3 <= e && s[i] == '.' && All(Alpha, s, i + 1, e)
  {
    if MatchesRange(TopLevel(), s, i, e) {
      var m := CatRange(Chr(Dot), Letters(), s, i, e);
      var n := CatRange(Chr(Alpha), Plus(Chr(Alpha)), s, m, e);
      PlusOfClass(Alpha, s, n, e);
    } else if i + 3 <= e && s[i] == '.' && All(Alpha, s, i + 1, e) {
      PlusOfClass(Alpha, s, i + 2, e);
      JoinRange(Chr(Alpha), Plus(Chr(Alpha)), s, i + 1, i + 2, e);
      JoinRange(Chr(Dot), Letters(), s, i, i + 1, e);
    }
  }

  // ---------------------------------------------------------------- the whole

  lemma {:induction false} DomainIs(s: string, i: nat, e: nat)
    requires i <= e <= |s|
    ensures MatchesRange(EmailDomain(), s, i, e) <==>
      exists dot | i <= dot <= e :: Dotted(s, i, dot) && MatchesRange(TopLevel(), s, dot, e)
  {
    var rest := Cat(Star(DotLabel()), TopLevel());
    if MatchesRange(EmailDomain(), s, i, e) {
      var m := CatRange(Plus(Chr(Label)), rest, s, i, e);
      var dot := CatRange(Star(DotLabel()), TopLevel(), s, m, e);
      JoinRange(Plus(Chr(Label)), Star(DotLabel()), s, i, m, dot);
      LabelsAreDotted(s, i, dot);
    } else if dot :| i <= dot <= e && Dotted(s, i, dot) && MatchesRange(TopLevel(), s, dot, e) {
      LabelsAreDotted(s, i, dot);
      var m := CatRange(Plus(Chr(Label)), Star(DotLabel()), s, i, dot);
      JoinRange(Star(DotLabel()), TopLevel(), s, m, dot, e);
      JoinRange(Plus(Chr(Label)), rest, s, i, m, e);
    }
  }

  lemma {:induction false} DomainSplits(s: string, i: nat, e: nat) returns (dot: nat)
    requires i <= e <= |s| && MatchesRange(EmailDomain(), s, i, e)
    ensures i <= dot && dot + 3 <= e && Dotted(s, i, dot) && s[dot] == '.' && All(Alpha, s, dot + 1, e)
  {
    DomainIs(s, i, e);
    dot :| i <= dot <= e && Dotted(s, i, dot) && MatchesRange(TopLevel(), s, dot, e);
    TopLevelIs(s, dot, e);
  }

  lemma {:induction false} LocalSplits(s: string, i: nat, e: nat) returns (at: nat)
    requires i <= e <= |s| && MatchesRange(Email(), s, i, e)
    ensures i < at < e && All(EmailLocal, s, i, at) && s[at] == '@' && MatchesRange(EmailDomain(), s, at + 1, e)
  {
    at := CatRange(Plus(Chr(EmailLocal)), Cat(Chr(At), EmailDomain()), s, i, e);
    PlusOfClass(EmailLocal, s, i, at);
    var m := CatRange(Chr(At), EmailDomain(), s, at, e);
  }

  lemma {:induction false} MatchIsEmail(s: string, i: nat, e: nat)
    requires i <= e <= |s| && MatchesRange(Email(), s, i, e)
    ensures EmailAt(s, i, e)
  {
    var at := LocalSplits(s, i, e);
    var dot := DomainSplits(s, at + 1, e);
    assert EmailParts(s, i, at, dot, e);
  }

  lemma {:induction false} EmailIsMatch(s: string, i: nat, at: nat, dot: nat, e: nat)
    requires EmailParts(s, i, at, dot, e)
    ensures MatchesRange(Email(), s, i, e)
  {
    PlusOfClass(EmailLocal, s, i, at);
    TopLevelIs(s, dot, e);
    DomainIs(s, at + 1, e);
    JoinRange(Chr(At), EmailDomain(), s, at, at + 1, e);
    JoinRange(Plus(Chr(EmailLocal)), Cat(Chr(At), EmailDomain()), s, i, at, e);
  }

  /** The pattern matches from one position to another exactly when that text is an address of
      this form. */
  lemma {:induction false} EmailEnds(s: string, i: nat, e: nat)
    requires i <= |s|
    ensures e in Ends(Email(), s, i) <==> EmailAt(s, i, e)
  {
    if i <= e <= |s| {
      EndsAreMatches(Email(), s, i, e);
      if MatchesRange(Email(), s, i, e) { MatchIsEmail(s, i, e); }
      if EmailAt(s, i, e) {
        var at, dot :| i <= at <= e && i <= dot <= e && EmailParts(s, i, at, dot, e);
        EmailIsMatch(s, i, at, dot, e);
      }
    }
  }
}
