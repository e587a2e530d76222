/** Backtracking regular expressions as Python's `re` evaluates them: ordered
    alternatives, greedy repetition, word boundaries, and leftmost non-overlapping
    substitution. Characters are read as ASCII. */
module Regex {
  import opened Wrappers

  /** The character classes the three scrubbing patterns are built from. */
  datatype CharClass =
    | Upper | Digit | UpperOrDigit | Alpha | IdentStart | IdentChar
    | QuoteMark | Apostrophe | NotApostrophe | DoubleQuote | NotDoubleQuote
    | Space | EqualsOrColon | BareValue
    | EmailLocal | At | Label | Dot

  predicate IsUpper(c: char) { 'A' <= c <= 'Z' }
  predicate IsDigit(c: char) { '0' <= c <= '9' }
  predicate IsAlpha(c: char) { 'A' <= c <= 'Z' || 'a' <= c <= 'z' }
  predicate IsWord(c: char) { IsAlpha(c) || IsDigit(c) || c == '_' }
  /** `\s` and `str.isspace` agree on ASCII: tab to carriage return, the four
      separator controls, and the blank. */
  predicate IsSpace(c: char) { 9 <= c as int <= 13 || 28 <= c as int <= 32 }

  predicate In(c: char, k: CharClass) {
    match k
    case Upper => IsUpper(c)
    case Digit => IsDigit(c)
    case UpperOrDigit => IsUpper(c) || IsDigit(c)
    case Alpha => IsAlpha(c)
    case IdentStart => IsAlpha(c) || c == '_'
    case IdentChar => IsWord(c)
    case QuoteMark => c == '\'' || c == '"'
    case Apostrophe => c == '\''
    case NotApostrophe => c != '\''
    case DoubleQuote => c == '"'
    case NotDoubleQuote => c != '"'
    case Space => IsSpace(c)
    case EqualsOrColon => c == '=' || c == ':'
    case BareValue => !IsSpace(c) && c != ',' && c != ';' && c != ')' && c != '}' && c != ']'
    case EmailLocal => IsAlpha(c) || IsDigit(c) || c == '.' || c == '_' || c == '%' || c == '+' || c == '-'
    case At => c == '@'
    case Label => IsAlpha(c) || IsDigit(c) || c == '-'
    case Dot => c == '.'
  }

  datatype Rx =
    | Chr(k: CharClass)
    | Boundary
    | Empty
    | Cat(l: Rx, r: Rx)
    | Alt(l: Rx, r: Rx)
    | Star(body: Rx)

  function Optional(r: Rx): Rx { Alt(r, Empty) }
  function Plus(r: Rx): Rx { Cat(r, Star(r)) }
  /** `r{n}` */
  function Exactly(r: Rx, n: nat): Rx { if n == 0 then Empty else Cat(r, Exactly(r, n - 1)) }
  /** `r{0,n}`, greedy */
  function UpTo(r: Rx, n: nat): Rx { if n == 0 then Empty else Optional(Cat(r, UpTo(r, n - 1))) }

  predicate WordAt(s: string, p: int) { 0 <= p < |s| && IsWord(s[p]) }
  predicate AtBoundary(s: string, i: nat) { WordAt(s, i - 1) != WordAt(s, i) }

  predicate Within(es: seq<nat>, lo: nat, hi: nat) {
    forall j | 0 <= j < |es| :: lo <= es[j] <= hi
  }

  /** The positions beyond `i`: a repetition only continues after progress. */
  function Later(es: seq<nat>, i: nat, hi: nat): (later: seq<nat>)
    requires Within(es, 0, hi)
    ensures Within(later, i + 1, hi)
  {
    if es == [] then []
    else if es[0] > i then [es[0]] + Later(es[1..], i, hi) else Later(es[1..], i, hi)
  }

  /** Every position at which a match of `r` started at `i` can end, in the order
      in which the backtracking engine tries them. */
  function Ends(r: Rx, s: string, i: nat): (es: seq<nat>)
    requires i <= |s|
    ensures Within(es, i, |s|)
    decreases r, |s| - i, 0, 0
  {
    match r
    case Chr(k) => if i < |s| && In(s[i], k) then [i + 1] else []
    case Boundary => if AtBoundary(s, i) then [i] else []
    case Empty => [i]
    case Cat(a, b) => EndsFrom(b, s, i, Ends(a, s, i))
    case Alt(a, b) => Ends(a, s, i) + Ends(b, s, i)
    case Star(a) => if i < |s| then EndsFrom(r, s, i + 1, Later(Ends(a, s, i), i, |s|)) + [i] else [i]
  }

  function EndsFrom(r: Rx, s: string, lo: nat, starts: seq<nat>): (es: seq<nat>)
    requires lo <= |s|
    requires Within(starts, lo, |s|)
    ensures Within(es, lo, |s|)
    decreases r, |s| - lo, 1, |starts|
  {
    if starts == [] then [] else Ends(r, s, starts[0]) + EndsFrom(r, s, lo, starts[1..])
  }

  /** What `pattern.match(s, i)` returns: the first path that succeeds. */
  function First(r: Rx, s: string, i: nat): (e: Option<nat>)
    requires i <= |s|
  {
    var es := Ends(r, s, i);
    if es == [] then None else Some(es[0])
  }

  ghost predicate NoMatch(r: Rx, s: string) {
    forall i: nat | i <= |s| :: Ends(r, s, i) == []
  }

  // ---------------------------------------------------------------- membership

  lemma {:induction false} LaterComesFrom(es: seq<nat>, i: nat, hi: nat, k: nat) returns (j: nat)
    requires Within(es, 0, hi) && k < |Later(es, i, hi)|
    ensures j < |es| && es[j] == Later(es, i, hi)[k]
  {
    if es[0] > i {
      if k == 0 { j := 0; } else { j := LaterComesFrom(es[1..], i, hi, k - 1); j := j + 1; }
    } else {
      j := LaterComesFrom(es[1..], i, hi, k);
      j := j + 1;
    }
  }

  lemma {:induction false} LaterKeeps(es: seq<nat>, i: nat, hi: nat, j: nat) returns (k: nat)
    requires Within(es, 0, hi) && j < |es| && es[j] > i
    ensures k < |Later(es, i, hi)| && Later(es, i, hi)[k] == es[j]
  {
    if j == 0 {
      k := 0;
    } else {
      k := LaterKeeps(es[1..], i, hi, j - 1);
      if es[0] > i { k := k + 1; }
    }
  }

  lemma {:induction false} EndsFromSplit(r: Rx, s: string, lo: nat, starts: seq<nat>, e: nat) returns (k: nat)
    requires lo <= |s| && Within(starts, lo, |s|)
    requires e in EndsFrom(r, s, lo, starts)
    ensures k < |starts| && e in Ends(r, s, starts[k])
    decreases |starts|
  {
    if e in Ends(r, s, starts[0]) {
      k := 0;
    } else {
      k := EndsFromSplit(r, s, lo, starts[1..], e);
      k := k + 1;
    }
  }

  lemma {:induction false} EndsFromJoin(r: Rx, s: string, lo: nat, starts: seq<nat>, k: nat, e: nat)
    requires lo <= |s| && Within(starts, lo, |s|)
    requires k < |starts| && e in Ends(r, s, starts[k])
    ensures e in EndsFrom(r, s, lo, starts)
    decreases |starts|
  {
    if k > 0 { EndsFromJoin(r, s, lo, starts[1..], k - 1, e); }
  }

  lemma {:induction false} CatUnfolds(a: Rx, b: Rx, s: string, i: nat)
    requires i <= |s|
    ensures Ends(Cat(a, b), s, i) == EndsFrom(b, s, i, Ends(a, s, i))
  {
  }

  lemma CatSplit(a: Rx, b: Rx, s: string, i: nat, e: nat) returns (m: nat)
    requires i <= |s| && e in Ends(Cat(a, b), s, i)
    ensures i <= m <= e && m in Ends(a, s, i) && e in Ends(b, s, m)
  {
    CatUnfolds(a, b, s, i);
    var k := EndsFromSplit(b, s, i, Ends(a, s, i), e);
    m := Ends(a, s, i)[k];
  }

  lemma CatJoin(a: Rx, b: Rx, s: string, i: nat, m: nat, e: nat)
    requires i <= |s| && m in Ends(a, s, i) && e in Ends(b, s, m)
    ensures e in Ends(Cat(a, b), s, i)
  {
    CatUnfolds(a, b, s, i);
    var k :| 0 <= k < |Ends(a, s, i)| && Ends(a, s, i)[k] == m;
    EndsFromJoin(b, s, i, Ends(a, s, i), k, e);
  }

  lemma CatMember(a: Rx, b: Rx, s: string, i: nat, e: nat)
    requires i <= |s|
    ensures e in Ends(Cat(a, b), s, i) <==> exists m :: m in Ends(a, s, i) && e in Ends(b, s, m)
  {
    if e in Ends(Cat(a, b), s, i) {
      var m := CatSplit(a, b, s, i, e);
    } else {
      forall m | m in Ends(a, s, i) ensures e !in Ends(b, s, m) {
        if e in Ends(b, s, m) { CatJoin(a, b, s, i, m, e); }
      }
    }
  }

  lemma {:induction false} StarUnfolds(a: Rx, s: string, i: nat)
    requires i < |s|
    ensures Ends(Star(a), s, i) == EndsFrom(Star(a), s, i + 1, Later(Ends(a, s, i), i, |s|)) + [i]
  {
  }

  lemma StarSplit(a: Rx, s: string, i: nat, e: nat) returns (m: nat)
    requires i <= |s| && e in Ends(Star(a), s, i) && e != i
    ensures i < m <= e && m in Ends(a, s, i) && e in Ends(Star(a), s, m)
  {
    StarUnfolds(a, s, i);
    var later := Later(Ends(a, s, i), i, |s|);
    var k := EndsFromSplit(Star(a), s, i + 1, later, e);
    var j := LaterComesFrom(Ends(a, s, i), i, |s|, k);
    m := later[k];
  }

  lemma StarSkip(a: Rx, s: string, i: nat)
    requires i <= |s|
    ensures i in Ends(Star(a), s, i)
  {
    if i < |s| { StarUnfolds(a, s, i); }
  }

  lemma StarJoin(a: Rx, s: string, i: nat, m: nat, e: nat)
    requires i <= |s| && m in Ends(a, s, i) && m > i && e in Ends(Star(a), s, m)
    ensures e in Ends(Star(a), s, i)
  {
    StarUnfolds(a, s, i);
    var j :| 0 <= j < |Ends(a, s, i)| && Ends(a, s, i)[j] == m;
    var k := LaterKeeps(Ends(a, s, i), i, |s|, j);
    EndsFromJoin(Star(a), s, i + 1, Later(Ends(a, s, i), i, |s|), k, e);
  }

  /** The declarative reading: `r` matches exactly the characters from `i` to `e`. */
  predicate MatchesRange(r: Rx, s: string, i: nat, e: nat)
    requires i <= e <= |s|
    decreases r, e - i
  {
    match r
    case Chr(k) => e == i + 1 && In(s[i], k)
    case Boundary => e == i && AtBoundary(s, i)
    case Empty => e == i
    case Cat(a, b) => exists m | i <= m <= e :: MatchesRange(a, s, i, m) && MatchesRange(b, s, m, e)
    case Alt(a, b) => MatchesRange(a, s, i, e) || MatchesRange(b, s, i, e)
    case Star(a) => e == i || exists m | i < m <= e :: MatchesRange(a, s, i, m) && MatchesRange(r, s, m, e)
  }

  /** Backtracking finds every match there is, and nothing else. */
  lemma {:induction false} EndsAreMatches(r: Rx, s: string, i: nat, e: nat)
    requires i <= e <= |s|
    ensures e in Ends(r, s, i) <==> MatchesRange(r, s, i, e)
    decreases r, e - i, 1
  {
    match r
    case Chr(_) =>
    case Boundary =>
    case Empty =>
    case Cat(a, b) => CatEndsAreMatches(r, a, b, s, i, e);
    case Alt(a, b) =>
      EndsAreMatches(a, s, i, e);
      EndsAreMatches(b, s, i, e);
    case Star(a) => StarEndsAreMatches(r, a, s, i, e);
  }

  lemma CatRange(a: Rx, b: Rx, s: string, i: nat, e: nat) returns (m: nat)
    requires i <= e <= |s| && MatchesRange(Cat(a, b), s, i, e)
    ensures i <= m <= e && MatchesRange(a, s, i, m) && MatchesRange(b, s, m, e)
  {
    m :| i <= m <= e && MatchesRange(a, s, i, m) && MatchesRange(b, s, m, e);
  }

  lemma StarRange(a: Rx, s: string, i: nat, e: nat) returns (m: nat)
    requires i < e <= |s| && MatchesRange(Star(a), s, i, e)
    ensures i < m <= e && MatchesRange(a, s, i, m) && MatchesRange(Star(a), s, m, e)
  {
    m :| i < m <= e && MatchesRange(a, s, i, m) && MatchesRange(Star(a), s, m, e);
  }

  lemma {:induction false} CatEndsAreMatches(r: Rx, a: Rx, b: Rx, s: string, i: nat, e: nat)
    requires r == Cat(a, b) && i <= e <= |s|
    ensures e in Ends(r, s, i) <==> MatchesRange(r, s, i, e)
    decreases r, e - i, 0
  {
    if e in Ends(r, s, i) {
      var m := CatSplit(a, b, s, i, e);
      EndsAreMatches(a, s, i, m);
      EndsAreMatches(b, s, m, e);
    } else if MatchesRange(r, s, i, e) {
      var m := CatRange(a, b, s, i, e);
      EndsAreMatches(a, s, i, m);
      EndsAreMatches(b, s, m, e);
      CatJoin(a, b, s, i, m, e);
    }
  }

  lemma {:induction false} StarEndsAreMatches(r: Rx, a: Rx, s: string, i: nat, e: nat)
    requires r == Star(a) && i <= e <= |s|
    ensures e in Ends(r, s, i) <==> MatchesRange(r, s, i, e)
    decreases r, e - i, 0
  {
    if e == i {
      StarSkip(a, s, i);
    } else if e in Ends(r, s, i) {
      var m := StarSplit(a, s, i, e);
      EndsAreMatches(a, s, i, m);
      EndsAreMatches(r, s, m, e);
    } else if MatchesRange(r, s, i, e) {
      var m := StarRange(a, s, i, e);
      EndsAreMatches(a, s, i, m);
      EndsAreMatches(r, s, m, e);
      StarJoin(a, s, i, m, e);
    }
  }

  predicate CharAt(k: CharClass, s: string, p: nat) { p < |s| && In(s[p], k) }

  /** A pattern that starts with a character class goes on from the next position. */
  lemma {:induction false} CharThen(k: CharClass, r: Rx, s: string, i: nat)
    requires i <= |s|
    ensures Ends(Cat(Chr(k), r), s, i) == if CharAt(k, s, i) then Ends(r, s, i + 1) else []
  {
    if CharAt(k, s, i) { EndsFromOne(r, s, i, i + 1); }
  }

  lemma {:induction false} EndsFromOne(r: Rx, s: string, lo: nat, m: nat)
    requires lo <= m <= |s|
    ensures EndsFrom(r, s, lo, [m]) == Ends(r, s, m)
  {
    assert [m][1..] == [];
    assert EndsFrom(r, s, lo, [m]) == Ends(r, s, m) + EndsFrom(r, s, lo, [m][1..]);
  }

  /** When only one start lets the rest of the pattern succeed, the search ends there,
      wherever that start stands in the preference order. */
  lemma {:induction false} OnlyStart(r: Rx, s: string, lo: nat, starts: seq<nat>, m: nat)
    requires lo <= |s| && Within(starts, lo, |s|)
    requires m in starts && OthersFail(r, s, starts, m)
    ensures EndsFrom(r, s, lo, starts) == [] <==> Ends(r, s, m) == []
    ensures Ends(r, s, m) != [] ==> EndsFrom(r, s, lo, starts)[0] == Ends(r, s, m)[0]
    decreases |starts|
  {
    if starts[0] == m {
      if Ends(r, s, m) == [] { NoStart(r, s, lo, starts, m); }
    } else {
      assert Ends(r, s, starts[0]) == [];
      OnlyStart(r, s, lo, starts[1..], m);
    }
  }

  ghost predicate OthersFail(r: Rx, s: string, starts: seq<nat>, m: nat) {
    forall j | 0 <= j < |starts| && starts[j] != m :: starts[j] <= |s| && Ends(r, s, starts[j]) == []
  }

  lemma {:induction false} NoStart(r: Rx, s: string, lo: nat, starts: seq<nat>, m: nat)
    requires lo <= |s| && Within(starts, lo, |s|)
    requires OthersFail(r, s, starts, m) && m <= |s| && Ends(r, s, m) == []
    ensures EndsFrom(r, s, lo, starts) == []
    decreases |starts|
  {
    if starts != [] { NoStart(r, s, lo, starts[1..], m); }
  }

  // ---------------------------------------------------------------- greedy runs

  /** The end of the maximal run of `k` characters that starts at `i`. */
  function RunEnd(k: CharClass, s: string, i: nat): (e: nat)
    requires i <= |s|
    ensures i <= e <= |s|
    ensures forall p | i <= p < e :: In(s[p], k)
    ensures e < |s| ==> !In(s[e], k)
    decreases |s| - i
  {
    if i < |s| && In(s[i], k) then RunEnd(k, s, i + 1) else i
  }

  lemma {:induction false} OneTurn(k: CharClass, s: string, i: nat)
    requires i < |s|
    ensures Ends(Star(Chr(k)), s, i) == if In(s[i], k) then Ends(Star(Chr(k)), s, i + 1) + [i] else [i]
  {
    StarUnfolds(Chr(k), s, i);
    if In(s[i], k) {
      assert Later([i + 1], i, |s|) == [i + 1] + Later([i + 1][1..], i, |s|);
      EndsFromOne(Star(Chr(k)), s, i + 1, i + 1);
    }
  }

  /** From `hi` down to `lo`. */
  function Countdown(hi: nat, lo: nat): (es: seq<nat>)
    requires lo <= hi
    ensures |es| == hi - lo + 1 && forall j | 0 <= j < |es| :: es[j] == hi - j
    decreases hi - lo
  {
    if lo == hi then [hi] else Countdown(hi, lo + 1) + [lo]
  }

  /** A greedy run tries its longest stretch first, then each shorter one. */
  lemma {:induction false} GreedyRun(k: CharClass, s: string, i: nat)
    requires i <= |s|
    ensures Ends(Star(Chr(k)), s, i) == Countdown(RunEnd(k, s, i), i)
    decreases |s| - i
  {
    if i < |s| {
      OneTurn(k, s, i);
      if In(s[i], k) { GreedyRun(k, s, i + 1); }
    }
  }

  lemma {:induction false} StarOfChars(k: CharClass, s: string, i: nat)
    requires i <= |s|
    ensures forall e :: e in Ends(Star(Chr(k)), s, i) <==> i <= e <= RunEnd(k, s, i)
    ensures Ends(Star(Chr(k)), s, i)[0] == RunEnd(k, s, i)
  {
    GreedyRun(k, s, i);
    var run := RunEnd(k, s, i);
    forall e | i <= e <= run ensures e in Ends(Star(Chr(k)), s, i) {
      assert Countdown(run, i)[run - e] == e;
    }
  }

  lemma {:induction false} ExactlyOfChars(k: CharClass, n: nat, s: string, i: nat, e: nat)
    requires i <= |s|
    ensures e in Ends(Exactly(Chr(k), n), s, i) <==>
      e == i + n && e <= |s| && forall p | i <= p < e :: In(s[p], k)
    decreases n
  {
    if n > 0 {
      CatMember(Chr(k), Exactly(Chr(k), n - 1), s, i, e);
      if i < |s| && In(s[i], k) { ExactlyOfChars(k, n - 1, s, i + 1, e); }
    }
  }

  lemma {:induction false} UpToOfChars(k: CharClass, n: nat, s: string, i: nat, e: nat)
    requires i <= |s|
    ensures e in Ends(UpTo(Chr(k), n), s, i) <==>
      i <= e <= i + n && e <= |s| && forall p | i <= p < e :: In(s[p], k)
    decreases n
  {
    if n > 0 {
      CatMember(Chr(k), UpTo(Chr(k), n - 1), s, i, e);
      if i < |s| && In(s[i], k) { UpToOfChars(k, n - 1, s, i + 1, e); }
    }
  }
}
