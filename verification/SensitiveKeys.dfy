/** `is_sensitive_key`: which names mark their value as one that must not leave. */
module SensitiveKeys {
  import opened Regex
  import opened Text

  const SENSITIVE_WORDS: set<string> := {
    "iban", "swift", "bic", "salary", "totp", "otp", "password", "passwd",
    "secret", "token", "email", "phone", "ip"
  }

  const SENSITIVE_PHRASES: seq<string> := [
    "account_number", "bank_account", "national_id", "tax_id",
    "recovery_code", "mfa_secret", "routing_number", "sort_code",
    "api_key", "apikey", "private_key",
    "full_name", "first_name", "last_name"
  ]

  // ---- normalising

  /** `lower()` and then `replace("-", "_")`, character by character. */
  function Fold(c: char): char {
    if c == '-' then '_' else LowerChar(c)
  }

  function FoldAll(s: string): (t: string)
    ensures |t| == |s| && forall p | 0 <= p < |s| :: t[p] == Fold(s[p])
  {
    seq(|s|, p requires 0 <= p < |s| => Fold(s[p]))
  }

  function Normalised(key: string): string { FoldAll(Strip(key)) }

  // ---- words and phrases

  /** A character of `[_\-.\s]` */
  predicate IsDelimiter(c: char) { c == '_' || c == '-' || c == '.' || IsSpace(c) }

  function SkipWord(s: string, i: nat): (e: nat)
    requires i <= |s|
    ensures i <= e <= |s|
    ensures forall p | i <= p < e :: !IsDelimiter(s[p])
    ensures e < |s| ==> IsDelimiter(s[e])
    decreases |s| - i
  {
    if i < |s| && !IsDelimiter(s[i]) then SkipWord(s, i + 1) else i
  }

  function SkipDelimiters(s: string, i: nat): (e: nat)
    requires i <= |s|
    ensures i <= e <= |s|
    ensures forall p | i <= p < e :: IsDelimiter(s[p])
    ensures e < |s| ==> !IsDelimiter(s[e])
    decreases |s| - i
  {
    if i < |s| && IsDelimiter(s[i]) then SkipDelimiters(s, i + 1) else i
  }

  /** `_SPLIT.split(s)` from position `i`: the stretches between runs of delimiters. */
  function SplitFrom(s: string, i: nat): (words: seq<string>)
    requires i <= |s|
    decreases |s| - i
  {
    var e := SkipWord(s, i);
    if e == |s| then [s[i..e]]
    else [s[i..e]] + SplitFrom(s, SkipDelimiters(s, e))
  }

  predicate IsSensitiveWord(w: string) {
    w in SENSITIVE_WORDS || (w != [] && w[|w| - 1] == 's' && w[..|w| - 1] in SENSITIVE_WORDS)
  }

  predicate OccursAt(part: string, s: string, i: nat) {
    i + |part| <= |s| && s[i..i + |part|] == part
  }

  predicate Occurs(part: string, s: string) {
    exists i: nat | i <= |s| :: OccursAt(part, s, i)
  }

  predicate MarksValue(normalised: string) {
    || (exists k | 0 <= k < |SENSITIVE_PHRASES| :: Occurs(SENSITIVE_PHRASES[k], normalised))
    || (exists w | w in SplitFrom(normalised, 0) :: IsSensitiveWord(w))
  }

  predicate IsSensitiveKey(key: string) { MarksValue(Normalised(key)) }

  // ---- a split word is a stretch with a delimiter or an edge on either side

  predicate IsWordRun(s: string, i: nat, e: nat) {
    && i < e <= |s|
    && (forall p | i <= p < e :: !IsDelimiter(s[p]))
    && (i == 0 || IsDelimiter(s[i - 1]))
    && (e == |s| || IsDelimiter(s[e]))
  }

  lemma {:induction false} SplitGivesRuns(s: string, i: nat, w: string) returns (a: nat, b: nat)
    requires i <= |s| && (i == 0 || IsDelimiter(s[i - 1]))
    requires w != [] && w in SplitFrom(s, i)
    ensures i <= a && IsWordRun(s, a, b) && s[a..b] == w
    decreases |s| - i
  {
    a, b := i, SkipWord(s, i);
    if w != s[a..b] {
      a, b := SplitGivesRuns(s, SkipDelimiters(s, b), w);
    }
  }

  lemma {:induction false} RunsAreSplit(s: string, i: nat, a: nat, b: nat)
    requires i <= |s| && (i == 0 || IsDelimiter(s[i - 1]))
    requires i <= a && IsWordRun(s, a, b)
    ensures s[a..b] in SplitFrom(s, i)
    decreases |s| - i
  {
    var e := SkipWord(s, i);
    if a == i {
      assert b == e;
    } else {
      RunBeyond(s, i, a, b);
      RunsAreSplit(s, SkipDelimiters(s, e), a, b);
    }
  }

  lemma {:induction false} RunBeyond(s: string, i: nat, a: nat, b: nat)
    requires i <= |s|
    requires i < a && IsWordRun(s, a, b)
    ensures SkipWord(s, i) < |s| && SkipDelimiters(s, SkipWord(s, i)) <= a
  {
    var e := SkipWord(s, i);
    assert IsDelimiter(s[a - 1]) && !IsDelimiter(s[a]);
    assert e <= a - 1;
  }

  // ---- closure under word-delimited extension

  /** `x` can stand before a word and `y` after it without joining it. */
  predicate Delimited(x: string, y: string) {
    (x == [] || IsDelimiter(x[|x| - 1])) && (y == [] || IsDelimiter(y[0]))
  }

  /** A sensitive name stays so behind a dot, an underscore, a hyphen or a blank. */
  lemma {:induction false} JoinedStaysSensitive(before: string, d: char, key: string)
    requires IsSensitiveKey(key) && d in "_-. "
    ensures IsSensitiveKey(before + [d] + key)
  {
    SensitivityIsClosed(before + [d], key, "");
    assert before + [d] + key + "" == before + [d] + key;
  }

  lemma {:induction false} MarkSurvives(x: string, n: string, y: string)
    requires Delimited(x, y) && MarksValue(n)
    ensures MarksValue(x + n + y)
  {
    if k :| 0 <= k < |SENSITIVE_PHRASES| && Occurs(SENSITIVE_PHRASES[k], n) {
      PhraseSurvives(SENSITIVE_PHRASES[k], x, n, y);
    } else {
      var w :| w in SplitFrom(n, 0) && IsSensitiveWord(w);
      SensitiveNotEmpty(w);
      var i, e := SplitGivesRuns(n, 0, w);
      RunStillMarks(x, n, y, x + n + y, i, e);
    }
  }

  lemma {:induction false} PhraseSurvives(part: string, x: string, n: string, y: string)
    requires Occurs(part, n)
    ensures Occurs(part, x + n + y)
  {
    var i: nat :| i <= |n| && OccursAt(part, n, i);
    assert (x + n + y)[|x| + i..|x| + i + |part|] == n[i..i + |part|];
    assert OccursAt(part, x + n + y, |x| + i);
  }

  lemma {:induction false} RunStillMarks(x: string, n: string, y: string, t: string, i: nat, e: nat)
    requires Delimited(x, y) && t == x + n + y && IsWordRun(n, i, e) && IsSensitiveWord(n[i..e])
    ensures MarksValue(t)
  {
    RunSurvives(x, n, y, t, i, e);
    WordMarks(t, |x| + i, |x| + e);
  }

  lemma {:induction false} WordMarks(t: string, a: nat, b: nat)
    requires IsWordRun(t, a, b) && IsSensitiveWord(t[a..b])
    ensures MarksValue(t)
  {
    RunsAreSplit(t, 0, a, b);
  }

  lemma {:induction false} SensitiveNotEmpty(w: string)
    requires IsSensitiveWord(w)
    ensures w != []
  {
  }

  lemma {:induction false} RunSurvives(x: string, n: string, y: string, t: string, i: nat, e: nat)
    requires Delimited(x, y) && IsWordRun(n, i, e) && t == x + n + y
    ensures IsWordRun(t, |x| + i, |x| + e)
    ensures t[|x| + i..|x| + e] == n[i..e]
  {
    assert forall p | 0 <= p < |n| :: t[|x| + p] == n[p];
    assert forall p | |x| + i <= p < |x| + e :: t[p] == n[p - |x|];
    assert x != [] ==> t[|x| - 1] == x[|x| - 1];
    assert y != [] ==> t[|x| + |n|] == y[0];
  }

  lemma {:induction false} StripLeftDrops(s: string)
    ensures |StripLeft(s)| <= |s| && StripLeft(s) == s[|s| - |StripLeft(s)|..]
    ensures forall p | 0 <= p < |s| - |StripLeft(s)| :: IsSpace(s[p])
  {
    if s != [] && IsSpace(s[0]) { StripLeftDrops(s[1..]); }
  }

  lemma {:induction false} StripRightDrops(s: string)
    ensures |StripRight(s)| <= |s| && StripRight(s) == s[..|StripRight(s)|]
    ensures forall p | |StripRight(s)| <= p < |s| :: IsSpace(s[p])
  {
    if s != [] && IsSpace(s[|s| - 1]) { StripRightDrops(s[..|s| - 1]); }
  }

  /** Stripping removes a space prefix and a space suffix, and no more than that. */
  lemma {:induction false} StripLeftOf(x: string, core: string)
    requires core != [] && !IsSpace(core[0])
    ensures exists x' :: StripLeft(x + core) == x' + core && (x' == [] || (x != [] && x'[|x'| - 1] == x[|x| - 1]))
    decreases |x|
  {
    if x == [] {
      assert x + core == core == [] + core;
    } else if IsSpace(x[0]) {
      StripLeftOf(x[1..], core);
      assert (x + core)[1..] == x[1..] + core;
    } else {
      assert StripLeft(x + core) == x + core;
    }
  }

  lemma {:induction false} StripRightOf(core: string, y: string)
    requires core != [] && !IsSpace(core[|core| - 1])
    ensures exists y' :: StripRight(core + y) == core + y' && (y' == [] || (y != [] && y'[0] == y[0]))
    decreases |y|
  {
    if y == [] {
      assert core + y == core == core + [];
    } else if IsSpace(y[|y| - 1]) {
      StripRightOf(core, y[..|y| - 1]);
      assert (core + y)[..|core + y| - 1] == core + y[..|y| - 1];
    } else {
      assert StripRight(core + y) == core + y;
    }
  }

  lemma {:induction false} StripEnds(key: string) returns (a: string, b: string)
    ensures var core := Strip(key); core != [] ==> !IsSpace(core[0]) && !IsSpace(core[|core| - 1])
    ensures key == a + Strip(key) + b && AllSpace(a) && AllSpace(b)
  {
    var left := StripLeft(key);
    StripLeftDrops(key);
    StripRightDrops(left);
    var core := StripRight(left);
    a, b := key[..|key| - |left|], left[|core|..];
    assert key == a + core + b;
    StripLeftStops(key);
    StripRightStops(left);
  }

  lemma {:induction false} StripLeftStops(s: string)
    ensures StripLeft(s) != [] ==> !IsSpace(StripLeft(s)[0])
  {
    if s != [] && IsSpace(s[0]) { StripLeftStops(s[1..]); }
  }

  lemma {:induction false} StripRightStops(s: string)
    ensures StripRight(s) != [] ==> !IsSpace(StripRight(s)[|StripRight(s)| - 1])
  {
    if s != [] && IsSpace(s[|s| - 1]) { StripRightStops(s[..|s| - 1]); }
  }

  /** What stripping keeps of `x + core + y`: the core, with at most the inner ends of the
      surrounding text. */
  lemma {:induction false} StripAround(x: string, core: string, y: string) returns (x': string, y': string)
    requires core != [] && !IsSpace(core[0]) && !IsSpace(core[|core| - 1])
    ensures Strip(x + core + y) == x' + core + y'
    ensures x' == [] || (x != [] && x'[|x'| - 1] == x[|x| - 1])
    ensures y' == [] || (y != [] && y'[0] == y[0])
  {
    var tail := core + y;
    assert x + core + y == x + tail;
    StripLeftOf(x, tail);
    x' :| StripLeft(x + tail) == x' + tail && (x' == [] || (x != [] && x'[|x'| - 1] == x[|x| - 1]));
    var head := x' + core;
    assert x' + tail == head + y;
    assert head[|head| - 1] == core[|core| - 1];
    StripRightOf(head, y);
    y' :| StripRight(head + y) == head + y' && (y' == [] || (y != [] && y'[0] == y[0]));
    assert x' + core + y' == head + y';
  }

  /** The extended name normalises to the name's own normal form, still set off by
      delimiters. */
  lemma {:induction false} NormalisedAround(before: string, key: string, after: string) returns (x: string, y: string)
    requires Strip(key) != [] && Delimited(before, after)
    ensures Delimited(x, y)
    ensures Normalised(before + key + after) == x + Normalised(key) + y
  {
    var core := Strip(key);
    var a, b := StripEnds(key);
    var left, right := before + a, b + after;
    Regroup(before, a, core, b, after);
    DelimitedEnds(before, a, b, after);
    var x', y' := StripAround(left, core, right);
    x, y := FoldAll(x'), FoldAll(y');
    FoldKeepsDelimiters(x', y');
    FoldJoin(x', core, y');
  }

  lemma {:induction false} Regroup(before: string, a: string, core: string, b: string, after: string)
    ensures before + (a + core + b) + after == (before + a) + core + (b + after)
  {
  }

  lemma {:induction false} FoldJoin(x: string, core: string, y: string)
    ensures FoldAll(x + core + y) == FoldAll(x) + FoldAll(core) + FoldAll(y)
  {
  }

  /** Adding words in front of or behind a sensitive name, joined by a delimiter, never
      makes it less sensitive. */
  lemma {:induction false} SensitivityIsClosed(before: string, key: string, after: string)
    requires IsSensitiveKey(key)
    requires Delimited(before, after)
    ensures IsSensitiveKey(before + key + after)
  {
    EmptyIsNotSensitive();
    assert Normalised(key) != [];
    var x, y := NormalisedAround(before, key, after);
    MarkSurvives(x, Normalised(key), y);
  }

  lemma {:induction false} DelimitedEnds(before: string, a: string, b: string, after: string)
    requires Delimited(before, after) && AllSpace(a) && AllSpace(b)
    ensures Delimited(before + a, b + after)
  {
  }

  lemma {:induction false} FoldKeepsDelimiters(x: string, y: string)
    requires Delimited(x, y)
    ensures Delimited(FoldAll(x), FoldAll(y))
  {
  }

  lemma {:induction false} EmptyIsNotSensitive()
    ensures !MarksValue([])
  {
    assert SplitFrom([], 0) == [[]];
    forall k | 0 <= k < |SENSITIVE_PHRASES| ensures !Occurs(SENSITIVE_PHRASES[k], []) {
      assert |SENSITIVE_PHRASES[k]| > 0;
    }
  }

  // ---- what makes a name sensitive

  /** `n` is `core` in lower case, with an underscore for every hyphen. */
  predicate Folded(core: string, n: string) {
    |n| == |core| && forall p | 0 <= p < |core| ::
      if core[p] == '-' then n[p] == '_'
      else if 'A' <= core[p] <= 'Z' then n[p] as int == core[p] as int + 32
      else n[p] == core[p]
  }

  ghost predicate HasPhrase(n: string) {
    exists k, x, y :: 0 <= k < |SENSITIVE_PHRASES| && n == x + SENSITIVE_PHRASES[k] + y
  }

  /** A listed word, or the plural of one. */
  ghost predicate Listed(w: string) { w in SENSITIVE_WORDS || exists v :: v in SENSITIVE_WORDS && w == v + "s" }

  /** A listed word stands between two delimiters or edges. */
  ghost predicate HasWord(n: string) { exists i: nat, e: nat :: IsWordRun(n, i, e) && Listed(n[i..e]) }

  lemma {:induction false} WordIsListed(w: string)
    ensures IsSensitiveWord(w) <==> Listed(w)
  {
    if IsSensitiveWord(w) && w !in SENSITIVE_WORDS { assert w == w[..|w| - 1] + "s"; }
    if v :| v in SENSITIVE_WORDS && w == v + "s" {
      assert w[..|w| - 1] == v;
    }
  }

  lemma {:induction false} PhraseOccurs(part: string, n: string)
    ensures Occurs(part, n) <==> exists x, y :: n == x + part + y
  {
    if Occurs(part, n) {
      var i: nat :| i <= |n| && OccursAt(part, n, i);
      assert n == n[..i] + part + n[i + |part|..];
    }
    if x, y :| n == x + part + y {
      assert n[|x|..|x| + |part|] == part;
      assert OccursAt(part, n, |x|);
    }
  }

  lemma {:induction false} MarksExactlyWhen(n: string)
    ensures MarksValue(n) <==> HasPhrase(n) || HasWord(n)
  {
    forall k | 0 <= k < |SENSITIVE_PHRASES|
      ensures Occurs(SENSITIVE_PHRASES[k], n) <==> exists x, y :: n == x + SENSITIVE_PHRASES[k] + y
    {
      PhraseOccurs(SENSITIVE_PHRASES[k], n);
    }
    if w :| w in SplitFrom(n, 0) && IsSensitiveWord(w) {
      SensitiveNotEmpty(w);
      var i, e := SplitGivesRuns(n, 0, w);
      WordIsListed(w);
      assert IsWordRun(n, i, e) && Listed(n[i..e]);
    }
    if HasWord(n) {
      var i: nat, e: nat :| IsWordRun(n, i, e) && Listed(n[i..e]);
      WordIsListed(n[i..e]);
      WordMarks(n, i, e);
    }
  }

  /** A name is sensitive exactly when, spaces around it taken off and folded, a listed phrase
      occurs in it or a listed word, or its plural, stands in it between delimiters. */
  lemma {:induction false} SensitiveExactlyWhen(a: string, core: string, b: string, n: string)
    requires AllSpace(a) && AllSpace(b) && Trimmed(core) && Folded(core, n)
    ensures IsSensitiveKey(a + core + b) <==> HasPhrase(n) || HasWord(n)
  {
    StripOf(a, core, b);
    assert FoldAll(core) == n;
    MarksExactlyWhen(n);
  }
}
