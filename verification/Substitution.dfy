/** `pattern.sub` as Python defines it: the leftmost non-overlapping matches, each
    replaced, everything between them copied. */
module Substitution {
  import opened Wrappers
  import opened Regex

  datatype Span = Span(lo: nat, hi: nat)

  /** For every start in the text, where the engine's match ends, if there is one. */
  type Matches = seq<Option<nat>>

  function MatchTable(r: Rx, s: string): (m: Matches)
    ensures |m| == |s| && forall p | 0 <= p < |s| :: m[p] == First(r, s, p)
  {
    seq(|s|, p requires 0 <= p < |s| => First(r, s, p))
  }

  predicate MatchesAt(m: Matches, p: nat) {
    p < |m| && m[p].Some? && m[p].value > p
  }

  /** Matches stay inside the text. */
  predicate Bounded(m: Matches) {
    forall p | 0 <= p < |m| && m[p].Some? :: p <= m[p].value <= |m|
  }

  /** `finditer` from position `i`: try each start in turn, continue after a match. */
  function Spans(m: Matches, i: nat): (spans: seq<Span>)
    requires i <= |m| && Bounded(m)
    decreases |m| - i
  {
    if i == |m| then []
    else if MatchesAt(m, i) then [Span(i, m[i].value)] + Spans(m, m[i].value)
    else Spans(m, i + 1)
  }

  ghost predicate AreMatches(m: Matches, i: nat, spans: seq<Span>)
    requires i <= |m|
  {
    forall j | 0 <= j < |spans| ::
      i <= spans[j].lo < spans[j].hi <= |m| && m[spans[j].lo] == Some(spans[j].hi)
  }

  ghost predicate Disjoint(spans: seq<Span>) {
    forall j, k | 0 <= j < k < |spans| :: spans[j].hi <= spans[k].lo
  }

  predicate Covered(spans: seq<Span>, p: nat) { exists j | 0 <= j < |spans| :: spans[j].lo <= p < spans[j].hi }

  ghost predicate NoneMissed(m: Matches, i: nat, spans: seq<Span>) {
    forall p | i <= p < |m| && MatchesAt(m, p) :: Covered(spans, p)
  }

  /** The declarative reading: an ordered list of disjoint spans, each the engine's match
      at its start, that leaves no other start at which the engine would match. */
  ghost predicate LeftmostMatches(m: Matches, i: nat, spans: seq<Span>)
    requires i <= |m|
  {
    AreMatches(m, i, spans) && Disjoint(spans) && NoneMissed(m, i, spans)
  }

  lemma {:induction false} SpansAreLeftmost(m: Matches, i: nat)
    requires i <= |m| && Bounded(m)
    ensures LeftmostMatches(m, i, Spans(m, i))
    decreases |m| - i
  {
    if i < |m| {
      if MatchesAt(m, i) {
        SpansAreLeftmost(m, m[i].value);
        FirstMatchLeads(m, i, Spans(m, m[i].value));
      } else {
        SpansAreLeftmost(m, i + 1);
        NoMatchLeads(m, i, Spans(m, i + 1));
      }
    }
  }

  lemma {:induction false} NoMatchLeads(m: Matches, i: nat, spans: seq<Span>)
    requires i < |m| && !MatchesAt(m, i) && LeftmostMatches(m, i + 1, spans)
    ensures LeftmostMatches(m, i, spans)
  {
  }

  lemma {:induction false} FirstMatchLeads(m: Matches, i: nat, rest: seq<Span>)
    requires Bounded(m) && MatchesAt(m, i) && LeftmostMatches(m, m[i].value, rest)
    ensures LeftmostMatches(m, i, [Span(i, m[i].value)] + rest)
  {
    var e := m[i].value;
    var spans := [Span(i, e)] + rest;
    forall p | i <= p < |m| && MatchesAt(m, p) ensures Covered(spans, p) {
      if p < e {
        assert spans[0].lo <= p < spans[0].hi;
      } else {
        assert Covered(rest, p);
        var j :| 0 <= j < |rest| && rest[j].lo <= p < rest[j].hi;
        assert spans[j + 1] == rest[j];
      }
    }
  }

  /** Leftmost matches are unique, so the scan is the declarative reading. */
  lemma {:induction false} LeftmostIsUnique(m: Matches, i: nat, spans: seq<Span>)
    requires i <= |m| && Bounded(m)
    requires LeftmostMatches(m, i, spans)
    ensures spans == Spans(m, i)
    decreases |m| - i
  {
    if i == |m| {
      if spans != [] { NoSpanFits(m, spans); }
    } else if MatchesAt(m, i) {
      FirstSpanIsHere(m, i, spans);
      RestIsLeftmost(m, i, spans);
      LeftmostIsUnique(m, spans[0].hi, spans[1..]);
      assert spans == [spans[0]] + spans[1..];
    } else {
      NoSpanHere(m, i, spans);
      LeftmostIsUnique(m, i + 1, spans);
    }
  }

  lemma {:induction false} NoSpanFits(m: Matches, spans: seq<Span>)
    requires spans != []
    ensures !AreMatches(m, |m|, spans)
  {
    var first := spans[0];
  }

  lemma {:induction false} FirstSpanIsHere(m: Matches, i: nat, spans: seq<Span>)
    requires Bounded(m) && MatchesAt(m, i) && LeftmostMatches(m, i, spans)
    ensures spans != [] && spans[0] == Span(i, m[i].value)
  {
    assert Covered(spans, i);
    var j :| 0 <= j < |spans| && spans[j].lo <= i < spans[j].hi;
    assert spans[0].lo <= i;
  }

  lemma {:induction false} RestIsLeftmost(m: Matches, i: nat, spans: seq<Span>)
    requires i <= |m| && spans != [] && LeftmostMatches(m, i, spans)
    ensures spans[0].hi <= |m| && LeftmostMatches(m, spans[0].hi, spans[1..])
  {
    var rest := spans[1..];
    forall p | spans[0].hi <= p < |m| && MatchesAt(m, p) ensures Covered(rest, p) {
      assert Covered(spans, p);
      var k :| 0 <= k < |spans| && spans[k].lo <= p < spans[k].hi;
      assert rest[k - 1] == spans[k];
    }
  }

  lemma {:induction false} NoSpanHere(m: Matches, i: nat, spans: seq<Span>)
    requires i < |m| && !MatchesAt(m, i) && LeftmostMatches(m, i, spans)
    ensures LeftmostMatches(m, i + 1, spans)
  {
    forall j | 0 <= j < |spans|
      ensures i + 1 <= spans[j].lo < spans[j].hi <= |m| && m[spans[j].lo] == Some(spans[j].hi)
    {
      assert MatchesAt(m, spans[j].lo);
    }
    assert AreMatches(m, i + 1, spans);
    assert NoneMissed(m, i + 1, spans);
  }

  /** The scan's first span starts no later than any match. */
  lemma {:induction false} FirstSpanIsFirst(m: Matches, i: nat, p: nat)
    requires i <= p < |m| && Bounded(m) && MatchesAt(m, p)
    ensures Spans(m, i) != [] && Spans(m, i)[0].lo <= p
  {
    var spans := Spans(m, i);
    SpansAreLeftmost(m, i);
    assert Covered(spans, p);
    var j :| 0 <= j < |spans| && spans[j].lo <= p < spans[j].hi;
  }

  predicate Ordered(s: string, i: nat, spans: seq<Span>)
    decreases |spans|
  {
    if spans == [] then i <= |s|
    else i <= spans[0].lo < spans[0].hi <= |s| && Ordered(s, spans[0].hi, spans[1..])
  }

  lemma {:induction false} SpansAreOrdered(m: Matches, s: string, i: nat)
    requires i <= |m| == |s| && Bounded(m)
    ensures Ordered(s, i, Spans(m, i))
    decreases |m| - i
  {
    if i < |m| {
      if MatchesAt(m, i) {
        SpansAreOrdered(m, s, m[i].value);
      } else {
        SpansAreOrdered(m, s, i + 1);
        var spans := Spans(m, i + 1);
        assert Spans(m, i) == spans;
      }
    }
  }

  /** Copies `s` from `i` with the marker in place of each span. */
  function Splice(s: string, i: nat, spans: seq<Span>, marker: string): string
    requires Ordered(s, i, spans)
    decreases |spans|
  {
    if spans == [] then s[i..]
    else s[i..spans[0].lo] + marker + Splice(s, spans[0].hi, spans[1..], marker)
  }

  /** `pattern.sub(marker, s)` */
  function Sub(r: Rx, marker: string, s: string): string {
    var m := MatchTable(r, s);
    SpansAreOrdered(m, s, 0);
    Splice(s, 0, Spans(m, 0), marker)
  }

  // ------------------------------------------------ what substitution changes

  /** Gaps and fills in turn, a gap first and last. */
  function Weave(gaps: seq<string>, fills: seq<string>): string
    requires |gaps| == |fills| + 1
  {
    if fills == [] then gaps[0] else gaps[0] + (fills[0] + Weave(gaps[1..], fills[1..]))
  }

  /** What `s` has from `i` on, between the spans and around them. */
  function Gaps(s: string, i: nat, spans: seq<Span>): (gaps: seq<string>)
    requires Ordered(s, i, spans)
    ensures |gaps| == |spans| + 1
    decreases |spans|
  {
    if spans == [] then [s[i..]] else [s[i..spans[0].lo]] + Gaps(s, spans[0].hi, spans[1..])
  }

  function Matched(s: string, i: nat, spans: seq<Span>): (fills: seq<string>)
    requires Ordered(s, i, spans)
    ensures |fills| == |spans|
    decreases |spans|
  {
    if spans == [] then [] else [s[spans[0].lo..spans[0].hi]] + Matched(s, spans[0].hi, spans[1..])
  }

  function Repeated(marker: string, n: nat): (fills: seq<string>)
    ensures |fills| == n && forall j | 0 <= j < n :: fills[j] == marker
  {
    seq(n, _ => marker)
  }

  lemma {:induction false} SpliceWeaves(s: string, i: nat, spans: seq<Span>, marker: string)
    requires Ordered(s, i, spans)
    ensures s[i..] == Weave(Gaps(s, i, spans), Matched(s, i, spans))
    ensures Splice(s, i, spans, marker) == Weave(Gaps(s, i, spans), Repeated(marker, |spans|))
    decreases |spans|
  {
    if spans != [] {
      var lo, hi, rest := spans[0].lo, spans[0].hi, spans[1..];
      SpliceWeaves(s, hi, rest, marker);
      assert s[i..] == s[i..lo] + (s[lo..hi] + s[hi..]);
      assert Repeated(marker, |spans|)[1..] == Repeated(marker, |rest|);
      assert s[i..lo] + marker + Splice(s, hi, rest, marker) == s[i..lo] + (marker + Splice(s, hi, rest, marker));
    }
  }

  /** `t` is `s` with the marker in the place of each leftmost match and nothing else changed. */
  ghost predicate Substituted(r: Rx, marker: string, s: string, t: string) {
    exists spans :: SubstitutedAt(r, marker, s, t, spans)
  }

  ghost predicate SubstitutedAt(r: Rx, marker: string, s: string, t: string, spans: seq<Span>) {
    && LeftmostMatches(MatchTable(r, s), 0, spans) && Ordered(s, 0, spans)
    && s == Weave(Gaps(s, 0, spans), Matched(s, 0, spans))
    && t == Weave(Gaps(s, 0, spans), Repeated(marker, |spans|))
  }

  /** That is what substitution gives, and all it can give. */
  lemma {:induction false} SubIsSubstituted(r: Rx, marker: string, s: string, t: string)
    ensures Substituted(r, marker, s, t) <==> t == Sub(r, marker, s)
  {
    var m := MatchTable(r, s);
    SpansAreLeftmost(m, 0);
    SpansAreOrdered(m, s, 0);
    SpliceWeaves(s, 0, Spans(m, 0), marker);
    assert s[0..] == s;
    if t == Sub(r, marker, s) { assert SubstitutedAt(r, marker, s, t, Spans(m, 0)); }
    if Substituted(r, marker, s, t) {
      var spans :| SubstitutedAt(r, marker, s, t, spans);
      LeftmostIsUnique(m, 0, spans);
    }
  }

  // ------------------------------------------------ what a match depends on

  predicate ContextFree(r: Rx) {
    match r
    case Chr(_) => true
    case Empty => true
    case Boundary => false
    case Cat(a, b) => ContextFree(a) && ContextFree(b)
    case Alt(a, b) => ContextFree(a) && ContextFree(b)
    case Star(a) => ContextFree(a)
  }

  /** `t` carries at `k` the text that `s` has from `i` to `e`. */
  predicate SameText(s: string, i: nat, e: nat, t: string, k: nat) {
    && i <= e <= |s|
    && k + (e - i) <= |t|
    && forall p | i <= p < e :: s[p] == t[p - i + k]
  }

  /** Without `\b`, whether `r` can match a stretch depends on that stretch alone. */
  lemma {:induction false} Locality(r: Rx, s: string, i: nat, e: nat, t: string, k: nat)
    requires ContextFree(r)
    requires SameText(s, i, e, t, k)
    requires e in Ends(r, s, i)
    ensures k + (e - i) in Ends(r, t, k)
  {
    EndsAreMatches(r, s, i, e);
    RangeIsLocal(r, s, i, e, t, k);
    EndsAreMatches(r, t, k, k + (e - i));
  }

  lemma {:induction false} RangeIsLocal(r: Rx, s: string, i: nat, e: nat, t: string, k: nat)
    requires ContextFree(r)
    requires SameText(s, i, e, t, k)
    requires MatchesRange(r, s, i, e)
    ensures MatchesRange(r, t, k, k + (e - i))
    decreases r, e - i
  {
    match r
    case Chr(c) =>
    case Empty =>
    case Cat(a, b) =>
      var m :| i <= m <= e && MatchesRange(a, s, i, m) && MatchesRange(b, s, m, e);
      RangeIsLocal(a, s, i, m, t, k);
      RangeIsLocal(b, s, m, e, t, k + (m - i));
    case Alt(a, b) =>
      if MatchesRange(a, s, i, e) { RangeIsLocal(a, s, i, e, t, k); } else { RangeIsLocal(b, s, i, e, t, k); }
    case Star(a) =>
      if e != i {
        var m :| i < m <= e && MatchesRange(a, s, i, m) && MatchesRange(r, s, m, e);
        RangeIsLocal(a, s, i, m, t, k);
        RangeIsLocal(r, s, m, e, t, k + (m - i));
      }
  }

  predicate Excludes(r: Rx, c: char) {
    match r
    case Chr(k) => !In(c, k)
    case Empty => true
    case Boundary => true
    case Cat(a, b) => Excludes(a, c) && Excludes(b, c)
    case Alt(a, b) => Excludes(a, c) && Excludes(b, c)
    case Star(a) => Excludes(a, c)
  }

  lemma {:induction false} NeverSpans(r: Rx, c: char, s: string, i: nat, e: nat, p: nat)
    requires Excludes(r, c)
    requires i <= p < e <= |s| && e in Ends(r, s, i)
    ensures s[p] != c
    decreases r, e - i
  {
    match r
    case Chr(_) =>
    case Empty =>
    case Boundary =>
    case Cat(a, b) =>
      var m := CatSplit(a, b, s, i, e);
      if p < m { NeverSpans(a, c, s, i, m, p); } else { NeverSpans(b, c, s, m, e, p); }
    case Alt(a, b) =>
      if e in Ends(a, s, i) { NeverSpans(a, c, s, i, e, p); } else { NeverSpans(b, c, s, i, e, p); }
    case Star(a) =>
      var m := StarSplit(a, s, i, e);
      if p < m { NeverSpans(a, c, s, i, m, p); } else { NeverSpans(r, c, s, m, e, p); }
  }

  /** Every match of `r` consumes a character of class `k`. */
  predicate Needs(r: Rx, k: CharClass) {
    match r
    case Chr(c) => c == k
    case Empty => false
    case Boundary => false
    case Cat(a, b) => Needs(a, k) || Needs(b, k)
    case Alt(a, b) => Needs(a, k) && Needs(b, k)
    case Star(_) => false
  }

  lemma {:induction false} NeedsConsumes(r: Rx, k: CharClass, s: string, i: nat, e: nat)
    requires Needs(r, k)
    requires i <= |s| && e in Ends(r, s, i)
    ensures i < e && exists p :: i <= p < e && In(s[p], k)
    decreases r
  {
    match r
    case Chr(c) => assert In(s[i], k);
    case Cat(a, b) =>
      var m := CatSplit(a, b, s, i, e);
      if Needs(a, k) { NeedsConsumes(a, k, s, i, m); } else { NeedsConsumes(b, k, s, m, e); }
    case Alt(a, b) =>
      if e in Ends(a, s, i) { NeedsConsumes(a, k, s, i, e); } else { NeedsConsumes(b, k, s, i, e); }
  }
}
