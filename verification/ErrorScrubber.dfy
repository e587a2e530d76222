/** `scrub_text` and `scrub`: what leaves the process in an error report. */
module ErrorScrubber {
  import opened Wrappers
  import opened Regex
  import opened Substitution
  import opened ShapePatterns
  import opened SensitiveKeys
  import KeyValuePattern

  // ---------------------------------------------------------------- name=value pairs

  /** `str.strip("'\"")` */
  function StripQuotes(s: string): string {
    if s != [] && In(s[0], QuoteMark) then StripQuotes(s[1..])
    else if s != [] && In(s[|s| - 1], QuoteMark) then StripQuotes(s[..|s| - 1])
    else s
  }

  function PairTable(s: string): (m: Matches)
    ensures |m| == |s| && Bounded(m)
    ensures forall p | 0 <= p < |s| ::
      m[p] == match KeyValuePattern.Scan(s, p) case Some(g) => Some(g.valueEnd) case None => None
  {
    seq(|s|, p requires 0 <= p < |s| =>
      match KeyValuePattern.Scan(s, p) case Some(g) => Some(g.valueEnd) case None => None)
  }

  /** `_redact` on one match. */
  function RedactMatch(s: string, span: Span): string
    requires span.lo < |s| && KeyValuePattern.Scan(s, span.lo).Some?
  {
    RedactGroups(s, span.lo, KeyValuePattern.Scan(s, span.lo).value)
  }

  function RedactGroups(s: string, lo: nat, g: KeyValuePattern.Groups): string
    requires lo <= g.keyEnd <= g.sepEnd <= g.valueEnd <= |s|
  {
    if IsSensitiveKey(StripQuotes(s[lo..g.keyEnd]))
    then s[lo..g.keyEnd] + s[g.keyEnd..g.sepEnd] + REDACTED
    else s[lo..g.valueEnd]
  }

  predicate PairSpans(s: string, i: nat, spans: seq<Span>) {
    && Ordered(s, i, spans)
    && forall j | 0 <= j < |spans| ::
      spans[j].lo < |s| &&
      match KeyValuePattern.Scan(s, spans[j].lo) case Some(g) => g.valueEnd == spans[j].hi case None => false
  }

  function RedactFrom(s: string, i: nat, spans: seq<Span>): string
    requires PairSpans(s, i, spans)
    decreases |spans|
  {
    if spans == [] then s[i..]
    else s[i..spans[0].lo] + (RedactMatch(s, spans[0]) + RedactFrom(s, spans[0].hi, spans[1..]))
  }

  lemma {:induction false} TableSpansArePairs(s: string)
    ensures PairSpans(s, 0, Spans(PairTable(s), 0))
  {
    SpansAreOrdered(PairTable(s), s, 0);
    SpansAreLeftmost(PairTable(s), 0);
  }

  /** `_KEY_VALUE.sub(_redact, s)` */
  function RedactPairs(s: string): string {
    TableSpansArePairs(s);
    RedactFrom(s, 0, Spans(PairTable(s), 0))
  }

  /** A text cut into what the pattern matches and what it does not. */
  datatype Piece = Plain(text: string) | Pair(key: string, sep: string, value: string)

  function PieceText(p: Piece): string {
    match p case Plain(t) => t case Pair(k, q, v) => k + q + v
  }

  function Join(ps: seq<Piece>): string {
    if ps == [] then [] else PieceText(ps[0]) + Join(ps[1..])
  }

  function Hide(p: Piece): Piece {
    if p.Pair? && IsSensitiveKey(StripQuotes(p.key)) then p.(value := REDACTED) else p
  }

  function HideAll(ps: seq<Piece>): seq<Piece> {
    if ps == [] then [] else [Hide(ps[0])] + HideAll(ps[1..])
  }

  /** The engine's match at a span, group by group. */
  function PairAt(s: string, span: Span): Piece
    requires span.lo < |s| && KeyValuePattern.EngineMatch(s, span.lo).Some?
  {
    KeyValuePattern.ScanIsEngineMatch(s, span.lo);
    PairOf(s, span.lo, KeyValuePattern.EngineMatch(s, span.lo).value)
  }

  function PairOf(s: string, lo: nat, g: KeyValuePattern.Groups): Piece
    requires lo <= g.keyEnd <= g.sepEnd <= g.valueEnd <= |s|
  {
    Pair(s[lo..g.keyEnd], s[g.keyEnd..g.sepEnd], s[g.sepEnd..g.valueEnd])
  }

  ghost predicate EngineSpan(s: string, span: Span) {
    span.lo < |s| && First(KeyValuePattern.KeyValue(), s, span.lo) == Some(span.hi)
  }

  ghost predicate EngineSpans(s: string, spans: seq<Span>) {
    spans == [] || (EngineSpan(s, spans[0]) && EngineSpans(s, spans[1..]))
  }

  lemma {:induction false} TableSpansAreEngineSpans(s: string, spans: seq<Span>)
    requires forall j | 0 <= j < |spans| :: EngineSpan(s, spans[j])
    ensures EngineSpans(s, spans)
  {
    if spans != [] { TableSpansAreEngineSpans(s, spans[1..]); }
  }

  lemma {:induction false} EngineSpanIsScanned(s: string, span: Span)
    requires EngineSpan(s, span)
    ensures KeyValuePattern.EngineMatch(s, span.lo) == KeyValuePattern.Scan(s, span.lo)
    ensures KeyValuePattern.Scan(s, span.lo).Some? && KeyValuePattern.Scan(s, span.lo).value.valueEnd == span.hi
  {
    KeyValuePattern.ScanIsEngineMatch(s, span.lo);
    KeyValuePattern.GroupsAgreeWithPattern(s, span.lo);
  }

  ghost function Cut(s: string, i: nat, spans: seq<Span>): (ps: seq<Piece>)
    requires Ordered(s, i, spans) && EngineSpans(s, spans)
    decreases |spans|
  {
    if spans == [] then [Plain(s[i..])]
    else
      EngineSpanIsScanned(s, spans[0]);
      [Plain(s[i..spans[0].lo])] + ([PairAt(s, spans[0])] + Cut(s, spans[0].hi, spans[1..]))
  }

  lemma {:induction false} PairTableIsEngineTable(s: string)
    ensures PairTable(s) == MatchTable(KeyValuePattern.KeyValue(), s)
  {
    forall p | 0 <= p < |s|
      ensures PairTable(s)[p] == First(KeyValuePattern.KeyValue(), s, p)
    {
      KeyValuePattern.ScanIsEngineMatch(s, p);
      KeyValuePattern.GroupsAgreeWithPattern(s, p);
    }
  }

  /** Cutting at the leftmost matches loses nothing, and the first pass replaces exactly the
      values of the pairs whose key is sensitive. */
  lemma {:induction false} KeyValuePass(s: string, spans: seq<Span>)
    requires LeftmostMatches(MatchTable(KeyValuePattern.KeyValue(), s), 0, spans)
    ensures Ordered(s, 0, spans) && EngineSpans(s, spans)
    ensures Join(Cut(s, 0, spans)) == s
    ensures RedactPairs(s) == Join(HideAll(Cut(s, 0, spans)))
  {
    PairTableIsEngineTable(s);
    LeftmostIsUnique(PairTable(s), 0, spans);
    TableSpansArePairs(s);
    TableSpansAreEngineSpans(s, spans);
    CutLosesNothing(s, 0, spans);
    CutIsRedacted(s, 0, spans);
  }

  lemma {:induction false} CutLosesNothing(s: string, i: nat, spans: seq<Span>)
    requires Ordered(s, i, spans) && EngineSpans(s, spans)
    ensures Join(Cut(s, i, spans)) == s[i..]
    decreases |spans|
  {
    if spans == [] {
      JoinOne(Plain(s[i..]));
    } else {
      var lo, hi := spans[0].lo, spans[0].hi;
      CutLosesNothing(s, hi, spans[1..]);
      PairAtSpan(s, spans[0]);
      CutStep(s, i, spans);
      var pair, rest := PairAt(s, spans[0]), Cut(s, hi, spans[1..]);
      JoinStep(Plain(s[i..lo]), [pair] + rest);
      JoinStep(pair, rest);
      SplitTwice(s, i, lo, hi);
    }
  }

  lemma {:induction false} CutIsRedacted(s: string, i: nat, spans: seq<Span>)
    requires PairSpans(s, i, spans) && EngineSpans(s, spans)
    ensures RedactFrom(s, i, spans) == Join(HideAll(Cut(s, i, spans)))
    decreases |spans|
  {
    if spans == [] {
      JoinOne(Plain(s[i..]));
    } else {
      var gap, rest := s[i..spans[0].lo], Cut(s, spans[0].hi, spans[1..]);
      CutIsRedacted(s, spans[0].hi, spans[1..]);
      PairAtSpan(s, spans[0]);
      CutStep(s, i, spans);
      JoinHidden(gap, PairAt(s, spans[0]), RedactMatch(s, spans[0]), rest);
      RedactStep(s, i, spans);
    }
  }

  lemma {:induction false} RedactStep(s: string, i: nat, spans: seq<Span>)
    requires PairSpans(s, i, spans) && spans != []
    ensures RedactFrom(s, i, spans) ==
      s[i..spans[0].lo] + (RedactMatch(s, spans[0]) + RedactFrom(s, spans[0].hi, spans[1..]))
  {
  }

  lemma {:induction false} PairAtSpan(s: string, span: Span)
    requires EngineSpan(s, span)
    ensures KeyValuePattern.EngineMatch(s, span.lo).Some? && KeyValuePattern.Scan(s, span.lo).Some?
    ensures span.lo <= span.hi <= |s| && PieceText(PairAt(s, span)) == s[span.lo..span.hi]
    ensures RedactMatch(s, span) == PieceText(Hide(PairAt(s, span)))
  {
    EngineSpanIsScanned(s, span);
    PairText(s, span.lo, KeyValuePattern.Scan(s, span.lo).value);
  }

  lemma {:induction false} CutStep(s: string, i: nat, spans: seq<Span>)
    requires Ordered(s, i, spans) && EngineSpans(s, spans) && spans != []
    ensures KeyValuePattern.EngineMatch(s, spans[0].lo).Some?
    ensures Cut(s, i, spans) ==
      [Plain(s[i..spans[0].lo])] + ([PairAt(s, spans[0])] + Cut(s, spans[0].hi, spans[1..]))
  {
    EngineSpanIsScanned(s, spans[0]);
  }

  lemma {:induction false} JoinHidden(gap: string, pair: Piece, hidden: string, rest: seq<Piece>)
    requires hidden == PieceText(Hide(pair))
    ensures Join(HideAll([Plain(gap)] + ([pair] + rest))) == gap + (hidden + Join(HideAll(rest)))
  {
    JoinStep(Plain(gap), [pair] + rest);
    JoinStep(pair, rest);
    JoinStep(Plain(gap), [Hide(pair)] + HideAll(rest));
    JoinStep(Hide(pair), HideAll(rest));
  }

  lemma {:induction false} SplitTwice(s: string, i: nat, lo: nat, hi: nat)
    requires i <= lo <= hi <= |s|
    ensures s[i..] == s[i..lo] + (s[lo..hi] + s[hi..])
  {
  }

  lemma {:induction false} JoinOne(p: Piece)
    ensures Join([p]) == PieceText(p) && HideAll([p]) == [Hide(p)]
  {
    assert [p][1..] == [];
  }

  lemma {:induction false} JoinStep(p: Piece, rest: seq<Piece>)
    ensures Join([p] + rest) == PieceText(p) + Join(rest)
    ensures HideAll([p] + rest) == [Hide(p)] + HideAll(rest)
  {
    assert ([p] + rest)[1..] == rest;
  }

  lemma {:induction false} PairText(s: string, lo: nat, g: KeyValuePattern.Groups)
    requires lo <= g.keyEnd <= g.sepEnd <= g.valueEnd <= |s|
    ensures PieceText(PairOf(s, lo, g)) == s[lo..g.valueEnd]
    ensures RedactGroups(s, lo, g) == PieceText(Hide(PairOf(s, lo, g)))
  {
    assert s[lo..g.keyEnd] + s[g.keyEnd..g.sepEnd] + s[g.sepEnd..g.valueEnd] == s[lo..g.valueEnd];
  }

  // ---------------------------------------------------------------- quotation marks

  /** `strip("'\"")` takes off quotation marks at both ends, and that is all. */
  lemma {:induction false} StripQuotesOf(a: string, core: string, b: string)
    requires forall p | 0 <= p < |a| :: In(a[p], QuoteMark)
    requires forall p | 0 <= p < |b| :: In(b[p], QuoteMark)
    requires core != [] ==> !In(core[0], QuoteMark) && !In(core[|core| - 1], QuoteMark)
    ensures StripQuotes(a + core + b) == core
    decreases |a|, |b|
  {
    var s := a + core + b;
    if a != [] {
      StripQuotesOf(a[1..], core, b);
      assert s[1..] == a[1..] + core + b;
    } else if core == [] {
      if b != [] {
        StripQuotesOf([], [], b[1..]);
        assert s == b && s[1..] == [] + [] + b[1..];
      }
    } else if b != [] {
      StripQuotesOf([], core, b[..|b| - 1]);
      assert s[..|s| - 1] == [] + core + b[..|b| - 1];
      assert s[0] == core[0] && s[|s| - 1] == b[|b| - 1];
    } else {
      assert s == core;
    }
  }

  // ---------------------------------------------------------------- scrub_text

  function ScrubText(s: string): string {
    Sub(Iban(), REDACTED, Sub(Email(), REDACTED, RedactPairs(s)))
  }

  /** `t` is `s` with the values of its sensitive pairs, and nothing else, replaced. */
  ghost predicate PairsHidden(s: string, t: string) {
    exists spans :: PairsHiddenAt(s, t, spans)
  }

  ghost predicate PairsHiddenAt(s: string, t: string, spans: seq<Span>) {
    && LeftmostMatches(MatchTable(KeyValuePattern.KeyValue(), s), 0, spans)
    && Ordered(s, 0, spans) && EngineSpans(s, spans)
    && Join(Cut(s, 0, spans)) == s
    && t == Join(HideAll(Cut(s, 0, spans)))
  }

  lemma {:induction false} RedactingHidesPairs(s: string, t: string)
    ensures PairsHidden(s, t) <==> t == RedactPairs(s)
  {
    var m := MatchTable(KeyValuePattern.KeyValue(), s);
    SpansAreLeftmost(m, 0);
    KeyValuePass(s, Spans(m, 0));
    if t == RedactPairs(s) { assert PairsHiddenAt(s, t, Spans(m, 0)); }
    if PairsHidden(s, t) {
      var spans :| PairsHiddenAt(s, t, spans);
      KeyValuePass(s, spans);
    }
  }

  /** The three passes, one after the other: values by name, then emails, then IBANs. */
  ghost predicate Scrubbed(s: string, t: string) {
    exists u, v :: PairsHidden(s, u) && Substituted(Email(), REDACTED, u, v) && Substituted(Iban(), REDACTED, v, t)
  }

  /** What leaves for a text is what the three passes make of it, and nothing else. */
  lemma {:induction false} ScrubTextIsScrubbed(s: string, t: string)
    ensures Scrubbed(s, t) <==> t == ScrubText(s)
  {
    var u := RedactPairs(s);
    var v := Sub(Email(), REDACTED, u);
    RedactingHidesPairs(s, u);
    SubIsSubstituted(Email(), REDACTED, u, v);
    SubIsSubstituted(Iban(), REDACTED, v, t);
    if Scrubbed(s, t) { OnlyOneScrubbed(s, t); }
  }

  lemma {:induction false} OnlyOneScrubbed(s: string, t: string)
    requires Scrubbed(s, t)
    ensures t == Sub(Iban(), REDACTED, Sub(Email(), REDACTED, RedactPairs(s)))
  {
    var u, v :| PairsHidden(s, u) && Substituted(Email(), REDACTED, u, v) && Substituted(Iban(), REDACTED, v, t);
    RedactingHidesPairs(s, u);
    SubIsSubstituted(Email(), REDACTED, u, v);
    SubIsSubstituted(Iban(), REDACTED, v, t);
  }

  /** A text in which neither shape pattern finds anything. */
  ghost predicate CleanText(s: string) { NoMatch(Email(), s) && NoMatch(Iban(), s) }

  lemma {:induction false} ScrubbedTextIsClean(s: string)
    ensures CleanText(ScrubText(s))
  {
    EmailIsBlind();
    var t := RedactPairs(s);
    SubLeavesNoMatch(Email(), At, t);
    SubKeepsClean(Iban(), Email(), At, Sub(Email(), REDACTED, t));
    SubLeavesNoIban(Sub(Email(), REDACTED, t));
  }

  /** The marker itself is clean. */
  lemma {:induction false} MarkerIsClean()
    ensures CleanText(REDACTED)
  {
    EmailIsBlind();
    forall i: nat | i <= |REDACTED| ensures Ends(Email(), REDACTED, i) == [] {
      if Ends(Email(), REDACTED, i) != [] {
        NeedsConsumes(Email(), At, REDACTED, i, Ends(Email(), REDACTED, i)[0]);
      }
    }
    forall i: nat | i <= |REDACTED| ensures Ends(Iban(), REDACTED, i) == [] {
      if Ends(Iban(), REDACTED, i) != [] { IbanEnds(REDACTED, i, Ends(Iban(), REDACTED, i)[0]); }
    }
  }

  // ---------------------------------------------------------------- scrub

  /** A dictionary key: only strings can be sensitive. */
  datatype Key = StrKey(name: string) | OtherKey(tag: int)

  /** Anything an event can contain. */
  datatype Value =
    | Dict(entries: seq<Entry>)
    | List(items: seq<Value>)
    | Tuple(items: seq<Value>)
    | Str(text: string)
    | Other(tag: int)

  datatype Entry = Entry(key: Key, value: Value)

  predicate SensitiveEntry(k: Key) { k.StrKey? && IsSensitiveKey(k.name) }

  function Scrub(v: Value): Value {
    match v
    case Dict(entries) => Dict(ScrubEntries(entries))
    case List(items) => List(ScrubAll(items))
    case Tuple(items) => Tuple(ScrubAll(items))
    case Str(text) => Str(ScrubText(text))
    case Other(_) => v
  }

  function ScrubAll(vs: seq<Value>): (ws: seq<Value>)
    ensures |ws| == |vs|
  {
    if vs == [] then [] else [Scrub(vs[0])] + ScrubAll(vs[1..])
  }

  function ScrubEntries(es: seq<Entry>): (fs: seq<Entry>)
    ensures |fs| == |es|
  {
    if es == [] then []
    else
      [ScrubEntry(es[0])] + ScrubEntries(es[1..])
  }

  function ScrubEntry(e: Entry): Entry {
    Entry(e.key, if SensitiveEntry(e.key) then Str(REDACTED) else Scrub(e.value))
  }

  /** Nothing sensitive is left: every sensitive key holds the marker, and no string value
      anywhere contains an email address or an IBAN-shaped word. */
  ghost predicate Safe(v: Value) {
    match v
    case Dict(es) =>
      forall j | 0 <= j < |es| :: (SensitiveEntry(es[j].key) ==> es[j].value == Str(REDACTED)) && Safe(es[j].value)
    case List(vs) => forall j | 0 <= j < |vs| :: Safe(vs[j])
    case Tuple(vs) => forall j | 0 <= j < |vs| :: Safe(vs[j])
    case Str(t) => CleanText(t)
    case Other(_) => true
  }

  /** `w` has `v`'s shape: same containers, same keys in the same order, each string with the
      three passes made over it and other leaves untouched, except below a sensitive key. */
  ghost predicate SameShape(v: Value, w: Value) {
    match v
    case Dict(es) =>
      && w.Dict? && |w.entries| == |es|
      && forall j | 0 <= j < |es| ::
        w.entries[j].key == es[j].key && (SensitiveEntry(es[j].key) || SameShape(es[j].value, w.entries[j].value))
    case List(vs) => w.List? && |w.items| == |vs| && forall j | 0 <= j < |vs| :: SameShape(vs[j], w.items[j])
    case Tuple(vs) => w.Tuple? && |w.items| == |vs| && forall j | 0 <= j < |vs| :: SameShape(vs[j], w.items[j])
    case Str(t) => w.Str? && Scrubbed(t, w.text)
    case Other(_) => w == v
  }

  lemma {:induction false} ScrubAllAt(vs: seq<Value>, j: nat)
    requires j < |vs|
    ensures ScrubAll(vs)[j] == Scrub(vs[j])
  {
    if j > 0 { ScrubAllAt(vs[1..], j - 1); }
  }

  lemma {:induction false} ScrubEntriesAt(es: seq<Entry>, j: nat)
    requires j < |es|
    ensures ScrubEntries(es)[j] ==
      Entry(es[j].key, if SensitiveEntry(es[j].key) then Str(REDACTED) else Scrub(es[j].value))
  {
    if j > 0 { ScrubEntriesAt(es[1..], j - 1); }
  }

  /** For every event: what leaves is safe, and it is the event's own shape. */
  lemma {:induction false} ScrubIsSafe(v: Value)
    ensures Safe(Scrub(v)) && SameShape(v, Scrub(v))
  {
    match v
    case Dict(es) =>
      forall j | 0 <= j < |es|
        ensures var f := ScrubEntries(es)[j];
          && f.key == es[j].key && Safe(f.value)
          && (SensitiveEntry(f.key) ==> f.value == Str(REDACTED))
          && (SensitiveEntry(f.key) || SameShape(es[j].value, f.value))
      {
        ScrubEntriesAt(es, j);
        MarkerIsClean();
        ScrubIsSafe(es[j].value);
      }
    case List(vs) => ScrubAllIsSafe(vs);
    case Tuple(vs) => ScrubAllIsSafe(vs);
    case Str(t) =>
      ScrubbedTextIsClean(t);
      ScrubTextIsScrubbed(t, ScrubText(t));
    case Other(_) =>
  }

  lemma {:induction false} ScrubAllIsSafe(vs: seq<Value>)
    ensures forall j | 0 <= j < |vs| :: Safe(ScrubAll(vs)[j]) && SameShape(vs[j], ScrubAll(vs)[j])
  {
    forall j | 0 <= j < |vs| ensures Safe(ScrubAll(vs)[j]) && SameShape(vs[j], ScrubAll(vs)[j]) {
      ScrubAllAt(vs, j);
      ScrubIsSafe(vs[j]);
    }
  }

  // ---------------------------------------------------------------- keys

  ghost predicate CleanKey(k: Key) { k.StrKey? ==> CleanText(k.name) }

  /** No text anywhere, keys included, contains an email address or an IBAN-shaped word. */
  ghost predicate WhollyClean(v: Value) {
    match v
    case Dict(es) => EntriesClean(es)
    case List(vs) => ItemsClean(vs)
    case Tuple(vs) => ItemsClean(vs)
    case Str(t) => CleanText(t)
    case Other(_) => true
  }

  ghost predicate EntriesClean(es: seq<Entry>) { forall j | 0 <= j < |es| :: EntryClean(es[j]) }

  ghost predicate ItemsClean(vs: seq<Value>) { forall j | 0 <= j < |vs| :: WhollyClean(vs[j]) }

  ghost predicate EntryClean(e: Entry) { CleanKey(e.key) && WhollyClean(e.value) }

  /** The keys themselves are clean, outside what a sensitive key replaces. */
  ghost predicate KeysClean(v: Value) {
    match v
    case Dict(es) => EntriesKeysClean(es)
    case List(vs) => ItemsKeysClean(vs)
    case Tuple(vs) => ItemsKeysClean(vs)
    case Str(_) => true
    case Other(_) => true
  }

  ghost predicate EntriesKeysClean(es: seq<Entry>) { forall j | 0 <= j < |es| :: EntryKeysClean(es[j]) }

  ghost predicate ItemsKeysClean(vs: seq<Value>) { forall j | 0 <= j < |vs| :: KeysClean(vs[j]) }

  ghost predicate EntryKeysClean(e: Entry) { CleanKey(e.key) && (SensitiveEntry(e.key) || KeysClean(e.value)) }

  /** Keys are copied as they stand, so what leaves is wholly clean exactly when the keys
      that leave were clean to begin with. */
  lemma {:induction false} WhollyCleanExactlyWhen(v: Value)
    ensures WhollyClean(Scrub(v)) <==> KeysClean(v)
  {
    match v
    case Dict(es) => EntriesCleanExactlyWhen(es);
    case List(vs) => ItemsCleanExactlyWhen(vs);
    case Tuple(vs) => ItemsCleanExactlyWhen(vs);
    case Str(t) => ScrubbedTextIsClean(t);
    case Other(_) =>
  }

  lemma {:induction false} EntriesCleanExactlyWhen(es: seq<Entry>)
    ensures EntriesClean(ScrubEntries(es)) <==> EntriesKeysClean(es)
  {
    forall j | 0 <= j < |es| ensures EntryClean(ScrubEntries(es)[j]) <==> EntryKeysClean(es[j]) {
      ScrubEntriesAt(es, j);
      EntryCleanExactlyWhen(es[j]);
    }
  }

  lemma {:induction false} EntryCleanExactlyWhen(e: Entry)
    ensures EntryClean(ScrubEntry(e)) <==> EntryKeysClean(e)
  {
    MarkerIsClean();
    WhollyCleanExactlyWhen(e.value);
  }

  lemma {:induction false} ItemsCleanExactlyWhen(vs: seq<Value>)
    ensures ItemsClean(ScrubAll(vs)) <==> ItemsKeysClean(vs)
  {
    forall j | 0 <= j < |vs| ensures WhollyClean(ScrubAll(vs)[j]) <==> KeysClean(vs[j]) {
      ScrubAllAt(vs, j);
      WhollyCleanExactlyWhen(vs[j]);
    }
  }

  /** An event that is not: an IBAN used as a key leaves. */
  lemma {:induction false} IbanKeyLeaves()
    ensures !WhollyClean(Scrub(Dict([Entry(StrKey("GB29NWBK60161331926819"), Other(0))])))
  {
    var t := "GB29NWBK60161331926819";
    assert IbanAt(t, 0, 22);
    IbanEnds(t, 0, 22);
    var v := Dict([Entry(StrKey(t), Other(0))]);
    assert !EntryKeysClean(v.entries[0]);
    WhollyCleanExactlyWhen(v);
  }
}
