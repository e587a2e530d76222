/** `_KEY_VALUE`: a hand-written scanner for `name=value` pairs, proved to find exactly
    what the backtracking engine finds for the pattern's three groups. */
module KeyValuePattern {
  import opened Wrappers
  import opened Regex

  // ---- the pattern, group by group

  function KeyGroup(): Rx {
    Cat(Optional(Chr(QuoteMark)), Cat(Chr(IdentStart), NameTail()))
  }

  function NameTail(): Rx { Cat(Star(Chr(IdentChar)), Optional(Chr(QuoteMark))) }

  function SepGroup(): Rx {
    Cat(Star(Chr(Space)), Sign())
  }

  function Sign(): Rx { Cat(Chr(EqualsOrColon), Star(Chr(Space))) }

  function Quoted(mark: CharClass, inside: CharClass): Rx {
    Cat(Chr(mark), Closing(mark, inside))
  }

  function Closing(mark: CharClass, inside: CharClass): Rx { Cat(Star(Chr(inside)), Chr(mark)) }

  function ValueGroup(): Rx {
    Alt(Quoted(Apostrophe, NotApostrophe), Unquoted())
  }

  /** A value that does not open with an apostrophe that closes. */
  function Unquoted(): Rx { Alt(Quoted(DoubleQuote, NotDoubleQuote), Plus(Chr(BareValue))) }

  function KeyValue(): Rx { Cat(KeyGroup(), Cat(SepGroup(), ValueGroup())) }

  /** The three group boundaries of one match. */
  datatype Groups = Groups(keyEnd: nat, sepEnd: nat, valueEnd: nat)

  // ---- the engine's reading: the first path, group by group

  /** The first separator end, in preference order, from which a value can be read. */
  function FirstSep(s: string, keyEnd: nat, seps: seq<nat>): (g: Option<Groups>)
    requires Within(seps, 0, |s|)
  {
    if seps == [] then None
    else
      var values := Ends(ValueGroup(), s, seps[0]);
      if values != [] then Some(Groups(keyEnd, seps[0], values[0]))
      else FirstSep(s, keyEnd, seps[1..])
  }

  function FirstKey(s: string, keys: seq<nat>): (g: Option<Groups>)
    requires Within(keys, 0, |s|)
  {
    if keys == [] then None
    else
      match FirstSep(s, keys[0], Ends(SepGroup(), s, keys[0]))
      case Some(g) => Some(g)
      case None => FirstKey(s, keys[1..])
  }

  /** `_KEY_VALUE.match(s, i)` with its groups. */
  function EngineMatch(s: string, i: nat): Option<Groups>
    requires i <= |s|
  {
    FirstKey(s, Ends(KeyGroup(), s, i))
  }

  // ---- the scanner

  function SkipOne(k: CharClass, s: string, p: nat): (q: nat)
    requires p <= |s|
    ensures p <= q <= |s|
  {
    if CharAt(k, s, p) then p + 1 else p
  }

  /** A quoted value when the quote opens and closes, otherwise a run of bare characters. */
  function ScanValue(s: string, v: nat): (e: Option<nat>)
    requires v <= |s|
    ensures e.Some? ==> v < e.value <= |s|
  {
    var apostrophe := if CharAt(Apostrophe, s, v) then RunEnd(NotApostrophe, s, v + 1) else |s|;
    var quote := if CharAt(DoubleQuote, s, v) then RunEnd(NotDoubleQuote, s, v + 1) else |s|;
    if apostrophe < |s| then Some(apostrophe + 1)
    else if quote < |s| then Some(quote + 1)
    else
      var e := RunEnd(BareValue, s, v);
      if e > v then Some(e) else None
  }

  function ScanSep(s: string, k: nat): (v: Option<nat>)
    requires k <= |s|
    ensures v.Some? ==> k < v.value <= |s|
  {
    var w := RunEnd(Space, s, k);
    if CharAt(EqualsOrColon, s, w) then Some(RunEnd(Space, s, w + 1)) else None
  }

  function ScanKey(s: string, i: nat): (k: Option<nat>)
    requires i <= |s|
    ensures k.Some? ==> i < k.value <= |s|
  {
    var a := SkipOne(QuoteMark, s, i);
    if CharAt(IdentStart, s, a) then Some(SkipOne(QuoteMark, s, RunEnd(IdentChar, s, a + 1))) else None
  }

  function Scan(s: string, i: nat): (g: Option<Groups>)
    requires i <= |s|
    ensures g.Some? ==> i < g.value.keyEnd < g.value.sepEnd < g.value.valueEnd <= |s|
  {
    match ScanKey(s, i)
    case None => None
    case Some(k) =>
      match ScanSep(s, k)
      case None => None
      case Some(v) =>
        match ScanValue(s, v)
        case None => None
        case Some(e) => Some(Groups(k, v, e))
  }

  // ---- values

  /** A quotation mark and what it encloses. */
  predicate Opposite(mark: CharClass, inside: CharClass) {
    (mark == Apostrophe && inside == NotApostrophe) || (mark == DoubleQuote && inside == NotDoubleQuote)
  }

  lemma {:induction false} ClosingQuoteEnds(mark: CharClass, inside: CharClass, s: string, v: nat)
    requires v <= |s|
    requires Opposite(mark, inside)
    ensures var es := Ends(Closing(mark, inside), s, v);
      if RunEnd(inside, s, v) < |s| then es != [] && es[0] == RunEnd(inside, s, v) + 1 else es == []
  {
    var run := RunEnd(inside, s, v);
    var stops := Ends(Star(Chr(inside)), s, v);
    GreedyRun(inside, s, v);
    CatUnfolds(Star(Chr(inside)), Chr(mark), s, v);
    assert stops[0] == run;
    forall j | 0 <= j < |stops| && stops[j] != run ensures stops[j] <= |s| && Ends(Chr(mark), s, stops[j]) == [] {
      assert In(s[stops[j]], inside);
    }
    OnlyStart(Chr(mark), s, v, stops, run);
  }

  lemma {:induction false} FirstAfter(k: CharClass, rest: Rx, s: string, i: nat)
    requires i <= |s|
    ensures First(Cat(Chr(k), rest), s, i) == if CharAt(k, s, i) then First(rest, s, i + 1) else None
  {
    CharThen(k, rest, s, i);
  }

  lemma {:induction false} FirstOf(a: Rx, b: Rx, s: string, i: nat)
    requires i <= |s|
    ensures First(Alt(a, b), s, i) == if First(a, s, i).Some? then First(a, s, i) else First(b, s, i)
  {
  }

  lemma {:induction false} QuotedEnds(mark: CharClass, inside: CharClass, s: string, v: nat)
    requires v <= |s|
    requires Opposite(mark, inside)
    ensures First(Quoted(mark, inside), s, v) ==
      if CharAt(mark, s, v) && RunEnd(inside, s, v + 1) < |s| then Some(RunEnd(inside, s, v + 1) + 1) else None
  {
    FirstAfter(mark, Closing(mark, inside), s, v);
    if CharAt(mark, s, v) { ClosingQuoteEnds(mark, inside, s, v + 1); }
  }

  lemma {:induction false} BareEnds(s: string, v: nat)
    requires v <= |s|
    ensures First(Plus(Chr(BareValue)), s, v) ==
      if CharAt(BareValue, s, v) then Some(RunEnd(BareValue, s, v)) else None
  {
    FirstAfter(BareValue, Star(Chr(BareValue)), s, v);
    if CharAt(BareValue, s, v) { StarOfChars(BareValue, s, v + 1); }
  }

  lemma {:induction false} UnquotedIsEngineValue(s: string, v: nat)
    requires v <= |s|
    ensures First(Unquoted(), s, v) ==
      if CharAt(DoubleQuote, s, v) && RunEnd(NotDoubleQuote, s, v + 1) < |s|
      then Some(RunEnd(NotDoubleQuote, s, v + 1) + 1)
      else if CharAt(BareValue, s, v) then Some(RunEnd(BareValue, s, v)) else None
  {
    QuotedEnds(DoubleQuote, NotDoubleQuote, s, v);
    BareEnds(s, v);
    FirstOf(Quoted(DoubleQuote, NotDoubleQuote), Plus(Chr(BareValue)), s, v);
  }

  lemma {:induction false} ValueIsEngineValue(s: string, v: nat)
    requires v <= |s|
    ensures First(ValueGroup(), s, v) == ScanValue(s, v)
  {
    QuotedEnds(Apostrophe, NotApostrophe, s, v);
    UnquotedIsEngineValue(s, v);
    FirstOf(Quoted(Apostrophe, NotApostrophe), Unquoted(), s, v);
  }

  lemma {:induction false} NoValueAtSpace(s: string, v: nat)
    requires v < |s| && IsSpace(s[v])
    ensures Ends(ValueGroup(), s, v) == []
  {
    ValueIsEngineValue(s, v);
  }

  // ---- separators

  lemma {:induction false} AfterSign(s: string, a: nat, m: nat)
    requires a <= |s|
    ensures m in Ends(Sign(), s, a) <==>
      CharAt(EqualsOrColon, s, a) && a + 1 <= m <= RunEnd(Space, s, a + 1)
  {
    CharThen(EqualsOrColon, Star(Chr(Space)), s, a);
    if CharAt(EqualsOrColon, s, a) { StarOfChars(Space, s, a + 1); }
  }

  /** A separator that ends anywhere but at its last space leaves a space where the value
      would start. */
  lemma {:induction false} SepStops(s: string, k: nat, m: nat)
    requires k <= |s| && m in Ends(SepGroup(), s, k)
    ensures ScanSep(s, k).Some? && (m == ScanSep(s, k).value || CharAt(Space, s, m))
  {
    var a := CatSplit(Star(Chr(Space)), Sign(), s, k, m);
    StarOfChars(Space, s, k);
    AfterSign(s, a, m);
  }

  lemma {:induction false} SepReached(s: string, k: nat, m: nat)
    requires k <= |s| && ScanSep(s, k) == Some(m)
    ensures m in Ends(SepGroup(), s, k)
  {
    var w := RunEnd(Space, s, k);
    StarOfChars(Space, s, k);
    AfterSign(s, w, m);
    CatJoin(Star(Chr(Space)), Sign(), s, k, w, m);
  }

  lemma {:induction false} SepEnds(s: string, k: nat, m: nat)
    requires k <= |s|
    ensures m in Ends(SepGroup(), s, k) ==>
      ScanSep(s, k).Some? && (m == ScanSep(s, k).value || CharAt(Space, s, m))
    ensures ScanSep(s, k) == Some(m) ==> m in Ends(SepGroup(), s, k)
  {
    if m in Ends(SepGroup(), s, k) { SepStops(s, k, m); }
    if ScanSep(s, k) == Some(m) { SepReached(s, k, m); }
  }

  lemma {:induction false} NoSep(s: string, k: nat)
    requires k <= |s| && ScanSep(s, k).None?
    ensures Ends(SepGroup(), s, k) == []
  {
    var seps := Ends(SepGroup(), s, k);
    if seps != [] {
      SepEnds(s, k, seps[0]);
      assert false;
    }
  }

  /** Every candidate other than `v` stands on a space. */
  ghost predicate ElseSpace(s: string, seps: seq<nat>, v: nat) {
    forall j | 0 <= j < |seps| :: seps[j] == v || CharAt(Space, s, seps[j])
  }

  lemma {:induction false} FirstSepIs(s: string, k: nat, seps: seq<nat>, v: nat)
    requires Within(seps, 0, |s|) && v <= |s|
    requires ElseSpace(s, seps, v)
    ensures FirstSep(s, k, seps) ==
      if v in seps && First(ValueGroup(), s, v).Some?
      then Some(Groups(k, v, First(ValueGroup(), s, v).value)) else None
  {
    if seps != [] {
      assert seps == [seps[0]] + seps[1..];
      FirstSepIs(s, k, seps[1..], v);
      if seps[0] != v { NoValueAtSpace(s, seps[0]); }
    }
  }

  /** From a given key end, the engine and the scanner read the same separator and value. */
  lemma {:induction false} SepAndValue(s: string, k: nat)
    requires k <= |s|
    ensures FirstSep(s, k, Ends(SepGroup(), s, k)) ==
      match ScanSep(s, k)
      case None => None
      case Some(v) =>
        match ScanValue(s, v)
        case None => None
        case Some(e) => Some(Groups(k, v, e))
  {
    var seps := Ends(SepGroup(), s, k);
    forall j | 0 <= j < |seps|
      ensures ScanSep(s, k).Some? && (seps[j] == ScanSep(s, k).value || CharAt(Space, s, seps[j]))
    {
      SepEnds(s, k, seps[j]);
    }
    if ScanSep(s, k).Some? {
      var v := ScanSep(s, k).value;
      SepEnds(s, k, v);
      FirstSepIs(s, k, seps, v);
      ValueIsEngineValue(s, v);
    } else {
      NoSep(s, k);
    }
  }

  // ---- keys

  lemma {:induction false} OptionalQuote(s: string, i: nat, m: nat)
    requires i <= |s|
    ensures m in Ends(Optional(Chr(QuoteMark)), s, i) <==> m == i || (CharAt(QuoteMark, s, i) && m == i + 1)
  {
  }

  lemma {:induction false} NameTailEnds(s: string, b: nat, m: nat)
    requires b <= |s|
    ensures m in Ends(NameTail(), s, b) ==>
      m == SkipOne(QuoteMark, s, RunEnd(IdentChar, s, b)) || CharAt(IdentChar, s, m) || CharAt(QuoteMark, s, m)
    ensures m == SkipOne(QuoteMark, s, RunEnd(IdentChar, s, b)) ==> m in Ends(NameTail(), s, b)
  {
    StarOfChars(IdentChar, s, b);
    var run := RunEnd(IdentChar, s, b);
    if m in Ends(NameTail(), s, b) {
      var c := CatSplit(Star(Chr(IdentChar)), Optional(Chr(QuoteMark)), s, b, m);
      OptionalQuote(s, c, m);
    }
    if m == SkipOne(QuoteMark, s, run) {
      OptionalQuote(s, run, m);
      CatJoin(Star(Chr(IdentChar)), Optional(Chr(QuoteMark)), s, b, run, m);
    }
  }

  /** A key that ends anywhere but at its last character leaves an identifier character or
      a quote where the separator would start. */
  lemma {:induction false} KeyEnds(s: string, i: nat, m: nat)
    requires i <= |s|
    ensures m in Ends(KeyGroup(), s, i) ==>
      ScanKey(s, i).Some? && (m == ScanKey(s, i).value || CharAt(IdentChar, s, m) || CharAt(QuoteMark, s, m))
    ensures ScanKey(s, i) == Some(m) ==> m in Ends(KeyGroup(), s, i)
  {
    var name := Cat(Chr(IdentStart), NameTail());
    var a := SkipOne(QuoteMark, s, i);
    if m in Ends(KeyGroup(), s, i) {
      var a' := CatSplit(Optional(Chr(QuoteMark)), name, s, i, m);
      OptionalQuote(s, i, a');
      NameEnds(s, a', m);
    }
    if ScanKey(s, i) == Some(m) {
      NameEnds(s, a, m);
      OptionalQuote(s, i, a);
      CatJoin(Optional(Chr(QuoteMark)), name, s, i, a, m);
    }
  }

  lemma {:induction false} NameEnds(s: string, a: nat, m: nat)
    requires a <= |s|
    ensures m in Ends(Cat(Chr(IdentStart), NameTail()), s, a) ==>
      CharAt(IdentStart, s, a) &&
      (m == SkipOne(QuoteMark, s, RunEnd(IdentChar, s, a + 1)) || CharAt(IdentChar, s, m) || CharAt(QuoteMark, s, m))
    ensures CharAt(IdentStart, s, a) && m == SkipOne(QuoteMark, s, RunEnd(IdentChar, s, a + 1)) ==>
      m in Ends(Cat(Chr(IdentStart), NameTail()), s, a)
  {
    CharThen(IdentStart, NameTail(), s, a);
    if CharAt(IdentStart, s, a) { NameTailEnds(s, a + 1, m); }
  }

  lemma {:induction false} NoKey(s: string, i: nat)
    requires i <= |s| && ScanKey(s, i).None?
    ensures Ends(KeyGroup(), s, i) == []
  {
    var keys := Ends(KeyGroup(), s, i);
    if keys != [] {
      KeyEnds(s, i, keys[0]);
      assert false;
    }
  }

  lemma {:induction false} NoSepInKey(s: string, m: nat)
    requires CharAt(IdentChar, s, m) || CharAt(QuoteMark, s, m)
    ensures Ends(SepGroup(), s, m) == []
  {
    NoSep(s, m);
  }

  ghost predicate ElseInKey(s: string, keys: seq<nat>, k: nat) {
    forall j | 0 <= j < |keys| ::
      keys[j] == k || CharAt(IdentChar, s, keys[j]) || CharAt(QuoteMark, s, keys[j])
  }

  lemma {:induction false} FirstKeyIs(s: string, keys: seq<nat>, k: nat)
    requires Within(keys, 0, |s|) && k <= |s|
    requires ElseInKey(s, keys, k)
    ensures FirstKey(s, keys) == if k in keys then FirstSep(s, k, Ends(SepGroup(), s, k)) else None
  {
    if keys != [] {
      assert keys == [keys[0]] + keys[1..];
      FirstKeyIs(s, keys[1..], k);
      if keys[0] != k { NoSepInKey(s, keys[0]); }
    }
  }

  /** The scanner is the engine: same match or none, same three groups, at every start. */
  lemma {:induction false} ScanIsEngineMatch(s: string, i: nat)
    requires i <= |s|
    ensures EngineMatch(s, i) == Scan(s, i)
  {
    var keys := Ends(KeyGroup(), s, i);
    forall j | 0 <= j < |keys|
      ensures ScanKey(s, i).Some? &&
        (keys[j] == ScanKey(s, i).value || CharAt(IdentChar, s, keys[j]) || CharAt(QuoteMark, s, keys[j]))
    {
      KeyEnds(s, i, keys[j]);
    }
    if ScanKey(s, i).Some? {
      var k := ScanKey(s, i).value;
      KeyEnds(s, i, k);
      FirstKeyIs(s, keys, k);
      SepAndValue(s, k);
    } else {
      NoKey(s, i);
    }
  }

  /** The group-by-group reading ends where the whole pattern's first path ends. */
  lemma {:induction false} GroupsAgreeWithPattern(s: string, i: nat)
    requires i <= |s|
    ensures First(KeyValue(), s, i) ==
      match EngineMatch(s, i) case Some(g) => Some(g.valueEnd) case None => None
  {
    FirstKeyEnds(s, i, Ends(KeyGroup(), s, i));
  }

  lemma {:induction false} FirstSepEnds(s: string, lo: nat, k: nat, seps: seq<nat>)
    requires lo <= |s| && Within(seps, lo, |s|)
    ensures var es := EndsFrom(ValueGroup(), s, lo, seps);
      match FirstSep(s, k, seps) case Some(g) => es != [] && es[0] == g.valueEnd case None => es == []
    decreases |seps|
  {
    if seps != [] { FirstSepEnds(s, lo, k, seps[1..]); }
  }

  lemma {:induction false} FirstKeyEnds(s: string, lo: nat, keys: seq<nat>)
    requires lo <= |s| && Within(keys, lo, |s|)
    ensures var es := EndsFrom(Cat(SepGroup(), ValueGroup()), s, lo, keys);
      match FirstKey(s, keys) case Some(g) => es != [] && es[0] == g.valueEnd case None => es == []
    decreases |keys|
  {
    if keys != [] {
      FirstKeyEnds(s, lo, keys[1..]);
      FirstSepEnds(s, keys[0], keys[0], Ends(SepGroup(), s, keys[0]));
    }
  }
}
