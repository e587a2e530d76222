/** The audit trail's hash chain: what an entry hash commits to, what verification can and
    cannot notice, and the migration that chains existing rows in one pass. */
module AuditChain {
  import opened Wrappers

  type Hash = string

  datatype ObjectKey = ObjectKey(tenant: int, kind: string, id: int)

  /** The substantive columns, already normalised. `body` stands for those that neither
      select nor order rows. */
  datatype Hashed = Hashed(id: int, subject: ObjectKey, timestamp: int, body: string)

  /** A stored row. `correlation` stands for the columns left out of the hash. */
  datatype Row = Row(hashed: Hashed, correlation: Option<int>, prev: Option<Hash>, entry: Option<Hash>)

  /** SHA-256 and the canonical JSON, uninterpreted. */
  datatype Hasher = Hasher(canon: Hashed -> string, sha: string -> Hash)

  /** Canonical texts tell rows apart, and digests are non-empty text on one line. */
  ghost predicate Sound(h: Hasher) {
    && (forall x, y :: h.canon(x) == h.canon(y) ==> x == y)
    && (forall a :: h.sha(a) != "" && '\n' !in h.sha(a))
  }

  /** Two texts with one digest. */
  ghost predicate Collision(h: Hasher, a: string, b: string) { a != b && h.sha(a) == h.sha(b) }

  /** `f"{prev_hash or ''}\n{canonical}"` */
  function Base(h: Hasher, x: Hashed, prev: Option<Hash>): string {
    (match prev case Some(p) => p case None => "") + "\n" + h.canon(x)
  }

  function EntryHash(h: Hasher, x: Hashed, prev: Option<Hash>): Hash { h.sha(Base(h, x, prev)) }

  // ---------------------------------------------------------------- verification

  /** The text that is hashed for some row of the history. */
  ghost predicate IsHashedText(h: Hasher, log: seq<Row>, text: string) {
    exists i: nat | i < |log| :: text == TextAt(h, log, i)
  }

  function TextAt(h: Hasher, log: seq<Row>, i: nat): string
    requires i < |log|
  {
    Base(h, log[i].hashed, PrevOf(log, i))
  }

  /** What every undetected change below would exhibit: two different texts with one digest,
      each hashed for a row of these very histories. */
  ghost predicate CollisionBetween(h: Hasher, log: seq<Row>, log': seq<Row>, a: string, b: string) {
    Collision(h, a, b) && IsHashedText(h, log, a) && IsHashedText(h, log', b)
  }

  function PrevOf(log: seq<Row>, i: nat): Option<Hash>
    requires i <= |log|
  {
    if i == 0 then None else log[i - 1].entry
  }

  datatype Break = NoHash | BadLink | BadContent

  /** The three checks `verify_object_chain` makes on a row, in its order. */
  function CheckRow(h: Hasher, row: Row, prev: Option<Hash>): Option<Break> {
    if row.entry.None? then Some(NoHash)
    else if row.prev != prev then Some(BadLink)
    else if row.entry.value != EntryHash(h, row.hashed, prev) then Some(BadContent)
    else None
  }

  predicate RowVerifies(h: Hasher, log: seq<Row>, i: nat)
    requires i < |log|
  {
    CheckRow(h, log[i], PrevOf(log, i)).None?
  }

  /** A row verifies exactly when it names the row before it and its hash is that of its content. */
  lemma RowVerifiesExactlyWhen(h: Hasher, log: seq<Row>, i: nat)
    requires i < |log|
    ensures RowVerifies(h, log, i) <==>
      log[i].prev == PrevOf(log, i) && log[i].entry == Some(h.sha(Base(h, log[i].hashed, log[i].prev)))
  {
  }

  /** Every row follows from the one before it. */
  ghost predicate Verifies(h: Hasher, log: seq<Row>) {
    forall i: nat | i < |log| :: RowVerifies(h, log, i)
  }

  /** What each kind of break means: a row without a hash; one with a hash that does not name the
      row before it; one that does, but whose hash is not that of its own content. */
  predicate BreaksAs(h: Hasher, log: seq<Row>, i: nat, kind: Break)
    requires i < |log|
  {
    var row := log[i];
    match kind
    case NoHash => row.entry == None
    case BadLink => row.entry != None && row.prev != PrevOf(log, i)
    case BadContent =>
      row.entry != None && row.prev == PrevOf(log, i) && row.entry != Some(h.sha(Base(h, row.hashed, row.prev)))
  }

  /** `verify_object_chain` on an object's rows in (timestamp, id) order. */
  method VerifyObjectChain(h: Hasher, log: seq<Row>) returns (broken: Option<(nat, Break)>)
    ensures broken.None? <==> Verifies(h, log)
    ensures broken.Some? ==>
      && broken.value.0 < |log|
      && BreaksAs(h, log, broken.value.0, broken.value.1)
      && Verifies(h, log[..broken.value.0])
  {
    var prev: Option<Hash> := None;
    var index := 0;
    while index < |log|
      invariant 0 <= index <= |log|
      invariant prev == PrevOf(log, index)
      invariant forall i: nat | i < index :: RowVerifies(h, log, i)
    {
      var check := CheckRow(h, log[index], prev);
      if check.Some? {
        VerifiedPrefix(h, log, index);
        assert !RowVerifies(h, log, index);
        return Some((index, check.value));
      }
      prev := log[index].entry;
      index := index + 1;
    }
    return None;
  }

  lemma VerifiedPrefix(h: Hasher, log: seq<Row>, n: nat)
    requires n <= |log|
    requires forall i: nat | i < n :: RowVerifies(h, log, i)
    ensures Verifies(h, log[..n])
  {
    forall i: nat | i < n ensures RowVerifies(h, log[..n], i) {
      assert RowVerifies(h, log, i);
    }
  }

  // ---------------------------------------------------------------- what a hash commits to

  lemma {:induction false} FirstLine(p: string, c: string, q: string, d: string)
    requires '\n' !in p && '\n' !in q
    requires p + "\n" + c == q + "\n" + d
    ensures p == q && c == d
    decreases |p|
  {
    var s, t := p + "\n" + c, q + "\n" + d;
    assert s[|p|] == '\n' && t[|q|] == '\n';
    assert forall k | 0 <= k < |p| :: s[k] == p[k] && p[k] in p;
    assert forall k | 0 <= k < |q| :: t[k] == q[k] && q[k] in q;
    if |p| < |q| || |q| < |p| { assert false; }
    assert p == s[..|p|] && q == t[..|q|];
    assert c == s[|p| + 1..] && d == t[|q| + 1..];
  }

  /** A link as verification leaves it: absent, or non-empty text on one line. */
  predicate OneLine(prev: Option<Hash>) { prev.Some? ==> prev.value != "" && '\n' !in prev.value }

  lemma BaseCommits(h: Hasher, x: Hashed, p: Option<Hash>, y: Hashed, q: Option<Hash>)
    requires Sound(h) && OneLine(p) && OneLine(q)
    requires Base(h, x, p) == Base(h, y, q)
    ensures x == y && p == q
  {
    var a := match p case Some(v) => v case None => "";
    var b := match q case Some(v) => v case None => "";
    FirstLine(a, h.canon(x), b, h.canon(y));
  }

  lemma LinkIsDigest(h: Hasher, log: seq<Row>, i: nat)
    requires Sound(h) && Verifies(h, log) && i <= |log|
    ensures OneLine(PrevOf(log, i))
    ensures i > 0 ==> PrevOf(log, i).Some?
  {
    if i > 0 { assert RowVerifies(h, log, i - 1); }
  }

  /** Equal entry hashes mean equal rows and equal links, or else a collision. */
  lemma HashCommits(h: Hasher, log: seq<Row>, i: nat, log': seq<Row>, j: nat) returns (a: string, b: string)
    requires Sound(h) && Verifies(h, log) && Verifies(h, log')
    requires i < |log| && j < |log'| && log[i].entry == log'[j].entry
    ensures CollisionBetween(h, log, log', a, b) ||
      (log[i].hashed == log'[j].hashed && PrevOf(log, i) == PrevOf(log', j))
  {
    assert RowVerifies(h, log, i) && RowVerifies(h, log', j);
    a, b := TextAt(h, log, i), TextAt(h, log', j);
    if a == b {
      LinkIsDigest(h, log, i);
      LinkIsDigest(h, log', j);
      BaseCommits(h, log[i].hashed, PrevOf(log, i), log'[j].hashed, PrevOf(log', j));
    }
  }

  /** Within one verified history no entry hash repeats. */
  lemma {:induction false} HashesDiffer(h: Hasher, log: seq<Row>, i: nat, j: nat) returns (a: string, b: string)
    requires Sound(h) && Verifies(h, log)
    requires i < j < |log| && log[i].entry == log[j].entry
    ensures CollisionBetween(h, log, log, a, b)
    decreases i
  {
    a, b := HashCommits(h, log, i, log, j);
    LinkIsDigest(h, log, j);
    if !CollisionBetween(h, log, log, a, b) && i > 0 {
      a, b := HashesDiffer(h, log, i - 1, j - 1);
    }
  }

  // ---------------------------------------------------------------- tamper evidence

  /** The same history, up to the columns the hash leaves out. */
  predicate SameHistory(log: seq<Row>, log': seq<Row>) {
    |log| == |log'| && forall i | 0 <= i < |log| ::
      log[i].hashed == log'[i].hashed && log[i].prev == log'[i].prev && log[i].entry == log'[i].entry
  }

  /** Two verified histories with the same head hash are the same history, whatever their
      lengths, or the difference exhibits a collision. */
  lemma {:induction false} HeadCommitsToHistory(h: Hasher, log: seq<Row>, log': seq<Row>) returns (a: string, b: string)
    requires Sound(h) && Verifies(h, log) && Verifies(h, log')
    requires PrevOf(log, |log|) == PrevOf(log', |log'|)
    ensures CollisionBetween(h, log, log', a, b) || SameHistory(log, log')
    decreases |log|
  {
    a, b := "", "";
    LinkIsDigest(h, log, |log|);
    LinkIsDigest(h, log', |log'|);
    if log != [] {
      a, b := HashCommits(h, log, |log| - 1, log', |log'| - 1);
      if !CollisionBetween(h, log, log', a, b) {
        a, b := HeadCommitsStep(h, log, log');
      }
    }
  }

  lemma {:induction false} HeadCommitsStep(h: Hasher, log: seq<Row>, log': seq<Row>) returns (a: string, b: string)
    requires Sound(h) && Verifies(h, log) && Verifies(h, log') && log != [] && log' != []
    requires log[|log| - 1].entry == log'[|log'| - 1].entry
    requires log[|log| - 1].hashed == log'[|log'| - 1].hashed
    requires PrevOf(log, |log| - 1) == PrevOf(log', |log'| - 1)
    ensures CollisionBetween(h, log, log', a, b) || SameHistory(log, log')
    decreases |log|, 0
  {
    var n, m := |log| - 1, |log'| - 1;
    var init, init' := log[..n], log'[..m];
    VerifiedPrefix(h, log, n);
    VerifiedPrefix(h, log', m);
    assert PrevOf(init, n) == PrevOf(log, n) && PrevOf(init', m) == PrevOf(log', m);
    a, b := HeadCommitsToHistory(h, init, init');
    if CollisionBetween(h, init, init', a, b) {
      TextOfPrefix(h, log, n, a);
      TextOfPrefix(h, log', m, b);
    } else {
      SameButLast(h, log, log');
    }
  }

  lemma TextOfPrefix(h: Hasher, log: seq<Row>, n: nat, text: string)
    requires n <= |log| && IsHashedText(h, log[..n], text)
    ensures IsHashedText(h, log, text)
  {
    var i: nat :| i < n && text == TextAt(h, log[..n], i);
    assert text == TextAt(h, log, i);
  }

  lemma SameButLast(h: Hasher, log: seq<Row>, log': seq<Row>)
    requires Verifies(h, log) && Verifies(h, log') && |log| == |log'| && log != []
    requires log[|log| - 1].entry == log'[|log| - 1].entry && log[|log| - 1].hashed == log'[|log| - 1].hashed
    requires SameHistory(log[..|log| - 1], log'[..|log| - 1])
    ensures SameHistory(log, log')
  {
    var n := |log| - 1;
    assert forall i | 0 <= i < n :: log[..n][i] == log[i] && log'[..n][i] == log'[i];
    assert RowVerifies(h, log, n) && RowVerifies(h, log', n);
  }

  /** Any change, insertion, reordering or deletion that keeps the head hash is reported. */
  lemma TamperingIsReported(h: Hasher, log: seq<Row>, log': seq<Row>) returns (a: string, b: string)
    requires Sound(h) && Verifies(h, log)
    requires PrevOf(log, |log|) == PrevOf(log', |log'|) && !SameHistory(log, log')
    ensures CollisionBetween(h, log, log', a, b) || !Verifies(h, log')
  {
    a, b := "", "";
    if Verifies(h, log') { a, b := HeadCommitsToHistory(h, log, log'); }
  }

  /** Columns outside the hash never matter to verification. */
  lemma UnhashedColumnsAreFree(h: Hasher, log: seq<Row>, log': seq<Row>)
    requires SameHistory(log, log')
    ensures Verifies(h, log) <==> Verifies(h, log')
  {
    forall i: nat | i < |log| ensures RowVerifies(h, log, i) <==> RowVerifies(h, log', i) {
      assert PrevOf(log, i) == PrevOf(log', i);
    }
  }

  // ---------------------------------------------------------------- deletion

  predicate Increasing(kept: seq<nat>, n: nat) {
    && (forall j | 0 <= j < |kept| :: kept[j] < n)
    && (forall j, k | 0 <= j < k < |kept| :: kept[j] < kept[k])
  }

  function Keep(log: seq<Row>, kept: seq<nat>): (rest: seq<Row>)
    requires Increasing(kept, |log|)
    ensures |rest| == |kept| && forall j | 0 <= j < |kept| :: rest[j] == log[kept[j]]
  {
    seq(|kept|, j requires 0 <= j < |kept| => log[kept[j]])
  }

  predicate IsPrefix(kept: seq<nat>) { forall j | 0 <= j < |kept| :: kept[j] == j }

  /** Deleting the newest events leaves a history that verifies... */
  lemma DeletingTheNewestIsUnseen(h: Hasher, log: seq<Row>, kept: seq<nat>)
    requires Verifies(h, log) && Increasing(kept, |log|) && IsPrefix(kept)
    ensures Verifies(h, Keep(log, kept))
  {
    var rest := Keep(log, kept);
    forall i | 0 <= i < |rest| ensures RowVerifies(h, rest, i) {
      assert kept[i] == i;
      assert i > 0 ==> kept[i - 1] == i - 1;
      assert RowVerifies(h, log, i);
    }
  }

  /** ...and any other deletion is reported, or exhibits a collision. */
  lemma OtherDeletionsAreReported(h: Hasher, log: seq<Row>, kept: seq<nat>) returns (a: string, b: string)
    requires Sound(h) && Verifies(h, log) && Increasing(kept, |log|) && !IsPrefix(kept)
    ensures CollisionBetween(h, log, log, a, b) || !Verifies(h, Keep(log, kept))
  {
    a, b := "", "";
    var j := FirstGap(kept, |log|, 0);
    if Verifies(h, Keep(log, kept)) { a, b := GapCollides(h, log, kept, j); }
  }

  /** Where something was dropped, the next kept row links to the row before it, not to the
      last one kept. */
  lemma GapCollides(h: Hasher, log: seq<Row>, kept: seq<nat>, j: nat) returns (a: string, b: string)
    requires Sound(h) && Verifies(h, log) && Increasing(kept, |log|) && Verifies(h, Keep(log, kept))
    requires j < |kept| && j < kept[j] && forall k | 0 <= k < j :: kept[k] == k
    ensures CollisionBetween(h, log, log, a, b)
  {
    var rest, r := Keep(log, kept), kept[j];
    assert RowVerifies(h, rest, j);
    assert RowVerifies(h, log, r);
    LinkIsDigest(h, log, r);
    assert j > 0 && kept[j - 1] == j - 1;
    a, b := HashesDiffer(h, log, j - 1, r - 1);
  }

  /** The first place where something was dropped. */
  lemma {:induction false} FirstGap(kept: seq<nat>, n: nat, from: nat) returns (j: nat)
    requires Increasing(kept, n) && from <= |kept|
    requires forall k | 0 <= k < from :: kept[k] == k
    requires !IsPrefix(kept)
    ensures j < |kept| && j < kept[j] && forall k | 0 <= k < j :: kept[k] == k
    decreases |kept| - from
  {
    if kept[from] == from {
      j := FirstGap(kept, n, from + 1);
    } else {
      j := from;
      if j > 0 { assert kept[j - 1] < kept[j]; }
    }
  }

  // ---------------------------------------------------------------- appending

  /** `ORDER BY timestamp, id` */
  predicate Before(x: Hashed, y: Hashed) {
    x.timestamp < y.timestamp || (x.timestamp == y.timestamp && x.id < y.id)
  }

  predicate InOrder(log: seq<Row>) {
    forall i, j | 0 <= i < j < |log| :: Before(log[i].hashed, log[j].hashed)
  }

  /** Where a row with `x`'s timestamp and id is read back. */
  function Place(log: seq<Row>, x: Hashed): (k: nat)
    ensures k <= |log|
    ensures forall i | 0 <= i < k :: !Before(x, log[i].hashed)
    ensures k < |log| ==> Before(x, log[k].hashed)
  {
    if log == [] || Before(x, log[0].hashed) then 0 else 1 + Place(log[1..], x)
  }

  /** `append_to_chain`: the new row links to the latest other row of the object, and is from
      then on read back in (timestamp, id) order. */
  function Append(h: Hasher, log: seq<Row>, x: Hashed): seq<Row> {
    var prev := PrevOf(log, |log|);
    var k := Place(log, x);
    log[..k] + [Row(x, None, prev, Some(EntryHash(h, x, prev)))] + log[k..]
  }

  /** The row appended names the row read last before it, carries the hash of its own content, and
      is read back after every row that does not sort after it; the others stay as they are. */
  lemma AppendWrites(h: Hasher, log: seq<Row>, x: Hashed)
    ensures
      var k, log' := Place(log, x), Append(h, log, x);
      && |log'| == |log| + 1 && log'[..k] == log[..k] && log'[k + 1..] == log[k..]
      && log'[k].hashed == x && log'[k].correlation == None
      && log'[k].prev == (if log == [] then None else log[|log| - 1].entry)
      && log'[k].entry == Some(h.sha(Base(h, x, log'[k].prev)))
  {
  }

  predicate SortsLast(log: seq<Row>, x: Hashed) {
    forall i | 0 <= i < |log| :: !Before(x, log[i].hashed)
  }

  /** An append keeps the chain verifiable when the entry sorts after every existing one... */
  lemma AppendInOrderVerifies(h: Hasher, log: seq<Row>, x: Hashed)
    requires Verifies(h, log) && SortsLast(log, x)
    ensures Verifies(h, Append(h, log, x))
  {
    var log' := Append(h, log, x);
    assert Place(log, x) == |log|;
    forall i | 0 <= i < |log'| ensures RowVerifies(h, log', i) {
      if i < |log| { assert RowVerifies(h, log, i); }
    }
  }

  /** ...and only then: an entry written with an earlier timestamp, or with the same one and
      a smaller id, breaks the chain it was appended to, unless digests collide. */
  lemma AppendOutOfOrderBreaks(h: Hasher, log: seq<Row>, x: Hashed) returns (a: string, b: string)
    requires Sound(h) && Verifies(h, log) && !SortsLast(log, x)
    ensures CollisionBetween(h, log, log, a, b) || !Verifies(h, Append(h, log, x))
  {
    a, b := "", "";
    var log', k := Append(h, log, x), Place(log, x);
    if Verifies(h, log') {
      assert RowVerifies(h, log', k);
      LinkIsDigest(h, log, |log|);
      if k > 0 {
        assert log'[k - 1] == log[k - 1];
        if k < |log| { a, b := HashesDiffer(h, log, k - 1, |log| - 1); }
      }
    }
  }

  /** An entry dated exactly as the latest one, as the demo data's automatic approvals are,
      leaves the chain verifiable or breaks it according to its random id alone. */
  lemma TiedEntryDependsOnId(h: Hasher, log: seq<Row>, x: Hashed) returns (a: string, b: string)
    requires Sound(h) && Verifies(h, log) && InOrder(log) && log != []
    requires x.timestamp == log[|log| - 1].hashed.timestamp && x.id != log[|log| - 1].hashed.id
    ensures CollisionBetween(h, log, log, a, b) ||
      (Verifies(h, Append(h, log, x)) <==> log[|log| - 1].hashed.id < x.id)
  {
    a, b := "", "";
    var last := log[|log| - 1].hashed;
    if last.id < x.id {
      forall i | 0 <= i < |log| ensures !Before(x, log[i].hashed) {
        if i < |log| - 1 { assert Before(log[i].hashed, last); }
      }
      AppendInOrderVerifies(h, log, x);
    } else {
      assert Before(x, last);
      a, b := AppendOutOfOrderBreaks(h, log, x);
    }
  }

  // ---------------------------------------------------------------- a whole trail, written entry by entry

  function AppendAll(h: Hasher, xs: seq<Hashed>): seq<Row> {
    if xs == [] then [] else Append(h, AppendAll(h, xs[..|xs| - 1]), xs[|xs| - 1])
  }

  /** No entry sorts before one written earlier. */
  predicate WrittenInOrder(xs: seq<Hashed>) { forall i, j | 0 <= i < j < |xs| :: !Before(xs[j], xs[i]) }

  predicate AllHashed(log: seq<Row>) { forall i | 0 <= i < |log| :: log[i].entry.Some? }

  predicate LinksAhead(log: seq<Row>, p: nat, q: nat) {
    p < q < |log| && log[p].prev.Some? && log[p].prev == log[q].entry
  }

  /** Some row links to one that is read back after it. */
  ghost predicate Misplaced(log: seq<Row>) { exists p: nat, q: nat :: LinksAhead(log, p, q) }

  lemma {:induction false} AppendAllHashed(h: Hasher, xs: seq<Hashed>)
    ensures AllHashed(AppendAll(h, xs)) && |AppendAll(h, xs)| == |xs|
  {
    if xs != [] { AppendAllHashed(h, xs[..|xs| - 1]); }
  }

  /** Appending moves rows apart but never past each other. */
  lemma AppendKeepsMisplaced(h: Hasher, log: seq<Row>, x: Hashed)
    requires Misplaced(log)
    ensures Misplaced(Append(h, log, x))
  {
    var p: nat, q: nat :| LinksAhead(log, p, q);
    var k, log' := Place(log, x), Append(h, log, x);
    assert LinksAhead(log', if p < k then p else p + 1, if q < k then q else q + 1);
  }

  lemma AppendMisplaces(h: Hasher, log: seq<Row>, x: Hashed)
    requires AllHashed(log) && !SortsLast(log, x)
    ensures Misplaced(Append(h, log, x))
  {
    var log', k := Append(h, log, x), Place(log, x);
    assert k < |log|;
    assert log'[|log|] == log[|log| - 1];
    assert LinksAhead(log', k, |log|);
  }

  lemma MisplacedCollides(h: Hasher, log: seq<Row>) returns (a: string, b: string)
    requires Sound(h) && Verifies(h, log) && Misplaced(log)
    ensures CollisionBetween(h, log, log, a, b)
  {
    var p: nat, q: nat :| LinksAhead(log, p, q);
    assert RowVerifies(h, log, p);
    assert p > 0;
    a, b := HashesDiffer(h, log, p - 1, q);
  }

  lemma {:induction false} InOrderIsWritten(h: Hasher, xs: seq<Hashed>)
    requires WrittenInOrder(xs)
    ensures Verifies(h, AppendAll(h, xs))
    ensures |AppendAll(h, xs)| == |xs| && forall i | 0 <= i < |xs| :: AppendAll(h, xs)[i].hashed == xs[i]
  {
    if xs != [] {
      var init, x := xs[..|xs| - 1], xs[|xs| - 1];
      InOrderIsWritten(h, init);
      var log := AppendAll(h, init);
      assert forall i | 0 <= i < |init| :: init[i] == xs[i];
      AppendInOrderVerifies(h, log, x);
      assert Place(log, x) == |log|;
    }
  }

  lemma {:induction false} OutOfOrderMisplaces(h: Hasher, xs: seq<Hashed>)
    requires !WrittenInOrder(xs)
    ensures Misplaced(AppendAll(h, xs))
  {
    var init, x := xs[..|xs| - 1], xs[|xs| - 1];
    var log := AppendAll(h, init);
    if !WrittenInOrder(init) {
      OutOfOrderMisplaces(h, init);
      AppendKeepsMisplaced(h, log, x);
    } else {
      InOrderIsWritten(h, init);
      AppendAllHashed(h, init);
      if SortsLast(log, x) { StillInOrder(h, xs); }
      AppendMisplaces(h, log, x);
    }
  }

  lemma StillInOrder(h: Hasher, xs: seq<Hashed>)
    requires xs != [] && WrittenInOrder(xs[..|xs| - 1])
    requires SortsLast(AppendAll(h, xs[..|xs| - 1]), xs[|xs| - 1])
    ensures WrittenInOrder(xs)
  {
    var init, log := xs[..|xs| - 1], AppendAll(h, xs[..|xs| - 1]);
    InOrderIsWritten(h, init);
    forall i, j | 0 <= i < j < |xs| ensures !Before(xs[j], xs[i]) {
      assert log[i].hashed == init[i] == xs[i];
      if j < |xs| - 1 { assert init[j] == xs[j]; }
    }
  }

  /** A trail written entry by entry verifies exactly when it was written in the order it is
      read back, or exhibits a collision among its own rows. */
  lemma TrailVerifiesExactlyWhen(h: Hasher, xs: seq<Hashed>) returns (a: string, b: string)
    requires Sound(h)
    ensures var log := AppendAll(h, xs);
      CollisionBetween(h, log, log, a, b) || (Verifies(h, log) <==> WrittenInOrder(xs))
  {
    a, b := "", "";
    if WrittenInOrder(xs) {
      InOrderIsWritten(h, xs);
    } else {
      OutOfOrderMisplaces(h, xs);
      if Verifies(h, AppendAll(h, xs)) { a, b := MisplacedCollides(h, AppendAll(h, xs)); }
    }
  }

  // ---------------------------------------------------------------- the back-fill

  /** The ids that belong to one object, in the order given. */
  predicate Known(ids: seq<int>, table: map<int, Row>) { forall j | 0 <= j < |ids| :: ids[j] in table }

  function IdsOf(table: map<int, Row>, ids: seq<int>, key: ObjectKey): (own: seq<int>)
    requires Known(ids, table)
    ensures Known(own, table)
    ensures forall j | 0 <= j < |own| :: own[j] in ids && table[own[j]].hashed.subject == key
    ensures forall j | 0 <= j < |ids| && table[ids[j]].hashed.subject == key :: ids[j] in own
  {
    if ids == [] then []
    else
      var id := ids[|ids| - 1];
      var own := IdsOf(table, ids[..|ids| - 1], key);
      assert ids == ids[..|ids| - 1] + [id];
      if table[id].hashed.subject == key then own + [id] else own
  }

  function RowsAt(table: map<int, Row>, ids: seq<int>): (rows: seq<Row>)
    requires Known(ids, table)
    ensures |rows| == |ids| && forall j | 0 <= j < |ids| :: rows[j] == table[ids[j]]
  {
    seq(|ids|, j requires 0 <= j < |ids| => table[ids[j]])
  }

  predicate Distinct(ids: seq<int>) { forall i, j | 0 <= i < j < |ids| :: ids[i] != ids[j] }

  /** Only the two hash columns may differ. */
  predicate SameRows(was: map<int, Row>, now: map<int, Row>) {
    && was.Keys == now.Keys
    && forall id | id in was :: now[id].hashed == was[id].hashed && now[id].correlation == was[id].correlation
  }

  function Last(prevs: map<ObjectKey, Hash>, key: ObjectKey): Option<Hash> {
    if key in prevs then Some(prevs[key]) else None
  }

  /** After the ids `done`: each object's rows so far are a verified chain whose head is what
      the dictionary remembers. */
  ghost predicate Chained(h: Hasher, table: map<int, Row>, done: seq<int>, prevs: map<ObjectKey, Hash>)
    requires Known(done, table)
  {
    forall key ::
      var rows := RowsAt(table, IdsOf(table, done, key));
      Verifies(h, rows) && Last(prevs, key) == PrevOf(rows, |rows|)
  }

  function UpdateRow(h: Hasher, table: map<int, Row>, id: int, prev: Option<Hash>): map<int, Row>
    requires id in table
  {
    var row := table[id];
    table[id := row.(prev := prev, entry := Some(EntryHash(h, row.hashed, prev)))]
  }

  /** The pass after `i` of the selected rows. */
  ghost predicate Filled(
      h: Hasher, was: map<int, Row>, now: map<int, Row>, selected: seq<int>, i: nat, prevs: map<ObjectKey, Hash>)
    requires i <= |selected|
  {
    && SameRows(was, now)
    && (forall id | id in now && id !in selected :: now[id] == was[id])
    && Known(selected, now)
    && Chained(h, now, selected[..i], prevs)
  }

  lemma FillOne(
      h: Hasher, was: map<int, Row>, now: map<int, Row>, selected: seq<int>, i: nat, prevs: map<ObjectKey, Hash>)
    requires Distinct(selected) && i < |selected| && Filled(h, was, now, selected, i, prevs)
    ensures var key := now[selected[i]].hashed.subject;
      var now' := UpdateRow(h, now, selected[i], Last(prevs, key));
      Filled(h, was, now', selected, i + 1, prevs[key := now'[selected[i]].entry.value])
  {
    ChainOneMore(h, now, selected[..i], selected[i], prevs);
    assert selected[..i + 1] == selected[..i] + [selected[i]];
  }

  class AuditTable {
    var rows: map<int, Row>

    /** The back-fill of migration 010: `selected` is the id column of its SELECT, in whatever
        order that yields, and `prevs` is `prev_by_object`. */
    method Backfill(h: Hasher, selected: seq<int>)
      requires Distinct(selected) && Known(selected, rows)
      modifies this
      ensures SameRows(old(rows), rows)
      ensures forall id | id in rows && id !in selected :: rows[id] == old(rows)[id]
      ensures forall key :: Verifies(h, RowsAt(rows, IdsOf(rows, selected, key)))
    {
      var prevs: map<ObjectKey, Hash> := map[];
      NothingChained(h, rows);
      for i := 0 to |selected|
        invariant Filled(h, old(rows), rows, selected, i, prevs)
      {
        var id := selected[i];
        var key := rows[id].hashed.subject;
        var prev := Last(prevs, key);
        FillOne(h, old(rows), rows, selected, i, prevs);
        rows := UpdateRow(h, rows, id, prev);
        prevs := prevs[key := rows[id].entry.value];
      }
      assert selected[..|selected|] == selected;
    }
  }

  lemma NothingChained(h: Hasher, table: map<int, Row>)
    ensures Chained(h, table, [], map[])
  {
  }

  lemma ChainOneMore(h: Hasher, table: map<int, Row>, done: seq<int>, id: int, prevs: map<ObjectKey, Hash>)
    requires Known(done, table)
    requires id in table && id !in done
    requires Chained(h, table, done, prevs)
    ensures var key := table[id].hashed.subject;
      var table' := UpdateRow(h, table, id, Last(prevs, key));
      && Known(done + [id], table')
      && Chained(h, table', done + [id], prevs[key := table'[id].entry.value])
  {
    var key := table[id].hashed.subject;
    var table' := UpdateRow(h, table, id, Last(prevs, key));
    forall k
      ensures var rows := RowsAt(table', IdsOf(table', done + [id], k));
        Verifies(h, rows) && Last(prevs[key := table'[id].entry.value], k) == PrevOf(rows, |rows|)
    {
      ChainOneObject(h, table, done, id, prevs, k);
    }
  }

  lemma ChainOneObject(
      h: Hasher, table: map<int, Row>, done: seq<int>, id: int, prevs: map<ObjectKey, Hash>, k: ObjectKey)
    requires Known(done, table)
    requires id in table && id !in done
    requires Chained(h, table, done, prevs)
    ensures var key := table[id].hashed.subject;
      var table' := UpdateRow(h, table, id, Last(prevs, key));
      var rows := RowsAt(table', IdsOf(table', done + [id], k));
      Verifies(h, rows) && Last(prevs[key := table'[id].entry.value], k) == PrevOf(rows, |rows|)
  {
    var key := table[id].hashed.subject;
    var table' := UpdateRow(h, table, id, Last(prevs, key));
    var own := IdsOf(table, done, k);
    var before := RowsAt(table, own);
    IdsIgnoreHashes(table, table', done, k);
    assert (done + [id])[..|done|] == done;
    var rows := RowsAt(table', IdsOf(table', done + [id], k));
    assert RowsAt(table', own) == before;
    if k == key {
      assert rows == before + [table'[id]];
      ExtendVerified(h, before, table'[id]);
    } else {
      assert rows == before;
    }
  }

  lemma {:induction false} IdsIgnoreHashes(table: map<int, Row>, table': map<int, Row>, ids: seq<int>, key: ObjectKey)
    requires SameRows(table, table') && Known(ids, table)
    ensures IdsOf(table, ids, key) == IdsOf(table', ids, key)
  {
    if ids != [] {
      assert ids == ids[..|ids| - 1] + [ids[|ids| - 1]];
      IdsIgnoreHashes(table, table', ids[..|ids| - 1], key);
    }
  }

  lemma ExtendVerified(h: Hasher, log: seq<Row>, row: Row)
    requires Verifies(h, log) && CheckRow(h, row, PrevOf(log, |log|)).None?
    ensures Verifies(h, log + [row])
  {
    var log' := log + [row];
    forall i | 0 <= i < |log'| ensures RowVerifies(h, log', i) {
      if i < |log| { assert RowVerifies(h, log, i); }
    }
  }

  /** A verified chain is determined by its substantive columns, so what the single pass
      writes for an object is what chaining that object alone would write. */
  lemma {:induction false} ChainIsDetermined(h: Hasher, log: seq<Row>, log': seq<Row>)
    requires Verifies(h, log) && Verifies(h, log')
    requires |log| == |log'| && forall i | 0 <= i < |log| :: log[i].hashed == log'[i].hashed
    ensures SameHistory(log, log')
    decreases |log|
  {
    if log != [] {
      var n := |log| - 1;
      VerifiedPrefix(h, log, n);
      VerifiedPrefix(h, log', n);
      ChainIsDetermined(h, log[..n], log'[..n]);
      assert forall i | 0 <= i < n :: log[..n][i] == log[i] && log'[..n][i] == log'[i];
      assert RowVerifies(h, log, n) && RowVerifies(h, log', n);
    }
  }
}
