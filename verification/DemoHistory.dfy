/** The demo generator's phases, with every random draw and every reading of the clock
    arbitrary. */
module DemoHistory {
  import opened Wrappers
  import opened DemoDraws
  import opened DemoLedger

  // ---------------------------------------------------------------- what the phases keep

  /** What the later phases rely on: the first vendor's trail stops at `t`, and nothing is
      written about the bank statement yet. */
  ghost predicate Reserved(audits: seq<Entry>, t: int) {
    QuietAfter(audits, OfVendor(0), t) && forall j | 0 <= j < |audits| :: audits[j].subject != OfStatement
  }

  /** Trails in order, legal moves, balanced books, and a trail that tells every state. */
  ghost predicate Kept(l: Ledger) {
    Trails(l) && LegalMoves(l) && Books(l) && Tells(l)
  }

  ghost predicate Sound(l: Ledger) {
    Kept(l) && PendingQuiet(l)
  }

  /** What every phase before the statement keeps. */
  ghost predicate Good(l: Ledger, t: int) {
    Sound(l) && Reserved(l.audits, t)
  }

  lemma GoodAddInvoice(l: Ledger, t: int, amount: int, at: int)
    requires Good(l, t)
    ensures Good(AddInvoice(l, amount, at), t)
    ensures QuietAfter(AddInvoice(l, amount, at).audits, OfInvoice(|l.invoices|), at)
    ensures |l.invoices| !in AddInvoice(l, amount, at).carrier
  {
    AddInvoiceKeepsTrails(l, amount, at);
    TellsAddInvoice(l, amount, at);
    BooksFrame(l, AddInvoice(l, amount, at));
  }

  lemma GoodMove(l: Ledger, t: int, i: nat, to: InvoiceState, action: string, at: int)
    requires Good(l, t) && i < |l.invoices| && i !in l.carrier
    requires QuietBefore(l.audits, OfInvoice(i), at)
    requires Edge(l.invoices[i].state, to) && to != Paid && StateOf(action) == Some(to)
    ensures Good(Move(l, i, to, action, at), t)
    ensures QuietAfter(Move(l, i, to, action, at).audits, OfInvoice(i), at)
  {
    MoveKeepsTrails(l, i, to, action, at);
    TellsMove(l, i, to, action, at);
    BooksFrame(l, Move(l, i, to, action, at));
  }

  /** An entry about something other than the statement, or a pending or settled invoice. */
  lemma GoodLog(l: Ledger, t: int, s: Subject, action: string, at: int)
    requires Good(l, t) && Exists(l, s) && QuietBefore(l.audits, s, at)
    requires s.OfInvoice? ==> !Settled(l.invoices[s.i].state) && l.invoices[s.i].state != PendingApproval
    requires s.OfInvoice? ==> StateOf(action).None?
    requires s != OfStatement && (s == OfVendor(0) ==> at <= t)
    ensures Good(Log(l, s, action, at), t) && QuietAfter(Log(l, s, action, at).audits, s, at)
  {
    LogKeepsTrails(l, s, action, at);
    TellsLog(l, Log(l, s, action, at), s, action, at);
    BooksFrame(l, Log(l, s, action, at));
  }

  lemma GoodAddDuplicate(l: Ledger, t: int, original: nat, at: int)
    requires Good(l, t)
    ensures Good(AddDuplicate(l, original, at), t)
    ensures QuietAfter(AddDuplicate(l, original, at).audits, OfDuplicate(|l.duplicates|), at)
  {
    var l' := AddDuplicate(l, original, at);
    AddDuplicateKeepsTrails(l, original, at);
    TellsLog(l, l', OfDuplicate(|l.duplicates|), "duplicate_flagged", at);
    BooksFrame(l, l');
  }

  lemma GoodAcknowledge(l: Ledger, t: int, d: nat, at: int)
    requires Good(l, t) && d < |l.duplicates| && QuietBefore(l.audits, OfDuplicate(d), at)
    ensures Good(Acknowledge(l, d, at), t)
  {
    var l' := Acknowledge(l, d, at);
    AcknowledgeKeepsTrails(l, d, at);
    TellsLog(l, l', OfDuplicate(d), "duplicate_acknowledged", at);
    BooksFrame(l, l');
  }

  lemma GoodAddRun(l: Ledger, t: int, batch: seq<nat>, at: int)
    requires Good(l, t) && Payable(l, batch)
    ensures Good(AddRun(l, batch, at), t)
    ensures QuietAfter(AddRun(l, batch, at).audits, OfRun(|l.runs|), at)
  {
    AddRunKeepsTrails(l, batch, at);
    TellsLog(l, AddRun(l, batch, at), OfRun(|l.runs|), "prepared", at);
    AddRunKeepsBooks(l, batch, at);
  }

  lemma GoodSubmit(l: Ledger, t: int, r: nat, at: int)
    requires Good(l, t) && r < |l.runs| && l.runs[r].state != Released
    requires QuietBefore(l.audits, OfRun(r), at)
    ensures Good(Submit(l, r, at), t) && QuietAfter(Submit(l, r, at).audits, OfRun(r), at)
  {
    RunStepKeepsTrails(l, r, at);
    TellsLog(l, Submit(l, r, at), OfRun(r), "submitted_for_release", at);
    SubmitKeepsBooks(l, r, at);
  }

  lemma GoodRelease(l: Ledger, t: int, r: nat, batch: seq<nat>, at: int)
    requires Good(l, t) && r < |l.runs| && l.runs[r].state != Released
    requires QuietBefore(l.audits, OfRun(r), at)
    requires ReadyToPay(l, batch, at) && Lists(l.runs[r], batch)
    ensures Good(Release(l, r, batch, at), t)
  {
    var m := MarkReleased(l, r, at);
    ReleaseKeepsBooks(l, r, batch, at);
    RunStepKeepsTrails(l, r, at);
    assert ReadyToPay(m, batch, at);
    PayFirstKeepsTrails(m, batch, at);
    TellsLog(l, m, OfRun(r), "released", at);
    PayFirstIsLegal(m, batch, |batch|, at);
    PayFirstKeepsReserved(m, t, batch, |batch|, at);
  }

  lemma PreparedIsGood(l: Ledger, t: int, batch: seq<nat>, preparedAt: int, submittedAt: int)
    requires Good(l, t) && Payable(l, batch) && preparedAt < submittedAt
    ensures var r, m := |l.runs|, Submit(AddRun(l, batch, preparedAt), |l.runs|, submittedAt);
      && Good(m, t) && QuietAfter(m.audits, OfRun(r), submittedAt) && Lists(m.runs[r], batch)
  {
    var r, prepared := |l.runs|, AddRun(l, batch, preparedAt);
    GoodAddRun(l, t, batch, preparedAt);
    StillQuiet(prepared.audits, OfRun(r), preparedAt, submittedAt);
    GoodSubmit(prepared, t, r, submittedAt);
  }

  lemma {:induction false} PayFirstKeepsReserved(l: Ledger, t: int, batch: seq<nat>, k: nat, at: int)
    requires Reserved(l.audits, t)
    requires k <= |batch| && forall j | 0 <= j < |batch| :: batch[j] < |l.invoices|
    ensures Reserved(PayFirst(l, batch, k, at).audits, t)
    decreases k
  {
    if k > 0 { PayFirstKeepsReserved(l, t, batch, k - 1, at); }
  }

  lemma StillQuiet(audits: seq<Entry>, s: Subject, t: int, u: int)
    requires QuietAfter(audits, s, t) && t < u
    ensures QuietBefore(audits, s, u)
  {
  }

  // ---------------------------------------------------------------- lists the phases select

  function WithState(invoices: seq<Invoice>, s: InvoiceState, n: nat): (ids: seq<nat>)
    requires n <= |invoices|
    ensures forall j | 0 <= j < |ids| :: ids[j] < n && invoices[ids[j]].state == s
    ensures Distinct(ids)
  {
    if n == 0 then []
    else WithState(invoices, s, n - 1) + if invoices[n - 1].state == s then [n - 1] else []
  }

  lemma {:induction false} WithStateHas(invoices: seq<Invoice>, s: InvoiceState, n: nat, i: nat)
    requires i < n <= |invoices| && invoices[i].state == s
    ensures i in WithState(invoices, s, n)
  {
    if i < n - 1 { WithStateHas(invoices, s, n - 1, i); }
  }

  /** Lines matched to the released runs among the first `k`, numbered from one. */
  function MatchedLines(runs: seq<Run>, k: nat): (lines: seq<StatementLine>)
    requires k <= |runs|
    ensures forall j | 0 <= j < |lines| :: lines[j].number == j + 1
  {
    if k == 0 then []
    else
      var lines := MatchedLines(runs, k - 1);
      if runs[k - 1].state == Released then lines + [StatementLine(|lines| + 1, runs[k - 1].total, Some(k - 1))]
      else lines
  }

  const UNEXPLAINED := [410000, 86500, 12940]

  ghost predicate LineFor(lines: seq<StatementLine>, r: nat) {
    exists j | 0 <= j < |lines| :: lines[j].matched == Some(r)
  }

  predicate LineOk(runs: seq<Run>, line: StatementLine) {
    line.matched.Some? ==>
      && line.matched.value < |runs|
      && runs[line.matched.value].state == Released
      && line.amount == runs[line.matched.value].total
  }

  ghost predicate MatchedOnce(lines: seq<StatementLine>) {
    forall j, k | 0 <= j < k < |lines| && lines[j].matched.Some? :: lines[j].matched != lines[k].matched
  }

  /** Every line is numbered in sequence; a line matched to a run carries that released run's
      total; each released run has exactly one line; and exactly the last three match nothing. */
  ghost predicate StatementBalances(runs: seq<Run>, lines: seq<StatementLine>) {
    && (forall j | 0 <= j < |lines| :: lines[j].number == j + 1)
    && (forall j | 0 <= j < |lines| :: LineOk(runs, lines[j]))
    && (forall r | 0 <= r < |runs| && runs[r].state == Released :: LineFor(lines, r))
    && MatchedOnce(lines)
    && |lines| >= 3
    && (forall j | 0 <= j < |lines| :: lines[j].matched.None? <==> |lines| - 3 <= j)
  }

  lemma {:induction false} MatchedLinesFaithful(runs: seq<Run>, k: nat)
    requires k <= |runs|
    ensures forall j | 0 <= j < |MatchedLines(runs, k)| ::
      var line := MatchedLines(runs, k)[j];
      line.matched.Some? && line.matched.value < k && LineOk(runs, line)
    ensures MatchedOnce(MatchedLines(runs, k))
  {
    if k > 0 {
      MatchedLinesFaithful(runs, k - 1);
      var before, lines := MatchedLines(runs, k - 1), MatchedLines(runs, k);
      forall j | 0 <= j < |lines| ensures lines[j].matched.Some? && lines[j].matched.value < k && LineOk(runs, lines[j]) {
        if j < |before| { assert lines[j] == before[j]; }
      }
      forall i, j | 0 <= i < j < |lines| ensures lines[i].matched != lines[j].matched {
        assert lines[i] == before[i];
        if j < |before| { assert lines[j] == before[j]; }
      }
    }
  }

  lemma {:induction false} MatchedLinesComplete(runs: seq<Run>, k: nat, r: nat)
    requires r < k <= |runs| && runs[r].state == Released
    ensures LineFor(MatchedLines(runs, k), r)
  {
    var before, lines := MatchedLines(runs, k - 1), MatchedLines(runs, k);
    if r < k - 1 {
      MatchedLinesComplete(runs, k - 1, r);
      var j :| 0 <= j < |before| && before[j].matched == Some(r);
      assert lines[j] == before[j];
    } else {
      assert lines[|before|].matched == Some(r);
    }
  }

  function Unexplained(n: nat): (lines: seq<StatementLine>)
    ensures |lines| == 3
    ensures forall j | 0 <= j < 3 :: lines[j].number == n + j + 1 && lines[j].matched.None?
  {
    [StatementLine(n + 1, UNEXPLAINED[0], None), StatementLine(n + 2, UNEXPLAINED[1], None),
     StatementLine(n + 3, UNEXPLAINED[2], None)]
  }

  lemma StatementFromRuns(l: Ledger)
    requires l.statement == MatchedLines(l.runs, |l.runs|) + Unexplained(|MatchedLines(l.runs, |l.runs|)|)
    ensures StatementBalances(l.runs, l.statement)
  {
    var lines := MatchedLines(l.runs, |l.runs|);
    MatchedLinesFaithful(l.runs, |l.runs|);
    UnmatchedAppend(lines, Unexplained(|lines|));
    forall r | 0 <= r < |l.runs| && l.runs[r].state == Released ensures LineFor(l.statement, r) {
      MatchedLinesComplete(l.runs, |l.runs|, r);
      var j :| 0 <= j < |lines| && lines[j].matched == Some(r);
      assert l.statement[j] == lines[j];
    }
    forall j | 0 <= j < |l.statement| ensures LineOk(l.runs, l.statement[j]) {
      if j < |lines| { assert l.statement[j] == lines[j]; }
    }
  }

  lemma UnmatchedAppend(lines: seq<StatementLine>, more: seq<StatementLine>)
    requires MatchedOnce(lines) && forall j | 0 <= j < |more| :: more[j].matched.None?
    ensures MatchedOnce(lines + more)
  {
    var all := lines + more;
    forall i, j | 0 <= i < j < |all| && all[i].matched.Some? ensures all[i].matched != all[j].matched {
      assert i < |lines| && all[i] == lines[i];
      if j < |lines| { assert all[j] == lines[j]; } else { assert all[j] == more[j - |lines|]; }
    }
  }

  // ---------------------------------------------------------------- the generator

  const DAYS := 90

  predicate IsSample(sample: seq<nat>, ids: seq<nat>, count: nat) {
    |sample| == count && Distinct(sample) && forall j | 0 <= j < count :: sample[j] in ids
  }

  /** Runs, the statement and what carries what are untouched. */
  ghost predicate OnlyInvoicesAdded(before: Ledger, after: Ledger) {
    after.runs == before.runs && after.carrier == before.carrier && after.statement == before.statement
  }

  /** No decision on an invoice and no release of a run is dated in the future. */
  ghost predicate DecidedBy(l: Ledger, now: int) {
    && (forall i | 0 <= i < |l.invoices| :: InvoiceDecidedBy(l.invoices[i], now))
    && (forall r | 0 <= r < |l.runs| && l.runs[r].state == Released :: l.runs[r].enteredAt <= now)
  }

  predicate InvoiceDecidedBy(inv: Invoice, now: int) {
    inv.state == Approved || inv.state == Rejected || inv.state == Paid ==> inv.enteredAt <= now
  }

  ghost predicate AllDrawn(start: int, ds: seq<InvoiceDraw>) {
    forall j | 0 <= j < |ds| :: InvoiceDrawn(start, ds[j])
  }

  /** The escalations owed among the first `n` invoices. */
  function Overdue(invoices: seq<Invoice>, n: nat, now: int): seq<Entry>
    requires n <= |invoices|
  {
    if n == 0 then []
    else
      var inv := invoices[n - 1];
      Overdue(invoices, n - 1, now) +
        if inv.state == PendingApproval && now - inv.enteredAt >= 48
        then [Entry(OfInvoice(n - 1), "sla_escalated", inv.enteredAt + 48)] else []
  }

  /** Whether an invoice has been pending for 48 hours, and what is then written. */
  predicate IsOverdue(inv: Invoice, now: int) { inv.state == PendingApproval && inv.enteredAt + 48 <= now }

  function Escalation(invoices: seq<Invoice>, i: nat): Entry
    requires i < |invoices|
  {
    Entry(OfInvoice(i), "sla_escalated", invoices[i].enteredAt + 48)
  }

  predicate IsEscalation(invoices: seq<Invoice>, e: Entry, n: nat, now: int) {
    && e.subject.OfInvoice? && e.subject.i < n <= |invoices|
    && IsOverdue(invoices[e.subject.i], now) && e == Escalation(invoices, e.subject.i)
  }

  predicate Ordered(es: seq<Entry>) {
    forall j, k | 0 <= j < k < |es| ::
      es[j].subject.OfInvoice? && es[k].subject.OfInvoice? && es[j].subject.i < es[k].subject.i
  }

  /** One entry for each invoice pending 48 hours, at its deadline, in the invoices' order, and
      no other. */
  lemma {:induction false} EscalatedExactlyWhen(invoices: seq<Invoice>, n: nat, now: int)
    requires n <= |invoices|
    ensures var es := Overdue(invoices, n, now);
      && (forall i | 0 <= i < n && IsOverdue(invoices[i], now) :: Escalation(invoices, i) in es)
      && (forall j | 0 <= j < |es| :: IsEscalation(invoices, es[j], n, now))
      && Ordered(es)
  {
    EscalatedInOrder(invoices, n, now);
    forall i | 0 <= i < n && IsOverdue(invoices[i], now) ensures Escalation(invoices, i) in Overdue(invoices, n, now) {
      OverdueHas(invoices, n, now, i);
    }
  }

  lemma {:induction false} EscalatedInOrder(invoices: seq<Invoice>, n: nat, now: int)
    requires n <= |invoices|
    ensures forall j | 0 <= j < |Overdue(invoices, n, now)| :: IsEscalation(invoices, Overdue(invoices, n, now)[j], n, now)
    ensures Ordered(Overdue(invoices, n, now))
  {
    if n > 0 { EscalatedInOrder(invoices, n - 1, now); }
  }

  lemma {:induction false} OverdueHas(invoices: seq<Invoice>, n: nat, now: int, i: nat)
    requires i < n <= |invoices| && IsOverdue(invoices[i], now)
    ensures Escalation(invoices, i) in Overdue(invoices, n, now)
  {
    if i < n - 1 { OverdueHas(invoices, n - 1, now, i); }
  }

  ghost predicate EscalatedTo(before: Ledger, after: Ledger, n: nat, now: int) {
    n <= |before.invoices| && after == before.(audits := before.audits + Overdue(before.invoices, n, now))
  }

  lemma EscalatedNext(before: Ledger, after: Ledger, n: nat, now: int)
    requires EscalatedTo(before, after, n, now) && n < |before.invoices|
    ensures
      var inv := before.invoices[n];
      var next := if IsOverdue(inv, now) then Log(after, OfInvoice(n), "sla_escalated", inv.enteredAt + 48) else after;
      EscalatedTo(before, next, n + 1, now)
  {
  }

  /** What is written about copy `d`. */
  function CopyEntries(copy: Copy, d: nat): seq<Entry> {
    [Entry(OfDuplicate(d), "duplicate_flagged", copy.at)] +
      if copy.acknowledged then [Entry(OfDuplicate(d), "duplicate_acknowledged", copy.at + 4)] else []
  }

  /** What is written about the copies numbered from `first`. */
  function CopyTrail(copies: seq<Copy>, first: nat): seq<Entry> {
    if copies == [] then []
    else CopyTrail(copies[..|copies| - 1], first) + CopyEntries(copies[|copies| - 1], first + |copies| - 1)
  }

  function WithCopy(l: Ledger, copy: Copy): Ledger {
    l.(duplicates := l.duplicates + [copy], audits := l.audits + CopyEntries(copy, |l.duplicates|))
  }

  /** Those copies were made and written about, and nothing else changed. */
  ghost predicate Copied(before: Ledger, after: Ledger, copies: seq<Copy>) {
    after == before.(
      duplicates := before.duplicates + copies, audits := before.audits + CopyTrail(copies, |before.duplicates|))
  }

  lemma CopiedNext(l: Ledger, m: Ledger, copies: seq<Copy>, copy: Copy)
    requires Copied(l, m, copies)
    ensures Copied(l, WithCopy(m, copy), copies + [copy])
  {
    var first := |l.duplicates|;
    assert (copies + [copy])[..|copies|] == copies;
    assert CopyTrail(copies + [copy], first) == CopyTrail(copies, first) + CopyEntries(copy, first + |copies|);
  }

  function AtMostFour(n: nat): nat { if n < 4 then n else 4 }

  /** Copies of distinct approved invoices, each a day after its original's last change. */
  ghost predicate CopiesOfApproved(invoices: seq<Invoice>, copies: seq<Copy>) {
    && (forall j | 0 <= j < |copies| ::
          && copies[j].original < |invoices|
          && invoices[copies[j].original].state == Approved
          && copies[j].at == invoices[copies[j].original].enteredAt + 24)
    && forall j, k | 0 <= j < k < |copies| :: copies[j].original != copies[k].original
  }

  ghost predicate CopiesInOrder(invoices: seq<Invoice>, sample: seq<nat>, copies: seq<Copy>) {
    |copies| <= |sample| && forall j | 0 <= j < |copies| ::
      && copies[j].original == sample[j] < |invoices|
      && copies[j].at == invoices[sample[j]].enteredAt + 24
  }

  /** Of the sample so far, in order, and nothing else. */
  ghost predicate CopiesMade(before: Ledger, after: Ledger, sample: seq<nat>, copies: seq<Copy>) {
    Copied(before, after, copies) && CopiesInOrder(before.invoices, sample, copies)
  }

  lemma CopiesNext(before: Ledger, m: Ledger, sample: seq<nat>, copies: seq<Copy>, copy: Copy)
    requires CopiesMade(before, m, sample, copies) && |copies| < |sample|
    requires copy.original == sample[|copies|] < |before.invoices|
    requires copy.at == before.invoices[copy.original].enteredAt + 24
    ensures CopiesMade(before, WithCopy(m, copy), sample, copies + [copy])
  {
    CopiedNext(before, m, copies, copy);
    var more := copies + [copy];
    forall j | 0 <= j < |more|
      ensures more[j].original == sample[j] < |before.invoices| && more[j].at == before.invoices[sample[j]].enteredAt + 24
    {
      if j < |copies| { assert more[j] == copies[j]; }
    }
  }

  lemma SampledAreApproved(invoices: seq<Invoice>, sample: seq<nat>, copies: seq<Copy>)
    requires IsSample(sample, WithState(invoices, Approved, |invoices|), |sample|)
    requires CopiesInOrder(invoices, sample, copies)
    ensures CopiesOfApproved(invoices, copies)
  {
    forall j | 0 <= j < |copies|
      ensures copies[j].original < |invoices| && invoices[copies[j].original].state == Approved
      ensures copies[j].at == invoices[copies[j].original].enteredAt + 24
    {
      assert sample[j] in WithState(invoices, Approved, |invoices|);
    }
  }

  /** Requested, approved five hours later and applied thirty hours after the request. */
  function BankChangeTrail(at: int): seq<Entry> {
    [Entry(OfVendor(0), "bank_change_requested", at), Entry(OfVendor(0), "bank_change_approved", at + 5),
     Entry(OfVendor(0), "bank_change_applied", at + 30)]
  }

  /** The first `n` vendors entered a day apart, six of them activated six hours later. */
  function VendorTrail(n: nat, start: int): seq<Entry> {
    if n == 0 then []
    else
      var v := n - 1;
      VendorTrail(v, start) + [Entry(OfVendor(v), "created", start + 24 * v)] +
        if v < 6 then [Entry(OfVendor(v), "status_changed", start + 24 * v + 6)] else []
  }

  class Seeder {
    var l: Ledger
    var clock: int

    constructor (now: int)
      ensures l == EMPTY && clock == now
    {
      l := EMPTY;
      clock := now;
    }

    /** `_now()`: the clock never runs backwards. */
    method Now() returns (t: int)
      modifies this`clock
      ensures t == clock >= old(clock)
    {
      var elapsed: nat :| true;
      clock := clock + elapsed;
      t := clock;
    }

    /** `rng.randint(lo, hi)` */
    method RandInt(lo: int, hi: int) returns (n: int)
      requires lo <= hi
      ensures lo <= n <= hi
    {
      n :| lo <= n <= hi;
    }

    /** `rng.random()` */
    method Random() returns (x: real)
      ensures 0.0 <= x < 1.0
    {
      x :| 0.0 <= x < 1.0;
    }

    /** `rng.choice(options)` */
    method Choice(options: seq<int>) returns (x: int)
      requires options != []
      ensures x in options
    {
      var k: nat :| k < |options|;
      x := options[k];
    }

    /** `rng.sample(ids, count)` */
    method Sample(ids: seq<nat>, count: nat) returns (sample: seq<nat>)
      requires count <= |ids| && Distinct(ids)
      ensures IsSample(sample, ids, count)
    {
      assert IsSample(ids[..count], ids, count);
      sample :| IsSample(sample, ids, count);
    }

    /** `_vendors`: eight vendors, the first six of them active. */
    method Vendors(start: int)
      requires l == EMPTY
      modifies this`l
      ensures Good(l, start + 6) && l == EMPTY.(audits := VendorTrail(8, start))
    {
      var index := 0;
      while index < 8
        invariant 0 <= index <= 8
        invariant Good(l, start + 6) && l == EMPTY.(audits := VendorTrail(index, start))
        invariant forall v | index <= v :: QuietBefore(l.audits, OfVendor(v), start)
      {
        var at := start + 24 * index;
        StillQuiet(l.audits, OfVendor(index), start - 1, at);
        VendorEntry(index, "created", at, start);
        if index < 6 {
          StillQuiet(l.audits, OfVendor(index), at, at + 6);
          VendorEntry(index, "status_changed", at + 6, start);
        }
        index := index + 1;
      }
    }

    method VendorEntry(v: nat, action: string, at: int, start: int)
      requires v < 8 && at <= start + 24 * v + 6
      requires Good(l, start + 6) && QuietBefore(l.audits, OfVendor(v), at)
      modifies this`l
      ensures l == Log(old(l), OfVendor(v), action, at)
      ensures Good(l, start + 6) && QuietAfter(l.audits, OfVendor(v), at)
      ensures forall w, t | w != v && QuietAfter(old(l.audits), OfVendor(w), t) :: QuietAfter(l.audits, OfVendor(w), t)
    {
      GoodLog(l, start + 6, OfVendor(v), action, at);
      LogKeepsOrder(l.audits, OfVendor(v), action, at);
      l := Log(l, OfVendor(v), action, at);
    }

    /** `_invoices` */
    method Invoices(start: int, ghost t: int) returns (ghost ds: seq<InvoiceDraw>)
      requires Good(l, t) && DecidedBy(l, clock)
      modifies this
      ensures Good(l, t) && OnlyInvoicesAdded(old(l), l) && |l.invoices| == |old(l.invoices)| + 110
      ensures DecidedBy(l, clock) && clock >= old(clock)
      ensures |ds| == 110 && l == RaiseAll(old(l), ds)
      ensures forall j | 0 <= j < 110 :: InvoiceDrawn(start, ds[j]) && AsDrawn(l.invoices[|old(l.invoices)| + j], ds[j])
      ensures l.duplicates == old(l.duplicates) && l.audits == old(l.audits) + InvoicesTrail(|old(l.invoices)|, ds)
    {
      ds := [];
      for n := 0 to 110
        invariant Good(l, t) && OnlyInvoicesAdded(old(l), l) && |l.invoices| == |old(l.invoices)| + n
        invariant DecidedBy(l, clock) && clock >= old(clock)
        invariant |ds| == n && l == RaiseAll(old(l), ds) && AllDrawn(start, ds)
      {
        var d := RaiseInvoice(start, t);
        assert (ds + [d])[..n] == ds;
        ds := ds + [d];
      }
      AllAreAsDrawn(old(l), ds);
      AllAreWritten(old(l), ds);
    }

    /** One turn of the loop: an invoice raised, and taken as far as the draws take it. */
    method RaiseInvoice(start: int, ghost t: int) returns (ghost d: InvoiceDraw)
      requires Good(l, t) && DecidedBy(l, clock)
      modifies this
      ensures Good(l, t) && OnlyInvoicesAdded(old(l), l) && |l.invoices| == |old(l.invoices)| + 1
      ensures DecidedBy(l, clock) && clock >= old(clock)
      ensures InvoiceDrawn(start, d) && l == RaiseOne(old(l), d)
    {
      var amount := DrawAmount();
      var day := RandInt(0, DAYS - 1);
      var hour := RandInt(8, 17);
      var roll := Random();
      var raised := start + 24 * day + hour;
      var h := RandInt(1, 20);
      var validatedAt := raised + h;
      d := InvoiceDraw(amount, raised, validatedAt, roll, validatedAt + 1, validatedAt + 3, clock);
      var i := Validate(amount, raised, validatedAt, t);
      if roll > 0.94 {
        Block(i, validatedAt, t);
        return;
      }
      ghost var submittedAt, decidedAt, now := Submitted(i, validatedAt, roll, t);
      d := InvoiceDraw(amount, raised, validatedAt, roll, submittedAt, decidedAt, now);
    }

    method DrawAmount() returns (amount: int)
      ensures Amount(amount)
    {
      var a := RandInt(2000, 40000);
      var b := RandInt(2000, 40000);
      var c := RandInt(40000, 240000);
      var d := RandInt(260000, 900000);
      amount := Choice([a, b, c, d]);
    }

    method Validate(amount: int, raised: int, validatedAt: int, ghost t: int) returns (i: nat)
      requires Good(l, t) && DecidedBy(l, clock) && raised < validatedAt
      modifies this`l
      ensures Good(l, t) && DecidedBy(l, clock) && OnlyInvoicesAdded(old(l), l)
      ensures i == |old(l.invoices)| && l == Raise(old(l), amount, raised, validatedAt)
      ensures l.invoices == old(l.invoices) + [Invoice(Validated, validatedAt, amount)]
      ensures i !in l.carrier && QuietAfter(l.audits, OfInvoice(i), validatedAt)
    {
      i := |l.invoices|;
      GoodAddInvoice(l, t, amount, raised);
      l := AddInvoice(l, amount, raised);
      ActionNames();
      Advance(i, Validated, "validated", validatedAt, raised, t);
    }

    method Block(i: nat, validatedAt: int, ghost t: int)
      requires Good(l, t) && i < |l.invoices| && l.invoices[i].state == Validated
      requires QuietAfter(l.audits, OfInvoice(i), validatedAt)
      modifies this`l
      ensures Good(l, t) && l == Log(old(l), OfInvoice(i), "approval_blocked", validatedAt + 2)
    {
      StillQuiet(l.audits, OfInvoice(i), validatedAt, validatedAt + 2);
      ActionNames();
      GoodLog(l, t, OfInvoice(i), "approval_blocked", validatedAt + 2);
      l := Log(l, OfInvoice(i), "approval_blocked", validatedAt + 2);
    }

    method Advance(i: nat, to: InvoiceState, action: string, at: int, since: int, ghost t: int)
      requires Good(l, t) && i < |l.invoices| && i !in l.carrier
      requires QuietAfter(l.audits, OfInvoice(i), since) && since < at
      requires Edge(l.invoices[i].state, to) && to != Paid && StateOf(action) == Some(to)
      modifies this`l
      ensures l == Move(old(l), i, to, action, at)
      ensures Good(l, t) && QuietAfter(l.audits, OfInvoice(i), at)
    {
      StillQuiet(l.audits, OfInvoice(i), since, at);
      GoodMove(l, t, i, to, action, at);
      l := Move(l, i, to, action, at);
    }

    method Submitted(i: nat, validatedAt: int, roll: real, ghost t: int)
      returns (ghost submitted: int, ghost decided: int, ghost read: int)
      requires Good(l, t) && DecidedBy(l, clock) && i < |l.invoices| && i !in l.carrier
      requires l.invoices[i].state == Validated && QuietAfter(l.audits, OfInvoice(i), validatedAt)
      modifies this
      ensures Good(l, t) && OnlyInvoicesAdded(old(l), l) && |l.invoices| == |old(l.invoices)|
      ensures DecidedBy(l, clock) && clock >= old(clock)
      ensures l == Decide(old(l), i, roll, submitted, decided, read)
      ensures 1 <= submitted - validatedAt <= 30 && Slow(decided - submitted)
    {
      var h := RandInt(1, 30);
      var submittedAt := validatedAt + h;
      submitted, decided, read := submittedAt, submittedAt + 2, clock;
      ActionNames();
      Advance(i, PendingApproval, "submitted_for_approval", submittedAt, validatedAt, t);

      if roll > 0.90 { return; }
      var slow := Choice([2, 5, 9, 18, 30, 52, 96, 140]);
      var decidedAt := submittedAt + slow;
      var now := Now();
      decided, read := decidedAt, now;
      if decidedAt > now { return; }
      if roll > 0.84 {
        Advance(i, Rejected, "rejected", decidedAt, submittedAt, t);
      } else {
        Advance(i, Approved, "approved", decidedAt, submittedAt, t);
      }
    }

    /** `_duplicates`: copies of four distinct approved invoices, or of all if there are fewer. */
    method Duplicates(ghost t: int) returns (ghost copies: seq<Copy>)
      requires Good(l, t)
      modifies this`l
      ensures Good(l, t) && Copied(old(l), l, copies) && CopiesOfApproved(old(l.invoices), copies)
      ensures |copies| == AtMostFour(|WithState(l.invoices, Approved, |l.invoices|)|)
    {
      var approved := WithState(l.invoices, Approved, |l.invoices|);
      var sample := Sample(approved, AtMostFour(|approved|));
      copies := [];
      for n := 0 to |sample|
        invariant Good(l, t) && |copies| == n && CopiesMade(old(l), l, sample, copies)
      {
        assert sample[n] in approved;
        ghost var before := l;
        var copy := CopyOne(sample[n], t);
        CopiesNext(old(l), before, sample, copies, copy);
        copies := copies + [copy];
      }
      SampledAreApproved(l.invoices, sample, copies);
    }

    /** One copy, flagged a day after the original's last change and perhaps acknowledged. */
    method CopyOne(original: nat, ghost t: int) returns (copy: Copy)
      requires Good(l, t) && original < |l.invoices|
      modifies this`l
      ensures Good(l, t) && copy.original == original && copy.at == old(l.invoices[original].enteredAt) + 24
      ensures l == WithCopy(old(l), copy)
    {
      var copyAt := l.invoices[original].enteredAt + 24;
      var d := |l.duplicates|;
      GoodAddDuplicate(l, t, original, copyAt);
      l := AddDuplicate(l, original, copyAt);
      var coin := Random();
      if coin > 0.5 {
        StillQuiet(l.audits, OfDuplicate(d), copyAt, copyAt + 4);
        GoodAcknowledge(l, t, d, copyAt + 4);
        l := Acknowledge(l, d, copyAt + 4);
      }
      copy := l.duplicates[d];
    }

    // -------------------------------------------------------------- payments

    /** `[approved.pop() for _ in range(count)]` */
    method PopBatch(approved: seq<nat>, count: nat) returns (batch: seq<nat>, rest: seq<nat>)
      requires count <= |approved|
      ensures rest == approved[..|approved| - count] && |batch| == count
      ensures forall j | 0 <= j < count :: batch[j] == approved[|approved| - 1 - j]
    {
      batch, rest := [], approved;
      for n := 0 to count
        invariant rest == approved[..|approved| - n] && |batch| == n
        invariant forall j | 0 <= j < n :: batch[j] == approved[|approved| - 1 - j]
      {
        batch, rest := batch + [rest[|rest| - 1]], rest[..|rest| - 1];
      }
    }

    /** `max(i.state_entered_at for i in batch)` */
    method Latest(batch: seq<nat>) returns (m: int)
      requires batch != [] && forall j | 0 <= j < |batch| :: batch[j] < |l.invoices|
      ensures exists j | 0 <= j < |batch| :: m == l.invoices[batch[j]].enteredAt
      ensures forall j | 0 <= j < |batch| :: l.invoices[batch[j]].enteredAt <= m
    {
      m := l.invoices[batch[0]].enteredAt;
      for n := 1 to |batch|
        invariant exists j | 0 <= j < |batch| :: m == l.invoices[batch[j]].enteredAt
        invariant forall j | 0 <= j < n :: l.invoices[batch[j]].enteredAt <= m
      {
        if l.invoices[batch[n]].enteredAt > m { m := l.invoices[batch[n]].enteredAt; }
      }
    }

    /** The run's total and its numbered lines, one invoice at a time. */
    method PrepareRun(batch: seq<nat>, at: int)
      requires forall j | 0 <= j < |batch| :: batch[j] < |l.invoices|
      modifies this`l
      ensures l == AddRun(old(l), batch, at)
    {
      var total, lines := 0, [];
      for n := 0 to |batch|
        invariant l == old(l)
        invariant total == Total(l.invoices, batch[..n])
        invariant lines == LinesFor(l.invoices, batch[..n])
      {
        OneMoreLine(l.invoices, batch, n);
        total := total + l.invoices[batch[n]].amount;
        lines := lines + [Line(n + 1, batch[n], l.invoices[batch[n]].amount)];
      }
      assert batch[..|batch|] == batch;
      var run := Run(RunDraft, at, total, lines);
      l := Log(l.(runs := l.runs + [run], carrier := l.carrier + Carried(batch, |l.runs|)),
        OfRun(|l.runs|), "prepared", at);
    }

    /** The settled invoices, one by one. */
    method MarkPaid(batch: seq<nat>, at: int)
      requires forall j | 0 <= j < |batch| :: batch[j] < |l.invoices|
      modifies this`l
      ensures l == PayFirst(old(l), batch, |batch|, at)
    {
      for n := 0 to |batch|
        invariant l == PayFirst(old(l), batch, n, at)
      {
        l := Move(l, batch[n], Paid, "marked_paid", at);
      }
    }

    /** `rng.shuffle`: some rearrangement. */
    method Shuffle(ids: seq<nat>) returns (shuffled: seq<nat>)
      ensures multiset(shuffled) == multiset(ids)
    {
      shuffled :| multiset(shuffled) == multiset(ids);
    }

    /** `_payments`: batches of two to five approved invoices, in some order, until there are six
        runs, or no invoice is left, or the next run is not due yet. */
    method Payments(ghost t: int) returns (ghost draws: seq<RunDraw>, ghost undue: seq<nat>)
      requires Good(l, t) && DecidedBy(l, clock) && l.runs == [] && l.carrier == map[]
      modifies this
      ensures Good(l, t) && |l.runs| <= 6 && l.statement == old(l.statement)
      ensures |l.invoices| == |old(l.invoices)| && DecidedBy(l, clock) && clock >= old(clock)
      ensures RunsAsDrawn(old(l.invoices), l.runs, draws) && Full(l.runs, draws, |l.runs| - 1)
      ensures Full(l.runs, draws, |l.runs|) || AllCarried(old(l.invoices), l.carrier)
      ensures |l.runs| < 6 && undue == [] ==> AllCarried(old(l.invoices), l.carrier)
      ensures undue != [] ==> Undue(old(l.invoices), l, undue, clock)
      ensures SettledAndTold(old(l), l, draws)
    {
      var approved := WithState(l.invoices, Approved, |l.invoices|);
      var shuffled := Shuffle(approved);
      ShuffledIsPayable(l, approved, shuffled);
      ShuffledHasAll(l, approved, shuffled);
      approved := shuffled;
      draws, undue := [], [];
      var batchIndex := 0;
      while approved != [] && batchIndex < 6
        invariant |l.runs| == batchIndex <= 6 && l.statement == old(l.statement) && clock >= old(clock)
        invariant undue == [] && BetweenRuns(old(l), l, approved, draws, t, clock)
        decreases 6 - batchIndex
      {
        ghost var d;
        var stopped;
        approved, stopped, d, undue := NextRun(approved, batchIndex, old(l), draws, t);
        if stopped { break; }
        draws := draws + [d];
        batchIndex := batchIndex + 1;
      }
    }

    /** Two to five invoices for the next run, and when the last of them was approved. */
    method NextBatch(approved: seq<nat>, ghost invoices: seq<Invoice>)
      returns (batch: seq<nat>, rest: seq<nat>, size: nat, latest: int)
      requires approved != [] && Payable(l, approved) && Waiting(invoices, l, approved)
      ensures 2 <= size <= 5 && 1 <= |batch| <= size && (|batch| == size || rest == [])
      ensures Payable(l, batch + rest) && Waiting(invoices, l, batch + rest) && LatestIs(invoices, batch, latest)
      ensures forall j | 0 <= j < |batch| :: batch[j] < |l.invoices| && l.invoices[batch[j]].enteredAt <= latest
    {
      size := RandInt(2, 5);
      var count := if size < |approved| then size else |approved|;
      batch, rest := PopBatch(approved, count);
      BatchIsPayable(l, approved, batch, rest);
      BatchWaits(invoices, l, approved, batch, rest);
      PartsArePayable(l, batch, rest);
      latest := Latest(batch);
      BatchLatest(invoices, l, batch + rest, batch, latest);
    }

    /** One turn of the loop. */
    method NextRun(approved: seq<nat>, batchIndex: nat, ghost first: Ledger, ghost draws: seq<RunDraw>, ghost t: int)
      returns (rest: seq<nat>, stopped: bool, ghost d: RunDraw, ghost undue: seq<nat>)
      requires approved != [] && |l.runs| == batchIndex < 6
      requires BetweenRuns(first, l, approved, draws, t, clock)
      modifies this
      ensures l.statement == old(l.statement) && clock >= old(clock)
      ensures !stopped ==>
        undue == [] && |l.runs| == batchIndex + 1 && BetweenRuns(first, l, rest, draws + [d], t, clock)
      ensures stopped ==>
        && l == old(l) && Undue(first.invoices, l, undue, clock) && BetweenRuns(first, l, approved, draws, t, clock)
    {
      var batch, remaining, size, latest := NextBatch(approved, first.invoices);
      rest, stopped, undue := remaining, false, [];
      var now := Now();
      d := RunDraw(size, latest + 6, now, latest + 7, latest + 9, now);
      if latest + 6 > now {
        undue, stopped := batch, true;
        PartsArePayable(l, batch, remaining);
        return;
      }
      d := RunDue(batch, rest, latest + 6, size, batchIndex < 4, first, draws, t);
    }

    /** The run is due. */
    method RunDue(batch: seq<nat>, rest: seq<nat>, preparedAt: int, size: nat, mayRelease: bool,
        ghost first: Ledger, ghost draws: seq<RunDraw>, ghost t: int)
      returns (ghost d: RunDraw)
      requires 2 <= size <= 5 && 1 <= |batch| <= size && (|batch| == size || rest == [])
      requires BetweenRuns(first, l, batch + rest, draws, t, clock) && mayRelease == (|l.runs| < 4)
      requires LatestIs(first.invoices, batch, preparedAt - 6) && preparedAt <= clock
      requires forall j | 0 <= j < |batch| :: batch[j] < |l.invoices| && l.invoices[batch[j]].enteredAt < preparedAt
      modifies this
      ensures l.statement == old(l.statement) && clock >= old(clock) && |l.runs| == |old(l.runs)| + 1
      ensures BetweenRuns(first, l, rest, draws + [d], t, clock)
    {
      ghost var before := l;
      d := OneRun(batch, rest, preparedAt, size, mayRelease, t);
      RunIsDrawn(first.invoices, before, l, draws, batch, rest, mayRelease, d);
      RunAddsUp(first, before, l, draws, batch, rest, d);
    }

    /** Prepare, submit and perhaps release one run. */
    method OneRun(batch: seq<nat>, rest: seq<nat>, preparedAt: int, size: nat, mayRelease: bool, ghost t: int)
      returns (ghost d: RunDraw)
      requires Good(l, t) && DecidedBy(l, clock) && Payable(l, batch + rest)
      requires forall j | 0 <= j < |batch| ::
        batch[j] < |l.invoices| && l.invoices[batch[j]].enteredAt < preparedAt
      modifies this
      ensures Good(l, t) && Payable(l, rest) && |l.runs| == |old(l.runs)| + 1
      ensures l.statement == old(l.statement)
      ensures |l.invoices| == |old(l.invoices)| && DecidedBy(l, clock) && clock >= old(clock)
      ensures l.runs[..|old(l.runs)|] == old(l.runs)
      ensures l == RunWrites(old(l), batch, mayRelease, d)
      ensures d.size == size && d.preparedAt == preparedAt && d.clock == old(clock)
      ensures 1 <= d.submittedAt - preparedAt <= 8 && 2 <= d.due - d.submittedAt <= 26
    {
      var r := |l.runs|;
      var h := RandInt(1, 8);
      d := RunDraw(size, preparedAt, clock, preparedAt + h, preparedAt + h + 2, clock);
      PrepareAndSubmit(batch, rest, preparedAt, preparedAt + h, t);
      if mayRelease {
        ghost var due, now := ReleaseIfDue(batch, rest, r, preparedAt + h, t);
        d := d.(due := due, now := now);
      }
    }

    method PrepareAndSubmit(batch: seq<nat>, rest: seq<nat>, preparedAt: int, submittedAt: int, ghost t: int)
      requires Good(l, t) && DecidedBy(l, clock) && Payable(l, batch + rest) && preparedAt < submittedAt
      requires forall j | 0 <= j < |batch| ::
        batch[j] < |l.invoices| && l.invoices[batch[j]].enteredAt < preparedAt
      modifies this`l
      ensures l == Submit(AddRun(old(l), batch, preparedAt), |old(l.runs)|, submittedAt)
      ensures Good(l, t) && DecidedBy(l, clock) && Payable(l, rest) && ReadyToPay(l, batch, submittedAt)
      ensures Lists(l.runs[|old(l.runs)|], batch) && QuietAfter(l.audits, OfRun(|old(l.runs)|), submittedAt)
    {
      var r := |l.runs|;
      PartsArePayable(l, batch, rest);
      PreparedIsGood(l, t, batch, preparedAt, submittedAt);
      RestStaysPayable(l, batch, rest, preparedAt);
      PrepareRun(batch, preparedAt);
      l := Submit(l, r, submittedAt);
    }

    method ReleaseIfDue(batch: seq<nat>, rest: seq<nat>, r: nat, submittedAt: int, ghost t: int)
      returns (ghost due: int, ghost read: int)
      requires Good(l, t) && DecidedBy(l, clock) && r < |l.runs| && l.runs[r].state != Released
      requires QuietAfter(l.audits, OfRun(r), submittedAt)
      requires ReadyToPay(l, batch, submittedAt) && Lists(l.runs[r], batch) && Payable(l, rest)
      modifies this
      ensures Good(l, t) && Payable(l, rest) && l.statement == old(l.statement)
      ensures |l.invoices| == |old(l.invoices)| && DecidedBy(l, clock) && clock >= old(clock)
      ensures |l.runs| == |old(l.runs)| && l.runs[..r] == old(l.runs[..r])
      ensures 2 <= due - submittedAt <= 26 && old(clock) <= read == clock
      ensures l == if due <= read then Release(old(l), r, batch, due) else old(l)
    {
      var h := RandInt(2, 26);
      var releasedAt := submittedAt + h;
      var now := Now();
      due, read := releasedAt, now;
      if releasedAt <= now {
        StillQuiet(l.audits, OfRun(r), submittedAt, releasedAt);
        assert ReadyToPay(l, batch, releasedAt);
        GoodRelease(l, t, r, batch, releasedAt);
        ReleaseLeavesRest(l, r, batch, rest, releasedAt);
        ReleaseDecidedBy(l, r, batch, releasedAt, clock);
        l := MarkReleased(l, r, releasedAt);
        MarkPaid(batch, releasedAt);
      }
    }

    // -------------------------------------------------------------- statement and later phases

    /** `_bank`: one line for each released run, then the three unexplained debits. */
    method Bank(ghost t: int)
      requires Good(l, t) && l.statement == []
      modifies this
      ensures Sound(l) && StatementBalances(l.runs, l.statement) && QuietAfter(l.audits, OfVendor(0), t)
      ensures clock >= old(clock)
      ensures l == old(l).(
        statement := l.statement, audits := old(l.audits) + [Entry(OfStatement, "imported", clock - 48)])
    {
      var now := Now();
      var importedAt := now - 48;
      var lines := StatementLines();
      ImportStatement(lines, importedAt, t);
      StatementFromRuns(l);
    }

    method StatementLines() returns (lines: seq<StatementLine>)
      ensures
        var matched := MatchedLines(l.runs, |l.runs|);
        lines == matched + Unexplained(|matched|)
    {
      lines := [];
      var lineNo := 0;
      for n := 0 to |l.runs|
        invariant lines == MatchedLines(l.runs, n) && lineNo == |lines|
      {
        if l.runs[n].state != Released { continue; }
        lineNo := lineNo + 1;
        lines := lines + [StatementLine(lineNo, l.runs[n].total, Some(n))];
      }
      ghost var matched := lines;
      for n := 0 to 3
        invariant lineNo == |matched| + n && lines == matched + Unexplained(|matched|)[..n]
      {
        assert |UNEXPLAINED| == 3;
        lineNo := lineNo + 1;
        lines := lines + [StatementLine(lineNo, UNEXPLAINED[n], None)];
      }
      assert Unexplained(|matched|)[..3] == Unexplained(|matched|);
    }

    method ImportStatement(lines: seq<StatementLine>, at: int, ghost t: int)
      requires Good(l, t)
      modifies this`l
      ensures Sound(l) && QuietAfter(l.audits, OfVendor(0), t)
      ensures l == Log(old(l).(statement := lines), OfStatement, "imported", at)
    {
      BooksFrame(l, l.(statement := lines));
      SameTrailTells(l, l.(statement := lines));
      l := l.(statement := lines);
      LogKeepsOrder(l.audits, OfStatement, "imported", at);
      LogKeepsTrails(l, OfStatement, "imported", at);
      TellsLog(l, Log(l, OfStatement, "imported", at), OfStatement, "imported", at);
      BooksFrame(l, Log(l, OfStatement, "imported", at));
      l := Log(l, OfStatement, "imported", at);
    }

    /** `_bank_change_and_watchlist`: three entries on the first vendor's trail. */
    method BankChange(start: int)
      requires Sound(l) && QuietAfter(l.audits, OfVendor(0), start + 6) && start + 24 * DAYS <= clock
      modifies this
      ensures Sound(l) && clock >= old(clock)
      ensures l == old(l).(audits := old(l.audits) + BankChangeTrail(clock - 24 * 12))
    {
      var now := Now();
      var requestedAt := now - 24 * 12;
      StillQuiet(l.audits, OfVendor(0), start + 6, requestedAt);
      VendorNote("bank_change_requested", requestedAt);
      StillQuiet(l.audits, OfVendor(0), requestedAt, requestedAt + 5);
      VendorNote("bank_change_approved", requestedAt + 5);
      StillQuiet(l.audits, OfVendor(0), requestedAt + 5, requestedAt + 30);
      VendorNote("bank_change_applied", requestedAt + 30);
    }

    method VendorNote(action: string, at: int)
      requires Sound(l) && QuietBefore(l.audits, OfVendor(0), at)
      modifies this`l
      ensures Sound(l) && QuietAfter(l.audits, OfVendor(0), at)
      ensures l == Log(old(l), OfVendor(0), action, at)
    {
      LogKeepsTrails(l, OfVendor(0), action, at);
      TellsLog(l, Log(l, OfVendor(0), action, at), OfVendor(0), action, at);
      BooksFrame(l, Log(l, OfVendor(0), action, at));
      l := Log(l, OfVendor(0), action, at);
    }

    /** `_escalations`: each invoice still pending after 48 hours is escalated once. */
    method Escalations() returns (escalated: nat)
      requires Sound(l)
      modifies this
      ensures Kept(l) && clock >= old(clock)
      ensures l == old(l).(audits := old(l.audits) + Overdue(l.invoices, |l.invoices|, clock))
      ensures escalated == |Overdue(l.invoices, |l.invoices|, clock)|
    {
      var now := Now();
      escalated := 0;
      for i := 0 to |l.invoices|
        invariant Kept(l) && l.invoices == old(l.invoices) && clock == now && PendingFrom(l, i)
        invariant EscalatedTo(old(l), l, i, now) && escalated == |Overdue(l.invoices, i, now)|
      {
        EscalatedNext(old(l), l, i, now);
        var due := EscalateIfDue(i, now);
        escalated := if due then escalated + 1 else escalated;
      }
    }

    /** One turn of the loop. */
    method EscalateIfDue(i: nat, now: int) returns (due: bool)
      requires Kept(l) && PendingFrom(l, i) && i < |l.invoices|
      modifies this`l
      ensures Kept(l) && PendingFrom(l, i + 1)
      ensures due <==> IsOverdue(old(l.invoices[i]), now)
      ensures l == if due then Log(old(l), OfInvoice(i), "sla_escalated", old(l.invoices[i].enteredAt) + 48) else old(l)
    {
      if l.invoices[i].state != PendingApproval { return false; }
      var entered := l.invoices[i].enteredAt;
      if now - entered < 48 { return false; }
      Escalate(i, entered + 48);
      due := true;
    }

    method Escalate(i: nat, at: int)
      requires Kept(l) && PendingFrom(l, i)
      requires i < |l.invoices| && l.invoices[i].state == PendingApproval && l.invoices[i].enteredAt < at
      modifies this`l
      ensures Kept(l) && PendingFrom(l, i + 1)
      ensures l == Log(old(l), OfInvoice(i), "sla_escalated", at)
    {
      StillQuiet(l.audits, OfInvoice(i), l.invoices[i].enteredAt, at);
      LogKeepsTrails(l, OfInvoice(i), "sla_escalated", at);
      LogKeepsOrder(l.audits, OfInvoice(i), "sla_escalated", at);
      ActionNames();
      TellsLog(l, Log(l, OfInvoice(i), "sla_escalated", at), OfInvoice(i), "sla_escalated", at);
      BooksFrame(l, Log(l, OfInvoice(i), "sla_escalated", at));
      l := Log(l, OfInvoice(i), "sla_escalated", at);
    }

    /** `_autopilot`: up to twelve small settled invoices, written at the very time of their
        last state change, and the first of them reverted later. */
    method Autopilot() returns (chosen: seq<nat>)
      requires Kept(l)
      modifies this`l
      ensures Chronological(l.audits) && LegalMoves(l) && Books(l) && Tells(l)
      ensures chosen == FirstTwelve(Small(old(l.invoices), |old(l.invoices)|))
      ensures l == old(l).(audits := old(l.audits) + AutopilotTrail(old(l.invoices), chosen))
      ensures forall k | |old(l.audits)| <= k < |l.audits| && l.audits[k].action == "autopilot_approved" ::
        Tied(l.audits, k)
    {
      ghost var before := l;
      chosen := Candidates();
      ApproveAll(chosen);
      if chosen != [] { Revert(chosen[0]); }
      ApprovalsTie(before, chosen);
    }

    method Candidates() returns (chosen: seq<nat>)
      ensures chosen == FirstTwelve(Small(l.invoices, |l.invoices|))
      ensures forall j | 0 <= j < |chosen| :: chosen[j] < |l.invoices| && Settled(l.invoices[chosen[j]].state)
    {
      chosen := FirstTwelve(Small(l.invoices, |l.invoices|));
    }

    method ApproveAll(chosen: seq<nat>)
      requires Kept(l)
      requires forall j | 0 <= j < |chosen| :: chosen[j] < |l.invoices| && Settled(l.invoices[chosen[j]].state)
      modifies this`l
      ensures Kept(l)
      ensures l == old(l).(audits := old(l.audits) + Approvals(old(l.invoices), chosen))
    {
      for n := 0 to |chosen|
        invariant Kept(l)
        invariant l == old(l).(audits := old(l.audits) + Approvals(old(l.invoices), chosen[..n]))
      {
        assert chosen[..n + 1] == chosen[..n] + [chosen[n]];
        assert chosen[..n + 1][..n] == chosen[..n];
        ApproveAutomatically(chosen[n]);
      }
      assert chosen[..|chosen|] == chosen;
    }

    method ApproveAutomatically(i: nat)
      requires Kept(l) && i < |l.invoices| && Settled(l.invoices[i].state)
      modifies this`l
      ensures Kept(l)
      ensures l == Log(old(l), OfInvoice(i), "autopilot_approved", old(l.invoices[i].enteredAt))
    {
      ApprovalKeepsTrails(l, i);
      ActionNames();
      TellsLog(l, Log(l, OfInvoice(i), "autopilot_approved", l.invoices[i].enteredAt), OfInvoice(i),
        "autopilot_approved", l.invoices[i].enteredAt);
      BooksFrame(l, Log(l, OfInvoice(i), "autopilot_approved", l.invoices[i].enteredAt));
      l := Log(l, OfInvoice(i), "autopilot_approved", l.invoices[i].enteredAt);
    }

    method Revert(i: nat)
      requires Kept(l) && i < |l.invoices| && Settled(l.invoices[i].state)
      modifies this`l
      ensures Chronological(l.audits) && LegalMoves(l) && Books(l) && Tells(l)
      ensures l == Log(old(l), OfInvoice(i), "autopilot_reverted", old(l.invoices[i].enteredAt) + 20)
    {
      var at := l.invoices[i].enteredAt;
      StillQuiet(l.audits, OfInvoice(i), at, at + 20);
      LogKeepsOrder(l.audits, OfInvoice(i), "autopilot_reverted", at + 20);
      ActionNames();
      TellsLog(l, Log(l, OfInvoice(i), "autopilot_reverted", at + 20), OfInvoice(i), "autopilot_reverted", at + 20);
      BooksFrame(l, Log(l, OfInvoice(i), "autopilot_reverted", at + 20));
      l := Log(l, OfInvoice(i), "autopilot_reverted", at + 20);
    }

    /** Vendors, invoices and copies. */
    method Issue(start: int) returns (ghost ds: seq<InvoiceDraw>, ghost copies: seq<Copy>)
      requires l == EMPTY
      modifies this
      ensures Good(l, start + 6) && DecidedBy(l, clock) && clock >= old(clock)
      ensures OnlyInvoicesAdded(EMPTY, l) && IssuedAsDrawn(start, l.invoices, ds) && |ds| == 110
      ensures l.duplicates == copies && CopiesOfApproved(l.invoices, copies)
      ensures |copies| == AtMostFour(|WithState(l.invoices, Approved, |l.invoices|)|)
      ensures l.audits == VendorTrail(8, start) + InvoicesTrail(0, ds) + CopyTrail(copies, 0)
    {
      Vendors(start);
      ds := Invoices(start, start + 6);
      copies := Duplicates(start + 6);
    }

    /** The first half of `main`: those and the payment runs. */
    method Transactions(start: int) returns (ghost h: History)
      requires l == EMPTY
      modifies this
      ensures Good(l, start + 6) && l.statement == [] && DecidedBy(l, clock) && clock >= old(clock)
      ensures h.start == start && IsHistory(l, h) && l.audits == Transacted(h, l.runs)
    {
      ghost var invoiceDraws, copies := Issue(start);
      ghost var issued := l.invoices;
      ghost var runDraws, undue := Payments(start + 6);
      h := History(start, issued, invoiceDraws, copies, runDraws);
    }

    method AtTheBank(start: int) returns (ghost imported: int, ghost requested: int)
      requires Good(l, start + 6) && l.statement == [] && start + 24 * DAYS <= clock
      modifies this
      ensures Sound(l) && StatementBalances(l.runs, l.statement) && clock >= old(clock)
      ensures l == old(l).(statement := l.statement, audits := old(l.audits) + BankTrail(imported, requested))
    {
      Bank(start + 6);
      imported := clock - 48;
      BankChange(start);
      requested := clock - 24 * 12;
    }

    method Automation() returns (ghost escalated: int)
      requires Sound(l) && DecidedBy(l, clock)
      modifies this
      ensures Chronological(l.audits) && LegalMoves(l) && Books(l) && Tells(l) && DecidedBy(l, clock)
      ensures l == old(l).(audits := old(l.audits) + AutomaticTrail(old(l.invoices), escalated))
    {
      var escalations := Escalations();
      escalated := clock;
      var chosen := Autopilot();
    }

    /** The second half: what happened around them. */
    method Aftermath(start: int) returns (ghost a: Afterwards)
      requires Good(l, start + 6) && l.statement == [] && DecidedBy(l, clock) && start + 24 * DAYS <= clock
      modifies this
      ensures Chronological(l.audits) && LegalMoves(l) && Books(l) && Tells(l) && StatementBalances(l.runs, l.statement)
      ensures l == old(l).(
        statement := l.statement,
        audits := old(l.audits) + BankTrail(a.imported, a.requested) + AutomaticTrail(old(l.invoices), a.escalated))
      ensures DecidedBy(l, clock)
    {
      ghost var imported, requested := AtTheBank(start);
      ghost var escalated := Automation();
      a := Afterwards(imported, requested, escalated);
    }

    /** `main`, from an empty tenant: whatever the draws and the clock, the history is in
        order, every state change is a configured one, the books balance, and what is recorded
        and written is what was drawn, nothing less and nothing more. */
    method Seed() returns (ghost h: History, ghost a: Afterwards)
      requires l == EMPTY
      modifies this
      ensures Chronological(l.audits) && LegalMoves(l) && Tells(l)
      ensures PaidAtMostOnce(l) && TotalsBalance(l) && PaidIffReleased(l)
      ensures StatementBalances(l.runs, l.statement)
      ensures |l.invoices| == 110 && DecidedBy(l, clock)
      ensures IsHistory(l, h)
      ensures l.audits ==
        Transacted(h, l.runs) + BankTrail(a.imported, a.requested) + AutomaticTrail(l.invoices, a.escalated)
    {
      var now := Now();
      var start := now - 24 * DAYS;
      h := Transactions(start);
      a := Aftermath(start);
      BooksBalance(l);
    }
  }

  // ---------------------------------------------------------------- the whole history

  /** The start, the invoices as they were before any was paid, and what was drawn. */
  datatype History = History(
    start: int, issued: seq<Invoice>, invoices: seq<InvoiceDraw>, copies: seq<Copy>, runs: seq<RunDraw>)

  /** When the statement was imported and the bank change requested, and the time escalations
      were decided at. */
  datatype Afterwards = Afterwards(imported: int, requested: int, escalated: int)

  ghost predicate IssuedAsDrawn(start: int, issued: seq<Invoice>, ds: seq<InvoiceDraw>) {
    |issued| == |ds| && forall j | 0 <= j < |ds| :: InvoiceDrawn(start, ds[j]) && AsDrawn(issued[j], ds[j])
  }

  /** The records are what the draws make of them. */
  ghost predicate IsHistory(l: Ledger, h: History) {
    && |h.issued| == |h.invoices| == 110 && |h.runs| == |l.runs| <= 6
    && IssuedAsDrawn(h.start, h.issued, h.invoices)
    && CopiesOfApproved(h.issued, h.copies) && l.duplicates == h.copies
    && |h.copies| == AtMostFour(|WithState(h.issued, Approved, 110)|)
    && RunsAsDrawn(h.issued, l.runs, h.runs) && Settles(h.issued, l)
  }

  function Transacted(h: History, runs: seq<Run>): seq<Entry>
    requires |h.runs| == |runs|
  {
    VendorTrail(8, h.start) + InvoicesTrail(0, h.invoices) + CopyTrail(h.copies, 0) + RunTrail(runs, h.runs)
  }

  function BankTrail(imported: int, requested: int): seq<Entry> {
    [Entry(OfStatement, "imported", imported)] + BankChangeTrail(requested)
  }

  function AutomaticTrail(invoices: seq<Invoice>, now: int): seq<Entry> {
    Overdue(invoices, |invoices|, now) + AutopilotTrail(invoices, FirstTwelve(Small(invoices, |invoices|)))
  }

  // ---------------------------------------------------------------- the last phases

  ghost predicate PendingFrom(l: Ledger, n: nat) {
    forall i | n <= i < |l.invoices| && l.invoices[i].state == PendingApproval ::
      QuietAfter(l.audits, OfInvoice(i), l.invoices[i].enteredAt)
  }

  function Small(invoices: seq<Invoice>, n: nat): (ids: seq<nat>)
    requires n <= |invoices|
    ensures forall j | 0 <= j < |ids| :: ids[j] < n && Settled(invoices[ids[j]].state)
  {
    if n == 0 then []
    else
      Small(invoices, n - 1) +
        if Settled(invoices[n - 1].state) && invoices[n - 1].amount < 40000 then [n - 1] else []
  }

  predicate IsSmall(inv: Invoice) { (inv.state == Approved || inv.state == Paid) && inv.amount < 40000 }

  predicate Ascending(ids: seq<nat>) { forall j, k | 0 <= j < k < |ids| :: ids[j] < ids[k] }

  /** The small settled invoices, each once, in order. */
  lemma {:induction false} SmallExactlyWhen(invoices: seq<Invoice>, n: nat)
    requires n <= |invoices|
    ensures forall j | 0 <= j < |Small(invoices, n)| :: IsSmall(invoices[Small(invoices, n)[j]])
    ensures forall i | 0 <= i < n && IsSmall(invoices[i]) :: i in Small(invoices, n)
    ensures Ascending(Small(invoices, n))
  {
    SmallInOrder(invoices, n);
    forall i | 0 <= i < n && IsSmall(invoices[i]) ensures i in Small(invoices, n) { SmallHas(invoices, n, i); }
  }

  lemma {:induction false} SmallInOrder(invoices: seq<Invoice>, n: nat)
    requires n <= |invoices|
    ensures forall j | 0 <= j < |Small(invoices, n)| :: IsSmall(invoices[Small(invoices, n)[j]])
    ensures Ascending(Small(invoices, n))
  {
    if n > 0 { SmallInOrder(invoices, n - 1); }
  }

  lemma {:induction false} SmallHas(invoices: seq<Invoice>, n: nat, i: nat)
    requires i < n <= |invoices| && IsSmall(invoices[i])
    ensures i in Small(invoices, n)
  {
    if i < n - 1 { SmallHas(invoices, n - 1, i); }
  }

  function FirstTwelve(ids: seq<nat>): seq<nat> { if |ids| < 12 then ids else ids[..12] }

  function Approvals(invoices: seq<Invoice>, chosen: seq<nat>): seq<Entry>
    requires forall j | 0 <= j < |chosen| :: chosen[j] < |invoices|
  {
    if chosen == [] then []
    else
      var last := chosen[|chosen| - 1];
      Approvals(invoices, chosen[..|chosen| - 1]) +
        [Entry(OfInvoice(last), "autopilot_approved", invoices[last].enteredAt)]
  }

  /** One approval for each chosen invoice, then the first of them reverted. */
  function AutopilotTrail(invoices: seq<Invoice>, chosen: seq<nat>): seq<Entry>
    requires forall j | 0 <= j < |chosen| :: chosen[j] < |invoices|
  {
    Approvals(invoices, chosen) +
      if chosen == [] then []
      else [Entry(OfInvoice(chosen[0]), "autopilot_reverted", invoices[chosen[0]].enteredAt + 20)]
  }

  /** Something was written earlier about the same object with the same date. */
  ghost predicate Tied(audits: seq<Entry>, k: nat)
    requires k < |audits|
  {
    exists j | 0 <= j < k :: audits[j].subject == audits[k].subject && audits[j].at == audits[k].at
  }

  lemma {:induction false} ToldIsWritten(audits: seq<Entry>, i: nat) returns (j: nat)
    requires Told(audits, i).Some?
    ensures j < |audits| && audits[j].subject == OfInvoice(i) && audits[j].at == Told(audits, i).value.1
  {
    var last := |audits| - 1;
    if TellsOf(audits[last], i) { j := last; } else { j := ToldIsWritten(audits[..last], i); }
  }

  lemma {:induction false} ApprovalAt(invoices: seq<Invoice>, chosen: seq<nat>, j: nat)
    requires j < |chosen| && forall k | 0 <= k < |chosen| :: chosen[k] < |invoices|
    ensures |Approvals(invoices, chosen)| == |chosen|
    ensures Approvals(invoices, chosen)[j] ==
      Entry(OfInvoice(chosen[j]), "autopilot_approved", invoices[chosen[j]].enteredAt)
  {
    var last := |chosen| - 1;
    if last > 0 { ApprovalAt(invoices, chosen[..last], if j < last then j else 0); }
  }

  /** Every automatic approval is dated as the entry that told of the invoice's last move. */
  lemma ApprovalsTie(l: Ledger, chosen: seq<nat>)
    requires Tells(l) && forall j | 0 <= j < |chosen| :: chosen[j] < |l.invoices|
    ensures var audits := l.audits + AutopilotTrail(l.invoices, chosen);
      forall k | |l.audits| <= k < |audits| && audits[k].action == "autopilot_approved" :: Tied(audits, k)
  {
    var audits, n := l.audits + AutopilotTrail(l.invoices, chosen), |l.audits|;
    if chosen != [] { ApprovalAt(l.invoices, chosen, 0); }
    forall k | n <= k < |audits| && audits[k].action == "autopilot_approved" ensures Tied(audits, k) {
      assert k < n + |chosen| && audits[k] == Approvals(l.invoices, chosen)[k - n];
      ApprovalAt(l.invoices, chosen, k - n);
      assert ToldRight(l, chosen[k - n]);
      var j := ToldIsWritten(l.audits, chosen[k - n]);
      assert audits[j] == l.audits[j];
    }
  }

  /** An automatic approval dated exactly at the last state change is not out of order. */
  lemma ApprovalKeepsTrails(l: Ledger, i: nat)
    requires Trails(l) && i < |l.invoices| && Settled(l.invoices[i].state)
    ensures Trails(Log(l, OfInvoice(i), "autopilot_approved", l.invoices[i].enteredAt))
  {
    var at := l.invoices[i].enteredAt;
    var l' := Log(l, OfInvoice(i), "autopilot_approved", at);
    LogKeepsOrder(l.audits, OfInvoice(i), "autopilot_approved", at);
    forall j | 0 <= j < |l'.audits| ensures Exists(l', l'.audits[j].subject) {
      if j < |l.audits| { assert Exists(l, l.audits[j].subject); }
    }
  }

  // ---------------------------------------------------------------- runs as drawn

  /** The writes for one run. */
  function RunWrites(l: Ledger, batch: seq<nat>, mayRelease: bool, d: RunDraw): Ledger
    requires forall j | 0 <= j < |batch| :: batch[j] < |l.invoices|
  {
    var r := |l.runs|;
    var s := Submit(AddRun(l, batch, d.preparedAt), r, d.submittedAt);
    if mayRelease && d.due <= d.now then Release(s, r, batch, d.due) else s
  }

  /** Every invoice approved at the start is on some run. */
  ghost predicate AllCarried(invoices: seq<Invoice>, carrier: map<nat, nat>) {
    forall i | 0 <= i < |invoices| && invoices[i].state == Approved :: i in carrier
  }

  /** Of the invoices approved at the start, those on no run are on the list, as they were. */
  ghost predicate Waiting(invoices: seq<Invoice>, l: Ledger, ids: seq<nat>) {
    && |l.invoices| == |invoices|
    && (forall i | 0 <= i < |invoices| && invoices[i].state == Approved :: i in l.carrier || i in ids)
    && forall j | 0 <= j < |ids| :: ids[j] < |invoices| && l.invoices[ids[j]] == invoices[ids[j]]
  }

  lemma ShuffledHasAll(l: Ledger, ids: seq<nat>, shuffled: seq<nat>)
    requires ids == WithState(l.invoices, Approved, |l.invoices|) && multiset(shuffled) == multiset(ids)
    ensures Waiting(l.invoices, l, shuffled)
  {
    forall i | 0 <= i < |l.invoices| && l.invoices[i].state == Approved ensures i in shuffled {
      WithStateHas(l.invoices, Approved, |l.invoices|, i);
      assert i in multiset(ids);
    }
    forall j | 0 <= j < |shuffled| ensures shuffled[j] < |l.invoices| {
      assert shuffled[j] in multiset(shuffled);
      assert shuffled[j] in ids;
    }
  }

  lemma BatchWaits(invoices: seq<Invoice>, l: Ledger, approved: seq<nat>, batch: seq<nat>, rest: seq<nat>)
    requires Waiting(invoices, l, approved) && |batch| <= |approved|
    requires rest == approved[..|approved| - |batch|]
    requires forall j | 0 <= j < |batch| :: batch[j] == approved[|approved| - 1 - j]
    ensures Waiting(invoices, l, batch + rest)
  {
    forall i | 0 <= i < |invoices| && invoices[i].state == Approved ensures i in l.carrier || i in batch + rest {
      if i !in l.carrier {
        var k :| 0 <= k < |approved| && approved[k] == i;
        if k < |rest| { assert rest[k] == i; } else { assert batch[|approved| - 1 - k] == i; }
      }
    }
    forall j | 0 <= j < |batch + rest|
      ensures (batch + rest)[j] < |invoices| && l.invoices[(batch + rest)[j]] == invoices[(batch + rest)[j]]
    {
      if j < |batch| {
        assert batch[j] == approved[|approved| - 1 - j];
      } else {
        assert rest[j - |batch|] == approved[j - |batch|];
      }
    }
  }

  lemma BatchLatest(invoices: seq<Invoice>, l: Ledger, both: seq<nat>, batch: seq<nat>, latest: int)
    requires Waiting(invoices, l, both) && batch <= both
    requires forall j | 0 <= j < |batch| :: batch[j] < |l.invoices|
    requires exists j | 0 <= j < |batch| :: latest == l.invoices[batch[j]].enteredAt
    requires forall j | 0 <= j < |batch| :: l.invoices[batch[j]].enteredAt <= latest
    ensures LatestIs(invoices, batch, latest)
  {
    forall j | 0 <= j < |batch| ensures batch[j] < |invoices| && l.invoices[batch[j]] == invoices[batch[j]] {
      assert both[j] == batch[j];
    }
  }

  /** Every invoice is as it was, or paid by the run that carries it. */
  ghost predicate Settles(invoices: seq<Invoice>, l: Ledger) {
    && |l.invoices| == |invoices|
    && forall i | 0 <= i < |invoices| :: PaidByRuns(invoices[i], l.invoices[i], i, l.runs, l.carrier)
  }

  /** Besides, the trail goes on with what is written for the runs, and no copy is added. */
  ghost predicate SettledAndTold(first: Ledger, l: Ledger, draws: seq<RunDraw>)
    requires |draws| == |l.runs|
  {
    && Settles(first.invoices, l) && l.duplicates == first.duplicates
    && l.audits == first.audits + RunTrail(l.runs, draws)
  }

  /** A run of these invoices could not be prepared at `now`. */
  ghost predicate NotDue(invoices: seq<Invoice>, batch: seq<nat>, now: int) {
    exists latest :: LatestIs(invoices, batch, latest) && now < latest + 6
  }

  /** These approved invoices are on no run because none could be prepared for them yet. */
  ghost predicate Undue(invoices: seq<Invoice>, l: Ledger, ids: seq<nat>, now: int) {
    ids != [] && Payable(l, ids) && NotDue(invoices, ids, now)
  }

  ghost predicate BetweenRuns(
      first: Ledger, l: Ledger, approved: seq<nat>, draws: seq<RunDraw>, t: int, clock: int)
  {
    && Good(l, t) && Payable(l, approved) && DecidedBy(l, clock)
    && Waiting(first.invoices, l, approved) && RunsAsDrawn(first.invoices, l.runs, draws)
    && SettledAndTold(first, l, draws)
    && Full(l.runs, draws, if approved == [] then |l.runs| - 1 else |l.runs|)
  }

  lemma WrittenRun(l: Ledger, batch: seq<nat>, mayRelease: bool, d: RunDraw)
    requires forall j | 0 <= j < |batch| :: batch[j] < |l.invoices|
    ensures var l' := RunWrites(l, batch, mayRelease, d);
      && |l'.runs| == |l.runs| + 1 && l'.runs[..|l.runs|] == l.runs && l'.duplicates == l.duplicates
      && l'.carrier == l.carrier + Carried(batch, |l.runs|) && |l'.invoices| == |l.invoices|
      && LineInvoices(l'.runs[|l.runs|]) == batch
      && l'.runs[|l.runs|].state == (if mayRelease && d.due <= d.now then Released else PendingRelease)
      && l'.runs[|l.runs|].enteredAt == (if mayRelease && d.due <= d.now then d.due else d.submittedAt)
  {
  }

  /** Paying a batch leaves every invoice outside it as it was. */
  lemma OthersUnpaid(l: Ledger, batch: seq<nat>, mayRelease: bool, d: RunDraw, i: nat)
    requires (forall j | 0 <= j < |batch| :: batch[j] < |l.invoices|) && i < |l.invoices| && i !in batch
    ensures |RunWrites(l, batch, mayRelease, d).invoices| == |l.invoices|
    ensures RunWrites(l, batch, mayRelease, d).invoices[i] == l.invoices[i]
  {
    var r := |l.runs|;
    var s := MarkReleased(Submit(AddRun(l, batch, d.preparedAt), r, d.submittedAt), r, d.due);
    PayFirstPays(s, batch, |batch|, d.due);
    assert batch[..|batch|] == batch;
  }

  lemma StillWaiting(
      invoices: seq<Invoice>, l: Ledger, m: Ledger, batch: seq<nat>, rest: seq<nat>, mayRelease: bool, d: RunDraw)
    requires Waiting(invoices, l, batch + rest) && Distinct(batch + rest)
    requires forall j | 0 <= j < |batch| :: batch[j] < |l.invoices|
    requires m == RunWrites(l, batch, mayRelease, d)
    ensures Waiting(invoices, m, rest)
  {
    WrittenRun(l, batch, mayRelease, d);
    var both := batch + rest;
    forall i | 0 <= i < |invoices| && invoices[i].state == Approved ensures i in m.carrier || i in rest {
      if i in both && i !in rest { assert i in batch; }
    }
    forall j | 0 <= j < |rest| ensures rest[j] < |invoices| && m.invoices[rest[j]] == invoices[rest[j]] {
      assert both[|batch| + j] == rest[j];
      assert forall k | 0 <= k < |batch| :: both[k] == batch[k];
      OthersUnpaid(l, batch, mayRelease, d, rest[j]);
    }
  }

  lemma {:induction false} PaidIsWritten(l: Ledger, batch: seq<nat>, k: nat, at: int)
    requires k <= |batch| && forall j | 0 <= j < |batch| :: batch[j] < |l.invoices|
    ensures PayFirst(l, batch, k, at).audits == l.audits + PaidEntries(batch[..k], at)
    decreases k
  {
    if k > 0 {
      PaidIsWritten(l, batch, k - 1, at);
      assert batch[..k][..k - 1] == batch[..k - 1];
    }
  }

  lemma {:induction false} RunIsWritten(l: Ledger, batch: seq<nat>, d: RunDraw)
    requires forall j | 0 <= j < |batch| :: batch[j] < |l.invoices|
    ensures RunWrites(l, batch, |l.runs| < 4, d).audits == l.audits + RunEntries(|l.runs|, batch, d)
  {
    var r := |l.runs|;
    var s := Submit(AddRun(l, batch, d.preparedAt), r, d.submittedAt);
    PaidIsWritten(MarkReleased(s, r, d.due), batch, |batch|, d.due);
    assert batch[..|batch|] == batch;
  }

  lemma {:induction false} MoreIsTold(
      first: seq<Entry>, before: seq<Entry>, after: seq<Entry>, runs: seq<Run>, more: seq<Run>,
      draws: seq<RunDraw>, batch: seq<nat>, d: RunDraw)
    requires |draws| == |runs| && |more| == |runs| + 1 && more[..|runs|] == runs && LineInvoices(more[|runs|]) == batch
    requires before == first + RunTrail(runs, draws) && after == before + RunEntries(|runs|, batch, d)
    ensures after == first + RunTrail(more, draws + [d])
  {
    assert (draws + [d])[..|draws|] == draws;
    assert RunTrail(more, draws + [d]) == RunTrail(runs, draws) + RunEntries(|runs|, batch, d);
  }

  lemma {:induction false} TrailGrows(first: Ledger, l: Ledger, m: Ledger, draws: seq<RunDraw>, batch: seq<nat>, d: RunDraw)
    requires |draws| == |l.runs| && forall j | 0 <= j < |batch| :: batch[j] < |l.invoices|
    requires m == RunWrites(l, batch, |l.runs| < 4, d)
    requires l.audits == first.audits + RunTrail(l.runs, draws)
    ensures |m.runs| == |l.runs| + 1 && m.duplicates == l.duplicates
    ensures m.audits == first.audits + RunTrail(m.runs, draws + [d])
  {
    WrittenRun(l, batch, |l.runs| < 4, d);
    RunIsWritten(l, batch, d);
    MoreIsTold(first.audits, l.audits, m.audits, l.runs, m.runs, draws, batch, d);
  }

  lemma StillSettles(invoices: seq<Invoice>, l: Ledger, m: Ledger, batch: seq<nat>, mayRelease: bool, d: RunDraw, i: nat)
    requires Settles(invoices, l) && Carries(l) && Payable(l, batch) && i < |invoices|
    requires i in batch ==> l.invoices[i] == invoices[i]
    requires m == RunWrites(l, batch, mayRelease, d)
    ensures |m.invoices| == |invoices| && PaidByRuns(invoices[i], m.invoices[i], i, m.runs, m.carrier)
  {
    WrittenRun(l, batch, mayRelease, d);
    assert PaidByRuns(invoices[i], l.invoices[i], i, l.runs, l.carrier);
    var r := |l.runs|;
    PayFirstPays(MarkReleased(Submit(AddRun(l, batch, d.preparedAt), r, d.submittedAt), r, d.due), batch, |batch|, d.due);
    assert batch[..|batch|] == batch;
    if i in l.carrier { assert m.runs[l.carrier[i]] == m.runs[..r][l.carrier[i]] == l.runs[l.carrier[i]]; }
  }

  lemma RunSettles(
      invoices: seq<Invoice>, l: Ledger, m: Ledger, batch: seq<nat>, rest: seq<nat>, mayRelease: bool, d: RunDraw)
    requires Settles(invoices, l) && Carries(l) && Payable(l, batch + rest) && Waiting(invoices, l, batch + rest)
    requires forall j | 0 <= j < |batch| :: batch[j] < |l.invoices|
    requires m == RunWrites(l, batch, mayRelease, d)
    ensures Settles(invoices, m)
  {
    PartsArePayable(l, batch, rest);
    WrittenRun(l, batch, mayRelease, d);
    forall i | 0 <= i < |invoices| ensures PaidByRuns(invoices[i], m.invoices[i], i, m.runs, m.carrier) {
      if i in batch {
        var j :| 0 <= j < |batch| && batch[j] == i;
        assert (batch + rest)[j] == i;
      }
      StillSettles(invoices, l, m, batch, mayRelease, d, i);
    }
  }

  lemma {:induction false} RunAddsUp(
      first: Ledger, l: Ledger, m: Ledger, draws: seq<RunDraw>, batch: seq<nat>, rest: seq<nat>, d: RunDraw)
    requires Payable(l, batch + rest) && Waiting(first.invoices, l, batch + rest) && Carries(l)
    requires forall j | 0 <= j < |batch| :: batch[j] < |l.invoices|
    requires |draws| == |l.runs| && SettledAndTold(first, l, draws)
    requires m == RunWrites(l, batch, |l.runs| < 4, d)
    ensures |draws + [d]| == |m.runs| && SettledAndTold(first, m, draws + [d])
  {
    RunSettles(first.invoices, l, m, batch, rest, |l.runs| < 4, d);
    TrailGrows(first, l, m, draws, batch, d);
  }

  /** The next run, written as drawn, keeps what the loop keeps. */
  lemma RunIsDrawn(
      invoices: seq<Invoice>, l: Ledger, m: Ledger, draws: seq<RunDraw>, batch: seq<nat>, rest: seq<nat>,
      mayRelease: bool, d: RunDraw)
    requires Waiting(invoices, l, batch + rest) && Payable(l, batch + rest)
    requires RunsAsDrawn(invoices, l.runs, draws) && Full(l.runs, draws, |l.runs|) && RunDrawn(d)
    requires 1 <= |batch| <= d.size && (|batch| == d.size || rest == [])
    requires forall j | 0 <= j < |batch| :: batch[j] < |l.invoices|
    requires m == RunWrites(l, batch, mayRelease, d) && mayRelease == (|l.runs| < 4)
    requires LatestIs(invoices, batch, d.preparedAt - 6)
    ensures RunsAsDrawn(invoices, m.runs, draws + [d]) && Waiting(invoices, m, rest)
    ensures Full(m.runs, draws + [d], if rest == [] then |m.runs| - 1 else |m.runs|)
  {
    StillWaiting(invoices, l, m, batch, rest, mayRelease, d);
    MoreRunsDrawn(invoices, l, m, draws, batch, mayRelease, d);
  }

  lemma MoreRunsDrawn(
      invoices: seq<Invoice>, l: Ledger, m: Ledger, draws: seq<RunDraw>, batch: seq<nat>, mayRelease: bool, d: RunDraw)
    requires RunsAsDrawn(invoices, l.runs, draws) && Full(l.runs, draws, |l.runs|) && RunDrawn(d)
    requires 1 <= |batch| <= d.size
    requires forall j | 0 <= j < |batch| :: batch[j] < |l.invoices|
    requires m == RunWrites(l, batch, mayRelease, d) && mayRelease == (|l.runs| < 4)
    requires LatestIs(invoices, batch, d.preparedAt - 6)
    ensures RunsAsDrawn(invoices, m.runs, draws + [d]) && |m.runs| == |l.runs| + 1
    ensures Full(m.runs, draws + [d], if |batch| == d.size then |m.runs| else |m.runs| - 1)
  {
    WrittenRun(l, batch, mayRelease, d);
    assert |LineInvoices(m.runs[|l.runs|])| == |batch|;
    forall r | 0 <= r < |m.runs| ensures RunAsDrawn(invoices, m.runs[r], r, (draws + [d])[r]) {
      if r < |l.runs| { assert m.runs[r] == m.runs[..|l.runs|][r] == l.runs[r]; }
    }
    assert forall r | 0 <= r < |l.runs| :: m.runs[r] == m.runs[..|l.runs|][r] == l.runs[r];
  }

  // ---------------------------------------------------------------- batches

  lemma OneMoreLine(invoices: seq<Invoice>, batch: seq<nat>, n: nat)
    requires n < |batch| && forall j | 0 <= j < |batch| :: batch[j] < |invoices|
    ensures Total(invoices, batch[..n + 1]) == Total(invoices, batch[..n]) + invoices[batch[n]].amount
    ensures LinesFor(invoices, batch[..n + 1]) ==
      LinesFor(invoices, batch[..n]) + [Line(n + 1, batch[n], invoices[batch[n]].amount)]
  {
    assert batch[..n + 1][..n] == batch[..n];
  }

  lemma ShuffledIsPayable(l: Ledger, ids: seq<nat>, shuffled: seq<nat>)
    requires ids == WithState(l.invoices, Approved, |l.invoices|) && l.carrier == map[]
    requires multiset(shuffled) == multiset(ids)
    ensures Payable(l, shuffled)
  {
    forall j | 0 <= j < |shuffled| ensures shuffled[j] < |l.invoices| && l.invoices[shuffled[j]].state == Approved {
      assert shuffled[j] in multiset(shuffled);
      assert shuffled[j] in ids;
    }
    ShuffledIsDistinct(ids, shuffled);
  }

  lemma {:induction false} OnceEach(ids: seq<nat>, x: nat)
    requires Distinct(ids)
    ensures multiset(ids)[x] <= 1
  {
    if ids != [] {
      var init, last := ids[..|ids| - 1], ids[|ids| - 1];
      assert ids == init + [last];
      OnceEach(init, x);
      assert last !in init by {
        forall j | 0 <= j < |init| ensures init[j] != last { assert ids[j] == init[j]; }
      }
    }
  }

  lemma TwiceCounts(s: seq<nat>, j: nat, k: nat)
    requires j < k < |s| && s[j] == s[k]
    ensures multiset(s)[s[j]] >= 2
  {
    var before := s[..k];
    assert before[j] == s[j] && before[j] in multiset(before);
    assert s == before + [s[k]] + s[k + 1..];
  }

  lemma ShuffledIsDistinct(ids: seq<nat>, shuffled: seq<nat>)
    requires Distinct(ids) && multiset(shuffled) == multiset(ids)
    ensures Distinct(shuffled)
  {
    forall j, k | 0 <= j < k < |shuffled| ensures shuffled[j] != shuffled[k] {
      OnceEach(ids, shuffled[j]);
      if shuffled[j] == shuffled[k] { TwiceCounts(shuffled, j, k); }
    }
  }

  lemma BatchIsPayable(l: Ledger, approved: seq<nat>, batch: seq<nat>, rest: seq<nat>)
    requires Payable(l, approved) && |batch| <= |approved|
    requires rest == approved[..|approved| - |batch|]
    requires forall j | 0 <= j < |batch| :: batch[j] == approved[|approved| - 1 - j]
    ensures Payable(l, batch + rest)
  {
  }

  lemma PartsArePayable(l: Ledger, batch: seq<nat>, rest: seq<nat>)
    requires Payable(l, batch + rest)
    ensures Payable(l, batch) && Payable(l, rest)
    ensures forall j | 0 <= j < |rest| :: rest[j] !in batch
  {
    var both := batch + rest;
    assert forall j | 0 <= j < |batch| :: both[j] == batch[j];
    assert forall j | 0 <= j < |rest| :: both[|batch| + j] == rest[j];
  }

  lemma RestStaysPayable(l: Ledger, batch: seq<nat>, rest: seq<nat>, at: int)
    requires Payable(l, batch + rest)
    ensures forall j | 0 <= j < |batch| :: batch[j] < |l.invoices|
    ensures Payable(AddRun(l, batch, at), rest)
  {
    PartsArePayable(l, batch, rest);
  }

  lemma ReleaseDecidedBy(l: Ledger, r: nat, batch: seq<nat>, at: int, now: int)
    requires r < |l.runs| && DecidedBy(l, now) && at <= now
    requires forall j | 0 <= j < |batch| :: batch[j] < |l.invoices|
    ensures DecidedBy(Release(l, r, batch, at), now)
  {
    PayFirstPays(MarkReleased(l, r, at), batch, |batch|, at);
    var l' := Release(l, r, batch, at);
    forall i | 0 <= i < |l'.invoices| ensures InvoiceDecidedBy(l'.invoices[i], now) {
      assert InvoiceDecidedBy(l.invoices[i], now);
    }
  }

  lemma ReleaseLeavesRest(l: Ledger, r: nat, batch: seq<nat>, rest: seq<nat>, at: int)
    requires r < |l.runs| && Books(l) && Lists(l.runs[r], batch)
    requires (forall j | 0 <= j < |batch| :: batch[j] < |l.invoices|) && Payable(l, rest)
    ensures Payable(Release(l, r, batch, at), rest)
  {
    PayFirstPays(MarkReleased(l, r, at), batch, |batch|, at);
    assert batch[..|batch|] == batch;
    forall j | 0 <= j < |rest| ensures rest[j] !in batch {
      InBatchIffCarried(l, r, batch, rest[j]);
    }
  }
}
