/** What the demo generator's random draws and clock readings come to: each invoice and each
    payment run as a function of what was drawn for it. */
module DemoDraws {
  import opened Wrappers
  import opened DemoLedger

  // ---------------------------------------------------------------- invoices

  /** What is drawn for one invoice; the last three only count if the invoice gets that far. */
  datatype InvoiceDraw = InvoiceDraw(
    amount: int, raised: int, validatedAt: int, roll: real, submittedAt: int, decidedAt: int, now: int)

  predicate Amount(n: int) { 2000 <= n <= 240000 || 260000 <= n <= 900000 }

  predicate Slow(hours: int) { hours in [2, 5, 9, 18, 30, 52, 96, 140] }

  predicate InvoiceDrawn(start: int, d: InvoiceDraw) {
    && Amount(d.amount) && 0.0 <= d.roll < 1.0
    && start + 8 <= d.raised <= start + 24 * 89 + 17
    && 1 <= d.validatedAt - d.raised <= 20
    && 1 <= d.submittedAt - d.validatedAt <= 30
    && Slow(d.decidedAt - d.submittedAt)
  }

  /** The writes for an invoice up to its validation. */
  function Raise(l: Ledger, amount: int, raised: int, validatedAt: int): (l': Ledger)
    ensures |l'.invoices| == |l.invoices| + 1
  {
    Move(AddInvoice(l, amount, raised), |l.invoices|, Validated, "validated", validatedAt)
  }

  /** The writes for an invoice from its submission on. */
  function Decide(l: Ledger, i: nat, roll: real, submittedAt: int, decidedAt: int, now: int): (l': Ledger)
    requires i < |l.invoices|
    ensures |l'.invoices| == |l.invoices|
  {
    var s := Move(l, i, PendingApproval, "submitted_for_approval", submittedAt);
    if roll > 0.90 || decidedAt > now then s
    else if roll > 0.84 then Move(s, i, Rejected, "rejected", decidedAt)
    else Move(s, i, Approved, "approved", decidedAt)
  }

  function RaiseOne(l: Ledger, d: InvoiceDraw): (l': Ledger)
    ensures |l'.invoices| == |l.invoices| + 1
  {
    var i := |l.invoices|;
    var v := Raise(l, d.amount, d.raised, d.validatedAt);
    if d.roll > 0.94 then Log(v, OfInvoice(i), "approval_blocked", d.validatedAt + 2)
    else Decide(v, i, d.roll, d.submittedAt, d.decidedAt, d.now)
  }

  function RaiseAll(l: Ledger, ds: seq<InvoiceDraw>): (l': Ledger)
    ensures |l'.invoices| == |l.invoices| + |ds|
  {
    if ds == [] then l else RaiseOne(RaiseAll(l, ds[..|ds| - 1]), ds[|ds| - 1])
  }

  /** An invoice is where its draws take it: the last six in a hundred stay validated, blocked;
      four wait for approval, and with them those whose decision is not yet due; six are rejected
      and the others approved. */
  predicate AsDrawn(inv: Invoice, d: InvoiceDraw) {
    && inv.amount == d.amount
    && (inv.state == Validated <==> d.roll > 0.94)
    && (inv.state == PendingApproval <==> d.roll <= 0.94 && (d.roll > 0.90 || d.decidedAt > d.now))
    && (inv.state == Rejected <==> 0.84 < d.roll <= 0.90 && d.decidedAt <= d.now)
    && (inv.state == Approved <==> d.roll <= 0.84 && d.decidedAt <= d.now)
    && inv.enteredAt == (
         if inv.state == Validated then d.validatedAt
         else if inv.state == PendingApproval then d.submittedAt else d.decidedAt)
  }

  lemma OneIsAsDrawn(l: Ledger, d: InvoiceDraw)
    ensures var l' := RaiseOne(l, d);
      && l'.invoices[..|l.invoices|] == l.invoices && AsDrawn(l'.invoices[|l.invoices|], d)
  {
  }

  /** Every invoice is where its own draws take it, whatever was drawn for the others. */
  lemma {:induction false} AllAreAsDrawn(l: Ledger, ds: seq<InvoiceDraw>)
    ensures var l' := RaiseAll(l, ds);
      && l'.invoices[..|l.invoices|] == l.invoices
      && forall j | 0 <= j < |ds| :: AsDrawn(l'.invoices[|l.invoices| + j], ds[j])
  {
    if ds != [] {
      var init, d := ds[..|ds| - 1], ds[|ds| - 1];
      AllAreAsDrawn(l, init);
      var m := RaiseAll(l, init);
      OneIsAsDrawn(m, d);
      var l' := RaiseAll(l, ds);
      assert forall j | 0 <= j < |m.invoices| :: l'.invoices[j] == l'.invoices[..|m.invoices|][j] == m.invoices[j];
      forall j | 0 <= j < |ds| ensures AsDrawn(l'.invoices[|l.invoices| + j], ds[j]) {
        if j < |init| { assert init[j] == ds[j]; }
      }
      assert l'.invoices[..|l.invoices|] == m.invoices[..|l.invoices|];
    }
  }

  /** The trail of an invoice tells the same, step by step. */
  function InvoiceEntries(i: nat, d: InvoiceDraw): seq<Entry> {
    [Entry(OfInvoice(i), "created", d.raised), Entry(OfInvoice(i), "validated", d.validatedAt)] +
    if d.roll > 0.94 then [Entry(OfInvoice(i), "approval_blocked", d.validatedAt + 2)]
    else
      [Entry(OfInvoice(i), "submitted_for_approval", d.submittedAt)] +
      if d.roll > 0.90 || d.decidedAt > d.now then []
      else [Entry(OfInvoice(i), if d.roll > 0.84 then "rejected" else "approved", d.decidedAt)]
  }

  /** The same for invoices numbered from `first`. */
  function InvoicesTrail(first: nat, ds: seq<InvoiceDraw>): seq<Entry> {
    if ds == [] then []
    else InvoicesTrail(first, ds[..|ds| - 1]) + InvoiceEntries(first + |ds| - 1, ds[|ds| - 1])
  }

  lemma OneIsWritten(l: Ledger, d: InvoiceDraw)
    ensures RaiseOne(l, d).audits == l.audits + InvoiceEntries(|l.invoices|, d)
    ensures RaiseOne(l, d).duplicates == l.duplicates
  {
  }

  lemma {:induction false} AllAreWritten(l: Ledger, ds: seq<InvoiceDraw>)
    ensures RaiseAll(l, ds).audits == l.audits + InvoicesTrail(|l.invoices|, ds)
    ensures RaiseAll(l, ds).duplicates == l.duplicates
  {
    if ds != [] {
      var init := ds[..|ds| - 1];
      AllAreWritten(l, init);
      OneIsWritten(RaiseAll(l, init), ds[|ds| - 1]);
    }
  }

  // ---------------------------------------------------------------- payment runs

  /** What is drawn for one run, and the clock readings it is compared with; `due` and `now` only
      count for a run that may be released. */
  datatype RunDraw = RunDraw(size: nat, preparedAt: int, clock: int, submittedAt: int, due: int, now: int)

  predicate RunDrawn(d: RunDraw) {
    && 2 <= d.size <= 5 && d.preparedAt <= d.clock
    && 1 <= d.submittedAt - d.preparedAt <= 8
    && 2 <= d.due - d.submittedAt <= 26
  }

  /** The latest approval among these invoices is at `t`. */
  predicate LatestIs(invoices: seq<Invoice>, batch: seq<nat>, t: int) {
    && (exists j | 0 <= j < |batch| :: batch[j] < |invoices| && invoices[batch[j]].enteredAt == t)
    && forall j | 0 <= j < |batch| :: batch[j] < |invoices| && invoices[batch[j]].enteredAt <= t
  }

  function LineInvoices(run: Run): seq<nat> { seq(|run.lines|, j requires 0 <= j < |run.lines| => run.lines[j].invoice) }

  /** A run is prepared six hours after the last approval among its invoices and submitted; one of
      the first four is released exactly when its release is not after the clock. */
  predicate RunAsDrawn(invoices: seq<Invoice>, run: Run, r: nat, d: RunDraw) {
    && RunDrawn(d) && 1 <= |run.lines| <= d.size
    && LatestIs(invoices, LineInvoices(run), d.preparedAt - 6)
    && run.state == (if r < 4 && d.due <= d.now then Released else PendingRelease)
    && run.enteredAt == (if r < 4 && d.due <= d.now then d.due else d.submittedAt)
  }

  /** Each of the first `n` runs pays as many invoices as were drawn for it. */
  ghost predicate Full(runs: seq<Run>, ds: seq<RunDraw>, n: int) {
    n <= |runs| == |ds| && forall r | 0 <= r < n :: |runs[r].lines| == ds[r].size
  }

  /** The release and the payments it makes are dated alike. */
  function RunEntries(r: nat, batch: seq<nat>, d: RunDraw): seq<Entry> {
    [Entry(OfRun(r), "prepared", d.preparedAt), Entry(OfRun(r), "submitted_for_release", d.submittedAt)] +
    if r < 4 && d.due <= d.now then [Entry(OfRun(r), "released", d.due)] + PaidEntries(batch, d.due) else []
  }

  function PaidEntries(batch: seq<nat>, at: int): seq<Entry> {
    if batch == [] then []
    else PaidEntries(batch[..|batch| - 1], at) + [Entry(OfInvoice(batch[|batch| - 1]), "marked_paid", at)]
  }

  function RunTrail(runs: seq<Run>, ds: seq<RunDraw>): seq<Entry>
    requires |runs| == |ds|
  {
    if runs == [] then []
    else
      var r := |runs| - 1;
      RunTrail(runs[..r], ds[..r]) + RunEntries(r, LineInvoices(runs[r]), ds[r])
  }

  /** An invoice on a released run is paid as of that release; every other is as it was. */
  predicate PaidByRuns(before: Invoice, after: Invoice, i: nat, runs: seq<Run>, carrier: map<nat, nat>) {
    after ==
      if i in carrier && carrier[i] < |runs| && runs[carrier[i]].state == Released
      then before.(state := Paid, enteredAt := runs[carrier[i]].enteredAt) else before
  }

  ghost predicate RunsAsDrawn(invoices: seq<Invoice>, runs: seq<Run>, ds: seq<RunDraw>) {
    |ds| == |runs| && forall r | 0 <= r < |runs| :: RunAsDrawn(invoices, runs[r], r, ds[r])
  }
}
