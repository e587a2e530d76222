/** The records the demo generator writes, the single writes it is made of, and what each
    keeps: chronological trails, legal workflow moves, and payment books that balance. */
module DemoLedger {
  import opened Wrappers

  datatype InvoiceState = Draft | Validated | PendingApproval | Approved | Rejected | Paid | Cancelled

  /** The configured transition table; nothing leaves a paid or a cancelled invoice. */
  predicate Edge(a: InvoiceState, b: InvoiceState) {
    match a
    case Draft => b == Validated || b == Cancelled
    case Validated => b == PendingApproval || b == Cancelled
    case PendingApproval => b == Approved || b == Rejected
    case Approved => b == Paid || b == Cancelled
    case Rejected => b == Draft
    case Paid => false
    case Cancelled => false
  }

  /** The same table read backwards. */
  lemma EdgesInto(a: InvoiceState, b: InvoiceState)
    ensures Edge(a, b) <==>
      match b
      case Draft => a == Rejected
      case Validated => a == Draft
      case PendingApproval => a == Validated
      case Approved => a == PendingApproval
      case Rejected => a == PendingApproval
      case Paid => a == Approved
      case Cancelled => a == Draft || a == Validated || a == Approved
  {
  }

  datatype RunState = RunDraft | PendingRelease | Released

  /** Times are hours. Invoices, runs, duplicates and vendors are numbered as created. */
  datatype Invoice = Invoice(state: InvoiceState, enteredAt: int, amount: int)
  datatype Line = Line(number: nat, invoice: nat, amount: int)
  datatype Run = Run(state: RunState, enteredAt: int, total: int, lines: seq<Line>)
  datatype Subject = OfVendor(v: nat) | OfInvoice(i: nat) | OfDuplicate(d: nat) | OfRun(r: nat) | OfStatement
  datatype Entry = Entry(subject: Subject, action: string, at: int)
  /** A flagged copy of invoice `original`, made at `at`. */
  datatype Copy = Copy(original: nat, at: int, acknowledged: bool)
  datatype StatementLine = StatementLine(number: nat, amount: int, matched: Option<nat>)

  /** `carrier` is bookkeeping: which run carries an invoice. */
  datatype Ledger = Ledger(
    invoices: seq<Invoice>, duplicates: seq<Copy>, runs: seq<Run>, audits: seq<Entry>, statement: seq<StatementLine>,
    carrier: map<nat, nat>)

  const EMPTY := Ledger([], [], [], [], [], map[])

  // ---------------------------------------------------------------- the writes

  function Log(l: Ledger, s: Subject, action: string, at: int): Ledger {
    l.(audits := l.audits + [Entry(s, action, at)])
  }

  function AddInvoice(l: Ledger, amount: int, at: int): Ledger {
    Log(l.(invoices := l.invoices + [Invoice(Draft, at, amount)]), OfInvoice(|l.invoices|), "created", at)
  }

  /** Assign `current_state` and `state_entered_at`, and write the entry that says so. */
  function Move(l: Ledger, i: nat, to: InvoiceState, action: string, at: int): Ledger
    requires i < |l.invoices|
  {
    var inv := l.invoices[i];
    Log(l.(invoices := l.invoices[i := inv.(state := to, enteredAt := at)]), OfInvoice(i), action, at)
  }

  function AddDuplicate(l: Ledger, original: nat, at: int): Ledger {
    Log(l.(duplicates := l.duplicates + [Copy(original, at, false)]), OfDuplicate(|l.duplicates|), "duplicate_flagged", at)
  }

  function Acknowledge(l: Ledger, d: nat, at: int): Ledger
    requires d < |l.duplicates|
  {
    Log(l.(duplicates := l.duplicates[d := l.duplicates[d].(acknowledged := true)]), OfDuplicate(d),
      "duplicate_acknowledged", at)
  }

  function LinesFor(invoices: seq<Invoice>, batch: seq<nat>): (lines: seq<Line>)
    requires forall j | 0 <= j < |batch| :: batch[j] < |invoices|
    ensures |lines| == |batch|
    ensures forall j | 0 <= j < |batch| :: lines[j] == Line(j + 1, batch[j], invoices[batch[j]].amount)
  {
    seq(|batch|, j requires 0 <= j < |batch| => Line(j + 1, batch[j], invoices[batch[j]].amount))
  }

  function Total(invoices: seq<Invoice>, batch: seq<nat>): int
    requires forall j | 0 <= j < |batch| :: batch[j] < |invoices|
  {
    if batch == [] then 0 else Total(invoices, batch[..|batch| - 1]) + invoices[batch[|batch| - 1]].amount
  }

  function AddRun(l: Ledger, batch: seq<nat>, at: int): Ledger
    requires forall j | 0 <= j < |batch| :: batch[j] < |l.invoices|
  {
    var run := Run(RunDraft, at, Total(l.invoices, batch), LinesFor(l.invoices, batch));
    Log(l.(runs := l.runs + [run], carrier := l.carrier + Carried(batch, |l.runs|)), OfRun(|l.runs|), "prepared", at)
  }

  function Carried(batch: seq<nat>, r: nat): map<nat, nat> { map i | i in batch :: r }

  function Submit(l: Ledger, r: nat, at: int): Ledger
    requires r < |l.runs|
  {
    Log(l.(runs := l.runs[r := l.runs[r].(state := PendingRelease, enteredAt := at)]), OfRun(r), "submitted_for_release", at)
  }

  function MarkReleased(l: Ledger, r: nat, at: int): Ledger
    requires r < |l.runs|
  {
    Log(l.(runs := l.runs[r := l.runs[r].(state := Released, enteredAt := at)]), OfRun(r), "released", at)
  }

  /** The first `k` invoices of the batch marked paid. */
  function PayFirst(l: Ledger, batch: seq<nat>, k: nat, at: int): (l': Ledger)
    requires k <= |batch| && forall j | 0 <= j < |batch| :: batch[j] < |l.invoices|
    ensures |l'.invoices| == |l.invoices| && l'.runs == l.runs && l'.carrier == l.carrier
    ensures l'.duplicates == l.duplicates && l'.statement == l.statement
  {
    if k == 0 then l else Move(PayFirst(l, batch, k - 1, at), batch[k - 1], Paid, "marked_paid", at)
  }

  // ---------------------------------------------------------------- trails

  /** `f` may be written after `e`: it is later, or an automatic approval of the same time. */
  predicate MayFollow(e: Entry, f: Entry) {
    e.at < f.at || (e.at == f.at && f.action == "autopilot_approved")
  }

  /** Each object's entries are in time order as written, and only an automatic approval is
      dated as an entry before it. */
  ghost predicate Chronological(audits: seq<Entry>) {
    forall j, k | 0 <= j < k < |audits| && audits[j].subject == audits[k].subject :: MayFollow(audits[j], audits[k])
  }

  /** Nothing has been written about `s` after `t`. */
  ghost predicate QuietAfter(audits: seq<Entry>, s: Subject, t: int) {
    forall j | 0 <= j < |audits| && audits[j].subject == s :: audits[j].at <= t
  }

  /** Everything written about `s` is dated before `t`. */
  ghost predicate QuietBefore(audits: seq<Entry>, s: Subject, t: int) { QuietAfter(audits, s, t - 1) }

  predicate Exists(l: Ledger, s: Subject) {
    match s
    case OfInvoice(i) => i < |l.invoices|
    case OfRun(r) => r < |l.runs|
    case OfDuplicate(d) => d < |l.duplicates|
    case _ => true
  }

  ghost predicate KnownSubjects(l: Ledger) {
    forall j | 0 <= j < |l.audits| :: Exists(l, l.audits[j].subject)
  }

  predicate Settled(s: InvoiceState) { s == Approved || s == Paid }

  /** Trails are chronological, and no approved or paid invoice has an entry later than its
      last state change. */
  ghost predicate Trails(l: Ledger) {
    && Chronological(l.audits)
    && KnownSubjects(l)
    && forall i | 0 <= i < |l.invoices| && Settled(l.invoices[i].state) ::
      QuietAfter(l.audits, OfInvoice(i), l.invoices[i].enteredAt)
  }

  ghost predicate PendingQuiet(l: Ledger) {
    forall i | 0 <= i < |l.invoices| && l.invoices[i].state == PendingApproval ::
      QuietAfter(l.audits, OfInvoice(i), l.invoices[i].enteredAt)
  }

  /** The state an entry says its invoice entered. */
  function StateOf(action: string): Option<InvoiceState> {
    if action == "created" then Some(Draft)
    else if action == "validated" then Some(Validated)
    else if action == "submitted_for_approval" then Some(PendingApproval)
    else if action == "approved" then Some(Approved)
    else if action == "rejected" then Some(Rejected)
    else if action == "marked_paid" then Some(Paid)
    else None
  }

  predicate TellsOf(e: Entry, i: nat) { e.subject == OfInvoice(i) && StateOf(e.action).Some? }

  /** What the trail last says about an invoice: its state, and since when. */
  function Told(audits: seq<Entry>, i: nat): Option<(InvoiceState, int)> {
    if audits == [] then None
    else
      var e := audits[|audits| - 1];
      if TellsOf(e, i) then Some((StateOf(e.action).value, e.at)) else Told(audits[..|audits| - 1], i)
  }

  predicate ToldRight(l: Ledger, i: nat)
    requires i < |l.invoices|
  {
    Told(l.audits, i) == Some((l.invoices[i].state, l.invoices[i].enteredAt))
  }

  /** The trail alone tells every invoice's state and when it entered it. */
  ghost predicate Tells(l: Ledger) { forall i | 0 <= i < |l.invoices| :: ToldRight(l, i) }

  /** The entry may come next as far as its invoice's state goes: it tells of no state, or of one
      that the table leads to from the state told last, or of a draft when none was told. */
  predicate MayTell(audits: seq<Entry>, e: Entry) {
    e.subject.OfInvoice? && StateOf(e.action).Some? ==>
      match Told(audits, e.subject.i)
      case None => StateOf(e.action).value == Draft
      case Some((state, _)) => Edge(state, StateOf(e.action).value)
  }

  /** Every change of state the trail tells of is one of the table's. */
  ghost predicate LegalTrail(audits: seq<Entry>) {
    forall k | 0 <= k < |audits| :: MayTell(audits[..k], audits[k])
  }

  ghost predicate LegalMoves(l: Ledger) { LegalTrail(l.audits) }

  lemma LegalNext(audits: seq<Entry>, e: Entry)
    requires LegalTrail(audits) && MayTell(audits, e)
    ensures LegalTrail(audits + [e])
  {
    var audits' := audits + [e];
    forall k | 0 <= k < |audits'| ensures MayTell(audits'[..k], audits'[k]) {
      assert audits'[..k] == audits[..k];
      if k == |audits| { assert audits[..k] == audits; }
    }
  }

  lemma {:induction false} NothingTold(audits: seq<Entry>, i: nat)
    requires forall j | 0 <= j < |audits| :: audits[j].subject != OfInvoice(i)
    ensures Told(audits, i) == None
  {
    if audits != [] { NothingTold(audits[..|audits| - 1], i); }
  }

  lemma ToldNext(audits: seq<Entry>, e: Entry, i: nat)
    ensures Told(audits + [e], i) == if TellsOf(e, i) then Some((StateOf(e.action).value, e.at)) else Told(audits, i)
  {
    assert (audits + [e])[..|audits|] == audits;
  }

  lemma TellsLog(l: Ledger, l': Ledger, s: Subject, action: string, at: int)
    requires Tells(l) && l'.invoices == l.invoices && l'.audits == l.audits + [Entry(s, action, at)]
    requires s.OfInvoice? ==> StateOf(action).None?
    ensures Tells(l') && (LegalMoves(l) ==> LegalMoves(l'))
  {
    if LegalMoves(l) { LegalNext(l.audits, Entry(s, action, at)); }
    forall i | 0 <= i < |l'.invoices| ensures ToldRight(l', i) {
      assert ToldRight(l, i);
      ToldNext(l.audits, Entry(s, action, at), i);
    }
  }

  lemma SameTrailTells(l: Ledger, l': Ledger)
    requires Tells(l) && l'.invoices == l.invoices && l'.audits == l.audits
    ensures Tells(l')
  {
    forall i | 0 <= i < |l'.invoices| ensures ToldRight(l', i) { assert ToldRight(l, i); }
  }

  lemma TellsAddInvoice(l: Ledger, amount: int, at: int)
    requires Tells(l) && KnownSubjects(l)
    ensures Tells(AddInvoice(l, amount, at)) && (LegalMoves(l) ==> LegalMoves(AddInvoice(l, amount, at)))
  {
    forall j | 0 <= j < |l.audits| ensures l.audits[j].subject != OfInvoice(|l.invoices|) {
      assert Exists(l, l.audits[j].subject);
    }
    NothingTold(l.audits, |l.invoices|);
    if LegalMoves(l) { LegalNext(l.audits, Entry(OfInvoice(|l.invoices|), "created", at)); }
    var l' := AddInvoice(l, amount, at);
    forall i | 0 <= i < |l'.invoices| ensures ToldRight(l', i) {
      ToldNext(l.audits, Entry(OfInvoice(|l.invoices|), "created", at), i);
      if i < |l.invoices| { assert ToldRight(l, i); }
    }
  }

  lemma TellsMove(l: Ledger, j: nat, to: InvoiceState, action: string, at: int)
    requires Tells(l) && j < |l.invoices| && StateOf(action) == Some(to)
    ensures Tells(Move(l, j, to, action, at))
    ensures LegalMoves(l) && Edge(l.invoices[j].state, to) ==> LegalMoves(Move(l, j, to, action, at))
  {
    assert ToldRight(l, j);
    if LegalMoves(l) && Edge(l.invoices[j].state, to) { LegalNext(l.audits, Entry(OfInvoice(j), action, at)); }
    var l' := Move(l, j, to, action, at);
    forall i | 0 <= i < |l'.invoices| ensures ToldRight(l', i) {
      assert ToldRight(l, i);
      ToldNext(l.audits, Entry(OfInvoice(j), action, at), i);
    }
  }

  lemma ActionNames()
    ensures StateOf("validated") == Some(Validated) && StateOf("submitted_for_approval") == Some(PendingApproval)
    ensures StateOf("approved") == Some(Approved) && StateOf("rejected") == Some(Rejected)
    ensures StateOf("marked_paid") == Some(Paid)
    ensures StateOf("approval_blocked") == None && StateOf("sla_escalated") == None
    ensures StateOf("autopilot_approved") == None && StateOf("autopilot_reverted") == None
  {
  }

  lemma LogKeepsOrder(audits: seq<Entry>, s: Subject, action: string, at: int)
    requires Chronological(audits)
    requires QuietBefore(audits, s, at) || (QuietAfter(audits, s, at) && action == "autopilot_approved")
    ensures Chronological(audits + [Entry(s, action, at)])
    ensures QuietAfter(audits + [Entry(s, action, at)], s, at)
    ensures forall x, t | x != s && QuietAfter(audits, x, t) :: QuietAfter(audits + [Entry(s, action, at)], x, t)
  {
    var audits' := audits + [Entry(s, action, at)];
    forall x, t | x != s && QuietAfter(audits, x, t) ensures QuietAfter(audits', x, t) {
      forall j | 0 <= j < |audits'| && audits'[j].subject == x ensures audits'[j].at <= t {
        assert j < |audits| && audits'[j] == audits[j];
      }
    }
  }

  lemma NewSubjectIsQuiet(l: Ledger, s: Subject, t: int)
    requires KnownSubjects(l) && !Exists(l, s)
    ensures QuietBefore(l.audits, s, t)
  {
  }

  /** Writing about an object that is not a settled or pending invoice. */
  lemma LogKeepsTrails(l: Ledger, s: Subject, action: string, at: int)
    requires Trails(l) && Exists(l, s) && QuietBefore(l.audits, s, at)
    requires s.OfInvoice? ==> !Settled(l.invoices[s.i].state)
    ensures Trails(Log(l, s, action, at)) && QuietAfter(Log(l, s, action, at).audits, s, at)
    ensures PendingQuiet(l) && (s.OfInvoice? ==> l.invoices[s.i].state != PendingApproval) ==>
      PendingQuiet(Log(l, s, action, at))
  {
    LogKeepsOrder(l.audits, s, action, at);
    var l' := Log(l, s, action, at);
    forall j | 0 <= j < |l'.audits| ensures Exists(l', l'.audits[j].subject) {
      if j < |l.audits| { assert Exists(l, l.audits[j].subject); }
    }
  }

  lemma AddInvoiceKeepsTrails(l: Ledger, amount: int, at: int)
    requires Trails(l)
    ensures Trails(AddInvoice(l, amount, at))
    ensures QuietAfter(AddInvoice(l, amount, at).audits, OfInvoice(|l.invoices|), at)
    ensures PendingQuiet(l) ==> PendingQuiet(AddInvoice(l, amount, at))
  {
    var i := |l.invoices|;
    NewSubjectIsQuiet(l, OfInvoice(i), at);
    var grown := l.(invoices := l.invoices + [Invoice(Draft, at, amount)]);
    forall j | 0 <= j < |l.audits| ensures Exists(grown, l.audits[j].subject) {
      assert Exists(l, l.audits[j].subject);
    }
    assert Trails(grown);
    LogKeepsTrails(grown, OfInvoice(i), "created", at);
  }

  lemma MoveKeepsTrails(l: Ledger, i: nat, to: InvoiceState, action: string, at: int)
    requires Trails(l) && i < |l.invoices| && QuietBefore(l.audits, OfInvoice(i), at)
    ensures Trails(Move(l, i, to, action, at))
    ensures QuietAfter(Move(l, i, to, action, at).audits, OfInvoice(i), at)
    ensures PendingQuiet(l) ==> PendingQuiet(Move(l, i, to, action, at))
    ensures forall x, t | x != OfInvoice(i) && QuietAfter(l.audits, x, t) ::
      QuietAfter(Move(l, i, to, action, at).audits, x, t)
  {
    LogKeepsOrder(l.audits, OfInvoice(i), action, at);
    var l' := Move(l, i, to, action, at);
    forall j | 0 <= j < |l'.audits| ensures Exists(l', l'.audits[j].subject) {
      if j < |l.audits| { assert Exists(l, l.audits[j].subject); }
    }
  }

  lemma AddDuplicateKeepsTrails(l: Ledger, original: nat, at: int)
    requires Trails(l)
    ensures Trails(AddDuplicate(l, original, at))
    ensures QuietAfter(AddDuplicate(l, original, at).audits, OfDuplicate(|l.duplicates|), at)
    ensures PendingQuiet(l) ==> PendingQuiet(AddDuplicate(l, original, at))
  {
    var d := |l.duplicates|;
    NewSubjectIsQuiet(l, OfDuplicate(d), at);
    var grown := AddDuplicate(l, original, at).(audits := l.audits);
    forall j | 0 <= j < |l.audits| ensures Exists(grown, l.audits[j].subject) {
      assert Exists(l, l.audits[j].subject);
    }
    assert Trails(grown);
    LogKeepsTrails(grown, OfDuplicate(d), "duplicate_flagged", at);
  }

  lemma AcknowledgeKeepsTrails(l: Ledger, d: nat, at: int)
    requires Trails(l) && d < |l.duplicates| && QuietBefore(l.audits, OfDuplicate(d), at)
    ensures Trails(Acknowledge(l, d, at))
    ensures PendingQuiet(l) ==> PendingQuiet(Acknowledge(l, d, at))
  {
    var marked := Acknowledge(l, d, at).(audits := l.audits);
    forall j | 0 <= j < |l.audits| ensures Exists(marked, l.audits[j].subject) {
      assert Exists(l, l.audits[j].subject);
    }
    assert Trails(marked);
    LogKeepsTrails(marked, OfDuplicate(d), "duplicate_acknowledged", at);
  }

  lemma AddRunKeepsTrails(l: Ledger, batch: seq<nat>, at: int)
    requires Trails(l) && forall j | 0 <= j < |batch| :: batch[j] < |l.invoices|
    ensures Trails(AddRun(l, batch, at))
    ensures QuietAfter(AddRun(l, batch, at).audits, OfRun(|l.runs|), at)
    ensures PendingQuiet(l) ==> PendingQuiet(AddRun(l, batch, at))
  {
    var r := |l.runs|;
    NewSubjectIsQuiet(l, OfRun(r), at);
    var grown := AddRun(l, batch, at).(audits := l.audits);
    forall j | 0 <= j < |l.audits| ensures Exists(grown, l.audits[j].subject) {
      assert Exists(l, l.audits[j].subject);
    }
    assert Trails(grown);
    LogKeepsTrails(grown, OfRun(r), "prepared", at);
  }

  /** A run's own state change only touches its own trail. */
  lemma RunStepKeepsTrails(l: Ledger, r: nat, at: int)
    requires Trails(l) && r < |l.runs| && QuietBefore(l.audits, OfRun(r), at)
    ensures Trails(Submit(l, r, at)) && QuietAfter(Submit(l, r, at).audits, OfRun(r), at)
    ensures Trails(MarkReleased(l, r, at))
    ensures PendingQuiet(l) ==> PendingQuiet(Submit(l, r, at)) && PendingQuiet(MarkReleased(l, r, at))
    ensures forall x, t | x != OfRun(r) && QuietAfter(l.audits, x, t) ::
      QuietAfter(Submit(l, r, at).audits, x, t) && QuietAfter(MarkReleased(l, r, at).audits, x, t)
  {
    var s := Submit(l, r, at).(audits := l.audits);
    var m := MarkReleased(l, r, at).(audits := l.audits);
    forall j | 0 <= j < |l.audits|
      ensures Exists(s, l.audits[j].subject) && Exists(m, l.audits[j].subject)
    {
      assert Exists(l, l.audits[j].subject);
    }
    assert Trails(s) && Trails(m);
    LogKeepsTrails(s, OfRun(r), "submitted_for_release", at);
    LogKeepsTrails(m, OfRun(r), "released", at);
    LogKeepsOrder(l.audits, OfRun(r), "submitted_for_release", at);
    LogKeepsOrder(l.audits, OfRun(r), "released", at);
  }

  // ---------------------------------------------------------------- books

  ghost predicate RunOk(l: Ledger, r: nat)
    requires r < |l.runs|
  {
    var run := l.runs[r];
    && (forall j | 0 <= j < |run.lines| ::
          && run.lines[j].number == j + 1
          && run.lines[j].invoice < |l.invoices|
          && run.lines[j].amount == l.invoices[run.lines[j].invoice].amount
          && run.lines[j].invoice in l.carrier && l.carrier[run.lines[j].invoice] == r)
    && (forall j, k | 0 <= j < k < |run.lines| :: run.lines[j].invoice != run.lines[k].invoice)
    && run.total == SumLines(run.lines)
  }

  function SumLines(lines: seq<Line>): int {
    if lines == [] then 0 else SumLines(lines[..|lines| - 1]) + lines[|lines| - 1].amount
  }

  predicate HasLine(run: Run, i: nat) { exists j | 0 <= j < |run.lines| :: run.lines[j].invoice == i }

  ghost predicate Carries(l: Ledger) {
    forall i | i in l.carrier :: l.carrier[i] < |l.runs| && HasLine(l.runs[l.carrier[i]], i) && i < |l.invoices|
  }

  /** Whether invoice `i` is in the state its run requires. */
  predicate PaidAsCarried(l: Ledger, i: nat)
    requires i < |l.invoices|
  {
    if i in l.carrier && l.carrier[i] < |l.runs| && l.runs[l.carrier[i]].state == Released
    then l.invoices[i].state == Paid
    else l.invoices[i].state != Paid && (i in l.carrier ==> l.invoices[i].state == Approved)
  }

  ghost predicate Books(l: Ledger) {
    && (forall r | 0 <= r < |l.runs| :: RunOk(l, r))
    && Carries(l)
    && (forall i | 0 <= i < |l.invoices| :: PaidAsCarried(l, i))
  }

  predicate Distinct(batch: seq<nat>) { forall j, k | 0 <= j < k < |batch| :: batch[j] != batch[k] }

  /** Approved invoices that no run carries yet. */
  predicate Payable(l: Ledger, batch: seq<nat>) {
    && Distinct(batch)
    && forall j | 0 <= j < |batch| ::
      batch[j] < |l.invoices| && batch[j] !in l.carrier && l.invoices[batch[j]].state == Approved
  }

  lemma {:induction false} TotalIsSumOfLines(invoices: seq<Invoice>, batch: seq<nat>)
    requires forall j | 0 <= j < |batch| :: batch[j] < |invoices|
    ensures SumLines(LinesFor(invoices, batch)) == Total(invoices, batch)
  {
    if batch != [] {
      var init := batch[..|batch| - 1];
      TotalIsSumOfLines(invoices, init);
      assert LinesFor(invoices, batch)[..|batch| - 1] == LinesFor(invoices, init);
    }
  }

  lemma OldRunOk(l: Ledger, batch: seq<nat>, at: int, r: nat)
    requires Books(l) && Payable(l, batch) && r < |l.runs|
    ensures RunOk(AddRun(l, batch, at), r)
  {
    assert RunOk(l, r);
    forall j | 0 <= j < |l.runs[r].lines| ensures l.runs[r].lines[j].invoice !in batch {
      assert l.runs[r].lines[j].invoice in l.carrier;
    }
  }

  lemma NewRunOk(l: Ledger, batch: seq<nat>, at: int)
    requires Payable(l, batch)
    ensures RunOk(AddRun(l, batch, at), |l.runs|)
  {
    TotalIsSumOfLines(l.invoices, batch);
    var l' := AddRun(l, batch, at);
    forall j | 0 <= j < |batch| ensures batch[j] in l'.carrier && l'.carrier[batch[j]] == |l.runs| {
      assert batch[j] in batch;
    }
  }

  lemma NewRunCarries(l: Ledger, batch: seq<nat>, at: int)
    requires Carries(l) && Payable(l, batch)
    ensures Carries(AddRun(l, batch, at))
  {
    var l' := AddRun(l, batch, at);
    forall i | i in l'.carrier
      ensures l'.carrier[i] < |l'.runs| && HasLine(l'.runs[l'.carrier[i]], i) && i < |l'.invoices|
    {
      if i in batch {
        var j :| 0 <= j < |batch| && batch[j] == i;
        assert l'.runs[|l.runs|].lines[j].invoice == i;
      }
    }
  }

  lemma StillPaidAsCarried(l: Ledger, batch: seq<nat>, at: int, i: nat)
    requires Carries(l) && Payable(l, batch) && i < |l.invoices| && PaidAsCarried(l, i)
    ensures PaidAsCarried(AddRun(l, batch, at), i)
  {
  }

  lemma AddRunKeepsBooks(l: Ledger, batch: seq<nat>, at: int)
    requires Books(l) && Payable(l, batch)
    ensures Books(AddRun(l, batch, at))
  {
    var l' := AddRun(l, batch, at);
    forall r | 0 <= r < |l'.runs| ensures RunOk(l', r) {
      if r < |l.runs| { OldRunOk(l, batch, at, r); } else { NewRunOk(l, batch, at); }
    }
    NewRunCarries(l, batch, at);
    forall i | 0 <= i < |l'.invoices| ensures PaidAsCarried(l', i) {
      StillPaidAsCarried(l, batch, at, i);
    }
  }

  /** Writes that leave invoices' states, runs and lines alone keep the books. */
  lemma BooksFrame(l: Ledger, l': Ledger)
    requires Books(l) && l'.carrier == l.carrier && l'.runs == l.runs && |l'.invoices| >= |l.invoices|
    requires forall i | 0 <= i < |l.invoices| ::
      l'.invoices[i].amount == l.invoices[i].amount &&
      (l'.invoices[i].state == l.invoices[i].state || (i !in l.carrier && l'.invoices[i].state != Paid))
    requires forall i | |l.invoices| <= i < |l'.invoices| :: l'.invoices[i].state != Paid
    ensures Books(l')
  {
    forall r | 0 <= r < |l'.runs| ensures RunOk(l', r) { assert RunOk(l, r); }
    forall i | 0 <= i < |l'.invoices| ensures PaidAsCarried(l', i) {
      if i < |l.invoices| { assert PaidAsCarried(l, i); }
    }
  }

  lemma SubmitKeepsBooks(l: Ledger, r: nat, at: int)
    requires Books(l) && r < |l.runs| && l.runs[r].state != Released
    ensures Books(Submit(l, r, at))
  {
    var l' := Submit(l, r, at);
    forall q | 0 <= q < |l'.runs| ensures RunOk(l', q) { assert RunOk(l, q); }
    forall i | i in l'.carrier ensures HasLine(l'.runs[l'.carrier[i]], i) {
      assert HasLine(l.runs[l.carrier[i]], i);
    }
    forall i | 0 <= i < |l'.invoices| ensures PaidAsCarried(l', i) { assert PaidAsCarried(l, i); }
  }

  // ---------------------------------------------------------------- release

  /** `MarkReleased` and then `PayFirst` over the run's own invoices. */
  function Release(l: Ledger, r: nat, batch: seq<nat>, at: int): Ledger
    requires r < |l.runs| && forall j | 0 <= j < |batch| :: batch[j] < |l.invoices|
  {
    PayFirst(MarkReleased(l, r, at), batch, |batch|, at)
  }

  lemma {:induction false} PayFirstPays(l: Ledger, batch: seq<nat>, k: nat, at: int)
    requires k <= |batch| && forall j | 0 <= j < |batch| :: batch[j] < |l.invoices|
    ensures var l' := PayFirst(l, batch, k, at);
      forall i | 0 <= i < |l.invoices| ::
        l'.invoices[i] == if i in batch[..k] then l.invoices[i].(state := Paid, enteredAt := at) else l.invoices[i]
    decreases k
  {
    if k > 0 {
      PayFirstPays(l, batch, k - 1, at);
      assert batch[..k] == batch[..k - 1] + [batch[k - 1]];
    }
  }

  predicate Lists(run: Run, batch: seq<nat>) {
    |run.lines| == |batch| && forall j | 0 <= j < |batch| :: run.lines[j].invoice == batch[j]
  }

  lemma ReleaseKeepsBooks(l: Ledger, r: nat, batch: seq<nat>, at: int)
    requires Books(l) && r < |l.runs| && l.runs[r].state != Released
    requires (forall j | 0 <= j < |batch| :: batch[j] < |l.invoices|) && Lists(l.runs[r], batch)
    ensures Books(Release(l, r, batch, at))
  {
    var l' := Release(l, r, batch, at);
    PayFirstPays(MarkReleased(l, r, at), batch, |batch|, at);
    assert batch[..|batch|] == batch;
    forall q | 0 <= q < |l'.runs| ensures RunOk(l', q) { assert RunOk(l, q); }
    forall i | i in l'.carrier ensures HasLine(l'.runs[l'.carrier[i]], i) {
      assert HasLine(l.runs[l.carrier[i]], i);
    }
    forall i | 0 <= i < |l'.invoices| ensures PaidAsCarried(l', i) {
      assert PaidAsCarried(l, i);
      InBatchIffCarried(l, r, batch, i);
    }
  }

  lemma InBatchIffCarried(l: Ledger, r: nat, batch: seq<nat>, i: nat)
    requires Books(l) && r < |l.runs| && Lists(l.runs[r], batch)
    ensures i in batch <==> i in l.carrier && l.carrier[i] == r
  {
    assert RunOk(l, r);
    if i in batch {
      var j :| 0 <= j < |batch| && batch[j] == i;
      assert l.runs[r].lines[j].invoice == i;
    }
    if i in l.carrier && l.carrier[i] == r {
      assert HasLine(l.runs[r], i);
      var j :| 0 <= j < |l.runs[r].lines| && l.runs[r].lines[j].invoice == i;
      assert batch[j] == i;
    }
  }

  predicate ReadyToPay(l: Ledger, batch: seq<nat>, at: int) {
    && Distinct(batch)
    && forall j | 0 <= j < |batch| ::
      batch[j] < |l.invoices| && l.invoices[batch[j]].state == Approved && l.invoices[batch[j]].enteredAt < at
  }

  ghost predicate AllQuiet(l: Ledger, batch: seq<nat>, from: nat, at: int) {
    forall j | from <= j < |batch| :: QuietBefore(l.audits, OfInvoice(batch[j]), at)
  }

  lemma ReadyIsQuiet(l: Ledger, batch: seq<nat>, at: int)
    requires Trails(l) && ReadyToPay(l, batch, at)
    ensures AllQuiet(l, batch, 0, at)
  {
    forall j | 0 <= j < |batch| ensures QuietBefore(l.audits, OfInvoice(batch[j]), at) {
      assert QuietAfter(l.audits, OfInvoice(batch[j]), l.invoices[batch[j]].enteredAt);
    }
  }

  /** After paying the first `k`: trails in order, and the invoices still to pay quiet. */
  ghost predicate PaidSoFar(m: Ledger, batch: seq<nat>, k: nat, at: int, pending: bool) {
    Trails(m) && AllQuiet(m, batch, k, at) && (pending ==> PendingQuiet(m))
  }

  lemma PayOneKeepsTrails(m: Ledger, batch: seq<nat>, k: nat, at: int, pending: bool)
    requires Distinct(batch) && k < |batch| && batch[k] < |m.invoices|
    requires PaidSoFar(m, batch, k, at, pending)
    ensures PaidSoFar(Move(m, batch[k], Paid, "marked_paid", at), batch, k + 1, at, pending)
  {
    assert QuietBefore(m.audits, OfInvoice(batch[k]), at);
    MoveKeepsTrails(m, batch[k], Paid, "marked_paid", at);
  }

  lemma PayNextKeepsTrails(l: Ledger, batch: seq<nat>, k: nat, at: int, pending: bool)
    requires Distinct(batch) && k < |batch| && forall j | 0 <= j < |batch| :: batch[j] < |l.invoices|
    requires PaidSoFar(PayFirst(l, batch, k, at), batch, k, at, pending)
    ensures PaidSoFar(PayFirst(l, batch, k + 1, at), batch, k + 1, at, pending)
  {
    PayOneKeepsTrails(PayFirst(l, batch, k, at), batch, k, at, pending);
  }

  lemma {:induction false} PayMoreKeepsTrails(l: Ledger, batch: seq<nat>, k: nat, at: int, pending: bool)
    requires Distinct(batch) && k <= |batch| && forall j | 0 <= j < |batch| :: batch[j] < |l.invoices|
    requires PaidSoFar(PayFirst(l, batch, 0, at), batch, 0, at, pending)
    ensures PaidSoFar(PayFirst(l, batch, k, at), batch, k, at, pending)
    decreases k
  {
    if k > 0 {
      PayMoreKeepsTrails(l, batch, k - 1, at, pending);
      PayNextKeepsTrails(l, batch, k - 1, at, pending);
    }
  }

  /** Paying a batch keeps the trails: each invoice was approved before `at`. */
  lemma PayFirstKeepsTrails(l: Ledger, batch: seq<nat>, at: int)
    requires Trails(l) && ReadyToPay(l, batch, at)
    ensures PaidSoFar(PayFirst(l, batch, |batch|, at), batch, |batch|, at, PendingQuiet(l))
  {
    ReadyIsQuiet(l, batch, at);
    PayMoreKeepsTrails(l, batch, |batch|, at, PendingQuiet(l));
  }

  lemma NotYetPaid(l: Ledger, batch: seq<nat>, k: nat, at: int)
    requires ReadyToPay(l, batch, at) && k < |batch|
    ensures PayFirst(l, batch, k, at).invoices[batch[k]] == l.invoices[batch[k]]
  {
    PayFirstPays(l, batch, k, at);
    assert batch[k] !in batch[..k];
  }

  ghost predicate ToldLegally(l: Ledger) { LegalMoves(l) && Tells(l) }

  lemma OnePaidIsLegal(l: Ledger, i: nat, at: int)
    requires ToldLegally(l) && i < |l.invoices| && l.invoices[i].state == Approved
    ensures ToldLegally(Move(l, i, Paid, "marked_paid", at))
  {
    ActionNames();
    TellsMove(l, i, Paid, "marked_paid", at);
  }

  lemma NextPaidIsLegal(l: Ledger, batch: seq<nat>, k: nat, at: int)
    requires k < |batch| && forall j | 0 <= j < |batch| :: batch[j] < |l.invoices|
    requires ToldLegally(PayFirst(l, batch, k, at)) && PayFirst(l, batch, k, at).invoices[batch[k]].state == Approved
    ensures ToldLegally(PayFirst(l, batch, k + 1, at))
  {
    OnePaidIsLegal(PayFirst(l, batch, k, at), batch[k], at);
  }

  /** Each of those moves is approved to paid. */
  lemma {:induction false} PayFirstIsLegal(l: Ledger, batch: seq<nat>, k: nat, at: int)
    requires ReadyToPay(l, batch, at) && k <= |batch| && ToldLegally(l)
    ensures ToldLegally(PayFirst(l, batch, k, at))
    decreases k
  {
    if k > 0 {
      PayFirstIsLegal(l, batch, k - 1, at);
      NotYetPaid(l, batch, k - 1, at);
      NextPaidIsLegal(l, batch, k - 1, at);
    }
  }

  // ---------------------------------------------------------------- what the books say

  /** No invoice is on two lines, of one run or of two. */
  ghost predicate PaidAtMostOnce(l: Ledger) {
    forall r, j, q, k | 0 <= r < |l.runs| && 0 <= q < |l.runs| &&
        0 <= j < |l.runs[r].lines| && 0 <= k < |l.runs[q].lines| &&
        l.runs[r].lines[j].invoice == l.runs[q].lines[k].invoice ::
      r == q && j == k
  }

  function SumInvoices(l: Ledger, lines: seq<Line>): int
    requires forall j | 0 <= j < |lines| :: lines[j].invoice < |l.invoices|
  {
    if lines == [] then 0
    else SumInvoices(l, lines[..|lines| - 1]) + l.invoices[lines[|lines| - 1].invoice].amount
  }

  ghost predicate TotalsBalance(l: Ledger) {
    forall r | 0 <= r < |l.runs| ::
      && l.runs[r].total == SumLines(l.runs[r].lines)
      && (forall j | 0 <= j < |l.runs[r].lines| :: l.runs[r].lines[j].invoice < |l.invoices|)
      && l.runs[r].total == SumInvoices(l, l.runs[r].lines)
  }

  ghost predicate OnReleasedRun(l: Ledger, i: nat) {
    exists r | 0 <= r < |l.runs| :: l.runs[r].state == Released && HasLine(l.runs[r], i)
  }

  ghost predicate PaidIffReleased(l: Ledger) {
    forall i | 0 <= i < |l.invoices| :: l.invoices[i].state == Paid <==> OnReleasedRun(l, i)
  }

  lemma {:induction false} LinesAddUp(l: Ledger, lines: seq<Line>)
    requires forall j | 0 <= j < |lines| ::
      lines[j].invoice < |l.invoices| && lines[j].amount == l.invoices[lines[j].invoice].amount
    ensures SumInvoices(l, lines) == SumLines(lines)
  {
    if lines != [] { LinesAddUp(l, lines[..|lines| - 1]); }
  }

  /** Payment conservation, from the books. */
  lemma BooksBalance(l: Ledger)
    requires Books(l)
    ensures PaidAtMostOnce(l) && TotalsBalance(l) && PaidIffReleased(l)
  {
    forall r, j, q, k | 0 <= r < |l.runs| && 0 <= q < |l.runs| &&
        0 <= j < |l.runs[r].lines| && 0 <= k < |l.runs[q].lines| &&
        l.runs[r].lines[j].invoice == l.runs[q].lines[k].invoice
      ensures r == q && j == k
    {
      assert RunOk(l, r) && RunOk(l, q);
    }
    forall r | 0 <= r < |l.runs|
      ensures l.runs[r].total == SumLines(l.runs[r].lines)
      ensures forall j | 0 <= j < |l.runs[r].lines| :: l.runs[r].lines[j].invoice < |l.invoices|
      ensures l.runs[r].total == SumInvoices(l, l.runs[r].lines)
    {
      assert RunOk(l, r);
      LinesAddUp(l, l.runs[r].lines);
    }
    forall i | 0 <= i < |l.invoices| ensures l.invoices[i].state == Paid <==> OnReleasedRun(l, i) {
      PaidMeansReleased(l, i);
    }
  }

  lemma PaidMeansReleased(l: Ledger, i: nat)
    requires Books(l) && i < |l.invoices|
    ensures l.invoices[i].state == Paid <==> OnReleasedRun(l, i)
  {
    assert PaidAsCarried(l, i);
    if l.invoices[i].state == Paid {
      assert HasLine(l.runs[l.carrier[i]], i);
    }
    if OnReleasedRun(l, i) {
      var r :| 0 <= r < |l.runs| && l.runs[r].state == Released && HasLine(l.runs[r], i);
      assert RunOk(l, r);
      var j :| 0 <= j < |l.runs[r].lines| && l.runs[r].lines[j].invoice == i;
    }
  }
}
