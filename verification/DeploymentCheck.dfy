/** The deployment check's count of queued notifications: one tenant at a time, because a role
    that cannot bypass row-level security sees nothing with no tenant bound. */
module DeploymentCheck {
  import opened Wrappers

  datatype Status = Pending | Sent | Failed

  datatype Message = Message(tenant: int, status: Status, createdAt: int)

  datatype Totals = Totals(oldest: Option<int>, pending: nat, failed: nat)

  datatype Verdict = NotBeingSent | GaveUp | Moving

  /** Seconds. */
  const HOUR := 3600

  // ---------------------------------------------------------------- one aggregate

  predicate Admits(bypass: bool, guc: Option<int>, m: Message) { bypass || guc == Some(m.tenant) }

  function Earlier(a: Option<int>, b: Option<int>): Option<int> {
    if a.None? then b else if b.None? then a else if b.value < a.value then b else a
  }

  /** `COUNT(*) FILTER (WHERE status = ...)` over the rows the policy admits. */
  function CountOf(status: Status, bypass: bool, guc: Option<int>, rows: seq<Message>): nat {
    if rows == [] then 0
    else
      (if Admits(bypass, guc, rows[0]) && rows[0].status == status then 1 else 0) +
      CountOf(status, bypass, guc, rows[1..])
  }

  /** `MIN(created_at) FILTER (WHERE status = 'pending')` */
  function OldestOf(bypass: bool, guc: Option<int>, rows: seq<Message>): Option<int> {
    if rows == [] then None
    else
      Earlier(if Admits(bypass, guc, rows[0]) && rows[0].status == Pending then Some(rows[0].createdAt) else None,
        OldestOf(bypass, guc, rows[1..]))
  }

  function Aggregate(bypass: bool, guc: Option<int>, rows: seq<Message>): Totals {
    Totals(OldestOf(bypass, guc, rows), CountOf(Pending, bypass, guc, rows), CountOf(Failed, bypass, guc, rows))
  }

  /** The aggregate over the whole table, as a role that bypasses the policy would see it. */
  function Whole(rows: seq<Message>): Totals { Aggregate(true, None, rows) }

  // ---------------------------------------------------------------- the loop

  function CountPer(status: Status, bypass: bool, tenants: seq<int>, rows: seq<Message>): nat {
    if tenants == [] then 0
    else
      CountPer(status, bypass, tenants[..|tenants| - 1], rows) +
      CountOf(status, bypass, Some(tenants[|tenants| - 1]), rows)
  }

  function OldestPer(bypass: bool, tenants: seq<int>, rows: seq<Message>): Option<int> {
    if tenants == [] then None
    else
      Earlier(OldestPer(bypass, tenants[..|tenants| - 1], rows),
        OldestOf(bypass, Some(tenants[|tenants| - 1]), rows))
  }

  function PerTenant(bypass: bool, tenants: seq<int>, rows: seq<Message>): Totals {
    Totals(OldestPer(bypass, tenants, rows), CountPer(Pending, bypass, tenants, rows),
      CountPer(Failed, bypass, tenants, rows))
  }

  function Judge(t: Totals, now: int): Verdict {
    if t.oldest.Some? && now - t.oldest.value > HOUR then NotBeingSent
    else if t.failed > 0 then GaveUp else Moving
  }

  class Connection {
    const bypass: bool
    const outbox: seq<Message>
    const tenants: seq<int>
    var guc: Option<int>

    constructor (bypass: bool, outbox: seq<Message>, tenants: seq<int>)
      ensures this.bypass == bypass && this.outbox == outbox && this.tenants == tenants && guc.None?
    {
      this.bypass, this.outbox, this.tenants, guc := bypass, outbox, tenants, None;
    }

    method SelectTotals() returns (t: Totals)
      ensures t == Aggregate(bypass, guc, outbox)
    {
      t := Aggregate(bypass, guc, outbox);
    }

    /** The queue part of `check_database`. */
    method CheckQueue(now: int) returns (totals: Totals, verdict: Verdict)
      modifies this`guc
      ensures totals == PerTenant(bypass, tenants, outbox)
      ensures verdict == Judge(totals, now)
      ensures guc.None?
    {
      var pending: nat, failed: nat := 0, 0;
      var oldestPending: Option<int> := None;
      for n := 0 to |tenants|
        invariant Totals(oldestPending, pending, failed) == PerTenant(bypass, tenants[..n], outbox)
      {
        assert tenants[..n + 1][..n] == tenants[..n];
        guc := Some(tenants[n]);
        var row := SelectTotals();
        if row.oldest.Some? && (oldestPending.None? || row.oldest.value < oldestPending.value) {
          oldestPending := row.oldest;
        }
        pending := pending + row.pending;
        failed := failed + row.failed;
      }
      assert tenants[..|tenants|] == tenants;
      guc := None;
      totals := Totals(oldestPending, pending, failed);
      var stale := oldestPending.Some? && now - oldestPending.value > HOUR;
      verdict := if stale then NotBeingSent else if failed > 0 then GaveUp else Moving;
    }
  }

  // ---------------------------------------------------------------- counting

  predicate Distinct(tenants: seq<int>) { forall j, k | 0 <= j < k < |tenants| :: tenants[j] != tenants[k] }

  predicate Queued(m: Message) { m.status != Sent }

  /** Every pending or failed message belongs to a listed tenant. */
  predicate AllListed(tenants: seq<int>, rows: seq<Message>) {
    forall j | 0 <= j < |rows| && Queued(rows[j]) :: rows[j].tenant in tenants
  }

  /** The whole table's aggregate, taken with no tenant bound, is zero whatever is queued: a
      check built on it could only pass. */
  lemma {:induction false} UnboundCountsNothing(rows: seq<Message>, now: int)
    ensures Aggregate(false, None, rows) == Totals(None, 0, 0)
    ensures Judge(Aggregate(false, None, rows), now) == Moving
  {
    if rows != [] { UnboundCountsNothing(rows[1..], now); }
  }

  lemma LastIsNew(init: seq<int>, t: int)
    requires Distinct(init + [t])
    ensures Distinct(init) && t !in init
  {
    var all := init + [t];
    forall j | 0 <= j < |init| ensures init[j] != t { assert all[j] != all[|init|]; }
    assert forall j | 0 <= j < |init| :: all[j] == init[j];
  }

  /** One more message is counted once if its tenant is listed, and not otherwise. */
  lemma {:induction false} OneMoreMessage(status: Status, tenants: seq<int>, rows: seq<Message>)
    requires Distinct(tenants) && rows != []
    ensures CountPer(status, false, tenants, rows) ==
      (if rows[0].tenant in tenants && rows[0].status == status then 1 else 0) +
      CountPer(status, false, tenants, rows[1..])
  {
    if tenants != [] {
      var init, t := tenants[..|tenants| - 1], tenants[|tenants| - 1];
      assert tenants == init + [t];
      LastIsNew(init, t);
      OneMoreMessage(status, init, rows);
    }
  }

  lemma {:induction false} NoRows(status: Status, tenants: seq<int>, rows: seq<Message>)
    requires rows == []
    ensures CountPer(status, false, tenants, rows) == 0
  {
    if tenants != [] { NoRows(status, tenants[..|tenants| - 1], rows); }
  }

  predicate Missed(status: Status, tenants: seq<int>, m: Message) { m.status == status && m.tenant !in tenants }

  /** The loop never overcounts, and is short exactly when a message's tenant is not listed. */
  lemma {:induction false} CountsCompared(status: Status, tenants: seq<int>, rows: seq<Message>)
    requires Distinct(tenants)
    ensures
      var counted, whole := CountPer(status, false, tenants, rows), CountOf(status, true, None, rows);
      && counted <= whole
      && (counted < whole <==> exists j | 0 <= j < |rows| :: Missed(status, tenants, rows[j]))
  {
    if rows == [] {
      NoRows(status, tenants, rows);
    } else {
      CountsCompared(status, tenants, rows[1..]);
      OneMoreMessage(status, tenants, rows);
      assert forall j | 0 <= j < |rows| - 1 :: rows[1..][j] == rows[j + 1];
      assert (exists j | 0 <= j < |rows| :: Missed(status, tenants, rows[j])) <==>
        Missed(status, tenants, rows[0]) || exists j | 0 <= j < |rows| - 1 :: Missed(status, tenants, rows[1..][j]);
    }
  }

  // ---------------------------------------------------------------- the oldest

  predicate Counts(m: Message, among: seq<int>) { m.status == Pending && m.tenant in among }

  /** `o` is the creation time of the oldest pending message of these tenants. */
  ghost predicate IsOldest(o: Option<int>, rows: seq<Message>, among: seq<int>) {
    && (forall j | 0 <= j < |rows| && Counts(rows[j], among) :: o.Some? && o.value <= rows[j].createdAt)
    && (o.Some? ==> exists j | 0 <= j < |rows| :: Counts(rows[j], among) && rows[j].createdAt == o.value)
  }

  lemma {:induction false} OldestOfOne(t: int, rows: seq<Message>)
    ensures IsOldest(OldestOf(false, Some(t), rows), rows, [t])
  {
    if rows != [] {
      OldestOfOne(t, rows[1..]);
      MoreRows(OldestOf(false, Some(t), rows[1..]), rows, [t]);
      assert rows[0].tenant in [t] <==> rows[0].tenant == t;
    }
  }

  lemma MoreRows(o: Option<int>, rows: seq<Message>, among: seq<int>)
    requires rows != [] && IsOldest(o, rows[1..], among)
    ensures IsOldest(Earlier(if Counts(rows[0], among) then Some(rows[0].createdAt) else None, o), rows, among)
  {
    var first := if Counts(rows[0], among) then Some(rows[0].createdAt) else None;
    var both := Earlier(first, o);
    forall j | 0 <= j < |rows| && Counts(rows[j], among) ensures both.Some? && both.value <= rows[j].createdAt {
      if j > 0 { assert rows[1..][j - 1] == rows[j]; }
    }
    if o.Some? {
      var j :| 0 <= j < |rows| - 1 && Counts(rows[1..][j], among) && rows[1..][j].createdAt == o.value;
      assert rows[j + 1] == rows[1..][j];
    }
  }

  lemma MoreTenants(a: Option<int>, b: Option<int>, rows: seq<Message>, init: seq<int>, t: int)
    requires IsOldest(a, rows, init) && IsOldest(b, rows, [t])
    ensures IsOldest(Earlier(a, b), rows, init + [t])
  {
    assert forall m: Message :: Counts(m, init + [t]) <==> Counts(m, init) || Counts(m, [t]);
  }

  lemma {:induction false} OldestPerTenants(tenants: seq<int>, rows: seq<Message>)
    ensures IsOldest(OldestPer(false, tenants, rows), rows, tenants)
  {
    if tenants != [] {
      var init, t := tenants[..|tenants| - 1], tenants[|tenants| - 1];
      OldestPerTenants(init, rows);
      OldestOfOne(t, rows);
      MoreTenants(OldestPer(false, init, rows), OldestOf(false, Some(t), rows), rows, init, t);
      assert tenants == init + [t];
    }
  }

  lemma {:induction false} OldestOfAll(rows: seq<Message>, tenants: seq<int>)
    requires AllListed(tenants, rows)
    ensures IsOldest(OldestOf(true, None, rows), rows, tenants)
  {
    if rows != [] {
      RestListed(tenants, rows);
      OldestOfAll(rows[1..], tenants);
      MoreRows(OldestOf(true, None, rows[1..]), rows, tenants);
    }
  }

  lemma RestListed(tenants: seq<int>, rows: seq<Message>)
    requires rows != [] && AllListed(tenants, rows)
    ensures AllListed(tenants, rows[1..]) && (Queued(rows[0]) ==> rows[0].tenant in tenants)
  {
    forall j | 0 <= j < |rows| - 1 && Queued(rows[1..][j]) ensures rows[1..][j].tenant in tenants {
      assert rows[j + 1] == rows[1..][j];
    }
  }

  lemma OldestIsUnique(a: Option<int>, b: Option<int>, rows: seq<Message>, among: seq<int>)
    requires IsOldest(a, rows, among) && IsOldest(b, rows, among)
    ensures a == b
  {
  }

  // ---------------------------------------------------------------- exactness

  /** With each tenant listed once, the loop's totals are the whole table's exactly when every
      queued message's tenant is among them. */
  lemma LoopIsExactWhen(tenants: seq<int>, rows: seq<Message>)
    requires Distinct(tenants)
    ensures PerTenant(false, tenants, rows) == Whole(rows) <==> AllListed(tenants, rows)
  {
    CountsCompared(Pending, tenants, rows);
    CountsCompared(Failed, tenants, rows);
    if AllListed(tenants, rows) {
      OldestPerTenants(tenants, rows);
      OldestOfAll(rows, tenants);
      OldestIsUnique(OldestPer(false, tenants, rows), OldestOf(true, None, rows), rows, tenants);
    } else {
      var j :| 0 <= j < |rows| && Queued(rows[j]) && rows[j].tenant !in tenants;
      assert Missed(rows[j].status, tenants, rows[j]);
    }
  }

  /** Under a role that bypasses the policy, which the check reports before it comes here and
      carries on, every message is counted once per tenant. */
  lemma {:induction false} BypassCountsOncePerTenant(status: Status, tenants: seq<int>, rows: seq<Message>)
    ensures CountPer(status, true, tenants, rows) == |tenants| * CountOf(status, true, None, rows)
  {
    if tenants != [] {
      var init, t := tenants[..|tenants| - 1], tenants[|tenants| - 1];
      BypassCountsOncePerTenant(status, init, rows);
      BypassIgnoresTenant(status, t, rows);
      assert |tenants| == |init| + 1;
    }
  }

  lemma {:induction false} BypassIgnoresTenant(status: Status, t: int, rows: seq<Message>)
    ensures CountOf(status, true, Some(t), rows) == CountOf(status, true, None, rows)
  {
    if rows != [] { BypassIgnoresTenant(status, t, rows[1..]); }
  }

  predicate Stale(m: Message, now: int) { m.status == Pending && now - m.createdAt > HOUR }

  /** The verdict is about every tenant's queue: a message waiting over an hour anywhere is
      reported, and failing that one that gave up. */
  lemma VerdictMeans(tenants: seq<int>, rows: seq<Message>, now: int)
    requires Distinct(tenants) && AllListed(tenants, rows)
    ensures
      var verdict := Judge(PerTenant(false, tenants, rows), now);
      var stale := exists j | 0 <= j < |rows| :: Stale(rows[j], now);
      && (verdict == NotBeingSent <==> stale)
      && (verdict == GaveUp <==> !stale && exists j | 0 <= j < |rows| :: rows[j].status == Failed)
  {
    LoopIsExactWhen(tenants, rows);
    OldestPerTenants(tenants, rows);
    var oldest := OldestPer(false, tenants, rows);
    assert forall j | 0 <= j < |rows| && rows[j].status == Pending :: Counts(rows[j], tenants);
    FailedCount(rows);
  }

  lemma {:induction false} FailedCount(rows: seq<Message>)
    ensures CountOf(Failed, true, None, rows) > 0 <==> exists j | 0 <= j < |rows| :: rows[j].status == Failed
  {
    if rows != [] {
      FailedCount(rows[1..]);
      assert forall j | 0 <= j < |rows| - 1 :: rows[1..][j] == rows[j + 1];
      assert (exists j | 0 <= j < |rows| :: rows[j].status == Failed) <==>
        rows[0].status == Failed || exists j | 0 <= j < |rows| - 1 :: rows[1..][j].status == Failed;
    }
  }
}
