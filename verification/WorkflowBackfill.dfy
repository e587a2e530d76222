/** Migration 026: seeding the workflows a tenant is missing. */
module WorkflowBackfill {

  /** One default state: its name and everything else the row takes over as it is. */
  datatype Default = Default(name: string, rest: int)

  datatype Row = Row(id: nat, tenant: int, workflow: string, state: Default)

  /** `DEFAULT_WORKFLOWS.items()`, in order. */
  type Defaults = seq<(string, seq<Default>)>

  predicate Of(r: Row, tenant: int, workflow: string) { r.tenant == tenant && r.workflow == workflow }

  /** `SELECT COUNT(*)` for one tenant and workflow. */
  function CountOf(rows: seq<Row>, tenant: int, workflow: string): (n: nat)
    ensures n > 0 <==> exists j | 0 <= j < |rows| :: Of(rows[j], tenant, workflow)
  {
    if rows == [] then 0
    else CountOf(rows[..|rows| - 1], tenant, workflow) + if Of(rows[|rows| - 1], tenant, workflow) then 1 else 0
  }

  /** The states the table holds for a pair, in the order inserted. */
  function StatesOf(rows: seq<Row>, tenant: int, workflow: string): seq<Default> {
    if rows == [] then []
    else
      var last := rows[|rows| - 1];
      StatesOf(rows[..|rows| - 1], tenant, workflow) + if Of(last, tenant, workflow) then [last.state] else []
  }

  predicate DistinctTenants(tenants: seq<int>) { forall j, k | 0 <= j < k < |tenants| :: tenants[j] != tenants[k] }

  /** The keys of a dictionary. */
  predicate DistinctKeys(defaults: Defaults) { forall j, k | 0 <= j < k < |defaults| :: defaults[j].0 != defaults[k].0 }

  // ---------------------------------------------------------------- what one pair receives

  /** After the run the pair holds what it held, or its defaults if it held nothing. */
  predicate Filled(before: seq<Row>, after: seq<Row>, tenant: int, workflow: string, states: seq<Default>) {
    StatesOf(after, tenant, workflow) ==
      if CountOf(before, tenant, workflow) > 0 then StatesOf(before, tenant, workflow) else states
  }

  predicate Same(before: seq<Row>, after: seq<Row>, tenant: int, workflow: string) {
    StatesOf(after, tenant, workflow) == StatesOf(before, tenant, workflow)
  }

  /** The first `n` workflows of `tenant` are filled; its others, and every other tenant's, are as they were. */
  ghost predicate Progress(before: seq<Row>, after: seq<Row>, tenant: int, defaults: Defaults, n: nat)
    requires n <= |defaults|
  {
    && (forall j | 0 <= j < n :: Filled(before, after, tenant, defaults[j].0, defaults[j].1))
    && (forall j | n <= j < |defaults| :: Same(before, after, tenant, defaults[j].0))
    && OthersSame(before, after, tenant, defaults)
  }

  ghost predicate OthersSame(before: seq<Row>, after: seq<Row>, tenant: int, defaults: Defaults) {
    forall t, w | t != tenant || !Names(defaults, w) :: Same(before, after, t, w)
  }

  predicate Names(defaults: Defaults, w: string) { exists j | 0 <= j < |defaults| :: defaults[j].0 == w }

  /** The pair gained those states, and no other pair changed. */
  ghost predicate Inserted(before: seq<Row>, after: seq<Row>, tenant: int, workflow: string, states: seq<Default>) {
    && StatesOf(after, tenant, workflow) == StatesOf(before, tenant, workflow) + states
    && OtherPairsSame(before, after, tenant, workflow)
  }

  ghost predicate OtherPairsSame(before: seq<Row>, after: seq<Row>, tenant: int, workflow: string) {
    forall t, w | t != tenant || w != workflow :: Same(before, after, t, w)
  }

  ghost predicate Backfilled(before: seq<Row>, after: seq<Row>, tenants: seq<int>, defaults: Defaults) {
    && before <= after
    && (forall t, j | t in tenants && 0 <= j < |defaults| :: Filled(before, after, t, defaults[j].0, defaults[j].1))
    && (forall t, w | t !in tenants || !Names(defaults, w) :: Same(before, after, t, w))
  }

  ghost predicate SeededSoFar(
      before: seq<Row>, rows: seq<Row>, tenant: int, defaults: Defaults, n: nat, seeded: nat)
    requires n <= |defaults|
  {
    before <= rows && Progress(before, rows, tenant, defaults, n) && seeded == Missing(before, tenant, defaults, n)
  }

  /** How many of the first `n` workflows the tenant is missing. */
  function Missing(rows: seq<Row>, tenant: int, defaults: Defaults, n: nat): nat
    requires n <= |defaults|
  {
    if n == 0 then 0
    else Missing(rows, tenant, defaults, n - 1) + if CountOf(rows, tenant, defaults[n - 1].0) == 0 then 1 else 0
  }

  function AllMissing(rows: seq<Row>, tenants: seq<int>, defaults: Defaults): nat {
    if tenants == [] then 0
    else
      AllMissing(rows, tenants[..|tenants| - 1], defaults) +
      Missing(rows, tenants[|tenants| - 1], defaults, |defaults|)
  }

  /** The workflows among the first `n` that the tenant has no row of, by position. */
  ghost function MissingSet(rows: seq<Row>, tenant: int, defaults: Defaults, n: nat): set<nat>
    requires n <= |defaults|
  {
    set j: nat | j < n && StatesOf(rows, tenant, defaults[j].0) == []
  }

  /** The same for several tenants, each workflow with its tenant. */
  ghost function MissingPairs(rows: seq<Row>, tenants: seq<int>, defaults: Defaults): set<(int, nat)> {
    set k: nat, j: nat | k < |tenants| && j in MissingSet(rows, tenants[k], defaults, |defaults|) :: (tenants[k], j)
  }

  lemma {:induction false} MissingAreCounted(rows: seq<Row>, tenant: int, defaults: Defaults, n: nat)
    requires n <= |defaults|
    ensures Missing(rows, tenant, defaults, n) == |MissingSet(rows, tenant, defaults, n)|
  {
    var all := MissingSet(rows, tenant, defaults, n);
    if n == 0 {
      assert all == {};
    } else {
      var fewer := MissingSet(rows, tenant, defaults, n - 1);
      MissingAreCounted(rows, tenant, defaults, n - 1);
      CountIsStates(rows, tenant, defaults[n - 1].0);
      assert all == if n - 1 in all then fewer + {n - 1} else fewer;
    }
  }

  /** Exactly the pairs without a row are counted, once each. */
  lemma {:induction false} AllMissingAreCounted(rows: seq<Row>, tenants: seq<int>, defaults: Defaults)
    requires DistinctTenants(tenants)
    ensures AllMissing(rows, tenants, defaults) == |MissingPairs(rows, tenants, defaults)|
  {
    var all := MissingPairs(rows, tenants, defaults);
    if tenants == [] {
      assert all == {};
    } else {
      var init, t := tenants[..|tenants| - 1], tenants[|tenants| - 1];
      var fewer, own := MissingPairs(rows, init, defaults), MissingSet(rows, t, defaults, |defaults|);
      AllMissingAreCounted(rows, init, defaults);
      MissingAreCounted(rows, t, defaults, |defaults|);
      PairsAdd(rows, tenants, defaults);
      SameSize(own, set j | j in own :: (t, j), t);
    }
  }

  lemma PairsAdd(rows: seq<Row>, tenants: seq<int>, defaults: Defaults)
    requires tenants != [] && DistinctTenants(tenants)
    ensures
      var init, t := tenants[..|tenants| - 1], tenants[|tenants| - 1];
      var paired := set j | j in MissingSet(rows, t, defaults, |defaults|) :: (t, j);
      && MissingPairs(rows, tenants, defaults) == MissingPairs(rows, init, defaults) + paired
      && MissingPairs(rows, init, defaults) !! paired
  {
    var n, init := |tenants| - 1, tenants[..|tenants| - 1];
    var paired := set j | j in MissingSet(rows, tenants[n], defaults, |defaults|) :: (tenants[n], j);
    forall p | p in MissingPairs(rows, tenants, defaults) ensures p in MissingPairs(rows, init, defaults) + paired {
      var k: nat :| k < |tenants| && p.0 == tenants[k] && p.1 in MissingSet(rows, tenants[k], defaults, |defaults|);
      if k < n { assert init[k] == tenants[k]; }
    }
    forall p | p in MissingPairs(rows, init, defaults) ensures p in MissingPairs(rows, tenants, defaults) && p !in paired {
      var k: nat :| k < n && p.0 == init[k] && p.1 in MissingSet(rows, init[k], defaults, |defaults|);
      assert init[k] == tenants[k];
    }
  }

  lemma {:induction false} SameSize(own: set<nat>, paired: set<(int, nat)>, t: int)
    requires paired == set j | j in own :: (t, j)
    ensures |paired| == |own|
    decreases own
  {
    if own == {} {
      assert paired == {};
    } else {
      var j :| j in own;
      assert (t, j) in paired;
      SameSize(own - {j}, paired - {(t, j)}, t);
    }
  }

  lemma {:induction false} SameMissing(before: seq<Row>, after: seq<Row>, tenant: int, defaults: Defaults, n: nat)
    requires n <= |defaults| && forall w :: Same(before, after, tenant, w)
    ensures Missing(before, tenant, defaults, n) == Missing(after, tenant, defaults, n)
  {
    if n > 0 {
      SameMissing(before, after, tenant, defaults, n - 1);
      assert Same(before, after, tenant, defaults[n - 1].0);
      SamePairsSameCount(before, after, tenant, defaults[n - 1].0);
    }
  }

  lemma {:induction false} CountIsStates(rows: seq<Row>, tenant: int, workflow: string)
    ensures CountOf(rows, tenant, workflow) == |StatesOf(rows, tenant, workflow)|
  {
    if rows != [] { CountIsStates(rows[..|rows| - 1], tenant, workflow); }
  }

  lemma OneMoreRow(rows: seq<Row>, r: Row, tenant: int, workflow: string)
    ensures StatesOf(rows + [r], tenant, workflow) ==
      StatesOf(rows, tenant, workflow) + if Of(r, tenant, workflow) then [r.state] else []
  {
    assert (rows + [r])[..|rows|] == rows;
  }

  lemma SamePairsSameCount(before: seq<Row>, after: seq<Row>, tenant: int, workflow: string)
    requires Same(before, after, tenant, workflow)
    ensures CountOf(before, tenant, workflow) == CountOf(after, tenant, workflow)
  {
    CountIsStates(before, tenant, workflow);
    CountIsStates(after, tenant, workflow);
  }

  lemma SeededOne(
      before: seq<Row>, earlier: seq<Row>, after: seq<Row>, tenant: int, defaults: Defaults, n: nat, seeded: nat)
    requires n < |defaults| && DistinctKeys(defaults) && SeededSoFar(before, earlier, tenant, defaults, n, seeded)
    requires CountOf(earlier, tenant, defaults[n].0) == 0
    requires earlier <= after && Inserted(earlier, after, tenant, defaults[n].0, defaults[n].1)
    ensures SeededSoFar(before, after, tenant, defaults, n + 1, seeded + 1)
  {
    SamePairsSameCount(before, earlier, tenant, defaults[n].0);
    OneMoreFilled(before, earlier, after, tenant, defaults, n);
  }

  lemma OneMoreFilled(before: seq<Row>, earlier: seq<Row>, after: seq<Row>, tenant: int, defaults: Defaults, n: nat)
    requires n < |defaults| && DistinctKeys(defaults) && Progress(before, earlier, tenant, defaults, n)
    requires CountOf(before, tenant, defaults[n].0) == 0
    requires Inserted(earlier, after, tenant, defaults[n].0, defaults[n].1)
    ensures Progress(before, after, tenant, defaults, n + 1)
  {
    CountIsStates(before, tenant, defaults[n].0);
    assert Same(before, earlier, tenant, defaults[n].0);
    assert Filled(before, after, tenant, defaults[n].0, defaults[n].1);
    forall j | 0 <= j < n ensures Filled(before, after, tenant, defaults[j].0, defaults[j].1) {
      assert Filled(before, earlier, tenant, defaults[j].0, defaults[j].1);
      assert Same(earlier, after, tenant, defaults[j].0);
    }
    forall j | n < j < |defaults| ensures Same(before, after, tenant, defaults[j].0) {
      assert Same(before, earlier, tenant, defaults[j].0) && Same(earlier, after, tenant, defaults[j].0);
    }
    forall t, w | t != tenant || !Names(defaults, w) ensures Same(before, after, t, w) {
      assert Same(before, earlier, t, w) && Same(earlier, after, t, w);
    }
  }

  lemma SkippedOne(before: seq<Row>, rows: seq<Row>, tenant: int, defaults: Defaults, n: nat, seeded: nat)
    requires n < |defaults| && SeededSoFar(before, rows, tenant, defaults, n, seeded)
    requires CountOf(rows, tenant, defaults[n].0) > 0
    ensures SeededSoFar(before, rows, tenant, defaults, n + 1, seeded)
  {
    assert Same(before, rows, tenant, defaults[n].0);
    SamePairsSameCount(before, rows, tenant, defaults[n].0);
  }

  lemma NothingYet(rows: seq<Row>, defaults: Defaults)
    ensures Backfilled(rows, rows, [], defaults)
  {
  }

  lemma TenantDone(
      before: seq<Row>, earlier: seq<Row>, after: seq<Row>, tenants: seq<int>, n: nat, defaults: Defaults)
    requires n < |tenants| && DistinctTenants(tenants)
    requires Backfilled(before, earlier, tenants[..n], defaults)
    requires earlier <= after && Progress(earlier, after, tenants[n], defaults, |defaults|)
    ensures Backfilled(before, after, tenants[..n + 1], defaults)
  {
    var tenant, done := tenants[n], tenants[..n];
    assert tenants[..n + 1] == done + [tenant];
    assert tenant !in done;
    forall t, j | t in tenants[..n + 1] && 0 <= j < |defaults|
      ensures Filled(before, after, t, defaults[j].0, defaults[j].1)
    {
      if t == tenant {
        assert Same(before, earlier, t, defaults[j].0);
        SamePairsSameCount(before, earlier, t, defaults[j].0);
        assert Filled(earlier, after, t, defaults[j].0, defaults[j].1);
      } else {
        assert Same(earlier, after, t, defaults[j].0);
        assert Filled(before, earlier, t, defaults[j].0, defaults[j].1);
      }
    }
    forall t, w | t !in tenants[..n + 1] || !Names(defaults, w) ensures Same(before, after, t, w) {
      assert Same(before, earlier, t, w) && Same(earlier, after, t, w);
    }
  }

  // ---------------------------------------------------------------- the migration

  class Migration {
    var rows: seq<Row>

    constructor (rows: seq<Row>)
      ensures this.rows == rows
    {
      this.rows := rows;
    }

    /** A new `uuid4`. */
    method FreshId() returns (id: nat)
    {
      id :| true;
    }

    /** The innermost loop: one INSERT for each default state. */
    method InsertStates(tenant: int, workflow: string, states: seq<Default>)
      modifies this
      ensures old(rows) <= rows && |rows| == |old(rows)| + |states|
      ensures Inserted(old(rows), rows, tenant, workflow, states)
    {
      for n := 0 to |states|
        invariant old(rows) <= rows && |rows| == |old(rows)| + n
        invariant Inserted(old(rows), rows, tenant, workflow, states[..n])
      {
        var id := FreshId();
        var r := Row(id, tenant, workflow, states[n]);
        OneMoreRow(rows, r, tenant, workflow);
        forall t, w | t != tenant || w != workflow ensures Same(old(rows), rows + [r], t, w) {
          assert Same(old(rows), rows, t, w);
          OneMoreRow(rows, r, t, w);
        }
        assert states[..n + 1] == states[..n] + [states[n]];
        rows := rows + [r];
      }
      assert states[..|states|] == states;
    }

    /** One tenant's turn of the outer loop. */
    method SeedTenant(tenant: int, defaults: Defaults) returns (seeded: nat)
      requires DistinctKeys(defaults)
      modifies this
      ensures old(rows) <= rows
      ensures Progress(old(rows), rows, tenant, defaults, |defaults|)
      ensures seeded == Missing(old(rows), tenant, defaults, |defaults|)
    {
      seeded := 0;
      for n := 0 to |defaults|
        invariant SeededSoFar(old(rows), rows, tenant, defaults, n, seeded)
      {
        var existing := CountOf(rows, tenant, defaults[n].0);
        if existing > 0 {
          SkippedOne(old(rows), rows, tenant, defaults, n, seeded);
          continue;
        }
        ghost var earlier := rows;
        InsertStates(tenant, defaults[n].0, defaults[n].1);
        SeededOne(old(rows), earlier, rows, tenant, defaults, n, seeded);
        seeded := seeded + 1;
      }
    }

    /** `upgrade` */
    method Upgrade(tenants: seq<int>, defaults: Defaults) returns (seeded: nat)
      requires DistinctTenants(tenants) && DistinctKeys(defaults)
      modifies this
      ensures Backfilled(old(rows), rows, tenants, defaults)
      ensures seeded == AllMissing(old(rows), tenants, defaults)
    {
      seeded := 0;
      NothingYet(rows, defaults);
      if tenants == [] { return; }
      for n := 0 to |tenants|
        invariant Backfilled(old(rows), rows, tenants[..n], defaults)
        invariant seeded == AllMissing(old(rows), tenants[..n], defaults)
      {
        ghost var earlier := rows;
        var more := SeedTenant(tenants[n], defaults);
        TenantDone(old(rows), earlier, rows, tenants, n, defaults);
        assert tenants[..n + 1][..n] == tenants[..n] && tenants[n] !in tenants[..n];
        SameMissing(old(rows), earlier, tenants[n], defaults, |defaults|);
        seeded := seeded + more;
      }
      assert tenants[..|tenants|] == tenants;
    }
  }

  // ---------------------------------------------------------------- running it again

  lemma GrewSomewhere(before: seq<Row>, after: seq<Row>)
    requires before <= after && |before| < |after|
    ensures !Same(before, after, after[|before|].tenant, after[|before|].workflow)
  {
    var r := after[|before|];
    assert after[..|before|] == before && after[..|before| + 1] == before + [r];
    OneMoreRow(before, r, r.tenant, r.workflow);
    StatesGrow(before + [r], after, r.tenant, r.workflow);
  }

  /** A table that grew without any pair gaining a state did not grow. */
  lemma NothingInserted(before: seq<Row>, after: seq<Row>)
    requires before <= after && forall t, w :: Same(before, after, t, w)
    ensures after == before
  {
    if |before| < |after| { GrewSomewhere(before, after); }
  }

  lemma {:induction false} StatesGrow(before: seq<Row>, after: seq<Row>, tenant: int, workflow: string)
    requires before <= after
    ensures |StatesOf(before, tenant, workflow)| <= |StatesOf(after, tenant, workflow)|
    decreases |after|
  {
    if |before| < |after| {
      StatesGrow(before, after[..|after| - 1], tenant, workflow);
    } else {
      assert before == after;
    }
  }

  /** A second run inserts nothing, whatever the table and the defaults. */
  lemma SecondRunInsertsNothing(
      first: seq<Row>, second: seq<Row>, third: seq<Row>, tenants: seq<int>, defaults: Defaults)
    requires Backfilled(first, second, tenants, defaults) && Backfilled(second, third, tenants, defaults)
    ensures third == second
  {
    forall t, w ensures Same(second, third, t, w) {
      if t in tenants && Names(defaults, w) {
        var j :| 0 <= j < |defaults| && defaults[j].0 == w;
        assert Filled(first, second, t, w, defaults[j].1) && Filled(second, third, t, w, defaults[j].1);
        CountIsStates(first, t, w);
        CountIsStates(second, t, w);
      }
    }
    NothingInserted(second, third);
  }
}
