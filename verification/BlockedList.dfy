/** The blocked-invoice list row by row: which invoices it holds, in which order, and what its
    limit drops. */
module BlockedList {
  import opened Wrappers
  import opened QueryAlgebra
  import opened QueryScoping
  import opened Worklists

  // ---------------------------------------------------------------- what it should hold

  function ListRow(i: Row): seq<Value> { [ValueOf(i, ID), ValueOf(i, AMOUNT), ValueOf(i, CREATED)] }

  /** One row for each vendor that is not active and that the invoice is linked to. */
  function RowsFor(i: Row, vendors: seq<Row>): seq<seq<Value>> {
    if vendors == [] then []
    else (if Held(vendors[0]) && Linked(i, vendors[0]) then [ListRow(i)] else []) + RowsFor(i, vendors[1..])
  }

  /** Those of the invoices pending approval. */
  function Blocked(invoices: seq<Row>, vendors: seq<Row>): seq<seq<Value>> {
    if invoices == [] then []
    else (if Pending(invoices[0]) then RowsFor(invoices[0], vendors) else []) + Blocked(invoices[1..], vendors)
  }

  // ---------------------------------------------------------------- what it holds

  lemma ProjectStep(cols: seq<Col>, t: Tuple, rest: seq<Tuple>)
    ensures ProjectAll(cols, [t] + rest) == [Values(cols, t)] + ProjectAll(cols, rest)
  {
    assert ([t] + rest)[1..] == rest;
  }

  lemma {:induction false} ProjectJoined(cols: seq<Col>, x: seq<Tuple>, y: seq<Tuple>)
    ensures ProjectAll(cols, x + y) == ProjectAll(cols, x) + ProjectAll(cols, y)
  {
    if x == [] {
      assert x + y == y;
    } else {
      ProjectJoined(cols, x[1..], y);
      assert x == [x[0]] + x[1..] && x + y == [x[0]] + (x[1..] + y);
      ProjectStep(cols, x[0], x[1..] + y);
      ProjectStep(cols, x[0], x[1..]);
    }
  }

  lemma PairedRow(i: Row, v: Row)
    ensures Values(ListCols(), Bind(I, i) + Bind(V, v)) == ListRow(i)
  {
    PairedCells(i, v, ID);
    PairedCells(i, v, AMOUNT);
    PairedCells(i, v, CREATED);
  }

  lemma OneVendor(i: Row, v: Row, rest: seq<Tuple>)
    ensures
      var t := Bind(I, i) + Bind(V, v);
      ProjectAll(ListCols(), Filter(BlockedCond(), (if Holds(OnInvoice(), t) then [t] else []) + rest)) ==
        (if Pending(i) && Held(v) && Linked(i, v) then [ListRow(i)] else []) +
        ProjectAll(ListCols(), Filter(BlockedCond(), rest))
  {
    var t := Bind(I, i) + Bind(V, v);
    OnInvoiceHolds(i, v);
    BlockedHolds(i, v);
    PairedRow(i, v);
    FilterStep(BlockedCond(), t, rest);
    ProjectStep(ListCols(), t, Filter(BlockedCond(), rest));
    assert [] + rest == rest && [] + Filter(BlockedCond(), rest) == Filter(BlockedCond(), rest);
  }

  lemma {:induction false} OneInvoice(i: Row, vendors: seq<Row>)
    ensures ProjectAll(ListCols(), Filter(BlockedCond(), Pairs(Bind(I, i), BindAll(V, vendors), OnInvoice()))) ==
      if Pending(i) then RowsFor(i, vendors) else []
  {
    if vendors != [] {
      var v, rest := vendors[0], vendors[1..];
      OneInvoice(i, rest);
      BindAllStep(V, v, rest);
      assert vendors == [v] + rest;
      PairsStep(Bind(I, i), Bind(V, v), BindAll(V, rest), OnInvoice());
      OneVendor(i, v, Pairs(Bind(I, i), BindAll(V, rest), OnInvoice()));
    } else {
      assert Pairs(Bind(I, i), BindAll(V, vendors), OnInvoice()) == [];
    }
  }

  lemma {:induction false} JoinedRows(invoices: seq<Row>, vendors: seq<Row>)
    ensures
      ProjectAll(ListCols(),
        Filter(BlockedCond(), JoinAll(BindAll(I, invoices), BindAll(V, vendors), OnInvoice(), false))) ==
      Blocked(invoices, vendors)
  {
    if invoices != [] {
      var i, rest := invoices[0], invoices[1..];
      JoinedRows(rest, vendors);
      OneInvoice(i, vendors);
      BindAllStep(I, i, rest);
      assert invoices == [i] + rest;
      var pairs := Pairs(Bind(I, i), BindAll(V, vendors), OnInvoice());
      var others := JoinAll(BindAll(I, rest), BindAll(V, vendors), OnInvoice(), false);
      JoinStep(Bind(I, i), BindAll(I, rest), BindAll(V, vendors), OnInvoice(), false);
      FilterJoined(BlockedCond(), pairs, others);
      ProjectJoined(ListCols(), Filter(BlockedCond(), pairs), Filter(BlockedCond(), others));
    } else {
      assert JoinAll(BindAll(I, invoices), BindAll(V, vendors), OnInvoice(), false) == [];
    }
  }

  lemma ListEvaluated(db: Database, limit: Option<nat>)
    ensures BlockedInvoices(db, limit) == Limit(Sort(Blocked(Rows(db, INVOICE), Rows(db, VENDOR)), NewestFirst), limit)
  {
    var joined := JoinAll(BindAll(I, Rows(db, INVOICE)), BindAll(V, Rows(db, VENDOR)), OnInvoice(), false);
    JoinEvaluated(Of(Entity(I, INVOICE)), Entity(V, VENDOR), OnInvoice(), false, db);
    ScanEvaluated(I, INVOICE, db);
    assert EvalSource(Entity(V, VENDOR), db) == BindAll(V, Rows(db, VENDOR));
    assert EvalFrom(BlockedInvoicesQuery(limit).from, db) == joined;
    JoinedRows(Rows(db, INVOICE), Rows(db, VENDOR));
  }

  // ---------------------------------------------------------------- order

  /** Created at the same time or later; a missing time counts as zero. */
  predicate NotOlder(a: seq<Value>, b: seq<Value>) { Cell(a, 2) >= Cell(b, 2) }

  ghost predicate Newest(rows: seq<seq<Value>>) {
    forall i, j | 0 <= i < j < |rows| :: NotOlder(rows[i], rows[j])
  }

  lemma {:induction false} InsertHolds(row: seq<Value>, rows: seq<seq<Value>>)
    ensures multiset(Insert(row, rows, NewestFirst)) == multiset(rows) + multiset{row}
  {
    if rows != [] && !NewestFirst(row, rows[0]) {
      InsertHolds(row, rows[1..]);
      assert rows == [rows[0]] + rows[1..];
    }
  }

  lemma LedByNewest(x: seq<Value>, rest: seq<seq<Value>>)
    requires Newest(rest) && forall r | r in rest :: NotOlder(x, r)
    ensures Newest([x] + rest)
  {
  }

  lemma FirstIsNewest(rows: seq<seq<Value>>)
    requires Newest(rows) && rows != []
    ensures Newest(rows[1..]) && forall r | r in rows :: NotOlder(rows[0], r)
  {
    forall r | r in rows ensures NotOlder(rows[0], r) {
      var k :| 0 <= k < |rows| && rows[k] == r;
    }
  }

  lemma {:induction false} InsertKeepsNewest(row: seq<Value>, rows: seq<seq<Value>>)
    requires Newest(rows)
    ensures var all := Insert(row, rows, NewestFirst); Newest(all) && forall r | r in all :: r == row || r in rows
  {
    if rows == [] {
    } else {
      FirstIsNewest(rows);
      if NewestFirst(row, rows[0]) {
        LedByNewest(row, rows);
      } else {
        InsertKeepsNewest(row, rows[1..]);
        LedByNewest(rows[0], Insert(row, rows[1..], NewestFirst));
      }
    }
  }

  lemma {:induction false} SortIsNewest(rows: seq<seq<Value>>)
    ensures Newest(Sort(rows, NewestFirst)) && multiset(Sort(rows, NewestFirst)) == multiset(rows)
  {
    if rows != [] {
      SortIsNewest(rows[1..]);
      InsertKeepsNewest(rows[0], Sort(rows[1..], NewestFirst));
      InsertHolds(rows[0], Sort(rows[1..], NewestFirst));
      assert rows == [rows[0]] + rows[1..];
    }
  }

  /** The list holds exactly the blocked invoices, newest first; a limit keeps its head, and no
      invoice it drops is newer than one it keeps. */
  lemma ListIsBlocked(db: Database, n: nat)
    ensures
      var all, kept := BlockedInvoices(db, None), BlockedInvoices(db, Some(n));
      && multiset(all) == multiset(Blocked(Rows(db, INVOICE), Rows(db, VENDOR)))
      && Newest(all)
      && |kept| == (if n < |all| then n else |all|) && kept == all[..|kept|]
      && forall i, j | 0 <= i < |kept| <= j < |all| :: NotOlder(kept[i], all[j])
  {
    ListEvaluated(db, None);
    ListEvaluated(db, Some(n));
    SortIsNewest(Blocked(Rows(db, INVOICE), Rows(db, VENDOR)));
  }

  /** The same of the rewritten query in any session, of the rows it may see. */
  lemma ListIsBlockedInSession(info: SessionInfo, reg: Registry, db: Database, n: nat)
    ensures
      var all, kept := ListIn(info, reg, db, None), ListIn(info, reg, db, Some(n));
      && multiset(all) == multiset(Blocked(
           VisibleRows(info, reg, INVOICE, Rows(db, INVOICE)), VisibleRows(info, reg, VENDOR, Rows(db, VENDOR))))
      && Newest(all)
      && |kept| == (if n < |all| then n else |all|) && kept == all[..|kept|]
      && forall i, j | 0 <= i < |kept| <= j < |all| :: NotOlder(kept[i], all[j])
  {
    SessionAsksVisible(info, reg, db, None);
    SessionAsksVisible(info, reg, db, Some(n));
    ListIsBlocked(VisibleDatabase(info, reg, db), n);
    VisibleRowsOf(info, reg, VENDOR, db);
    VisibleRowsOf(info, reg, INVOICE, db);
  }
}
