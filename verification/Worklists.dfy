/** The reviewer's two worklists: vendors not yet active with what they hold up, and the
    invoices held up. Both are queries, and they must tell the same story. */
module Worklists {
  import opened Wrappers
  import opened QueryAlgebra
  import opened QueryScoping

  const VENDOR: Model := 0
  const INVOICE: Model := 1

  const V: Alias := 0
  const I: Alias := 1
  const B: Alias := 2

  const ID := Attr(0)
  const NAME := Attr(1)
  const STATUS := Attr(2)

  const VENDOR_ID := Attr(1)
  const AMOUNT := Attr(2)
  const STATE := Attr(3)
  const CREATED := Attr(4)

  const ACTIVE := 0
  const PENDING_APPROVAL := 2

  // ---------------------------------------------------------------- the queries

  /** SQL `=` between two columns. */
  function SameTruth(vs: seq<Value>): Truth {
    if |vs| < 2 || vs[0].Null? || vs[1].Null? then Unknown else if vs[0] == vs[1] then True else False
  }

  /** Nothing is known about a comparison with null. */
  lemma SameOfTwo(x: Value, y: Value)
    ensures SameTruth([x, y]) == if x == Null || y == Null then Unknown else if x == y then True else False
  {
  }

  function Same(a: Col, b: Col): Cond { Test([a, b], SameTruth) }

  function NotActive(): Cond { Not(Equals(Col(V, STATUS), ACTIVE)) }

  function IsPending(): Cond { Equals(Col(I, STATE), PENDING_APPROVAL) }

  /** `coalesce(value, 0)` */
  function OrZero(v: Value): int { match v case Null => 0 case Num(n) => n }

  function Cell(row: seq<Value>, k: nat): int { if k < |row| then OrZero(row[k]) else 0 }

  function AnyOrder(a: seq<Value>, b: seq<Value>): bool { true }

  /** By blocked total, largest first, then by name. */
  function HeaviestFirst(a: seq<Value>, b: seq<Value>): bool {
    Cell(a, 3) > Cell(b, 3) || (Cell(a, 3) == Cell(b, 3) && Cell(a, 1) <= Cell(b, 1))
  }

  function NewestFirst(a: seq<Value>, b: seq<Value>): bool { Cell(a, 2) >= Cell(b, 2) }

  function BlockedByVendor(): Query {
    Select(Of(Entity(I, INVOICE)), IsPending(),
      GroupBy([Col(I, VENDOR_ID)], [Count, Sum(Col(I, AMOUNT))]), AnyOrder, None)
  }

  function QueueCols(): seq<Col> { [Col(V, ID), Col(V, NAME), Col(B, Attr(1)), Col(B, Attr(2))] }

  /** `get_review_queue` */
  function ReviewQueueQuery(limit: Option<nat>): Query {
    Select(Join(Of(Entity(V, VENDOR)), Derived(B, BlockedByVendor()), Same(Col(B, Attr(0)), Col(V, ID)), true),
      NotActive(), Project(QueueCols()), HeaviestFirst, limit)
  }

  function ListCols(): seq<Col> { [Col(I, ID), Col(I, AMOUNT), Col(I, CREATED)] }

  /** `get_blocked_on_vendor_verification` */
  function BlockedInvoicesQuery(limit: Option<nat>): Query {
    Select(Join(Of(Entity(I, INVOICE)), Entity(V, VENDOR), Same(Col(I, VENDOR_ID), Col(V, ID)), false),
      And(IsPending(), NotActive()), Project(ListCols()), NewestFirst, limit)
  }

  datatype Entry = Entry(vendor: Value, name: Value, count: int, total: int)

  function EntryOf(row: seq<Value>): Entry {
    if |row| < 4 then Entry(Null, Null, 0, 0) else Entry(row[0], row[1], OrZero(row[2]), OrZero(row[3]))
  }

  function EntriesOf(rows: seq<seq<Value>>): (es: seq<Entry>)
    ensures |es| == |rows| && forall j | 0 <= j < |rows| :: es[j] == EntryOf(rows[j])
  {
    seq(|rows|, j requires 0 <= j < |rows| => EntryOf(rows[j]))
  }

  // ---------------------------------------------------------------- what they should say

  /** Counting an invoice, or adding its amount. */
  datatype Measure = Each | Amount

  predicate Held(v: Row) { ValueOf(v, STATUS).Num? && ValueOf(v, STATUS).n != ACTIVE }

  predicate Pending(i: Row) { ValueOf(i, STATE) == Num(PENDING_APPROVAL) }

  predicate Linked(i: Row, v: Row) { ValueOf(v, ID).Num? && ValueOf(i, VENDOR_ID) == ValueOf(v, ID) }

  function Weigh(m: Measure, i: Row): int { if m.Each? then 1 else OrZero(ValueOf(i, AMOUNT)) }

  /** Over the pending invoices linked to `v`. */
  function HeldUpBy(m: Measure, invoices: seq<Row>, v: Row): int {
    if invoices == [] then 0
    else
      (if Pending(invoices[0]) && Linked(invoices[0], v) then Weigh(m, invoices[0]) else 0) +
      HeldUpBy(m, invoices[1..], v)
  }

  /** One entry for each vendor that is not active. */
  function Worklist(vendors: seq<Row>, invoices: seq<Row>): seq<Entry> {
    if vendors == [] then []
    else
      var v := vendors[0];
      (if Held(v) then
         [Entry(ValueOf(v, ID), ValueOf(v, NAME), HeldUpBy(Each, invoices, v), HeldUpBy(Amount, invoices, v))]
       else []) + Worklist(vendors[1..], invoices)
  }

  // ---------------------------------------------------------------- groups

  function TupleWeight(m: Measure, t: Tuple): int { if m.Each? then 1 else OrZero(Get(t, Col(I, AMOUNT))) }

  /** Over the tuples whose vendor is `x`. */
  function KeyWeight(m: Measure, ts: seq<Tuple>, x: Value): int {
    if ts == [] then 0
    else (if Get(ts[0], Col(I, VENDOR_ID)) == x then TupleWeight(m, ts[0]) else 0) + KeyWeight(m, ts[1..], x)
  }

  function Key(x: Value): seq<Value> { [x] }

  lemma ValuesOfKey(t: Tuple)
    ensures Values([Col(I, VENDOR_ID)], t) == Key(Get(t, Col(I, VENDOR_ID)))
  {
  }

  lemma {:induction false} MembersWeigh(ts: seq<Tuple>, x: Value)
    ensures var ms := Members([Col(I, VENDOR_ID)], Key(x), ts);
      |ms| == KeyWeight(Each, ts, x) && OrZero(SumOf(Col(I, AMOUNT), ms)) == KeyWeight(Amount, ts, x)
  {
    if ts != [] {
      MembersWeigh(ts[1..], x);
      ValuesOfKey(ts[0]);
      assert Key(Get(ts[0], Col(I, VENDOR_ID)))[0] == Get(ts[0], Col(I, VENDOR_ID));
      var rest := Members([Col(I, VENDOR_ID)], Key(x), ts[1..]);
      assert ([ts[0]] + rest)[1..] == rest && [] + rest == rest;
    }
  }

  lemma {:induction false} OthersWeigh(m: Measure, ts: seq<Tuple>, x: Value, y: Value)
    ensures KeyWeight(m, Others([Col(I, VENDOR_ID)], Key(x), ts), y) == if x == y then 0 else KeyWeight(m, ts, y)
  {
    if ts != [] {
      OthersWeigh(m, ts[1..], x, y);
      ValuesOfKey(ts[0]);
      assert Key(Get(ts[0], Col(I, VENDOR_ID)))[0] == Get(ts[0], Col(I, VENDOR_ID));
      var rest := Others([Col(I, VENDOR_ID)], Key(x), ts[1..]);
      assert ([ts[0]] + rest)[1..] == rest && [] + rest == rest;
    }
  }

  lemma {:induction false} WeightsAreCounts(ts: seq<Tuple>, x: Value)
    ensures KeyWeight(Each, ts, x) >= 0
    ensures KeyWeight(Each, ts, x) == 0 ==> KeyWeight(Amount, ts, x) == 0
  {
    if ts != [] { WeightsAreCounts(ts[1..], x); }
  }

  function GroupTuples(ts: seq<Tuple>): seq<Tuple> {
    BindAll(B, NameAll(Groups([Col(I, VENDOR_ID)], [Count, Sum(Col(I, AMOUNT))], ts)))
  }

  function OnVendor(): Cond { Same(Col(B, Attr(0)), Col(V, ID)) }

  /** The tuple of one group. */
  function GroupTuple(x: Value, members: seq<Tuple>): Tuple {
    Bind(B, NameOutputs([x] + AggregateRow([Count, Sum(Col(I, AMOUNT))], members)))
  }

  lemma GroupTupleCells(x: Value, members: seq<Tuple>)
    ensures var g := GroupTuple(x, members);
      && Get(g, Col(B, Attr(0))) == x
      && Get(g, Col(B, Attr(1))) == Num(|members|)
      && Get(g, Col(B, Attr(2))) == SumOf(Col(I, AMOUNT), members)
      && forall c | c in g :: c.alias == B
  {
    var row := [x] + AggregateRow([Count, Sum(Col(I, AMOUNT))], members);
    assert |row| == 3 && row[0] == x && row[1] == Num(|members|) && row[2] == SumOf(Col(I, AMOUNT), members);
    var named := NameOutputs(row);
    assert Attr(0) in named && Attr(1) in named && Attr(2) in named;
  }

  lemma GroupTuplesStep(ts: seq<Tuple>)
    requires ts != []
    ensures
      var x := Get(ts[0], Col(I, VENDOR_ID));
      GroupTuples(ts) ==
        [GroupTuple(x, Members([Col(I, VENDOR_ID)], Key(x), ts))] +
        GroupTuples(Others([Col(I, VENDOR_ID)], Key(x), ts[1..]))
  {
    ValuesOfKey(ts[0]);
    var keys, aggregates := [Col(I, VENDOR_ID)], [Count, Sum(Col(I, AMOUNT))];
    var key := Key(Get(ts[0], Col(I, VENDOR_ID)));
    var first := key + AggregateRow(aggregates, Members(keys, key, ts));
    var rest := Groups(keys, aggregates, Others(keys, key, ts[1..]));
    assert Groups(keys, aggregates, ts) == [first] + rest;
    NameAllStep(first, rest);
    BindAllStep(B, NameOutputs(first), NameAll(rest));
  }

  lemma NameAllStep(row: seq<Value>, rest: seq<seq<Value>>)
    ensures NameAll([row] + rest) == [NameOutputs(row)] + NameAll(rest)
  {
    assert ([row] + rest)[1..] == rest;
  }

  // ---------------------------------------------------------------- one vendor's row

  /** The joined tuple `t` is vendor `v` with what the tuples `ts` hold against it. */
  ghost predicate Annotated(t: Tuple, v: Row, ts: seq<Tuple>) {
    && (forall f :: Get(t, Col(V, f)) == ValueOf(v, f))
    && OrZero(Get(t, Col(B, Attr(1)))) == Charged(Each, v, ts)
    && OrZero(Get(t, Col(B, Attr(2)))) == Charged(Amount, v, ts)
  }

  function Charged(m: Measure, v: Row, ts: seq<Tuple>): int {
    if ValueOf(v, ID).Null? then 0 else KeyWeight(m, ts, ValueOf(v, ID))
  }

  lemma BoundCells(a: Alias, row: Row, c: Col)
    ensures Get(Bind(a, row), c) == if c.alias == a then ValueOf(row, c.field) else Null
  {
  }

  lemma OnVendorHolds(v: Row, x: Value, members: seq<Tuple>)
    ensures Holds(OnVendor(), Bind(V, v) + GroupTuple(x, members)) <==> x.Num? && x == ValueOf(v, ID)
  {
    var t := Bind(V, v) + GroupTuple(x, members);
    GroupTupleCells(x, members);
    BoundCells(V, v, Col(V, ID));
    assert Get(t, Col(B, Attr(0))) == x;
    assert Get(t, Col(V, ID)) == ValueOf(v, ID);
    var cols := [Col(B, Attr(0)), Col(V, ID)];
    var values := seq(|cols|, j requires 0 <= j < |cols| => Get(t, cols[j]));
    assert values[0] == x && values[1] == ValueOf(v, ID);
  }

  /** The vendor pairs with the one group of its invoices, if it has any. */
  lemma {:induction false} GroupsPair(v: Row, ts: seq<Tuple>)
    ensures var ps := Pairs(Bind(V, v), GroupTuples(ts), OnVendor());
      if Charged(Each, v, ts) == 0 then ps == [] else |ps| == 1 && Annotated(ps[0], v, ts)
    decreases |ts|
  {
    if ts != [] {
      var x := Get(ts[0], Col(I, VENDOR_ID));
      var keys := [Col(I, VENDOR_ID)];
      var rest := Others(keys, Key(x), ts[1..]);
      var members := Members(keys, Key(x), ts);
      GroupsPair(v, rest);
      GroupTuplesStep(ts);
      PairsStep(Bind(V, v), GroupTuple(x, members), GroupTuples(rest), OnVendor());
      OnVendorHolds(v, x, members);
      RestCharges(Each, v, ts);
      RestCharges(Amount, v, ts);
      MembersWeigh(ts, x);
      WeightsAreCounts(ts[1..], x);
      if x.Num? && x == ValueOf(v, ID) {
        PairedIsAnnotated(v, x, ts);
      }
    }
  }

  lemma RestCharges(m: Measure, v: Row, ts: seq<Tuple>)
    requires ts != []
    ensures
      var x := Get(ts[0], Col(I, VENDOR_ID));
      Charged(m, v, Others([Col(I, VENDOR_ID)], Key(x), ts[1..])) ==
        if x.Num? && x == ValueOf(v, ID) then 0 else Charged(m, v, ts)
  {
    var x := Get(ts[0], Col(I, VENDOR_ID));
    OthersWeigh(m, ts[1..], x, ValueOf(v, ID));
  }

  lemma PairedIsAnnotated(v: Row, x: Value, ts: seq<Tuple>)
    requires x.Num? && x == ValueOf(v, ID)
    ensures Annotated(Bind(V, v) + GroupTuple(x, Members([Col(I, VENDOR_ID)], Key(x), ts)), v, ts)
  {
    var members := Members([Col(I, VENDOR_ID)], Key(x), ts);
    var t := Bind(V, v) + GroupTuple(x, members);
    GroupTupleCells(x, members);
    MembersWeigh(ts, x);
    forall f ensures Get(t, Col(V, f)) == ValueOf(v, f) {
      BoundCells(V, v, Col(V, f));
      assert Col(V, f) !in GroupTuple(x, members);
    }
    assert Get(t, Col(B, Attr(1))) == Num(|members|);
    assert Get(t, Col(B, Attr(2))) == SumOf(Col(I, AMOUNT), members);
  }

  /** The outer join keeps every vendor, once. */
  lemma VendorAppearsOnce(v: Row, ts: seq<Tuple>)
    ensures var js := JoinOne(Bind(V, v), GroupTuples(ts), OnVendor(), true);
      |js| == 1 && Annotated(js[0], v, ts)
  {
    GroupsPair(v, ts);
    WeightsAreCounts(ts, ValueOf(v, ID));
    forall c ensures Get(Bind(V, v), c) == if c.alias == V then ValueOf(v, c.field) else Null {
      BoundCells(V, v, c);
    }
  }

  // ---------------------------------------------------------------- the queue's rows

  lemma NotActiveHolds(t: Tuple, v: Row)
    requires Get(t, Col(V, STATUS)) == ValueOf(v, STATUS)
    ensures Holds(NotActive(), t) <==> Held(v)
  {
    var isActive := Eval(Equals(Col(V, STATUS), ACTIVE), t);
    assert Eval(NotActive(), t) == match isActive case True => False case False => True case Unknown => Unknown;
  }

  function Charges(vendors: seq<Row>, ts: seq<Tuple>): seq<Entry> {
    if vendors == [] then []
    else
      var v := vendors[0];
      (if Held(v) then [Entry(ValueOf(v, ID), ValueOf(v, NAME), Charged(Each, v, ts), Charged(Amount, v, ts))] else []) +
      Charges(vendors[1..], ts)
  }

  function QueueTuples(vendors: seq<Row>, ts: seq<Tuple>): seq<Tuple> {
    Filter(NotActive(), JoinAll(BindAll(V, vendors), GroupTuples(ts), OnVendor(), true))
  }

  function VendorTuple(v: Row, ts: seq<Tuple>): (t: Tuple)
    ensures Annotated(t, v, ts)
  {
    VendorAppearsOnce(v, ts);
    JoinOne(Bind(V, v), GroupTuples(ts), OnVendor(), true)[0]
  }

  lemma QueueTuplesStep(v: Row, rest: seq<Row>, ts: seq<Tuple>)
    ensures QueueTuples([v] + rest, ts) == (if Held(v) then [VendorTuple(v, ts)] else []) + QueueTuples(rest, ts)
  {
    var t := VendorTuple(v, ts);
    VendorAppearsOnce(v, ts);
    BindAllStep(V, v, rest);
    var bound := [Bind(V, v)] + BindAll(V, rest);
    assert bound[1..] == BindAll(V, rest);
    assert JoinOne(Bind(V, v), GroupTuples(ts), OnVendor(), true) == [t];
    FilterStep(NotActive(), t, JoinAll(BindAll(V, rest), GroupTuples(ts), OnVendor(), true));
    NotActiveHolds(t, v);
  }

  lemma {:induction false} QueueRows(vendors: seq<Row>, ts: seq<Tuple>)
    ensures EntriesOf(ProjectAll(QueueCols(), QueueTuples(vendors, ts))) == Charges(vendors, ts)
  {
    if vendors != [] {
      var v, rest := vendors[0], vendors[1..];
      QueueRows(rest, ts);
      QueueTuplesStep(v, rest, ts);
      assert vendors == [v] + rest;
      if Held(v) { RowEntry(VendorTuple(v, ts), v, ts, QueueTuples(rest, ts)); }
      else { assert [] + QueueTuples(rest, ts) == QueueTuples(rest, ts); }
    }
  }

  lemma RowEntry(t: Tuple, v: Row, ts: seq<Tuple>, rest: seq<Tuple>)
    requires Annotated(t, v, ts)
    ensures EntriesOf(ProjectAll(QueueCols(), [t] + rest)) ==
      [Entry(ValueOf(v, ID), ValueOf(v, NAME), Charged(Each, v, ts), Charged(Amount, v, ts))] +
      EntriesOf(ProjectAll(QueueCols(), rest))
  {
    assert ([t] + rest)[1..] == rest;
    var row := Values(QueueCols(), t);
    assert |row| == 4 && row[0] == Get(t, Col(V, ID)) && row[1] == Get(t, Col(V, NAME));
    assert row[2] == Get(t, Col(B, Attr(1))) && row[3] == Get(t, Col(B, Attr(2)));
  }

  // ---------------------------------------------------------------- from tuples back to rows

  function PendingTuples(invoices: seq<Row>): seq<Tuple> { Filter(IsPending(), BindAll(I, invoices)) }

  lemma PendingHolds(i: Row)
    ensures Holds(IsPending(), Bind(I, i)) <==> Pending(i)
  {
    BoundCells(I, i, Col(I, STATE));
  }

  lemma {:induction false} ChargedIsHeldUp(m: Measure, v: Row, invoices: seq<Row>)
    ensures Charged(m, v, PendingTuples(invoices)) == HeldUpBy(m, invoices, v)
  {
    if invoices != [] {
      var i, rest := invoices[0], invoices[1..];
      ChargedIsHeldUp(m, v, rest);
      assert BindAll(I, invoices) == [Bind(I, i)] + BindAll(I, rest);
      FilterStep(IsPending(), Bind(I, i), BindAll(I, rest));
      PendingHolds(i);
      BoundCells(I, i, Col(I, VENDOR_ID));
      BoundCells(I, i, Col(I, AMOUNT));
      assert ([Bind(I, i)] + PendingTuples(rest))[1..] == PendingTuples(rest);
      assert [] + PendingTuples(rest) == PendingTuples(rest);
    } else {
      assert PendingTuples(invoices) == [];
    }
  }

  lemma {:induction false} ChargesAreWorklist(vendors: seq<Row>, invoices: seq<Row>)
    ensures Charges(vendors, PendingTuples(invoices)) == Worklist(vendors, invoices)
  {
    if vendors != [] {
      ChargesAreWorklist(vendors[1..], invoices);
      ChargedIsHeldUp(Each, vendors[0], invoices);
      ChargedIsHeldUp(Amount, vendors[0], invoices);
    }
  }

  // ---------------------------------------------------------------- the queue

  function ReviewQueue(db: Database, limit: Option<nat>): seq<Entry> {
    EntriesOf(EvalQuery(ReviewQueueQuery(limit), db))
  }

  lemma {:induction false} AnyOrderKeepsOrder(rows: seq<seq<Value>>)
    ensures Sort(rows, AnyOrder) == rows
  {
    if rows != [] { AnyOrderKeepsOrder(rows[1..]); }
  }

  function UnsortedQueue(db: Database): seq<seq<Value>> {
    ProjectAll(QueueCols(), QueueTuples(Rows(db, VENDOR), PendingTuples(Rows(db, INVOICE))))
  }

  lemma BlockedEvaluated(db: Database)
    ensures EvalQuery(BlockedByVendor(), db) ==
      Groups([Col(I, VENDOR_ID)], [Count, Sum(Col(I, AMOUNT))], PendingTuples(Rows(db, INVOICE)))
  {
    var q := BlockedByVendor();
    assert EvalFrom(q.from, db) == BindAll(I, Rows(db, INVOICE));
    var groups := Groups([Col(I, VENDOR_ID)], [Count, Sum(Col(I, AMOUNT))], PendingTuples(Rows(db, INVOICE)));
    assert Produce(q.output, PendingTuples(Rows(db, INVOICE))) == groups;
    AnyOrderKeepsOrder(groups);
  }

  lemma GroupsEvaluated(db: Database)
    ensures EvalSource(Derived(B, BlockedByVendor()), db) == GroupTuples(PendingTuples(Rows(db, INVOICE)))
  {
    BlockedEvaluated(db);
  }

  lemma ScanEvaluated(a: Alias, m: Model, db: Database)
    ensures EvalFrom(Of(Entity(a, m)), db) == BindAll(a, Rows(db, m))
  {
  }

  lemma JoinEvaluated(l: From, r: Source, on: Cond, outer: bool, db: Database)
    ensures EvalFrom(Join(l, r, on, outer), db) == JoinAll(EvalFrom(l, db), EvalSource(r, db), on, outer)
  {
  }

  lemma QueueEvaluated(db: Database, limit: Option<nat>)
    ensures EvalQuery(ReviewQueueQuery(limit), db) == Limit(Sort(UnsortedQueue(db), HeaviestFirst), limit)
  {
    GroupsEvaluated(db);
    var q := ReviewQueueQuery(limit);
    JoinEvaluated(Of(Entity(V, VENDOR)), Derived(B, BlockedByVendor()), OnVendor(), true, db);
    ScanEvaluated(V, VENDOR, db);
    assert EvalFrom(q.from, db) ==
      JoinAll(BindAll(V, Rows(db, VENDOR)), GroupTuples(PendingTuples(Rows(db, INVOICE))), OnVendor(), true);
  }

  lemma UnsortedIsWorklist(db: Database)
    ensures EntriesOf(UnsortedQueue(db)) == Worklist(Rows(db, VENDOR), Rows(db, INVOICE))
  {
    QueueRows(Rows(db, VENDOR), PendingTuples(Rows(db, INVOICE)));
    ChargesAreWorklist(Rows(db, VENDOR), Rows(db, INVOICE));
  }

  lemma EntriesStep(row: seq<Value>, rest: seq<seq<Value>>)
    ensures EntriesOf([row] + rest) == [EntryOf(row)] + EntriesOf(rest)
  {
  }

  lemma {:induction false} InsertPermutes(row: seq<Value>, rows: seq<seq<Value>>, order: Order)
    ensures multiset(EntriesOf(Insert(row, rows, order))) == multiset{EntryOf(row)} + multiset(EntriesOf(rows))
  {
    EntriesStep(row, rows);
    if rows != [] && !order(row, rows[0]) {
      InsertPermutes(row, rows[1..], order);
      EntriesStep(rows[0], Insert(row, rows[1..], order));
      EntriesStep(rows[0], rows[1..]);
      assert rows == [rows[0]] + rows[1..];
    }
  }

  lemma {:induction false} SortPermutes(rows: seq<seq<Value>>, order: Order)
    ensures multiset(EntriesOf(Sort(rows, order))) == multiset(EntriesOf(rows))
  {
    if rows != [] {
      SortPermutes(rows[1..], order);
      InsertPermutes(rows[0], Sort(rows[1..], order), order);
      EntriesStep(rows[0], rows[1..]);
      assert rows == [rows[0]] + rows[1..];
    }
  }

  /** Without a limit the queue is the worklist, each vendor that is not active once, with the
      pending invoices linked to it counted and added up. */
  lemma QueueIsWorklist(db: Database)
    ensures multiset(ReviewQueue(db, None)) == multiset(Worklist(Rows(db, VENDOR), Rows(db, INVOICE)))
  {
    QueueEvaluated(db, None);
    UnsortedIsWorklist(db);
    SortPermutes(UnsortedQueue(db), HeaviestFirst);
  }

  // ---------------------------------------------------------------- limits

  ghost predicate Ordered(rows: seq<seq<Value>>) {
    forall i, j | 0 <= i < j < |rows| :: HeaviestFirst(rows[i], rows[j])
  }

  lemma {:induction false} InsertOrders(row: seq<Value>, rows: seq<seq<Value>>)
    requires Ordered(rows)
    ensures var all := Insert(row, rows, HeaviestFirst);
      Ordered(all) && |all| == |rows| + 1 && forall r | r in all :: r == row || r in rows
  {
    if rows != [] && !HeaviestFirst(row, rows[0]) {
      InsertOrders(row, rows[1..]);
      var rest := Insert(row, rows[1..], HeaviestFirst);
      forall j | 0 <= j < |rest| ensures HeaviestFirst(rows[0], rest[j]) {
        assert rest[j] in rest;
        if rest[j] in rows[1..] {
          var k :| 0 <= k < |rows| - 1 && rows[1..][k] == rest[j];
          assert HeaviestFirst(rows[0], rows[k + 1]);
        }
      }
    }
  }

  lemma {:induction false} SortOrders(rows: seq<seq<Value>>)
    ensures Ordered(Sort(rows, HeaviestFirst)) && |Sort(rows, HeaviestFirst)| == |rows|
    ensures forall r | r in Sort(rows, HeaviestFirst) :: r in rows
  {
    if rows != [] {
      SortOrders(rows[1..]);
      InsertOrders(rows[0], Sort(rows[1..], HeaviestFirst));
    }
  }

  lemma {:induction false} ProjectedWidth(cols: seq<Col>, ts: seq<Tuple>)
    ensures forall r | r in ProjectAll(cols, ts) :: |r| == |cols|
  {
    if ts != [] { ProjectedWidth(cols, ts[1..]); }
  }

  predicate NotLighter(a: Entry, b: Entry) {
    a.total > b.total || (a.total == b.total && OrZero(a.name) <= OrZero(b.name))
  }

  lemma QueueIsOrdered(db: Database)
    ensures var all := ReviewQueue(db, None);
      forall i, j | 0 <= i < j < |all| :: NotLighter(all[i], all[j])
  {
    QueueEvaluated(db, None);
    SortOrders(UnsortedQueue(db));
    ProjectedWidth(QueueCols(), QueueTuples(Rows(db, VENDOR), PendingTuples(Rows(db, INVOICE))));
    var rows := Sort(UnsortedQueue(db), HeaviestFirst);
    forall i, j | 0 <= i < j < |rows| ensures NotLighter(EntryOf(rows[i]), EntryOf(rows[j])) {
      assert rows[i] in rows && rows[j] in rows && HeaviestFirst(rows[i], rows[j]);
    }
  }

  /** A limit keeps the head of the unlimited queue, and no vendor it drops holds up more than
      one it keeps; among equals, names decide. */
  lemma LimitDropsTheLightest(db: Database, n: nat)
    ensures
      var all, kept := ReviewQueue(db, None), ReviewQueue(db, Some(n));
      && |kept| == (if n < |all| then n else |all|)
      && kept == all[..|kept|]
      && forall i, j | 0 <= i < |kept| <= j < |all| :: NotLighter(kept[i], all[j])
  {
    QueueEvaluated(db, None);
    QueueEvaluated(db, Some(n));
    QueueIsOrdered(db);
    EntriesOfHead(Sort(UnsortedQueue(db), HeaviestFirst), n);
  }

  lemma EntriesOfHead(rows: seq<seq<Value>>, n: nat)
    ensures n < |rows| ==> EntriesOf(rows[..n]) == EntriesOf(rows)[..n]
  {
  }

  // ---------------------------------------------------------------- conservation

  function Total(m: Measure, es: seq<Entry>): int {
    if es == [] then 0 else (if m.Each? then es[0].count else es[0].total) + Total(m, es[1..])
  }

  lemma TotalStep(m: Measure, e: Entry, rest: seq<Entry>)
    ensures Total(m, [e] + rest) == (if m.Each? then e.count else e.total) + Total(m, rest)
  {
    assert ([e] + rest)[1..] == rest;
  }

  lemma {:induction false} InsertTotals(m: Measure, row: seq<Value>, rows: seq<seq<Value>>, order: Order)
    ensures Total(m, EntriesOf(Insert(row, rows, order))) ==
      Total(m, [EntryOf(row)]) + Total(m, EntriesOf(rows))
  {
    EntriesStep(row, rows);
    TotalStep(m, EntryOf(row), EntriesOf(rows));
    if rows != [] && !order(row, rows[0]) {
      InsertTotals(m, row, rows[1..], order);
      EntriesStep(rows[0], Insert(row, rows[1..], order));
      EntriesStep(rows[0], rows[1..]);
      TotalStep(m, EntryOf(rows[0]), EntriesOf(Insert(row, rows[1..], order)));
      TotalStep(m, EntryOf(rows[0]), EntriesOf(rows[1..]));
      assert rows == [rows[0]] + rows[1..];
    }
  }

  lemma {:induction false} SortTotals(m: Measure, rows: seq<seq<Value>>, order: Order)
    ensures Total(m, EntriesOf(Sort(rows, order))) == Total(m, EntriesOf(rows))
  {
    if rows != [] {
      SortTotals(m, rows[1..], order);
      InsertTotals(m, rows[0], Sort(rows[1..], order), order);
      EntriesStep(rows[0], rows[1..]);
      TotalStep(m, EntryOf(rows[0]), EntriesOf(rows[1..]));
      assert rows == [rows[0]] + rows[1..];
    }
  }

  /** What one invoice weighs, once for each vendor holding it up. */
  function HeldBy(m: Measure, i: Row, vendors: seq<Row>): int {
    if vendors == [] then 0
    else (if Held(vendors[0]) && Linked(i, vendors[0]) then Weigh(m, i) else 0) + HeldBy(m, i, vendors[1..])
  }

  function AllHeld(m: Measure, invoices: seq<Row>, vendors: seq<Row>): int {
    if invoices == [] then 0
    else (if Pending(invoices[0]) then HeldBy(m, invoices[0], vendors) else 0) + AllHeld(m, invoices[1..], vendors)
  }

  lemma {:induction false} OneMoreVendor(m: Measure, invoices: seq<Row>, v: Row, rest: seq<Row>)
    ensures AllHeld(m, invoices, [v] + rest) ==
      (if Held(v) then HeldUpBy(m, invoices, v) else 0) + AllHeld(m, invoices, rest)
  {
    if invoices != [] {
      OneMoreVendor(m, invoices[1..], v, rest);
      assert ([v] + rest)[1..] == rest;
    }
  }

  lemma {:induction false} NoVendors(m: Measure, invoices: seq<Row>)
    ensures AllHeld(m, invoices, []) == 0
  {
    if invoices != [] { NoVendors(m, invoices[1..]); }
  }

  /** Adding up by vendor and adding up by invoice come to the same. */
  lemma {:induction false} CountedBothWays(m: Measure, vendors: seq<Row>, invoices: seq<Row>)
    ensures Total(m, Worklist(vendors, invoices)) == AllHeld(m, invoices, vendors)
  {
    if vendors == [] {
      NoVendors(m, invoices);
    } else {
      var v, rest := vendors[0], vendors[1..];
      CountedBothWays(m, rest, invoices);
      OneMoreVendor(m, invoices, v, rest);
      assert vendors == [v] + rest;
      var e := Entry(ValueOf(v, ID), ValueOf(v, NAME), HeldUpBy(Each, invoices, v), HeldUpBy(Amount, invoices, v));
      TotalStep(m, e, Worklist(rest, invoices));
      assert [] + Worklist(rest, invoices) == Worklist(rest, invoices);
    }
  }

  // ---------------------------------------------------------------- the blocked invoices

  function BlockedInvoices(db: Database, limit: Option<nat>): seq<seq<Value>> {
    EvalQuery(BlockedInvoicesQuery(limit), db)
  }

  /** The rows counted, or their amounts added up. */
  function ListTotal(m: Measure, rows: seq<seq<Value>>): int {
    if rows == [] then 0 else (if m.Each? then 1 else Cell(rows[0], 1)) + ListTotal(m, rows[1..])
  }

  function TupleTotal(m: Measure, ts: seq<Tuple>): int {
    if ts == [] then 0 else TupleWeight(m, ts[0]) + TupleTotal(m, ts[1..])
  }

  lemma {:induction false} ListedWeight(m: Measure, ts: seq<Tuple>)
    ensures ListTotal(m, ProjectAll(ListCols(), ts)) == TupleTotal(m, ts)
  {
    if ts != [] {
      ListedWeight(m, ts[1..]);
      var row := Values(ListCols(), ts[0]);
      assert |row| == 3 && row[1] == Get(ts[0], Col(I, AMOUNT));
      var rest := ProjectAll(ListCols(), ts[1..]);
      assert ([row] + rest)[1..] == rest;
    }
  }

  lemma {:induction false} TupleTotalJoined(m: Measure, x: seq<Tuple>, y: seq<Tuple>)
    ensures TupleTotal(m, x + y) == TupleTotal(m, x) + TupleTotal(m, y)
  {
    if x != [] {
      TupleTotalJoined(m, x[1..], y);
      assert (x + y)[1..] == x[1..] + y;
    } else {
      assert x + y == y;
    }
  }

  function OnInvoice(): Cond { Same(Col(I, VENDOR_ID), Col(V, ID)) }

  function BlockedCond(): Cond { And(IsPending(), NotActive()) }

  lemma PairedCells(i: Row, v: Row, f: Field)
    ensures Get(Bind(I, i) + Bind(V, v), Col(I, f)) == ValueOf(i, f)
    ensures Get(Bind(I, i) + Bind(V, v), Col(V, f)) == ValueOf(v, f)
  {
    BoundCells(I, i, Col(I, f));
    BoundCells(V, v, Col(V, f));
    assert Col(I, f) !in Bind(V, v);
  }

  lemma OnInvoiceHolds(i: Row, v: Row)
    ensures Holds(OnInvoice(), Bind(I, i) + Bind(V, v)) <==> Linked(i, v)
  {
    var t := Bind(I, i) + Bind(V, v);
    PairedCells(i, v, VENDOR_ID);
    PairedCells(i, v, ID);
    var cols := [Col(I, VENDOR_ID), Col(V, ID)];
    var values := seq(|cols|, j requires 0 <= j < |cols| => Get(t, cols[j]));
    assert values[0] == ValueOf(i, VENDOR_ID) && values[1] == ValueOf(v, ID);
  }

  lemma BlockedHolds(i: Row, v: Row)
    ensures Holds(BlockedCond(), Bind(I, i) + Bind(V, v)) <==> Pending(i) && Held(v)
  {
    var t := Bind(I, i) + Bind(V, v);
    PairedCells(i, v, STATE);
    PairedCells(i, v, STATUS);
    NotActiveHolds(t, v);
    assert Holds(IsPending(), t) <==> Pending(i);
  }

  lemma PairWeight(m: Measure, i: Row, v: Row)
    ensures TupleWeight(m, Bind(I, i) + Bind(V, v)) == Weigh(m, i)
  {
    PairedCells(i, v, AMOUNT);
  }

  lemma {:induction false} InvoicePairs(m: Measure, i: Row, vendors: seq<Row>)
    ensures TupleTotal(m, Filter(BlockedCond(), Pairs(Bind(I, i), BindAll(V, vendors), OnInvoice()))) ==
      if Pending(i) then HeldBy(m, i, vendors) else 0
  {
    if vendors != [] {
      var v, rest := vendors[0], vendors[1..];
      InvoicePairs(m, i, rest);
      BindAllStep(V, v, rest);
      assert vendors == [v] + rest;
      PairsStep(Bind(I, i), Bind(V, v), BindAll(V, rest), OnInvoice());
      OnePair(m, i, v, Pairs(Bind(I, i), BindAll(V, rest), OnInvoice()));
    } else {
      assert Pairs(Bind(I, i), BindAll(V, vendors), OnInvoice()) == [];
    }
  }

  lemma OnePair(m: Measure, i: Row, v: Row, rest: seq<Tuple>)
    ensures
      var t := Bind(I, i) + Bind(V, v);
      TupleTotal(m, Filter(BlockedCond(), (if Holds(OnInvoice(), t) then [t] else []) + rest)) ==
        (if Pending(i) && Held(v) && Linked(i, v) then Weigh(m, i) else 0) +
        TupleTotal(m, Filter(BlockedCond(), rest))
  {
    var t := Bind(I, i) + Bind(V, v);
    OnInvoiceHolds(i, v);
    BlockedHolds(i, v);
    PairWeight(m, i, v);
    FilterStep(BlockedCond(), t, rest);
    assert [] + rest == rest;
    var kept := Filter(BlockedCond(), rest);
    assert ([t] + kept)[1..] == kept && [] + kept == kept;
  }

  lemma {:induction false} JoinedWeight(m: Measure, invoices: seq<Row>, vendors: seq<Row>)
    ensures
      TupleTotal(m, Filter(BlockedCond(), JoinAll(BindAll(I, invoices), BindAll(V, vendors), OnInvoice(), false))) ==
        AllHeld(m, invoices, vendors)
  {
    if invoices != [] {
      var i, rest := invoices[0], invoices[1..];
      JoinedWeight(m, rest, vendors);
      InvoicePairs(m, i, vendors);
      BindAllStep(I, i, rest);
      assert invoices == [i] + rest;
      var bound := [Bind(I, i)] + BindAll(I, rest);
      assert bound[1..] == BindAll(I, rest);
      var pairs := Pairs(Bind(I, i), BindAll(V, vendors), OnInvoice());
      var others := JoinAll(BindAll(I, rest), BindAll(V, vendors), OnInvoice(), false);
      assert JoinAll(bound, BindAll(V, vendors), OnInvoice(), false) == pairs + others;
      FilterJoined(BlockedCond(), pairs, others);
      TupleTotalJoined(m, Filter(BlockedCond(), pairs), Filter(BlockedCond(), others));
    } else {
      assert JoinAll(BindAll(I, invoices), BindAll(V, vendors), OnInvoice(), false) == [];
    }
  }

  lemma ListTotalStep(m: Measure, row: seq<Value>, rest: seq<seq<Value>>)
    ensures ListTotal(m, [row] + rest) == (if m.Each? then 1 else Cell(row, 1)) + ListTotal(m, rest)
  {
    assert ([row] + rest)[1..] == rest;
  }

  lemma {:induction false} InsertListTotal(m: Measure, row: seq<Value>, rows: seq<seq<Value>>, order: Order)
    ensures ListTotal(m, Insert(row, rows, order)) == ListTotal(m, [row] + rows)
  {
    ListTotalStep(m, row, rows);
    if rows != [] && !order(row, rows[0]) {
      InsertListTotal(m, row, rows[1..], order);
      ListTotalStep(m, row, rows[1..]);
      ListTotalStep(m, rows[0], Insert(row, rows[1..], order));
    }
  }

  lemma {:induction false} SortListTotal(m: Measure, rows: seq<seq<Value>>, order: Order)
    ensures ListTotal(m, Sort(rows, order)) == ListTotal(m, rows)
  {
    if rows != [] {
      SortListTotal(m, rows[1..], order);
      InsertListTotal(m, rows[0], Sort(rows[1..], order), order);
      ListTotalStep(m, rows[0], Sort(rows[1..], order));
    }
  }

  lemma {:induction false} ListTotalCounts(rows: seq<seq<Value>>)
    ensures ListTotal(Each, rows) == |rows|
  {
    if rows != [] { ListTotalCounts(rows[1..]); }
  }

  lemma ListWeighs(m: Measure, db: Database)
    ensures ListTotal(m, BlockedInvoices(db, None)) == AllHeld(m, Rows(db, INVOICE), Rows(db, VENDOR))
  {
    var joined := JoinAll(BindAll(I, Rows(db, INVOICE)), BindAll(V, Rows(db, VENDOR)), OnInvoice(), false);
    var q := BlockedInvoicesQuery(None);
    JoinEvaluated(Of(Entity(I, INVOICE)), Entity(V, VENDOR), OnInvoice(), false, db);
    ScanEvaluated(I, INVOICE, db);
    assert EvalSource(Entity(V, VENDOR), db) == BindAll(V, Rows(db, VENDOR));
    assert EvalFrom(q.from, db) == joined;
    var rows := ProjectAll(ListCols(), Filter(BlockedCond(), joined));
    assert EvalQuery(q, db) == Sort(rows, NewestFirst);
    SortListTotal(m, rows, NewestFirst);
    ListedWeight(m, Filter(BlockedCond(), joined));
    JoinedWeight(m, Rows(db, INVOICE), Rows(db, VENDOR));
  }

  lemma QueueWeighs(m: Measure, db: Database)
    ensures Total(m, ReviewQueue(db, None)) == AllHeld(m, Rows(db, INVOICE), Rows(db, VENDOR))
  {
    QueueEvaluated(db, None);
    SortTotals(m, UnsortedQueue(db), HeaviestFirst);
    UnsortedIsWorklist(db);
    CountedBothWays(m, Rows(db, VENDOR), Rows(db, INVOICE));
  }

  /** Conservation: what the vendor queue counts and adds up is the list of blocked invoices,
      its length and its amounts. */
  lemma UnlimitedAgree(db: Database)
    ensures Total(Each, ReviewQueue(db, None)) == |BlockedInvoices(db, None)|
    ensures Total(Amount, ReviewQueue(db, None)) == ListTotal(Amount, BlockedInvoices(db, None))
  {
    ListTotalCounts(BlockedInvoices(db, None));
    ListWeighs(Each, db);
    ListWeighs(Amount, db);
    QueueWeighs(Each, db);
    QueueWeighs(Amount, db);
  }

  predicate Fits(n: nat, limit: Option<nat>) { limit.None? || n <= limit.value }

  function Shortest(n: nat, limit: Option<nat>): nat { if Fits(n, limit) then n else limit.value }

  lemma {:induction false} TotalSplits(m: Measure, es: seq<Entry>, n: nat)
    requires n <= |es|
    ensures Total(m, es) == Total(m, es[..n]) + Total(m, es[n..])
  {
    if n > 0 {
      TotalSplits(m, es[1..], n - 1);
      assert es[..n][1..] == es[1..][..n - 1] && es[n..] == es[1..][n - 1..];
    } else {
      assert es[..0] == [] && es[0..] == es;
    }
  }

  lemma {:induction false} ListTotalSplits(m: Measure, rows: seq<seq<Value>>, n: nat)
    requires n <= |rows|
    ensures ListTotal(m, rows) == ListTotal(m, rows[..n]) + ListTotal(m, rows[n..])
  {
    if n > 0 {
      ListTotalSplits(m, rows[1..], n - 1);
      assert rows[..n][1..] == rows[1..][..n - 1] && rows[n..] == rows[1..][n - 1..];
    } else {
      assert rows[..0] == [] && rows[0..] == rows;
    }
  }

  lemma QueueIsHead(db: Database, limit: Option<nat>)
    ensures var all := ReviewQueue(db, None); ReviewQueue(db, limit) == all[..Shortest(|all|, limit)]
  {
    if limit.Some? { LimitDropsTheLightest(db, limit.value); }
  }

  lemma ListIsHead(db: Database, limit: Option<nat>)
    ensures var all := BlockedInvoices(db, None); BlockedInvoices(db, limit) == all[..Shortest(|all|, limit)]
  {
  }

  /** What the queue says, with what its limit dropped, is what the list says, with what its own
      limit dropped. */
  ghost predicate Balance(
      queue: seq<Entry>, droppedEntries: seq<Entry>, list: seq<seq<Value>>, droppedRows: seq<seq<Value>>)
  {
    && Total(Each, queue) + Total(Each, droppedEntries) == |list| + |droppedRows|
    && Total(Amount, queue) + Total(Amount, droppedEntries) == ListTotal(Amount, list) + ListTotal(Amount, droppedRows)
  }

  /** Whatever limits the two carry, they balance once what each dropped is counted; so while
      both fit their limits the queue's counts and totals are the list's length and amounts. */
  lemma WorklistsAgree(db: Database, n: Option<nat>, k: Option<nat>)
    ensures
      var all, invoices := ReviewQueue(db, None), BlockedInvoices(db, None);
      var queue, list := ReviewQueue(db, n), BlockedInvoices(db, k);
      && queue == all[..Shortest(|all|, n)] && list == invoices[..Shortest(|invoices|, k)]
      && Balance(queue, all[|queue|..], list, invoices[|list|..])
      && (Fits(|all|, n) && Fits(|invoices|, k) ==>
            Total(Each, queue) == |list| && Total(Amount, queue) == ListTotal(Amount, list))
  {
    UnlimitedAgree(db);
    QueueIsHead(db, n);
    ListIsHead(db, k);
    SplitsBalance(ReviewQueue(db, None), Shortest(|ReviewQueue(db, None)|, n),
      BlockedInvoices(db, None), Shortest(|BlockedInvoices(db, None)|, k));
  }

  lemma SplitsBalance(all: seq<Entry>, n: nat, invoices: seq<seq<Value>>, k: nat)
    requires n <= |all| && k <= |invoices|
    requires Total(Each, all) == |invoices| && Total(Amount, all) == ListTotal(Amount, invoices)
    ensures Balance(all[..n], all[n..], invoices[..k], invoices[k..])
    ensures n == |all| ==> all[..n] == all
    ensures k == |invoices| ==> invoices[..k] == invoices
  {
    TotalSplits(Each, all, n);
    TotalSplits(Amount, all, n);
    ListTotalSplits(Amount, invoices, k);
  }

  // ---------------------------------------------------------------- in a session

  function QueueIn(info: SessionInfo, reg: Registry, db: Database, limit: Option<nat>): seq<Entry> {
    EntriesOf(EvalQuery(Scope(SessionOptions(info, reg), ReviewQueueQuery(limit)), db))
  }

  function ListIn(info: SessionInfo, reg: Registry, db: Database, limit: Option<nat>): seq<seq<Value>> {
    EvalQuery(Scope(SessionOptions(info, reg), BlockedInvoicesQuery(limit)), db)
  }

  lemma VisibleRowsOf(info: SessionInfo, reg: Registry, m: Model, db: Database)
    ensures Rows(VisibleDatabase(info, reg, db), m) == VisibleRows(info, reg, m, Rows(db, m))
  {
  }

  /** Asked in a session, the queries see the visible database. */
  lemma SessionAsksVisible(info: SessionInfo, reg: Registry, db: Database, limit: Option<nat>)
    ensures
      var visible := VisibleDatabase(info, reg, db);
      && QueueIn(info, reg, db, limit) == ReviewQueue(visible, limit)
      && ListIn(info, reg, db, limit) == BlockedInvoices(visible, limit)
  {
    SessionSeesVisibleRows(info, reg, ReviewQueueQuery(limit), db);
    SessionSeesVisibleRows(info, reg, BlockedInvoicesQuery(limit), db);
  }

  /** And so in any session, whatever tenant, units and withdrawn rows its scope hides. */
  lemma WorklistsAgreeInSession(info: SessionInfo, reg: Registry, db: Database, n: Option<nat>, k: Option<nat>)
    ensures
      var all, invoices := QueueIn(info, reg, db, None), ListIn(info, reg, db, None);
      var queue, list := QueueIn(info, reg, db, n), ListIn(info, reg, db, k);
      && queue == all[..Shortest(|all|, n)] && list == invoices[..Shortest(|invoices|, k)]
      && Balance(queue, all[|queue|..], list, invoices[|list|..])
      && (Fits(|all|, n) && Fits(|invoices|, k) ==>
            Total(Each, queue) == |list| && Total(Amount, queue) == ListTotal(Amount, list))
      && multiset(all) == multiset(Worklist(
           VisibleRows(info, reg, VENDOR, Rows(db, VENDOR)), VisibleRows(info, reg, INVOICE, Rows(db, INVOICE))))
  {
    SessionAsksVisible(info, reg, db, None);
    SessionAsksVisible(info, reg, db, n);
    SessionAsksVisible(info, reg, db, k);
    var visible := VisibleDatabase(info, reg, db);
    WorklistsAgree(visible, n, k);
    QueueIsWorklist(visible);
    VisibleRowsOf(info, reg, VENDOR, db);
    VisibleRowsOf(info, reg, INVOICE, db);
  }

  /** A limited queue drops the lightest of what the session may see. */
  lemma LimitDropsTheLightestInSession(info: SessionInfo, reg: Registry, db: Database, n: nat)
    ensures
      var all, kept := QueueIn(info, reg, db, None), QueueIn(info, reg, db, Some(n));
      && |kept| == (if n < |all| then n else |all|)
      && kept == all[..|kept|]
      && forall i, j | 0 <= i < |kept| <= j < |all| :: NotLighter(kept[i], all[j])
  {
    SessionAsksVisible(info, reg, db, None);
    SessionAsksVisible(info, reg, db, Some(n));
    LimitDropsTheLightest(VisibleDatabase(info, reg, db), n);
  }
}
