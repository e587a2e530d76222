/** The part of SQL the ORM queries use: entity scans under aliases, inner and left outer
    joins, subqueries, conditions with three-valued logic, grouping, ordering and limits. */
module QueryAlgebra {
  import opened Wrappers

  /** Identifiers, amounts, timestamps and enumerated states are all numbers here. */
  datatype Value = Null | Num(n: int)

  datatype Field = TenantId | OrgUnitId | DeletedAt | Attr(k: nat)

  type Model = nat
  type Alias = nat
  type Row = map<Field, Value>
  type Database = map<Model, seq<Row>>

  datatype Col = Col(alias: Alias, field: Field)
  type Tuple = map<Col, Value>

  function Get(t: Tuple, c: Col): Value { if c in t then t[c] else Null }

  // ---------------------------------------------------------------- conditions

  datatype Truth = True | False | Unknown

  datatype Cond =
    | Always
    | Test(cols: seq<Col>, f: seq<Value> -> Truth)   // any scalar condition on columns
    | Equals(col: Col, n: int)
    | IsNull(col: Col)
    | IsIn(col: Col, ns: set<int>)
    | And(l: Cond, r: Cond)
    | Or(l: Cond, r: Cond)
    | Not(c: Cond)

  function AndTruth(a: Truth, b: Truth): Truth {
    if a == False || b == False then False else if a == True && b == True then True else Unknown
  }

  function OrTruth(a: Truth, b: Truth): Truth {
    if a == True || b == True then True else if a == False && b == False then False else Unknown
  }

  function Rank(t: Truth): nat { match t case False => 0 case Unknown => 1 case True => 2 }

  /** With unknown between false and true, AND is the lesser of its sides and OR the greater. */
  lemma AndIsLesserOrIsGreater(a: Truth, b: Truth)
    ensures Rank(AndTruth(a, b)) == if Rank(a) < Rank(b) then Rank(a) else Rank(b)
    ensures Rank(OrTruth(a, b)) == if Rank(a) < Rank(b) then Rank(b) else Rank(a)
  {
  }

  function Eval(c: Cond, t: Tuple): Truth {
    match c
    case Always => True
    case Test(cols, f) => f(seq(|cols|, j requires 0 <= j < |cols| => Get(t, cols[j])))
    case Equals(col, n) =>
      (match Get(t, col) case Null => Unknown case Num(m) => if m == n then True else False)
    case IsNull(col) => if Get(t, col) == Null then True else False
    case IsIn(col, ns) =>
      (match Get(t, col) case Null => Unknown case Num(m) => if m in ns then True else False)
    case And(l, r) => AndTruth(Eval(l, t), Eval(r, t))
    case Or(l, r) => OrTruth(Eval(l, t), Eval(r, t))
    case Not(d) => (match Eval(d, t) case True => False case False => True case Unknown => Unknown)
  }

  /** SQL keeps a row only when its condition is true, not when it is unknown. */
  predicate Holds(c: Cond, t: Tuple) { Eval(c, t) == True }

  // ---------------------------------------------------------------- queries

  datatype Aggregate = Count | Sum(of: Col)

  datatype Output =
    | Project(cols: seq<Col>)
    | GroupBy(keys: seq<Col>, aggregates: seq<Aggregate>)

  datatype Source = Entity(alias: Alias, model: Model) | Derived(alias: Alias, query: Query)

  datatype From = Of(src: Source) | Join(left: From, right: Source, on: Cond, outer: bool)

  /** `order(a, b)`: whether output row `a` may come before output row `b`. */
  type Order = (seq<Value>, seq<Value>) -> bool

  datatype Query = Select(from: From, where: Cond, output: Output, order: Order, limit: Option<nat>)

  function Filter(c: Cond, ts: seq<Tuple>): seq<Tuple> {
    if ts == [] then []
    else (if Holds(c, ts[0]) then [ts[0]] else []) + Filter(c, ts[1..])
  }

  function Bind(alias: Alias, row: Row): Tuple {
    map c: Col | c in Columns(alias, row.Keys) :: row[c.field]
  }

  function Columns(alias: Alias, fields: set<Field>): (cols: set<Col>)
    ensures forall c :: c in cols <==> c.alias == alias && c.field in fields
  {
    set f | f in fields :: Col(alias, f)
  }

  function BindAll(alias: Alias, rows: seq<Row>): seq<Tuple> {
    if rows == [] then [] else [Bind(alias, rows[0])] + BindAll(alias, rows[1..])
  }

  /** A subquery's k-th output is its k-th attribute. */
  function NameOutputs(values: seq<Value>): Row {
    map f: Field | f in Attributes(|values|) :: values[f.k]
  }

  function Attributes(n: nat): (fields: set<Field>)
    ensures forall f :: f in fields <==> f.Attr? && f.k < n
  {
    if n == 0 then {} else Attributes(n - 1) + {Attr(n - 1)}
  }

  function NameAll(rows: seq<seq<Value>>): seq<Row> {
    if rows == [] then [] else [NameOutputs(rows[0])] + NameAll(rows[1..])
  }

  /** The right rows that pair with `l`. */
  function Pairs(l: Tuple, rs: seq<Tuple>, on: Cond): seq<Tuple> {
    if rs == [] then []
    else (if Holds(on, l + rs[0]) then [l + rs[0]] else []) + Pairs(l, rs[1..], on)
  }

  /** Left outer: a left row that pairs with nothing is kept with the right columns null. */
  function JoinOne(l: Tuple, rs: seq<Tuple>, on: Cond, outer: bool): seq<Tuple> {
    var pairs := Pairs(l, rs, on);
    if outer && pairs == [] then [l] else pairs
  }

  function JoinAll(ls: seq<Tuple>, rs: seq<Tuple>, on: Cond, outer: bool): seq<Tuple> {
    if ls == [] then [] else JoinOne(ls[0], rs, on, outer) + JoinAll(ls[1..], rs, on, outer)
  }

  function EvalSource(src: Source, db: Database): seq<Tuple> {
    match src
    case Entity(a, m) => BindAll(a, if m in db then db[m] else [])
    case Derived(a, q) => BindAll(a, NameAll(EvalQuery(q, db)))
  }

  function EvalFrom(f: From, db: Database): seq<Tuple> {
    match f
    case Of(src) => EvalSource(src, db)
    case Join(l, r, on, outer) => JoinAll(EvalFrom(l, db), EvalSource(r, db), on, outer)
  }

  function EvalQuery(q: Query, db: Database): seq<seq<Value>> {
    var rows := Produce(q.output, Filter(q.where, EvalFrom(q.from, db)));
    Limit(Sort(rows, q.order), q.limit)
  }

  // ---------------------------------------------------------------- outputs

  function Values(cols: seq<Col>, t: Tuple): seq<Value> {
    seq(|cols|, j requires 0 <= j < |cols| => Get(t, cols[j]))
  }

  function Produce(out: Output, ts: seq<Tuple>): seq<seq<Value>> {
    match out
    case Project(cols) => ProjectAll(cols, ts)
    case GroupBy(keys, aggregates) =>
      if keys == [] then [AggregateRow(aggregates, ts)] else Groups(keys, aggregates, ts)
  }

  function AggregateRow(aggregates: seq<Aggregate>, ts: seq<Tuple>): seq<Value> {
    seq(|aggregates|, j requires 0 <= j < |aggregates| => AggregateOf(aggregates[j], ts))
  }

  function ProjectAll(cols: seq<Col>, ts: seq<Tuple>): seq<seq<Value>> {
    if ts == [] then [] else [Values(cols, ts[0])] + ProjectAll(cols, ts[1..])
  }

  function Others(keys: seq<Col>, key: seq<Value>, ts: seq<Tuple>): (rest: seq<Tuple>)
    ensures |rest| <= |ts|
  {
    if ts == [] then []
    else (if Values(keys, ts[0]) == key then [] else [ts[0]]) + Others(keys, key, ts[1..])
  }

  function Members(keys: seq<Col>, key: seq<Value>, ts: seq<Tuple>): seq<Tuple> {
    if ts == [] then []
    else (if Values(keys, ts[0]) == key then [ts[0]] else []) + Members(keys, key, ts[1..])
  }

  /** One row for each key, in order of first appearance. */
  function Groups(keys: seq<Col>, aggregates: seq<Aggregate>, ts: seq<Tuple>): seq<seq<Value>>
    decreases |ts|
  {
    if ts == [] then []
    else
      var key := Values(keys, ts[0]);
      var members := Members(keys, key, ts);
      [key + AggregateRow(aggregates, members)] + Groups(keys, aggregates, Others(keys, key, ts[1..]))
  }

  function AggregateOf(a: Aggregate, ts: seq<Tuple>): Value {
    match a
    case Count => Num(|ts|)
    case Sum(c) => SumOf(c, ts)
  }

  /** SQL's SUM skips nulls, and is null when nothing is left. */
  function SumOf(c: Col, ts: seq<Tuple>): Value {
    if ts == [] then Null
    else
      match (Get(ts[0], c), SumOf(c, ts[1..]))
      case (Null, rest) => rest
      case (v, Null) => v
      case (Num(a), Num(b)) => Num(a + b)
  }

  function Insert(row: seq<Value>, rows: seq<seq<Value>>, order: Order): seq<seq<Value>> {
    if rows == [] || order(row, rows[0]) then [row] + rows
    else [rows[0]] + Insert(row, rows[1..], order)
  }

  function Sort(rows: seq<seq<Value>>, order: Order): seq<seq<Value>> {
    if rows == [] then [] else Insert(rows[0], Sort(rows[1..], order), order)
  }

  function Limit(rows: seq<seq<Value>>, limit: Option<nat>): seq<seq<Value>> {
    match limit case Some(n) => (if n < |rows| then rows[..n] else rows) case None => rows
  }

  // ---------------------------------------------------------------- well-formedness

  function SourceAlias(src: Source): Alias { src.alias }

  function Aliases(f: From): set<Alias> {
    match f
    case Of(src) => {SourceAlias(src)}
    case Join(l, r, _, _) => Aliases(l) + {SourceAlias(r)}
  }

  /** SQL requires each alias of one FROM clause to be used once. */
  predicate DistinctAliases(f: From) {
    match f
    case Of(src) => SourceOk(src)
    case Join(l, r, _, _) => DistinctAliases(l) && SourceAlias(r) !in Aliases(l) && SourceOk(r)
  }

  predicate SourceOk(src: Source) {
    match src case Entity(_, _) => true case Derived(_, q) => QueryOk(q)
  }

  predicate QueryOk(q: Query) { DistinctAliases(q.from) }

  function SourceModels(src: Source): set<Model> {
    match src case Entity(_, m) => {m} case Derived(_, q) => Models(q)
  }

  function FromModels(f: From): set<Model> {
    match f
    case Of(src) => SourceModels(src)
    case Join(l, r, _, _) => FromModels(l) + SourceModels(r)
  }

  function Models(q: Query): set<Model> { FromModels(q.from) }

  // ---------------------------------------------------------------- which columns a tuple has

  ghost predicate OnlyAliases(ts: seq<Tuple>, aliases: set<Alias>) {
    forall j, c | 0 <= j < |ts| && c in ts[j] :: c.alias in aliases
  }

  lemma {:induction false} BindAliases(a: Alias, rows: seq<Row>)
    ensures OnlyAliases(BindAll(a, rows), {a})
  {
    if rows != [] { BindAliases(a, rows[1..]); }
  }

  lemma SourceAliases(src: Source, db: Database)
    ensures OnlyAliases(EvalSource(src, db), {SourceAlias(src)})
  {
    match src
    case Entity(a, m) => BindAliases(a, if m in db then db[m] else []);
    case Derived(a, q) => BindAliases(a, NameAll(EvalQuery(q, db)));
  }

  lemma {:induction false} PairsAliases(l: Tuple, rs: seq<Tuple>, on: Cond, x: set<Alias>, y: set<Alias>)
    requires OnlyAliases([l], x) && OnlyAliases(rs, y)
    ensures OnlyAliases(Pairs(l, rs, on), x + y)
  {
    if rs != [] {
      assert forall j | 0 <= j < |rs| - 1 :: rs[1..][j] == rs[j + 1];
      PairsAliases(l, rs[1..], on, x, y);
      assert [l][0] == l;
    }
  }

  lemma {:induction false} JoinAliases(ls: seq<Tuple>, rs: seq<Tuple>, on: Cond, outer: bool, x: set<Alias>, y: set<Alias>)
    requires OnlyAliases(ls, x) && OnlyAliases(rs, y)
    ensures OnlyAliases(JoinAll(ls, rs, on, outer), x + y)
  {
    if ls != [] {
      assert forall j | 0 <= j < |ls| - 1 :: ls[1..][j] == ls[j + 1];
      JoinAliases(ls[1..], rs, on, outer, x, y);
      PairsAliases(ls[0], rs, on, x, y);
    }
  }

  lemma {:induction false} FromAliases(f: From, db: Database)
    ensures OnlyAliases(EvalFrom(f, db), Aliases(f))
  {
    match f
    case Of(src) => SourceAliases(src, db);
    case Join(l, r, on, outer) =>
      FromAliases(l, db);
      SourceAliases(r, db);
      JoinAliases(EvalFrom(l, db), EvalSource(r, db), on, outer, Aliases(l), {SourceAlias(r)});
  }

  /** A query reads only the models it names. */
  lemma {:induction false} ReadsItsModels(q: Query, db: Database, db': Database)
    requires forall m | m in Models(q) :: Rows(db, m) == Rows(db', m)
    ensures EvalQuery(q, db) == EvalQuery(q, db')
    decreases q
  {
    FromReadsItsModels(q.from, db, db');
  }

  function Rows(db: Database, m: Model): seq<Row> { if m in db then db[m] else [] }

  lemma {:induction false} FromReadsItsModels(f: From, db: Database, db': Database)
    requires forall m | m in FromModels(f) :: Rows(db, m) == Rows(db', m)
    ensures EvalFrom(f, db) == EvalFrom(f, db')
    decreases f
  {
    match f
    case Of(src) => SourceReadsItsModels(src, db, db');
    case Join(l, r, _, _) =>
      FromReadsItsModels(l, db, db');
      SourceReadsItsModels(r, db, db');
  }

  lemma {:induction false} SourceReadsItsModels(src: Source, db: Database, db': Database)
    requires forall m | m in SourceModels(src) :: Rows(db, m) == Rows(db', m)
    ensures EvalSource(src, db) == EvalSource(src, db')
    decreases src
  {
    match src
    case Entity(a, m) => assert Rows(db, m) == Rows(db', m);
    case Derived(a, q) => ReadsItsModels(q, db, db');
  }
}
