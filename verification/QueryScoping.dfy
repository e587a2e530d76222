/** The three `do_orm_execute` listeners: what they attach to a statement, how the ORM turns
    that into WHERE and ON clauses, and what the rewritten statement means. */
module QueryScoping {
  import opened Wrappers
  import opened QueryAlgebra

  // ---------------------------------------------------------------- criteria

  datatype Criterion = TenantIs(tenant: int) | OrgUnitIn(units: set<int>) | NotDeleted

  /** `with_loader_criteria(model, criterion, include_aliases=True)` */
  datatype LoaderCriteria = LoaderCriteria(model: Model, criterion: Criterion)

  /** The criterion as a condition on one alias of the model. */
  function CondFor(c: Criterion, a: Alias): Cond {
    match c
    case TenantIs(t) => Equals(Col(a, TenantId), t)
    case OrgUnitIn(us) => Or(IsNull(Col(a, OrgUnitId)), IsIn(Col(a, OrgUnitId), us))
    case NotDeleted => IsNull(Col(a, DeletedAt))
  }

  function ValueOf(row: Row, f: Field): Value { if f in row then row[f] else Null }

  /** The criterion read on a stored row. A null tenant never passes; a null unit always does. */
  predicate Admits(c: Criterion, row: Row) {
    match c
    case TenantIs(t) => ValueOf(row, TenantId) == Num(t)
    case OrgUnitIn(us) => ValueOf(row, OrgUnitId) == Null || ValueOf(row, OrgUnitId).n in us
    case NotDeleted => ValueOf(row, DeletedAt) == Null
  }

  // ---------------------------------------------------------------- the compiled statement

  /** What the attached criteria add for one alias of `model`. */
  function CriteriaFor(opts: seq<LoaderCriteria>, model: Model, a: Alias): Cond {
    if opts == [] then Always
    else if opts[0].model == model then And(CondFor(opts[0].criterion, a), CriteriaFor(opts[1..], model, a))
    else CriteriaFor(opts[1..], model, a)
  }

  function SourceCriteria(opts: seq<LoaderCriteria>, src: Source): Cond {
    match src case Entity(a, m) => CriteriaFor(opts, m, a) case Derived(_, _) => Always
  }

  function Root(f: From): Source {
    match f case Of(src) => src case Join(l, _, _, _) => Root(l)
  }

  /** The ORM puts the criteria of a joined entity into that join's ON clause... */
  function ScopeFrom(opts: seq<LoaderCriteria>, f: From): From {
    match f
    case Of(src) => Of(ScopeSource(opts, src))
    case Join(l, r, on, outer) =>
      Join(ScopeFrom(opts, l), ScopeSource(opts, r), And(on, SourceCriteria(opts, r)), outer)
  }

  function ScopeSource(opts: seq<LoaderCriteria>, src: Source): Source {
    match src case Entity(_, _) => src case Derived(a, q) => Derived(a, Scope(opts, q))
  }

  /** ...and those of the entity selected from into WHERE, in every subquery as well. */
  function Scope(opts: seq<LoaderCriteria>, q: Query): Query {
    q.(from := ScopeFrom(opts, q.from), where := And(q.where, SourceCriteria(opts, Root(q.from))))
  }

  // ---------------------------------------------------------------- the meaning it should have

  predicate Passes(opts: seq<LoaderCriteria>, m: Model, row: Row) {
    forall j | 0 <= j < |opts| && opts[j].model == m :: Admits(opts[j].criterion, row)
  }

  function Keep(opts: seq<LoaderCriteria>, m: Model, rows: seq<Row>): seq<Row> {
    if rows == [] then []
    else (if Passes(opts, m, rows[0]) then [rows[0]] else []) + Keep(opts, m, rows[1..])
  }

  /** The database with every model cut down to the rows its criteria admit. */
  function Restrict(opts: seq<LoaderCriteria>, db: Database): Database {
    map m | m in db :: Keep(opts, m, db[m])
  }

  lemma CondReadsRow(c: Criterion, a: Alias, t: Tuple, row: Row)
    requires forall f :: Get(t, Col(a, f)) == ValueOf(row, f)
    ensures Holds(CondFor(c, a), t) <==> Admits(c, row)
  {
    match c
    case TenantIs(_) => assert Get(t, Col(a, TenantId)) == ValueOf(row, TenantId);
    case OrgUnitIn(us) =>
      var col := Col(a, OrgUnitId);
      assert Get(t, col) == ValueOf(row, OrgUnitId);
      assert Holds(IsNull(col), t) <==> Get(t, col) == Null;
      assert Holds(IsIn(col, us), t) <==> Get(t, col).Num? && Get(t, col).n in us;
      assert Eval(CondFor(c, a), t) == OrTruth(Eval(IsNull(col), t), Eval(IsIn(col, us), t));
    case NotDeleted => assert Get(t, Col(a, DeletedAt)) == ValueOf(row, DeletedAt);
  }

  lemma {:induction false} CriteriaReadRow(opts: seq<LoaderCriteria>, m: Model, a: Alias, t: Tuple, row: Row)
    requires forall f :: Get(t, Col(a, f)) == ValueOf(row, f)
    ensures Holds(CriteriaFor(opts, m, a), t) <==> Passes(opts, m, row)
  {
    if opts != [] {
      CriteriaReadRow(opts[1..], m, a, t, row);
      CondReadsRow(opts[0].criterion, a, t, row);
      PassesStep(opts, m, row);
      var rest := CriteriaFor(opts[1..], m, a);
      if opts[0].model == m {
        assert CriteriaFor(opts, m, a) == And(CondFor(opts[0].criterion, a), rest);
        assert Holds(CriteriaFor(opts, m, a), t) <==> Holds(CondFor(opts[0].criterion, a), t) && Holds(rest, t);
      } else {
        assert CriteriaFor(opts, m, a) == rest;
      }
    }
  }

  lemma PassesStep(opts: seq<LoaderCriteria>, m: Model, row: Row)
    requires opts != []
    ensures Passes(opts, m, row) <==>
      (opts[0].model == m ==> Admits(opts[0].criterion, row)) && Passes(opts[1..], m, row)
  {
    if Passes(opts[1..], m, row) && (opts[0].model == m ==> Admits(opts[0].criterion, row)) {
      forall j | 0 <= j < |opts| && opts[j].model == m ensures Admits(opts[j].criterion, row) {
        if j > 0 { assert opts[j] == opts[1..][j - 1]; }
      }
    }
    if Passes(opts, m, row) {
      forall j | 0 <= j < |opts| - 1 && opts[1..][j].model == m ensures Admits(opts[1..][j].criterion, row) {
        assert opts[1..][j] == opts[j + 1];
      }
    }
  }

  /** Criteria on an alias depend on that alias's columns only. */
  lemma {:induction false} CriteriaReadAlias(opts: seq<LoaderCriteria>, m: Model, a: Alias, t: Tuple, t': Tuple)
    requires forall f :: Get(t, Col(a, f)) == Get(t', Col(a, f))
    ensures Holds(CriteriaFor(opts, m, a), t) <==> Holds(CriteriaFor(opts, m, a), t')
  {
    if opts != [] {
      CriteriaReadAlias(opts[1..], m, a, t, t');
      CondReadsAlias(opts[0].criterion, a, t, t');
    }
  }

  lemma CondReadsAlias(c: Criterion, a: Alias, t: Tuple, t': Tuple)
    requires forall f :: Get(t, Col(a, f)) == Get(t', Col(a, f))
    ensures Eval(CondFor(c, a), t) == Eval(CondFor(c, a), t')
  {
    match c
    case TenantIs(_) => assert Get(t, Col(a, TenantId)) == Get(t', Col(a, TenantId));
    case OrgUnitIn(us) =>
      var col := Col(a, OrgUnitId);
      assert Get(t, col) == Get(t', col);
      assert Eval(IsNull(col), t) == Eval(IsNull(col), t');
      assert Eval(IsIn(col, us), t) == Eval(IsIn(col, us), t');
    case NotDeleted => assert Get(t, Col(a, DeletedAt)) == Get(t', Col(a, DeletedAt));
  }

  lemma {:induction false} ScanRestricted(opts: seq<LoaderCriteria>, m: Model, a: Alias, rows: seq<Row>)
    ensures Filter(CriteriaFor(opts, m, a), BindAll(a, rows)) == BindAll(a, Keep(opts, m, rows))
  {
    if rows != [] {
      ScanRestricted(opts, m, a, rows[1..]);
      var t, c, rest := Bind(a, rows[0]), CriteriaFor(opts, m, a), BindAll(a, rows[1..]);
      assert forall f :: Get(t, Col(a, f)) == ValueOf(rows[0], f);
      CriteriaReadRow(opts, m, a, t, rows[0]);
      BindAllStep(a, rows[0], Keep(opts, m, rows[1..]));
      FilterStep(c, t, rest);
      assert BindAll(a, rows) == [t] + rest;
    }
  }

  lemma FilterStep(c: Cond, t: Tuple, rest: seq<Tuple>)
    ensures Filter(c, [t] + rest) == (if Holds(c, t) then [t] else []) + Filter(c, rest)
  {
    assert ([t] + rest)[1..] == rest;
  }

  lemma BindAllStep(a: Alias, row: Row, rest: seq<Row>)
    ensures BindAll(a, [row] + rest) == [Bind(a, row)] + BindAll(a, rest)
    ensures BindAll(a, [] + rest) == BindAll(a, rest)
  {
    assert ([row] + rest)[1..] == rest;
    assert [] + rest == rest;
  }

  // ------------------------------------- a filter on the right of a join belongs in ON

  ghost predicate SeesRight(c: Cond, l: Tuple, rs: seq<Tuple>) {
    forall j | 0 <= j < |rs| :: Holds(c, l + rs[j]) <==> Holds(c, rs[j])
  }

  lemma {:induction false} OnFilters(l: Tuple, rs: seq<Tuple>, on: Cond, c: Cond)
    requires SeesRight(c, l, rs)
    ensures Pairs(l, rs, And(on, c)) == Pairs(l, Filter(c, rs), on)
  {
    if rs != [] {
      assert forall j | 0 <= j < |rs| - 1 :: rs[1..][j] == rs[j + 1];
      OnFilters(l, rs[1..], on, c);
      HoldsAnd(on, c, l + rs[0]);
      PairsStep(l, rs[0], Filter(c, rs[1..]), on);
      assert [] + Filter(c, rs[1..]) == Filter(c, rs[1..]);
    }
  }

  lemma HoldsAnd(a: Cond, b: Cond, t: Tuple)
    ensures Holds(And(a, b), t) <==> Holds(a, t) && Holds(b, t)
  {
  }

  lemma PairsStep(l: Tuple, r: Tuple, rest: seq<Tuple>, on: Cond)
    ensures Pairs(l, [r] + rest, on) == (if Holds(on, l + r) then [l + r] else []) + Pairs(l, rest, on)
  {
    assert ([r] + rest)[1..] == rest;
  }

  lemma {:induction false} OnFiltersAll(ls: seq<Tuple>, rs: seq<Tuple>, on: Cond, c: Cond, outer: bool)
    requires forall i | 0 <= i < |ls| :: SeesRight(c, ls[i], rs)
    ensures JoinAll(ls, rs, And(on, c), outer) == JoinAll(ls, Filter(c, rs), on, outer)
  {
    if ls != [] {
      OnFilters(ls[0], rs, on, c);
      assert forall i | 0 <= i < |ls| - 1 :: ls[1..][i] == ls[i + 1];
      OnFiltersAll(ls[1..], rs, on, c, outer);
    }
  }

  // ------------------------------------- a filter on the left of a join belongs in WHERE

  ghost predicate SeesLeft(c: Cond, l: Tuple, rs: seq<Tuple>) {
    forall j | 0 <= j < |rs| :: Holds(c, l + rs[j]) <==> Holds(c, l)
  }

  lemma {:induction false} FilterJoined(c: Cond, x: seq<Tuple>, y: seq<Tuple>)
    ensures Filter(c, x + y) == Filter(c, x) + Filter(c, y)
  {
    if x == [] {
      assert x + y == y;
    } else {
      FilterJoined(c, x[1..], y);
      assert x == [x[0]] + x[1..];
      FilterJoinedStep(c, x[0], x[1..], y);
    }
  }

  lemma FilterJoinedStep(c: Cond, t: Tuple, rest: seq<Tuple>, y: seq<Tuple>)
    requires Filter(c, rest + y) == Filter(c, rest) + Filter(c, y)
    ensures Filter(c, [t] + rest + y) == Filter(c, [t] + rest) + Filter(c, y)
  {
    FilterStep(c, t, rest + y);
    FilterStep(c, t, rest);
    assert [t] + rest + y == [t] + (rest + y);
    if !Holds(c, t) { assert [] + Filter(c, rest) == Filter(c, rest); }
  }

  lemma {:induction false} FilterPairs(l: Tuple, rs: seq<Tuple>, on: Cond, c: Cond)
    requires SeesLeft(c, l, rs)
    ensures Filter(c, Pairs(l, rs, on)) == if Holds(c, l) then Pairs(l, rs, on) else []
  {
    if rs != [] {
      assert forall j | 0 <= j < |rs| - 1 :: rs[1..][j] == rs[j + 1];
      FilterPairs(l, rs[1..], on, c);
      if Holds(on, l + rs[0]) {
        FilterJoined(c, [l + rs[0]], Pairs(l, rs[1..], on));
        FilterOne(c, l + rs[0]);
      } else {
        assert Pairs(l, rs, on) == Pairs(l, rs[1..], on);
      }
    }
  }

  lemma FilterOne(c: Cond, t: Tuple)
    ensures Filter(c, [t]) == if Holds(c, t) then [t] else []
  {
    assert [t][1..] == [];
  }

  lemma JoinStep(l: Tuple, rest: seq<Tuple>, rs: seq<Tuple>, on: Cond, outer: bool)
    ensures JoinAll([l] + rest, rs, on, outer) == JoinOne(l, rs, on, outer) + JoinAll(rest, rs, on, outer)
    ensures JoinAll([] + rest, rs, on, outer) == JoinAll(rest, rs, on, outer)
  {
    assert ([l] + rest)[1..] == rest && [] + rest == rest;
  }

  /** What is joined to a row that goes, goes with it. */
  lemma FilterJoinOne(l: Tuple, rs: seq<Tuple>, on: Cond, c: Cond, outer: bool)
    requires SeesLeft(c, l, rs)
    ensures Filter(c, JoinOne(l, rs, on, outer)) == if Holds(c, l) then JoinOne(l, rs, on, outer) else []
  {
    FilterPairs(l, rs, on, c);
    FilterOne(c, l);
  }

  lemma WhereFiltersStep(l: Tuple, rest: seq<Tuple>, rs: seq<Tuple>, on: Cond, c: Cond, outer: bool)
    requires SeesLeft(c, l, rs)
    requires Filter(c, JoinAll(rest, rs, on, outer)) == JoinAll(Filter(c, rest), rs, on, outer)
    ensures Filter(c, JoinAll([l] + rest, rs, on, outer)) == JoinAll(Filter(c, [l] + rest), rs, on, outer)
  {
    JoinStep(l, rest, rs, on, outer);
    FilterJoined(c, JoinOne(l, rs, on, outer), JoinAll(rest, rs, on, outer));
    FilterJoinOne(l, rs, on, c, outer);
    FilterStep(c, l, rest);
    JoinStep(l, Filter(c, rest), rs, on, outer);
  }

  lemma {:induction false} WhereFilters(ls: seq<Tuple>, rs: seq<Tuple>, on: Cond, c: Cond, outer: bool)
    requires forall i | 0 <= i < |ls| :: SeesLeft(c, ls[i], rs)
    ensures Filter(c, JoinAll(ls, rs, on, outer)) == JoinAll(Filter(c, ls), rs, on, outer)
  {
    if ls != [] {
      assert forall i | 0 <= i < |ls| - 1 :: ls[1..][i] == ls[i + 1];
      WhereFilters(ls[1..], rs, on, c, outer);
      assert ls == [ls[0]] + ls[1..];
      WhereFiltersStep(ls[0], ls[1..], rs, on, c, outer);
    }
  }

  // ---------------------------------------------------------------- the rewrite preserves meaning

  lemma {:induction false} SourceScoped(opts: seq<LoaderCriteria>, src: Source, db: Database)
    requires SourceOk(src)
    ensures Filter(SourceCriteria(opts, src), EvalSource(ScopeSource(opts, src), db))
      == EvalSource(src, Restrict(opts, db))
    decreases src
  {
    match src
    case Entity(a, m) => ScanRestricted(opts, m, a, Rows(db, m));
    case Derived(a, q) =>
      ScopingPreservesMeaning(opts, q, db);
      FilterAlways(EvalSource(ScopeSource(opts, src), db));
  }

  lemma {:induction false} FilterAlways(ts: seq<Tuple>)
    ensures Filter(Always, ts) == ts
  {
    if ts != [] { FilterAlways(ts[1..]); }
  }

  /** Criteria on the right source see only the right tuple, and criteria on the root see
      only the left one, because no alias is used twice. */
  lemma CriteriaSeeOneSide(opts: seq<LoaderCriteria>, l: From, r: Source, ls: seq<Tuple>, rs: seq<Tuple>)
    requires SourceAlias(r) !in Aliases(l)
    requires OnlyAliases(ls, Aliases(l)) && OnlyAliases(rs, {SourceAlias(r)})
    ensures forall i | 0 <= i < |ls| :: SeesRight(SourceCriteria(opts, r), ls[i], rs)
    ensures forall i | 0 <= i < |ls| :: SeesLeft(SourceCriteria(opts, Root(l)), ls[i], rs)
  {
    RootAlias(l);
    forall i, j | 0 <= i < |ls| && 0 <= j < |rs|
      ensures Holds(SourceCriteria(opts, r), ls[i] + rs[j]) <==> Holds(SourceCriteria(opts, r), rs[j])
      ensures Holds(SourceCriteria(opts, Root(l)), ls[i] + rs[j]) <==> Holds(SourceCriteria(opts, Root(l)), ls[i])
    {
      var t := ls[i] + rs[j];
      if r.Entity? { CriteriaReadAlias(opts, r.model, r.alias, t, rs[j]); }
      if Root(l).Entity? { CriteriaReadAlias(opts, Root(l).model, Root(l).alias, t, ls[i]); }
    }
  }

  lemma {:induction false} RootAlias(f: From)
    ensures SourceAlias(Root(f)) in Aliases(f)
  {
    if f.Join? { RootAlias(f.left); }
  }

  lemma {:induction false} ScopedAliases(opts: seq<LoaderCriteria>, f: From)
    ensures Aliases(ScopeFrom(opts, f)) == Aliases(f)
  {
    if f.Join? { ScopedAliases(opts, f.left); }
  }

  lemma {:induction false} FromScoped(opts: seq<LoaderCriteria>, f: From, db: Database)
    requires DistinctAliases(f)
    ensures Filter(SourceCriteria(opts, Root(f)), EvalFrom(ScopeFrom(opts, f), db))
      == EvalFrom(f, Restrict(opts, db))
    decreases f
  {
    match f
    case Of(src) => SourceScoped(opts, src, db);
    case Join(l, r, on, outer) =>
      FromScoped(opts, l, db);
      SourceScoped(opts, r, db);
      JoinScoped(opts, l, r, on, outer, db);
  }

  lemma JoinScoped(opts: seq<LoaderCriteria>, l: From, r: Source, on: Cond, outer: bool, db: Database)
    requires DistinctAliases(Join(l, r, on, outer))
    requires Filter(SourceCriteria(opts, Root(l)), EvalFrom(ScopeFrom(opts, l), db)) == EvalFrom(l, Restrict(opts, db))
    requires Filter(SourceCriteria(opts, r), EvalSource(ScopeSource(opts, r), db)) == EvalSource(r, Restrict(opts, db))
    ensures Filter(SourceCriteria(opts, Root(l)),
        JoinAll(EvalFrom(ScopeFrom(opts, l), db), EvalSource(ScopeSource(opts, r), db),
          And(on, SourceCriteria(opts, r)), outer))
      == JoinAll(EvalFrom(l, Restrict(opts, db)), EvalSource(r, Restrict(opts, db)), on, outer)
  {
    var ls, rs := EvalFrom(ScopeFrom(opts, l), db), EvalSource(ScopeSource(opts, r), db);
    var cl, cr := SourceCriteria(opts, Root(l)), SourceCriteria(opts, r);
    FromAliases(ScopeFrom(opts, l), db);
    ScopedAliases(opts, l);
    SourceAliases(ScopeSource(opts, r), db);
    CriteriaSeeOneSide(opts, l, r, ls, rs);
    WhereFilters(ls, rs, And(on, cr), cl, outer);
    FilteredSeesRight(cl, cr, ls, rs);
    OnFiltersAll(Filter(cl, ls), rs, on, cr, outer);
  }

  lemma {:induction false} FilteredSeesRight(cl: Cond, cr: Cond, ls: seq<Tuple>, rs: seq<Tuple>)
    requires forall i | 0 <= i < |ls| :: SeesRight(cr, ls[i], rs)
    ensures forall i | 0 <= i < |Filter(cl, ls)| :: SeesRight(cr, Filter(cl, ls)[i], rs)
  {
    if ls != [] {
      assert forall i | 0 <= i < |ls| - 1 :: ls[1..][i] == ls[i + 1];
      FilteredSeesRight(cl, cr, ls[1..], rs);
    }
  }

  lemma {:induction false} FilterAnd(a: Cond, b: Cond, ts: seq<Tuple>)
    ensures Filter(And(a, b), ts) == Filter(a, Filter(b, ts))
  {
    if ts != [] {
      FilterAnd(a, b, ts[1..]);
      if Holds(b, ts[0]) {
        assert ([ts[0]] + Filter(b, ts[1..]))[1..] == Filter(b, ts[1..]);
      } else {
        assert [] + Filter(b, ts[1..]) == Filter(b, ts[1..]);
      }
    }
  }

  /** The statement the database receives, run on the whole database, returns what the
      statement as written returns on the rows the criteria admit. */
  lemma {:induction false} ScopingPreservesMeaning(opts: seq<LoaderCriteria>, q: Query, db: Database)
    requires QueryOk(q)
    ensures EvalQuery(Scope(opts, q), db) == EvalQuery(q, Restrict(opts, db))
    decreases q
  {
    FromScoped(opts, q.from, db);
    FilterAnd(q.where, SourceCriteria(opts, Root(q.from)), EvalFrom(ScopeFrom(opts, q.from), db));
  }

  // ---------------------------------------------------------------- order and relevance

  lemma {:induction false} KeepTwice(o: seq<LoaderCriteria>, p: seq<LoaderCriteria>, m: Model, rows: seq<Row>)
    ensures Keep(p, m, Keep(o, m, rows)) == Keep(o + p, m, rows)
  {
    if rows != [] {
      KeepTwice(o, p, m, rows[1..]);
      PassesBoth(o, p, m, rows[0]);
      var rest := Keep(o, m, rows[1..]);
      assert ([rows[0]] + rest)[1..] == rest;
      assert [] + rest == rest;
    }
  }

  lemma PassesBoth(o: seq<LoaderCriteria>, p: seq<LoaderCriteria>, m: Model, row: Row)
    ensures Passes(o + p, m, row) <==> Passes(o, m, row) && Passes(p, m, row)
  {
    if Passes(o + p, m, row) {
      forall j | 0 <= j < |o| && o[j].model == m ensures Admits(o[j].criterion, row) { assert (o + p)[j] == o[j]; }
      forall j | 0 <= j < |p| && p[j].model == m ensures Admits(p[j].criterion, row) { assert (o + p)[|o| + j] == p[j]; }
    }
  }

  lemma {:induction false} KeepSame(o: seq<LoaderCriteria>, p: seq<LoaderCriteria>, m: Model, rows: seq<Row>)
    requires forall row :: Passes(o, m, row) <==> Passes(p, m, row)
    ensures Keep(o, m, rows) == Keep(p, m, rows)
  {
    if rows != [] { KeepSame(o, p, m, rows[1..]); }
  }

  lemma KeepEitherWay(o: seq<LoaderCriteria>, p: seq<LoaderCriteria>, m: Model, rows: seq<Row>)
    ensures Keep(o + p, m, rows) == Keep(p + o, m, rows) == Keep(p, m, Keep(o, m, rows))
  {
    KeepTwice(o, p, m, rows);
    forall row ensures Passes(o + p, m, row) <==> Passes(p + o, m, row) {
      PassesBoth(o, p, m, row);
      PassesBoth(p, o, m, row);
    }
    KeepSame(o + p, p + o, m, rows);
  }

  lemma RestrictEitherWay(o: seq<LoaderCriteria>, p: seq<LoaderCriteria>, db: Database)
    ensures Restrict(o + p, db) == Restrict(p + o, db) == Restrict(p, Restrict(o, db))
  {
    forall m | m in db
      ensures Keep(o + p, m, db[m]) == Keep(p + o, m, db[m]) == Keep(p, m, Keep(o, m, db[m]))
    {
      KeepEitherWay(o, p, m, db[m]);
    }
  }

  /** The listeners may run in any order: what they attach means the same either way round. */
  lemma ListenersCommute(o: seq<LoaderCriteria>, p: seq<LoaderCriteria>, q: Query, db: Database)
    requires QueryOk(q)
    ensures EvalQuery(Scope(o + p, q), db) == EvalQuery(Scope(p + o, q), db)
    ensures EvalQuery(Scope(o + p, q), db) == EvalQuery(q, Restrict(p, Restrict(o, db)))
  {
    ScopingPreservesMeaning(o + p, q, db);
    ScopingPreservesMeaning(p + o, q, db);
    RestrictEitherWay(o, p, db);
  }

  lemma {:induction false} KeepAll(o: seq<LoaderCriteria>, m: Model, rows: seq<Row>)
    requires forall j | 0 <= j < |o| :: o[j].model != m
    ensures Keep(o, m, rows) == rows
  {
    if rows != [] { KeepAll(o, m, rows[1..]); }
  }

  /** Criteria for models the statement does not read, subqueries included, change nothing. */
  lemma IrrelevantCriteria(o: seq<LoaderCriteria>, q: Query, db: Database)
    requires QueryOk(q)
    requires forall j | 0 <= j < |o| :: o[j].model !in Models(q)
    ensures EvalQuery(Scope(o, q), db) == EvalQuery(q, db)
  {
    ScopingPreservesMeaning(o, q, db);
    forall m | m in Models(q) ensures Rows(Restrict(o, db), m) == Rows(db, m) {
      if m in db { KeepAll(o, m, db[m]); }
    }
    ReadsItsModels(q, Restrict(o, db), db);
  }

  // ---------------------------------------------------------------- isolation of one statement

  /** The two databases hold the same rows of this tenant. */
  ghost predicate AgreeOnTenant(t: int, ms: set<Model>, db: Database, db': Database) {
    forall m | m in ms ::
      Keep([LoaderCriteria(m, TenantIs(t))], m, Rows(db, m)) == Keep([LoaderCriteria(m, TenantIs(t))], m, Rows(db', m))
  }

  /** Rows one attached criterion turns away make no difference. */
  lemma {:induction false} KeepThrough(o: seq<LoaderCriteria>, c: Criterion, m: Model, rows: seq<Row>)
    requires LoaderCriteria(m, c) in o
    ensures Keep(o, m, rows) == Keep(o, m, Keep([LoaderCriteria(m, c)], m, rows))
  {
    var one := [LoaderCriteria(m, c)];
    KeepTwice(one, o, m, rows);
    forall row ensures Passes(one + o, m, row) <==> Passes(o, m, row) {
      PassesBoth(one, o, m, row);
      if Passes(o, m, row) {
        var j :| 0 <= j < |o| && o[j] == LoaderCriteria(m, c);
        assert Admits(o[j].criterion, row);
      }
    }
    KeepSame(one + o, o, m, rows);
  }

  /** A statement whose every model carries the tenant criterion returns the same rows on any
      two databases that agree on that tenant's rows. */
  lemma ScopedStatementSeesOneTenant(o: seq<LoaderCriteria>, t: int, q: Query, db: Database, db': Database)
    requires QueryOk(q)
    requires forall m | m in Models(q) :: LoaderCriteria(m, TenantIs(t)) in o
    requires AgreeOnTenant(t, Models(q), db, db')
    ensures EvalQuery(Scope(o, q), db) == EvalQuery(Scope(o, q), db')
  {
    ScopingPreservesMeaning(o, q, db);
    ScopingPreservesMeaning(o, q, db');
    forall m | m in Models(q) ensures Rows(Restrict(o, db), m) == Rows(Restrict(o, db'), m) {
      KeepThrough(o, TenantIs(t), m, Rows(db, m));
      KeepThrough(o, TenantIs(t), m, Rows(db', m));
    }
    ReadsItsModels(q, Restrict(o, db), Restrict(o, db'));
  }

  // ---------------------------------------------------------------- the listeners

  /** What `session.info` holds for the listeners. */
  datatype SessionInfo = SessionInfo(tenant: Option<int>, orgUnits: set<int>, includeDeleted: bool)

  /** One statement on its way to the database. */
  class ExecuteState {
    const isSelect: bool
    const isColumnLoad: bool
    const isRelationshipLoad: bool
    const info: SessionInfo
    var options: seq<LoaderCriteria>

    constructor (isSelect: bool, isColumnLoad: bool, isRelationshipLoad: bool, info: SessionInfo)
      ensures this.isSelect == isSelect && this.isColumnLoad == isColumnLoad
      ensures this.isRelationshipLoad == isRelationshipLoad && this.info == info
      ensures options == []
    {
      this.isSelect := isSelect;
      this.isColumnLoad := isColumnLoad;
      this.isRelationshipLoad := isRelationshipLoad;
      this.info := info;
      options := [];
    }

    /** Anything but a SELECT, and a SELECT that only reloads what was filtered before. */
    predicate Exempt()
      ensures Exempt() <==> !(isSelect && !isColumnLoad && !isRelationshipLoad)
    {
      !isSelect || isColumnLoad || isRelationshipLoad
    }

    /** `_scope_query_to_tenant` */
    method ScopeQueryToTenant(mappers: seq<Model>)
      modifies this`options
      ensures options == old(options) +
        if isSelect && !isColumnLoad && !isRelationshipLoad then TenantOptions(info, mappers) else []
    {
      if Exempt() { return; }
      if info.tenant.None? { return; }
      Attach(mappers, TenantIs(info.tenant.value));
    }

    /** `_scope_query_to_org_units` */
    method ScopeQueryToOrgUnits(mappers: seq<Model>)
      modifies this`options
      ensures options == old(options) +
        if isSelect && !isColumnLoad && !isRelationshipLoad then OrgOptions(info, mappers) else []
    {
      if Exempt() { return; }
      if info.orgUnits == {} { return; }
      Attach(mappers, OrgUnitIn(info.orgUnits));
    }

    /** `_exclude_soft_deleted` */
    method ExcludeSoftDeleted(mappers: seq<Model>)
      modifies this`options
      ensures options == old(options) +
        if isSelect && !isColumnLoad && !isRelationshipLoad then SoftDeleteOptions(info, mappers) else []
    {
      if Exempt() { return; }
      if info.includeDeleted { return; }
      Attach(mappers, NotDeleted);
    }

    /** All three, as the session fires them for one statement. */
    method Prepare(reg: Registry)
      requires options == []
      modifies this`options
      ensures options ==
        if isSelect && !isColumnLoad && !isRelationshipLoad then SessionOptions(info, reg) else []
    {
      ScopeQueryToTenant(reg.tenant);
      assert Exempt() || options == TenantOptions(info, reg.tenant);
      ScopeQueryToOrgUnits(reg.org);
      assert Exempt() || options == TenantOptions(info, reg.tenant) + OrgOptions(info, reg.org);
      ExcludeSoftDeleted(reg.soft);
    }

    /** A SELECT from the listeners to its rows: an ordinary one means what it says on the rows
        the session may see, a reload on all of them. */
    method Execute(reg: Registry, q: Query, db: Database) returns (rows: seq<seq<Value>>)
      requires options == [] && isSelect && QueryOk(q)
      modifies this`options
      ensures !isColumnLoad && !isRelationshipLoad ==> rows == EvalQuery(q, VisibleDatabase(info, reg, db))
      ensures isColumnLoad || isRelationshipLoad ==> rows == EvalQuery(q, db)
    {
      Prepare(reg);
      rows := EvalQuery(Scope(options, q), db);
      if isColumnLoad || isRelationshipLoad {
        IrrelevantCriteria([], q, db);
      } else {
        SessionSeesVisibleRows(info, reg, q, db);
      }
    }

    /** The loop the three listeners share. */
    method Attach(mappers: seq<Model>, c: Criterion)
      modifies this`options
      ensures options == old(options) + ForEach(mappers, c)
    {
      for i := 0 to |mappers|
        invariant options == old(options) + ForEach(mappers[..i], c)
      {
        assert mappers[..i + 1] == mappers[..i] + [mappers[i]];
        options := options + [LoaderCriteria(mappers[i], c)];
      }
      assert mappers[..|mappers|] == mappers;
    }
  }

  function ForEach(mappers: seq<Model>, c: Criterion): (opts: seq<LoaderCriteria>)
    ensures |opts| == |mappers| && forall j | 0 <= j < |mappers| :: opts[j] == LoaderCriteria(mappers[j], c)
  {
    seq(|mappers|, j requires 0 <= j < |mappers| => LoaderCriteria(mappers[j], c))
  }

  function TenantOptions(info: SessionInfo, mappers: seq<Model>): seq<LoaderCriteria> {
    match info.tenant case Some(t) => ForEach(mappers, TenantIs(t)) case None => []
  }

  function OrgOptions(info: SessionInfo, mappers: seq<Model>): seq<LoaderCriteria> {
    if info.orgUnits == {} then [] else ForEach(mappers, OrgUnitIn(info.orgUnits))
  }

  function SoftDeleteOptions(info: SessionInfo, mappers: seq<Model>): seq<LoaderCriteria> {
    if info.includeDeleted then [] else ForEach(mappers, NotDeleted)
  }

  /** Which models carry `tenant_id`, `org_unit_id` and the soft-delete columns. */
  datatype Registry = Registry(tenant: seq<Model>, org: seq<Model>, soft: seq<Model>)

  function SessionOptions(info: SessionInfo, reg: Registry): seq<LoaderCriteria> {
    TenantOptions(info, reg.tenant) + OrgOptions(info, reg.org) + SoftDeleteOptions(info, reg.soft)
  }

  /** A row this session may see of a model: its own tenant's if one is bound, of its units or
      of none if it has a scope, and not withdrawn unless it asked for withdrawn rows. */
  predicate Visible(info: SessionInfo, reg: Registry, m: Model, row: Row) {
    && (info.tenant.Some? && m in reg.tenant ==> ValueOf(row, TenantId) == Num(info.tenant.value))
    && (info.orgUnits != {} && m in reg.org ==>
          ValueOf(row, OrgUnitId) == Null || ValueOf(row, OrgUnitId).n in info.orgUnits)
    && (!info.includeDeleted && m in reg.soft ==> ValueOf(row, DeletedAt) == Null)
  }

  lemma PassesForEach(mappers: seq<Model>, c: Criterion, m: Model, row: Row)
    ensures Passes(ForEach(mappers, c), m, row) <==> (m in mappers ==> Admits(c, row))
  {
    var opts := ForEach(mappers, c);
    if m in mappers && Passes(opts, m, row) {
      var j :| 0 <= j < |mappers| && mappers[j] == m;
      assert opts[j] == LoaderCriteria(m, c);
    }
  }

  lemma VisibleIsPasses(info: SessionInfo, reg: Registry, m: Model, row: Row)
    ensures Visible(info, reg, m, row) <==> Passes(SessionOptions(info, reg), m, row)
  {
    var t, o, s := TenantOptions(info, reg.tenant), OrgOptions(info, reg.org), SoftDeleteOptions(info, reg.soft);
    PassesBoth(t + o, s, m, row);
    PassesBoth(t, o, m, row);
    if info.tenant.Some? { PassesForEach(reg.tenant, TenantIs(info.tenant.value), m, row); }
    if info.orgUnits != {} { PassesForEach(reg.org, OrgUnitIn(info.orgUnits), m, row); }
    if !info.includeDeleted { PassesForEach(reg.soft, NotDeleted, m, row); }
  }

  function VisibleRows(info: SessionInfo, reg: Registry, m: Model, rows: seq<Row>): seq<Row> {
    if rows == [] then []
    else (if Visible(info, reg, m, rows[0]) then [rows[0]] else []) + VisibleRows(info, reg, m, rows[1..])
  }

  lemma {:induction false} VisibleRowsAreKept(info: SessionInfo, reg: Registry, m: Model, rows: seq<Row>)
    ensures VisibleRows(info, reg, m, rows) == Keep(SessionOptions(info, reg), m, rows)
  {
    if rows != [] {
      VisibleIsPasses(info, reg, m, rows[0]);
      VisibleRowsAreKept(info, reg, m, rows[1..]);
    }
  }

  function VisibleDatabase(info: SessionInfo, reg: Registry, db: Database): Database {
    map m | m in db :: VisibleRows(info, reg, m, db[m])
  }

  /** Every SELECT a session issues means what it says, on the rows that session may see. */
  lemma SessionSeesVisibleRows(info: SessionInfo, reg: Registry, q: Query, db: Database)
    requires QueryOk(q)
    ensures EvalQuery(Scope(SessionOptions(info, reg), q), db) == EvalQuery(q, VisibleDatabase(info, reg, db))
  {
    var opts := SessionOptions(info, reg);
    ScopingPreservesMeaning(opts, q, db);
    forall m | m in db ensures VisibleRows(info, reg, m, db[m]) == Keep(opts, m, db[m]) {
      VisibleRowsAreKept(info, reg, m, db[m]);
    }
    assert VisibleDatabase(info, reg, db) == Restrict(opts, db);
  }

  /** The two databases differ at most in withdrawn rows of soft-deletable models. */
  ghost predicate AgreeOnLiveRows(soft: seq<Model>, ms: set<Model>, db: Database, db': Database) {
    forall m | m in ms ::
      if m in soft
      then Keep([LoaderCriteria(m, NotDeleted)], m, Rows(db, m)) == Keep([LoaderCriteria(m, NotDeleted)], m, Rows(db', m))
      else Rows(db, m) == Rows(db', m)
  }

  lemma SoftCriterionAttached(info: SessionInfo, reg: Registry, m: Model)
    requires !info.includeDeleted && m in reg.soft
    ensures LoaderCriteria(m, NotDeleted) in SessionOptions(info, reg)
  {
    var j :| 0 <= j < |reg.soft| && reg.soft[j] == m;
    assert SoftDeleteOptions(info, reg.soft)[j] == LoaderCriteria(m, NotDeleted);
    assert LoaderCriteria(m, NotDeleted) in SoftDeleteOptions(info, reg.soft);
  }

  lemma LiveRowsDecide(info: SessionInfo, reg: Registry, models: set<Model>, db: Database, db': Database, m: Model)
    requires !info.includeDeleted && AgreeOnLiveRows(reg.soft, models, db, db') && m in models
    ensures var o := SessionOptions(info, reg); Rows(Restrict(o, db), m) == Rows(Restrict(o, db'), m)
  {
    if m in reg.soft {
      var o := SessionOptions(info, reg);
      SoftCriterionAttached(info, reg, m);
      KeepThrough(o, NotDeleted, m, Rows(db, m));
      KeepThrough(o, NotDeleted, m, Rows(db', m));
    }
  }

  /** A withdrawn row appears in no ordinary query, whatever it joins, groups or nests. */
  lemma WithdrawnRowsMakeNoDifference(info: SessionInfo, reg: Registry, q: Query, db: Database, db': Database)
    requires QueryOk(q) && !info.includeDeleted
    requires AgreeOnLiveRows(reg.soft, Models(q), db, db')
    ensures EvalQuery(Scope(SessionOptions(info, reg), q), db) == EvalQuery(Scope(SessionOptions(info, reg), q), db')
  {
    var o := SessionOptions(info, reg);
    ScopingPreservesMeaning(o, q, db);
    ScopingPreservesMeaning(o, q, db');
    forall m | m in Models(q) ensures Rows(Restrict(o, db), m) == Rows(Restrict(o, db'), m) {
      LiveRowsDecide(info, reg, Models(q), db, db', m);
    }
    ReadsItsModels(q, Restrict(o, db), Restrict(o, db'));
  }
}
