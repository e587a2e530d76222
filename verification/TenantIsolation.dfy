/** Many sessions, one pool, one database: the invariant that ties every open transaction's
    setting to its session's tenant, and noninterference between tenants over whole runs. */
module TenantIsolation {
  import opened Wrappers
  import opened TenantSessions

  datatype Session = Session(tenant: Option<Tenant>, conn: Option<ConnectionId>, writes: Writes, failed: bool)

  datatype System = System(store: Store, gucs: map<ConnectionId, Tenant>, sessions: map<SessionId, Session>)

  /** `pooled` is the connection the pool hands out if the session holds none. */
  datatype Event =
    | Bind(s: SessionId, tenant: Tenant, pooled: ConnectionId)
    | Run(s: SessionId, stmt: Statement, pooled: ConnectionId)
    | Commit(s: SessionId)
    | Rollback(s: SessionId)

  function SessionOf(y: System, s: SessionId): Session {
    if s in y.sessions then y.sessions[s] else Session(None, None, map[], false)
  }

  function GucOf(y: System, c: ConnectionId): Option<Tenant> {
    if c in y.gucs then Some(y.gucs[c]) else None
  }

  function LocalOf(y: System, s: SessionId): Local {
    var x := SessionOf(y, s);
    Local(x.tenant, x.conn.Some?, if x.conn.Some? then GucOf(y, x.conn.value) else None, x.writes, x.failed)
  }

  /** The connection an event of this session works on. */
  function ConnFor(y: System, s: SessionId, pooled: ConnectionId): ConnectionId {
    match SessionOf(y, s).conn case Some(c) => c case None => pooled
  }

  function SetGuc(gucs: map<ConnectionId, Tenant>, c: ConnectionId, guc: Option<Tenant>): map<ConnectionId, Tenant> {
    match guc case Some(t) => gucs[c := t] case None => gucs - {c}
  }

  /** The system after the session's own view became `l`, working on connection `c`. */
  function Install(y: System, s: SessionId, c: ConnectionId, l: Local): System {
    System(y.store, SetGuc(y.gucs, c, l.guc),
      y.sessions[s := Session(l.tenant, if l.open then Some(c) else None, l.writes, l.failed)])
  }

  function Step(y: System, e: Event): (System, Outcome) {
    match e
    case Bind(s, t, p) =>
      (Install(y, s, ConnFor(y, s, p), TenantSessions.Bind(LocalOf(y, s), t)), Silent)
    case Run(s, stmt, p) =>
      var (l, outcome) := Execute(LocalOf(y, s), y.store, stmt);
      (Install(y, s, ConnFor(y, s, p), l), outcome)
    case Commit(s) =>
      if SessionOf(y, s).conn.None? then (y, Silent)
      else
        var l := LocalOf(y, s);
        (Install(y, s, SessionOf(y, s).conn.value, Finish(l)).(store := CommitStore(l, y.store)), Silent)
    case Rollback(s) =>
      if SessionOf(y, s).conn.None? then (y, Silent)
      else (Install(y, s, SessionOf(y, s).conn.value, Finish(LocalOf(y, s))), Silent)
  }

  predicate Holds(y: System, s: SessionId, c: ConnectionId) { SessionOf(y, s).conn == Some(c) }

  /** The pool hands out a connection only when no session holds it. */
  ghost predicate Enabled(y: System, e: Event) {
    (e.Bind? || e.Run?) && SessionOf(y, e.s).conn.None? ==> forall s :: !Holds(y, s, e.pooled)
  }

  ghost predicate Legal(y: System, run: seq<Event>)
    decreases |run|
  {
    run == [] || (Enabled(y, run[0]) && Legal(Step(y, run[0]).0, run[1..]))
  }

  function After(y: System, run: seq<Event>): System
    decreases |run|
  {
    if run == [] then y else After(Step(y, run[0]).0, run[1..])
  }

  // ---------------------------------------------------------------- the protocol's discipline

  /** Which tenant each session is bound to, when it is; a session never changes tenant. */
  type Owners = map<SessionId, Tenant>

  predicate Disciplined(own: Owners, e: Event) {
    e.Bind? ==> e.s in own && own[e.s] == e.tenant
  }

  predicate AllDisciplined(own: Owners, run: seq<Event>) {
    forall j | 0 <= j < |run| :: Disciplined(own, run[j])
  }

  predicate OwnedBy(own: Owners, s: SessionId, t: Tenant) { s in own && own[s] == t }

  // ---------------------------------------------------------------- the invariant

  /** One session's view is in order: an open transaction that has not been aborted runs under
      exactly the session's tenant, bound or not; no other setting is ever left on its
      connection; and it has only changed rows of its own tenant. */
  ghost predicate LocalOk(own: Owners, s: SessionId, l: Local) {
    && (l.tenant.Some? ==> OwnedBy(own, s, l.tenant.value))
    && (l.open && !l.failed ==> l.guc == l.tenant)
    && (l.guc.Some? ==> l.guc == l.tenant)
    && (!l.open ==> l.guc == None && l.writes == map[] && !l.failed)
    && (forall id | id in l.writes :: OwnedBy(own, s, id.tenant))
  }

  ghost predicate Inv(own: Owners, y: System) {
    && (forall s :: LocalOk(own, s, LocalOf(y, s)))
    && (forall s, s', c | Holds(y, s, c) && Holds(y, s', c) :: s == s')
    && (forall c | c in y.gucs :: exists s :: Holds(y, s, c))
  }

  lemma BindKeepsLocal(own: Owners, s: SessionId, l: Local, t: Tenant)
    requires LocalOk(own, s, l) && OwnedBy(own, s, t)
    ensures LocalOk(own, s, TenantSessions.Bind(l, t)) && TenantSessions.Bind(l, t).open
  {
  }

  lemma ExecuteKeepsLocal(own: Owners, s: SessionId, l: Local, store: Store, stmt: Statement)
    requires LocalOk(own, s, l)
    ensures LocalOk(own, s, Execute(l, store, stmt).0) && Execute(l, store, stmt).0.open
  {
  }

  /** Replacing one session's view leaves every other session's view as it was. */
  lemma InstallFrames(own: Owners, y: System, s: SessionId, c: ConnectionId, l: Local)
    requires Inv(own, y)
    requires forall s' | Holds(y, s', c) :: s' == s
    requires SessionOf(y, s).conn.Some? ==> SessionOf(y, s).conn.value == c
    requires !l.open ==> l.guc == None
    ensures LocalOf(Install(y, s, c, l), s) == l
    ensures forall s' | s' != s :: SessionOf(Install(y, s, c, l), s') == SessionOf(y, s')
    ensures forall s' | s' != s :: LocalOf(Install(y, s, c, l), s') == LocalOf(y, s')
  {
    var y' := Install(y, s, c, l);
    forall s' | s' != s
      ensures SessionOf(y', s') == SessionOf(y, s') && LocalOf(y', s') == LocalOf(y, s')
    {
      var conn := SessionOf(y, s').conn;
      if conn.Some? {
        assert Holds(y, s', conn.value);
        assert GucOf(y', conn.value) == GucOf(y, conn.value);
      }
    }
  }

  lemma InstallKeepsInv(own: Owners, y: System, s: SessionId, c: ConnectionId, l: Local, store: Store)
    requires Inv(own, y) && LocalOk(own, s, l)
    requires forall s' | Holds(y, s', c) :: s' == s
    requires SessionOf(y, s).conn.Some? ==> SessionOf(y, s).conn.value == c
    ensures Inv(own, Install(y, s, c, l).(store := store))
  {
    var y' := Install(y, s, c, l).(store := store);
    InstallFrames(own, y, s, c, l);
    forall s' ensures LocalOf(y', s') == LocalOf(Install(y, s, c, l), s') { }
    forall s' ensures LocalOk(own, s', LocalOf(y', s')) {
      if s' != s { assert LocalOk(own, s', LocalOf(y, s')); }
    }
    InstallKeepsPool(own, y, s, c, l, store);
  }

  lemma InstallKeepsPool(own: Owners, y: System, s: SessionId, c: ConnectionId, l: Local, store: Store)
    requires Inv(own, y) && LocalOk(own, s, l)
    requires forall s' | Holds(y, s', c) :: s' == s
    requires SessionOf(y, s).conn.Some? ==> SessionOf(y, s).conn.value == c
    ensures var y' := Install(y, s, c, l).(store := store);
      && (forall a, b, d | Holds(y', a, d) && Holds(y', b, d) :: a == b)
      && (forall d | d in y'.gucs :: exists a :: Holds(y', a, d))
  {
    var y' := Install(y, s, c, l).(store := store);
    assert forall a, d | a != s :: Holds(y', a, d) <==> Holds(y, a, d);
    assert forall d | Holds(y', s, d) :: d == c;
    forall a, b, d | Holds(y', a, d) && Holds(y', b, d) ensures a == b {
      if a != s && b != s { assert Holds(y, a, d) && Holds(y, b, d); }
    }
    forall d | d in y'.gucs ensures exists a :: Holds(y', a, d) {
      if d == c {
        assert Holds(y', s, c);
      } else {
        var a :| Holds(y, a, d);
        assert Holds(y', a, d);
      }
    }
  }

  lemma ConnIsExclusive(own: Owners, y: System, s: SessionId, p: ConnectionId)
    requires Inv(own, y)
    requires SessionOf(y, s).conn.None? ==> forall s' :: !Holds(y, s', p)
    ensures forall s' | Holds(y, s', ConnFor(y, s, p)) :: s' == s
  {
    if SessionOf(y, s).conn.Some? { assert Holds(y, s, SessionOf(y, s).conn.value); }
  }

  lemma HolderIsAlone(own: Owners, y: System, s: SessionId)
    requires Inv(own, y) && SessionOf(y, s).conn.Some?
    ensures forall s' | Holds(y, s', SessionOf(y, s).conn.value) :: s' == s
  {
    assert Holds(y, s, SessionOf(y, s).conn.value);
  }

  /** Every step keeps the invariant, however sessions and connections interleave. */
  lemma StepKeepsInv(own: Owners, y: System, e: Event)
    requires Inv(own, y) && Enabled(y, e) && Disciplined(own, e)
    ensures Inv(own, Step(y, e).0)
  {
    var l := LocalOf(y, e.s);
    assert LocalOk(own, e.s, l);
    match e
    case Bind(s, t, p) =>
      ConnIsExclusive(own, y, s, p);
      BindKeepsLocal(own, s, l, t);
      InstallKeepsInv(own, y, s, ConnFor(y, s, p), TenantSessions.Bind(l, t), y.store);
    case Run(s, stmt, p) =>
      ConnIsExclusive(own, y, s, p);
      ExecuteKeepsLocal(own, s, l, y.store, stmt);
      InstallKeepsInv(own, y, s, ConnFor(y, s, p), Execute(l, y.store, stmt).0, y.store);
    case Commit(s) =>
      if SessionOf(y, s).conn.Some? {
        HolderIsAlone(own, y, s);
        InstallKeepsInv(own, y, s, SessionOf(y, s).conn.value, Finish(l), CommitStore(l, y.store));
      }
    case Rollback(s) =>
      if SessionOf(y, s).conn.Some? {
        HolderIsAlone(own, y, s);
        InstallKeepsInv(own, y, s, SessionOf(y, s).conn.value, Finish(l), y.store);
      }
  }

  /** The protocol invariant holds after every legal run. */
  lemma {:induction false} RunKeepsInv(own: Owners, y: System, run: seq<Event>)
    requires Inv(own, y) && Legal(y, run) && AllDisciplined(own, run)
    ensures Inv(own, After(y, run))
    decreases |run|
  {
    if run != [] {
      assert Disciplined(own, run[0]);
      assert AllDisciplined(own, run[1..]) by {
        forall j | 0 <= j < |run| - 1 ensures Disciplined(own, run[1..][j]) { assert run[1..][j] == run[j + 1]; }
      }
      StepKeepsInv(own, y, run[0]);
      RunKeepsInv(own, Step(y, run[0]).0, run[1..]);
    }
  }

  /** What the invariant says in the protocol's own terms. */
  lemma SettingFollowsSession(own: Owners, y: System, s: SessionId, c: ConnectionId)
    requires Inv(own, y)
    ensures Holds(y, s, c) && !SessionOf(y, s).failed ==> GucOf(y, c) == SessionOf(y, s).tenant
    ensures Holds(y, s, c) && SessionOf(y, s).tenant.None? ==> GucOf(y, c) == None
    ensures (forall s' :: !Holds(y, s', c)) ==> GucOf(y, c) == None
  {
    assert LocalOk(own, s, LocalOf(y, s));
  }

  // ---------------------------------------------------------------- confinement

  /** A statement only ever returns rows of the tenant the session is bound to. */
  lemma ReadsOwnTenantOnly(own: Owners, y: System, s: SessionId, p: ConnectionId)
    requires Inv(own, y)
    ensures var out := Step(y, Run(s, Read, p)).1;
      out.Rows? ==> forall id | id in out.rows :: OwnedBy(own, s, id.tenant)
  {
    assert LocalOk(own, s, LocalOf(y, s));
  }

  lemma CommitConfined(own: Owners, s: SessionId, l: Local, store: Store, id: RowId)
    requires LocalOk(own, s, l) && !OwnedBy(own, s, id.tenant)
    ensures id in CommitStore(l, store) <==> id in store
    ensures id in store ==> CommitStore(l, store)[id] == store[id]
  {
  }

  /** No step of a session changes a row of any tenant but its own. */
  lemma WritesOwnTenantOnly(own: Owners, y: System, e: Event, id: RowId)
    requires Inv(own, y) && !OwnedBy(own, e.s, id.tenant)
    ensures id in Step(y, e).0.store <==> id in y.store
    ensures id in y.store ==> Step(y, e).0.store[id] == y.store[id]
  {
    assert LocalOk(own, e.s, LocalOf(y, e.s));
    CommitConfined(own, e.s, LocalOf(y, e.s), y.store, id);
  }

  // ---------------------------------------------------------------- noninterference

  function RowsOf(store: Store, t: Tenant): Store { map id | id in store && id.tenant == t :: store[id] }

  /** The run with every other tenant's steps, and every unbound session's, deleted. */
  function Purge(own: Owners, t: Tenant, run: seq<Event>): seq<Event> {
    if run == [] then []
    else (if OwnedBy(own, run[0].s, t) then [run[0]] else []) + Purge(own, t, run[1..])
  }

  /** What tenant `t`'s sessions observe, step by step. */
  function Observed(own: Owners, t: Tenant, y: System, run: seq<Event>): seq<Outcome>
    decreases |run|
  {
    if run == [] then []
    else
      (if OwnedBy(own, run[0].s, t) then [Step(y, run[0]).1] else [])
      + Observed(own, t, Step(y, run[0]).0, run[1..])
  }

  /** `z` is `y` as tenant `t` can tell: the same rows of `t`, the same views of `t`'s own
      sessions on the same connections, and nobody else holding one. */
  ghost predicate LooksLike(own: Owners, t: Tenant, y: System, z: System) {
    && RowsOf(y.store, t) == RowsOf(z.store, t)
    && (forall s | OwnedBy(own, s, t) :: SessionOf(y, s) == SessionOf(z, s) && LocalOf(y, s) == LocalOf(z, s))
    && (forall s | !OwnedBy(own, s, t) :: SessionOf(z, s).conn == None)
  }

  /** Another tenant's step is invisible to `t`. */
  lemma OtherStepInvisible(own: Owners, t: Tenant, y: System, z: System, e: Event)
    requires Inv(own, y) && Enabled(y, e) && Disciplined(own, e)
    requires LooksLike(own, t, y, z) && !OwnedBy(own, e.s, t)
    ensures LooksLike(own, t, Step(y, e).0, z)
  {
    var y' := Step(y, e).0;
    forall id: RowId | id.tenant == t
      ensures id in y'.store <==> id in y.store
      ensures id in y.store ==> y'.store[id] == y.store[id]
    {
      WritesOwnTenantOnly(own, y, e, id);
    }
    assert RowsOf(y'.store, t) == RowsOf(y.store, t);
    OthersUntouched(own, y, e);
  }

  /** A step changes no other session's view. */
  lemma OthersUntouched(own: Owners, y: System, e: Event)
    requires Inv(own, y) && Enabled(y, e) && Disciplined(own, e)
    ensures forall s | s != e.s :: SessionOf(Step(y, e).0, s) == SessionOf(y, s)
    ensures forall s | s != e.s :: LocalOf(Step(y, e).0, s) == LocalOf(y, s)
  {
    var l := LocalOf(y, e.s);
    assert LocalOk(own, e.s, l);
    match e
    case Bind(s, t, p) =>
      ConnIsExclusive(own, y, s, p);
      InstallFrames(own, y, s, ConnFor(y, s, p), TenantSessions.Bind(l, t));
    case Run(s, stmt, p) =>
      ConnIsExclusive(own, y, s, p);
      ExecuteKeepsLocal(own, s, l, y.store, stmt);
      InstallFrames(own, y, s, ConnFor(y, s, p), Execute(l, y.store, stmt).0);
    case Commit(s) =>
      if SessionOf(y, s).conn.Some? { FinishFrames(own, y, s); }
    case Rollback(s) =>
      if SessionOf(y, s).conn.Some? { FinishFrames(own, y, s); }
  }

  lemma FinishFrames(own: Owners, y: System, s: SessionId)
    requires Inv(own, y) && SessionOf(y, s).conn.Some?
    ensures var y' := Install(y, s, SessionOf(y, s).conn.value, Finish(LocalOf(y, s)));
      forall s', store | s' != s ::
        SessionOf(y'.(store := store), s') == SessionOf(y, s') && LocalOf(y'.(store := store), s') == LocalOf(y, s')
  {
    HolderIsAlone(own, y, s);
    InstallFrames(own, y, s, SessionOf(y, s).conn.value, Finish(LocalOf(y, s)));
    var y' := Install(y, s, SessionOf(y, s).conn.value, Finish(LocalOf(y, s)));
    forall s', store | s' != s
      ensures SessionOf(y'.(store := store), s') == SessionOf(y, s')
      ensures LocalOf(y'.(store := store), s') == LocalOf(y, s')
    {
      assert SessionOf(y'.(store := store), s') == SessionOf(y', s');
      assert LocalOf(y'.(store := store), s') == LocalOf(y', s');
    }
  }

  /** What a view bound to `t`, or to nothing, reads depends on `t`'s rows alone. */
  lemma ReadsDependOnOwnRows(t: Tenant, l: Local, store: Store, store': Store)
    requires RowsOf(store, t) == RowsOf(store', t)
    requires l.guc.Some? ==> l.guc == Some(t)
    ensures VisibleRows(store, l) == VisibleRows(store', l)
  {
    forall id: RowId | id.tenant == t
      ensures id in store <==> id in store'
      ensures id in store ==> store[id] == store'[id]
    {
      assert id in RowsOf(store, t) <==> id in RowsOf(store', t);
    }
  }

  lemma ExecuteDependsOnOwnRows(own: Owners, t: Tenant, s: SessionId, l: Local, store: Store, store': Store, stmt: Statement)
    requires LocalOk(own, s, l) && OwnedBy(own, s, t)
    requires RowsOf(store, t) == RowsOf(store', t)
    ensures Execute(l, store, stmt) == Execute(l, store', stmt)
  {
    ReadsDependOnOwnRows(t, TenantSessions.Begin(l), store, store');
  }

  lemma CommitAgrees(t: Tenant, l: Local, store: Store, store': Store)
    requires RowsOf(store, t) == RowsOf(store', t)
    ensures RowsOf(CommitStore(l, store), t) == RowsOf(CommitStore(l, store'), t)
  {
    forall id: RowId | id.tenant == t
      ensures id in store <==> id in store'
      ensures id in store ==> store[id] == store'[id]
    {
      assert id in RowsOf(store, t) <==> id in RowsOf(store', t);
    }
  }

  /** Whoever holds a connection in the purged system holds it in the full one. */
  lemma OwnStepEnabled(own: Owners, t: Tenant, y: System, z: System, e: Event)
    requires LooksLike(own, t, y, z) && OwnedBy(own, e.s, t) && Enabled(y, e)
    ensures Enabled(z, e)
  {
    if (e.Bind? || e.Run?) && SessionOf(z, e.s).conn.None? {
      forall s ensures !Holds(z, s, e.pooled) {
        if OwnedBy(own, s, t) { assert SessionOf(y, s) == SessionOf(z, s) && !Holds(y, s, e.pooled); }
      }
    }
  }

  /** `t`'s own step does the same to both, and is observed alike. */
  lemma OwnStepAlike(own: Owners, t: Tenant, y: System, z: System, e: Event)
    requires Inv(own, y) && Inv(own, z) && Enabled(y, e) && Enabled(z, e) && Disciplined(own, e)
    requires LooksLike(own, t, y, z) && OwnedBy(own, e.s, t)
    ensures Step(y, e).1 == Step(z, e).1
    ensures LooksLike(own, t, Step(y, e).0, Step(z, e).0)
  {
    OthersUntouched(own, y, e);
    OthersUntouched(own, z, e);
    OwnViewAlike(own, t, y, z, e);
  }

  lemma OwnViewAlike(own: Owners, t: Tenant, y: System, z: System, e: Event)
    requires Inv(own, y) && Inv(own, z) && Enabled(y, e) && Enabled(z, e) && Disciplined(own, e)
    requires LooksLike(own, t, y, z) && OwnedBy(own, e.s, t)
    ensures Step(y, e).1 == Step(z, e).1
    ensures RowsOf(Step(y, e).0.store, t) == RowsOf(Step(z, e).0.store, t)
    ensures SessionOf(Step(y, e).0, e.s) == SessionOf(Step(z, e).0, e.s)
    ensures LocalOf(Step(y, e).0, e.s) == LocalOf(Step(z, e).0, e.s)
  {
    var l := LocalOf(y, e.s);
    assert l == LocalOf(z, e.s) && SessionOf(y, e.s) == SessionOf(z, e.s);
    assert LocalOk(own, e.s, l);
    CommitAgrees(t, l, y.store, z.store);
    if e.Run? { ExecuteDependsOnOwnRows(own, t, e.s, l, y.store, z.store, e.stmt); }
  }

  /** Noninterference: delete every step of every other tenant from a run, and the run is
      still possible and tenant `t`'s sessions observe exactly what they observed. */
  lemma {:induction false} Noninterference(own: Owners, t: Tenant, y: System, z: System, run: seq<Event>)
    requires Inv(own, y) && Inv(own, z) && LooksLike(own, t, y, z)
    requires Legal(y, run) && AllDisciplined(own, run)
    ensures Legal(z, Purge(own, t, run))
    ensures Observed(own, t, y, run) == Observed(own, t, z, Purge(own, t, run))
    decreases |run|
  {
    if run != [] {
      var e, rest := run[0], run[1..];
      assert Disciplined(own, e);
      assert AllDisciplined(own, rest) by {
        forall j | 0 <= j < |rest| ensures Disciplined(own, rest[j]) { assert rest[j] == run[j + 1]; }
      }
      StepKeepsInv(own, y, e);
      if OwnedBy(own, e.s, t) {
        OwnStepEnabled(own, t, y, z, e);
        OwnStepAlike(own, t, y, z, e);
        StepKeepsInv(own, z, e);
        Noninterference(own, t, Step(y, e).0, Step(z, e).0, rest);
        var kept := Purge(own, t, rest);
        assert ([e] + kept)[1..] == kept;
      } else {
        OtherStepInvisible(own, t, y, z, e);
        Noninterference(own, t, Step(y, e).0, z, rest);
        assert [] + Purge(own, t, rest) == Purge(own, t, rest);
      }
    }
  }

  /** A process that has just started: sessions may be bound, none has a transaction open. */
  ghost predicate Idle(own: Owners, y: System) {
    && y.gucs == map[]
    && forall s :: var x := SessionOf(y, s);
      x.conn == None && x.writes == map[] && !x.failed && (x.tenant.Some? ==> OwnedBy(own, s, x.tenant.value))
  }

  /** From a fresh start, for every interleaving: another tenant's presence cannot be told. */
  lemma TenantsCannotInterfere(own: Owners, t: Tenant, y: System, run: seq<Event>)
    requires Idle(own, y) && Legal(y, run) && AllDisciplined(own, run)
    ensures Inv(own, After(y, run))
    ensures Legal(y, Purge(own, t, run))
    ensures Observed(own, t, y, run) == Observed(own, t, y, Purge(own, t, run))
  {
    assert Inv(own, y);
    RunKeepsInv(own, y, run);
    Noninterference(own, t, y, y, run);
  }

  /** Such a process can start on any rows, and a session in it that was never bound sees none. */
  lemma NewProcessIsIdle(own: Owners, store: Store, s: SessionId, p: ConnectionId)
    ensures var y := System(store, map[], map[]);
      Idle(own, y) && Enabled(y, Run(s, Read, p)) && Step(y, Run(s, Read, p)).1 == Rows(map[])
  {
  }

  // ---------------------------------------------------------------- what a tenant's own steps do

  /** A step is the session's own: its view changes as that of a session alone would, and the
      committed rows change exactly when it commits. */
  lemma StepIsSessionStep(own: Owners, y: System, e: Event)
    requires Inv(own, y) && Enabled(y, e) && Disciplined(own, e)
    ensures
      var l, (z, outcome) := LocalOf(y, e.s), Step(y, e);
      var after := LocalOf(z, e.s);
      match e
      case Bind(_, t, _) => after == TenantSessions.Bind(l, t) && z.store == y.store && outcome == Silent
      case Run(_, stmt, _) => (after, outcome) == Execute(l, y.store, stmt) && z.store == y.store
      case Commit(_) => after == Finish(l) && z.store == CommitStore(l, y.store) && outcome == Silent
      case Rollback(_) => after == Finish(l) && z.store == y.store && outcome == Silent
  {
    var l := LocalOf(y, e.s);
    assert LocalOk(own, e.s, l);
    match e
    case Bind(s, t, p) =>
      ConnIsExclusive(own, y, s, p);
      InstallFrames(own, y, s, ConnFor(y, s, p), TenantSessions.Bind(l, t));
    case Run(s, stmt, p) =>
      ConnIsExclusive(own, y, s, p);
      ExecuteKeepsLocal(own, s, l, y.store, stmt);
      InstallFrames(own, y, s, ConnFor(y, s, p), Execute(l, y.store, stmt).0);
    case Commit(s) =>
      FinishedView(own, y, s, CommitStore(l, y.store));
    case Rollback(s) =>
      FinishedView(own, y, s, y.store);
  }

  lemma FinishedView(own: Owners, y: System, s: SessionId, store: Store)
    requires Inv(own, y)
    ensures SessionOf(y, s).conn.None? ==>
      LocalOf(y, s) == Finish(LocalOf(y, s)) && CommitStore(LocalOf(y, s), y.store) == y.store
    ensures SessionOf(y, s).conn.Some? ==>
      var z := Install(y, s, SessionOf(y, s).conn.value, Finish(LocalOf(y, s))).(store := store);
      LocalOf(z, s) == Finish(LocalOf(y, s))
  {
    assert LocalOk(own, s, LocalOf(y, s));
    if SessionOf(y, s).conn.Some? {
      HolderIsAlone(own, y, s);
      InstallFrames(own, y, s, SessionOf(y, s).conn.value, Finish(LocalOf(y, s)));
    }
  }

  ghost predicate NoneOwnedBy(own: Owners, t: Tenant, run: seq<Event>) {
    forall j | 0 <= j < |run| :: !OwnedBy(own, run[j].s, t)
  }

  /** Runs of other tenants leave a tenant's rows and its sessions alone. */
  lemma {:induction false} OthersLeave(own: Owners, t: Tenant, y: System, run: seq<Event>)
    requires Inv(own, y) && Legal(y, run) && AllDisciplined(own, run) && NoneOwnedBy(own, t, run)
    ensures RowsOf(After(y, run).store, t) == RowsOf(y.store, t)
    ensures forall s | OwnedBy(own, s, t) :: LocalOf(After(y, run), s) == LocalOf(y, s)
    decreases |run|
  {
    if run != [] {
      var e, rest := run[0], run[1..];
      assert Disciplined(own, e) && !OwnedBy(own, e.s, t);
      forall j | 0 <= j < |rest| ensures Disciplined(own, rest[j]) && !OwnedBy(own, rest[j].s, t) {
        assert rest[j] == run[j + 1];
      }
      StepKeepsInv(own, y, e);
      OneLeaves(own, t, y, e);
      OthersLeave(own, t, Step(y, e).0, rest);
    }
  }

  lemma OneLeaves(own: Owners, t: Tenant, y: System, e: Event)
    requires Inv(own, y) && Enabled(y, e) && Disciplined(own, e) && !OwnedBy(own, e.s, t)
    ensures RowsOf(Step(y, e).0.store, t) == RowsOf(y.store, t)
    ensures forall s | OwnedBy(own, s, t) :: LocalOf(Step(y, e).0, s) == LocalOf(y, s)
  {
    var z := Step(y, e).0;
    forall id: RowId | id.tenant == t
      ensures (id in z.store <==> id in y.store) && (id in y.store ==> z.store[id] == y.store[id])
    {
      WritesOwnTenantOnly(own, y, e, id);
    }
    assert RowsOf(z.store, t) == RowsOf(y.store, t);
    OthersUntouched(own, y, e);
  }

  /** What a session has committed is what the next transaction of its tenant reads, on any
      connection, whatever the other tenants do in between. */
  lemma CommitIsSeen(own: Owners, t: Tenant, y: System, s: SessionId, run: seq<Event>, s': SessionId, p: ConnectionId)
    requires Inv(own, y) && OwnedBy(own, s, t) && OwnedBy(own, s', t)
    requires Legal(Step(y, Commit(s)).0, run) && AllDisciplined(own, run) && NoneOwnedBy(own, t, run)
    requires var m := LocalOf(Step(y, Commit(s)).0, s'); m.tenant == Some(t) && !m.open
    requires Enabled(After(Step(y, Commit(s)).0, run), Run(s', Read, p))
    ensures Step(After(Step(y, Commit(s)).0, run), Run(s', Read, p)).1 ==
      Rows(RowsOf(CommitStore(LocalOf(y, s), y.store), t))
  {
    var m := Step(y, Commit(s)).0;
    StepKeepsInv(own, y, Commit(s));
    StepIsSessionStep(own, y, Commit(s));
    RunKeepsInv(own, m, run);
    OthersLeave(own, t, m, run);
    var z := After(m, run);
    StepIsSessionStep(own, z, Run(s', Read, p));
    FreshRead(t, LocalOf(z, s'), z.store);
  }

  lemma FreshRead(t: Tenant, l: Local, store: Store)
    requires l.tenant == Some(t) && !l.open && !l.failed
    ensures Execute(l, store, Read).1 == Rows(RowsOf(store, t))
  {
    assert Overlay(store, map[]) == store;
  }
}
