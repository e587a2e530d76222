/** Sessions over pooled connections, with the tenant kept on the session and re-applied to
    each transaction as a connection-local setting that row-level security reads. */
module TenantSessions {
  import opened Wrappers

  type Tenant = int
  type SessionId = int
  type ConnectionId = int

  /** Rows are keyed per tenant, so a key clash says nothing about another tenant. */
  datatype RowId = RowId(tenant: Tenant, key: int)
  type Store = map<RowId, int>

  /** A transaction's own changes: a new value, or `None` for a deleted row. */
  type Writes = map<RowId, Option<int>>

  datatype Statement =
    | Read
    | Insert(id: RowId, value: int)
    | Update(id: RowId, to: RowId, value: int)
    | Delete(id: RowId)

  datatype Outcome = Rows(rows: Store) | Affected(n: nat) | Refused | Aborted | Silent

  // ---------------------------------------------------------------- one session's view

  /** A session together with the setting of the connection it holds, if it holds one. */
  datatype Local = Local(tenant: Option<Tenant>, open: bool, guc: Option<Tenant>, writes: Writes, failed: bool)

  /** What the transaction would see with no policy: committed rows overlaid with its own. */
  function Overlay(store: Store, writes: Writes): Store {
    map id | id in store.Keys + writes.Keys && (if id in writes then writes[id].Some? else true) ::
      if id in writes then writes[id].value else store[id]
  }

  /** `USING (tenant_id::text = current_setting('app.current_tenant_id', TRUE))` */
  predicate PolicyAdmits(guc: Option<Tenant>, id: RowId) { guc == Some(id.tenant) }

  function VisibleRows(store: Store, l: Local): Store {
    var all := Overlay(store, l.writes);
    map id | id in all && PolicyAdmits(l.guc, id) :: all[id]
  }

  /** A transaction begins: `_bind_tenant_on_begin` re-applies the session's tenant. */
  function Begin(l: Local): Local {
    if l.open then l else Local(l.tenant, true, l.tenant, map[], false)
  }

  /** `set_tenant_context`: remember the tenant, then apply it to the open transaction. In an
      aborted transaction the setting is refused like every other statement. */
  function Bind(l: Local, t: Tenant): Local {
    var begun := Begin(l.(tenant := Some(t)));
    if begun.failed then begun else begun.(guc := Some(t))
  }

  function Execute(l: Local, store: Store, stmt: Statement): (Local, Outcome) {
    var b := Begin(l);
    if b.failed then (b, Aborted)
    else
      match stmt
      case Read => (b, Rows(VisibleRows(store, b)))
      case Insert(id, v) =>
        if PolicyAdmits(b.guc, id) then (b.(writes := b.writes[id := Some(v)]), Affected(1))
        else (b.(failed := true), Refused)
      case Update(id, to, v) =>
        if id !in VisibleRows(store, b) then (b, Affected(0))
        else if PolicyAdmits(b.guc, to) then (b.(writes := b.writes[id := None][to := Some(v)]), Affected(1))
        else (b.(failed := true), Refused)
      case Delete(id) =>
        if id !in VisibleRows(store, b) then (b, Affected(0))
        else (b.(writes := b.writes[id := None]), Affected(1))
  }

  /** The connection goes back to the pool and the transaction-local setting with it. */
  function Finish(l: Local): Local { Local(l.tenant, false, None, map[], false) }

  /** Committing an aborted transaction rolls it back. */
  function CommitStore(l: Local, store: Store): Store {
    if l.failed then store else Overlay(store, l.writes)
  }

  /** A session with a tenant, in a transaction that has not been aborted or in none. */
  predicate Working(l: Local, t: Tenant) { !l.failed && l.tenant == Some(t) && (l.open ==> l.guc == l.tenant) }

  /** Isolation is not had by refusing everything: a bound session's insert into its own tenant
      is seen by its next read, other rows as before, and is there after the commit. */
  lemma OwnInsertTakesEffect(l: Local, store: Store, id: RowId, value: int)
    requires Working(l, id.tenant)
    ensures
      var (m, outcome) := Execute(l, store, Insert(id, value));
      && outcome == Affected(1) && m.open && Working(m, id.tenant)
      && VisibleRows(store, m) == VisibleRows(store, Begin(l))[id := value]
      && CommitStore(m, store) == CommitStore(Begin(l), store)[id := value]
  {
    var b := Begin(l);
    var m := Execute(l, store, Insert(id, value)).0;
    assert Overlay(store, m.writes) == Overlay(store, b.writes)[id := value];
  }

  /** Deleting a row it can see takes that row away and no other. */
  lemma OwnDeleteTakesEffect(l: Local, store: Store, id: RowId)
    requires Working(l, id.tenant) && id in VisibleRows(store, Begin(l))
    ensures
      var (m, outcome) := Execute(l, store, Delete(id));
      && outcome == Affected(1) && m.open && Working(m, id.tenant)
      && VisibleRows(store, m) == VisibleRows(store, Begin(l)) - {id}
      && CommitStore(m, store) == CommitStore(Begin(l), store) - {id}
  {
    var b := Begin(l);
    var m := Execute(l, store, Delete(id)).0;
    assert Overlay(store, m.writes) == Overlay(store, b.writes) - {id};
  }

  /** Updating a row it can see moves that row to its new key and value and no other. */
  lemma OwnUpdateTakesEffect(l: Local, store: Store, id: RowId, to: RowId, value: int)
    requires Working(l, id.tenant) && to.tenant == id.tenant && id in VisibleRows(store, Begin(l))
    ensures
      var (m, outcome) := Execute(l, store, Update(id, to, value));
      && outcome == Affected(1) && m.open && Working(m, id.tenant)
      && VisibleRows(store, m) == (VisibleRows(store, Begin(l)) - {id})[to := value]
      && CommitStore(m, store) == (CommitStore(Begin(l), store) - {id})[to := value]
  {
    var b := Begin(l);
    var m := Execute(l, store, Update(id, to, value)).0;
    assert Overlay(store, m.writes) == (Overlay(store, b.writes) - {id})[to := value];
  }

  /** Whatever reaches for another tenant's rows: an insert or a move there is refused and aborts
      the transaction, an update or deletion of a row there finds nothing. */
  lemma ReachingOutFails(l: Local, store: Store, id: RowId, to: RowId, value: int)
    requires l.tenant.Some? && Working(l, l.tenant.value)
    ensures
      var b := Begin(l);
      && (id.tenant != l.tenant.value ==>
            && Execute(l, store, Insert(id, value)) == (b.(failed := true), Refused)
            && Execute(l, store, Update(id, to, value)) == (b, Affected(0))
            && Execute(l, store, Delete(id)) == (b, Affected(0)))
      && (id in VisibleRows(store, b) && to.tenant != l.tenant.value ==>
            Execute(l, store, Update(id, to, value)) == (b.(failed := true), Refused))
      && CommitStore(b.(failed := true), store) == store
  {
  }

  /** A read shows exactly the session's own tenant's rows, with its own changes over what is
      committed. */
  lemma ReadShowsOwnRows(l: Local, store: Store, t: Tenant)
    requires Working(l, t)
    ensures
      var b := Begin(l);
      var (m, outcome) := Execute(l, store, Read);
      && m == b && outcome.Rows?
      && forall id :: id in outcome.rows <==>
           && id.tenant == t
           && (if id in b.writes then b.writes[id].Some? else id in store)
    ensures
      var (b, outcome) := (Begin(l), Execute(l, store, Read).1);
      outcome.Rows? && forall id | id in outcome.rows ::
        if id in b.writes then b.writes[id] == Some(outcome.rows[id]) else id in store && store[id] == outcome.rows[id]
  {
  }

  // ---------------------------------------------------------------- the running code

  class Connection {
    var guc: Option<Tenant>
    constructor () ensures guc == None { guc := None; }
  }

  class Database {
    var store: Store
    constructor () ensures store == map[] { store := map[]; }
  }

  class OrmSession {
    var tenant: Option<Tenant>      // session.info["tenant_id"]
    var connection: Connection?
    var writes: Writes
    var failed: bool

    constructor ()
      ensures View() == Local(None, false, None, map[], false) && connection == null
    {
      tenant, connection, writes, failed := None, null, map[], false;
    }

    /** An idle session holds no changes. */
    predicate Valid()
      reads this
    {
      connection == null ==> writes == map[] && !failed
    }

    function View(): Local
      reads this, connection
    {
      Local(tenant, connection != null, if connection != null then connection.guc else None, writes, failed)
    }

    /** Take a connection from the pool and fire `after_begin`. */
    method BeginOn(pooled: Connection)
      requires Valid() && pooled.guc == None
      modifies this`connection, pooled
      ensures Valid() && View() == Begin(old(View()))
      ensures connection == if old(connection) == null then pooled else old(connection)
      ensures old(connection) != null ==> pooled.guc == old(pooled.guc)
    {
      if connection == null {
        connection := pooled;
        if tenant.Some? { pooled.guc := tenant; }
      }
    }

    /** `set_tenant_context` */
    method SetTenantContext(t: Tenant, pooled: Connection)
      requires Valid() && pooled.guc == None && pooled != connection
      modifies this, pooled, connection
      ensures Valid() && View() == Bind(old(View()), t)
    {
      tenant := Some(t);
      BeginOn(pooled);
      if !failed { connection.guc := Some(t); }
    }

    method Run(db: Database, stmt: Statement, pooled: Connection) returns (outcome: Outcome)
      requires Valid() && pooled.guc == None && pooled != connection
      modifies this, pooled
      ensures Valid() && (View(), outcome) == Execute(old(View()), db.store, stmt)
    {
      BeginOn(pooled);
      var begun := View();
      if failed { return Aborted; }
      match stmt {
        case Read => return Rows(VisibleRows(db.store, begun));
        case Insert(id, v) =>
          if PolicyAdmits(connection.guc, id) {
            writes := writes[id := Some(v)];
            return Affected(1);
          }
        case Update(id, to, v) =>
          if id !in VisibleRows(db.store, begun) { return Affected(0); }
          if PolicyAdmits(connection.guc, to) {
            writes := writes[id := None][to := Some(v)];
            return Affected(1);
          }
        case Delete(id) =>
          if id !in VisibleRows(db.store, begun) { return Affected(0); }
          writes := writes[id := None];
          return Affected(1);
      }
      failed := true;
      return Refused;
    }

    method Commit(db: Database)
      requires Valid()
      modifies this, connection, db
      ensures Valid() && View() == Finish(old(View()))
      ensures db.store == if old(connection) == null then old(db.store) else CommitStore(old(View()), old(db.store))
      ensures old(connection) != null ==> old(connection).guc == None
    {
      if connection != null {
        if !failed { db.store := Overlay(db.store, writes); }
        Release();
      }
    }

    method Rollback()
      requires Valid()
      modifies this, connection
      ensures Valid() && View() == Finish(old(View()))
      ensures old(connection) != null ==> old(connection).guc == None
    {
      if connection != null { Release(); }
    }

    method Release()
      requires connection != null
      modifies this, connection
      ensures Valid() && View() == Finish(old(View())) && connection == null
      ensures old(connection).guc == None
    {
      connection.guc := None;
      connection, writes, failed := null, map[], false;
    }
  }
}
