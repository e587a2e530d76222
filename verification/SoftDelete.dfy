/** Withdrawing records instead of deleting them: the unit of work, the listener that refuses
    hard deletes, and what no run of flushes can lose. */
module SoftDelete {
  import opened Text
  import opened Wrappers

  type Model = nat
  datatype Key = Key(model: Model, id: int)

  /** A row of any table; only soft-deletable models ever fill the last three columns. */
  datatype Record = Record(content: int, deletedAt: Option<int>, deletedBy: Option<int>, reason: Option<string>)
  type Table = map<Key, Record>

  /** When, by whom and why a row was withdrawn, if it is. */
  datatype Marks = Marks(at: Option<int>, who: Option<int>, reason: Option<string>)

  const NOT_WITHDRAWN := Marks(None, None, None)

  /** An audit entry: what it says about the row's marks. */
  datatype Note = Note(k: Key, marks: Marks)

  /** What is committed, what the open transaction sees, the new or changed objects not yet
      flushed, the objects marked for deletion, and the audit trail, committed and open. */
  datatype Unit = Unit(
    committed: Table, working: Table, pending: Table, doomed: set<Key>, saved: seq<Note>, trail: seq<Note>)

  datatype Outcome = Done | HardDeleteRefused | Invalid

  datatype Op =
    | Add(k: Key, content: int)
    | Delete(k: Key)
    | Withdraw(k: Key, reason: string, who: int, now: int)
    | Restore(k: Key)
    | Flush
    | Commit
    | Rollback

  // ---------------------------------------------------------------- one operation

  /** The object as the session holds it. */
  function Held(u: Unit, k: Key): Option<Record> {
    if k in u.pending then Some(u.pending[k]) else if k in u.working then Some(u.working[k]) else None
  }

  /** `session.add(obj)`: also takes back a mark for deletion. */
  function Stage(u: Unit, k: Key, r: Record): Unit {
    u.(pending := u.pending[k := r], doomed := u.doomed - {k})
  }

  predicate Refuses(soft: set<Model>, u: Unit) { exists k | k in u.doomed :: k.model in soft }

  function DoFlush(soft: set<Model>, u: Unit): (Unit, Outcome) {
    if Refuses(soft, u) then (u, HardDeleteRefused)
    else (u.(working := (u.working + u.pending) - u.doomed, pending := map[], doomed := {}), Done)
  }

  function Withdrawn(r: Record, reason: string, who: int, now: int): Record {
    r.(deletedAt := Some(now), deletedBy := Some(who), reason := Some(Strip(reason)))
  }

  function Restored(r: Record): Record { r.(deletedAt := None, deletedBy := None, reason := None) }

  function MarksOf(r: Record): Marks { Marks(r.deletedAt, r.deletedBy, r.reason) }

  /** Stage, flush, and write the entry that says so once the flush went through. */
  function StageAndLog(soft: set<Model>, u: Unit, k: Key, r: Record): (Unit, Outcome) {
    var (v, outcome) := DoFlush(soft, Stage(u, k, r));
    if outcome.Done? then (v.(trail := v.trail + [Note(k, MarksOf(r))]), Done) else (v, outcome)
  }

  function Apply(soft: set<Model>, u: Unit, op: Op): (Unit, Outcome) {
    match op
    case Add(k, content) =>
      (match Held(u, k)
       case Some(r) => (Stage(u, k, r.(content := content)), Done)
       case None => (Stage(u, k, Record(content, None, None, None)), Done))
    case Delete(k) => if k in u.working then (u.(doomed := u.doomed + {k}), Done) else (u, Invalid)
    case Withdraw(k, reason, who, now) =>
      if Strip(reason) == "" || Held(u, k).None? then (u, Invalid)
      else StageAndLog(soft, u, k, Withdrawn(Held(u, k).value, reason, who, now))
    case Restore(k) =>
      if Held(u, k).None? then (u, Invalid) else StageAndLog(soft, u, k, Restored(Held(u, k).value))
    case Flush => DoFlush(soft, u)
    case Commit =>
      var (v, outcome) := DoFlush(soft, u);
      if outcome.Done? then (v.(committed := v.working, saved := v.trail), Done) else (u, outcome)
    case Rollback => (Unit(u.committed, u.committed, map[], {}, u.saved, u.saved), Done)
  }

  /** A lookup by id; `all` is the session's `include_deleted`. */
  function Lookup(table: Table, all: bool, k: Key): Option<Record> {
    if k in table && (all || table[k].deletedAt.None?) then Some(table[k]) else None
  }

  class Session {
    const soft: set<Model>
    var committed: Table
    var working: Table
    var pending: Table
    var doomed: set<Key>
    var saved: seq<Note>
    var trail: seq<Note>

    constructor (soft: set<Model>, table: Table)
      ensures this.soft == soft && Now() == Unit(table, table, map[], {}, [], [])
    {
      this.soft := soft;
      committed, working, pending, doomed := table, table, map[], {};
      saved, trail := [], [];
    }

    ghost function Now(): Unit
      reads this
    {
      Unit(committed, working, pending, doomed, saved, trail)
    }

    /** The listener run before every flush. */
    method RefuseHardDeletes() returns (refused: bool)
      ensures refused <==> Refuses(soft, Now())
    {
      var left := doomed;
      while left != {}
        invariant left <= doomed
        invariant forall k | k in doomed - left :: k.model !in soft
      {
        var k :| k in left;
        if k.model in soft { return true; }
        left := left - {k};
      }
      refused := false;
    }

    method Flush() returns (outcome: Outcome)
      modifies this`working, this`pending, this`doomed
      ensures (Now(), outcome) == Apply(soft, old(Now()), Op.Flush)
      ensures outcome != Done ==> Now() == old(Now())
      ensures outcome == Done ==> pending == map[] && doomed == {} && working.Keys !! old(doomed)
    {
      var refused := RefuseHardDeletes();
      if refused { return HardDeleteRefused; }
      working := (working + pending) - doomed;
      pending, doomed := map[], {};
      outcome := Done;
    }

    method Withdraw(k: Key, reason: string, who: int, now: int) returns (outcome: Outcome)
      modifies this`working, this`pending, this`doomed, this`trail
      ensures (Now(), outcome) == Apply(soft, old(Now()), Op.Withdraw(k, reason, who, now))
      ensures outcome == Done ==> k in working && MarksOf(working[k]) == Marks(Some(now), Some(who), Some(Strip(reason)))
      ensures outcome == Done <==> trail != old(trail)
      ensures outcome != Done ==> working == old(working)
    {
      if Strip(reason) == "" { return Invalid; }
      if k !in pending && k !in working { return Invalid; }
      var record := if k in pending then pending[k] else working[k];
      record := record.(deletedAt := Some(now), deletedBy := Some(who), reason := Some(Strip(reason)));
      outcome := SaveAndLog(k, record);
    }

    /** `db.add`, `db.flush`, and the audit entry if the flush went through. */
    method SaveAndLog(k: Key, record: Record) returns (outcome: Outcome)
      modifies this`working, this`pending, this`doomed, this`trail
      ensures (Now(), outcome) == StageAndLog(soft, old(Now()), k, record)
    {
      pending, doomed := pending[k := record], doomed - {k};
      outcome := Flush();
      if outcome == Done { trail := trail + [Note(k, MarksOf(record))]; }
    }

    method Restore(k: Key) returns (outcome: Outcome)
      modifies this`working, this`pending, this`doomed, this`trail
      ensures (Now(), outcome) == Apply(soft, old(Now()), Op.Restore(k))
      ensures outcome == Done ==> k in working && MarksOf(working[k]) == NOT_WITHDRAWN
      ensures outcome == Done <==> trail != old(trail)
      ensures outcome != Done ==> working == old(working)
    {
      if k !in pending && k !in working { return Invalid; }
      var record := if k in pending then pending[k] else working[k];
      record := record.(deletedAt := None, deletedBy := None, reason := None);
      outcome := SaveAndLog(k, record);
    }

    method Delete(k: Key) returns (outcome: Outcome)
      modifies this`doomed
      ensures (Now(), outcome) == Apply(soft, old(Now()), Op.Delete(k))
    {
      if k !in working { return Invalid; }
      doomed := doomed + {k};
      outcome := Done;
    }

    method Commit() returns (outcome: Outcome)
      modifies this
      ensures (Now(), outcome) == Apply(soft, old(Now()), Op.Commit)
    {
      outcome := Flush();
      if outcome.Done? { committed, saved := working, trail; }
    }
  }

  // ---------------------------------------------------------------- what each operation does

  /** The row as the session would read it next: staged, or else as the transaction has it. */
  predicate Reads(u: Unit, k: Key, content: int, marks: Marks) {
    Held(u, k).Some? && Held(u, k).value.content == content && MarksOf(Held(u, k).value) == marks
  }

  /** Adding stages new content for the row, with its marks as they were or none, takes back its
      mark for deletion, and touches nothing else. */
  lemma AddTakesEffect(soft: set<Model>, u: Unit, k: Key, content: int)
    ensures
      var (v, outcome) := Apply(soft, u, Add(k, content));
      && outcome == Done
      && Reads(v, k, content, if Held(u, k).Some? then MarksOf(Held(u, k).value) else NOT_WITHDRAWN)
      && k !in v.doomed && (forall j | j != k :: Held(v, j) == Held(u, j) && (j in v.doomed <==> j in u.doomed))
      && v.working == u.working && v.committed == u.committed && v.trail == u.trail && v.saved == u.saved
  {
  }

  /** Marking for deletion takes a row the transaction has, and changes nothing else. */
  lemma DeleteTakesEffect(soft: set<Model>, u: Unit, k: Key)
    ensures
      var (v, outcome) := Apply(soft, u, Delete(k));
      && (outcome == Done <==> k in u.working)
      && (forall j :: j in v.doomed <==> j in u.doomed || (j == k && k in u.working))
      && v.(doomed := u.doomed) == u
  {
  }

  /** A flush that goes through writes what was staged, removes what was marked, and leaves
      nothing to do; it goes through exactly when no soft-deletable row is marked. */
  lemma FlushTakesEffect(soft: set<Model>, u: Unit)
    ensures
      var (v, outcome) := Apply(soft, u, Flush);
      && (outcome == Done <==> forall j | j in u.doomed :: j.model !in soft)
      && (outcome == Done ==>
            && v.pending == map[] && v.doomed == {}
            && (forall k :: k in v.working <==> Held(u, k).Some? && k !in u.doomed)
            && (forall k | k in v.working :: Some(v.working[k]) == Held(u, k))
            && v.committed == u.committed && v.trail == u.trail && v.saved == u.saved)
      && (outcome != Done ==> v == u)
  {
  }

  /** A commit is a flush made lasting, with its entries; a rollback goes back to the last one. */
  lemma CommitAndRollback(soft: set<Model>, u: Unit)
    ensures
      var (f, flushed) := Apply(soft, u, Flush);
      var (v, outcome) := Apply(soft, u, Commit);
      && outcome == flushed
      && (outcome == Done ==>
            v.committed == f.working && v.working == f.working && v.saved == u.trail && v.trail == u.trail &&
            v.pending == map[] && v.doomed == {})
      && (outcome != Done ==> v == u)
    ensures
      var (v, outcome) := Apply(soft, u, Rollback);
      && outcome == Done && v.committed == u.committed && v.working == u.committed
      && v.saved == u.saved && v.trail == u.saved && v.pending == map[] && v.doomed == {}
  {
  }

  /** A withdrawal that goes through leaves the row with its content and the three facts, and an
      entry with the same; it is refused for a blank reason or an object the session lacks. */
  lemma WithdrawTakesEffect(soft: set<Model>, u: Unit, k: Key, reason: string, who: int, now: int)
    ensures
      var (v, outcome) := Apply(soft, u, Withdraw(k, reason, who, now));
      && (outcome == Invalid <==> Strip(reason) == "" || Held(u, k).None?)
      && (outcome == Invalid ==> v == u)
      && (outcome == Done ==>
            && Reads(v, k, Held(u, k).value.content, Marks(Some(now), Some(who), Some(Strip(reason))))
            && k in v.working && v.working[k].content == Held(u, k).value.content
            && v.trail == u.trail + [Note(k, Marks(Some(now), Some(who), Some(Strip(reason))))]
            && forall j | j != k && j !in u.doomed :: Held(v, j) == Held(u, j))
  {
  }

  // ---------------------------------------------------------------- runs

  function Run(soft: set<Model>, u: Unit, ops: seq<Op>): Unit {
    if ops == [] then u else Apply(soft, Run(soft, u, ops[..|ops| - 1]), ops[|ops| - 1]).0
  }

  /** The open transaction still has every committed row of a soft-deletable model. */
  ghost predicate KeepsCommitted(soft: set<Model>, u: Unit) {
    forall k | k in u.committed && k.model in soft :: k in u.working
  }

  lemma ApplyKeepsCommitted(soft: set<Model>, u: Unit, op: Op)
    requires KeepsCommitted(soft, u)
    ensures var v := Apply(soft, u, op).0;
      && KeepsCommitted(soft, v)
      && forall k | k in u.committed && k.model in soft :: k in v.committed
  {
  }

  /** Withdrawn, never lost: over every run of operations, flushes and commits, the committed
      rows of soft-deletable models only grow. */
  lemma {:induction false} NothingIsLost(soft: set<Model>, u: Unit, ops: seq<Op>)
    requires KeepsCommitted(soft, u)
    ensures var v := Run(soft, u, ops);
      && KeepsCommitted(soft, v)
      && forall k | k in u.committed && k.model in soft :: k in v.committed
  {
    if ops != [] {
      NothingIsLost(soft, u, ops[..|ops| - 1]);
      ApplyKeepsCommitted(soft, Run(soft, u, ops[..|ops| - 1]), ops[|ops| - 1]);
    }
  }

  /** So an id once committed always resolves when withdrawn rows are included, in the open
      transaction and in every later one, and resolves ordinarily exactly while not withdrawn. */
  lemma AlwaysResolves(soft: set<Model>, u: Unit, ops: seq<Op>, k: Key)
    requires KeepsCommitted(soft, u) && k in u.committed && k.model in soft
    ensures var v := Run(soft, u, ops);
      && Lookup(v.working, true, k).Some? && Lookup(v.committed, true, k).Some?
      && (Lookup(v.working, false, k).None? <==> Lookup(v.working, true, k).value.deletedAt.Some?)
      && (Lookup(v.committed, false, k).None? <==> Lookup(v.committed, true, k).value.deletedAt.Some?)
  {
    NothingIsLost(soft, u, ops);
  }

  /** An operation that leaves the mark on `k` standing. */
  predicate Spares(op: Op, k: Key) {
    match op
    case Add(j, _) => j != k
    case Withdraw(j, _, _, _) => j != k
    case Restore(j) => j != k
    case Rollback => false
    case _ => true
  }

  /** While a row of a soft-deletable model is marked for deletion, nothing at all is written,
      flushed or committed, whatever else is added, withdrawn, restored or marked: until that
      mark is taken back or the transaction rolled back every flush and commit is refused. */
  lemma {:induction false} RefusalSticks(soft: set<Model>, u: Unit, ops: seq<Op>, k: Key)
    requires k in u.doomed && k.model in soft
    requires forall j | 0 <= j < |ops| :: Spares(ops[j], k)
    ensures var v := Run(soft, u, ops);
      && v.committed == u.committed && v.working == u.working && v.saved == u.saved && v.trail == u.trail
      && k in v.doomed
      && Apply(soft, v, Flush) == (v, HardDeleteRefused)
      && Apply(soft, v, Commit) == (v, HardDeleteRefused)
  {
    if ops != [] {
      RefusalSticks(soft, u, ops[..|ops| - 1], k);
      SparedMarkRefuses(soft, Run(soft, u, ops[..|ops| - 1]), ops[|ops| - 1], k);
    }
    assert Refuses(soft, Run(soft, u, ops));
  }

  lemma SparedMarkRefuses(soft: set<Model>, u: Unit, op: Op, k: Key)
    requires k in u.doomed && k.model in soft && Spares(op, k)
    ensures var v := Apply(soft, u, op).0;
      && v.committed == u.committed && v.working == u.working && v.saved == u.saved && v.trail == u.trail
      && k in v.doomed
  {
    if (op.Withdraw? || op.Restore?) && Held(u, op.k).Some? {
      assert k in Stage(u, op.k, Changed(u, op).value).doomed;
    }
  }

  lemma Staged(soft: set<Model>, u: Unit, k: Key, r: Record)
    requires k !in u.doomed && !Refuses(soft, u)
    ensures StageAndLog(soft, u, k, r) ==
      (Unit(u.committed, DoFlush(soft, u).0.working[k := r], map[], {}, u.saved, u.trail + [Note(k, MarksOf(r))]), Done)
  {
    var v := Stage(u, k, r);
    assert v.doomed == u.doomed;
    assert (v.working + v.pending) - v.doomed == ((u.working + u.pending) - u.doomed)[k := r];
  }

  /** What a flush would write, then the row put in by hand. */
  function Flushed(u: Unit, k: Key, r: Record, trail: seq<Note>): Unit {
    Unit(u.committed, ((u.working + u.pending) - u.doomed)[k := r], map[], {}, u.saved, trail)
  }

  lemma WithdrawPuts(soft: set<Model>, u: Unit, k: Key, reason: string, who: int, now: int)
    requires Held(u, k).Some? && Strip(reason) != "" && k !in u.doomed && !Refuses(soft, u)
    ensures var r := Withdrawn(Held(u, k).value, reason, who, now);
      Apply(soft, u, Withdraw(k, reason, who, now)) == (Flushed(u, k, r, u.trail + [Note(k, MarksOf(r))]), Done)
  {
    Staged(soft, u, k, Withdrawn(Held(u, k).value, reason, who, now));
  }

  lemma RestorePuts(soft: set<Model>, u: Unit, k: Key, r: Record, trail: seq<Note>)
    ensures var v := Flushed(u, k, r, trail);
      Apply(soft, v, Restore(k)) == (Flushed(u, k, Restored(r), trail + [Note(k, NOT_WITHDRAWN)]), Done)
  {
    var v := Flushed(u, k, r, trail);
    Staged(soft, v, k, Restored(r));
    assert (v.working + v.pending) - v.doomed == v.working;
    assert v.working[k := Restored(r)] == ((u.working + u.pending) - u.doomed)[k := Restored(r)];
  }

  /** Putting back the row the session already holds is the flush there would have been. */
  lemma PuttingBackIsFlush(soft: set<Model>, u: Unit, k: Key, r: Record, trail: seq<Note>)
    requires Held(u, k).Some? && k !in u.doomed && !Refuses(soft, u)
    ensures r == Held(u, k).value <==> Flushed(u, k, r, trail).(trail := u.trail) == DoFlush(soft, u).0
  {
    var flushed := (u.working + u.pending) - u.doomed;
    assert k in flushed && flushed[k] == Held(u, k).value;
    assert flushed[k := flushed[k]] == flushed;
    assert flushed[k := r][k] == r;
  }

  /** Withdrawing hides a row and keeps its content; restoring undoes it, whatever else is
      pending: what remains is the flush there would have been anyway, and the two entries. */
  lemma RestoreUndoesWithdraw(soft: set<Model>, u: Unit, k: Key, reason: string, who: int, now: int)
    requires Held(u, k).Some? && Strip(reason) != "" && k !in u.doomed && !Refuses(soft, u)
    ensures
      var r := Held(u, k).value;
      var (v, first) := Apply(soft, u, Withdraw(k, reason, who, now));
      var (w, second) := Apply(soft, v, Restore(k));
      && first == Done && second == Done
      && Lookup(v.working, false, k).None?
      && Lookup(v.working, true, k) == Some(Withdrawn(r, reason, who, now))
      && Lookup(w.working, true, k) == Some(Restored(r))
      && |w.trail| == |u.trail| + 2
      && (r == Restored(r) <==> w.(trail := u.trail) == DoFlush(soft, u).0)
  {
    var r := Held(u, k).value;
    var hidden := Withdrawn(r, reason, who, now);
    var trail := u.trail + [Note(k, MarksOf(hidden))];
    WithdrawPuts(soft, u, k, reason, who, now);
    RestorePuts(soft, u, k, hidden, trail);
    PuttingBackIsFlush(soft, u, k, Restored(r), trail + [Note(k, NOT_WITHDRAWN)]);
  }

  // ---------------------------------------------------------------- the trail

  /** What the trail last says about a row. */
  function Told(trail: seq<Note>, k: Key): Marks {
    if trail == [] then NOT_WITHDRAWN
    else if trail[|trail| - 1].k == k then trail[|trail| - 1].marks
    else Told(trail[..|trail| - 1], k)
  }

  function MarksIn(table: Table, k: Key): Marks { if k in table then MarksOf(table[k]) else NOT_WITHDRAWN }

  /** The trail tells of every row of a soft-deletable model whether, when, by whom and why it
      was withdrawn, and nothing pending says otherwise. */
  ghost predicate TrailTells(soft: set<Model>, u: Unit) {
    forall k: Key | k.model in soft ::
      && Told(u.trail, k) == MarksIn(u.working, k)
      && Told(u.saved, k) == MarksIn(u.committed, k)
      && (k in u.pending ==> MarksOf(u.pending[k]) == Told(u.trail, k))
  }

  lemma ToldNext(trail: seq<Note>, n: Note, k: Key)
    ensures Told(trail + [n], k) == if n.k == k then n.marks else Told(trail, k)
  {
    assert (trail + [n])[..|trail|] == trail;
  }

  lemma FlushTells(soft: set<Model>, u: Unit)
    requires TrailTells(soft, u)
    ensures TrailTells(soft, DoFlush(soft, u).0)
  {
    var v := DoFlush(soft, u).0;
    forall k: Key | k.model in soft
      ensures Told(v.trail, k) == MarksIn(v.working, k) && Told(v.saved, k) == MarksIn(v.committed, k)
      ensures k in v.pending ==> MarksOf(v.pending[k]) == Told(v.trail, k)
    {
      assert Told(u.trail, k) == MarksIn(u.working, k);
    }
  }

  lemma LoggedTells(soft: set<Model>, u: Unit, k: Key, r: Record)
    requires TrailTells(soft, u) && StageAndLog(soft, u, k, r).1 == Done
    ensures TrailTells(soft, StageAndLog(soft, u, k, r).0)
  {
    var v := StageAndLog(soft, u, k, r).0;
    forall j: Key | j.model in soft
      ensures Told(v.trail, j) == MarksIn(v.working, j) && Told(v.saved, j) == MarksIn(v.committed, j)
      ensures j in v.pending ==> MarksOf(v.pending[j]) == Told(v.trail, j)
    {
      ToldNext(u.trail, Note(k, MarksOf(r)), j);
      assert Told(u.trail, j) == MarksIn(u.working, j);
    }
  }

  lemma AddTells(soft: set<Model>, u: Unit, k: Key, content: int)
    requires TrailTells(soft, u)
    ensures TrailTells(soft, Apply(soft, u, Add(k, content)).0)
  {
    var v := Apply(soft, u, Add(k, content)).0;
    forall j: Key | j.model in soft
      ensures Told(v.trail, j) == MarksIn(v.working, j) && Told(v.saved, j) == MarksIn(v.committed, j)
      ensures j in v.pending ==> MarksOf(v.pending[j]) == Told(v.trail, j)
    {
      assert Told(u.trail, j) == MarksIn(u.working, j);
    }
  }

  /** The object as a withdrawal or restoration would leave it. */
  function Changed(u: Unit, op: Op): Option<Record>
    requires op.Withdraw? || op.Restore?
  {
    match Held(u, op.k)
    case None => None
    case Some(r) => Some(if op.Withdraw? then Withdrawn(r, op.reason, op.who, op.now) else Restored(r))
  }

  /** Some other row of a soft-deletable model is marked for deletion. */
  predicate OtherMarked(soft: set<Model>, u: Unit, k: Key) { exists j | j in u.doomed :: j != k && j.model in soft }

  /** A withdrawal with its reason, or a restoration, of an object the session holds, that would
      change the marks while another soft-deletable row is marked for deletion. */
  predicate LeavesUnlogged(soft: set<Model>, u: Unit, op: Op) {
    && (op.Restore? || (op.Withdraw? && Strip(op.reason) != ""))
    && op.k.model in soft && Held(u, op.k).Some?
    && OtherMarked(soft, u, op.k)
    && MarksOf(Changed(u, op).value) != MarksOf(Held(u, op.k).value)
  }

  /** Staging takes back the row's own mark, and no other. */
  lemma StagedIsRefusedExactlyWhen(soft: set<Model>, u: Unit, k: Key, r: Record)
    ensures StageAndLog(soft, u, k, r).1 == if OtherMarked(soft, u, k) then HardDeleteRefused else Done
  {
    var v := Stage(u, k, r);
    if OtherMarked(soft, u, k) {
      var j :| j in u.doomed && j != k && j.model in soft;
      assert j in v.doomed;
    }
  }

  lemma RefusedTells(soft: set<Model>, u: Unit, k: Key, r: Record)
    requires TrailTells(soft, u) && StageAndLog(soft, u, k, r).1 == HardDeleteRefused && Held(u, k).Some?
    ensures TrailTells(soft, StageAndLog(soft, u, k, r).0) <==> k.model !in soft || MarksOf(r) == MarksOf(Held(u, k).value)
  {
    var v := StageAndLog(soft, u, k, r).0;
    assert v == Stage(u, k, r);
    assert k.model in soft ==> Told(u.trail, k) == MarksIn(u.working, k) == MarksOf(Held(u, k).value);
    if k.model !in soft || MarksOf(r) == MarksOf(Held(u, k).value) {
      forall j: Key | j.model in soft
        ensures Told(v.trail, j) == MarksIn(v.working, j) && Told(v.saved, j) == MarksIn(v.committed, j)
        ensures j in v.pending ==> MarksOf(v.pending[j]) == Told(v.trail, j)
      {
        assert Told(u.trail, j) == MarksIn(u.working, j);
      }
    } else {
      assert MarksOf(v.pending[k]) != Told(v.trail, k);
    }
  }

  /** Every operation keeps the trail telling, exactly unless it is a withdrawal or restoration
      left unlogged. */
  lemma ApplyTellsExactlyWhen(soft: set<Model>, u: Unit, op: Op)
    requires TrailTells(soft, u)
    ensures TrailTells(soft, Apply(soft, u, op).0) <==> !LeavesUnlogged(soft, u, op)
  {
    match op
    case Add(k, content) => AddTells(soft, u, k, content);
    case Withdraw(_, _, _, _) => MarkingTells(soft, u, op);
    case Restore(_) => MarkingTells(soft, u, op);
    case Flush => FlushTells(soft, u);
    case Commit => FlushTells(soft, u);
    case Delete(_) =>
    case Rollback =>
  }

  lemma MarkingTells(soft: set<Model>, u: Unit, op: Op)
    requires TrailTells(soft, u) && (op.Withdraw? || op.Restore?)
    ensures TrailTells(soft, Apply(soft, u, op).0) <==> !LeavesUnlogged(soft, u, op)
  {
    if Held(u, op.k).Some? {
      var r := Changed(u, op).value;
      StagedIsRefusedExactlyWhen(soft, u, op.k, r);
      if OtherMarked(soft, u, op.k) { RefusedTells(soft, u, op.k, r); } else { LoggedTells(soft, u, op.k, r); }
    }
  }

  /** No withdrawal or restoration of the run was left unlogged. */
  ghost predicate NoneUnlogged(soft: set<Model>, u: Unit, ops: seq<Op>) {
    forall j | 0 <= j < |ops| :: !LeavesUnlogged(soft, Run(soft, u, ops[..j]), ops[j])
  }

  /** Over every such run the trail alone tells every withdrawal. */
  lemma {:induction false} TrailTellsWithdrawals(soft: set<Model>, u: Unit, ops: seq<Op>)
    requires TrailTells(soft, u) && NoneUnlogged(soft, u, ops)
    ensures TrailTells(soft, Run(soft, u, ops))
  {
    if ops != [] {
      var init := ops[..|ops| - 1];
      forall j | 0 <= j < |init| ensures !LeavesUnlogged(soft, Run(soft, u, init[..j]), init[j]) {
        assert init[..j] == ops[..j] && init[j] == ops[j];
      }
      TrailTellsWithdrawals(soft, u, init);
      assert ops[..|ops| - 1] == init;
      ApplyTellsExactlyWhen(soft, Run(soft, u, init), ops[|ops| - 1]);
    }
  }

  /** A refused withdrawal stays staged. Take the offending mark back instead of rolling back,
      and the next flush writes the withdrawal with no entry for it. */
  lemma RefusedWithdrawalCanEscape(k: Key, j: Key, r: Record)
    requires k != j && MarksOf(r) == NOT_WITHDRAWN
    ensures
      var soft, table := {k.model, j.model}, map[k := r, j := r];
      var u := Unit(table, table, map[], {j}, [], []);
      var (v, outcome) := Apply(soft, u, Withdraw(k, "typo", 1, 2));
      var w := Apply(soft, Apply(soft, v, Add(j, r.content)).0, Commit).0;
      && outcome == HardDeleteRefused
      && w.saved == [] && k in w.committed && w.committed[k].deletedAt == Some(2)
  {
    assert Strip("typo") == "typo";
    var soft, table := {k.model, j.model}, map[k := r, j := r];
    var u := Unit(table, table, map[], {j}, [], []);
    assert j in Stage(u, k, Withdrawn(r, "typo", 1, 2)).doomed;
    var v := Apply(soft, u, Withdraw(k, "typo", 1, 2)).0;
    var x := Apply(soft, v, Add(j, r.content)).0;
    assert x.doomed == {};
    assert !Refuses(soft, x);
  }
}
