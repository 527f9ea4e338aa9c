/** A transaction that runs without interference does what the atomic call does: the two models of
    the booking and payment calls agree. */
module Alone {
  import opened Rows
  import opened Steps
  import opened Runs
  import opened Operations
  import opened Transactions
  import opened LockOrder

  /** The database a transaction leaves when nothing else runs. */
  ghost function RunAlone(m: Mode, db: Db, t: Txn, c: Choice): Db
    decreases Phase(t), RowsLeft(t)
  {
    match Commits(m, db, t, c)
    case Some(l) => Commit(db, t, l)
    case None =>
      match Next(m, db, t, c)
      case None => db
      case Some(t') =>
        NextIsCloser(m, db, t, c);
        RunAlone(m, db, t', c)
  }

  /** The transaction a call opens, if its unlocked read lets it get that far; the cleanup has read
      its candidates in some order. */
  ghost function Opens(db: Db, op: Op, candidates: seq<Id>): Option<Txn> {
    match op
    case OpCreate(_, user, turf, slot, turfActive, now) => Some(CreateStart(user, turf, slot, turfActive, now))
    case OpCancel(id, user) =>
      if id in db.bookings && db.bookings[id].user == user && db.bookings[id].status != CANCELLED
      then Some(CancelStart(id)) else None
    case OpCleanup(now) => if candidates == [] then None else Some(CleanupStart(candidates, {}))
    case OpSaveIntent(id, user, intent) =>
      if id in db.bookings && db.bookings[id].user == user && !PaidNow(db, id)
         && !(id in db.payments && db.payments[id].status == INITIATED)
      then Some(IntentStart(id, intent)) else None
    case OpSuccess(event, intent, now) =>
      var p := FindPayment(db, intent);
      if p.Some? && !PaidNow(db, p.value) then Some(SuccessStart(event, p.value, now)) else None
    case OpFailure(event, intent) =>
      var p := FindPayment(db, intent);
      if p.Some? then Some(FailedStart(event, p.value)) else None
    case OpInProcess(event, intent) => Some(ProcessingStart(event, intent))
    case OpRefund(id, user, now) =>
      if PaidNow(db, id) && id in db.bookings && db.bookings[id].user == user && now < SlotStart(db.bookings[id].slot)
      then Some(RefundStart(id, db.bookings[id].slot)) else None
    case OpComplete(id) =>
      if id in db.bookings && db.bookings[id].status == CONFIRMED then Some(CompleteStart(id)) else None
    case _ => None
  }

  /** The calls that are one transaction. */
  predicate OneTransaction(op: Op) {
    !op.OpAutoComplete? && !op.OpCleanupSlots? && !op.OpAddSlots?
  }

  ghost predicate Fits(db: Db, op: Op, candidates: seq<Id>, c: Choice) {
    OneTransaction(op) &&
    (op.OpCreate? ==> c.newId == op.id && op.id !in db.bookings) &&
    (op.OpCleanup? ==> Elems(candidates) == Stale(db, op.now - STALE_MS))
  }

  lemma {:induction false} CleanupLocksSlots(m: Mode, db: Db, stale: set<Id>, keys: seq<SlotKey>, held: set<SlotKey>,
      c: Choice)
    ensures RunAlone(m, db, CleanupSlots(stale, keys, held), c) == CancelBatch(db, stale)
    decreases |keys|
  {
    hide CancelBatch;
    if keys == [] {
      CleanupCommits(m, db, stale, held, c);
    } else {
      CleanupLocksSlots(m, db, stale, keys[1..], held + {keys[0]}, c);
    }
  }

  lemma CleanupCommits(m: Mode, db: Db, stale: set<Id>, held: set<SlotKey>, c: Choice)
    ensures RunAlone(m, db, CleanupChecked(stale, held, Releasable(db, stale)), c) == CancelBatch(db, stale)
  {
  }

  lemma {:induction false} CleanupLocksBookings(m: Mode, db: Db, ids: seq<Id>, stale: set<Id>, c: Choice)
    requires AllPending(db, stale) && AllPending(db, Elems(ids))
    ensures RunAlone(m, db, CleanupStart(ids, stale), c) == CancelBatch(db, stale + Elems(ids))
    decreases |ids|
  {
    hide CancelBatch;
    if ids == [] {
      assert stale + Elems(ids) == stale;
      if stale == {} {
        EmptyBatch(db);
      } else {
        CleanupLocksSlots(m, db, stale, c.order, {}, c);
      }
    } else {
      assert ids[0] in Elems(ids) && Elems(ids) == {ids[0]} + Elems(ids[1..]);
      CleanupLocksBookings(m, db, ids[1..], stale + {ids[0]}, c);
      assert stale + {ids[0]} + Elems(ids[1..]) == stale + Elems(ids);
    }
  }

  lemma CancelAlone(m: Mode, db: Db, id: Id, c: Choice)
    requires id in db.bookings && db.bookings[id].status != CANCELLED
    ensures RunAlone(m, db, CancelStart(id), c) == CancelOne(db, id)
  {
    hide Effect;
    var k := db.bookings[id].slot;
    assert RunAlone(m, db, CancelSlot(id, k), c) == CancelOne(db, id);
    assert RunAlone(m, db, CancelLocked(id, k), c) == CancelOne(db, id);
  }

  lemma RefundAlone(m: Mode, db: Db, id: Id, k: SlotKey, c: Choice)
    ensures RunAlone(m, db, RefundStart(id, k), c) == Effect(db, Refunded(id, !OthersActive(db, k, {id})))
  {
    hide Effect;
    var db' := Effect(db, Refunded(id, !OthersActive(db, k, {id})));
    assert RunAlone(m, db, RefundPayment(id, k), c) == db';
    assert RunAlone(m, db, RefundBooking(id, k), c) == db';
  }

  lemma CreateAlone(m: Mode, db: Db, user: Id, turf: Id, k: SlotKey, turfActive: bool, now: int, c: Choice)
    ensures RunAlone(m, db, CreateStart(user, turf, k, turfActive, now), c) ==
              Create(m.key, db, c.newId, user, turf, k, turfActive, now).0
  {
    hide Effect, HasLiveBooking, SlotTaken;
    var done := RunAlone(m, db, CreateLocked(user, k, now), c);
    if HasLiveBooking(db, user, k) {
      assert done == db;
    } else {
      var last := RunAlone(m, db, CreateChecked(user, k, now), c);
      assert last == if m.key == Unique && SlotTaken(db, k) then db else Effect(db, Created(c.newId, user, k, now));
      assert done == last;
    }
  }

  lemma SuccessAlone(m: Mode, db: Db, e: Id, id: Id, now: int, c: Choice)
    requires id in db.bookings
    ensures RunAlone(m, db, SuccessStart(e, id, now), c) ==
              if e in db.events then db else Effect(db, Succeeded(e, id, now))
  {
    var pending := db.bookings[id].status == PENDING;
    assert RunAlone(m, db, SuccessBooking(e, id, now, pending), c) == Effect(db, Succeeded(e, id, now));
  }

  lemma FoundPayment(db: Db, intent: Id)
    requires References(db) && FindPayment(db, intent).Some?
    ensures FindPayment(db, intent).value in db.payments && FindPayment(db, intent).value in db.bookings
  {
  }

  lemma EventAlone(m: Mode, db: Db, e: Id, id: Id, intent: Id, c: Choice)
    ensures RunAlone(m, db, FailedStart(e, id), c) == if e in db.events then db else Effect(db, Failed(e, id))
    ensures RunAlone(m, db, ProcessingStart(e, intent), c) ==
              if e in db.events then db else Effect(db, Processing(e, intent))
  {
    hide Effect;
  }

  lemma WriteAlone(m: Mode, db: Db, id: Id, intent: Id, c: Choice)
    ensures RunAlone(m, db, IntentStart(id, intent), c) ==
              if PaymentsWith(db, intent) <= {id} then Effect(db, IntentSaved(id, intent)) else db
    ensures RunAlone(m, db, CompleteStart(id), c) == Effect(db, Completed(id))
  {
    hide Effect;
  }

  /** Run alone, every call leaves what the atomic operation leaves, in both schedules of the
      refund; a call that opens no transaction leaves everything as it is. */
  lemma AloneIsAtomic(m: Mode, db: Db, op: Op, candidates: seq<Id>, c: Choice)
    requires Consistent(db) && Fits(db, op, candidates, c)
    ensures Apply(m.key, db, op) == match Opens(db, op, candidates)
                             case None => db
                             case Some(t) => RunAlone(m, db, t, c)
  {
    hide RunAlone, Effect, OthersActive, HasLiveBooking, PaymentsWith, CancelBatch;
    match op
    case OpCleanup(now) =>
      CleanupLocksBookings(m, db, candidates, {}, c);
      assert {} + Elems(candidates) == Elems(candidates);
      if candidates == [] {
        assert Elems(candidates) == {};
        EmptyBatch(db);
      }
    case OpCancel(id, user) =>
      if Opens(db, op, candidates).Some? { CancelAlone(m, db, id, c); }
    case OpRefund(id, user, now) =>
      if Opens(db, op, candidates).Some? { RefundAlone(m, db, id, db.bookings[id].slot, c); }
    case OpCreate(id, user, turf, slot, turfActive, now) =>
      CreateAlone(m, db, user, turf, slot, turfActive, now, c);
    case OpSuccess(event, intent, now) =>
      if Opens(db, op, candidates).Some? {
        FoundPayment(db, intent);
        SuccessAlone(m, db, event, FindPayment(db, intent).value, now, c);
      }
    case OpFailure(event, intent) =>
      if Opens(db, op, candidates).Some? { EventAlone(m, db, event, FindPayment(db, intent).value, intent, c); }
    case OpInProcess(event, intent) => EventAlone(m, db, event, 0, intent, c);
    case OpSaveIntent(id, user, intent) => WriteAlone(m, db, id, intent, c);
    case OpComplete(id) => WriteAlone(m, db, id, 0, c);
  }

  // ---- And the system can run it that way ----

  /** The bookings a cleanup will have locked once it has gone through its candidates. */
  function Locked(db: Db, ids: seq<Id>, stale: set<Id>): set<Id> {
    stale + set b | b in Elems(ids) && b in db.bookings && db.bookings[b].status == PENDING
  }

  /** The choices a lone transaction is run with: an unused id, and the slots to lock in some order. */
  ghost predicate Suits(db: Db, t: Txn, c: Choice) {
    c.newId !in db.bookings && c.newId !in db.payments &&
    (t.CleanupStart? ==> (set k | k in c.order) == SlotsOf(db, Locked(db, t.ids, t.stale)))
  }

  /** A choice for the next step that makes it go the way `c` does. */
  lemma StepChoice(m: Mode, db: Db, t: Txn, c: Choice) returns (now: Choice)
    requires Suits(db, t, c)
    ensures ChoiceOk(db, t, now) && Commits(m, db, t, now) == Commits(m, db, t, c) &&
        Next(m, db, t, now) == Next(m, db, t, c)
  {
    now := c;
    if t.CleanupStart? {
      if t.ids == [] {
        assert Locked(db, t.ids, t.stale) == t.stale;
      } else {
        var order := KeyList(SlotsOf(db, t.stale));
        now := Choice(c.newId, order);
      }
    }
  }

  lemma SuitsNext(m: Mode, db: Db, t: Txn, c: Choice)
    requires Suits(db, t, c) && Commits(m, db, t, c).None? && Next(m, db, t, c).Some?
    ensures Suits(db, Next(m, db, t, c).value, c)
  {
    if t.CleanupStart? && t.ids != [] {
      var t' := Next(m, db, t, c).value;
      assert Elems(t.ids) == {t.ids[0]} + Elems(t.ids[1..]);
      assert Locked(db, t.ids, t.stale) == Locked(db, t'.ids, t'.stale);
    }
  }

  /** A transaction that is the only one in flight gets to that database by its own steps. */
  lemma {:induction false} AloneFinishes(m: Mode, s0: Sys, db: Db, tid: Id, t: Txn, c: Choice)
    requires Reaches(m, s0, Sys(db, map[tid := t])) && Suits(db, t, c)
    ensures Reaches(m, s0, Sys(RunAlone(m, db, t, c), map[]))
    decreases Phase(t), RowsLeft(t)
  {
    hide Reaches, Commits, Next, Commit, Suits, ChoiceOk, Needs;
    var s := Sys(db, map[tid := t]);
    var now := StepChoice(m, db, t, c);
    ReachStep(m, s0, s, Advance(tid, now));
    var s' := Do(m, s, Advance(tid, now));
    if Commits(m, db, t, c).Some? || Next(m, db, t, c).None? {
      assert s'.txns == map[];
    } else {
      var t' := Next(m, db, t, c).value;
      NextIsCloser(m, db, t, c);
      SuitsNext(m, db, t, c);
      assert s' == Sys(db, map[tid := t']);
      AloneFinishes(m, s0, db, tid, t', c);
    }
  }

  lemma OpensBegins(db: Db, op: Op, candidates: seq<Id>, c: Choice)
    requires Consistent(db) && Fits(db, op, candidates, c) && Opens(db, op, candidates).Some?
    ensures BeginOk(db, Opens(db, op, candidates).value)
  {
    if op.OpSuccess? || op.OpFailure? { FoundPayment(db, op.intent); }
  }

  /** So every atomic call that opens a transaction is one of the interleavings. */
  lemma CallRuns(m: Mode, db: Db, op: Op, candidates: seq<Id>, c: Choice)
    requires Consistent(db) && Fits(db, op, candidates, c)
    requires Opens(db, op, candidates).Some? && Suits(db, Opens(db, op, candidates).value, c)
    ensures Reaches(m, Sys(db, map[]), Sys(Apply(m.key, db, op), map[]))
  {
    hide Reaches, Apply, Consistent, RunAlone, Opens, BeginOk, Suits, Fits;
    var s0, t := Sys(db, map[]), Opens(db, op, candidates).value;
    Reached(m, s0);
    OpensBegins(db, op, candidates, c);
    ReachStep(m, s0, s0, Begin(0, t));
    assert Do(m, s0, Begin(0, t)) == Sys(db, map[0 := t]);
    AloneFinishes(m, s0, db, 0, t, c);
    AloneIsAtomic(m, db, op, candidates, c);
  }
}
