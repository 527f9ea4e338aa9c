/** Concrete interleavings, each from an empty database with one free slot: a cancelled booking that
    ends COMPLETED, a payment refunded twice, and, without the unique key, a slot booked twice. */
module Races {
  import opened Rows
  import opened Steps
  import opened Runs
  import opened Operations
  import opened Transactions
  import opened Interleavings

  const K: SlotKey := SlotKey(0, 0, 10)

  const EMPTY: Db := Db(map[K := Slot(11, false)], map[], map[], {})
  const START: Sys := Sys(EMPTY, map[])

  /** One booking of the slot, paid for by event 9 on intent 7. */
  function PaidDb(st: BookingStatus, booked: bool): Db {
    Db(map[K := Slot(11, booked)], map[0 := Booking(5, K, st, 0)], map[0 := Payment(7, PAID, Some(0))], {9})
  }

  /** What it takes to get there: book, save the intent, receive the success event. */
  const PAYING: seq<Label> := [Created(0, 5, K, 0), IntentSaved(0, 7), Succeeded(9, 0, 0)]

  lemma StartIsFresh()
    ensures Fresh(START.db) && Consistent(START.db) && OnePerSlot(START.db)
  {
    FreshIsConsistent(EMPTY);
  }

  // ---- Single steps of a run ----

  lemma Started(m: Mode, ls: seq<Label>, db: Db, others: map<Id, Txn>, tid: Id, t: Txn)
    requires Logged(m, START, Sys(db, others), ls) && tid !in others && BeginOk(db, t)
    ensures Logged(m, START, Sys(db, others[tid := t]), ls)
  {
    hide Logged;
    LogStep(m, START, Sys(db, others), ls, Begin(tid, t));
  }

  ghost predicate Free(others: map<Id, Txn>, rows: set<Row>) {
    forall u :: u in others ==> Held(others[u]) !! rows
  }

  lemma Moved(m: Mode, ls: seq<Label>, db: Db, others: map<Id, Txn>, tid: Id, t: Txn, c: Choice, t': Txn)
    requires Logged(m, START, Sys(db, others[tid := t]), ls) && tid !in others
    requires ChoiceOk(db, t, c) && Free(others, Needs(m, db, t))
    requires Commits(m, db, t, c) == None && Next(m, db, t, c) == Some(t')
    ensures Logged(m, START, Sys(db, others[tid := t']), ls)
  {
    hide Logged;
    var s := Sys(db, others[tid := t]);
    LogStep(m, START, s, ls, Advance(tid, c));
    assert s.txns[tid := t'] == others[tid := t'];
  }

  lemma Committed(m: Mode, ls: seq<Label>, db: Db, others: map<Id, Txn>, tid: Id, t: Txn, c: Choice, l: Label)
    requires Logged(m, START, Sys(db, others[tid := t]), ls) && tid !in others
    requires ChoiceOk(db, t, c) && Free(others, Needs(m, db, t))
    requires Commits(m, db, t, c) == Some(l)
    ensures Logged(m, START, Sys(Commit(db, t, l), others), ls + [l])
  {
    hide Logged;
    var s := Sys(db, others[tid := t]);
    LogStep(m, START, s, ls, Advance(tid, c));
    assert s.txns - {tid} == others;
  }

  // ---- Whole calls ----

  lemma CreateRuns(m: Mode, ls: seq<Label>, db: Db, others: map<Id, Txn>, tid: Id, user: Id, c: Choice)
    requires Logged(m, START, Sys(db, others), ls) && tid !in others && Free(others, {SlotRow(K)})
    requires K in db.slots && !db.slots[K].isBooked && !HasLiveBooking(db, user, K)
    requires m.key == Unique ==> !SlotTaken(db, K)
    requires c.newId !in db.bookings && c.newId !in db.payments
    ensures var l := Created(c.newId, user, K, 0); Logged(m, START, Sys(Effect(db, l), others), ls + [l])
  {
    hide Logged;
    Started(m, ls, db, others, tid, CreateStart(user, 0, K, true, 0));
    Moved(m, ls, db, others, tid, CreateStart(user, 0, K, true, 0), c, CreateLocked(user, K, 0));
    Moved(m, ls, db, others, tid, CreateLocked(user, K, 0), c, CreateChecked(user, K, 0));
    Committed(m, ls, db, others, tid, CreateChecked(user, K, 0), c, Created(c.newId, user, K, 0));
  }

  lemma CancelRuns(m: Mode, ls: seq<Label>, db: Db, others: map<Id, Txn>, tid: Id, id: Id, c: Choice)
    requires Logged(m, START, Sys(db, others), ls) && tid !in others &&
        (forall u :: u in others ==> Held(others[u]) == {})
    requires id in db.bookings && db.bookings[id].status != CANCELLED && !OthersActive(db, db.bookings[id].slot, {id})
    requires c.newId !in db.bookings && c.newId !in db.payments
    ensures var l := Cancelled(id, true); Logged(m, START, Sys(Effect(db, l), others), ls + [l])
  {
    hide Logged;
    var k := db.bookings[id].slot;
    Started(m, ls, db, others, tid, CancelStart(id));
    Moved(m, ls, db, others, tid, CancelStart(id), c, CancelLocked(id, k));
    Moved(m, ls, db, others, tid, CancelLocked(id, k), c, CancelSlot(id, k));
    Moved(m, ls, db, others, tid, CancelSlot(id, k), c, CancelChecked(id, k, true));
    Committed(m, ls, db, others, tid, CancelChecked(id, k, true), c, Cancelled(id, true));
  }

  lemma IntentRuns(m: Mode, ls: seq<Label>, db: Db, id: Id, intent: Id, c: Choice)
    requires Logged(m, START, Sys(db, map[]), ls)
    requires id in db.bookings && !PaidNow(db, id) && PaymentsWith(db, intent) <= {id}
    requires c.newId !in db.bookings && c.newId !in db.payments
    ensures var l := IntentSaved(id, intent); Logged(m, START, Sys(Effect(db, l), map[]), ls + [l])
  {
    hide Logged;
    Started(m, ls, db, map[], 0, IntentStart(id, intent));
    Committed(m, ls, db, map[], 0, IntentStart(id, intent), c, IntentSaved(id, intent));
  }

  lemma SuccessRuns(m: Mode, ls: seq<Label>, db: Db, e: Id, id: Id, c: Choice)
    requires Logged(m, START, Sys(db, map[]), ls)
    requires id in db.bookings && db.bookings[id].status == PENDING && id in db.payments && !PaidNow(db, id) &&
        e !in db.events
    requires c.newId !in db.bookings && c.newId !in db.payments
    ensures var l := Succeeded(e, id, 0); Logged(m, START, Sys(Effect(db, l), map[]), ls + [l])
  {
    hide Logged;
    Started(m, ls, db, map[], 0, SuccessStart(e, id, 0));
    Moved(m, ls, db, map[], 0, SuccessStart(e, id, 0), c, SuccessEvent(e, id, 0));
    Moved(m, ls, db, map[], 0, SuccessEvent(e, id, 0), c, SuccessBooking(e, id, 0, true));
    Committed(m, ls, db, map[], 0, SuccessBooking(e, id, 0, true), c, Succeeded(e, id, 0));
  }

  lemma RefundGoesOn(m: Mode, ls: seq<Label>, db: Db, others: map<Id, Txn>, tid: Id, c: Choice)
    requires Logged(m, START, Sys(db, others[tid := RefundStart(0, K)]), ls) && tid !in others
    requires forall u :: u in others ==> Held(others[u]) == {}
    requires 0 in db.bookings && !OthersActive(db, K, {0}) && c.newId !in db.bookings && c.newId !in db.payments
    ensures Logged(m, START, Sys(db, others[tid := RefundPayment(0, K)]), ls)
  {
    hide Logged;
    Moved(m, ls, db, others, tid, RefundStart(0, K), c, RefundBooking(0, K));
    Moved(m, ls, db, others, tid, RefundBooking(0, K), c, RefundPayment(0, K));
  }

  lemma RefundRuns(m: Mode, ls: seq<Label>, db: Db, others: map<Id, Txn>, tid: Id, c: Choice)
    requires Logged(m, START, Sys(db, others[tid := RefundStart(0, K)]), ls) && tid !in others
    requires forall u :: u in others ==> Held(others[u]) == {}
    requires 0 in db.bookings && !OthersActive(db, K, {0}) && c.newId !in db.bookings && c.newId !in db.payments
    ensures var l := Refunded(0, true); Logged(m, START, Sys(Effect(db, l), others), ls + [l])
  {
    hide Logged;
    RefundGoesOn(m, ls, db, others, tid, c);
    if m.refund == OneStep {
      Committed(m, ls, db, others, tid, RefundPayment(0, K), c, Refunded(0, true));
    } else {
      Moved(m, ls, db, others, tid, RefundPayment(0, K), c, RefundChecked(0, K, true));
      Committed(m, ls, db, others, tid, RefundChecked(0, K, true), c, Refunded(0, true));
    }
  }

  lemma PaidEffects()
    ensures var db1 := Effect(EMPTY, Created(0, 5, K, 0)); var db2 := Effect(db1, IntentSaved(0, 7));
            db1 == Db(map[K := Slot(11, true)], map[0 := Booking(5, K, PENDING, 0)], map[], {}) &&
            db2 == db1.(payments := map[0 := Payment(7, INITIATED, None)]) &&
            Effect(db2, Succeeded(9, 0, 0)) == PaidDb(CONFIRMED, true)
  {
    var db1 := Effect(EMPTY, Created(0, 5, K, 0));
    assert db1.slots == map[K := Slot(11, true)];
    var db2 := Effect(db1, IntentSaved(0, 7));
    assert db2.payments == map[0 := Payment(7, INITIATED, None)];
    var db3 := Effect(db2, Succeeded(9, 0, 0));
    assert db3.bookings == PaidDb(CONFIRMED, true).bookings && db3.payments == PaidDb(CONFIRMED, true).payments;
  }

  /** A user books the slot and pays. */
  lemma Pays(m: Mode)
    ensures Logged(m, START, Sys(PaidDb(CONFIRMED, true), map[]), PAYING)
  {
    hide Logged, Effect;
    PaidEffects();
    NothingLogged(m, START);
    CreateRuns(m, [], EMPTY, map[], 0, 5, Choice(0, []));
    assert [] + [Created(0, 5, K, 0)] == [Created(0, 5, K, 0)];
    var db1 := Effect(EMPTY, Created(0, 5, K, 0));
    IntentRuns(m, [Created(0, 5, K, 0)], db1, 0, 7, Choice(1, []));
    var db2 := Effect(db1, IntentSaved(0, 7));
    assert [Created(0, 5, K, 0)] + [IntentSaved(0, 7)] == [Created(0, 5, K, 0), IntentSaved(0, 7)];
    SuccessRuns(m, [Created(0, 5, K, 0), IntentSaved(0, 7)], db2, 9, 0, Choice(1, []));
    assert [Created(0, 5, K, 0), IntentSaved(0, 7)] + [Succeeded(9, 0, 0)] == PAYING;
  }

  lemma CancelFrees(st: BookingStatus)
    requires Active(st)
    ensures Effect(PaidDb(st, true), Cancelled(0, true)) == PaidDb(CANCELLED, false)
    ensures !OthersActive(PaidDb(st, true), K, {0})
  {
    var db' := Effect(PaidDb(st, true), Cancelled(0, true));
    assert db'.bookings == PaidDb(CANCELLED, false).bookings && db'.slots == PaidDb(CANCELLED, false).slots;
  }

  // ---- A completion that was overtaken ----

  /** The completion job reads, the user cancels, the job writes: a cancelled booking, whose slot
      has been given up, ends COMPLETED. The program as deployed has this run, and so has every
      other mode. */
  lemma CompletionUndoesCancel(m: Mode) returns (s: Sys, a: Action)
    ensures Fresh(START.db) && Reaches(m, START, s)
    ensures Can(m, s, a) && Overtaken(s, a)
    ensures s.db.bookings[s.txns[a.tid].id].status == CANCELLED
    ensures Do(m, s, a).db.bookings[s.txns[a.tid].id].status == COMPLETED
  {
    hide Logged, Reaches, Effect;
    var job := map[0 := CompleteStart(0)];
    var none: map<Id, Txn> := map[];
    Pays(m);
    Started(m, PAYING, PaidDb(CONFIRMED, true), none, 0, CompleteStart(0));
    assert none[0 := CompleteStart(0)] == job;
    CancelFrees(CONFIRMED);
    CancelRuns(m, PAYING, PaidDb(CONFIRMED, true), job, 1, 0, Choice(1, []));
    s, a := Sys(PaidDb(CANCELLED, false), job), Advance(0, Choice(1, []));
    LoggedIsReached(m, START, s, PAYING + [Cancelled(0, true)]);
    CompletesCancelled();
  }

  lemma CompletesCancelled()
    ensures var db := PaidDb(CANCELLED, false);
            0 in Effect(db, Completed(0)).bookings && Effect(db, Completed(0)).bookings[0].status == COMPLETED
  {
  }

  // ---- Two refunds of one payment ----

  lemma RefundEffects()
    ensures var db1 := Effect(PaidDb(CONFIRMED, true), Refunded(0, true));
            db1.bookings.Keys == {0} && db1.payments.Keys == {0} && !OthersActive(db1, K, {0})
    ensures !OthersActive(PaidDb(CONFIRMED, true), K, {0})
  {
  }

  lemma Counts(ls: seq<Label>, l: Label, b: Id)
    ensures Refunds(ls + [l], b) == Refunds(ls, b) + (if l.Refunded? && l.id == b then 1 else 0)
    ensures Successes(ls + [l], b) == Successes(ls, b) + (if l.Succeeded? && l.id == b then 1 else 0)
  {
    assert (ls + [l])[..|ls + [l]| - 1] == ls;
  }

  lemma PayingCounts()
    ensures Refunds(PAYING, 0) == 0 && Successes(PAYING, 0) == 1
  {
    assert PAYING == [] + [Created(0, 5, K, 0)] + [IntentSaved(0, 7)] + [Succeeded(9, 0, 0)];
    Counts([], Created(0, 5, K, 0), 0);
    Counts([] + [Created(0, 5, K, 0)], IntentSaved(0, 7), 0);
    Counts([] + [Created(0, 5, K, 0)] + [IntentSaved(0, 7)], Succeeded(9, 0, 0), 0);
  }

  /** A refund reads PAID before it asks Stripe for the money, and never looks again: if Stripe
      accepts the second of two overlapping refunds, a payment with one success is refunded twice. */
  lemma SecondRefundGoesThrough(m: Mode) returns (s: Sys, ls: seq<Label>)
    ensures Fresh(START.db) && Logged(m, START, s, ls)
    ensures Refunds(ls, 0) == 2 && Successes(ls, 0) == 1
  {
    hide Logged, Effect, Fresh;
    StartIsFresh();
    var none: map<Id, Txn> := map[];
    var c, db, r := Choice(1, []), PaidDb(CONFIRMED, true), Refunded(0, true);
    var second := none[1 := RefundStart(0, K)];
    Pays(m);
    Started(m, PAYING, db, none, 1, RefundStart(0, K));
    Started(m, PAYING, db, second, 0, RefundStart(0, K));
    RefundEffects();
    RefundRuns(m, PAYING, db, second, 0, c);
    RefundRuns(m, PAYING + [r], Effect(db, r), none, 1, c);
    s, ls := Sys(Effect(Effect(db, r), r), none), PAYING + [r] + [r];
    PayingCounts();
    Counts(PAYING, r, 0);
    Counts(PAYING + [r], r, 0);
  }

  // ---- Without the unique key ----

  lemma FreedAgain(db: Db)
    requires db == Effect(Effect(PaidDb(CANCELLED, false), Created(1, 6, K, 0)), Refunded(0, true))
    ensures db.bookings.Keys == {0, 1} && db.payments.Keys == {0} && K in db.slots && !db.slots[K].isBooked
    ensures ActiveOn(db, 1, K) && !HasLiveBooking(db, 8, K)
    ensures !NoDoubleBooking(Effect(db, Created(2, 8, K, 0)))
  {
    var db' := Effect(db, Created(2, 8, K, 0));
    assert ActiveOn(db', 1, K) && ActiveOn(db', 2, K);
  }

  const WITHOUT_KEY := Mode(AsWritten, NotUnique)

  lemma RefundChecks(ls: seq<Label>, db: Db)
    requires Logged(WITHOUT_KEY, START, Sys(db, map[]), ls) && db == PaidDb(CANCELLED, false)
    ensures Logged(WITHOUT_KEY, START, Sys(db, map[0 := RefundChecked(0, K, true)]), ls)
  {
    hide Logged;
    var none: map<Id, Txn> := map[];
    var c := Choice(1, []);
    Started(WITHOUT_KEY, ls, db, none, 0, RefundStart(0, K));
    RefundGoesOn(WITHOUT_KEY, ls, db, none, 0, c);
    Moved(WITHOUT_KEY, ls, db, none, 0, RefundPayment(0, K), c, RefundChecked(0, K, true));
    assert none[0 := RefundChecked(0, K, true)] == map[0 := RefundChecked(0, K, true)];
  }

  /** If the unique key were dropped: a paid but cancelled booking is refunded while its slot is
      booked anew, the refund clears the new booking's flag, and the next create books the slot a
      second time. */
  lemma RefundRaceDoubleBooks() returns (s: Sys)
    ensures Fresh(START.db) && Reaches(WITHOUT_KEY, START, s) && !NoDoubleBooking(s.db)
  {
    hide Logged, Reaches, Effect, NoDoubleBooking, Fresh;
    StartIsFresh();
    var none: map<Id, Txn> := map[];
    var m, paid, free := WITHOUT_KEY, PaidDb(CONFIRMED, true), PaidDb(CANCELLED, false);
    Pays(m);
    CancelFrees(CONFIRMED);
    CancelRuns(m, PAYING, paid, none, 0, 0, Choice(1, []));
    var ls := PAYING + [Cancelled(0, true)];
    RefundChecks(ls, free);
    var waiting := map[0 := RefundChecked(0, K, true)];
    CreateRuns(m, ls, free, waiting, 1, 6, Choice(1, []));
    var db1, ls1 := Effect(free, Created(1, 6, K, 0)), ls + [Created(1, 6, K, 0)];
    RebookedKeys(db1);
    assert none[0 := RefundChecked(0, K, true)] == waiting;
    Committed(m, ls1, db1, none, 0, RefundChecked(0, K, true), Choice(2, []), Refunded(0, true));
    var db2, ls2 := Effect(db1, Refunded(0, true)), ls1 + [Refunded(0, true)];
    FreedAgain(db2);
    CreateRuns(m, ls2, db2, none, 2, 8, Choice(2, []));
    s := Sys(Effect(db2, Created(2, 8, K, 0)), none);
    LoggedIsReached(m, START, s, ls2 + [Created(2, 8, K, 0)]);
  }

  lemma RebookedKeys(db: Db)
    requires db == Effect(PaidDb(CANCELLED, false), Created(1, 6, K, 0))
    ensures db.bookings.Keys == {0, 1} && db.payments.Keys == {0}
  {
  }
}
