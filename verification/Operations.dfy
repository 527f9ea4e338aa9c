/** Each service call as one atomic step on the database, with the answers it can give. */
module Operations {
  import opened Rows
  import opened Steps
  import opened Runs
  import opened Calendar

  datatype Result = Done | NotFound | Forbidden | BadRequest | Conflict | Unchanged

  const STALE_MS: int := 15 * 60 * 1000

  function SlotStart(k: SlotKey): int {
    k.day * MS_PER_DAY + k.hour * MS_PER_HOUR
  }

  // ---- BookingService ----

  predicate HasLiveBooking(db: Db, user: Id, k: SlotKey) {
    exists b :: b in db.bookings && db.bookings[b].user == user && LiveOn(db, b, k)
  }

  function Create(key: SlotIdKey, db: Db, id: Id, user: Id, turf: Id, slot: SlotKey, turfActive: bool, now: int)
    : (Db, Result)
  {
    if slot !in db.slots || slot.turf != turf then (db, NotFound)
    else if !turfActive then (db, BadRequest)
    else if db.slots[slot].isBooked then (db, BadRequest)
    else if HasLiveBooking(db, user, slot) then (db, Conflict)
    // the INSERT fails on a row of any status, and the transaction rolls back
    else if key == Unique && SlotTaken(db, slot) then (db, Conflict)
    else (Effect(db, Created(id, user, slot, now)), Done)
  }

  /** Cancel a booking and release its slot unless another booking is active on it. */
  function CancelOne(db: Db, id: Id): Db {
    if id !in db.bookings then db
    else Effect(db, Cancelled(id, !OthersActive(db, db.bookings[id].slot, {id})))
  }

  function Cancel(db: Db, id: Id, user: Id): (Db, Result) {
    if id !in db.bookings then (db, NotFound)
    else if db.bookings[id].user != user then (db, Forbidden)
    else if db.bookings[id].status == CANCELLED then (db, BadRequest)
    else (CancelOne(db, id), Done)
  }

  function Stale(db: Db, cutoff: int): set<Id> {
    set b | b in db.bookings && db.bookings[b].status == PENDING && db.bookings[b].createdAt < cutoff
  }

  /** The slots of a batch that no booking outside the batch keeps. */
  function Releasable(db: Db, ids: set<Id>): set<SlotKey> {
    set k | k in SlotsOf(db, ids) && !OthersActive(db, k, ids)
  }

  function CancelBatch(db: Db, ids: set<Id>): Db {
    Effect(db, CleanedUp(ids, Releasable(db, ids)))
  }

  function CleanupStale(db: Db, now: int): Db {
    CancelBatch(db, Stale(db, now - STALE_MS))
  }

  // ---- PaymentService ----

  ghost function FindPayment(db: Db, intent: Id): Option<Id> {
    if exists b :: b in PaymentsWith(db, intent) then
      var b :| b in PaymentsWith(db, intent); Some(b)
    else None
  }

  function SaveIntent(db: Db, id: Id, user: Id, intent: Id): (Db, Result) {
    if id !in db.bookings then (db, NotFound)
    else if db.bookings[id].user != user then (db, BadRequest)
    else if PaidNow(db, id) then (db, Conflict)
    else if id in db.payments && db.payments[id].status == INITIATED then (db, Done)
    else if PaymentsWith(db, intent) <= {id} then (Effect(db, IntentSaved(id, intent)), Done)
    else (db, Conflict)
  }

  ghost function Success(db: Db, event: Id, intent: Id, now: int): (Db, Result) {
    match FindPayment(db, intent)
    case None => (db, Unchanged)
    case Some(id) =>
      if PaidNow(db, id) || event in db.events then (db, Unchanged)
      else (Effect(db, Succeeded(event, id, now)), Done)
  }

  ghost function Failure(db: Db, event: Id, intent: Id): (Db, Result) {
    match FindPayment(db, intent)
    case None => (db, Unchanged)
    case Some(id) =>
      if event in db.events then (db, Unchanged) else (Effect(db, Failed(event, id)), Done)
  }

  function InProcess(db: Db, event: Id, intent: Id): (Db, Result) {
    if event in db.events then (db, Unchanged) else (Effect(db, Processing(event, intent)), Done)
  }

  datatype EventKind = PaymentSucceeded | PaymentFailed | PaymentProcessing | OtherKind

  /** The webhook endpoint: a repeated event id is answered like an unhandled kind. */
  ghost function Deliver(db: Db, kind: EventKind, event: Id, intent: Id, now: int): (Db, Result) {
    match kind
    case PaymentSucceeded => Success(db, event, intent, now)
    case PaymentFailed => Failure(db, event, intent)
    case PaymentProcessing => InProcess(db, event, intent)
    case OtherKind => (db, Unchanged)
  }

  function Refund(db: Db, id: Id, user: Id, now: int): (Db, Result) {
    if id !in db.payments || id !in db.bookings then (db, NotFound)
    else if db.bookings[id].user != user then (db, Forbidden)
    else if db.payments[id].status != PAID then (db, BadRequest)
    else if SlotStart(db.bookings[id].slot) <= now then (db, BadRequest)
    else (Effect(db, Refunded(id, !OthersActive(db, db.bookings[id].slot, {id}))), Done)
  }

  // ---- Completion and slot maintenance ----

  function CompleteBooking(db: Db, id: Id): (Db, Result) {
    if id !in db.bookings then (db, NotFound)
    else if db.bookings[id].status != CONFIRMED then (db, BadRequest)
    else (Effect(db, Completed(id)), Done)
  }

  /** When the auto-complete job takes a slot to be over: its end hour on its own date. */
  function JobEnd(slots: map<SlotKey, Slot>, k: SlotKey): int {
    k.day * MS_PER_DAY + (if k in slots then slots[k].endHour * MS_PER_HOUR else 0)
  }

  function Expired(db: Db, now: int): set<Id> {
    set b | b in db.bookings && db.bookings[b].status == CONFIRMED
         && db.bookings[b].slot.day * MS_PER_DAY <= now && JobEnd(db.slots, db.bookings[b].slot) < now
  }

  function AutoComplete(db: Db, now: int): Db {
    SetStatus(db, Expired(db, now), COMPLETED)
  }

  function OldFree(db: Db, cutoffDay: int): set<SlotKey> {
    set k | k in db.slots && k.day < cutoffDay && !db.slots[k].isBooked
  }

  /** One DELETE: a booking that still refers to a doomed slot makes the whole statement fail. */
  function CleanupOldSlots(db: Db, cutoffDay: int): (Db, Result) {
    if exists b :: b in db.bookings && db.bookings[b].slot in OldFree(db, cutoffDay) then (db, Conflict)
    else (Effect(db, SlotsDeleted(OldFree(db, cutoffDay))), Done)
  }

  function AddSlots(db: Db, rows: map<SlotKey, Slot>): Db {
    Effect(db, SlotsAdded(map k | k in rows && k !in db.slots :: rows[k].(isBooked := false)))
  }

  datatype Op =
    | OpCreate(id: Id, user: Id, turf: Id, slot: SlotKey, turfActive: bool, now: int)
    | OpCancel(id: Id, user: Id)
    | OpCleanup(now: int)
    | OpSaveIntent(id: Id, user: Id, intent: Id)
    | OpSuccess(event: Id, intent: Id, now: int)
    | OpFailure(event: Id, intent: Id)
    | OpInProcess(event: Id, intent: Id)
    | OpRefund(id: Id, user: Id, now: int)
    | OpComplete(id: Id)
    | OpAutoComplete(now: int)
    | OpCleanupSlots(cutoffDay: int)
    | OpAddSlots(rows: map<SlotKey, Slot>)

  ghost function Apply(key: SlotIdKey, db: Db, op: Op): Db {
    match op
    case OpCreate(id, user, turf, slot, turfActive, now) =>
      // a fresh UUID: an insert under a used id would fail on the primary key
      if id in db.bookings then db else Create(key, db, id, user, turf, slot, turfActive, now).0
    case OpCancel(id, user) => Cancel(db, id, user).0
    case OpCleanup(now) => CleanupStale(db, now)
    case OpSaveIntent(id, user, intent) => SaveIntent(db, id, user, intent).0
    case OpSuccess(event, intent, now) => Success(db, event, intent, now).0
    case OpFailure(event, intent) => Failure(db, event, intent).0
    case OpInProcess(event, intent) => InProcess(db, event, intent).0
    case OpRefund(id, user, now) => Refund(db, id, user, now).0
    case OpComplete(id) => CompleteBooking(db, id).0
    case OpAutoComplete(now) => AutoComplete(db, now)
    case OpCleanupSlots(cutoffDay) => CleanupOldSlots(db, cutoffDay).0
    case OpAddSlots(rows) => AddSlots(db, rows)
  }

  ghost function ApplyAll(key: SlotIdKey, db: Db, ops: seq<Op>): Db {
    if ops == [] then db else Apply(key, ApplyAll(key, db, ops[..|ops| - 1]), ops[|ops| - 1])
  }

  // ---- Batch cleanup refines single cancellation ----

  function Elems(ids: seq<Id>): set<Id> {
    set x | x in ids
  }

  function CancelInOrder(db: Db, ids: seq<Id>): Db {
    if ids == [] then db else CancelOne(CancelInOrder(db, ids[..|ids| - 1]), ids[|ids| - 1])
  }

  lemma BatchThenOne(db: Db, done: set<Id>, x: Id)
    requires forall b :: b in done + {x} ==> b in db.bookings
    ensures CancelOne(CancelBatch(db, done), x) == CancelBatch(db, done + {x})
  {
    var mid, all := CancelBatch(db, done), done + {x};
    var k := db.bookings[x].slot;
    assert OthersActive(mid, k, {x}) == OthersActive(db, k, all) by {
      if OthersActive(mid, k, {x}) {
        var b :| b in mid.bookings && b !in {x} && ActiveOn(mid, b, k);
        assert b !in all && ActiveOn(db, b, k);
      }
      if OthersActive(db, k, all) {
        var b :| b in db.bookings && b !in all && ActiveOn(db, b, k);
        assert ActiveOn(mid, b, k);
      }
    }
    var one, batch := CancelOne(mid, x), CancelBatch(db, all);
    assert one.bookings == batch.bookings;
    forall s | s in db.slots
      ensures one.slots[s] == batch.slots[s]
    {
      if s != k {
        assert s in SlotsOf(db, done) <==> s in SlotsOf(db, all);
        assert OthersActive(db, s, done) == OthersActive(db, s, all);
      } else {
        assert s in SlotsOf(db, all) && s in SlotsOf(mid, {x});
        assert OthersActive(db, s, all) ==> OthersActive(db, s, done);
      }
    }
    assert one.slots == batch.slots;
  }

  lemma EmptyBatch(db: Db)
    ensures CancelBatch(db, {}) == db
  {
    assert CancelBatch(db, {}).bookings == db.bookings && CancelBatch(db, {}).slots == db.slots;
  }

  /** One batch leaves what cancelling its bookings one at a time leaves, in any order, however
      many bookings share a slot. */
  lemma {:induction false} BatchIsOneAtATime(db: Db, ids: seq<Id>)
    requires forall i :: 0 <= i < |ids| ==> ids[i] in db.bookings
    ensures CancelInOrder(db, ids) == CancelBatch(db, Elems(ids))
  {
    if ids == [] {
      assert Elems(ids) == {};
      EmptyBatch(db);
    } else {
      var n := |ids| - 1;
      var init := ids[..n];
      BatchIsOneAtATime(db, init);
      assert ids == init + [ids[n]];
      assert Elems(ids) == Elems(init) + {ids[n]};
      BatchThenOne(db, Elems(init), ids[n]);
    }
  }

  // ---- Every operation is a run of committed steps ----

  function CompletedLabels(ids: seq<Id>): seq<Label> {
    if ids == [] then [] else CompletedLabels(ids[..|ids| - 1]) + [Completed(ids[|ids| - 1])]
  }

  lemma CompleteOneMore(db: Db, done: set<Id>, x: Id)
    requires x in db.bookings && x !in done && db.bookings[x].status == CONFIRMED && Paid(db, x)
    ensures var mid := SetStatus(db, done, COMPLETED);
            Guard(mid, Completed(x)) && Atomic(mid, Completed(x)) &&
            Effect(mid, Completed(x)) == SetStatus(db, done + {x}, COMPLETED)
  {
    var mid := SetStatus(db, done, COMPLETED);
    assert Effect(mid, Completed(x)).bookings == SetStatus(db, done + {x}, COMPLETED).bookings;
  }

  lemma LegalOneMore(db: Db, ls: seq<Label>, l: Label)
    requires Legal(db, ls) && AllAtomic(db, ls) && Guard(After(db, ls), l) && Atomic(After(db, ls), l)
    ensures Legal(db, ls + [l]) && AllAtomic(db, ls + [l]) && After(db, ls + [l]) == Effect(After(db, ls), l)
  {
    hide Guard, Effect, Atomic;
    assert (ls + [l])[..|ls + [l]| - 1] == ls;
  }

  lemma CompletesNone(db: Db)
    ensures Legal(db, []) && AllAtomic(db, []) && After(db, []) == SetStatus(db, {}, COMPLETED)
  {
    hide Guard, Effect, Atomic;
    assert SetStatus(db, {}, COMPLETED).bookings == db.bookings;
  }

  lemma {:induction false} CompletesOneByOne(db: Db, ids: seq<Id>)
    requires PaidIfConfirmed(db)
    requires forall i, j :: 0 <= i < j < |ids| ==> ids[i] != ids[j]
    requires forall x :: x in ids ==> x in db.bookings && db.bookings[x].status == CONFIRMED
    ensures var ls := CompletedLabels(ids);
            Legal(db, ls) && AllAtomic(db, ls) && After(db, ls) == SetStatus(db, Elems(ids), COMPLETED)
  {
    hide Legal, AllAtomic, After, Guard, Effect, Atomic, SetStatus;
    if ids == [] {
      assert Elems(ids) == {};
      CompletesNone(db);
    } else {
      var n := |ids| - 1;
      var init, x := ids[..n], ids[n];
      assert ids == init + [x];
      assert x !in init;
      CompletesOneByOne(db, init);
      assert Elems(ids) == Elems(init) + {x};
      CompleteOneMore(db, Elems(init), x);
      LegalOneMore(db, CompletedLabels(init), Completed(x));
    }
  }

  lemma {:induction false} ListOf(s: set<Id>) returns (xs: seq<Id>)
    ensures Elems(xs) == s
    ensures forall i, j :: 0 <= i < j < |xs| ==> xs[i] != xs[j]
  {
    xs := [];
    var todo := s;
    while todo != {}
      invariant todo <= s
      invariant Elems(xs) == s - todo
      invariant forall i, j :: 0 <= i < j < |xs| ==> xs[i] != xs[j]
    {
      var x :| x in todo;
      assert forall y :: y in xs ==> y in Elems(xs);
      assert Elems(xs + [x]) == Elems(xs) + {x};
      todo, xs := todo - {x}, xs + [x];
    }
  }

  lemma OneStep(db: Db, l: Label)
    requires Guard(db, l) && Atomic(db, l)
    ensures Legal(db, [l]) && AllAtomic(db, [l]) && After(db, [l]) == Effect(db, l)
  {
    assert [l][..0] == [];
    assert Legal(db, []) && AllAtomic(db, []) && After(db, []) == db;
  }

  /** The committed step an operation takes, if it takes exactly one. */
  ghost function LabelOf(key: SlotIdKey, db: Db, op: Op): Option<Label> {
    match op
    case OpCreate(id, user, turf, slot, turfActive, now) =>
      if id !in db.bookings && Create(key, db, id, user, turf, slot, turfActive, now).1 == Done
      then Some(Created(id, user, slot, now)) else None
    case OpCancel(id, user) =>
      if Cancel(db, id, user).1 == Done
      then Some(Cancelled(id, !OthersActive(db, db.bookings[id].slot, {id}))) else None
    case OpCleanup(now) =>
      var ids := Stale(db, now - STALE_MS);
      Some(CleanedUp(ids, Releasable(db, ids)))
    case OpSaveIntent(id, user, intent) =>
      if SaveIntent(db, id, user, intent).1 == Done && !(id in db.payments && db.payments[id].status == INITIATED)
      then Some(IntentSaved(id, intent)) else None
    case OpSuccess(event, intent, now) =>
      if Success(db, event, intent, now).1 == Done
      then Some(Succeeded(event, FindPayment(db, intent).value, now)) else None
    case OpFailure(event, intent) =>
      if Failure(db, event, intent).1 == Done then Some(Failed(event, FindPayment(db, intent).value)) else None
    case OpInProcess(event, intent) =>
      if InProcess(db, event, intent).1 == Done then Some(Processing(event, intent)) else None
    case OpRefund(id, user, now) =>
      if Refund(db, id, user, now).1 == Done
      then Some(Refunded(id, !OthersActive(db, db.bookings[id].slot, {id}))) else None
    case OpComplete(id) => if CompleteBooking(db, id).1 == Done then Some(Completed(id)) else None
    case OpAutoComplete(now) => None
    case OpCleanupSlots(cutoffDay) =>
      if CleanupOldSlots(db, cutoffDay).1 == Done then Some(SlotsDeleted(OldFree(db, cutoffDay))) else None
    case OpAddSlots(rows) => Some(SlotsAdded(map k | k in rows && k !in db.slots :: rows[k].(isBooked := false)))
  }

  lemma OthersActiveAreLive(db: Db, k: SlotKey, except: set<Id>)
    requires OthersActive(db, k, except)
    ensures OthersLive(db, k, except)
  {
    var b :| b in db.bookings && b !in except && ActiveOn(db, b, k);
    assert LiveOn(db, b, k);
  }

  lemma CleanupGuard(db: Db, ids: set<Id>)
    requires forall b :: b in ids ==> b in db.bookings && db.bookings[b].status == PENDING
    ensures Guard(db, CleanedUp(ids, Releasable(db, ids)))
  {
    forall k | k in SlotsOf(db, ids)
      ensures ReleaseOk(db, k, ids, k in Releasable(db, ids))
    {
      if OthersActive(db, k, ids) { OthersActiveAreLive(db, k, ids); }
    }
  }

  lemma ReleaseGuard(db: Db, id: Id)
    requires id in db.bookings
    ensures ReleaseOk(db, db.bookings[id].slot, {id}, !OthersActive(db, db.bookings[id].slot, {id}))
  {
    if OthersActive(db, db.bookings[id].slot, {id}) { OthersActiveAreLive(db, db.bookings[id].slot, {id}); }
  }

  lemma LabelGuard(key: SlotIdKey, db: Db, op: Op)
    requires Consistent(db)
    requires LabelOf(key, db, op).Some?
    ensures Guard(db, LabelOf(key, db, op).value) && Atomic(db, LabelOf(key, db, op).value)
  {
    match op
    case OpCleanup(now) => CleanupGuard(db, Stale(db, now - STALE_MS));
    case OpCancel(id, user) => ReleaseGuard(db, id);
    case OpRefund(id, user, now) => ReleaseGuard(db, id);
    case _ =>
  }

  lemma ApplyIsEffect(key: SlotIdKey, db: Db, op: Op)
    requires !op.OpAutoComplete?
    ensures Apply(key, db, op) == match LabelOf(key, db, op) case Some(l) => Effect(db, l) case None => db
  {
  }

  lemma AutoCompleteRefines(db: Db, now: int) returns (ls: seq<Label>)
    requires PaidIfConfirmed(db)
    ensures Legal(db, ls) && AllAtomic(db, ls) && After(db, ls) == AutoComplete(db, now)
  {
    var ids := ListOf(Expired(db, now));
    ls := CompletedLabels(ids);
    assert forall x :: x in ids ==> x in Elems(ids);
    CompletesOneByOne(db, ids);
  }

  /** Every operation, whatever it answers, is a legal run of atomic steps. */
  lemma OpRefines(key: SlotIdKey, db: Db, op: Op) returns (ls: seq<Label>)
    requires Consistent(db)
    ensures Legal(db, ls) && AllAtomic(db, ls) && After(db, ls) == Apply(key, db, op)
  {
    if op.OpAutoComplete? {
      ls := AutoCompleteRefines(db, op.now);
    } else {
      ApplyIsEffect(key, db, op);
      match LabelOf(key, db, op)
      case None => ls := [];
      case Some(l) =>
        LabelGuard(key, db, op);
        ls := [l];
        OneStep(db, l);
    }
  }

  lemma {:induction false} OpsRefine(key: SlotIdKey, db: Db, ops: seq<Op>) returns (ls: seq<Label>)
    requires Consistent(db)
    ensures Legal(db, ls) && AllAtomic(db, ls) && After(db, ls) == ApplyAll(key, db, ops)
  {
    if ops == [] {
      ls := [];
    } else {
      var ls0 := OpsRefine(key, db, ops[..|ops| - 1]);
      RunConsistent(db, ls0);
      var ls1 := OpRefines(key, After(db, ls0), ops[|ops| - 1]);
      ls := ls0 + ls1;
      Append(db, ls0, ls1);
      AppendAtomic(db, ls0, ls1);
    }
  }

  /** No double booking and no leaked slot over every run of service calls, refunds and slot
      maintenance included. */
  lemma OpsConsistent(key: SlotIdKey, db: Db, ops: seq<Op>)
    requires Consistent(db)
    ensures Consistent(ApplyAll(key, db, ops))
  {
    var ls := OpsRefine(key, db, ops);
    RunConsistent(db, ls);
  }

  // ---- What single operations promise ----

  /** Redelivering a recorded webhook event at any later time changes nothing, whatever its kind and
      payload. */
  lemma RedeliveryIsNoOp(key: SlotIdKey, db: Db, ops: seq<Op>, kind: EventKind, event: Id, intent: Id, now: int)
    requires Consistent(db) && event in db.events
    ensures var later := ApplyAll(key, db, ops); Deliver(later, kind, event, intent, now) == (later, Unchanged)
  {
    hide Apply;
    var ls := OpsRefine(key, db, ops);
    RecordedForever(db, ls, event);
  }

  /** The weekly cleanup deletes no slot that has an active booking, and it gets through exactly
      when no booking at all, cancelled ones included, still refers to an old free slot. */
  lemma CleanupOldSlotsIff(db: Db, cutoffDay: int)
    requires Consistent(db)
    ensures CleanupOldSlots(db, cutoffDay).1 == Done
       <==> forall b :: b in db.bookings ==>
              db.bookings[b].slot.day >= cutoffDay || db.slots[db.bookings[b].slot].isBooked
    ensures forall b, k :: ActiveOn(db, b, k) ==> k in CleanupOldSlots(db, cutoffDay).0.slots
  {
  }

  /** Cancelling an active booking always clears its slot's flag; booking the slot again, by a user
      without a live booking on it, then succeeds if and only if the unique key is not there. */
  lemma CancelFreesSlot(key: SlotIdKey, db: Db, id: Id, user: Id, newId: Id, other: Id, now: int)
    requires Consistent(db) && Cancel(db, id, user).1 == Done && Active(db.bookings[id].status)
    requires newId !in db.bookings && !HasLiveBooking(Cancel(db, id, user).0, other, db.bookings[id].slot)
    ensures var k := db.bookings[id].slot; var db' := Cancel(db, id, user).0;
            k in db'.slots && !db'.slots[k].isBooked &&
            (Create(key, db', newId, other, k.turf, k, true, now).1 == Done <==> key == NotUnique)
  {
    var k := db.bookings[id].slot;
    assert k in SlotsOf(db, {id}) && ActiveOn(db, id, k);
    assert !OthersActive(db, k, {id});
    assert id in Cancel(db, id, user).0.bookings && Cancel(db, id, user).0.bookings[id].slot == k;
  }

  /** With the unique key, a slot that ever had a booking is never booked again, whatever happens to
      that booking. */
  lemma BookedOnlyOnce(db: Db, ops: seq<Op>, b: Id, newId: Id, user: Id, turf: Id, turfActive: bool, now: int)
    requires Consistent(db) && b in db.bookings
    ensures Create(Unique, ApplyAll(Unique, db, ops), newId, user, turf, db.bookings[b].slot, turfActive, now).1 != Done
  {
    hide Apply;
    var ls := OpsRefine(Unique, db, ops);
    BookingStays(db, ls, b);
  }

  lemma OneRowMore(db: Db, op: Op)
    requires Consistent(db) && OnePerSlot(db)
    ensures OnePerSlot(Apply(Unique, db, op))
  {
    hide Consistent, Effect;
    if op.OpAutoComplete? {
    } else {
      ApplyIsEffect(Unique, db, op);
      if LabelOf(Unique, db, op).Some? {
        LabelGuard(Unique, db, op);
        OnePerSlotKept(db, LabelOf(Unique, db, op).value);
      }
    }
  }

  /** The unique key holds over every run of calls. */
  lemma {:induction false} AlwaysOnePerSlot(db: Db, ops: seq<Op>)
    requires Consistent(db) && OnePerSlot(db)
    ensures OnePerSlot(ApplyAll(Unique, db, ops))
  {
    hide Apply, Consistent;
    if ops == [] {
    } else {
      var init := ops[..|ops| - 1];
      AlwaysOnePerSlot(db, init);
      OpsConsistent(Unique, db, init);
      OneRowMore(ApplyAll(Unique, db, init), ops[|ops| - 1]);
    }
  }

  /** Real end of a one-hour slot. */
  function SlotEnd(k: SlotKey): int {
    SlotStart(k) + MS_PER_HOUR
  }

  predicate Over(k: SlotKey, now: int) {
    SlotEnd(k) < now
  }

  /** Every row is a one-hour slot of its key. */
  ghost predicate WellTimed(slots: map<SlotKey, Slot>) {
    forall k :: k in slots ==> k.hour < 24 && slots[k].endHour == (k.hour + 1) % 24
  }

  /** The end the job computes is the real one, except for a slot that ends at midnight. */
  lemma JobEndIs(slots: map<SlotKey, Slot>, k: SlotKey)
    requires WellTimed(slots) && k in slots
    ensures JobEnd(slots, k) == if k.hour == 23 then SlotEnd(k) - MS_PER_DAY else SlotEnd(k)
  {
  }

  /** Any time on the date of a 23:00 slot: the job takes a confirmed booking of it to be over and
      completes it, although before 23:00 the slot has not even started. */
  lemma CompletedBeforeStart(db: Db, b: Id, now: int)
    requires References(db) && WellTimed(db.slots)
    requires b in db.bookings && db.bookings[b].status == CONFIRMED && db.bookings[b].slot.hour == 23
    requires db.bookings[b].slot.day * MS_PER_DAY < now < SlotStart(db.bookings[b].slot)
    ensures AutoComplete(db, now).bookings[b].status == COMPLETED && !Over(db.bookings[b].slot, now)
  {
    JobEndIs(db.slots, db.bookings[b].slot);
  }

  /** At time `now` the job completes a booking whose slot is not over if and only if a confirmed
      booking is on a 23:00 slot whose date has begun and whose end has not passed. */
  lemma CompletesEarlyIff(db: Db, now: int)
    requires References(db) && WellTimed(db.slots)
    ensures (exists b :: b in Expired(db, now) && !Over(db.bookings[b].slot, now))
       <==> (exists b :: b in db.bookings && EarlyAt(db.bookings[b], now))
  {
    if b :| b in Expired(db, now) && !Over(db.bookings[b].slot, now) {
      JobEndIs(db.slots, db.bookings[b].slot);
      assert EarlyAt(db.bookings[b], now);
    }
    if b :| b in db.bookings && EarlyAt(db.bookings[b], now) {
      JobEndIs(db.slots, db.bookings[b].slot);
      assert b in Expired(db, now);
    }
  }

  predicate EarlyAt(b: Booking, now: int) {
    b.status == CONFIRMED && b.slot.hour == 23 && b.slot.day * MS_PER_DAY < now <= SlotEnd(b.slot)
  }

  /** At whatever time the auto-complete job runs, it completes only bookings whose slot is over, if
      and only if no confirmed booking is on a 23:00 slot. */
  lemma AutoCompleteWaitsIff(db: Db)
    requires References(db) && WellTimed(db.slots)
    ensures (forall now, b :: b in Expired(db, now) ==> Over(db.bookings[b].slot, now))
       <==> (forall b :: b in db.bookings && db.bookings[b].status == CONFIRMED ==> db.bookings[b].slot.hour != 23)
  {
    hide JobEnd, WellTimed;
    if b :| b in db.bookings && db.bookings[b].status == CONFIRMED && db.bookings[b].slot.hour == 23 {
      var now := db.bookings[b].slot.day * MS_PER_DAY + 1;
      assert EarlyAt(db.bookings[b], now);
      CompletesEarlyIff(db, now);
    } else {
      forall now, b | b in Expired(db, now)
        ensures Over(db.bookings[b].slot, now)
      {
        CompletesEarlyIff(db, now);
      }
    }
  }

  /** And for the slots it does wait for, it is not late: it completes every confirmed booking whose
      slot is over. */
  lemma AutoCompleteMissesNone(db: Db, now: int, b: Id)
    requires References(db) && WellTimed(db.slots)
    requires b in db.bookings && db.bookings[b].status == CONFIRMED && Over(db.bookings[b].slot, now)
    ensures AutoComplete(db, now).bookings[b].status == COMPLETED
  {
    JobEndIs(db.slots, db.bookings[b].slot);
  }
}
