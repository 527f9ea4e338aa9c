/** What moves a booking and a payment, told from the rows alone, and what follows over time: a
    booking that is not paid is given up between fifteen and twenty minutes after it was made, and
    one that is paid is kept. */
module Lifecycle {
  import opened Rows
  import opened Steps
  import opened Runs
  import opened Operations
  import opened Calendar

  const MINUTE: int := 60 * 1000

  // ---- One call ----

  /** The owner cancels or gets a refund before the slot starts, or nobody has paid for fifteen minutes. */
  predicate Cancels(db: Db, op: Op, b: Id)
    requires b in db.bookings
  {
    var row := db.bookings[b];
    match op
    case OpCancel(id, user) => id == b && user == row.user && row.status != CANCELLED
    case OpCleanup(now) => row.status == PENDING && row.createdAt < now - 15 * MINUTE
    case OpRefund(id, user, now) =>
      id == b && user == row.user && b in db.payments && db.payments[b].status == PAID &&
      now < row.slot.day * MS_PER_DAY + row.slot.hour * MS_PER_HOUR
    case _ => false
  }

  /** A success event that was not seen before reaches the payment of the booking. */
  predicate Pays(db: Db, op: Op, b: Id) {
    op.OpSuccess? && b in db.payments && db.payments[b].intent == op.intent && db.payments[b].status != PAID &&
    op.event !in db.events
  }

  predicate Completes(db: Db, op: Op, b: Id)
    requires b in db.bookings && db.bookings[b].slot in db.slots
  {
    var row := db.bookings[b];
    row.status == CONFIRMED &&
    match op
    case OpComplete(id) => id == b
    case OpAutoComplete(now) =>
      row.slot.day * MS_PER_DAY <= now && row.slot.day * MS_PER_DAY + db.slots[row.slot].endHour * MS_PER_HOUR < now
    case _ => false
  }

  function NextStatus(db: Db, op: Op, b: Id): BookingStatus
    requires References(db) && b in db.bookings
  {
    if Cancels(db, op, b) then CANCELLED
    else if Pays(db, op, b) && db.bookings[b].status == PENDING then CONFIRMED
    else if Completes(db, op, b) then COMPLETED
    else db.bookings[b].status
  }

  ghost predicate Moves(key: SlotIdKey, db: Db, op: Op, b: Id)
    requires References(db) && b in db.bookings
  {
    var db' := Apply(key, db, op);
    b in db'.bookings && db'.bookings[b] == db.bookings[b].(status := NextStatus(db, op, b))
  }

  lemma EventMovesBooking(key: SlotIdKey, db: Db, op: Op, b: Id)
    requires Keys(db) && b in db.bookings && (op.OpSuccess? || op.OpFailure? || op.OpInProcess?)
    ensures Moves(key, db, op, b)
  {
    FoundBy(db, op.intent, b);
    hide UniqueIntents, FindPayment, PaymentsWith;
  }

  lemma CallMovesBooking(key: SlotIdKey, db: Db, op: Op, b: Id)
    requires References(db) && b in db.bookings && (op.OpCancel? || op.OpRefund? || op.OpCleanup?)
    ensures Moves(key, db, op, b)
  {
    hide OthersActive, Releasable;
  }

  /** Everything a call can do to a booking that exists. */
  lemma BookingMoves(key: SlotIdKey, db: Db, op: Op, b: Id)
    requires Consistent(db) && b in db.bookings
    ensures Moves(key, db, op, b)
  {
    hide UniqueIntents, NoDoubleBooking, Sandwich, PaidIfConfirmed, HasLiveBooking, SlotTaken;
    if op.OpSuccess? || op.OpFailure? || op.OpInProcess? {
      EventMovesBooking(key, db, op, b);
    } else if op.OpCancel? || op.OpRefund? || op.OpCleanup? {
      CallMovesBooking(key, db, op, b);
    }
  }

  /** The payment found by an intent is the only one that has it. */
  lemma FoundBy(db: Db, intent: Id, b: Id)
    requires Keys(db)
    ensures b in db.payments && db.payments[b].intent == intent <==> FindPayment(db, intent) == Some(b)
  {
    if b in db.payments && db.payments[b].intent == intent {
      assert b in PaymentsWith(db, intent);
    }
  }

  /** A new row comes from a `create` on a free slot only. */
  lemma BookingBorn(key: SlotIdKey, db: Db, op: Op, b: Id)
    requires Consistent(db) && b !in db.bookings
    ensures b in Apply(key, db, op).bookings <==>
              op.OpCreate? && op.id == b && op.slot in db.slots && op.slot.turf == op.turf && op.turfActive &&
              !db.slots[op.slot].isBooked &&
              forall c :: c in db.bookings && db.bookings[c].slot == op.slot ==>
                key == NotUnique && (db.bookings[c].user != op.user || db.bookings[c].status == CANCELLED)
    ensures b in Apply(key, db, op).bookings ==>
              Apply(key, db, op).bookings[b] == Booking(op.user, op.slot, PENDING, op.now)
  {
    hide UniqueIntents, NoDoubleBooking, Sandwich, PaidIfConfirmed;
    if op.OpCreate? {
      CreateBears(key, db, op, b);
    }
  }

  lemma CreateBears(key: SlotIdKey, db: Db, op: Op, b: Id)
    requires op.OpCreate? && b !in db.bookings
    ensures b in Apply(key, db, op).bookings <==>
              op.id == b && op.slot in db.slots && op.slot.turf == op.turf && op.turfActive &&
              !db.slots[op.slot].isBooked &&
              forall c :: c in db.bookings && db.bookings[c].slot == op.slot ==>
                key == NotUnique && (db.bookings[c].user != op.user || db.bookings[c].status == CANCELLED)
    ensures b in Apply(key, db, op).bookings ==>
              Apply(key, db, op).bookings[b] == Booking(op.user, op.slot, PENDING, op.now)
  {
  }

  /** An intent is stored for the owner's booking unless it is paid or has one waiting. */
  predicate Saves(db: Db, op: Op, b: Id) {
    op.OpSaveIntent? && op.id == b && b in db.bookings && db.bookings[b].user == op.user &&
    !(b in db.payments && db.payments[b].status in {PAID, INITIATED}) &&
    forall c :: c in db.payments && c != b ==> db.payments[c].intent != op.intent
  }

  predicate Notifies(db: Db, op: Op, b: Id) {
    (op.OpFailure? || op.OpInProcess?) && b in db.payments && db.payments[b].intent == op.intent &&
    op.event !in db.events
  }

  /** What a call leaves of the payment of b. */
  function NextPayment(db: Db, op: Op, b: Id): Option<Payment> {
    if Saves(db, op, b) then
      Some(Payment(op.intent, INITIATED, if b in db.payments then db.payments[b].paidAt else None))
    else if b !in db.payments then None
    else if Pays(db, op, b) then Some(db.payments[b].(status := PAID, paidAt := Some(op.now)))
    else if Notifies(db, op, b) then
      Some(db.payments[b].(status := if op.OpFailure? then FAILED else PROCESSING))
    else if op.OpRefund? && b in db.bookings && Cancels(db, op, b) then Some(db.payments[b].(status := REFUNDED))
    else Some(db.payments[b])
  }

  predicate Reads(db: Db, b: Id, p: Option<Payment>) {
    if b in db.payments then p == Some(db.payments[b]) else p == None
  }

  lemma EventMovesPayment(key: SlotIdKey, db: Db, op: Op, b: Id)
    requires Keys(db) && (op.OpSuccess? || op.OpFailure? || op.OpInProcess?)
    ensures Reads(Apply(key, db, op), b, NextPayment(db, op, b))
  {
    hide UniqueIntents;
    FoundBy(db, op.intent, b);
  }

  lemma IntentMovesPayment(key: SlotIdKey, db: Db, op: Op, b: Id)
    requires References(db) && op.OpSaveIntent?
    ensures Reads(Apply(key, db, op), b, NextPayment(db, op, b))
  {
    FreeIntent(db, op.id, op.intent);
    hide PaymentsWith;
  }

  /** Everything a call can do to a payment. */
  lemma PaymentMoves(key: SlotIdKey, db: Db, op: Op, b: Id)
    requires Consistent(db)
    ensures Reads(Apply(key, db, op), b, NextPayment(db, op, b))
  {
    hide UniqueIntents, NoDoubleBooking, Sandwich, PaidIfConfirmed, HasLiveBooking, SlotTaken, OthersActive, Releasable;
    if op.OpSuccess? || op.OpFailure? || op.OpInProcess? {
      EventMovesPayment(key, db, op, b);
    } else if op.OpSaveIntent? {
      IntentMovesPayment(key, db, op, b);
    }
  }

  lemma FreeIntent(db: Db, id: Id, intent: Id)
    ensures PaymentsWith(db, intent) <= {id} <==>
              forall c :: c in db.payments && c != id ==> db.payments[c].intent != intent
  {
    if PaymentsWith(db, intent) <= {id} {
      forall c | c in db.payments && c != id
        ensures db.payments[c].intent != intent
      {
        assert c !in PaymentsWith(db, intent);
      }
    }
  }

  /** An event id is recorded by the first delivery that has something to do. */
  lemma EventMoves(key: SlotIdKey, db: Db, op: Op)
    requires Consistent(db)
    ensures Apply(key, db, op).events ==
              if op.OpInProcess? || (op.OpSuccess? && exists b :: Pays(db, op, b)) ||
                 (op.OpFailure? && exists b :: Notifies(db, op, b))
              then db.events + {op.event} else db.events
  {
    hide UniqueIntents, NoDoubleBooking, Sandwich, PaidIfConfirmed, FindPayment, PaymentsWith;
    if op.OpSuccess? || op.OpFailure? {
      forall b
        ensures b in db.payments && db.payments[b].intent == op.intent <==> FindPayment(db, op.intent) == Some(b)
      {
        FoundBy(db, op.intent, b);
      }
      match FindPayment(db, op.intent)
      case None =>
      case Some(p) =>
        assert Pays(db, op, p) || Notifies(db, op, p) || op.event in db.events || db.payments[p].status == PAID;
    }
  }

  // ---- Slots ----

  /** A booking on the slot is cancelled, and no other booking keeps it. */
  ghost predicate Frees(db: Db, op: Op, k: SlotKey) {
    (exists b :: b in db.bookings && db.bookings[b].slot == k && Cancels(db, op, b)) &&
    (forall b :: ActiveOn(db, b, k) ==> Cancels(db, op, b))
  }

  /** No booking refers to a free slot of a date before the cutoff. */
  predicate MayDelete(db: Db, cutoffDay: int) {
    forall b :: b in db.bookings && db.bookings[b].slot in db.slots ==>
      db.bookings[b].slot.day >= cutoffDay || db.slots[db.bookings[b].slot].isBooked
  }

  /** What a call leaves of slot k. */
  ghost function NextSlot(key: SlotIdKey, db: Db, op: Op, k: SlotKey): Option<Slot> {
    if k !in db.slots then
      if op.OpAddSlots? && k in op.rows then Some(op.rows[k].(isBooked := false)) else None
    else if op.OpCleanupSlots? && k.day < op.cutoffDay && !db.slots[k].isBooked && MayDelete(db, op.cutoffDay) then None
    else if op.OpCreate? && op.slot == k && op.id !in db.bookings && op.id in Apply(key, db, op).bookings then
      Some(db.slots[k].(isBooked := true))
    else if Frees(db, op, k) then Some(db.slots[k].(isBooked := false))
    else Some(db.slots[k])
  }

  predicate HasSlot(db: Db, k: SlotKey, slot: Option<Slot>) {
    if k in db.slots then slot == Some(db.slots[k]) else slot == None
  }

  lemma CancelMovesSlot(key: SlotIdKey, db: Db, op: Op, k: SlotKey)
    requires References(db) && (op.OpCancel? || op.OpRefund?)
    ensures HasSlot(Apply(key, db, op), k, NextSlot(key, db, op, k))
  {
    if op.id in db.bookings && Cancels(db, op, op.id) && k == db.bookings[op.id].slot {
      assert OthersActive(db, k, {op.id}) <==> exists b :: b != op.id && ActiveOn(db, b, k);
    }
  }

  lemma CleanupMovesSlot(key: SlotIdKey, db: Db, op: Op, k: SlotKey)
    requires References(db) && op.OpCleanup?
    ensures HasSlot(Apply(key, db, op), k, NextSlot(key, db, op, k))
  {
    var ids := Stale(db, op.now - STALE_MS);
    assert forall b :: b in db.bookings ==> (b in ids <==> Cancels(db, op, b));
    assert k in SlotsOf(db, ids) <==> exists b :: b in db.bookings && db.bookings[b].slot == k && Cancels(db, op, b);
    assert OthersActive(db, k, ids) <==> exists b :: ActiveOn(db, b, k) && !Cancels(db, op, b);
  }

  lemma MaintenanceMovesSlot(key: SlotIdKey, db: Db, op: Op, k: SlotKey)
    requires References(db) && (op.OpAddSlots? || op.OpCleanupSlots? || op.OpCreate?)
    ensures HasSlot(Apply(key, db, op), k, NextSlot(key, db, op, k))
  {
    hide HasLiveBooking, SlotTaken;
    assert !Frees(db, op, k);
  }

  /** Everything a call can do to a slot. */
  lemma SlotMoves(key: SlotIdKey, db: Db, op: Op, k: SlotKey)
    requires Consistent(db)
    ensures HasSlot(Apply(key, db, op), k, NextSlot(key, db, op, k))
  {
    hide UniqueIntents, NoDoubleBooking, Sandwich, PaidIfConfirmed;
    if op.OpCancel? || op.OpRefund? {
      CancelMovesSlot(key, db, op, k);
    } else if op.OpCleanup? {
      CleanupMovesSlot(key, db, op, k);
    } else if op.OpAddSlots? || op.OpCleanupSlots? || op.OpCreate? {
      MaintenanceMovesSlot(key, db, op, k);
    } else {
      assert !Frees(db, op, k);
    }
  }

  // ---- Over time ----

  /** A booking that exists keeps its owner, slot and creation time over every run. */
  lemma {:induction false} StaysItself(key: SlotIdKey, db: Db, ops: seq<Op>, b: Id)
    requires Consistent(db) && b in db.bookings
    ensures Consistent(ApplyAll(key, db, ops)) && b in ApplyAll(key, db, ops).bookings
    ensures ApplyAll(key, db, ops).bookings[b] ==
              db.bookings[b].(status := ApplyAll(key, db, ops).bookings[b].status)
  {
    hide Apply, Consistent, Cancels, Pays, Completes;
    if ops == [] {
    } else {
      var init := ops[..|ops| - 1];
      StaysItself(key, db, init, b);
      OpsConsistent(key, db, ops);
      InOrder(ApplyAll(key, db, init));
      BookingMoves(key, ApplyAll(key, db, init), ops[|ops| - 1], b);
    }
  }

  lemma InOrder(db: Db)
    requires Consistent(db)
    ensures References(db)
  {
  }

  /** Over every run of calls a booking is cancelled if and only if, at some point of it, its owner
      cancels it or gets a refund in time, or a cleanup finds it unpaid for fifteen minutes. */
  lemma {:induction false} CancelledIff(key: SlotIdKey, db: Db, ops: seq<Op>, b: Id)
    requires Consistent(db) && b in db.bookings && db.bookings[b].status != CANCELLED
    ensures b in ApplyAll(key, db, ops).bookings
    ensures ApplyAll(key, db, ops).bookings[b].status == CANCELLED <==> CancelledIn(key, db, ops, b)
  {
    hide Apply, Consistent, Cancels, Pays, Completes;
    if ops == [] {
    } else {
      var init := ops[..|ops| - 1];
      CancelledIff(key, db, init, b);
      StaysItself(key, db, init, b);
      InOrder(ApplyAll(key, db, init));
      BookingMoves(key, ApplyAll(key, db, init), ops[|ops| - 1], b);
      ConfirmedOnly(ApplyAll(key, db, init), ops[|ops| - 1], b);
      OneCallMore(key, db, ops, b);
    }
  }

  lemma ConfirmedOnly(db: Db, op: Op, b: Id)
    requires References(db) && b in db.bookings
    ensures Completes(db, op, b) ==> db.bookings[b].status == CONFIRMED
  {
  }

  ghost predicate CancelsAt(key: SlotIdKey, db: Db, ops: seq<Op>, i: nat, b: Id)
    requires i < |ops|
  {
    var now := ApplyAll(key, db, ops[..i]);
    b in now.bookings && Cancels(now, ops[i], b)
  }

  ghost predicate CancelledIn(key: SlotIdKey, db: Db, ops: seq<Op>, b: Id) {
    exists i :: 0 <= i < |ops| && CancelsAt(key, db, ops, i, b)
  }

  lemma OneCallMore(key: SlotIdKey, db: Db, ops: seq<Op>, b: Id)
    requires ops != []
    ensures CancelledIn(key, db, ops, b) <==>
              CancelledIn(key, db, ops[..|ops| - 1], b) || CancelsAt(key, db, ops, |ops| - 1, b)
  {
    hide ApplyAll, Cancels;
    var init := ops[..|ops| - 1];
    forall i | 0 <= i < |init|
      ensures CancelsAt(key, db, ops, i, b) <==> CancelsAt(key, db, init, i, b)
    {
      assert init[..i] == ops[..i];
    }
  }

  /** A booking that was paid for is kept until its owner gives it up: no cleanup cancels it. */
  lemma {:induction false} PaidIsKept(key: SlotIdKey, db: Db, ops: seq<Op>, b: Id)
    requires Consistent(db) && b in db.bookings && db.bookings[b].status in {CONFIRMED, COMPLETED}
    requires forall i :: 0 <= i < |ops| ==> !((ops[i].OpCancel? || ops[i].OpRefund?) && ops[i].id == b)
    ensures b in ApplyAll(key, db, ops).bookings && ApplyAll(key, db, ops).bookings[b].status in {CONFIRMED, COMPLETED}
  {
    hide Apply, Consistent, Completes;
    if ops == [] {
    } else {
      var init := ops[..|ops| - 1];
      PaidIsKept(key, db, init, b);
      StaysItself(key, db, init, b);
      InOrder(ApplyAll(key, db, init));
      BookingMoves(key, ApplyAll(key, db, init), ops[|ops| - 1], b);
    }
  }

  // ---- Fifteen and twenty minutes ----

  /** The moment of each call; time does not run backwards, and a `create` or a cleanup reads it. */
  predicate Clocked(ops: seq<Op>, times: seq<int>) {
    |times| == |ops| &&
    (forall i, j :: 0 <= i < j < |times| ==> times[i] <= times[j]) &&
    (forall i :: 0 <= i < |ops| ==> (ops[i].OpCreate? || ops[i].OpCleanup? ==> ops[i].now == times[i]))
  }

  /** In its first fifteen minutes nobody but its owner ends a booking: no cleanup cancels it. */
  lemma {:induction false} SafeForFifteenMinutes(key: SlotIdKey, db: Db, ops: seq<Op>, times: seq<int>, b: Id)
    requires Consistent(db) && b in db.bookings && db.bookings[b].status != CANCELLED && Clocked(ops, times)
    requires forall i :: 0 <= i < |ops| ==> times[i] <= db.bookings[b].createdAt + 15 * MINUTE
    requires forall i :: 0 <= i < |ops| ==> !((ops[i].OpCancel? || ops[i].OpRefund?) && ops[i].id == b)
    ensures b in ApplyAll(key, db, ops).bookings && ApplyAll(key, db, ops).bookings[b].status != CANCELLED
  {
    hide Apply, Consistent;
    CancelledIff(key, db, ops, b);
    forall i | 0 <= i < |ops|
      ensures !CancelsAt(key, db, ops, i, b)
    {
      StaysItself(key, db, ops[..i], b);
    }
  }

  /** Nothing that waits for its payment was made before `since`. */
  ghost predicate PendingSince(db: Db, since: int) {
    forall b :: b in db.bookings && db.bookings[b].status == PENDING ==> since <= db.bookings[b].createdAt
  }

  lemma PendingStep(key: SlotIdKey, db: Db, op: Op, since: int)
    requires Consistent(db)
    requires op.OpCreate? ==> since <= op.now
    requires PendingSince(db, since) || (op.OpCleanup? && since <= op.now - 15 * MINUTE)
    ensures PendingSince(Apply(key, db, op), since)
  {
    var db' := Apply(key, db, op);
    forall b | b in db'.bookings && db'.bookings[b].status == PENDING
      ensures since <= db'.bookings[b].createdAt
    {
      hide Apply, NoDoubleBooking, Sandwich, PaidIfConfirmed;
      if b in db.bookings {
        BookingMoves(key, db, op, b);
      } else {
        BookingBorn(key, db, op, b);
      }
    }
  }

  lemma ClockedPrefix(ops: seq<Op>, times: seq<int>)
    requires Clocked(ops, times) && ops != []
    ensures Clocked(ops[..|ops| - 1], times[..|times| - 1])
  {
  }

  /** After a cleanup, whatever waits for its payment is younger than fifteen minutes were at that
      cleanup. */
  lemma {:induction false} PendingAfterCleanup(key: SlotIdKey, db: Db, ops: seq<Op>, times: seq<int>, c: nat)
    requires Consistent(db) && Clocked(ops, times) && c < |ops| && ops[c].OpCleanup?
    ensures PendingSince(ApplyAll(key, db, ops), times[c] - 15 * MINUTE)
  {
    hide Apply, Consistent, PendingSince;
    var n := |ops| - 1;
    ClockedPrefix(ops, times);
    OpsConsistent(key, db, ops[..n]);
    if c < n { PendingAfterCleanup(key, db, ops[..n], times[..n], c); }
    PendingStep(key, ApplyAll(key, db, ops[..n]), ops[n], times[c] - 15 * MINUTE);
  }

  lemma {:induction false} PendingFromStart(key: SlotIdKey, db: Db, ops: seq<Op>, times: seq<int>, since: int)
    requires Consistent(db) && Clocked(ops, times) && PendingSince(db, since)
    requires forall i :: 0 <= i < |times| ==> since <= times[i]
    ensures PendingSince(ApplyAll(key, db, ops), since)
  {
    hide Apply, Consistent, PendingSince;
    if ops == [] {
    } else {
      var n := |ops| - 1;
      ClockedPrefix(ops, times);
      OpsConsistent(key, db, ops[..n]);
      PendingFromStart(key, db, ops[..n], times[..n], since);
      PendingStep(key, ApplyAll(key, db, ops[..n]), ops[n], since);
    }
  }

  /** A cleanup runs within five minutes of t. */
  predicate CleansSoonAfter(ops: seq<Op>, times: seq<int>, t: int)
    requires |times| == |ops|
  {
    exists i :: 0 <= i < |ops| && ops[i].OpCleanup? && t <= times[i] <= t + 5 * MINUTE
  }

  /** From `start` to `now` cleanups are never more than five minutes apart. */
  ghost predicate EveryFiveMinutes(ops: seq<Op>, times: seq<int>, start: int, now: int)
    requires |times| == |ops|
  {
    forall t :: start <= t <= now - 5 * MINUTE ==> CleansSoonAfter(ops, times, t)
  }

  /** With a cleanup every five minutes no booking waits for its payment for more than twenty. */
  lemma GivenUpAfterTwentyMinutes(key: SlotIdKey, db: Db, ops: seq<Op>, times: seq<int>, start: int, now: int, b: Id)
    requires Consistent(db) && Clocked(ops, times) && EveryFiveMinutes(ops, times, start, now)
    requires forall i :: 0 <= i < |times| ==> start <= times[i] <= now
    requires PendingSince(db, start - 15 * MINUTE)
    requires b in ApplyAll(key, db, ops).bookings && ApplyAll(key, db, ops).bookings[b].status == PENDING
    ensures now - ApplyAll(key, db, ops).bookings[b].createdAt <= 20 * MINUTE
  {
    hide ApplyAll, Consistent;
    if start <= now - 5 * MINUTE {
      assert CleansSoonAfter(ops, times, now - 5 * MINUTE);
      var c :| 0 <= c < |ops| && ops[c].OpCleanup? && now - 5 * MINUTE <= times[c];
      PendingAfterCleanup(key, db, ops, times, c);
    } else {
      PendingFromStart(key, db, ops, times, start - 15 * MINUTE);
    }
  }
}
