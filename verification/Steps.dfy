/** Committed changes. `Guard` says in which database a change may be committed, `Effect` what
    it leaves behind. Both the one-call-at-a-time services and the row-lock transactions
    refine these steps, so what holds over every run of them holds of both. */
module Steps {
  import opened Rows

  datatype Label =
    | Created(id: Id, user: Id, slot: SlotKey, now: int)
    | Cancelled(id: Id, release: bool)
    | CleanedUp(ids: set<Id>, keys: set<SlotKey>)
    | Succeeded(event: Id, id: Id, now: int)
    | Failed(event: Id, id: Id)
    | Processing(event: Id, intent: Id)
    | IntentSaved(id: Id, intent: Id)
    | Refunded(id: Id, release: bool)
    | Completed(id: Id)
    | SlotsAdded(rows: map<SlotKey, Slot>)
    | SlotsDeleted(keys: set<SlotKey>)

  /** A release must see no other active booking; keeping a slot booked must see a live one. */
  ghost predicate ReleaseOk(db: Db, k: SlotKey, except: set<Id>, release: bool) {
    if release then !OthersActive(db, k, except)
    else k in db.slots && db.slots[k].isBooked ==> OthersLive(db, k, except)
  }

  ghost predicate Guard(db: Db, l: Label) {
    match l
    case Created(id, user, slot, now) =>
      id !in db.bookings && id !in db.payments && slot in db.slots && !db.slots[slot].isBooked
    case Cancelled(id, release) =>
      id in db.bookings && db.bookings[id].status != CANCELLED &&
      ReleaseOk(db, db.bookings[id].slot, {id}, release)
    case CleanedUp(ids, keys) =>
      (forall b :: b in ids ==> b in db.bookings && db.bookings[b].status == PENDING) &&
      (forall k :: k in SlotsOf(db, ids) ==> ReleaseOk(db, k, ids, k in keys)) &&
      keys <= SlotsOf(db, ids)
    case Succeeded(event, id, now) => event !in db.events && id in db.payments && id in db.bookings
    case Failed(event, id) => event !in db.events && id in db.payments
    case Processing(event, intent) => event !in db.events
    case IntentSaved(id, intent) => id in db.bookings && PaymentsWith(db, intent) <= {id}
    case Refunded(id, release) =>
      id in db.bookings && id in db.payments && ReleaseOk(db, db.bookings[id].slot, {id}, release)
    case Completed(id) => id in db.bookings && Paid(db, id)
    case SlotsAdded(rows) => forall k :: k in rows ==> k !in db.slots && !rows[k].isBooked
    case SlotsDeleted(keys) =>
      (forall k :: k in keys ==> k in db.slots && !db.slots[k].isBooked) &&
      (forall b :: b in db.bookings ==> db.bookings[b].slot !in keys)
  }

  /** A success event: the payment reads PAID, and the booking is confirmed if it was PENDING. */
  function RecordSuccess(db: Db, event: Id, id: Id, now: int, pending: bool): Db {
    var db1 := RecordEvent(db, event);
    var db2 := if id in db.payments
               then db1.(payments := db.payments[id := db.payments[id].(status := PAID, paidAt := Some(now))])
               else db1;
    if pending then SetStatus(db2, {id}, CONFIRMED) else db2
  }

  function Effect(db: Db, l: Label): Db {
    match l
    case Created(id, user, slot, now) =>
      SetBooked(db, {slot}, true).(bookings := db.bookings[id := Booking(user, slot, PENDING, now)])
    case Cancelled(id, release) =>
      var db1 := SetStatus(db, {id}, CANCELLED);
      if release then SetBooked(db1, SlotsOf(db, {id}), false) else db1
    case CleanedUp(ids, keys) => SetBooked(SetStatus(db, ids, CANCELLED), keys, false)
    case Succeeded(event, id, now) =>
      RecordSuccess(db, event, id, now, id in db.bookings && db.bookings[id].status == PENDING)
    case Failed(event, id) => SetPayments(RecordEvent(db, event), {id}, FAILED)
    case Processing(event, intent) =>
      SetPayments(RecordEvent(db, event), PaymentsWith(db, intent), PROCESSING)
    case IntentSaved(id, intent) =>
      db.(payments := db.payments[id :=
        if id in db.payments then db.payments[id].(intent := intent, status := INITIATED)
        else Payment(intent, INITIATED, None)])
    case Refunded(id, release) =>
      var db1 := SetStatus(SetPayments(db, {id}, REFUNDED), {id}, CANCELLED);
      if release then SetBooked(db1, SlotsOf(db, {id}), false) else db1
    case Completed(id) => SetStatus(db, {id}, COMPLETED)
    case SlotsAdded(rows) => db.(slots := db.slots + rows)
    case SlotsDeleted(keys) => db.(slots := db.slots - keys)
  }

  ghost predicate Step(db: Db, l: Label, db': Db) {
    Guard(db, l) && db' == Effect(db, l)
  }

  // ---- What every committed database satisfies ----

  /** Foreign keys, and the unique key on the Stripe intent. */
  ghost predicate References(db: Db) {
    (forall b :: b in db.bookings ==> db.bookings[b].slot in db.slots) &&
    (forall b :: b in db.payments ==> b in db.bookings)
  }

  ghost predicate UniqueIntents(db: Db) {
    forall b, c :: b in db.payments && c in db.payments && b != c ==> db.payments[b].intent != db.payments[c].intent
  }

  ghost predicate Keys(db: Db) {
    References(db) && UniqueIntents(db)
  }

  /** No double booking: at most one PENDING or CONFIRMED booking per slot. */
  ghost predicate NoDoubleBooking(db: Db) {
    forall b, c, k :: ActiveOn(db, b, k) && ActiveOn(db, c, k) ==> b == c
  }

  /** An active booking keeps its slot booked, and a booked slot has a live booking. */
  ghost predicate Sandwich(db: Db) {
    (forall b, k :: ActiveOn(db, b, k) ==> k in db.slots && db.slots[k].isBooked) &&
    (forall k :: k in db.slots && db.slots[k].isBooked ==> OthersLive(db, k, {}))
  }

  /** A booking that was confirmed has a payment with `paidAt` set. */
  ghost predicate PaidIfConfirmed(db: Db) {
    (forall b :: b in db.bookings && (db.bookings[b].status == CONFIRMED || db.bookings[b].status == COMPLETED) ==>
      Paid(db, b)) &&
    (forall b :: b in db.payments && db.payments[b].status == PAID ==> Paid(db, b))
  }

  ghost predicate Consistent(db: Db) {
    Keys(db) && NoDoubleBooking(db) && Sandwich(db) && PaidIfConfirmed(db)
  }

  // ---- Preservation, one invariant at a time ----

  lemma ReferencesKept(db: Db, l: Label)
    requires References(db) && Guard(db, l)
    ensures References(Effect(db, l))
  {
  }

  lemma UniqueIntentsKept(db: Db, l: Label)
    requires UniqueIntents(db) && Guard(db, l)
    ensures UniqueIntents(Effect(db, l))
  {
    if l.IntentSaved? {
      var db' := Effect(db, l);
      forall b, c | b in db'.payments && c in db'.payments && b != c
        ensures db'.payments[b].intent != db'.payments[c].intent
      {
        assert b != l.id ==> b !in PaymentsWith(db, l.intent);
        assert c != l.id ==> c !in PaymentsWith(db, l.intent);
      }
    }
  }

  /** Nothing but `create` makes a booking active. */
  lemma ActiveBefore(db: Db, l: Label, b: Id, k: SlotKey)
    requires Guard(db, l) && ActiveOn(Effect(db, l), b, k)
    ensures ActiveOn(db, b, k) || (l.Created? && b == l.id && k == l.slot)
  {
  }

  lemma NoDoubleBookingKept(db: Db, l: Label)
    requires NoDoubleBooking(db) && Sandwich(db) && Guard(db, l)
    ensures NoDoubleBooking(Effect(db, l))
  {
    var db' := Effect(db, l);
    forall b, c, k | ActiveOn(db', b, k) && ActiveOn(db', c, k)
      ensures b == c
    {
      ActiveBefore(db, l, b, k);
      ActiveBefore(db, l, c, k);
    }
  }

  /** The live bookings of a slot that a step leaves booked. */
  lemma HolderKept(db: Db, l: Label, k: SlotKey)
    requires Sandwich(db) && Guard(db, l)
    requires k in Effect(db, l).slots && Effect(db, l).slots[k].isBooked
    ensures OthersLive(Effect(db, l), k, {})
  {
    var db' := Effect(db, l);
    if l.Created? && k == l.slot {
      assert LiveOn(db', l.id, k);
    } else {
      assert k in db.slots && db.slots[k].isBooked;
      var b :| b !in {} && LiveOn(db, b, k);
      if !LiveOn(db', b, k) {
        // only a cancelling step can end b's claim, and it kept the slot booked for another
        var except: set<Id> := if l.CleanedUp? then l.ids else {l.id};
        assert k in SlotsOf(db, except);
        var c :| c !in except && LiveOn(db, c, k);
        assert LiveOn(db', c, k);
      }
    }
  }

  lemma SandwichKept(db: Db, l: Label)
    requires Keys(db) && Sandwich(db) && Guard(db, l)
    ensures Sandwich(Effect(db, l))
  {
    var db' := Effect(db, l);
    forall b, k | ActiveOn(db', b, k)
      ensures k in db'.slots && db'.slots[k].isBooked
    {
      ActiveBefore(db, l, b, k);
    }
    forall k | k in db'.slots && db'.slots[k].isBooked
      ensures OthersLive(db', k, {})
    {
      HolderKept(db, l, k);
    }
  }

  lemma PaidForever(db: Db, l: Label, b: Id)
    requires Paid(db, b)
    ensures Paid(Effect(db, l), b)
  {
  }

  lemma PaidKept(db: Db, l: Label)
    requires Keys(db) && PaidIfConfirmed(db) && Guard(db, l)
    ensures PaidIfConfirmed(Effect(db, l))
  {
    var db' := Effect(db, l);
    forall b | b in db'.bookings && (db'.bookings[b].status == CONFIRMED || db'.bookings[b].status == COMPLETED)
      ensures Paid(db', b)
    {
      if Paid(db, b) { PaidForever(db, l, b); }
    }
  }

  /** Rows are never deleted, and a booking keeps its slot. */
  lemma RowsStay(db: Db, l: Label)
    ensures forall b :: b in db.payments ==> b in Effect(db, l).payments
    ensures forall b :: b in db.bookings && (l.Created? ==> l.id != b) ==>
              b in Effect(db, l).bookings && Effect(db, l).bookings[b].slot == db.bookings[b].slot
  {
  }

  /** The unique key survives as long as no booking is inserted on a slot that has a row. */
  lemma OnePerSlotKept(db: Db, l: Label)
    requires OnePerSlot(db) && Guard(db, l) && (l.Created? ==> !SlotTaken(db, l.slot))
    ensures OnePerSlot(Effect(db, l))
  {
    RowsStay(db, l);
    forall b | b in Effect(db, l).bookings
      ensures b in db.bookings || (l.Created? && b == l.id)
    {
    }
  }

  lemma ConsistentKept(db: Db, l: Label)
    requires Consistent(db) && Guard(db, l)
    ensures Consistent(Effect(db, l))
  {
    ReferencesKept(db, l);
    UniqueIntentsKept(db, l);
    NoDoubleBookingKept(db, l);
    SandwichKept(db, l);
    PaidKept(db, l);
  }
}
