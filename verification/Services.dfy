/** The services as they run: they update the shared tables in place, row by row. Each method is
    proved against the atomic operation it stands for, so the run theorems apply to it. */
module Services {
  import opened Rows
  import opened Steps
  import opened Runs
  import opened Operations
  import opened Calendar

  class Tables {
    const key: SlotIdKey
    var slots: map<SlotKey, Slot>
    var bookings: map<Id, Booking>
    var payments: map<Id, Payment>
    var events: set<Id>

    function Snapshot(): Db
      reads this
    {
      Db(slots, bookings, payments, events)
    }

    ghost predicate Valid()
      reads this
    {
      Consistent(Snapshot())
    }

    constructor (key: SlotIdKey)
      ensures this.key == key && Valid() && OnePerSlot(Snapshot()) && Fresh(Snapshot()) && slots == map[]
    {
      this.key := key;
      slots, bookings, payments, events := map[], map[], map[], {};
    }

    /** UPDATE bookings SET status WHERE id IN ids. */
    method SetStatuses(ids: set<Id>, st: BookingStatus)
      requires ids <= bookings.Keys
      modifies this`bookings
      ensures Snapshot() == SetStatus(old(Snapshot()), ids, st)
    {
      var todo := ids;
      while todo != {}
        invariant todo <= ids
        invariant Snapshot() == SetStatus(old(Snapshot()), ids - todo, st)
      {
        var b :| b in todo;
        bookings := bookings[b := bookings[b].(status := st)];
        todo := todo - {b};
        assert bookings == SetStatus(old(Snapshot()), ids - todo, st).bookings;
      }
      assert ids - todo == ids;
    }

    /** UPDATE payments SET status WHERE id IN ids. */
    method SetPaymentStatuses(ids: set<Id>, st: PaymentStatus)
      requires ids <= payments.Keys
      modifies this`payments
      ensures Snapshot() == SetPayments(old(Snapshot()), ids, st)
    {
      var todo := ids;
      while todo != {}
        invariant todo <= ids
        invariant Snapshot() == SetPayments(old(Snapshot()), ids - todo, st)
      {
        var b :| b in todo;
        payments := payments[b := payments[b].(status := st)];
        todo := todo - {b};
        assert payments == SetPayments(old(Snapshot()), ids - todo, st).payments;
      }
      assert ids - todo == ids;
    }

    /** UPDATE slots SET isBooked WHERE id IN keys. */
    method SetFlags(keys: set<SlotKey>, booked: bool)
      requires keys <= slots.Keys
      modifies this`slots
      ensures Snapshot() == SetBooked(old(Snapshot()), keys, booked)
    {
      var todo := keys;
      while todo != {}
        invariant todo <= keys
        invariant Snapshot() == SetBooked(old(Snapshot()), keys - todo, booked)
      {
        var k :| k in todo;
        slots := slots[k := slots[k].(isBooked := booked)];
        todo := todo - {k};
        assert slots == SetBooked(old(Snapshot()), keys - todo, booked).slots;
      }
      assert keys - todo == keys;
    }
  }

  function StillPending(db: Db, ids: set<Id>): set<Id> {
    set b | b in ids && b in db.bookings && db.bookings[b].status == PENDING
  }

  /** What is left of the slots when booking id gives up its own: the flag goes, and only it, unless
      another PENDING or CONFIRMED booking is on the slot. */
  ghost predicate SlotLeftBy(before: Db, id: Id, after: map<SlotKey, Slot>)
    requires id in before.bookings && before.bookings[id].slot in before.slots
  {
    var k := before.bookings[id].slot;
    after == if exists b :: b in before.bookings && b != id && before.bookings[b].slot == k &&
                  before.bookings[b].status in {PENDING, CONFIRMED}
             then before.slots else before.slots[k := before.slots[k].(isBooked := false)]
  }

  class BookingService {
    const t: Tables

    constructor (t: Tables)
      ensures this.t == t
    {
      this.t := t;
    }

    /** The transaction of `create`; the coupon and the Redis lock stay outside. */
    method Create(id: Id, user: Id, turf: Id, slot: SlotKey, turfActive: bool, now: int) returns (r: Result)
      requires t.Valid() && id !in t.bookings
      modifies t`slots, t`bookings
      ensures t.Valid()
      ensures (t.Snapshot(), r) == Operations.Create(t.key, old(t.Snapshot()), id, user, turf, slot, turfActive, now)
      ensures r == NotFound <==> slot !in old(t.slots) || slot.turf != turf
      ensures r == BadRequest <==>
              slot in old(t.slots) && slot.turf == turf && (!turfActive || old(t.slots)[slot].isBooked)
      ensures r == Done <==>
              slot in old(t.slots) && slot.turf == turf && turfActive && !old(t.slots)[slot].isBooked &&
              forall b :: b in old(t.bookings) && old(t.bookings)[b].slot == slot ==>
                t.key == NotUnique && (old(t.bookings)[b].user != user || old(t.bookings)[b].status == CANCELLED)
      ensures t.key == Unique && old(OnePerSlot(t.Snapshot())) ==> OnePerSlot(t.Snapshot())
      ensures r == Done ==> t.bookings == old(t.bookings)[id := Booking(user, slot, PENDING, now)]
      ensures r == Done ==> t.slots == old(t.slots)[slot := old(t.slots)[slot].(isBooked := true)]
      ensures r != Done ==> t.Snapshot() == old(t.Snapshot()) && r in {NotFound, BadRequest, Conflict}
    {
      hide Consistent;
      ghost var before := t.Snapshot();
      ApplyOnce(t.key, before, OpCreate(id, user, turf, slot, turfActive, now));
      if slot !in t.slots || slot.turf != turf { return NotFound; }
      if !turfActive { return BadRequest; }
      if t.slots[slot].isBooked { return BadRequest; }
      var existing := set b | b in t.bookings && t.bookings[b].user == user && LiveOn(t.Snapshot(), b, slot);
      if existing != {} {
        var b :| b in existing;
        assert HasLiveBooking(before, user, slot);
        return Conflict;
      }
      assert forall b ::
               b in before.bookings && before.bookings[b].user == user && LiveOn(before, b, slot) ==> b in existing;
      var taken := set b | b in t.bookings && t.bookings[b].slot == slot;
      if t.key == Unique && taken != {} {
        // the INSERT fails, and what the transaction has written is rolled back
        var b :| b in taken;
        assert SlotTaken(before, slot);
        return Conflict;
      }
      assert forall b :: b in before.bookings && before.bookings[b].slot == slot ==> b in taken;
      t.slots := t.slots[slot := t.slots[slot].(isBooked := true)];
      t.bookings := t.bookings[id := Booking(user, slot, PENDING, now)];
      assert t.slots == Effect(before, Created(id, user, slot, now)).slots;
      return Done;
    }

    method Cancel(id: Id, user: Id) returns (r: Result)
      requires t.Valid()
      modifies t`slots, t`bookings
      ensures t.Valid()
      ensures (t.Snapshot(), r) == Operations.Cancel(old(t.Snapshot()), id, user)
      ensures r == Done <==>
              id in old(t.bookings) && old(t.bookings)[id].user == user && old(t.bookings)[id].status != CANCELLED
      ensures r == NotFound <==> id !in old(t.bookings)
      ensures r == Forbidden <==> id in old(t.bookings) && old(t.bookings)[id].user != user
      ensures r == Done ==> t.bookings == old(t.bookings)[id := old(t.bookings)[id].(status := CANCELLED)]
      ensures r == Done ==> SlotLeftBy(old(t.Snapshot()), id, t.slots)
      ensures r != Done ==> t.Snapshot() == old(t.Snapshot()) && r in {NotFound, Forbidden, BadRequest}
    {
      ApplyOnce(t.key, t.Snapshot(), OpCancel(id, user));
      if id !in t.bookings { return NotFound; }
      if t.bookings[id].user != user { return Forbidden; }
      if t.bookings[id].status == CANCELLED { return BadRequest; }
      ghost var before := t.Snapshot();
      var slot := t.bookings[id].slot;
      t.bookings := t.bookings[id := t.bookings[id].(status := CANCELLED)];
      var others := OtherActive(slot, {id});
      SameOthers(before, t.Snapshot(), slot, {id});
      if !others {
        t.slots := t.slots[slot := t.slots[slot].(isBooked := false)];
      }
      CancelRows(before, id);
      return Done;
    }

    /** findMany of the active bookings of a slot outside `except`. */
    method OtherActive(slot: SlotKey, except: set<Id>) returns (found: bool)
      ensures found == OthersActive(t.Snapshot(), slot, except)
    {
      found := false;
      var todo := t.bookings.Keys;
      while todo != {}
        invariant todo <= t.bookings.Keys
        invariant found <==>
                  exists b :: b in t.bookings && b !in todo && b !in except && ActiveOn(t.Snapshot(), b, slot)
      {
        var b :| b in todo;
        if b !in except && ActiveOn(t.Snapshot(), b, slot) { found := true; }
        todo := todo - {b};
      }
    }

    /** Reads the stale candidates, then cancels them in one transaction; answers with the turfs
        whose slot cache to drop. */
    method CleanupStalePendingBookings(now: int) returns (turfs: set<Id>)
      requires t.Valid()
      modifies t`slots, t`bookings
      ensures t.Valid()
      ensures t.Snapshot() == CleanupStale(old(t.Snapshot()), now)
      ensures t.bookings.Keys == old(t.bookings).Keys
      ensures forall b :: b in old(t.bookings) ==>
                t.bookings[b] ==
                  if old(t.bookings)[b].status == PENDING && old(t.bookings)[b].createdAt < now - 15 * 60 * 1000
                  then old(t.bookings)[b].(status := CANCELLED) else old(t.bookings)[b]
      ensures t.slots.Keys == old(t.slots).Keys
      ensures forall k :: k in old(t.slots) ==>
                t.slots[k] ==
                  if exists b :: b in old(t.bookings) && old(t.bookings)[b].slot == k &&
                       old(t.bookings)[b].status == PENDING && old(t.bookings)[b].createdAt < now - 15 * 60 * 1000
                  then old(t.slots)[k].(isBooked := false) else old(t.slots)[k]
      ensures turfs == set b |
                b in old(t.bookings) && old(t.bookings)[b].status == PENDING &&
                old(t.bookings)[b].createdAt < now - 15 * 60 * 1000 :: old(t.bookings)[b].slot.turf
    {
      hide Consistent, CancelBatch, Releasable, OthersActive, Active;
      ghost var before := t.Snapshot();
      CleanupConsistent(before, now);
      CleanupRows(before, now);
      var candidates := set b |
        b in t.bookings && t.bookings[b].status == PENDING && t.bookings[b].createdAt < now - STALE_MS;
      assert candidates == Stale(before, now - STALE_MS);
      assert StillPending(before, candidates) == candidates;
      turfs := CancelCandidates(candidates);
    }

    /** Re-reads the candidates under their locks, cancels those still PENDING and releases the
        slots that nothing else keeps. */
    method CancelCandidates(candidates: set<Id>) returns (turfs: set<Id>)
      requires References(t.Snapshot()) && candidates <= t.bookings.Keys
      modifies t`slots, t`bookings
      ensures var stale := StillPending(old(t.Snapshot()), candidates);
              t.Snapshot() == CancelBatch(old(t.Snapshot()), stale) &&
              turfs == (set k | k in SlotsOf(old(t.Snapshot()), stale) :: k.turf)
      ensures t.bookings == map b | b in old(t.bookings) ::
                if b in candidates && old(t.bookings)[b].status == PENDING
                then old(t.bookings)[b].(status := CANCELLED) else old(t.bookings)[b]
    {
      hide OthersActive, Releasable;
      ghost var before := t.Snapshot();
      var stale := StillPending(t.Snapshot(), candidates);
      if stale == {} {
        EmptyBatch(before);
        return {};
      }
      t.SetStatuses(stale, CANCELLED);
      var slotIds := set b | b in stale :: t.bookings[b].slot;
      assert slotIds == SlotsOf(before, stale);
      var kept := set b |
        b in t.bookings && b !in stale && t.bookings[b].slot in slotIds && Active(t.bookings[b].status)
                  :: t.bookings[b].slot;
      KeptByOthers(before, t.Snapshot(), stale, kept);
      t.SetFlags(slotIds - kept, false);
      turfs := set k | k in slotIds :: k.turf;
    }
  }

  class PaymentService {
    const t: Tables

    constructor (t: Tables)
      ensures this.t == t
    {
      this.t := t;
    }

    method CreatePaymentIntent(id: Id, user: Id, intent: Id) returns (r: Result)
      requires t.Valid()
      modifies t`payments
      ensures t.Valid()
      ensures (t.Snapshot(), r) == SaveIntent(old(t.Snapshot()), id, user, intent)
      ensures r == NotFound <==> id !in t.bookings
      ensures r == BadRequest <==> id in t.bookings && t.bookings[id].user != user
      ensures r == Done <==>
              id in t.bookings && t.bookings[id].user == user &&
              if id in old(t.payments) && old(t.payments)[id].status in {INITIATED, PAID}
              then old(t.payments)[id].status == INITIATED
              else forall b :: b in old(t.payments) && b != id ==> old(t.payments)[b].intent != intent
      ensures r == Done && id in old(t.payments) && old(t.payments)[id].status == INITIATED ==>
                t.payments == old(t.payments)
      ensures r == Done && id in old(t.payments) && old(t.payments)[id].status != INITIATED ==>
                t.payments == old(t.payments)[id := Payment(intent, INITIATED, old(t.payments)[id].paidAt)]
      ensures r == Done && id !in old(t.payments) ==>
                t.payments == old(t.payments)[id := Payment(intent, INITIATED, None)]
      ensures r != Done ==> t.payments == old(t.payments) && r in {NotFound, BadRequest, Conflict}
    {
      ApplyOnce(t.key, t.Snapshot(), OpSaveIntent(id, user, intent));
      if id !in t.bookings { return NotFound; }
      if t.bookings[id].user != user { return BadRequest; }
      if id in t.payments && t.payments[id].status == PAID { return Conflict; }
      if id in t.payments && t.payments[id].status == INITIATED { return Done; }
      var clash := set b | b in t.payments && b != id && t.payments[b].intent == intent;
      assert clash == PaymentsWith(t.Snapshot(), intent) - {id};
      if clash != {} {
        var b :| b in clash;
        return Conflict;
      }
      assert forall b :: b in t.payments && b != id && t.payments[b].intent == intent ==> b in clash;
      if id in t.payments {
        t.payments := t.payments[id := t.payments[id].(intent := intent, status := INITIATED)];
      } else {
        t.payments := t.payments[id := Payment(intent, INITIATED, None)];
      }
      return Done;
    }

    method FindByIntent(intent: Id) returns (p: Option<Id>)
      requires t.Valid()
      ensures p == FindPayment(t.Snapshot(), intent)
      ensures p.Some? ==> p.value in t.payments && t.payments[p.value].intent == intent
      ensures p.None? ==> forall b :: b in t.payments ==> t.payments[b].intent != intent
    {
      var found := set b | b in t.payments && t.payments[b].intent == intent;
      assert found == PaymentsWith(t.Snapshot(), intent);
      if found == {} {
        assert forall b :: b in t.payments && t.payments[b].intent == intent ==> b in found;
        p := None;
      } else {
        var b :| b in found;
        p := Some(b);
      }
    }

    method HandleWebhook(kind: EventKind, event: Id, intent: Id, now: int) returns (r: Result)
      requires t.Valid()
      modifies t`bookings, t`payments, t`events
      ensures t.Valid()
      ensures (t.Snapshot(), r) == Deliver(old(t.Snapshot()), kind, event, intent, now)
      ensures r == Done <==>
              event !in old(t.events) && kind != OtherKind &&
              (kind == PaymentProcessing ||
               exists b :: b in old(t.payments) && old(t.payments)[b].intent == intent &&
                           (kind == PaymentSucceeded ==> old(t.payments)[b].status != PAID))
      ensures r == Done ==> t.events == old(t.events) + {event}
      ensures r == Done ==> t.payments.Keys == old(t.payments).Keys
      ensures r == Done ==> forall b :: b in old(t.payments) ==>
                t.payments[b] ==
                  if old(t.payments)[b].intent != intent then old(t.payments)[b]
                  else if kind == PaymentSucceeded then old(t.payments)[b].(status := PAID, paidAt := Some(now))
                  else old(t.payments)[b].(status := if kind == PaymentFailed then FAILED else PROCESSING)
      ensures r == Done ==> t.bookings.Keys == old(t.bookings).Keys
      ensures r == Done ==> forall b :: b in old(t.bookings) ==>
                t.bookings[b] ==
                  if kind == PaymentSucceeded && old(t.bookings)[b].status == PENDING &&
                     b in old(t.payments) && old(t.payments)[b].intent == intent
                  then old(t.bookings)[b].(status := CONFIRMED) else old(t.bookings)[b]
      ensures r != Done ==> r == Unchanged && t.Snapshot() == old(t.Snapshot())
    {
      hide Consistent, Success, Failure, InProcess;
      match kind
      case PaymentSucceeded => r := HandlePaymentSuccess(event, intent, now);
      case PaymentFailed => r := HandlePaymentFailed(event, intent);
      case PaymentProcessing => r := HandlePaymentProcessing(event, intent);
      case OtherKind => r := Unchanged;
    }

    method HandlePaymentSuccess(event: Id, intent: Id, now: int) returns (r: Result)
      requires t.Valid()
      modifies t`bookings, t`payments, t`events
      ensures t.Valid()
      ensures (t.Snapshot(), r) == Success(old(t.Snapshot()), event, intent, now)
      ensures r == Done <==>
              event !in old(t.events) &&
              exists b :: b in old(t.payments) && old(t.payments)[b].intent == intent &&
                          old(t.payments)[b].status != PAID
      ensures r == Done ==> t.events == old(t.events) + {event}
      ensures r == Done ==> forall b :: b in old(t.payments) && old(t.payments)[b].intent == intent ==>
                t.payments == old(t.payments)[b := old(t.payments)[b].(status := PAID, paidAt := Some(now))] &&
                t.bookings == if old(t.bookings)[b].status == PENDING
                              then old(t.bookings)[b := old(t.bookings)[b].(status := CONFIRMED)]
                              else old(t.bookings)
      ensures t.bookings.Keys == old(t.bookings).Keys && t.payments.Keys == old(t.payments).Keys
      ensures r != Done ==> r == Unchanged && t.Snapshot() == old(t.Snapshot())
    {
      hide NoDoubleBooking, Sandwich, PaidIfConfirmed, PaymentsWith, FindPayment;
      ApplyOnce(t.key, t.Snapshot(), OpSuccess(event, intent, now));
      ghost var before := t.Snapshot();
      var p := FindByIntent(intent);
      if p == None { return Unchanged; }
      var id := p.value;
      if t.payments[id].status == PAID { return Unchanged; }
      if event in t.events { return Unchanged; }
      t.events := t.events + {event};
      t.payments := t.payments[id := t.payments[id].(status := PAID, paidAt := Some(now))];
      if t.bookings[id].status == PENDING {
        t.bookings := t.bookings[id := t.bookings[id].(status := CONFIRMED)];
        assert t.bookings == SetStatus(before, {id}, CONFIRMED).bookings;
      }
      return Done;
    }

    method HandlePaymentFailed(event: Id, intent: Id) returns (r: Result)
      requires t.Valid()
      modifies t`payments, t`events
      ensures t.Valid()
      ensures (t.Snapshot(), r) == Failure(old(t.Snapshot()), event, intent)
      ensures r == Done <==>
              event !in old(t.events) && exists b :: b in old(t.payments) && old(t.payments)[b].intent == intent
      ensures r == Done ==> t.events == old(t.events) + {event}
      ensures r == Done ==> forall b :: b in old(t.payments) && old(t.payments)[b].intent == intent ==>
                t.payments == old(t.payments)[b := old(t.payments)[b].(status := FAILED)]
      ensures r != Done ==> r == Unchanged && t.Snapshot() == old(t.Snapshot())
    {
      ApplyOnce(t.key, t.Snapshot(), OpFailure(event, intent));
      ghost var before := t.Snapshot();
      var p := FindByIntent(intent);
      if p == None { return Unchanged; }
      if event in t.events { return Unchanged; }
      t.events := t.events + {event};
      t.payments := t.payments[p.value := t.payments[p.value].(status := FAILED)];
      assert t.payments == SetPayments(before, {p.value}, FAILED).payments;
      return Done;
    }

    method HandlePaymentProcessing(event: Id, intent: Id) returns (r: Result)
      requires t.Valid()
      modifies t`payments, t`events
      ensures t.Valid()
      ensures (t.Snapshot(), r) == InProcess(old(t.Snapshot()), event, intent)
      ensures r == Done <==> event !in old(t.events)
      ensures r == Done ==> t.events == old(t.events) + {event}
      ensures r == Done ==>
                t.payments == map b | b in old(t.payments) ::
                  if old(t.payments)[b].intent == intent then old(t.payments)[b].(status := PROCESSING)
                  else old(t.payments)[b]
      ensures r != Done ==> r == Unchanged && t.Snapshot() == old(t.Snapshot())
    {
      ApplyOnce(t.key, t.Snapshot(), OpInProcess(event, intent));
      ghost var before := t.Snapshot();
      if event in t.events { return Unchanged; }
      t.events := t.events + {event};
      var matching := set b | b in t.payments && t.payments[b].intent == intent;
      assert matching == PaymentsWith(before, intent);
      t.SetPaymentStatuses(matching, PROCESSING);
      return Done;
    }

    /** The refund with its check for other active bookings and its release as one step. */
    method Refund(id: Id, user: Id, now: int) returns (r: Result)
      requires t.Valid()
      modifies t`slots, t`bookings, t`payments
      ensures t.Valid()
      ensures (t.Snapshot(), r) == Operations.Refund(old(t.Snapshot()), id, user, now)
      ensures r == NotFound <==> id !in old(t.payments)
      ensures r == Forbidden <==> id in old(t.payments) && old(t.bookings)[id].user != user
      ensures r == Done <==>
              id in old(t.payments) && old(t.bookings)[id].user == user &&
              old(t.payments)[id].status == PAID && now < SlotStart(old(t.bookings)[id].slot)
      ensures r == Done ==> t.payments == old(t.payments)[id := old(t.payments)[id].(status := REFUNDED)]
      ensures r == Done ==> t.bookings == old(t.bookings)[id := old(t.bookings)[id].(status := CANCELLED)]
      ensures r == Done ==> SlotLeftBy(old(t.Snapshot()), id, t.slots)
      ensures r != Done ==> t.Snapshot() == old(t.Snapshot()) && r in {NotFound, Forbidden, BadRequest}
    {
      RefundConsistent(t.Snapshot(), id, user, now);
      ghost var before := t.Snapshot();
      if id !in t.payments { return NotFound; }
      if t.bookings[id].user != user { return Forbidden; }
      if t.payments[id].status != PAID { return BadRequest; }
      var slot := t.bookings[id].slot;
      if SlotStart(slot) <= now { return BadRequest; }
      t.payments := t.payments[id := t.payments[id].(status := REFUNDED)];
      t.bookings := t.bookings[id := t.bookings[id].(status := CANCELLED)];
      var active := set b | b in t.bookings && b != id && t.bookings[b].slot == slot && Active(t.bookings[b].status);
      NoneFound(before, t.Snapshot(), slot, id, active);
      if active == {} {
        t.slots := t.slots[slot := t.slots[slot].(isBooked := false)];
      }
      RefundRows(before, id, active == {});
      return Done;
    }
  }

  /** A confirmed booking whose date has begun, and whose slot's end hour has passed on that date. */
  predicate EndedFor(slots: map<SlotKey, Slot>, b: Booking, now: int) {
    b.status == CONFIRMED && b.slot in slots && b.slot.day * MS_PER_DAY <= now &&
    b.slot.day * MS_PER_DAY + slots[b.slot].endHour * MS_PER_HOUR < now
  }

  /** Of the bookings the job has read, those whose computed end has passed. */
  function Due(db: Db, ids: set<Id>, now: int): set<Id> {
    set b | b in ids && b in db.bookings && JobEnd(db.slots, db.bookings[b].slot) < now
  }

  class BookingCompleteJob {
    const t: Tables

    constructor (t: Tables)
      ensures this.t == t
    {
      this.t := t;
    }

    method AutoCompleteBookings(now: int) returns (completedCount: nat)
      requires t.Valid()
      modifies t`bookings
      ensures t.Valid()
      ensures t.Snapshot() == AutoComplete(old(t.Snapshot()), now)
      ensures t.bookings.Keys == old(t.bookings).Keys
      ensures forall b :: b in old(t.bookings) ==>
                t.bookings[b] ==
                  if EndedFor(t.slots, old(t.bookings)[b], now) then old(t.bookings)[b].(status := COMPLETED)
                  else old(t.bookings)[b]
      ensures completedCount == |set b | b in old(t.bookings) && EndedFor(t.slots, old(t.bookings)[b], now)|
    {
      AutoCompleteConsistent(t.Snapshot(), now);
      ghost var before := t.Snapshot();
      var candidates := set b |
        b in t.bookings && t.bookings[b].status == CONFIRMED && t.bookings[b].slot.day * MS_PER_DAY <= now;
      assert Expired(before, now) == Due(before, candidates, now);
      assert Expired(before, now) == set b | b in before.bookings && EndedFor(before.slots, before.bookings[b], now);
      completedCount := CompleteDue(candidates, now);
    }

    /** The job's loop over the bookings it has read. */
    method CompleteDue(candidates: set<Id>, now: int) returns (completedCount: nat)
      requires candidates <= t.bookings.Keys
      modifies t`bookings
      ensures t.Snapshot() == SetStatus(old(t.Snapshot()), Due(old(t.Snapshot()), candidates, now), COMPLETED)
      ensures completedCount == |Due(old(t.Snapshot()), candidates, now)|
    {
      ghost var before := t.Snapshot();
      var todo := candidates;
      ghost var done: set<Id> := {};
      completedCount := 0;
      assert SetStatus(before, done, COMPLETED).bookings == before.bookings;
      while todo != {}
        invariant todo <= candidates && DueSplit(before, candidates, done, todo, now) && completedCount == |done|
        invariant t.bookings == SetStatus(before, done, COMPLETED).bookings
      {
        var b :| b in todo;
        CompletedMore(before, done, b);
        DueStep(before, candidates, done, todo, b, now);
        var over := CompleteIfOver(b, now);
        if over {
          completedCount := completedCount + 1;
          done := done + {b};
        }
        todo := todo - {b};
      }
    }

    method CompleteIfOver(id: Id, now: int) returns (over: bool)
      requires id in t.bookings
      modifies t`bookings
      ensures over == (JobEnd(t.slots, old(t.bookings)[id].slot) < now)
      ensures over ==> t.bookings == old(t.bookings)[id := old(t.bookings)[id].(status := COMPLETED)]
      ensures !over ==> t.bookings == old(t.bookings)
    {
      over := JobEnd(t.slots, t.bookings[id].slot) < now;
      if over {
        t.bookings := t.bookings[id := t.bookings[id].(status := COMPLETED)];
      }
    }

    /** AdminService.completeBooking. */
    method CompleteBooking(id: Id) returns (r: Result)
      requires t.Valid()
      modifies t
      ensures t.Valid()
      ensures (t.Snapshot(), r) == Operations.CompleteBooking(old(t.Snapshot()), id)
      ensures r == NotFound <==> id !in old(t.bookings)
      ensures r == Done <==> id in old(t.bookings) && old(t.bookings)[id].status == CONFIRMED
      ensures r != Done ==> t.Snapshot() == old(t.Snapshot()) && r in {NotFound, BadRequest}
      ensures r == Done ==> t.bookings == old(t.bookings)[id := old(t.bookings)[id].(status := COMPLETED)]
    {
      ApplyOnce(t.key, t.Snapshot(), OpComplete(id));
      if id !in t.bookings { return NotFound; }
      if t.bookings[id].status != CONFIRMED { return BadRequest; }
      ghost var before := t.Snapshot();
      t.bookings := t.bookings[id := t.bookings[id].(status := COMPLETED)];
      assert t.bookings == SetStatus(before, {id}, COMPLETED).bookings;
      return Done;
    }
  }

  // ---- Proof steps ----

  lemma ApplyOnce(key: SlotIdKey, db: Db, op: Op)
    requires Consistent(db)
    ensures Consistent(Apply(key, db, op))
  {
    assert [op][..0] == [];
    assert ApplyAll(key, db, []) == db && ApplyAll(key, db, [op]) == Apply(key, db, op);
    OpsConsistent(key, db, [op]);
  }

  lemma RefundConsistent(db: Db, id: Id, user: Id, now: int)
    requires Consistent(db)
    ensures Consistent(Operations.Refund(db, id, user, now).0)
  {
    ApplyOnce(Unique, db, OpRefund(id, user, now));
  }

  ghost predicate DueSplit(db: Db, all: set<Id>, done: set<Id>, todo: set<Id>, now: int) {
    todo !! done && Due(db, all, now) == done + Due(db, todo, now)
  }

  lemma DueStep(db: Db, all: set<Id>, done: set<Id>, todo: set<Id>, b: Id, now: int)
    requires b in todo && b in db.bookings && DueSplit(db, all, done, todo, now)
    ensures JobEnd(db.slots, db.bookings[b].slot) < now ==> DueSplit(db, all, done + {b}, todo - {b}, now)
    ensures JobEnd(db.slots, db.bookings[b].slot) >= now ==> DueSplit(db, all, done, todo - {b}, now)
    ensures b !in done && |done + {b}| == |done| + 1
  {
  }

  lemma CancelRows(db: Db, id: Id)
    requires Consistent(db) && id in db.bookings
    ensures var k := db.bookings[id].slot; var db' := CancelOne(db, id);
            db'.bookings == db.bookings[id := db.bookings[id].(status := CANCELLED)] &&
            db'.slots == (if OthersActive(db, k, {id}) then db.slots
                          else db.slots[k := db.slots[k].(isBooked := false)]) &&
            db'.payments == db.payments && db'.events == db.events
    ensures Active(db.bookings[id].status) ==> !OthersActive(db, db.bookings[id].slot, {id})
  {
    var k := db.bookings[id].slot;
    assert SlotsOf(db, {id}) == {k};
    if Active(db.bookings[id].status) { assert ActiveOn(db, id, k); }
  }

  lemma AutoCompleteConsistent(db: Db, now: int)
    requires Consistent(db)
    ensures Consistent(AutoComplete(db, now))
  {
    ApplyOnce(Unique, db, OpAutoComplete(now));
  }

  lemma CleanupConsistent(db: Db, now: int)
    requires Consistent(db)
    ensures Consistent(CleanupStale(db, now))
  {
    ApplyOnce(Unique, db, OpCleanup(now));
  }

  /** A batch of PENDING bookings frees every slot it is on: nobody else is active there. */
  lemma BatchRows(db: Db, ids: set<Id>)
    requires NoDoubleBooking(db) && forall b :: b in ids ==> b in db.bookings && db.bookings[b].status == PENDING
    ensures CancelBatch(db, ids).slots.Keys == db.slots.Keys
    ensures forall k :: k in db.slots ==>
              CancelBatch(db, ids).slots[k] ==
                if exists b :: b in ids && db.bookings[b].slot == k
                then db.slots[k].(isBooked := false) else db.slots[k]
  {
    forall k | k in db.slots
      ensures k in Releasable(db, ids) <==> exists b :: b in ids && db.bookings[b].slot == k
    {
      if b :| b in ids && db.bookings[b].slot == k {
        assert ActiveOn(db, b, k);
      }
    }
  }

  lemma CleanupRows(db: Db, now: int)
    requires Consistent(db)
    ensures References(db)
    ensures CleanupStale(db, now) == CancelBatch(db, Stale(db, now - STALE_MS))
    ensures CleanupStale(db, now).slots.Keys == db.slots.Keys
    ensures forall k :: k in db.slots ==>
              CleanupStale(db, now).slots[k] ==
                if exists b :: b in Stale(db, now - STALE_MS) && db.bookings[b].slot == k
                then db.slots[k].(isBooked := false) else db.slots[k]
  {
    hide CancelBatch;
    BatchRows(db, Stale(db, now - STALE_MS));
  }

  lemma RefundRows(db: Db, id: Id, release: bool)
    requires References(db) && id in db.bookings && id in db.payments
    ensures var k := db.bookings[id].slot; var db' := Effect(db, Refunded(id, release));
            db'.payments == db.payments[id := db.payments[id].(status := REFUNDED)] &&
            db'.bookings == db.bookings[id := db.bookings[id].(status := CANCELLED)] &&
            db'.slots == (if release then db.slots[k := db.slots[k].(isBooked := false)] else db.slots) &&
            db'.events == db.events
  {
    assert SlotsOf(db, {id}) == {db.bookings[id].slot};
  }

  lemma CompletedMore(db: Db, done: set<Id>, b: Id)
    requires b in db.bookings && b !in done
    ensures var mid := SetStatus(db, done, COMPLETED);
            mid.bookings[b] == db.bookings[b] &&
            mid.bookings[b := mid.bookings[b].(status := COMPLETED)] == SetStatus(db, done + {b}, COMPLETED).bookings
  {
    var mid := SetStatus(db, done, COMPLETED);
    assert mid.bookings[b := mid.bookings[b].(status := COMPLETED)] == SetStatus(db, done + {b}, COMPLETED).bookings;
  }

  /** Cancelling bookings does not change which bookings outside them are active. */
  lemma SameOthers(db: Db, db': Db, k: SlotKey, ids: set<Id>)
    requires db'.bookings.Keys == db.bookings.Keys
    requires forall b :: b in db.bookings && b !in ids ==> db'.bookings[b] == db.bookings[b]
    ensures OthersActive(db', k, ids) == OthersActive(db, k, ids)
  {
    if OthersActive(db', k, ids) {
      var b :| b in db'.bookings && b !in ids && ActiveOn(db', b, k);
      assert ActiveOn(db, b, k);
    }
    if OthersActive(db, k, ids) {
      var b :| b in db.bookings && b !in ids && ActiveOn(db, b, k);
      assert ActiveOn(db', b, k);
    }
  }

  lemma KeptByOthers(db: Db, db': Db, ids: set<Id>, kept: set<SlotKey>)
    requires db' == SetStatus(db, ids, CANCELLED)
    requires kept == set b | b in db'.bookings && b !in ids && db'.bookings[b].slot in SlotsOf(db, ids)
                          && Active(db'.bookings[b].status) :: db'.bookings[b].slot
    ensures SlotsOf(db, ids) - kept == Releasable(db, ids)
  {
    forall k | k in SlotsOf(db, ids)
      ensures k in kept <==> OthersActive(db, k, ids)
    {
      if k in kept {
        var b :| b in db'.bookings && b !in ids && db'.bookings[b].slot == k && Active(db'.bookings[b].status);
        assert ActiveOn(db, b, k);
      }
    }
  }

  lemma NoneFound(db: Db, db': Db, k: SlotKey, id: Id, found: set<Id>)
    requires db'.bookings.Keys == db.bookings.Keys
    requires forall b :: b in db.bookings && b != id ==> db'.bookings[b] == db.bookings[b]
    requires found == set b |
               b in db'.bookings && b != id && db'.bookings[b].slot == k && Active(db'.bookings[b].status)
    ensures found == {} <==> !OthersActive(db, k, {id})
  {
    if OthersActive(db, k, {id}) {
      var b :| b in db.bookings && b !in {id} && ActiveOn(db, b, k);
      assert b in found;
    }
    if found != {} {
      var b :| b in found;
      assert ActiveOn(db, b, k);
    }
  }
}
