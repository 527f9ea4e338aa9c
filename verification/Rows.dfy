/** The rows that bookings, payments, Stripe webhooks and the cron jobs share. */
module Rows {
  type Id = nat

  datatype Option<+T> = None | Some(value: T)

  datatype BookingStatus = PENDING | CONFIRMED | COMPLETED | CANCELLED
  datatype PaymentStatus = INITIATED | PROCESSING | PAID | FAILED | REFUNDED

  /** The unique key (turfId, date, startTime) of a slot; `day` counts UTC days from 1970-01-01. */
  datatype SlotKey = SlotKey(turf: Id, day: int, hour: nat)
  datatype Slot = Slot(endHour: nat, isBooked: bool)
  datatype Booking = Booking(user: Id, slot: SlotKey, status: BookingStatus, createdAt: int)
  /** A payment row is keyed by its (unique) booking. */
  datatype Payment = Payment(intent: Id, status: PaymentStatus, paidAt: Option<int>)

  datatype Db = Db(
    slots: map<SlotKey, Slot>,
    bookings: map<Id, Booking>,
    payments: map<Id, Payment>,
    events: set<Id>)

  /** Whether `Booking.slotId` carries its unique key, as it does in the schema, or a slot may have
      several booking rows over time, as the services are written for. */
  datatype SlotIdKey = Unique | NotUnique

  /** A booking that occupies its slot: PENDING or CONFIRMED. */
  predicate Active(s: BookingStatus) {
    s == PENDING || s == CONFIRMED
  }

  predicate ActiveOn(db: Db, b: Id, k: SlotKey) {
    b in db.bookings && db.bookings[b].slot == k && Active(db.bookings[b].status)
  }

  predicate LiveOn(db: Db, b: Id, k: SlotKey) {
    b in db.bookings && db.bookings[b].slot == k && db.bookings[b].status != CANCELLED
  }

  /** Some booking row, of whatever status, refers to the slot. */
  predicate SlotTaken(db: Db, k: SlotKey) {
    exists b :: b in db.bookings && db.bookings[b].slot == k
  }

  /** What the unique key on `Booking.slotId` enforces. */
  ghost predicate OnePerSlot(db: Db) {
    forall b, c :: b in db.bookings && c in db.bookings && db.bookings[b].slot == db.bookings[c].slot ==> b == c
  }

  /** The query "other active bookings for this slot" of cancel, cleanup and refund. */
  predicate OthersActive(db: Db, k: SlotKey, except: set<Id>) {
    exists b :: b in db.bookings && b !in except && ActiveOn(db, b, k)
  }

  ghost predicate OthersLive(db: Db, k: SlotKey, except: set<Id>) {
    exists b :: b !in except && LiveOn(db, b, k)
  }

  function SlotsOf(db: Db, ids: set<Id>): (ks: set<SlotKey>) {
    set b | b in ids && b in db.bookings :: db.bookings[b].slot
  }

  function SetStatus(db: Db, ids: set<Id>, st: BookingStatus): Db {
    db.(bookings := map b | b in db.bookings ::
      if b in ids then db.bookings[b].(status := st) else db.bookings[b])
  }

  function SetBooked(db: Db, ks: set<SlotKey>, booked: bool): Db {
    db.(slots := map k | k in db.slots ::
      if k in ks then db.slots[k].(isBooked := booked) else db.slots[k])
  }

  function SetPayments(db: Db, ids: set<Id>, st: PaymentStatus): Db {
    db.(payments := map b | b in db.payments ::
      if b in ids then db.payments[b].(status := st) else db.payments[b])
  }

  function RecordEvent(db: Db, e: Id): Db {
    db.(events := db.events + {e})
  }

  function PaymentsWith(db: Db, intent: Id): (ids: set<Id>) {
    set b | b in db.payments && db.payments[b].intent == intent
  }

  predicate Paid(db: Db, b: Id) {
    b in db.payments && db.payments[b].paidAt.Some?
  }
}
