/** The same calls as PostgreSQL transactions under Read Committed: each one takes its row locks
    one at a time, every read sees the rows committed so far, its own writes appear at commit,
    and any number of transactions interleave. */
module Transactions {
  import opened Rows
  import opened Steps
  import opened Runs
  import opened Operations

  datatype Row = EventRow(e: Id) | BookingRow(b: Id) | PaymentRow(p: Id) | SlotRow(k: SlotKey)

  /** How `refund` is scheduled: as the source writes it, its check for other active bookings
      and its release of the slot are two steps with no slot lock in between. */
  datatype RefundMode = OneStep | AsWritten

  datatype Mode = Mode(refund: RefundMode, key: SlotIdKey)

  /** The program and its schema as they are. */
  const DEPLOYED := Mode(AsWritten, Unique)

  datatype Txn =
    | CreateStart(user: Id, turf: Id, slot: SlotKey, turfActive: bool, now: int)
    | CreateLocked(user: Id, slot: SlotKey, now: int)
    | CreateChecked(user: Id, slot: SlotKey, now: int)
    | CancelStart(id: Id)
    | CancelLocked(id: Id, slot: SlotKey)
    | CancelSlot(id: Id, slot: SlotKey)
    | CancelChecked(id: Id, slot: SlotKey, release: bool)
    | CleanupStart(ids: seq<Id>, stale: set<Id>)
    | CleanupSlots(stale: set<Id>, keys: seq<SlotKey>, held: set<SlotKey>)
    | CleanupChecked(stale: set<Id>, held: set<SlotKey>, free: set<SlotKey>)
    | SuccessStart(event: Id, id: Id, now: int)
    | SuccessEvent(event: Id, id: Id, now: int)
    | SuccessBooking(event: Id, id: Id, now: int, pending: bool)
    | FailedStart(event: Id, id: Id)
    | FailedEvent(event: Id, id: Id)
    | ProcessingStart(event: Id, intent: Id)
    | ProcessingEvent(event: Id, intent: Id)
    | IntentStart(id: Id, intent: Id)
    | RefundStart(id: Id, slot: SlotKey)
    | RefundBooking(id: Id, slot: SlotKey)
    | RefundPayment(id: Id, slot: SlotKey)
    | RefundChecked(id: Id, slot: SlotKey, release: bool)
    | CompleteStart(id: Id)

  datatype Sys = Sys(db: Db, txns: map<Id, Txn>)

  /** What a step may choose: the UUID of a new booking, the order in which slots get locked. */
  datatype Choice = Choice(newId: Id, order: seq<SlotKey>)

  datatype Action =
    | Begin(tid: Id, txn: Txn)
    | Advance(tid: Id, choice: Choice)
    | Abort(tid: Id)
    | AddSlotRows(rows: map<SlotKey, Slot>)
    | DeleteSlotRows(keys: set<SlotKey>)

  /** The row locks a transaction holds. */
  function Held(t: Txn): set<Row> {
    match t
    case CreateLocked(_, k, _) => {SlotRow(k)}
    case CreateChecked(_, k, _) => {SlotRow(k)}
    case CancelLocked(id, _) => {BookingRow(id)}
    case CancelSlot(id, k) => {BookingRow(id), SlotRow(k)}
    case CancelChecked(id, k, _) => {BookingRow(id), SlotRow(k)}
    case CleanupStart(_, stale) => set b | b in stale :: BookingRow(b)
    case CleanupSlots(stale, _, held) => (set b | b in stale :: BookingRow(b)) + (set k | k in held :: SlotRow(k))
    case CleanupChecked(stale, held, _) => (set b | b in stale :: BookingRow(b)) + (set k | k in held :: SlotRow(k))
    case SuccessEvent(e, _, _) => {EventRow(e)}
    case SuccessBooking(e, id, _, _) => {EventRow(e), BookingRow(id)}
    case FailedEvent(e, _) => {EventRow(e)}
    case ProcessingEvent(e, _) => {EventRow(e)}
    case RefundBooking(id, _) => {BookingRow(id)}
    case RefundPayment(id, _) => {BookingRow(id), PaymentRow(id)}
    case RefundChecked(id, _, _) => {BookingRow(id), PaymentRow(id)}
    case _ => {}
  }

  /** The rows a transaction must lock for its next step (at most one). */
  function Needs(m: Mode, db: Db, t: Txn): set<Row> {
    match t
    case CreateStart(_, _, k, _, _) => {SlotRow(k)}
    case CancelStart(id) => {BookingRow(id)}
    case CancelLocked(_, k) => {SlotRow(k)}
    case CleanupStart(ids, _) =>
      if ids != [] && ids[0] in db.bookings && db.bookings[ids[0]].status == PENDING then {BookingRow(ids[0])} else {}
    case CleanupSlots(_, keys, _) => if keys != [] then {SlotRow(keys[0])} else {}
    case SuccessStart(e, _, _) => {EventRow(e)}
    case SuccessEvent(_, id, _) => {BookingRow(id)}
    case SuccessBooking(_, id, _, _) => {PaymentRow(id)}
    case FailedStart(e, _) => {EventRow(e)}
    case FailedEvent(_, id) => {PaymentRow(id)}
    case ProcessingStart(e, _) => {EventRow(e)}
    case ProcessingEvent(_, intent) => set b | b in PaymentsWith(db, intent) :: PaymentRow(b)
    case IntentStart(id, _) => {PaymentRow(id)}
    case RefundStart(id, _) => {BookingRow(id)}
    case RefundBooking(id, _) => {PaymentRow(id)}
    case RefundPayment(id, k) => if m.refund == OneStep && !OthersActive(db, k, {id}) then {SlotRow(k)} else {}
    case RefundChecked(_, k, release) => if release then {SlotRow(k)} else {}
    case CompleteStart(id) => {BookingRow(id)}
    case _ => {}
  }

  /** The next state of a transaction that does not commit yet; None when it rolls back. */
  function Next(m: Mode, db: Db, t: Txn, c: Choice): Option<Txn> {
    match t
    case CreateStart(user, turf, k, turfActive, now) =>
      if k !in db.slots || k.turf != turf || !turfActive || db.slots[k].isBooked then None
      else Some(CreateLocked(user, k, now))
    case CreateLocked(user, k, now) =>
      if HasLiveBooking(db, user, k) then None else Some(CreateChecked(user, k, now))
    case CancelStart(id) =>
      if id !in db.bookings || db.bookings[id].status == CANCELLED then None
      else Some(CancelLocked(id, db.bookings[id].slot))
    case CancelLocked(id, k) => Some(CancelSlot(id, k))
    case CancelSlot(id, k) => Some(CancelChecked(id, k, !OthersActive(db, k, {id})))
    case CleanupStart(ids, stale) =>
      if ids == [] then
        if stale == {} then None else Some(CleanupSlots(stale, c.order, {}))
      else if ids[0] in db.bookings && db.bookings[ids[0]].status == PENDING then
        Some(CleanupStart(ids[1..], stale + {ids[0]}))
      else Some(CleanupStart(ids[1..], stale))
    case CleanupSlots(stale, keys, held) =>
      if keys == [] then Some(CleanupChecked(stale, held, Releasable(db, stale)))
      else Some(CleanupSlots(stale, keys[1..], held + {keys[0]}))
    case SuccessStart(e, id, now) => if e in db.events then None else Some(SuccessEvent(e, id, now))
    case SuccessEvent(e, id, now) =>
      if id !in db.bookings then None
      else Some(SuccessBooking(e, id, now, db.bookings[id].status == PENDING))
    case FailedStart(e, id) => if e in db.events then None else Some(FailedEvent(e, id))
    case ProcessingStart(e, intent) => if e in db.events then None else Some(ProcessingEvent(e, intent))
    case RefundStart(id, k) => Some(RefundBooking(id, k))
    case RefundBooking(id, k) => Some(RefundPayment(id, k))
    case RefundPayment(id, k) => Some(RefundChecked(id, k, !OthersActive(db, k, {id})))
    case _ => None
  }

  /** The change a transaction commits in this step, if it commits. */
  function Commits(m: Mode, db: Db, t: Txn, c: Choice): Option<Label> {
    match t
    // the unique key on the slot makes the INSERT fail on a row of any status
    case CreateChecked(user, k, now) =>
      if m.key == Unique && SlotTaken(db, k) then None else Some(Created(c.newId, user, k, now))
    case CancelChecked(id, _, release) => Some(Cancelled(id, release))
    case CleanupChecked(stale, _, free) => Some(CleanedUp(stale, free))
    case SuccessBooking(e, id, now, _) => Some(Succeeded(e, id, now))
    case FailedEvent(e, id) => Some(Failed(e, id))
    case ProcessingEvent(e, intent) => Some(Processing(e, intent))
    // the unique key on the intent makes a clashing upsert fail
    case IntentStart(id, intent) => if PaymentsWith(db, intent) <= {id} then Some(IntentSaved(id, intent)) else None
    case RefundPayment(id, k) => if m.refund == OneStep then Some(Refunded(id, !OthersActive(db, k, {id}))) else None
    case RefundChecked(id, _, release) => Some(Refunded(id, release))
    case CompleteStart(id) => Some(Completed(id))
    case _ => None
  }

  /** The committed database. The webhook writes what it read under the lock. */
  function Commit(db: Db, t: Txn, l: Label): Db {
    match t
    case SuccessBooking(e, id, now, pending) => RecordSuccess(db, e, id, now, pending)
    case _ => Effect(db, l)
  }

  function Run1(m: Mode, s: Sys, tid: Id, c: Choice): Sys
    requires tid in s.txns
  {
    var t := s.txns[tid];
    match Commits(m, s.db, t, c)
    case Some(l) => Sys(Commit(s.db, t, l), s.txns - {tid})
    case None =>
      match Next(m, s.db, t, c)
      case Some(t') => s.(txns := s.txns[tid := t'])
      case None => s.(txns := s.txns - {tid})
  }

  function Do(m: Mode, s: Sys, a: Action): Sys {
    match a
    case Begin(tid, t) => s.(txns := s.txns[tid := t])
    case Advance(tid, c) => if tid in s.txns then Run1(m, s, tid, c) else s
    case Abort(tid) => s.(txns := s.txns - {tid})
    case AddSlotRows(rows) => s.(db := Effect(s.db, SlotsAdded(rows)))
    case DeleteSlotRows(keys) => s.(db := Effect(s.db, SlotsDeleted(keys)))
  }

  /** The unlocked read that each call makes before it opens its transaction. */
  ghost predicate BeginOk(db: Db, t: Txn) {
    match t
    case CreateStart(_, _, _, _, _) => true
    case CancelStart(id) => id in db.bookings && db.bookings[id].status != CANCELLED
    case CleanupStart(ids, stale) =>
      stale == {} && exists cutoff :: Elems(ids) == Stale(db, cutoff)
    case SuccessStart(_, id, _) => id in db.payments && !PaidNow(db, id)
    case FailedStart(_, id) => id in db.payments
    case ProcessingStart(_, _) => true
    case IntentStart(id, _) => id in db.bookings && !PaidNow(db, id)
    case RefundStart(id, k) => PaidNow(db, id) && id in db.bookings && db.bookings[id].slot == k
    case CompleteStart(id) => id in db.bookings && db.bookings[id].status == CONFIRMED
    case _ => false
  }

  predicate Unlocked(s: Sys, rows: set<Row>, except: set<Id>) {
    forall u :: u in s.txns && u !in except ==> Held(s.txns[u]) !! rows
  }

  predicate ChoiceOk(db: Db, t: Txn, c: Choice) {
    c.newId !in db.bookings && c.newId !in db.payments &&
    (t.CleanupStart? ==> (set k | k in c.order) == SlotsOf(db, t.stale))
  }

  /** A transaction can take its next step: nobody else holds the row it needs. */
  predicate CanAdvance(m: Mode, s: Sys, tid: Id, c: Choice) {
    tid in s.txns && ChoiceOk(s.db, s.txns[tid], c) && Unlocked(s, Needs(m, s.db, s.txns[tid]), {tid})
  }

  ghost predicate Can(m: Mode, s: Sys, a: Action) {
    match a
    case Begin(tid, t) => tid !in s.txns && BeginOk(s.db, t)
    case Advance(tid, c) => CanAdvance(m, s, tid, c)
    case Abort(tid) => tid in s.txns
    case AddSlotRows(rows) => Guard(s.db, SlotsAdded(rows))
    case DeleteSlotRows(keys) =>
      Guard(s.db, SlotsDeleted(keys)) && Unlocked(s, set k | k in keys :: SlotRow(k), {})
  }

  ghost function DoAll(m: Mode, s: Sys, acts: seq<Action>): Sys {
    if acts == [] then s else Do(m, DoAll(m, s, acts[..|acts| - 1]), acts[|acts| - 1])
  }

  ghost predicate CanAll(m: Mode, s: Sys, acts: seq<Action>) {
    acts == [] ||
    (CanAll(m, s, acts[..|acts| - 1]) && Can(m, DoAll(m, s, acts[..|acts| - 1]), acts[|acts| - 1]))
  }

  lemma ExtendRun(m: Mode, s: Sys, acts: seq<Action>, a: Action)
    requires CanAll(m, s, acts) && Can(m, DoAll(m, s, acts), a)
    ensures CanAll(m, s, acts + [a]) && DoAll(m, s, acts + [a]) == Do(m, DoAll(m, s, acts), a)
  {
    assert (acts + [a])[..|acts|] == acts;
  }

  ghost predicate Reaches(m: Mode, s: Sys, s': Sys) {
    exists acts :: CanAll(m, s, acts) && DoAll(m, s, acts) == s'
  }

  lemma Reached(m: Mode, s: Sys)
    ensures Reaches(m, s, s)
  {
    assert CanAll(m, s, []) && DoAll(m, s, []) == s;
  }

  lemma ReachStep(m: Mode, s: Sys, s': Sys, a: Action)
    requires Reaches(m, s, s') && Can(m, s', a)
    ensures Reaches(m, s, Do(m, s', a))
  {
    var acts :| CanAll(m, s, acts) && DoAll(m, s, acts) == s';
    ExtendRun(m, s, acts, a);
  }

  // ---- What a transaction knows about the committed rows it has locked ----

  ghost predicate BookingIs(db: Db, id: Id, k: SlotKey) {
    id in db.bookings && db.bookings[id].slot == k
  }

  ghost predicate AllPending(db: Db, ids: set<Id>) {
    forall b :: b in ids ==> b in db.bookings && db.bookings[b].status == PENDING
  }

  ghost predicate Knows(db: Db, t: Txn) {
    match t
    case CreateLocked(_, k, _) => k in db.slots && !db.slots[k].isBooked
    case CreateChecked(_, k, _) => k in db.slots && !db.slots[k].isBooked
    case CancelLocked(id, k) => BookingIs(db, id, k) && db.bookings[id].status != CANCELLED
    case CancelSlot(id, k) => BookingIs(db, id, k) && db.bookings[id].status != CANCELLED
    case CancelChecked(id, k, release) =>
      BookingIs(db, id, k) && db.bookings[id].status != CANCELLED &&
      (release ==> !OthersActive(db, k, {id}))
    case CleanupStart(_, stale) => AllPending(db, stale)
    case CleanupSlots(stale, keys, held) =>
      AllPending(db, stale) && (set k | k in keys) + held == SlotsOf(db, stale)
    case CleanupChecked(stale, held, free) =>
      AllPending(db, stale) && held == SlotsOf(db, stale) && free == held
    case SuccessStart(_, id, _) => id in db.payments
    case SuccessEvent(e, id, _) => id in db.payments && e !in db.events
    case SuccessBooking(e, id, _, pending) =>
      id in db.payments && e !in db.events && id in db.bookings && pending == (db.bookings[id].status == PENDING)
    case FailedStart(_, id) => id in db.payments
    case FailedEvent(e, id) => id in db.payments && e !in db.events
    case ProcessingEvent(e, _) => e !in db.events
    case IntentStart(id, _) => id in db.bookings
    case RefundStart(id, k) => id in db.payments && BookingIs(db, id, k)
    case RefundBooking(id, k) => id in db.payments && BookingIs(db, id, k)
    case RefundPayment(id, k) => id in db.payments && BookingIs(db, id, k)
    case RefundChecked(id, k, _) => id in db.payments && BookingIs(db, id, k)
    case CompleteStart(id) => id in db.bookings && Paid(db, id)
    case _ => true
  }

  ghost predicate Exclusive(s: Sys) {
    forall t, u :: t in s.txns && u in s.txns && t != u ==> Held(s.txns[t]) !! Held(s.txns[u])
  }

  /** A refund in flight that will cancel `e` and leave the slot's flag as it is. */
  predicate KeepsFlag(t: Txn, e: Id) {
    t.RefundChecked? && t.id == e && !t.release
  }

  /** `e` is who a slot is booked for: it is live, nobody else is active on the slot, and no refund
      is about to cancel it without releasing the slot. */
  ghost predicate Holds(s: Sys, e: Id, k: SlotKey) {
    LiveOn(s.db, e, k) && (forall f :: ActiveOn(s.db, f, k) ==> f == e) &&
    (forall u :: u in s.txns ==> !KeepsFlag(s.txns[u], e))
  }

  ghost predicate HasHolder(s: Sys, k: SlotKey, except: set<Id>) {
    exists e :: e !in except && Holds(s, e, k)
  }

  /** Every booked slot has a holder, and a cancellation that is about to keep the slot booked
      leaves one behind. */
  ghost predicate Anchored(s: Sys) {
    (forall k :: k in s.db.slots && s.db.slots[k].isBooked ==> HasHolder(s, k, {})) &&
    (forall t :: t in s.txns && s.txns[t].CancelChecked? && !s.txns[t].release ==>
       HasHolder(s, s.txns[t].slot, {s.txns[t].id}))
  }

  ghost predicate Inv(m: Mode, s: Sys) {
    Consistent(s.db) && Exclusive(s) && Anchored(s) &&
    forall t :: t in s.txns ==> Knows(s.db, s.txns[t]) && (m.refund == OneStep ==> !s.txns[t].RefundChecked?)
  }

  /** A refund is about to release a slot that was booked anew since its check. */
  ghost predicate Tramples(s: Sys, a: Action) {
    a.Advance? && a.tid in s.txns && s.txns[a.tid].RefundChecked? && s.txns[a.tid].release &&
    OthersActive(s.db, s.txns[a.tid].slot, {s.txns[a.tid].id})
  }

  /** No step of the run tramples; with the refund as one step none can. */
  ghost predicate Calm(m: Mode, s: Sys, acts: seq<Action>) {
    m.refund == OneStep || acts == [] ||
    (Calm(m, s, acts[..|acts| - 1]) && !Tramples(DoAll(m, s, acts[..|acts| - 1]), acts[|acts| - 1]))
  }

  // ---- What holds in every run ----

  lemma HeldAfter(m: Mode, s: Sys, a: Action, u: Id)
    requires Can(m, s, a) && u in Do(m, s, a).txns
    ensures u in s.txns && (a.Advance? ==> u != a.tid) ==> Held(Do(m, s, a).txns[u]) == Held(s.txns[u])
    ensures u !in s.txns ==> a.Begin? && Held(Do(m, s, a).txns[u]) == {}
    ensures u in s.txns && a.Advance? && u == a.tid ==>
              Held(Do(m, s, a).txns[u]) <= Held(s.txns[u]) + Needs(m, s.db, s.txns[u])
  {
    hide Held, Needs, Next, Commits, Commit, Effect, BeginOk;
    if a.Begin? && u == a.tid {
      BeginHolds(s.db, a.txn);
    } else if a.Advance? && u == a.tid {
      HeldGrows(m, s.db, s.txns[u], a.choice);
    }
  }

  /** No row is locked twice. */
  lemma StepExclusive(m: Mode, s: Sys, a: Action)
    requires Exclusive(s) && Can(m, s, a)
    ensures Exclusive(Do(m, s, a))
  {
    hide Held, Needs, Next, Commits, Commit, Effect, BeginOk, Guard;
    var s' := Do(m, s, a);
    forall t, u | t in s'.txns && u in s'.txns && t != u
      ensures Held(s'.txns[t]) !! Held(s'.txns[u])
    {
      HeldAfter(m, s, a, t);
      HeldAfter(m, s, a, u);
    }
  }

  /** What a transaction can rely on in every run at all: the booking rows it has locked are still
      as it read them, and rows do not disappear. */
  ghost predicate Pins(db: Db, t: Txn) {
    match t
    case CleanupStart(_, stale) => AllPending(db, stale)
    case CleanupSlots(stale, _, _) => AllPending(db, stale)
    case CleanupChecked(stale, _, free) => AllPending(db, stale) && free <= SlotsOf(db, stale)
    case SuccessStart(_, id, _) => id in db.payments
    case SuccessEvent(_, id, _) => id in db.payments
    case SuccessBooking(_, id, _, pending) =>
      id in db.payments && id in db.bookings && pending == (db.bookings[id].status == PENDING)
    case CompleteStart(id) => id in db.bookings
    case _ => true
  }

  ghost predicate Pinned(s: Sys) {
    Exclusive(s) && forall t :: t in s.txns ==> Pins(s.db, s.txns[t])
  }

  lemma NextPins(m: Mode, db: Db, t: Txn, c: Choice)
    requires Pins(db, t) && Commits(m, db, t, c).None? && Next(m, db, t, c).Some?
    ensures Pins(db, Next(m, db, t, c).value)
  {
  }

  /** A commit leaves alone every booking row its transaction has not locked, and removes none. */
  lemma CommitSpares(m: Mode, db: Db, t: Txn, c: Choice, b: Id)
    requires ChoiceOk(db, t, c) && Commits(m, db, t, c).Some?
    ensures var db' := Commit(db, t, Commits(m, db, t, c).value);
            (b in db.bookings ==> b in db'.bookings) && (b in db.payments ==> b in db'.payments) &&
            (b in db.bookings && BookingRow(b) !in Held(t) + Needs(m, db, t) ==> db'.bookings[b] == db.bookings[b])
  {
    hide OthersActive;
  }

  lemma PinsKept(m: Mode, db: Db, t: Txn, c: Choice, u: Txn)
    requires ChoiceOk(db, t, c) && Commits(m, db, t, c).Some?
    requires Pins(db, u) && (Held(t) + Needs(m, db, t)) !! Held(u)
    ensures Pins(Commit(db, t, Commits(m, db, t, c).value), u)
  {
    hide Commit, Commits, Needs, ChoiceOk;
    var db' := Commit(db, t, Commits(m, db, t, c).value);
    forall b | b in db.bookings && BookingRow(b) in Held(u)
      ensures b in db'.bookings && db'.bookings[b] == db.bookings[b]
    {
      CommitSpares(m, db, t, c, b);
    }
    if u.SuccessStart? || u.SuccessEvent? || u.SuccessBooking? || u.CompleteStart? {
      CommitSpares(m, db, t, c, u.id);
    }
    if u.CleanupStart? || u.CleanupSlots? || u.CleanupChecked? {
      assert forall b :: b in u.stale ==> BookingRow(b) in Held(u);
    }
  }

  lemma StepPinned(m: Mode, s: Sys, a: Action)
    requires Pinned(s) && Can(m, s, a)
    ensures Pinned(Do(m, s, a))
  {
    hide Held, Needs, Next, Commits, Commit, Guard, Pins, ChoiceOk;
    StepExclusive(m, s, a);
    var s' := Do(m, s, a);
    forall u | u in s'.txns
      ensures Pins(s'.db, s'.txns[u])
    {
      if a.Begin? && u == a.tid {
        BeginPins(s.db, a.txn);
      } else if a.Advance? && u == a.tid {
        NextPins(m, s.db, s.txns[u], a.choice);
      } else if a.Advance? {
        if Commits(m, s.db, s.txns[a.tid], a.choice).Some? {
          PinsKept(m, s.db, s.txns[a.tid], a.choice, s.txns[u]);
        }
      } else if a.AddSlotRows? || a.DeleteSlotRows? {
        SlotRowsPin(s.db, s'.db, s.txns[u]);
      }
    }
  }

  lemma BeginPins(db: Db, t: Txn)
    requires BeginOk(db, t)
    ensures Pins(db, t)
  {
  }

  lemma SlotRowsPin(db: Db, db': Db, t: Txn)
    requires Pins(db, t) && db'.bookings == db.bookings && db'.payments == db.payments
    ensures Pins(db', t)
  {
  }

  lemma {:induction false} RunPinned(m: Mode, db: Db, acts: seq<Action>)
    requires CanAll(m, Sys(db, map[]), acts)
    ensures Pinned(DoAll(m, Sys(db, map[]), acts))
  {
    hide Can, Do, Pinned;
    if acts == [] {
      NothingPinned(db);
    } else {
      var init := acts[..|acts| - 1];
      RunPinned(m, db, init);
      StepPinned(m, DoAll(m, Sys(db, map[]), init), acts[|acts| - 1]);
    }
  }

  lemma NothingPinned(db: Db)
    ensures Pinned(Sys(db, map[]))
  {
  }

  /** The change a step commits. */
  ghost function StepLabel(m: Mode, s: Sys, a: Action): Option<Label> {
    match a
    case Advance(tid, c) => if tid in s.txns then Commits(m, s.db, s.txns[tid], c) else None
    case AddSlotRows(rows) => Some(SlotsAdded(rows))
    case DeleteSlotRows(keys) => Some(SlotsDeleted(keys))
    case _ => None
  }

  /** The changes a run commits, in order. */
  ghost function Log(m: Mode, s: Sys, acts: seq<Action>): seq<Label> {
    if acts == [] then []
    else
      var init := acts[..|acts| - 1];
      Log(m, s, init) +
      match StepLabel(m, DoAll(m, s, init), acts[|acts| - 1]) case Some(l) => [l] case None => []
  }

  /** A run from s to s' that commits exactly `ls`. */
  ghost predicate Logged(m: Mode, s: Sys, s': Sys, ls: seq<Label>) {
    exists acts :: CanAll(m, s, acts) && DoAll(m, s, acts) == s' && Log(m, s, acts) == ls
  }

  lemma NothingLogged(m: Mode, s: Sys)
    ensures Logged(m, s, s, [])
  {
    assert CanAll(m, s, []) && DoAll(m, s, []) == s && Log(m, s, []) == [];
  }

  lemma LogStep(m: Mode, s: Sys, s': Sys, ls: seq<Label>, a: Action)
    requires Logged(m, s, s', ls) && Can(m, s', a)
    ensures Logged(m, s, Do(m, s', a), match StepLabel(m, s', a) case Some(l) => ls + [l] case None => ls)
  {
    hide Can, Do, StepLabel;
    var acts :| CanAll(m, s, acts) && DoAll(m, s, acts) == s' && Log(m, s, acts) == ls;
    ExtendRun(m, s, acts, a);
    assert (acts + [a])[..|acts + [a]| - 1] == acts;
    var l := StepLabel(m, s', a);
    assert Log(m, s, acts + [a]) == ls + match l case Some(x) => [x] case None => [];
    assert ls + [] == ls;
  }

  lemma LoggedIsReached(m: Mode, s: Sys, s': Sys, ls: seq<Label>)
    requires Logged(m, s, s', ls)
    ensures Reaches(m, s, s')
  {
    var acts :| CanAll(m, s, acts) && DoAll(m, s, acts) == s' && Log(m, s, acts) == ls;
  }

  lemma CommitIsEffect(m: Mode, db: Db, t: Txn, c: Choice)
    requires Pins(db, t) && Commits(m, db, t, c).Some?
    ensures Commit(db, t, Commits(m, db, t, c).value) == Effect(db, Commits(m, db, t, c).value)
  {
  }

  lemma StepIsEffect(m: Mode, s: Sys, a: Action)
    requires Pinned(s) && Can(m, s, a)
    ensures Do(m, s, a).db == match StepLabel(m, s, a) case Some(l) => Effect(s.db, l) case None => s.db
  {
    hide Exclusive, Pins, Commits, Commit, Next, Effect, Guard;
    if a.Advance? && StepLabel(m, s, a).Some? { CommitIsEffect(m, s.db, s.txns[a.tid], a.choice); }
  }

  /** In every interleaving at all, the database is what the committed changes, in commit order,
      make of the first one. */
  lemma {:induction false} LogReaches(m: Mode, db: Db, acts: seq<Action>)
    requires CanAll(m, Sys(db, map[]), acts)
    ensures After(db, Log(m, Sys(db, map[]), acts)) == DoAll(m, Sys(db, map[]), acts).db
  {
    hide Can, Do, Pinned, StepLabel, Effect;
    if acts == [] {
    } else {
      var s, init, a := Sys(db, map[]), acts[..|acts| - 1], acts[|acts| - 1];
      LogReaches(m, db, init);
      RunPinned(m, db, init);
      StepIsEffect(m, DoAll(m, s, init), a);
      var ls, all := Log(m, s, init), Log(m, s, acts);
      if StepLabel(m, DoAll(m, s, init), a).Some? { assert all[..|all| - 1] == ls; } else { assert all == ls; }
    }
  }

  // ---- One transaction on its own ----

  /** The rows a committed change writes. */
  function Writes(db: Db, l: Label): set<Row> {
    match l
    case Created(_, _, k, _) => {SlotRow(k)}
    case Cancelled(id, _) => {BookingRow(id)} + set k | k in SlotsOf(db, {id}) :: SlotRow(k)
    case CleanedUp(ids, _) => (set b | b in ids :: BookingRow(b)) + (set k | k in SlotsOf(db, ids) :: SlotRow(k))
    case Succeeded(e, id, _) => {EventRow(e), BookingRow(id), PaymentRow(id)}
    case Failed(e, id) => {EventRow(e), PaymentRow(id)}
    case Processing(e, intent) => {EventRow(e)} + set b | b in PaymentsWith(db, intent) :: PaymentRow(b)
    case IntentSaved(id, _) => {PaymentRow(id)}
    case Refunded(id, release) =>
      {BookingRow(id), PaymentRow(id)} + set k | k in SlotsOf(db, {id}) && release :: SlotRow(k)
    case Completed(id) => {BookingRow(id)}
    case SlotsAdded(_) => {}
    case SlotsDeleted(keys) => set k | k in keys :: SlotRow(k)
  }

  /** A step adds at most the lock it asked for. */
  lemma HeldGrows(m: Mode, db: Db, t: Txn, c: Choice)
    requires Next(m, db, t, c).Some?
    ensures Held(Next(m, db, t, c).value) <= Held(t) + Needs(m, db, t)
  {
  }

  lemma BeginHolds(db: Db, t: Txn)
    requires BeginOk(db, t)
    ensures Held(t) == {}
  {
  }

  lemma BeginKnows(db: Db, t: Txn)
    requires Consistent(db) && BeginOk(db, t)
    ensures Knows(db, t) && Held(t) == {} && !t.RefundChecked?
  {
  }

  /** Every slot of a batch of PENDING bookings can be released: they are alone on it. */
  lemma PendingBatchReleasesAll(db: Db, ids: set<Id>)
    requires NoDoubleBooking(db) && AllPending(db, ids)
    ensures Releasable(db, ids) == SlotsOf(db, ids)
  {
    forall k | k in SlotsOf(db, ids)
      ensures !OthersActive(db, k, ids)
    {
      var b :| b in ids && b in db.bookings && db.bookings[b].slot == k;
      assert ActiveOn(db, b, k);
    }
  }

  lemma NextKnows(m: Mode, db: Db, t: Txn, c: Choice)
    requires Consistent(db) && Knows(db, t) && ChoiceOk(db, t, c)
    requires Commits(m, db, t, c).None? && Next(m, db, t, c).Some?
    ensures Knows(db, Next(m, db, t, c).value)
    ensures m.refund == OneStep ==> !Next(m, db, t, c).value.RefundChecked?
  {
    match t
    case CleanupSlots(stale, keys, held) =>
      if keys == [] { PendingBatchReleasesAll(db, stale); }
    case _ =>
  }

  lemma PlainCommitGuard(m: Mode, db: Db, t: Txn, c: Choice)
    requires Consistent(db) && Knows(db, t) && ChoiceOk(db, t, c)
    requires Commits(m, db, t, c).Some? && !t.CancelChecked? && !t.RefundChecked?
    ensures Guard(db, Commits(m, db, t, c).value)
  {
    match t
    case CleanupChecked(stale, held, free) =>
      PendingBatchReleasesAll(db, stale);
      CleanupGuard(db, stale);
    case RefundPayment(id, k) => ReleaseGuard(db, id);
    case _ =>
  }

  /** A commit writes only rows its transaction has locked, and what the webhook read under its lock
      still holds, so it writes what the step prescribes. */
  lemma CommitLocks(m: Mode, db: Db, t: Txn, c: Choice)
    requires Knows(db, t) && Commits(m, db, t, c).Some?
    ensures var l := Commits(m, db, t, c).value;
            Commit(db, t, l) == Effect(db, l) && Writes(db, l) <= Held(t) + Needs(m, db, t)
  {
  }

  lemma HolderIsLive(s: Sys, k: SlotKey, except: set<Id>)
    requires HasHolder(s, k, except)
    ensures OthersLive(s.db, k, except)
  {
    var e :| e !in except && Holds(s, e, k);
    assert LiveOn(s.db, e, k);
  }

  /** A commit that does not trample is a guarded step. */
  lemma CommitGuard(m: Mode, s: Sys, tid: Id, c: Choice)
    requires Inv(m, s) && CanAdvance(m, s, tid, c) && !Tramples(s, Advance(tid, c))
    requires Commits(m, s.db, s.txns[tid], c).Some?
    ensures Guard(s.db, Commits(m, s.db, s.txns[tid], c).value)
  {
    hide Consistent, Holds;
    var t := s.txns[tid];
    if t.CancelChecked? {
      if !t.release { HolderIsLive(s, t.slot, {t.id}); }
    } else if t.RefundChecked? {
      if !t.release && t.slot in s.db.slots && s.db.slots[t.slot].isBooked {
        assert HasHolder(s, t.slot, {});
        HolderIsNotKept(s, tid);
        HolderIsLive(s, t.slot, {t.id});
      }
    } else {
      PlainCommitGuard(m, s.db, t, c);
    }
  }

  lemma HolderIsNotKept(s: Sys, tid: Id)
    requires tid in s.txns && s.txns[tid].RefundChecked? && !s.txns[tid].release
    requires HasHolder(s, s.txns[tid].slot, {})
    ensures HasHolder(s, s.txns[tid].slot, {s.txns[tid].id})
  {
    var e :| e !in {} && Holds(s, e, s.txns[tid].slot);
    assert !KeepsFlag(s.txns[tid], e);
  }

  // ---- And beside the others ----

  lemma UnwrittenRows(db: Db, l: Label, b: Id, k: SlotKey)
    requires Guard(db, l)
    ensures b in db.bookings && BookingRow(b) !in Writes(db, l) ==>
              b in Effect(db, l).bookings && Effect(db, l).bookings[b] == db.bookings[b]
    ensures k in db.slots && SlotRow(k) !in Writes(db, l) ==>
              k in Effect(db, l).slots && Effect(db, l).slots[k] == db.slots[k]
  {
  }

  lemma UnwrittenEvent(db: Db, l: Label, e: Id)
    requires e !in db.events && EventRow(e) !in Writes(db, l)
    ensures e !in Effect(db, l).events
  {
  }

  /** What a transaction knows survives every commit that writes none of its locked rows. */
  lemma KnowledgeKept(db: Db, l: Label, u: Txn)
    requires Consistent(db) && Guard(db, l)
    requires Knows(db, u) && Writes(db, l) !! Held(u)
    ensures Knows(Effect(db, l), u)
  {
    RowsStay(db, l);
    if u.CreateLocked? || u.CreateChecked? {
      assert SlotRow(u.slot) in Held(u);
      UnwrittenRows(db, l, 0, u.slot);
    } else if u.CancelLocked? || u.CancelSlot? {
      assert BookingRow(u.id) in Held(u);
      UnwrittenRows(db, l, u.id, u.slot);
    } else if u.CancelChecked? {
      assert BookingRow(u.id) in Held(u) && SlotRow(u.slot) in Held(u);
      CheckedKept(db, l, u.id, u.slot, u.release);
    } else if u.CleanupStart? || u.CleanupSlots? || u.CleanupChecked? {
      PendingKept(db, l, u.stale, Held(u));
    } else if u.CompleteStart? {
      PaidForever(db, l, u.id);
    } else {
      WebhookKept(db, l, u);
    }
  }

  lemma WebhookKept(db: Db, l: Label, u: Txn)
    requires Guard(db, l) && Knows(db, u) && Writes(db, l) !! Held(u)
    requires !u.CreateLocked? && !u.CreateChecked? && !u.CancelLocked? && !u.CancelSlot? && !u.CancelChecked?
    requires !u.CleanupStart? && !u.CleanupSlots? && !u.CleanupChecked? && !u.CompleteStart?
    ensures Knows(Effect(db, l), u)
  {
    RowsStay(db, l);
    if u.SuccessEvent? || u.SuccessBooking? || u.FailedEvent? || u.ProcessingEvent? {
      assert EventRow(u.event) in Held(u);
      UnwrittenEvent(db, l, u.event);
    }
    if u.SuccessBooking? {
      assert BookingRow(u.id) in Held(u);
      UnwrittenRows(db, l, u.id, db.bookings[u.id].slot);
    }
  }

  lemma PendingKept(db: Db, l: Label, ids: set<Id>, held: set<Row>)
    requires Guard(db, l) && AllPending(db, ids)
    requires Writes(db, l) !! held && forall b :: b in ids ==> BookingRow(b) in held
    ensures AllPending(Effect(db, l), ids) && SlotsOf(Effect(db, l), ids) == SlotsOf(db, ids)
  {
    forall b | b in ids
      ensures Effect(db, l).bookings[b] == db.bookings[b]
    {
      UnwrittenRows(db, l, b, db.bookings[b].slot);
    }
  }

  lemma CheckedKept(db: Db, l: Label, id: Id, k: SlotKey, release: bool)
    requires Guard(db, l) && Knows(db, CancelChecked(id, k, release))
    requires BookingRow(id) !in Writes(db, l) && SlotRow(k) !in Writes(db, l)
    ensures Knows(Effect(db, l), CancelChecked(id, k, release))
  {
    var db' := Effect(db, l);
    UnwrittenRows(db, l, id, k);
    if release && OthersActive(db', k, {id}) {
      var b :| b in db'.bookings && b !in {id} && ActiveOn(db', b, k);
      ActiveBefore(db, l, b, k);
    }
  }

  // ---- Every interleaving refines a run of committed steps ----

  /** A step that may be taken: no lock in its way, and it does not trample. */
  ghost predicate Fair(m: Mode, s: Sys, a: Action) {
    Inv(m, s) && Can(m, s, a) && !Tramples(s, a)
  }

  /** One step of one transaction: either the database stays, or it takes a guarded step. */
  lemma StepRefines(m: Mode, s: Sys, a: Action)
    requires Fair(m, s, a)
    ensures match StepLabel(m, s, a)
            case None => Do(m, s, a).db == s.db
            case Some(l) => Step(s.db, l, Do(m, s, a).db)
  {
    hide Consistent, Anchored, Exclusive, Guard, Effect, Commit, Tramples;
    if a.Advance? && StepLabel(m, s, a).Some? {
      CommitGuard(m, s, a.tid, a.choice);
      CommitLocks(m, s.db, s.txns[a.tid], a.choice);
    }
  }

  /** What a step writes is locked by nobody else. */
  lemma OthersUnwritten(m: Mode, s: Sys, a: Action, u: Id)
    requires Fair(m, s, a)
    requires StepLabel(m, s, a).Some? && u in s.txns && (a.Advance? ==> u != a.tid)
    ensures Writes(s.db, StepLabel(m, s, a).value) !! Held(s.txns[u])
  {
    hide Consistent, Anchored, Guard, Effect, Commit, Tramples, Commits, Needs, Held;
    if a.Advance? { CommitLocks(m, s.db, s.txns[a.tid], a.choice); }
  }

  lemma OthersStillKnow(m: Mode, s: Sys, a: Action, u: Id)
    requires Fair(m, s, a)
    requires StepLabel(m, s, a).Some? && u in s.txns && (a.Advance? ==> u != a.tid)
    ensures Knows(Do(m, s, a).db, s.txns[u])
  {
    hide Consistent, Anchored, Exclusive, Guard, Effect, Commit, Tramples, Knows, Held, Writes;
    StepRefines(m, s, a);
    OthersUnwritten(m, s, a, u);
    KnowledgeKept(s.db, StepLabel(m, s, a).value, s.txns[u]);
  }

  // ---- Holders ----

  /** While nothing commits, a holder stays one: a refund that checks it finds nobody else active. */
  lemma HolderUnmoved(m: Mode, s: Sys, a: Action, e: Id, k: SlotKey)
    requires Fair(m, s, a) && StepLabel(m, s, a).None? && Holds(s, e, k)
    ensures Holds(Do(m, s, a), e, k)
  {
    hide Consistent, Anchored, Exclusive, Tramples;
  }

  /** A live holder stays the holder as long as nobody books the slot. */
  lemma HolderOutlives(m: Mode, s: Sys, a: Action, e: Id, k: SlotKey)
    requires Fair(m, s, a) && StepLabel(m, s, a).Some? && Holds(s, e, k)
    requires var l := StepLabel(m, s, a).value; !(l.Created? && l.slot == k)
    requires LiveOn(Do(m, s, a).db, e, k)
    ensures Holds(Do(m, s, a), e, k)
  {
    hide Consistent, Anchored, Exclusive, Tramples, Knows, Guard, Effect, Commit, ActiveOn, LiveOn;
    StepRefines(m, s, a);
    var s' := Do(m, s, a);
    forall f | ActiveOn(s'.db, f, k) ensures f == e {
      ActiveBefore(s.db, StepLabel(m, s, a).value, f, k);
    }
    assert forall u :: u in s'.txns ==> u in s.txns && s'.txns[u] == s.txns[u];
  }

  /** Who can end a live booking, and that a release frees its slot. */
  lemma LiveEnds(db: Db, l: Label, e: Id, k: SlotKey)
    requires LiveOn(db, e, k) && !LiveOn(Effect(db, l), e, k) && !l.Created?
    ensures ((l.Cancelled? || l.Refunded?) && l.id == e) || (l.CleanedUp? && e in l.ids)
    ensures l.Cancelled? || l.CleanedUp? || l.release ==> SlotRow(k) in Writes(db, l)
    ensures (if l.CleanedUp? then k in l.keys else l.release) && k in Effect(db, l).slots ==>
              !Effect(db, l).slots[k].isBooked
  {
    assert k in SlotsOf(db, {e});
  }

  /** A refund that leaves the flag as it is does not end the holder. */
  lemma RefundSparesHolder(m: Mode, s: Sys, a: Action, e: Id, k: SlotKey)
    requires Fair(m, s, a) && Holds(s, e, k)
    ensures StepLabel(m, s, a) != Some(Refunded(e, false))
  {
    hide Consistent, Exclusive, Anchored, Tramples;
  }

  /** A cleanup frees every slot of its batch. */
  lemma CleanupFreesAll(m: Mode, s: Sys, a: Action, e: Id, k: SlotKey)
    requires Fair(m, s, a) && LiveOn(s.db, e, k)
    requires StepLabel(m, s, a).Some? && StepLabel(m, s, a).value.CleanedUp? && e in StepLabel(m, s, a).value.ids
    ensures k in StepLabel(m, s, a).value.keys
  {
    hide Consistent, Exclusive, Anchored, Tramples;
  }

  /** A holder is given up only by a step that has the slot locked: one that frees the slot, or a
      cancellation that saw another holder. */
  lemma HolderEnds(m: Mode, s: Sys, a: Action, e: Id, k: SlotKey)
    requires Fair(m, s, a) && StepLabel(m, s, a).Some? && Holds(s, e, k)
    requires !LiveOn(Do(m, s, a).db, e, k)
    ensures SlotRow(k) in Writes(s.db, StepLabel(m, s, a).value)
    ensures (StepLabel(m, s, a) == Some(Cancelled(e, false)) && HasHolder(s, k, {e}))
         || (k in Do(m, s, a).db.slots ==> !Do(m, s, a).db.slots[k].isBooked)
  {
    hide Consistent, Exclusive, Tramples, Commit, Effect, HasHolder, Writes;
    StepRefines(m, s, a);
    HolderLives(s, e, k);
    var l := StepLabel(m, s, a).value;
    if l.Created? {
      CreatedAnother(s.db, l, e, k);
    } else {
      LiveEnds(s.db, l, e, k);
      RefundSparesHolder(m, s, a, e, k);
      if l.CleanedUp? { CleanupFreesAll(m, s, a, e, k); }
    }
  }

  lemma CreatedAnother(db: Db, l: Label, e: Id, k: SlotKey)
    requires Guard(db, l) && l.Created? && LiveOn(db, e, k)
    ensures LiveOn(Effect(db, l), e, k)
  {
  }

  /** Booking a free slot makes the new booking its holder. */
  lemma CreatedHolds(m: Mode, s: Sys, a: Action)
    requires Fair(m, s, a) && StepLabel(m, s, a).Some? && StepLabel(m, s, a).value.Created?
    ensures var l := StepLabel(m, s, a).value; Holds(Do(m, s, a), l.id, l.slot)
  {
    hide Exclusive, Tramples, Commit;
    StepRefines(m, s, a);
    var l := StepLabel(m, s, a).value;
    forall f | ActiveOn(Do(m, s, a).db, f, l.slot) ensures f == l.id {
      ActiveBefore(s.db, l, f, l.slot);
    }
  }

  lemma BookedBefore(db: Db, l: Label, k: SlotKey)
    requires Guard(db, l) && !(l.Created? && l.slot == k)
    requires k in Effect(db, l).slots && Effect(db, l).slots[k].isBooked
    ensures k in db.slots && db.slots[k].isBooked
  {
  }

  lemma CancelEndsOne(db: Db, l: Label, e: Id, k: SlotKey)
    requires l.Cancelled? && l.id != e && LiveOn(db, e, k)
    ensures LiveOn(Effect(db, l), e, k)
  {
  }

  lemma HolderStays(m: Mode, s: Sys, a: Action, k: SlotKey)
    requires Fair(m, s, a) && k in Do(m, s, a).db.slots && Do(m, s, a).db.slots[k].isBooked
    ensures HasHolder(Do(m, s, a), k, {})
  {
    hide Consistent, Exclusive, Tramples, Commit, Guard, Effect, Holds, LiveOn, Do, StepLabel;
    StepRefines(m, s, a);
    var s' := Do(m, s, a);
    if StepLabel(m, s, a).None? {
      var e :| e !in {} && Holds(s, e, k);
      HolderUnmoved(m, s, a, e, k);
    } else {
      var l := StepLabel(m, s, a).value;
      if l.Created? && l.slot == k {
        CreatedHolds(m, s, a);
      } else {
        BookedBefore(s.db, l, k);
        var e :| e !in {} && Holds(s, e, k);
        if !LiveOn(s'.db, e, k) {
          HolderEnds(m, s, a, e, k);
          e :| e !in {l.id} && Holds(s, e, k);
          assert LiveOn(s.db, e, k) by { HolderLives(s, e, k); }
          CancelEndsOne(s.db, l, e, k);
        }
        HolderOutlives(m, s, a, e, k);
      }
    }
  }

  lemma HolderLives(s: Sys, e: Id, k: SlotKey)
    requires Holds(s, e, k)
    ensures LiveOn(s.db, e, k)
  {
  }

  /** A cancellation that keeps the slot booked has its holder for as long as it holds the slot's
      lock. */
  lemma CheckedHolderStays(m: Mode, s: Sys, a: Action, t: Id)
    requires Fair(m, s, a) && t in s.txns && (a.Advance? ==> t != a.tid)
    requires s.txns[t].CancelChecked? && !s.txns[t].release
    ensures HasHolder(Do(m, s, a), s.txns[t].slot, {s.txns[t].id})
  {
    hide Consistent, Exclusive, Tramples, Commit, Guard, Effect, Holds, LiveOn, Do, StepLabel;
    StepRefines(m, s, a);
    var k, d := s.txns[t].slot, s.txns[t].id;
    var e :| e !in {d} && Holds(s, e, k);
    if StepLabel(m, s, a).None? {
      HolderUnmoved(m, s, a, e, k);
    } else {
      OthersUnwritten(m, s, a, t);
      assert SlotRow(k) in Held(s.txns[t]);
      if !LiveOn(Do(m, s, a).db, e, k) { HolderEnds(m, s, a, e, k); }
      HolderOutlives(m, s, a, e, k);
    }
  }

  lemma NewlyChecked(m: Mode, s: Sys, a: Action)
    requires Fair(m, s, a) && a.Advance? && a.tid in s.txns && a.tid in Do(m, s, a).txns
    requires var t' := Do(m, s, a).txns[a.tid]; t'.CancelChecked? && !t'.release
    ensures var t' := Do(m, s, a).txns[a.tid]; HasHolder(Do(m, s, a), t'.slot, {t'.id})
  {
    hide Exclusive, Tramples, Keys, PaidIfConfirmed, NoDoubleBooking;
    var id, k := s.txns[a.tid].id, s.txns[a.tid].slot;
    var f :| f in s.db.bookings && f !in {id} && ActiveOn(s.db, f, k);
    var e :| e !in {} && Holds(s, e, k);
    assert e == f;
    HolderUnmoved(m, s, a, e, k);
  }

  lemma StepAnchored(m: Mode, s: Sys, a: Action)
    requires Fair(m, s, a)
    ensures Anchored(Do(m, s, a))
  {
    hide Consistent, Exclusive, Tramples, Commit, Effect, HasHolder, Fair;
    var s' := Do(m, s, a);
    forall k | k in s'.db.slots && s'.db.slots[k].isBooked
      ensures HasHolder(s', k, {})
    {
      HolderStays(m, s, a, k);
    }
    forall t | t in s'.txns && s'.txns[t].CancelChecked? && !s'.txns[t].release
      ensures HasHolder(s', s'.txns[t].slot, {s'.txns[t].id})
    {
      if a.Advance? && t == a.tid {
        NewlyChecked(m, s, a);
      } else {
        OldTxn(m, s, a, t);
        CheckedHolderStays(m, s, a, t);
      }
    }
  }

  lemma OldTxn(m: Mode, s: Sys, a: Action, t: Id)
    requires Fair(m, s, a) && t in Do(m, s, a).txns && (a.Advance? ==> t != a.tid)
    requires Do(m, s, a).txns[t].CancelChecked?
    ensures t in s.txns && s.txns[t] == Do(m, s, a).txns[t]
  {
    hide Consistent, Exclusive, Tramples, Anchored;
  }

  lemma StepKeepsInv(m: Mode, s: Sys, a: Action)
    requires Fair(m, s, a)
    ensures Inv(m, Do(m, s, a))
  {
    hide Consistent, Exclusive, Anchored, Tramples, Knows, Guard, Effect, Commit, Next, Commits;
    var s' := Do(m, s, a);
    StepRefines(m, s, a);
    StepExclusive(m, s, a);
    StepAnchored(m, s, a);
    if StepLabel(m, s, a).Some? {
      ConsistentKept(s.db, StepLabel(m, s, a).value);
    }
    forall u | u in s'.txns
      ensures Knows(s'.db, s'.txns[u]) && (m.refund == OneStep ==> !s'.txns[u].RefundChecked?)
    {
      if StepLabel(m, s, a).Some? {
        OthersStillKnow(m, s, a, u);
      } else if a.Begin? && u == a.tid {
        BeginKnows(s.db, a.txn);
      } else if a.Advance? && u == a.tid {
        NextKnows(m, s.db, s.txns[u], a.choice);
      }
    }
  }

  lemma {:induction false} RunKeepsInv(m: Mode, s: Sys, acts: seq<Action>)
    requires Inv(m, s) && CanAll(m, s, acts) && Calm(m, s, acts)
    ensures Inv(m, DoAll(m, s, acts))
  {
    hide Inv, Tramples;
    if acts == [] {
    } else {
      var init := acts[..|acts| - 1];
      RunKeepsInv(m, s, init);
      if m.refund == OneStep { NoTrampleInOneStep(m, DoAll(m, s, init), acts[|acts| - 1]); }
      StepKeepsInv(m, DoAll(m, s, init), acts[|acts| - 1]);
    }
  }

  lemma NoTrampleInOneStep(m: Mode, s: Sys, a: Action)
    requires Inv(m, s) && m.refund == OneStep
    ensures !Tramples(s, a)
  {
  }

  /** Linearisation: the commits of any calm interleaving, in commit order, form a legal run of steps
      that reaches the same database. */
  lemma {:induction false} InterleavingRefines(m: Mode, db: Db, acts: seq<Action>)
    requires Inv(m, Sys(db, map[])) && CanAll(m, Sys(db, map[]), acts) && Calm(m, Sys(db, map[]), acts)
    ensures Legal(db, Log(m, Sys(db, map[]), acts))
    ensures After(db, Log(m, Sys(db, map[]), acts)) == DoAll(m, Sys(db, map[]), acts).db
  {
    hide Inv, Tramples, Can, Do, Guard, Effect, StepLabel;
    LogReaches(m, db, acts);
    if acts == [] {
    } else {
      var s, init, a := Sys(db, map[]), acts[..|acts| - 1], acts[|acts| - 1];
      InterleavingRefines(m, db, init);
      RunIsFair(m, s, acts);
      StepRefines(m, DoAll(m, s, init), a);
      var ls, all := Log(m, s, init), Log(m, s, acts);
      if StepLabel(m, DoAll(m, s, init), a).Some? { assert all[..|all| - 1] == ls; } else { assert all == ls; }
    }
  }

  /** The last step of a calm run is one that may be taken. */
  lemma RunIsFair(m: Mode, s: Sys, acts: seq<Action>)
    requires Inv(m, s) && CanAll(m, s, acts) && Calm(m, s, acts) && acts != []
    ensures Fair(m, DoAll(m, s, acts[..|acts| - 1]), acts[|acts| - 1])
  {
    hide Inv, Tramples;
    var init := acts[..|acts| - 1];
    RunKeepsInv(m, s, init);
    if m.refund == OneStep { NoTrampleInOneStep(m, DoAll(m, s, init), acts[|acts| - 1]); }
  }

  lemma SomeHolder(db: Db, k: SlotKey)
    requires Consistent(db) && k in db.slots && db.slots[k].isBooked
    ensures HasHolder(Sys(db, map[]), k, {})
  {
    if e :| ActiveOn(db, e, k) {
      assert Holds(Sys(db, map[]), e, k);
    } else {
      var e :| e !in {} && LiveOn(db, e, k);
      assert Holds(Sys(db, map[]), e, k);
    }
  }

  lemma StartInv(m: Mode, db: Db)
    requires Consistent(db)
    ensures Inv(m, Sys(db, map[]))
  {
    hide Consistent, HasHolder;
    forall k | k in db.slots && db.slots[k].isBooked
      ensures HasHolder(Sys(db, map[]), k, {})
    {
      SomeHolder(db, k);
    }
  }

  // ---- With the unique key every run is calm ----

  /** A refund that tramples meets a second booking row on its slot. */
  lemma KeyForbidsTrampling(m: Mode, s: Sys, a: Action)
    requires Inv(m, s) && OnePerSlot(s.db)
    ensures !Tramples(s, a)
  {
    hide Consistent, Anchored, Exclusive;
  }

  lemma KeyGuardsInserts(m: Mode, s: Sys, a: Action)
    requires m.key == Unique && Fair(m, s, a) && OnePerSlot(s.db)
    ensures OnePerSlot(Do(m, s, a).db)
  {
    hide Inv, Can, Tramples, Guard, Effect, Do, OnePerSlot;
    StepRefines(m, s, a);
    if StepLabel(m, s, a).Some? { OnePerSlotKept(s.db, StepLabel(m, s, a).value); }
  }

  /** With the unique key no interleaving tramples, however the refund is scheduled. */
  lemma {:induction false} KeyedRunIsCalm(m: Mode, s: Sys, acts: seq<Action>)
    requires m.key == Unique && Inv(m, s) && OnePerSlot(s.db) && CanAll(m, s, acts)
    ensures Calm(m, s, acts) && OnePerSlot(DoAll(m, s, acts).db)
  {
    hide Inv, Tramples, Can, Do, OnePerSlot;
    if acts == [] {
    } else {
      var init, a := acts[..|acts| - 1], acts[|acts| - 1];
      KeyedRunIsCalm(m, s, init);
      RunKeepsInv(m, s, init);
      KeyForbidsTrampling(m, DoAll(m, s, init), a);
      KeyGuardsInserts(m, DoAll(m, s, init), a);
    }
  }

  /** What the results about whole interleavings ask for: with the unique key, that it holds at the
      start; without it, that no refund tramples, which one in one step cannot. */
  ghost predicate Sound(m: Mode, db: Db, acts: seq<Action>) {
    if m.key == Unique then OnePerSlot(db) else Calm(m, Sys(db, map[]), acts)
  }

  lemma SoundIsCalm(m: Mode, db: Db, acts: seq<Action>)
    requires Consistent(db) && CanAll(m, Sys(db, map[]), acts) && Sound(m, db, acts)
    ensures Inv(m, Sys(db, map[])) && Calm(m, Sys(db, map[]), acts) && Inv(m, DoAll(m, Sys(db, map[]), acts))
  {
    hide Inv, Calm, CanAll, DoAll;
    StartInv(m, db);
    if m.key == Unique { KeyedRunIsCalm(m, Sys(db, map[]), acts); }
    RunKeepsInv(m, Sys(db, map[]), acts);
  }

  /** No double booking in any reachable state of any interleaving of create, cancel, stale
      cleanup, the three webhooks, the completion jobs, slot maintenance and the refund: with the
      unique key always, and without it as long as no refund tramples. */
  lemma NeverDoubleBooked(m: Mode, db: Db, acts: seq<Action>)
    requires Consistent(db) && CanAll(m, Sys(db, map[]), acts) && Sound(m, db, acts)
    ensures NoDoubleBooking(DoAll(m, Sys(db, map[]), acts).db)
    ensures Sandwich(DoAll(m, Sys(db, map[]), acts).db)
    ensures PaidIfConfirmed(DoAll(m, Sys(db, map[]), acts).db)
  {
    SoundIsCalm(m, db, acts);
  }

  /** The program as deployed, with nothing asked of the run: all invariants and the unique key hold
      in every reachable state, so no refund ever releases a slot under an active booking. */
  lemma DeployedIsSafe(db: Db, acts: seq<Action>)
    requires Consistent(db) && OnePerSlot(db) && CanAll(DEPLOYED, Sys(db, map[]), acts)
    ensures Consistent(DoAll(DEPLOYED, Sys(db, map[]), acts).db) && OnePerSlot(DoAll(DEPLOYED, Sys(db, map[]), acts).db)
    ensures Calm(DEPLOYED, Sys(db, map[]), acts)
  {
    SoundIsCalm(DEPLOYED, db, acts);
    KeyedRunIsCalm(DEPLOYED, Sys(db, map[]), acts);
  }
}
