/** Safety over whole runs of committed steps. */
module Runs {
  import opened Rows
  import opened Steps

  function After(db: Db, ls: seq<Label>): Db {
    if ls == [] then db else Effect(After(db, ls[..|ls| - 1]), ls[|ls| - 1])
  }

  ghost predicate Legal(db: Db, ls: seq<Label>) {
    ls == [] || (Legal(db, ls[..|ls| - 1]) && Guard(After(db, ls[..|ls| - 1]), ls[|ls| - 1]))
  }

  lemma {:induction false} Append(db: Db, ls: seq<Label>, more: seq<Label>)
    ensures After(db, ls + more) == After(After(db, ls), more)
    ensures Legal(db, ls + more) <==> Legal(db, ls) && Legal(After(db, ls), more)
  {
    if more == [] {
      assert ls + more == ls;
    } else {
      var n := |more| - 1;
      assert (ls + more)[..|ls + more| - 1] == ls + more[..n];
      Append(db, ls, more[..n]);
    }
  }

  // ---- No double booking, no leaked slot, no unpaid confirmation ----

  lemma {:induction false} RunConsistent(db: Db, ls: seq<Label>)
    requires Consistent(db) && Legal(db, ls)
    ensures Consistent(After(db, ls))
  {
    if ls == [] {
    } else {
      RunConsistent(db, ls[..|ls| - 1]);
      ConsistentKept(After(db, ls[..|ls| - 1]), ls[|ls| - 1]);
    }
  }

  lemma {:induction false} BookingStays(db: Db, ls: seq<Label>, b: Id)
    requires Legal(db, ls) && b in db.bookings
    ensures b in After(db, ls).bookings && After(db, ls).bookings[b].slot == db.bookings[b].slot
  {
    hide Effect;
    if ls == [] {
    } else {
      var init := ls[..|ls| - 1];
      BookingStays(db, init, b);
      RowsStay(After(db, init), ls[|ls| - 1]);
    }
  }

  // ---- Webhooks: at most once ----

  function EventOf(l: Label): Option<Id> {
    match l
    case Succeeded(e, _, _) => Some(e)
    case Failed(e, _) => Some(e)
    case Processing(e, _) => Some(e)
    case _ => None
  }

  lemma EventsAfter(db: Db, l: Label, e: Id)
    ensures e in Effect(db, l).events <==> e in db.events || EventOf(l) == Some(e)
  {
  }

  lemma {:induction false} RecordedForever(db: Db, ls: seq<Label>, e: Id)
    requires e in db.events || exists i :: 0 <= i < |ls| && EventOf(ls[i]) == Some(e)
    ensures e in After(db, ls).events
  {
    if ls == [] {
    } else {
      var init, l := ls[..|ls| - 1], ls[|ls| - 1];
      EventsAfter(After(db, init), l, e);
      if EventOf(l) != Some(e) {
        if e !in db.events {
          var i :| 0 <= i < |ls| && EventOf(ls[i]) == Some(e);
          assert init[i] == ls[i];
        }
        RecordedForever(db, init, e);
      }
    }
  }

  /** No two state-changing deliveries of a run carry the same event id. */
  lemma {:induction false} WebhookAtMostOnce(db: Db, ls: seq<Label>, i: nat, j: nat)
    requires Legal(db, ls) && i < j < |ls|
    requires EventOf(ls[i]).Some?
    ensures EventOf(ls[i]) != EventOf(ls[j])
  {
    var init := ls[..|ls| - 1];
    if j == |ls| - 1 {
      var e := EventOf(ls[i]).value;
      assert init[i] == ls[i];
      RecordedForever(db, init, e);
    } else {
      WebhookAtMostOnce(db, init, i, j);
    }
  }

  // ---- Payment provenance and conservation ----

  ghost predicate Fresh(db: Db) {
    db.bookings == map[] && db.payments == map[] && db.events == {} &&
    forall k :: k in db.slots ==> !db.slots[k].isBooked
  }

  lemma FreshIsConsistent(db: Db)
    requires Fresh(db)
    ensures Consistent(db)
  {
  }

  ghost predicate SuccessRecorded(db: Db, ls: seq<Label>, b: Id) {
    exists i :: 0 <= i < |ls| && ls[i].Succeeded? && ls[i].id == b && ls[i].event in After(db, ls).events
  }

  lemma PaidBySuccess(db: Db, l: Label, b: Id)
    requires !Paid(db, b) && Paid(Effect(db, l), b)
    ensures l.Succeeded? && l.id == b
  {
  }

  lemma {:induction false} PaidWasRecorded(db: Db, ls: seq<Label>, b: Id)
    requires Fresh(db) && Legal(db, ls) && Paid(After(db, ls), b)
    ensures SuccessRecorded(db, ls, b)
  {
    var n := |ls| - 1;
    if n < 0 {
    } else {
      var i := n;
      if Paid(After(db, ls[..n]), b) {
        PaidWasRecorded(db, ls[..n], b);
        i :| 0 <= i < n && ls[..n][i].Succeeded? && ls[..n][i].id == b;
      } else {
        PaidBySuccess(After(db, ls[..n]), ls[n], b);
      }
      assert EventOf(ls[i]) == Some(ls[i].event);
      RecordedForever(db, ls, ls[i].event);
    }
  }

  /** Every confirmed or completed booking was paid for by a recorded success event, even when
      failed or processing events arrive out of order. */
  lemma ConfirmedWasPaid(db: Db, ls: seq<Label>, b: Id)
    requires Fresh(db) && Legal(db, ls)
    requires b in After(db, ls).bookings
    requires After(db, ls).bookings[b].status == CONFIRMED || After(db, ls).bookings[b].status == COMPLETED
    ensures Paid(After(db, ls), b) && SuccessRecorded(db, ls, b)
  {
    FreshIsConsistent(db);
    RunConsistent(db, ls);
    PaidWasRecorded(db, ls, b);
  }

  function Successes(ls: seq<Label>, b: Id): nat {
    if ls == [] then 0
    else Successes(ls[..|ls| - 1], b) + (if ls[|ls| - 1].Succeeded? && ls[|ls| - 1].id == b then 1 else 0)
  }

  function Refunds(ls: seq<Label>, b: Id): nat {
    if ls == [] then 0
    else Refunds(ls[..|ls| - 1], b) + (if ls[|ls| - 1].Refunded? && ls[|ls| - 1].id == b then 1 else 0)
  }

  predicate PaidNow(db: Db, b: Id) {
    b in db.payments && db.payments[b].status == PAID
  }

  /** Steps whose check and write are one: a refund still finds its payment PAID and a
      completion still finds its booking CONFIRMED. */
  ghost predicate Atomic(db: Db, l: Label) {
    (l.Refunded? ==> PaidNow(db, l.id)) &&
    (l.Completed? ==> l.id in db.bookings && db.bookings[l.id].status == CONFIRMED)
  }

  ghost predicate AllAtomic(db: Db, ls: seq<Label>) {
    ls == [] || (AllAtomic(db, ls[..|ls| - 1]) && Atomic(After(db, ls[..|ls| - 1]), ls[|ls| - 1]))
  }

  lemma {:induction false} AppendAtomic(db: Db, ls: seq<Label>, more: seq<Label>)
    requires AllAtomic(db, ls) && AllAtomic(After(db, ls), more)
    ensures AllAtomic(db, ls + more)
  {
    if more == [] {
      assert ls + more == ls;
    } else {
      var n := |more| - 1;
      assert (ls + more)[..|ls + more| - 1] == ls + more[..n];
      AppendAtomic(db, ls, more[..n]);
      Append(db, ls, more[..n]);
    }
  }

  /** A payment reads PAID after a step only by a success, or by having read PAID before a step
      that is not its refund. */
  lemma PaidBefore(db: Db, l: Label, b: Id)
    requires PaidNow(Effect(db, l), b)
    ensures (l.Succeeded? && l.id == b) || (PaidNow(db, b) && !(l.Refunded? && l.id == b))
  {
  }

  /** Refunds that were committed when the payment no longer read PAID. */
  ghost function LateRefunds(db: Db, ls: seq<Label>, b: Id): nat {
    if ls == [] then 0
    else
      var init, l := ls[..|ls| - 1], ls[|ls| - 1];
      LateRefunds(db, init, b) + (if l.Refunded? && l.id == b && !PaidNow(After(db, init), b) then 1 else 0)
  }

  /** The payments whose status a step overwrites without looking at it. */
  function Overwritten(db: Db, l: Label): set<Id> {
    match l
    case Failed(_, id) => {id}
    case Processing(_, intent) => PaymentsWith(db, intent)
    case IntentSaved(id, _) => {id}
    case _ => {}
  }

  /** A step that uses up a PAID payment without refunding it: one that overwrites it, or a success
      that it had already received. */
  predicate LapsesAt(db: Db, l: Label, b: Id) {
    PaidNow(db, b) && (b in Overwritten(db, l) || (l.Succeeded? && l.id == b))
  }

  ghost function Lapses(db: Db, ls: seq<Label>, b: Id): nat {
    if ls == [] then 0
    else
      var init := ls[..|ls| - 1];
      Lapses(db, init, b) + (if LapsesAt(After(db, init), ls[|ls| - 1], b) then 1 else 0)
  }

  /** What one step does to whether a payment reads PAID. */
  lemma PaidAfter(db: Db, l: Label, b: Id)
    requires l.Succeeded? && l.id == b ==> b in db.payments
    ensures PaidNow(Effect(db, l), b)
       <==> (l.Succeeded? && l.id == b) || (PaidNow(db, b) && !(l.Refunded? && l.id == b) && b !in Overwritten(db, l))
  {
  }

  /** A success is recorded on an existing payment. */
  predicate OnPayments(db: Db, l: Label) {
    l.Succeeded? ==> l.id in db.payments
  }

  ghost predicate AllOnPayments(db: Db, ls: seq<Label>) {
    ls == [] || (AllOnPayments(db, ls[..|ls| - 1]) && OnPayments(After(db, ls[..|ls| - 1]), ls[|ls| - 1]))
  }

  /** The account of a payment, over any run: what refunds, a payment still PAID and lapses have used
      is what successes have brought and late refunds have taken twice. */
  lemma {:induction false} RefundsBalance(db: Db, ls: seq<Label>, b: Id)
    requires Fresh(db) && AllOnPayments(db, ls)
    ensures Refunds(ls, b) + Lapses(db, ls, b) + (if PaidNow(After(db, ls), b) then 1 else 0)
         == Successes(ls, b) + LateRefunds(db, ls, b)
  {
    hide Effect, Overwritten;
    if ls == [] {
    } else {
      var init, l := ls[..|ls| - 1], ls[|ls| - 1];
      RefundsBalance(db, init, b);
      PaidAfter(After(db, init), l, b);
      assert l.Refunded? ==> Overwritten(After(db, init), l) == {} by { RefundOverwritesNothing(After(db, init), l); }
    }
  }

  lemma RefundOverwritesNothing(db: Db, l: Label)
    ensures l.Refunded? || l.Succeeded? ==> Overwritten(db, l) == {}
  {
  }

  /** Refunds stay within the successes if and only if the late ones stay within the lapses and a
      payment that still reads PAID. */
  lemma RefundsConservedIff(db: Db, ls: seq<Label>, b: Id)
    requires Fresh(db) && AllOnPayments(db, ls)
    ensures Refunds(ls, b) <= Successes(ls, b)
       <==> LateRefunds(db, ls, b) <= Lapses(db, ls, b) + (if PaidNow(After(db, ls), b) then 1 else 0)
  {
    RefundsBalance(db, ls, b);
  }

  /** Each refund comes after some success. */
  predicate RefundsFollow(ls: seq<Label>, b: Id) {
    ls == [] ||
    (RefundsFollow(ls[..|ls| - 1], b) &&
     (ls[|ls| - 1].Refunded? && ls[|ls| - 1].id == b ==> Successes(ls[..|ls| - 1], b) > 0))
  }

  lemma {:induction false} RefundedIsNotPaid(db: Db, ls: seq<Label>, b: Id)
    requires Fresh(db) && AllOnPayments(db, ls) && RefundsFollow(ls, b) && Successes(ls, b) <= 1
    ensures Refunds(ls, b) > 0 ==> Successes(ls, b) == 1 && !PaidNow(After(db, ls), b)
    ensures LateRefunds(db, ls, b) <= Refunds(ls, b)
  {
    hide Effect, Overwritten;
    if ls == [] {
    } else {
      var init, l := ls[..|ls| - 1], ls[|ls| - 1];
      RefundedIsNotPaid(db, init, b);
      PaidAfter(After(db, init), l, b);
    }
  }

  /** The common case, a payment with at most one success that nothing overwrites while it reads PAID:
      refunds stay within successes if and only if none of them is late, and all but the first are. */
  lemma OneSuccessOneRefund(db: Db, ls: seq<Label>, b: Id)
    requires Fresh(db) && AllOnPayments(db, ls) && RefundsFollow(ls, b)
    requires Successes(ls, b) <= 1 && Lapses(db, ls, b) == 0
    ensures Refunds(ls, b) <= Successes(ls, b) <==> LateRefunds(db, ls, b) == 0
    ensures LateRefunds(db, ls, b) == if Refunds(ls, b) > 0 then Refunds(ls, b) - 1 else 0
  {
    RefundsBalance(db, ls, b);
    RefundedIsNotPaid(db, ls, b);
  }

  /** Whatever the run, refunds outnumber the success events applied to the payment by no more than
      the refunds that came late, and while it reads PAID one of those events is still unspent. */
  lemma {:induction false} RefundsAccounted(db: Db, ls: seq<Label>, b: Id)
    requires Fresh(db)
    ensures Refunds(ls, b) + (if PaidNow(After(db, ls), b) then 1 else 0) <= Successes(ls, b) + LateRefunds(db, ls, b)
  {
    if ls == [] {
    } else {
      var init, l := ls[..|ls| - 1], ls[|ls| - 1];
      RefundsAccounted(db, init, b);
      if PaidNow(After(db, ls), b) {
        PaidBefore(After(db, init), l, b);
      }
    }
  }

  lemma {:induction false} AtomicRefundsAreInTime(db: Db, ls: seq<Label>, b: Id)
    requires AllAtomic(db, ls)
    ensures LateRefunds(db, ls, b) == 0
  {
    if ls == [] {
    } else {
      AtomicRefundsAreInTime(db, ls[..|ls| - 1], b);
    }
  }

  /** With check and write as one step, refunds never outnumber the success events applied to the
      payment, and while it reads PAID one of those events is still unspent. */
  lemma {:induction false} RefundsConserved(db: Db, ls: seq<Label>, b: Id)
    requires Fresh(db) && AllAtomic(db, ls)
    ensures Refunds(ls, b) + (if PaidNow(After(db, ls), b) then 1 else 0) <= Successes(ls, b)
  {
    RefundsAccounted(db, ls, b);
    AtomicRefundsAreInTime(db, ls, b);
  }

  // ---- Booking status only climbs ----

  function Rank(s: BookingStatus): nat {
    match s case PENDING => 0 case CONFIRMED => 1 case COMPLETED => 2 case CANCELLED => 3
  }

  function RankOf(db: Db, b: Id): nat {
    if b in db.bookings then Rank(db.bookings[b].status) else 0
  }

  /** Exactly one kind of commit moves a booking back: completing a cancelled one. */
  lemma ClimbsIff(db: Db, l: Label)
    requires l.Created? ==> l.id !in db.bookings
    requires l.Completed? ==> l.id in db.bookings
    ensures (forall b :: RankOf(db, b) <= RankOf(Effect(db, l), b))
       <==> !(l.Completed? && db.bookings[l.id].status == CANCELLED)
  {
    if l.Completed? && db.bookings[l.id].status == CANCELLED {
      assert RankOf(Effect(db, l), l.id) < RankOf(db, l.id);
    }
  }

  predicate Changed(db: Db, db': Db, b: Id) {
    b in db.bookings && b in db'.bookings && db.bookings[b].status != db'.bookings[b].status
  }

  function Changes(db: Db, ls: seq<Label>, b: Id): nat {
    if ls == [] then 0
    else Changes(db, ls[..|ls| - 1], b)
         + (if Changed(After(db, ls[..|ls| - 1]), After(db, ls), b) then 1 else 0)
  }

  lemma AtomicClimbs(db: Db, l: Label, b: Id)
    requires Guard(db, l) && Atomic(db, l)
    ensures RankOf(db, b) <= RankOf(Effect(db, l), b) <= 3
    ensures b in db.bookings ==> b in Effect(db, l).bookings
  {
    hide Effect;
    ClimbsIff(db, l);
    RowsStay(db, l);
  }

  /** Over any run a booking's status changes at most three times, and never leaves CANCELLED:
      in particular a late success webhook does not revive a cancelled booking. */
  lemma {:induction false} StatusOnlyClimbs(db: Db, ls: seq<Label>, b: Id)
    requires Legal(db, ls) && AllAtomic(db, ls)
    ensures RankOf(db, b) + Changes(db, ls, b) <= RankOf(After(db, ls), b) <= 3
    ensures b in db.bookings ==> b in After(db, ls).bookings
    ensures b in db.bookings && db.bookings[b].status == CANCELLED ==> After(db, ls).bookings[b].status == CANCELLED
  {
    hide Effect, Guard, Atomic;
    if ls == [] {
    } else {
      var init := ls[..|ls| - 1];
      StatusOnlyClimbs(db, init, b);
      AtomicClimbs(After(db, init), ls[|ls| - 1], b);
    }
  }

  // ---- Where the payment row is weaker than the booking row ----

  ghost predicate ConfirmedReadsPaid(db: Db) {
    forall b :: b in db.bookings && db.bookings[b].status == CONFIRMED ==> PaidNow(db, b)
  }

  /** "A CONFIRMED booking's payment reads PAID" survives a step exactly when the step does not
      overwrite the payment of a booking that is CONFIRMED at that moment. */
  lemma ConfirmedReadsPaidIff(db: Db, l: Label)
    requires ConfirmedReadsPaid(db) && Keys(db) && Guard(db, l)
    ensures ConfirmedReadsPaid(Effect(db, l))
       <==> forall b :: b in Overwritten(db, l) && b in db.bookings ==> db.bookings[b].status != CONFIRMED
  {
    var db' := Effect(db, l);
    if b :| b in Overwritten(db, l) && b in db.bookings && db.bookings[b].status == CONFIRMED {
      assert db'.bookings[b].status == CONFIRMED && !PaidNow(db', b);
    } else {
      forall b | b in db'.bookings && db'.bookings[b].status == CONFIRMED
        ensures PaidNow(db', b)
      {
        assert b !in Overwritten(db, l);
      }
    }
  }
}
