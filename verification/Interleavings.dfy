/** What users, webhooks and cron jobs can rely on in every interleaving, and the exact points
    where the unlocked parts of the code let an interleaving through. */
module Interleavings {
  import opened Rows
  import opened Steps
  import opened Runs
  import opened Operations
  import opened Transactions

  // ---- Stale cleanup against the success webhook ----

  /** In any run at all, a cleanup that commits cancels only bookings that still read PENDING, and
      touches no other booking and no slot but theirs. */
  lemma CleanupCancelsOnlyPending(m: Mode, db: Db, acts: seq<Action>, tid: Id, c: Choice)
    requires CanAll(m, Sys(db, map[]), acts)
    requires var s := DoAll(m, Sys(db, map[]), acts); CanAdvance(m, s, tid, c) && s.txns[tid].CleanupChecked?
    ensures var s := DoAll(m, Sys(db, map[]), acts); var s' := Do(m, s, Advance(tid, c));
            var stale := s.txns[tid].stale;
            (forall b :: b in stale ==> b in s.db.bookings && s.db.bookings[b].status == PENDING) &&
            (forall b :: b in stale ==> s'.db.bookings[b] == s.db.bookings[b].(status := CANCELLED)) &&
            (forall b :: b in s.db.bookings && b !in stale ==> s'.db.bookings[b] == s.db.bookings[b]) &&
            (forall k :: k in s.db.slots && k !in SlotsOf(s.db, stale) ==> s'.db.slots[k] == s.db.slots[k])
  {
    hide CanAll, DoAll, Exclusive;
    RunPinned(m, db, acts);
  }

  /** The bookings a cleanup may still cancel. */
  function Candidates(t: Txn): set<Id> {
    match t
    case CleanupStart(ids, stale) => Elems(ids) + stale
    case CleanupSlots(stale, _, _) => stale
    case CleanupChecked(stale, _, _) => stale
    case _ => {}
  }

  lemma StepNarrows(m: Mode, s: Sys, a: Action, tid: Id)
    requires !(a.Begin? && a.tid == tid) && tid in Do(m, s, a).txns
    ensures tid in s.txns && Candidates(Do(m, s, a).txns[tid]) <= Candidates(s.txns[tid])
  {
    hide Commit, OthersActive, HasLiveBooking, SlotTaken, Releasable, PaymentsWith, Effect;
  }

  lemma EffectKeepsAge(db: Db, l: Label, b: Id)
    requires b in db.bookings && (l.Created? ==> l.id != b)
    ensures b in Effect(db, l).bookings && Effect(db, l).bookings[b].createdAt == db.bookings[b].createdAt
  {
  }

  lemma StepKeepsAge(m: Mode, s: Sys, a: Action, b: Id)
    requires Can(m, s, a) && b in s.db.bookings
    ensures b in Do(m, s, a).db.bookings && Do(m, s, a).db.bookings[b].createdAt == s.db.bookings[b].createdAt
  {
    hide OthersActive, HasLiveBooking, SlotTaken, Releasable, PaymentsWith, Needs, Held, Effect, Guard, Unlocked;
    match a
    case AddSlotRows(rows) => EffectKeepsAge(s.db, SlotsAdded(rows), b);
    case DeleteSlotRows(keys) => EffectKeepsAge(s.db, SlotsDeleted(keys), b);
    case Advance(tid, c) =>
      var l := Commits(m, s.db, s.txns[tid], c);
      if l.Some? { EffectKeepsAge(s.db, l.value, b); }
    case _ =>
  }

  /** And only bookings that were older than its cutoff when it looked, however long it takes and
      whatever commits in between. */
  lemma {:induction false} CleanupCancelsOnlyStale(m: Mode, s: Sys, acts: seq<Action>, tid: Id, ids: seq<Id>,
      cutoff: int, b: Id)
    requires CanAll(m, s, acts) && forall i :: 0 <= i < |acts| ==> !(acts[i].Begin? && acts[i].tid == tid)
    requires tid in s.txns && s.txns[tid] == CleanupStart(ids, {}) && Elems(ids) == Stale(s.db, cutoff)
    requires var s' := DoAll(m, s, acts); tid in s'.txns && b in Candidates(s'.txns[tid])
    ensures var s' := DoAll(m, s, acts);
            b in s'.db.bookings && s'.db.bookings[b].createdAt < cutoff && b in s.db.bookings &&
            s.db.bookings[b].status == PENDING
  {
    hide Do, Can, Candidates;
    if acts == [] {
      assert Candidates(CleanupStart(ids, {})) == Elems(ids) by { OnlyListed(ids); }
    } else {
      var init, a := acts[..|acts| - 1], acts[|acts| - 1];
      var mid := DoAll(m, s, init);
      StepNarrows(m, mid, a, tid);
      CleanupCancelsOnlyStale(m, s, init, tid, ids, cutoff, b);
      StepKeepsAge(m, mid, a, b);
    }
  }

  lemma OnlyListed(ids: seq<Id>)
    ensures Candidates(CleanupStart(ids, {})) == Elems(ids)
  {
  }

  /** On a consistent database it also frees every one of their slots. */
  lemma CleanupFreesItsSlots(m: Mode, db: Db, acts: seq<Action>, tid: Id, c: Choice)
    requires Consistent(db) && CanAll(m, Sys(db, map[]), acts) && Sound(m, db, acts)
    requires var s := DoAll(m, Sys(db, map[]), acts); CanAdvance(m, s, tid, c) && s.txns[tid].CleanupChecked?
    ensures var s := DoAll(m, Sys(db, map[]), acts); var s' := Do(m, s, Advance(tid, c));
            forall k :: k in SlotsOf(s.db, s.txns[tid].stale) ==> k in s'.db.slots && !s'.db.slots[k].isBooked
  {
    hide CanAll, DoAll, Exclusive, Anchored, Sound;
    SoundIsCalm(m, db, acts);
  }

  /** In any run at all, a success webhook that commits records the money; it confirms the booking
      only if that still reads PENDING, so it never revives a cancelled one. */
  lemma WebhookConfirmsOnlyPending(m: Mode, db: Db, acts: seq<Action>, tid: Id, c: Choice)
    requires CanAll(m, Sys(db, map[]), acts)
    requires var s := DoAll(m, Sys(db, map[]), acts); CanAdvance(m, s, tid, c) && s.txns[tid].SuccessBooking?
    ensures var s := DoAll(m, Sys(db, map[]), acts); var s' := Do(m, s, Advance(tid, c)); var t := s.txns[tid];
            PaidNow(s'.db, t.id) && s'.db.payments[t.id].paidAt == Some(t.now) && t.event in s'.db.events &&
            t.id in s.db.bookings && t.id in s'.db.bookings && s'.db.bookings[t.id].status ==
              (if s.db.bookings[t.id].status == PENDING then CONFIRMED else s.db.bookings[t.id].status)
  {
    hide CanAll, DoAll, Exclusive;
    RunPinned(m, db, acts);
  }

  // ---- Each webhook event takes effect at most once ----

  /** The event row a transaction has inserted and not yet committed. */
  function Inserted(t: Txn): Option<Id> {
    match t
    case SuccessEvent(e, _, _) => Some(e)
    case SuccessBooking(e, _, _, _) => Some(e)
    case FailedEvent(e, _) => Some(e)
    case ProcessingEvent(e, _) => Some(e)
    case _ => None
  }

  /** Inserted event ids are new and pairwise different. */
  ghost predicate EventsApart(s: Sys) {
    (forall t :: t in s.txns && Inserted(s.txns[t]).Some? ==> Inserted(s.txns[t]).value !in s.db.events) &&
    (forall t, u :: t in s.txns && u in s.txns && t != u && Inserted(s.txns[t]).Some? ==>
       Inserted(s.txns[t]) != Inserted(s.txns[u]))
  }

  lemma InsertedIsLocked(t: Txn)
    ensures forall e :: Inserted(t) == Some(e) ==> EventRow(e) in Held(t)
  {
  }

  /** The event whose effect a step commits. */
  function EventTaken(m: Mode, s: Sys, a: Action): Option<Id> {
    if a.Advance? && a.tid in s.txns && Commits(m, s.db, s.txns[a.tid], a.choice).Some?
    then EventOf(Commits(m, s.db, s.txns[a.tid], a.choice).value) else None
  }

  lemma TakenWasInserted(m: Mode, s: Sys, a: Action)
    requires EventTaken(m, s, a).Some?
    ensures EventTaken(m, s, a) == Inserted(s.txns[a.tid])
  {
  }

  lemma CommitRecords(m: Mode, db: Db, t: Txn, c: Choice, e: Id)
    requires Commits(m, db, t, c).Some?
    ensures var l := Commits(m, db, t, c).value;
            e in Commit(db, t, l).events <==> e in db.events || EventOf(l) == Some(e)
  {
    hide OthersActive;
  }

  lemma EventsDone(m: Mode, s: Sys, a: Action, e: Id)
    ensures e in Do(m, s, a).db.events <==> e in s.db.events || EventTaken(m, s, a) == Some(e)
  {
    hide Commit, Next, Commits;
    if a.Advance? && a.tid in s.txns && Commits(m, s.db, s.txns[a.tid], a.choice).Some? {
      CommitRecords(m, s.db, s.txns[a.tid], a.choice, e);
    }
  }

  /** A new insert waits for the row of an uncommitted one and fails on a committed one. */
  lemma NewInsert(m: Mode, s: Sys, a: Action, t: Id)
    requires Can(m, s, a) && t in Do(m, s, a).txns && Inserted(Do(m, s, a).txns[t]).Some?
    requires t !in s.txns || Inserted(s.txns[t]) != Inserted(Do(m, s, a).txns[t])
    ensures var e := Inserted(Do(m, s, a).txns[t]).value;
            e !in s.db.events && (forall u :: u in s.txns && u != t ==> Inserted(s.txns[u]) != Some(e))
    ensures a.Advance? && t == a.tid && EventTaken(m, s, a).None?
  {
    var e := Inserted(Do(m, s, a).txns[t]).value;
    assert EventRow(e) in Needs(m, s.db, s.txns[t]);
    forall u | u in s.txns && u != t ensures Inserted(s.txns[u]) != Some(e) {
      InsertedIsLocked(s.txns[u]);
    }
  }

  lemma StaysApart(m: Mode, s: Sys, a: Action)
    requires EventsApart(s) && Can(m, s, a)
    ensures EventsApart(Do(m, s, a))
    ensures EventTaken(m, s, a).Some? ==> EventTaken(m, s, a).value !in s.db.events
  {
    hide Can, EventTaken, Inserted;
    var s' := Do(m, s, a);
    if EventTaken(m, s, a).Some? {
      TakenWasInserted(m, s, a);
      CommitEnds(m, s, a);
    }
    forall t | t in s'.txns && Inserted(s'.txns[t]).Some?
      ensures Inserted(s'.txns[t]).value !in s'.db.events
      ensures forall u :: u in s'.txns && u != t ==> Inserted(s'.txns[t]) != Inserted(s'.txns[u])
    {
      EventsDone(m, s, a, Inserted(s'.txns[t]).value);
      if t !in s.txns || Inserted(s.txns[t]) != Inserted(s'.txns[t]) { NewInsert(m, s, a, t); }
      forall u | u in s'.txns && u != t
        ensures Inserted(s'.txns[t]) != Inserted(s'.txns[u])
      {
        if Inserted(s'.txns[u]).Some? && (u !in s.txns || Inserted(s.txns[u]) != Inserted(s'.txns[u])) {
          NewInsert(m, s, a, u);
        }
      }
    }
  }

  lemma CommitEnds(m: Mode, s: Sys, a: Action)
    requires EventTaken(m, s, a).Some?
    ensures a.Advance? && a.tid in s.txns && Do(m, s, a).txns == s.txns - {a.tid}
  {
  }

  lemma {:induction false} RunStaysApart(m: Mode, s: Sys, acts: seq<Action>)
    requires EventsApart(s) && CanAll(m, s, acts)
    ensures EventsApart(DoAll(m, s, acts))
  {
    hide Can, Do, EventsApart;
    if acts == [] {
    } else {
      RunStaysApart(m, s, acts[..|acts| - 1]);
      StaysApart(m, DoAll(m, s, acts[..|acts| - 1]), acts[|acts| - 1]);
    }
  }

  /** The event that step i of a run applies to the payment and booking rows. */
  ghost function Applied(m: Mode, s: Sys, acts: seq<Action>, i: nat): Option<Id>
    requires i < |acts|
  {
    EventTaken(m, DoAll(m, s, acts[..i]), acts[i])
  }

  lemma {:induction false} AppliedIsRecorded(m: Mode, s: Sys, acts: seq<Action>, i: nat, e: Id)
    requires i < |acts| && Applied(m, s, acts, i) == Some(e)
    ensures e in DoAll(m, s, acts).db.events
  {
    hide Do, EventTaken;
    var n := |acts| - 1;
    EventsDone(m, DoAll(m, s, acts[..n]), acts[n], e);
    if i < n {
      assert acts[..n][..i] == acts[..i];
      AppliedIsRecorded(m, s, acts[..n], i, e);
    }
  }

  /** However deliveries are duplicated, reordered and overlapped, no event id changes payment or
      booking rows twice. */
  lemma {:induction false} EachEventOnce(m: Mode, db: Db, acts: seq<Action>, i: nat, j: nat)
    requires CanAll(m, Sys(db, map[]), acts) && i < j < |acts|
    requires Applied(m, Sys(db, map[]), acts, i).Some?
    ensures Applied(m, Sys(db, map[]), acts, i) != Applied(m, Sys(db, map[]), acts, j)
  {
    hide Do, EventTaken, Can;
    var s, n := Sys(db, map[]), |acts| - 1;
    assert acts[..n][..i] == acts[..i];
    if j == n {
      var e := Applied(m, s, acts, i).value;
      assert Applied(m, s, acts[..n], i) == Some(e);
      AppliedIsRecorded(m, s, acts[..n], i, e);
      RunStaysApart(m, s, acts[..n]);
      StaysApart(m, DoAll(m, s, acts[..n]), acts[n]);
    } else {
      assert acts[..n][..j] == acts[..j];
      EachEventOnce(m, db, acts[..n], i, j);
    }
  }

  // ---- Money ----

  /** In every interleaving that starts without bookings, a confirmed or completed booking was paid
      for by a success event that the run recorded. */
  lemma ConfirmedWasPaidInAnyOrder(m: Mode, db: Db, acts: seq<Action>, b: Id)
    requires Fresh(db) && CanAll(m, Sys(db, map[]), acts) && Sound(m, db, acts)
    requires var bookings := DoAll(m, Sys(db, map[]), acts).db.bookings;
             b in bookings && (bookings[b].status == CONFIRMED || bookings[b].status == COMPLETED)
    ensures Paid(DoAll(m, Sys(db, map[]), acts).db, b)
    ensures SuccessRecorded(db, Log(m, Sys(db, map[]), acts), b)
  {
    hide Inv, Consistent, Sound, Calm, CanAll, Log;
    FreshIsConsistent(db);
    SoundIsCalm(m, db, acts);
    InterleavingRefines(m, db, acts);
    ConfirmedWasPaid(db, Log(m, Sys(db, map[]), acts), b);
  }

  /** In every interleaving at all, refunds outnumber the successes applied to a payment by no more
      than the refunds that committed when it no longer read PAID. */
  lemma RefundsAccountedInAnyOrder(m: Mode, db: Db, acts: seq<Action>, b: Id)
    requires Fresh(db) && CanAll(m, Sys(db, map[]), acts)
    ensures var ls := Log(m, Sys(db, map[]), acts);
            Refunds(ls, b) + (if PaidNow(DoAll(m, Sys(db, map[]), acts).db, b) then 1 else 0)
              <= Successes(ls, b) + LateRefunds(db, ls, b)
  {
    hide CanAll, DoAll, Log;
    LogReaches(m, db, acts);
    RefundsAccounted(db, Log(m, Sys(db, map[]), acts), b);
  }

  lemma LogGrows(m: Mode, s: Sys, acts: seq<Action>)
    requires acts != []
    ensures var init := acts[..|acts| - 1]; var l := StepLabel(m, DoAll(m, s, init), acts[|acts| - 1]);
            var ls := Log(m, s, init); var all := Log(m, s, acts);
            (l.Some? ==> all == ls + [l.value] && all[..|all| - 1] == ls) && (l.None? ==> all == ls)
  {
    hide StepLabel, DoAll;
    var init := acts[..|acts| - 1];
    var ls := Log(m, s, init);
    assert ls + [] == ls;
    var l := StepLabel(m, DoAll(m, s, init), acts[|acts| - 1]);
    if l.Some? { assert (ls + [l.value])[..|ls + [l.value]| - 1] == ls; }
  }

  lemma LabelOnPayments(m: Mode, s: Sys, a: Action)
    requires Pinned(s) && Can(m, s, a) && StepLabel(m, s, a).Some?
    ensures OnPayments(s.db, StepLabel(m, s, a).value)
  {
    hide Exclusive, OthersActive;
  }

  lemma {:induction false} LogOnPayments(m: Mode, db: Db, acts: seq<Action>)
    requires CanAll(m, Sys(db, map[]), acts)
    ensures AllOnPayments(db, Log(m, Sys(db, map[]), acts))
  {
    hide Can, Do, Pinned, StepLabel, OnPayments;
    var s := Sys(db, map[]);
    if acts == [] {
    } else {
      var init, a := acts[..|acts| - 1], acts[|acts| - 1];
      LogOnPayments(m, db, init);
      LogReaches(m, db, init);
      RunPinned(m, db, init);
      LogGrows(m, s, acts);
      if StepLabel(m, DoAll(m, s, init), a).Some? { LabelOnPayments(m, DoAll(m, s, init), a); }
    }
  }

  /** The payment a refund in flight is for. */
  function RefundOf(t: Txn): Option<Id> {
    match t
    case RefundStart(id, _) => Some(id)
    case RefundBooking(id, _) => Some(id)
    case RefundPayment(id, _) => Some(id)
    case RefundChecked(id, _, _) => Some(id)
    case _ => None
  }

  lemma RefundStaysFor(m: Mode, s: Sys, a: Action, t: Id)
    requires Can(m, s, a) && t in Do(m, s, a).txns && RefundOf(Do(m, s, a).txns[t]).Some?
    ensures (t in s.txns && RefundOf(s.txns[t]) == RefundOf(Do(m, s, a).txns[t]))
         || PaidNow(s.db, RefundOf(Do(m, s, a).txns[t]).value)
  {
  }

  lemma RefundCommits(m: Mode, s: Sys, a: Action)
    requires StepLabel(m, s, a).Some? && StepLabel(m, s, a).value.Refunded?
    ensures a.Advance? && a.tid in s.txns && RefundOf(s.txns[a.tid]) == Some(StepLabel(m, s, a).value.id)
  {
  }

  lemma {:induction false} PaidNeedsSuccess(db: Db, ls: seq<Label>, b: Id)
    requires Fresh(db) && PaidNow(After(db, ls), b)
    ensures Successes(ls, b) > 0
  {
    hide Effect;
    if ls == [] {
    } else {
      var init, l := ls[..|ls| - 1], ls[|ls| - 1];
      PaidBefore(After(db, init), l, b);
      if !(l.Succeeded? && l.id == b) { PaidNeedsSuccess(db, init, b); }
    }
  }

  /** A refund reads PAID before it starts, so every refund in flight and every one committed comes
      after a success of its payment. */
  lemma {:induction false} RefundsFollowSuccess(m: Mode, db: Db, acts: seq<Action>, b: Id)
    requires Fresh(db) && CanAll(m, Sys(db, map[]), acts)
    ensures RefundsFollow(Log(m, Sys(db, map[]), acts), b)
    ensures var s := DoAll(m, Sys(db, map[]), acts);
            forall t :: t in s.txns && RefundOf(s.txns[t]) == Some(b) ==> Successes(Log(m, Sys(db, map[]), acts), b) > 0
  {
    hide Can, Do, StepLabel, Fresh, Log;
    var s0 := Sys(db, map[]);
    if acts == [] {
      assert Log(m, s0, acts) == [] by { NoLog(m, s0); }
    } else {
      var init, a := acts[..|acts| - 1], acts[|acts| - 1];
      var s := DoAll(m, s0, init);
      var ls, all := Log(m, s0, init), Log(m, s0, acts);
      RefundsFollowSuccess(m, db, init, b);
      LogGrows(m, s0, acts);
      LogReaches(m, db, init);
      assert Successes(all, b) >= Successes(ls, b);
      if StepLabel(m, s, a).Some? && StepLabel(m, s, a).value.Refunded? { RefundCommits(m, s, a); }
      forall t | t in Do(m, s, a).txns && RefundOf(Do(m, s, a).txns[t]) == Some(b)
        ensures Successes(all, b) > 0
      {
        RefundStaysFor(m, s, a, t);
        if PaidNow(s.db, b) { PaidNeedsSuccess(db, ls, b); }
      }
    }
  }

  lemma NoLog(m: Mode, s: Sys)
    ensures Log(m, s, []) == []
  {
  }

  /** In every interleaving at all, refunds stay within successes if and only if the late ones stay
      within the lapses and a payment that still reads PAID. */
  lemma RefundsConservedInAnyOrder(m: Mode, db: Db, acts: seq<Action>, b: Id)
    requires Fresh(db) && CanAll(m, Sys(db, map[]), acts)
    ensures var ls := Log(m, Sys(db, map[]), acts); var paid := PaidNow(DoAll(m, Sys(db, map[]), acts).db, b);
            Refunds(ls, b) <= Successes(ls, b) <==>
            LateRefunds(db, ls, b) <= Lapses(db, ls, b) + (if paid then 1 else 0)
  {
    hide CanAll, DoAll, Log;
    LogReaches(m, db, acts);
    LogOnPayments(m, db, acts);
    RefundsConservedIff(db, Log(m, Sys(db, map[]), acts), b);
  }

  /** In every interleaving in which a payment gets at most one success and nothing overwrites it while
      it reads PAID: it is refunded at most as often as paid if and only if no refund is late, and
      every refund but the first is. */
  lemma OneRefundInAnyOrder(m: Mode, db: Db, acts: seq<Action>, b: Id)
    requires Fresh(db) && CanAll(m, Sys(db, map[]), acts)
    requires var ls := Log(m, Sys(db, map[]), acts); Successes(ls, b) <= 1 && Lapses(db, ls, b) == 0
    ensures var ls := Log(m, Sys(db, map[]), acts);
            (Refunds(ls, b) <= Successes(ls, b) <==> LateRefunds(db, ls, b) == 0) &&
            LateRefunds(db, ls, b) == if Refunds(ls, b) > 0 then Refunds(ls, b) - 1 else 0
  {
    hide CanAll, DoAll, Log;
    LogOnPayments(m, db, acts);
    RefundsFollowSuccess(m, db, acts, b);
    OneSuccessOneRefund(db, Log(m, Sys(db, map[]), acts), b);
  }

  // ---- Booking status climbs, but for a completion that was overtaken ----

  /** The completion job is about to write COMPLETED over a booking cancelled since it read it. */
  ghost predicate Overtaken(s: Sys, a: Action) {
    a.Advance? && a.tid in s.txns && s.txns[a.tid].CompleteStart? &&
    s.txns[a.tid].id in s.db.bookings && s.db.bookings[s.txns[a.tid].id].status == CANCELLED
  }

  lemma LabelIsFresh(m: Mode, s: Sys, a: Action)
    requires Pinned(s) && Can(m, s, a) && StepLabel(m, s, a).Some?
    ensures var l := StepLabel(m, s, a).value;
            (l.Created? ==> l.id !in s.db.bookings) && (l.Completed? ==> l.id in s.db.bookings) &&
            (l.Completed? <==> a.Advance? && s.txns[a.tid].CompleteStart?) &&
            (l.Completed? ==> s.txns[a.tid].id == l.id)
  {
    hide Exclusive, OthersActive;
  }

  lemma StepClimbsIff(m: Mode, s: Sys, a: Action)
    requires Pinned(s) && Can(m, s, a)
    ensures (forall b :: RankOf(s.db, b) <= RankOf(Do(m, s, a).db, b)) <==> !Overtaken(s, a)
    ensures forall b :: b in s.db.bookings ==> b in Do(m, s, a).db.bookings
  {
    hide Pinned, Can, Effect, Do;
    StepIsEffect(m, s, a);
    if StepLabel(m, s, a).Some? {
      LabelIsFresh(m, s, a);
      ClimbsIff(s.db, StepLabel(m, s, a).value);
      RowsStay(s.db, StepLabel(m, s, a).value);
    }
  }

  ghost predicate NeverOvertaken(m: Mode, s: Sys, acts: seq<Action>) {
    acts == [] ||
    (NeverOvertaken(m, s, acts[..|acts| - 1]) && !Overtaken(DoAll(m, s, acts[..|acts| - 1]), acts[|acts| - 1]))
  }

  ghost function StatusChanges(m: Mode, s: Sys, acts: seq<Action>, b: Id): nat {
    if acts == [] then 0
    else StatusChanges(m, s, acts[..|acts| - 1], b)
         + (if Changed(DoAll(m, s, acts[..|acts| - 1]).db, DoAll(m, s, acts).db, b) then 1 else 0)
  }

  /** In any interleaving without an overtaken completion, a booking changes status at most three
      times and CANCELLED is final. */
  lemma {:induction false} StatusChangesBounded(m: Mode, db: Db, acts: seq<Action>, b: Id)
    requires CanAll(m, Sys(db, map[]), acts) && NeverOvertaken(m, Sys(db, map[]), acts)
    ensures var after := DoAll(m, Sys(db, map[]), acts).db;
            RankOf(db, b) + StatusChanges(m, Sys(db, map[]), acts, b) <= RankOf(after, b) <= 3
    ensures b in db.bookings ==> b in DoAll(m, Sys(db, map[]), acts).db.bookings
    ensures b in db.bookings && db.bookings[b].status == CANCELLED ==>
              DoAll(m, Sys(db, map[]), acts).db.bookings[b].status == CANCELLED
  {
    hide Can, Overtaken, Do;
    if acts == [] {
    } else {
      var s, init, a := Sys(db, map[]), acts[..|acts| - 1], acts[|acts| - 1];
      StatusChangesBounded(m, db, init, b);
      RunPinned(m, db, init);
      StepClimbsIff(m, DoAll(m, s, init), a);
    }
  }

  // ---- The refund without the unique key ----

  /** Releasing a slot that was booked anew since the check always breaks the invariants. */
  lemma TramplingBreaks(m: Mode, s: Sys, a: Action)
    requires Can(m, s, a) && Tramples(s, a) && Knows(s.db, s.txns[a.tid])
    ensures !Consistent(Do(m, s, a).db)
  {
    var id, k := s.txns[a.tid].id, s.txns[a.tid].slot;
    var db' := Do(m, s, a).db;
    assert db' == Effect(s.db, Refunded(id, true));
    var b :| b in s.db.bookings && b !in {id} && ActiveOn(s.db, b, k);
    assert ActiveOn(db', b, k) && k in SlotsOf(s.db, {id}) && !(k in db'.slots && db'.slots[k].isBooked);
  }

  ghost predicate AlwaysConsistent(m: Mode, s: Sys, acts: seq<Action>) {
    Consistent(DoAll(m, s, acts).db) && (acts == [] || AlwaysConsistent(m, s, acts[..|acts| - 1]))
  }

  /** With the refund as the source writes it, an interleaving keeps the database consistent
      throughout exactly when no refund releases a slot that was booked anew since its check. Under
      the unique key both sides always hold. */
  lemma {:induction false} SafeIffCalm(key: SlotIdKey, db: Db, acts: seq<Action>)
    requires Consistent(db) && CanAll(Mode(AsWritten, key), Sys(db, map[]), acts)
    ensures AlwaysConsistent(Mode(AsWritten, key), Sys(db, map[]), acts) <==>
        Calm(Mode(AsWritten, key), Sys(db, map[]), acts)
    ensures key == Unique && OnePerSlot(db) ==> Calm(Mode(AsWritten, key), Sys(db, map[]), acts)
  {
    hide Consistent, Can, Tramples, Knows, Inv, Do, OnePerSlot;
    var m, s := Mode(AsWritten, key), Sys(db, map[]);
    StartInv(m, db);
    if acts == [] {
    } else {
      var init, a := acts[..|acts| - 1], acts[|acts| - 1];
      SafeIffCalm(key, db, init);
      if Calm(m, s, init) {
        RunKeepsInv(m, s, init);
        if Tramples(DoAll(m, s, init), a) {
          TramplerKnows(m, DoAll(m, s, init), a);
          TramplingBreaks(m, DoAll(m, s, init), a);
        } else {
          RunKeepsInv(m, s, acts);
          InvIsConsistent(m, DoAll(m, s, acts));
        }
      }
    }
    if key == Unique && OnePerSlot(db) { KeyedRunIsCalm(m, s, acts); }
  }

  lemma TramplerKnows(m: Mode, s: Sys, a: Action)
    requires Inv(m, s) && Tramples(s, a)
    ensures Knows(s.db, s.txns[a.tid])
  {
  }

  lemma InvIsConsistent(m: Mode, s: Sys)
    requires Inv(m, s)
    ensures Consistent(s.db)
  {
  }
}
