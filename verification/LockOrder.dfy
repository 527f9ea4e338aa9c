/** Deadlock freedom: every transaction takes its row locks in the order event, booking, payment,
    slot. Only the stale cleanup takes several rows of one class; several cleanups are safe when
    their lists of bookings follow one order. */
module LockOrder {
  import opened Rows
  import opened Steps
  import opened Operations
  import opened Transactions

  predicate IsCleanup(t: Txn) {
    t.CleanupStart? || t.CleanupSlots? || t.CleanupChecked?
  }

  ghost predicate OneCleanup(s: Sys) {
    forall t, u :: t in s.txns && u in s.txns && IsCleanup(s.txns[t]) && IsCleanup(s.txns[u]) ==> t == u
  }

  predicate Increasing(rank: Id -> int, ids: seq<Id>) {
    forall i, j :: 0 <= i < j < |ids| ==> rank(ids[i]) < rank(ids[j])
  }

  /** A cleanup that goes through its bookings in the order of their ranks. */
  predicate FollowsOrder(rank: Id -> int, t: Txn) {
    t.CleanupStart? ==>
      Increasing(rank, t.ids) && forall b, i :: b in t.stale && 0 <= i < |t.ids| ==> rank(b) < rank(t.ids[i])
  }

  ghost predicate Agree(s: Sys, rank: Id -> int) {
    forall t :: t in s.txns ==> FollowsOrder(rank, s.txns[t])
  }

  /** At most one cleanup, or a state the invariants allow in which all cleanups follow one order. */
  ghost predicate Orderly(m: Mode, s: Sys, rank: Id -> int) {
    OneCleanup(s) || (Inv(m, s) && Agree(s, rank))
  }

  const DONE: nat := 100

  function Class(r: Row): nat {
    match r case EventRow(_) => 0 case BookingRow(_) => 1 case PaymentRow(_) => 2 case SlotRow(_) => 3
  }

  /** Twice the class of the next lock, plus one for the cleanup; DONE when no lock is to come. */
  function Level(t: Txn): nat {
    match t
    case CreateStart(_, _, _, _, _) => 6
    case CancelStart(_) => 2
    case CancelLocked(_, _) => 6
    case CleanupStart(ids, _) => if ids != [] then 3 else 4
    case CleanupSlots(_, keys, _) => if keys != [] then 7 else 8
    case SuccessStart(_, _, _) => 0
    case SuccessEvent(_, _, _) => 2
    case SuccessBooking(_, _, _, _) => 4
    case FailedStart(_, _) => 0
    case FailedEvent(_, _) => 4
    case ProcessingStart(_, _) => 0
    case ProcessingEvent(_, _) => 4
    case IntentStart(_, _) => 4
    case RefundStart(_, _) => 2
    case RefundBooking(_, _) => 4
    case RefundPayment(_, _) => 6
    case RefundChecked(_, _, _) => 6
    case CompleteStart(_) => 2
    case _ => DONE
  }

  ghost predicate WaitsFor(m: Mode, s: Sys, t: Id, u: Id) {
    t in s.txns && u in s.txns && t != u && !(Held(s.txns[u]) !! Needs(m, s.db, s.txns[t]))
  }

  lemma LevelsBoundLocks(m: Mode, db: Db, t: Txn)
    ensures forall r :: r in Needs(m, db, t) ==> Level(t) == 2 * Class(r) + (if IsCleanup(t) then 1 else 0)
    ensures forall r :: r in Held(t) ==> 2 * Class(r) + (if IsCleanup(t) then 0 else 1) < Level(t)
  {
  }

  /** u is further along than t: a higher level, or, of two cleanups locking bookings, a later one. */
  predicate Before(rank: Id -> int, t: Txn, u: Txn) {
    Level(t) < Level(u) ||
    (t.CleanupStart? && u.CleanupStart? && t.ids != [] && u.ids != [] && rank(t.ids[0]) < rank(u.ids[0]))
  }

  lemma OnePendingPerSlot(db: Db, b: Id, c: Id)
    requires NoDoubleBooking(db) && AllPending(db, {b, c}) && db.bookings[b].slot == db.bookings[c].slot
    ensures b == c
  {
    assert ActiveOn(db, b, db.bookings[b].slot) && ActiveOn(db, c, db.bookings[b].slot);
  }

  lemma BatchSlotsApart(db: Db, xs: set<Id>, ys: set<Id>)
    requires NoDoubleBooking(db) && AllPending(db, xs) && AllPending(db, ys) && xs !! ys
    ensures SlotsOf(db, xs) !! SlotsOf(db, ys)
  {
    forall b, c | b in xs && c in ys
      ensures db.bookings[b].slot != db.bookings[c].slot
    {
      if db.bookings[b].slot == db.bookings[c].slot { OnePendingPerSlot(db, b, c); }
    }
  }

  lemma BatchesApart(s: Sys, t: Id, u: Id)
    requires Exclusive(s) && t in s.txns && u in s.txns && t != u && IsCleanup(s.txns[t]) && IsCleanup(s.txns[u])
    ensures s.txns[t].stale !! s.txns[u].stale
  {
    assert forall b :: b in s.txns[t].stale ==> BookingRow(b) in Held(s.txns[t]);
    assert forall b :: b in s.txns[u].stale ==> BookingRow(b) in Held(s.txns[u]);
  }

  /** Two cleanups never meet at a slot: it would have two PENDING bookings. */
  lemma SlotsApart(m: Mode, s: Sys, t: Id, u: Id)
    requires Inv(m, s) && t in s.txns && u in s.txns && t != u
    requires s.txns[t].CleanupSlots? && IsCleanup(s.txns[u])
    ensures Held(s.txns[u]) !! Needs(m, s.db, s.txns[t])
  {
    hide Anchored, Keys, Sandwich, PaidIfConfirmed, NoDoubleBooking, Exclusive;
    BatchesApart(s, t, u);
    BatchSlotsApart(s.db, s.txns[t].stale, s.txns[u].stale);
    assert Knows(s.db, s.txns[t]) && Knows(s.db, s.txns[u]);
  }

  /** Whoever waits, waits for a transaction that is further along. */
  lemma WaitingClimbs(m: Mode, s: Sys, rank: Id -> int, t: Id, u: Id)
    requires Orderly(m, s, rank) && WaitsFor(m, s, t, u)
    ensures Before(rank, s.txns[t], s.txns[u])
  {
    hide Inv;
    var r :| r in Held(s.txns[u]) && r in Needs(m, s.db, s.txns[t]);
    LevelsBoundLocks(m, s.db, s.txns[t]);
    LevelsBoundLocks(m, s.db, s.txns[u]);
    if !OneCleanup(s) && s.txns[t].CleanupSlots? && IsCleanup(s.txns[u]) { SlotsApart(m, s, t, u); }
  }

  ghost predicate WaitPath(m: Mode, s: Sys, p: seq<Id>) {
    |p| >= 2 && forall i :: 0 <= i < |p| - 1 ==> WaitsFor(m, s, p[i], p[i + 1])
  }

  lemma {:induction false} PathClimbs(m: Mode, s: Sys, rank: Id -> int, p: seq<Id>)
    requires Orderly(m, s, rank) && WaitPath(m, s, p)
    ensures p[0] in s.txns && p[|p| - 1] in s.txns && Before(rank, s.txns[p[0]], s.txns[p[|p| - 1]])
  {
    hide Orderly, Held, Needs;
    var n := |p| - 1;
    assert WaitsFor(m, s, p[n - 1], p[n - 1 + 1]);
    WaitingClimbs(m, s, rank, p[n - 1], p[n]);
    if n == 1 {
    } else {
      PathClimbs(m, s, rank, p[..n]);
    }
  }

  /** The wait-for graph has no cycle, in either scheduling of the refund, with one cleanup at a time
      or with any number of them that follow one order. */
  lemma NoWaitCycle(m: Mode, s: Sys, rank: Id -> int, p: seq<Id>)
    requires Orderly(m, s, rank) && WaitPath(m, s, p)
    ensures p[0] != p[|p| - 1]
  {
    PathClimbs(m, s, rank, p);
  }

  /** Every cleanup of the run locks its candidates in the order of the ranks. */
  ghost predicate OrderedRun(rank: Id -> int, acts: seq<Action>) {
    forall i :: 0 <= i < |acts| && acts[i].Begin? ==> FollowsOrder(rank, acts[i].txn)
  }

  lemma StepAgrees(m: Mode, s: Sys, a: Action, rank: Id -> int)
    requires Agree(s, rank) && (a.Begin? ==> FollowsOrder(rank, a.txn))
    ensures Agree(Do(m, s, a), rank)
  {
    hide Commit, Effect, OthersActive, HasLiveBooking, SlotTaken, Releasable;
  }

  lemma {:induction false} RunAgrees(m: Mode, db: Db, acts: seq<Action>, rank: Id -> int)
    requires OrderedRun(rank, acts)
    ensures Agree(DoAll(m, Sys(db, map[]), acts), rank)
  {
    hide Do, Agree, FollowsOrder;
    if acts == [] {
      assert Agree(Sys(db, map[]), rank) by { NobodyDisagrees(db, rank); }
    } else {
      var init := acts[..|acts| - 1];
      assert forall i :: 0 <= i < |init| ==> init[i] == acts[i];
      RunAgrees(m, db, init, rank);
      StepAgrees(m, DoAll(m, Sys(db, map[]), init), acts[|acts| - 1], rank);
    }
  }

  lemma NobodyDisagrees(db: Db, rank: Id -> int)
    ensures Agree(Sys(db, map[]), rank)
  {
  }

  /** In no reachable state of an interleaving whose cleanups lock their bookings in one order does
      anybody wait in a cycle, however many cleanups overlap. */
  lemma OrderedRunsDoNotDeadlock(m: Mode, db: Db, acts: seq<Action>, rank: Id -> int, p: seq<Id>)
    requires Consistent(db) && CanAll(m, Sys(db, map[]), acts) && Sound(m, db, acts) && OrderedRun(rank, acts)
    requires WaitPath(m, DoAll(m, Sys(db, map[]), acts), p)
    ensures p[0] != p[|p| - 1]
  {
    hide Inv, Agree, WaitPath, Sound, Calm, CanAll, DoAll;
    SoundIsCalm(m, db, acts);
    RunAgrees(m, db, acts, rank);
    NoWaitCycle(m, DoAll(m, Sys(db, map[]), acts), rank, p);
  }

  // ---- Progress ----

  ghost predicate Highest(s: Sys, rank: Id -> int, t: Id) {
    t in s.txns && forall u :: u in s.txns ==> !Before(rank, s.txns[t], s.txns[u])
  }

  lemma {:induction false} SomeHighest(s: Sys, rank: Id -> int, among: set<Id>) returns (t: Id)
    requires among != {} && among <= s.txns.Keys
    ensures t in among && forall u :: u in among ==> !Before(rank, s.txns[t], s.txns[u])
  {
    t :| t in among;
    if among != {t} {
      var u := SomeHighest(s, rank, among - {t});
      if Before(rank, s.txns[t], s.txns[u]) {
        t := u;
      } else {
        forall v | v in among && v != t
          ensures !Before(rank, s.txns[t], s.txns[v])
        {
          BeforeOrNot(rank, s.txns[t], s.txns[u], s.txns[v]);
        }
      }
    }
  }

  lemma BeforeOrNot(rank: Id -> int, t: Txn, u: Txn, v: Txn)
    requires !Before(rank, t, u) && !Before(rank, u, v)
    ensures !Before(rank, t, v)
  {
  }

  lemma {:induction false} UnusedId(ids: set<Id>) returns (n: Id)
    ensures n !in ids
    ensures forall i :: i in ids ==> i < n
  {
    if ids == {} {
      n := 0;
    } else {
      var i :| i in ids;
      var m := UnusedId(ids - {i});
      n := if i < m then m else i + 1;
      assert forall j :: j in ids ==> j == i || j in ids - {i};
    }
  }

  lemma {:induction false} KeyList(ks: set<SlotKey>) returns (xs: seq<SlotKey>)
    ensures (set k | k in xs) == ks
  {
    if ks == {} {
      xs := [];
    } else {
      var k :| k in ks;
      var rest := KeyList(ks - {k});
      xs := rest + [k];
      assert (set x | x in xs) == (set x | x in rest) + {k};
    }
  }

  lemma SomeChoice(db: Db, t: Txn) returns (c: Choice)
    ensures ChoiceOk(db, t, c)
  {
    var n := UnusedId(db.bookings.Keys + db.payments.Keys);
    var order := [];
    if t.CleanupStart? { order := KeyList(SlotsOf(db, t.stale)); }
    c := Choice(n, order);
  }

  lemma HighestIsFree(m: Mode, s: Sys, rank: Id -> int, t: Id)
    requires Orderly(m, s, rank) && Highest(s, rank, t)
    ensures Unlocked(s, Needs(m, s.db, s.txns[t]), {t})
  {
    hide Orderly, Held, Needs;
    forall u | u in s.txns && u !in {t}
      ensures Held(s.txns[u]) !! Needs(m, s.db, s.txns[t])
    {
      if WaitsFor(m, s, t, u) { WaitingClimbs(m, s, rank, t, u); }
    }
  }

  /** Whenever a transaction is in flight, some transaction can take its next step. */
  lemma SomeoneProceeds(m: Mode, s: Sys, rank: Id -> int) returns (t: Id, c: Choice)
    requires Orderly(m, s, rank) && s.txns != map[]
    ensures CanAdvance(m, s, t, c) && Highest(s, rank, t)
  {
    hide Orderly, Before;
    t := SomeHighest(s, rank, s.txns.Keys);
    c := SomeChoice(s.db, s.txns[t]);
    HighestIsFree(m, s, rank, t);
  }

  // ---- Everything in flight can finish ----

  /** Steps left, phase by phase; within a phase of the cleanup, rows left. */
  function Phase(t: Txn): nat {
    match t
    case CleanupStart(_, _) => 3
    case CleanupSlots(_, _, _) => 2
    case RefundStart(_, _) => 4
    case RefundBooking(_, _) => 3
    case RefundPayment(_, _) => 2
    case CancelStart(_) => 4
    case CancelLocked(_, _) => 3
    case CancelSlot(_, _) => 2
    case CreateStart(_, _, _, _, _) => 3
    case CreateLocked(_, _, _) => 2
    case SuccessStart(_, _, _) => 3
    case SuccessEvent(_, _, _) => 2
    case FailedStart(_, _) => 2
    case ProcessingStart(_, _) => 2
    case _ => 1
  }

  function RowsLeft(t: Txn): nat {
    match t
    case CleanupStart(ids, _) => |ids|
    case CleanupSlots(_, keys, _) => |keys|
    case _ => 0
  }

  lemma NextIsCloser(m: Mode, db: Db, t: Txn, c: Choice)
    requires Commits(m, db, t, c).None? && Next(m, db, t, c).Some?
    ensures var t' := Next(m, db, t, c).value;
            Level(t) <= Level(t') && IsCleanup(t') == IsCleanup(t) &&
            (Phase(t') < Phase(t) || (Phase(t') == Phase(t) && RowsLeft(t') < RowsLeft(t)))
  {
  }

  lemma {:induction false} JoinRuns(m: Mode, s: Sys, xs: seq<Action>, ys: seq<Action>)
    requires CanAll(m, s, xs) && CanAll(m, DoAll(m, s, xs), ys)
    ensures CanAll(m, s, xs + ys) && DoAll(m, s, xs + ys) == DoAll(m, DoAll(m, s, xs), ys)
  {
    if ys == [] {
      assert xs + ys == xs;
    } else {
      var n := |ys| - 1;
      JoinRuns(m, s, xs, ys[..n]);
      assert (xs + ys)[..|xs + ys| - 1] == xs + ys[..n];
    }
  }

  ghost predicate OnlyAdvances(acts: seq<Action>) {
    forall a :: a in acts ==> a.Advance?
  }

  /** Nothing in flight can trample. */
  ghost predicate Steady(m: Mode, s: Sys) {
    m.refund == OneStep || (m.key == Unique && OnePerSlot(s.db))
  }

  ghost predicate Finishable(m: Mode, s: Sys, rank: Id -> int) {
    OneCleanup(s) || (Inv(m, s) && Agree(s, rank) && Steady(m, s))
  }

  lemma StaysFinishable(m: Mode, s: Sys, rank: Id -> int, t: Id, c: Choice)
    requires Finishable(m, s, rank) && CanAdvance(m, s, t, c)
    ensures Finishable(m, Do(m, s, Advance(t, c)), rank)
  {
    hide Inv, Agree, Tramples, OnePerSlot;
    var a := Advance(t, c);
    if OneCleanup(s) {
      StaysOne(m, s, t, c);
    } else {
      if m.refund == OneStep { NoTrampleInOneStep(m, s, a); } else { KeyForbidsTrampling(m, s, a); }
      StepKeepsInv(m, s, a);
      StepAgrees(m, s, a, rank);
      if m.refund != OneStep { KeyGuardsInserts(m, s, a); }
    }
  }

  lemma StaysOne(m: Mode, s: Sys, t: Id, c: Choice)
    requires OneCleanup(s) && t in s.txns
    ensures OneCleanup(Do(m, s, Advance(t, c)))
  {
    if Commits(m, s.db, s.txns[t], c).None? && Next(m, s.db, s.txns[t], c).Some? {
      NextIsCloser(m, s.db, s.txns[t], c);
    }
  }

  lemma StaysHighest(m: Mode, s: Sys, rank: Id -> int, t: Id, c: Choice)
    requires Finishable(m, s, rank) && Highest(s, rank, t) && t in Do(m, s, Advance(t, c)).txns
    ensures Highest(Do(m, s, Advance(t, c)), rank, t)
  {
    hide Inv, Commits, Commit, OthersActive, HasLiveBooking, SlotTaken, Releasable;
    NextIsCloser(m, s.db, s.txns[t], c);
  }

  /** A transaction that nobody is ahead of runs to its end without waiting. */
  lemma {:induction false} FinishOne(m: Mode, s: Sys, rank: Id -> int, t: Id) returns (acts: seq<Action>)
    requires Finishable(m, s, rank) && Highest(s, rank, t)
    ensures CanAll(m, s, acts) && OnlyAdvances(acts)
    ensures DoAll(m, s, acts).txns == s.txns - {t} && Finishable(m, DoAll(m, s, acts), rank)
    decreases Phase(s.txns[t]), RowsLeft(s.txns[t])
  {
    hide Finishable, Before, Needs, Held;
    var c := SomeChoice(s.db, s.txns[t]);
    assert Orderly(m, s, rank) by { FinishableIsOrderly(m, s, rank); }
    HighestIsFree(m, s, rank, t);
    var a := Advance(t, c);
    ExtendRun(m, s, [], a);
    assert [] + [a] == [a];
    acts := [a];
    var s' := Do(m, s, a);
    StaysFinishable(m, s, rank, t, c);
    if t in s'.txns {
      NextIsCloser(m, s.db, s.txns[t], c);
      StaysHighest(m, s, rank, t, c);
      var rest := FinishOne(m, s', rank, t);
      JoinRuns(m, s, [a], rest);
      acts := [a] + rest;
      assert s'.txns - {t} == s.txns - {t};
    }
  }

  lemma FinishableIsOrderly(m: Mode, s: Sys, rank: Id -> int)
    requires Finishable(m, s, rank)
    ensures Orderly(m, s, rank)
  {
  }

  /** From every such state, all transactions in flight can run to their ends, none of them rolled
      back to break a deadlock. */
  lemma {:induction false} AllCanFinish(m: Mode, s: Sys, rank: Id -> int) returns (acts: seq<Action>)
    requires Finishable(m, s, rank)
    ensures CanAll(m, s, acts) && OnlyAdvances(acts)
    ensures DoAll(m, s, acts).txns == map[]
    decreases |s.txns|
  {
    hide Finishable, Before, Can, Do;
    if s.txns == map[] {
      acts := [];
    } else {
      var t := SomeHighest(s, rank, s.txns.Keys);
      var first := FinishOne(m, s, rank, t);
      var s' := DoAll(m, s, first);
      assert s'.txns.Keys == s.txns.Keys - {t};
      var rest := AllCanFinish(m, s', rank);
      JoinRuns(m, s, first, rest);
      acts := first + rest;
    }
  }
}
