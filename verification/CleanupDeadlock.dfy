/** Exactly when two overlapping stale cleanups can block each other for good. The list of a cleanup
    has its candidates in the order in which its query locks them. */
module CleanupDeadlock {
  import opened Rows
  import opened Steps
  import opened Operations
  import opened Transactions
  import opened LockOrder

  /** A booking both cleanups will want to lock. */
  predicate Shared(db: Db, ys: seq<Id>, x: Id) {
    x in db.bookings && db.bookings[x].status == PENDING && x in ys
  }

  /** The first booking of a list that the other cleanup wants as well. */
  function FirstShared(db: Db, xs: seq<Id>, ys: seq<Id>): Option<Id> {
    if xs == [] then None else if Shared(db, ys, xs[0]) then Some(xs[0]) else FirstShared(db, xs[1..], ys)
  }

  function PendingOf(db: Db, xs: seq<Id>): set<Id> {
    set x | x in Elems(xs) && x in db.bookings && db.bookings[x].status == PENDING
  }

  /** Both cleanups have read their candidates and locked nothing yet. */
  function Both(db: Db, xs: seq<Id>, ys: seq<Id>): Sys {
    Sys(db, map[0 := CleanupStart(xs, {}), 1 := CleanupStart(ys, {})])
  }

  ghost predicate Stuck(m: Mode, s: Sys) {
    s.txns != map[] && forall t, c :: !CanAdvance(m, s, t, c)
  }

  ghost predicate Gets(m: Mode, s: Sys, s': Sys) {
    exists acts :: OnlyAdvances(acts) && CanAll(m, s, acts) && DoAll(m, s, acts) == s'
  }

  /** Two cleanups that nobody else interferes with can end up in a state in which nobody can move. */
  ghost predicate CanBlockAlone(m: Mode, s: Sys) {
    exists s' :: Gets(m, s, s') && Stuck(m, s')
  }

  /** The two cleanups wait for each other. */
  ghost predicate Deadlocked(m: Mode, s: Sys) {
    WaitsFor(m, s, 0, 1) && WaitsFor(m, s, 1, 0)
  }

  /** Whatever else runs, as long as the first n transactions are not started again. */
  ghost predicate NoRestart(n: nat, acts: seq<Action>) {
    forall a :: a in acts && a.Begin? ==> a.tid >= n
  }

  ghost predicate Goes(m: Mode, n: nat, s: Sys, s': Sys) {
    exists acts :: NoRestart(n, acts) && CanAll(m, s, acts) && DoAll(m, s, acts) == s'
  }

  /** Two cleanups can come to wait for each other, in some run with any other transactions. */
  ghost predicate CanBlock(m: Mode, s: Sys) {
    exists s' :: Goes(m, 2, s, s') && Deadlocked(m, s')
  }

  // ---- If nobody else commits: different first bookings block ----

  lemma GetsNowhere(m: Mode, s: Sys)
    ensures Gets(m, s, s)
  {
    assert OnlyAdvances([]) && CanAll(m, s, []) && DoAll(m, s, []) == s;
  }

  lemma GetsOn(m: Mode, s: Sys, s': Sys, tid: Id, c: Choice)
    requires Gets(m, s, s') && CanAdvance(m, s', tid, c)
    ensures Gets(m, s, Do(m, s', Advance(tid, c)))
  {
    hide Do, CanAdvance;
    var acts :| OnlyAdvances(acts) && CanAll(m, s, acts) && DoAll(m, s, acts) == s';
    ExtendRun(m, s, acts, Advance(tid, c));
    assert OnlyAdvances(acts + [Advance(tid, c)]);
  }

  /** One cleanup goes past its next booking, which the others have not locked. */
  lemma LocksNext(m: Mode, s0: Sys, s: Sys, tid: Id, ids: seq<Id>, stale: set<Id>)
    requires Gets(m, s0, s) && tid in s.txns && s.txns[tid] == CleanupStart(ids, stale) && ids != []
    requires ids[0] in PendingOf(s.db, ids) ==> Unlocked(s, {BookingRow(ids[0])}, {tid})
    ensures Gets(m, s0, s.(txns := s.txns[tid := CleanupStart(ids[1..], stale + PendingOf(s.db, [ids[0]]))]))
  {
    hide Gets;
    var c := SomeChoice(s.db, s.txns[tid]);
    GetsOn(m, s0, s, tid, c);
    assert PendingOf(s.db, [ids[0]]) == if ids[0] in PendingOf(s.db, ids) then {ids[0]} else {};
    assert stale + {} == stale;
  }

  lemma PendingSplits(db: Db, xs: seq<Id>, ys: seq<Id>)
    ensures PendingOf(db, xs + ys) == PendingOf(db, xs) + PendingOf(db, ys)
  {
  }

  /** One cleanup goes through a prefix of its list that the others have not locked. */
  lemma {:induction false} LocksPrefix(m: Mode, s0: Sys, s: Sys, tid: Id, pre: seq<Id>, suf: seq<Id>, stale: set<Id>)
    requires Gets(m, s0, s) && tid in s.txns && s.txns[tid] == CleanupStart(pre + suf, stale)
    requires forall x :: x in PendingOf(s.db, pre) ==> Unlocked(s, {BookingRow(x)}, {tid})
    ensures Gets(m, s0, s.(txns := s.txns[tid := CleanupStart(suf, stale + PendingOf(s.db, pre))]))
    decreases |pre|
  {
    hide Gets;
    if pre == [] {
      assert pre + suf == suf && stale + PendingOf(s.db, pre) == stale;
      assert s.txns[tid := s.txns[tid]] == s.txns;
    } else {
      var ids, x := pre + suf, pre[0];
      assert pre == [x] + pre[1..] && ids[1..] == pre[1..] + suf;
      PendingSplits(s.db, [x], pre[1..]);
      LocksNext(m, s0, s, tid, ids, stale);
      var stale' := stale + PendingOf(s.db, [x]);
      var s' := s.(txns := s.txns[tid := CleanupStart(ids[1..], stale')]);
      LocksPrefix(m, s0, s', tid, pre[1..], suf, stale');
      assert stale' + PendingOf(s.db, pre[1..]) == stale + PendingOf(s.db, pre);
      assert s'.txns[tid := CleanupStart(suf, stale' + PendingOf(s.db, pre[1..]))]
          == s.txns[tid := CleanupStart(suf, stale + PendingOf(s.db, pre))];
    }
  }

  /** The part of a list up to the first element of a set. */
  lemma {:induction false} UpTo(xs: seq<Id>, among: set<Id>) returns (pre: seq<Id>, suf: seq<Id>)
    requires exists x :: x in xs && x in among
    ensures xs == pre + suf && suf != [] && suf[0] in among && forall x :: x in pre ==> x !in among
  {
    if xs[0] in among {
      pre, suf := [], xs;
    } else {
      assert forall x :: x in xs && x != xs[0] ==> x in xs[1..];
      pre, suf := UpTo(xs[1..], among);
      pre := [xs[0]] + pre;
    }
  }

  lemma {:induction false} SplitAtFirst(db: Db, xs: seq<Id>, ys: seq<Id>) returns (pre: seq<Id>, suf: seq<Id>)
    requires FirstShared(db, xs, ys).Some?
    ensures xs == pre + [FirstShared(db, xs, ys).value] + suf
    ensures Shared(db, ys, FirstShared(db, xs, ys).value) && forall x :: x in pre ==> !Shared(db, ys, x)
  {
    if Shared(db, ys, xs[0]) {
      pre, suf := [], xs[1..];
    } else {
      pre, suf := SplitAtFirst(db, xs[1..], ys);
      pre := [xs[0]] + pre;
    }
  }

  lemma {:induction false} SomeFirst(db: Db, xs: seq<Id>, ys: seq<Id>, x: Id)
    requires x in xs && Shared(db, ys, x)
    ensures FirstShared(db, xs, ys).Some?
  {
    if Shared(db, ys, xs[0]) {
    } else {
      SomeFirst(db, xs[1..], ys, x);
    }
  }

  lemma Blocked(m: Mode, db: Db, xs: seq<Id>, ys: seq<Id>, a: set<Id>, b: set<Id>)
    requires xs != [] && xs[0] in b && xs[0] in db.bookings && db.bookings[xs[0]].status == PENDING
    requires ys != [] && ys[0] in a && ys[0] in db.bookings && db.bookings[ys[0]].status == PENDING
    ensures var s := Sys(db, map[0 := CleanupStart(xs, a), 1 := CleanupStart(ys, b)]); Stuck(m, s) && Deadlocked(m, s)
  {
    var s := Sys(db, map[0 := CleanupStart(xs, a), 1 := CleanupStart(ys, b)]);
    assert BookingRow(xs[0]) in Held(s.txns[1]) && BookingRow(xs[0]) in Needs(m, db, s.txns[0]);
    assert BookingRow(ys[0]) in Held(s.txns[0]) && BookingRow(ys[0]) in Needs(m, db, s.txns[1]);
  }

  ghost predicate AllPendingIn(db: Db, ids: set<Id>) {
    forall x :: x in ids ==> x in db.bookings && db.bookings[x].status == PENDING
  }

  /** Two cleanups that each still want a booking the other has locked run into each other. */
  lemma RunIntoEachOther(m: Mode, s0: Sys, db: Db, xs: seq<Id>, ys: seq<Id>, a: set<Id>, b: set<Id>) returns (s: Sys)
    requires Gets(m, s0, Sys(db, map[0 := CleanupStart(xs, a), 1 := CleanupStart(ys, b)]))
    requires AllPendingIn(db, a) && AllPendingIn(db, b)
    requires (exists x :: x in xs && x in b) && (exists y :: y in ys && y in a)
    ensures Gets(m, s0, s) && Stuck(m, s) && Deadlocked(m, s)
  {
    hide Gets, Stuck, Deadlocked;
    var midX, restX := UpTo(xs, b);
    var s1 := Sys(db, map[0 := CleanupStart(xs, a), 1 := CleanupStart(ys, b)]);
    LocksPrefix(m, s0, s1, 0, midX, restX, a);
    var a' := a + PendingOf(db, midX);
    var s2 := Sys(db, map[0 := CleanupStart(restX, a'), 1 := CleanupStart(ys, b)]);
    assert s1.txns[0 := CleanupStart(restX, a')] == s2.txns;
    var midY, restY := UpTo(ys, a');
    LocksPrefix(m, s0, s2, 1, midY, restY, b);
    var b' := b + PendingOf(db, midY);
    s := Sys(db, map[0 := CleanupStart(restX, a'), 1 := CleanupStart(restY, b')]);
    assert s2.txns[1 := CleanupStart(restY, b')] == s.txns;
    Blocked(m, db, restX, restY, a', b');
  }

  /** Each locks the first booking the other wants as well, and then runs into the other's. */
  lemma CrossedBlock(m: Mode, db: Db, xs: seq<Id>, ys: seq<Id>) returns (s: Sys)
    requires FirstShared(db, xs, ys) != FirstShared(db, ys, xs)
    ensures Gets(m, Both(db, xs, ys), s) && Stuck(m, s) && Deadlocked(m, s)
  {
    hide Gets, Stuck, FirstShared, Deadlocked;
    var s0 := Both(db, xs, ys);
    BothHaveFirst(db, xs, ys);
    var a, b := FirstShared(db, xs, ys).value, FirstShared(db, ys, xs).value;
    var preX, sufX := SplitAtFirst(db, xs, ys);
    var preY, sufY := SplitAtFirst(db, ys, xs);
    var lockedX, lockedY := PendingOf(db, preX + [a]), PendingOf(db, preY + [b]);
    GetsNowhere(m, s0);
    LocksPrefix(m, s0, s0, 0, preX + [a], sufX, {});
    var s1 := Sys(db, map[0 := CleanupStart(sufX, lockedX), 1 := CleanupStart(ys, {})]);
    assert {} + lockedX == lockedX && s0.txns[0 := CleanupStart(sufX, lockedX)] == s1.txns;
    OnlyFirstIsLocked(db, preX, a, ys);
    assert forall x :: x in PendingOf(db, preY + [b]) ==> x !in lockedX;
    LocksPrefix(m, s0, s1, 1, preY + [b], sufY, {});
    assert {} + lockedY == lockedY;
    assert s1.txns[1 := CleanupStart(sufY, lockedY)]
        == map[0 := CleanupStart(sufX, lockedX), 1 := CleanupStart(sufY, lockedY)];
    assert b in sufX && b in lockedY && a in sufY && a in lockedX;
    s := RunIntoEachOther(m, s0, db, sufX, sufY, lockedX, lockedY);
  }

  lemma BothHaveFirst(db: Db, xs: seq<Id>, ys: seq<Id>)
    requires FirstShared(db, xs, ys) != FirstShared(db, ys, xs)
    ensures FirstShared(db, xs, ys).Some? && FirstShared(db, ys, xs).Some?
  {
    if FirstShared(db, xs, ys).Some? {
      var pre, suf := SplitAtFirst(db, xs, ys);
      SomeFirst(db, ys, xs, FirstShared(db, xs, ys).value);
    } else {
      var pre, suf := SplitAtFirst(db, ys, xs);
      SomeFirst(db, xs, ys, FirstShared(db, ys, xs).value);
    }
  }

  lemma OnlyFirstIsLocked(db: Db, pre: seq<Id>, a: Id, ys: seq<Id>)
    requires forall x :: x in pre ==> !Shared(db, ys, x)
    ensures forall x :: x in PendingOf(db, pre + [a]) && x in ys ==> x == a
  {
  }

  // ---- The same first booking, or none, does not ----

  /** Where a cleanup is that has the database it started with. */
  ghost predicate Along(db: Db, xs: seq<Id>, t: Txn) {
    match t
    case CleanupStart(ids, stale) => exists pre :: xs == pre + ids && stale == PendingOf(db, pre)
    case CleanupSlots(stale, _, _) => stale == PendingOf(db, xs)
    case CleanupChecked(stale, _, _) => stale == PendingOf(db, xs)
    case _ => false
  }

  lemma NextAlong(m: Mode, db: Db, xs: seq<Id>, t: Txn, c: Choice)
    requires Along(db, xs, t) && Commits(m, db, t, c).None? && Next(m, db, t, c).Some?
    ensures Along(db, xs, Next(m, db, t, c).value)
  {
    hide Releasable, OthersActive;
    if t.CleanupStart? {
      var pre :| xs == pre + t.ids && t.stale == PendingOf(db, pre);
      if t.ids == [] {
        assert xs == pre;
      } else {
        var x := t.ids[0];
        assert xs == (pre + [x]) + t.ids[1..];
        PendingSplits(db, pre, [x]);
        var t' := Next(m, db, t, c).value;
        assert t'.stale == PendingOf(db, pre + [x]);
      }
    }
  }

  /** A state two cleanups can be in: both under way, or one of them done. */
  ghost predicate Pair(m: Mode, db: Db, xs: seq<Id>, ys: seq<Id>, s: Sys) {
    Inv(m, s) && s.txns.Keys <= {0, 1} && (forall t :: t in s.txns ==> IsCleanup(s.txns[t])) &&
    (0 in s.txns && 1 in s.txns ==> s.db == db && Along(db, xs, s.txns[0]) && Along(db, ys, s.txns[1]))
  }

  lemma PairSteps(m: Mode, db: Db, xs: seq<Id>, ys: seq<Id>, s: Sys, a: Action)
    requires Pair(m, db, xs, ys, s) && a.Advance? && Can(m, s, a)
    ensures Pair(m, db, xs, ys, Do(m, s, a))
  {
    hide Inv, Along, Commit, Effect;
    StepKeepsInv(m, s, a);
    var t := s.txns[a.tid];
    if Commits(m, s.db, t, a.choice).None? && Next(m, s.db, t, a.choice).Some? {
      NextIsCloser(m, s.db, t, a.choice);
      if 0 in s.txns && 1 in s.txns { NextAlong(m, db, if a.tid == 0 then xs else ys, t, a.choice); }
    }
  }

  lemma {:induction false} PairRuns(m: Mode, db: Db, xs: seq<Id>, ys: seq<Id>, s: Sys, acts: seq<Action>)
    requires Pair(m, db, xs, ys, s) && OnlyAdvances(acts) && CanAll(m, s, acts)
    ensures Pair(m, db, xs, ys, DoAll(m, s, acts))
  {
    hide Pair, Can, Do;
    if acts == [] {
    } else {
      var init := acts[..|acts| - 1];
      assert forall a :: a in init ==> a in acts;
      PairRuns(m, db, xs, ys, s, init);
      PairSteps(m, db, xs, ys, DoAll(m, s, init), acts[|acts| - 1]);
    }
  }

  /** A cleanup that has locked a booking the other wants has locked the first such booking. */
  lemma {:induction false} FirstIsLocked(db: Db, pre: seq<Id>, rest: seq<Id>, ys: seq<Id>, y: Id)
    requires y in PendingOf(db, pre) && y in ys
    ensures FirstShared(db, pre + rest, ys).Some? && FirstShared(db, pre + rest, ys).value in PendingOf(db, pre)
  {
    var x := pre[0];
    assert (pre + rest)[0] == x && (pre + rest)[1..] == pre[1..] + rest;
    if Shared(db, ys, x) {
    } else {
      assert pre == [x] + pre[1..];
      FirstIsLocked(db, pre[1..], rest, ys, y);
    }
  }

  lemma LocksAreExclusive(m: Mode, s: Sys)
    requires Inv(m, s)
    ensures Exclusive(s)
  {
  }

  /** Of two cleanups that wait for each other's bookings, each has locked its first shared one. */
  lemma WaitingForEachOther(m: Mode, db: Db, xs: seq<Id>, ys: seq<Id>, s: Sys)
    requires Pair(m, db, xs, ys, s) && WaitsFor(m, s, 0, 1) && WaitsFor(m, s, 1, 0)
    ensures FirstShared(db, xs, ys) != FirstShared(db, ys, xs)
  {
    hide Inv, FirstShared;
    var t, u := s.txns[0], s.txns[1];
    if t.CleanupSlots? { SlotsApart(m, s, 0, 1); }
    if u.CleanupSlots? { SlotsApart(m, s, 1, 0); }
    assert t.CleanupStart? && u.CleanupStart?;
    var preX :| xs == preX + t.ids && t.stale == PendingOf(db, preX);
    var preY :| ys == preY + u.ids && u.stale == PendingOf(db, preY);
    FirstIsLocked(db, preX, t.ids, ys, u.ids[0]);
    FirstIsLocked(db, preY, u.ids, xs, t.ids[0]);
    LocksAreExclusive(m, s);
    BatchesApart(s, 0, 1);
  }

  lemma PairIsNotStuck(m: Mode, db: Db, xs: seq<Id>, ys: seq<Id>, s: Sys)
    requires Pair(m, db, xs, ys, s) && FirstShared(db, xs, ys) == FirstShared(db, ys, xs)
    ensures !Stuck(m, s)
  {
    hide Inv, FirstShared, Held, Needs;
    if s.txns != map[] {
      var t :| t in s.txns;
      var c := SomeChoice(s.db, s.txns[t]);
      if !CanAdvance(m, s, t, c) {
        var u := 1 - t;
        assert WaitsFor(m, s, t, u);
        var d := SomeChoice(s.db, s.txns[u]);
        if !CanAdvance(m, s, u, d) {
          assert WaitsFor(m, s, u, t);
          WaitingForEachOther(m, db, xs, ys, s);
        }
      }
    }
  }

  lemma BothIsPair(m: Mode, db: Db, xs: seq<Id>, ys: seq<Id>)
    requires Consistent(db)
    ensures Pair(m, db, xs, ys, Both(db, xs, ys))
  {
    hide Consistent;
    StartInv(m, db);
    var s := Both(db, xs, ys);
    assert Anchored(s) by {
      forall k | k in db.slots && db.slots[k].isBooked
        ensures HasHolder(s, k, {})
      {
        var e :| e !in {} && Holds(Sys(db, map[]), e, k);
        assert Holds(s, e, k);
      }
    }
    assert xs == [] + xs && ys == [] + ys && PendingOf(db, []) == {};
  }

  /** As long as nobody else commits: two overlapping cleanups can block each other for good if and
      only if the first booking of either list that the other still wants, too, is not the same for
      both. */
  lemma AloneBlockIff(m: Mode, db: Db, xs: seq<Id>, ys: seq<Id>)
    requires Consistent(db)
    ensures CanBlockAlone(m, Both(db, xs, ys)) <==> FirstShared(db, xs, ys) != FirstShared(db, ys, xs)
  {
    hide Consistent, FirstShared, Stuck, Pair, Both, Deadlocked;
    if FirstShared(db, xs, ys) != FirstShared(db, ys, xs) {
      var s' := CrossedBlock(m, db, xs, ys);
    } else if CanBlockAlone(m, Both(db, xs, ys)) {
      var s' :| Gets(m, Both(db, xs, ys), s') && Stuck(m, s');
      var acts :| OnlyAdvances(acts) && CanAll(m, Both(db, xs, ys), acts) && DoAll(m, Both(db, xs, ys), acts) == s';
      BothIsPair(m, db, xs, ys);
      PairRuns(m, db, xs, ys, Both(db, xs, ys), acts);
      PairIsNotStuck(m, db, xs, ys, s');
    }
  }

  // ---- Whatever else runs: two bookings in opposite orders ----

  predicate DistinctIds(xs: seq<Id>) {
    forall i, j :: 0 <= i < j < |xs| ==> xs[i] != xs[j]
  }

  /** x comes before y. */
  predicate Precedes(xs: seq<Id>, x: Id, y: Id) {
    exists i, j :: 0 <= i < j < |xs| && xs[i] == x && xs[j] == y
  }

  /** Two PENDING bookings that the lists have in opposite orders. */
  predicate Opposed(db: Db, xs: seq<Id>, ys: seq<Id>, x: Id, y: Id) {
    x in PendingOf(db, xs) && y in PendingOf(db, xs) && Precedes(xs, x, y) && Precedes(ys, y, x)
  }

  ghost predicate Disagree(db: Db, xs: seq<Id>, ys: seq<Id>) {
    exists x, y :: Opposed(db, xs, ys, x, y)
  }

  /** Bookings stay on their slots, and none becomes PENDING again. */
  ghost predicate Since(db: Db, db': Db) {
    forall b :: b in db.bookings ==>
      b in db'.bookings && db'.bookings[b].slot == db.bookings[b].slot &&
      (db'.bookings[b].status == PENDING ==> db.bookings[b].status == PENDING)
  }

  lemma SinceStep(db0: Db, m: Mode, s: Sys, a: Action)
    requires Since(db0, s.db) && Pinned(s) && Can(m, s, a)
    ensures Since(db0, Do(m, s, a).db)
  {
    hide Pinned, Can, Effect, Do;
    StepIsEffect(m, s, a);
    if StepLabel(m, s, a).Some? {
      CreatesAfresh(m, s, a);
      NothingPendsAgain(s.db, StepLabel(m, s, a).value);
      RowsStay(s.db, StepLabel(m, s, a).value);
    }
  }

  lemma CreatesAfresh(m: Mode, s: Sys, a: Action)
    requires Can(m, s, a) && StepLabel(m, s, a).Some?
    ensures StepLabel(m, s, a).value.Created? ==> StepLabel(m, s, a).value.id !in s.db.bookings
  {
  }

  lemma NothingPendsAgain(db: Db, l: Label)
    requires l.Created? ==> l.id !in db.bookings
    ensures var after := Effect(db, l).bookings;
            forall b :: b in db.bookings && b in after && after[b].status == PENDING ==>
              db.bookings[b].status == PENDING
  {
  }

  /** Where a cleanup is, whatever has happened to the bookings it has gone past. */
  ghost predicate Through(db0: Db, xs: seq<Id>, t: Txn) {
    match t
    case CleanupStart(ids, stale) => exists pre :: xs == pre + ids && stale <= Elems(pre)
    case CleanupSlots(stale, keys, held) =>
      stale <= Elems(xs) && (set k | k in keys) <= SlotsOf(db0, stale) && held <= SlotsOf(db0, stale)
    case CleanupChecked(stale, held, _) => stale <= Elems(xs) && held <= SlotsOf(db0, stale)
    case _ => false
  }

  lemma NextThrough(m: Mode, db0: Db, db: Db, xs: seq<Id>, t: Txn, c: Choice)
    requires Through(db0, xs, t) && Since(db0, db) && Elems(xs) <= db0.bookings.Keys && ChoiceOk(db, t, c)
    requires Commits(m, db, t, c).None? && Next(m, db, t, c).Some?
    ensures Through(db0, xs, Next(m, db, t, c).value)
  {
    if t.CleanupStart? {
      StartNextThrough(m, db0, db, xs, t, c);
    } else {
      hide Releasable, OthersActive, Elems, SlotsOf, HasLiveBooking, SlotTaken;
    }
  }

  lemma StartNextThrough(m: Mode, db0: Db, db: Db, xs: seq<Id>, t: Txn, c: Choice)
    requires Through(db0, xs, t) && Since(db0, db) && Elems(xs) <= db0.bookings.Keys && ChoiceOk(db, t, c)
    requires t.CleanupStart? && Next(m, db, t, c).Some?
    ensures Through(db0, xs, Next(m, db, t, c).value)
  {
    hide Releasable, OthersActive;
    var pre :| xs == pre + t.ids && t.stale <= Elems(pre);
    if t.ids == [] {
      assert xs == pre;
      assert SlotsOf(db, t.stale) <= SlotsOf(db0, t.stale);
    } else {
      var x := t.ids[0];
      assert xs == (pre + [x]) + t.ids[1..];
      assert Elems(pre + [x]) == Elems(pre) + {x};
    }
  }

  /** The cleanups on their way, or gone. */
  ghost predicate OnTheirWay(db0: Db, lists: seq<seq<Id>>, s: Sys) {
    Pinned(s) && Since(db0, s.db) &&
    forall t :: 0 <= t < |lists| && t in s.txns ==> Through(db0, lists[t], s.txns[t])
  }

  predicate OnBookings(db: Db, lists: seq<seq<Id>>) {
    forall t :: 0 <= t < |lists| ==> Elems(lists[t]) <= db.bookings.Keys
  }

  lemma WayStep(m: Mode, db0: Db, lists: seq<seq<Id>>, s: Sys, a: Action)
    requires OnTheirWay(db0, lists, s) && Can(m, s, a) && (a.Begin? ==> a.tid >= |lists|) && OnBookings(db0, lists)
    ensures OnTheirWay(db0, lists, Do(m, s, a))
  {
    hide Pinned, Since, Through, Next, Commits, Commit, ChoiceOk, Unlocked;
    StepPinned(m, s, a);
    SinceStep(db0, m, s, a);
    if a.Advance? && a.tid < |lists| {
      var t := s.txns[a.tid];
      if Commits(m, s.db, t, a.choice).None? && Next(m, s.db, t, a.choice).Some? {
        NextThrough(m, db0, s.db, lists[a.tid], t, a.choice);
      }
    }
  }

  lemma {:induction false} WayRun(m: Mode, db0: Db, lists: seq<seq<Id>>, s: Sys, acts: seq<Action>)
    requires OnTheirWay(db0, lists, s) && NoRestart(|lists|, acts) && CanAll(m, s, acts) && OnBookings(db0, lists)
    ensures OnTheirWay(db0, lists, DoAll(m, s, acts))
  {
    hide OnTheirWay, Can, Do;
    if acts == [] {
    } else {
      var init := acts[..|acts| - 1];
      assert forall a :: a in init ==> a in acts;
      WayRun(m, db0, lists, s, init);
      WayStep(m, db0, lists, DoAll(m, s, init), acts[|acts| - 1]);
    }
  }

  lemma StartThrough(db: Db, xs: seq<Id>)
    ensures Through(db, xs, CleanupStart(xs, {}))
  {
    assert xs == [] + xs;
  }

  lemma BothOnTheirWay(db: Db, xs: seq<Id>, ys: seq<Id>)
    ensures OnTheirWay(db, [xs, ys], Both(db, xs, ys))
  {
    StartThrough(db, xs);
    StartThrough(db, ys);
  }

  /** Cleanups whose bookings were PENDING on a consistent database do not meet at a slot: one that is
      waited for by another, and waits itself, does so for a booking, and so does the other. */
  lemma NoMeetingAtSlots(m: Mode, db0: Db, lists: seq<seq<Id>>, s: Sys, t: nat, u: nat)
    requires NoDoubleBooking(db0) && OnTheirWay(db0, lists, s) && OnBookings(db0, lists)
    requires t < |lists| && u < |lists| && WaitsFor(m, s, t, u) && Needs(m, s.db, s.txns[u]) != {}
    ensures s.txns[t].CleanupStart?
  {
    hide NoDoubleBooking;
    var x, y := s.txns[t], s.txns[u];
    BatchesApart(s, t, u);
    if !x.CleanupStart? {
      assert x.stale <= Elems(lists[t]) && y.stale <= Elems(lists[u]);
      assert AllPending(db0, x.stale) && AllPending(db0, y.stale);
      BatchSlotsApart(db0, x.stale, y.stale);
    }
  }

  /** Of two cleanups that wait for each other, each has gone past the booking the other wants next. */
  lemma DeadlockDisagrees(m: Mode, db0: Db, xs: seq<Id>, ys: seq<Id>, s: Sys)
    requires NoDoubleBooking(db0) && OnTheirWay(db0, [xs, ys], s) && Deadlocked(m, s) && OnBookings(db0, [xs, ys])
    ensures Disagree(db0, xs, ys)
  {
    hide NoDoubleBooking;
    NoMeetingAtSlots(m, db0, [xs, ys], s, 0, 1);
    NoMeetingAtSlots(m, db0, [xs, ys], s, 1, 0);
    var t, u := s.txns[0], s.txns[1];
    assert Through(db0, [xs, ys][0], t) && Through(db0, [xs, ys][1], u);
    var preX :| xs == preX + t.ids && t.stale <= Elems(preX);
    var preY :| ys == preY + u.ids && u.stale <= Elems(preY);
    var x, y := u.ids[0], t.ids[0];
    assert x in t.stale && y in u.stale;
    GonePast(preX, t.ids, x);
    GonePast(preY, u.ids, y);
    assert Elems([xs, ys][0]) <= db0.bookings.Keys;
    assert Opposed(db0, xs, ys, x, y);
  }

  lemma GonePast(pre: seq<Id>, ids: seq<Id>, x: Id)
    requires x in Elems(pre) && ids != []
    ensures Precedes(pre + ids, x, ids[0]) && x in Elems(pre + ids) && ids[0] in Elems(pre + ids)
  {
    var i :| 0 <= i < |pre| && pre[i] == x;
    assert (pre + ids)[i] == x && (pre + ids)[|pre|] == ids[0];
  }

  // ---- The way into it: somebody cancels what they agree on ----

  lemma GoesNowhere(m: Mode, n: nat, s: Sys)
    ensures Goes(m, n, s, s)
  {
    assert NoRestart(n, []) && CanAll(m, s, []) && DoAll(m, s, []) == s;
  }

  lemma GoesOn(m: Mode, n: nat, s: Sys, s': Sys, a: Action)
    requires Goes(m, n, s, s') && Can(m, s', a) && (a.Begin? ==> a.tid >= n)
    ensures Goes(m, n, s, Do(m, s', a))
  {
    hide Do, Can;
    var acts :| NoRestart(n, acts) && CanAll(m, s, acts) && DoAll(m, s, acts) == s';
    ExtendRun(m, s, acts, a);
    assert NoRestart(n, acts + [a]);
  }

  lemma GoesThenGets(m: Mode, n: nat, s0: Sys, s: Sys, s': Sys)
    requires Goes(m, n, s0, s) && Gets(m, s, s')
    ensures Goes(m, n, s0, s')
  {
    var xs :| NoRestart(n, xs) && CanAll(m, s0, xs) && DoAll(m, s0, xs) == s;
    var ys :| OnlyAdvances(ys) && CanAll(m, s, ys) && DoAll(m, s, ys) == s';
    JoinRuns(m, s0, xs, ys);
    assert NoRestart(n, xs + ys);
  }

  /** Transactions below n that have locked nothing. */
  predicate Idle(n: nat, txns: map<Id, Txn>) {
    forall t :: t in txns ==> t < n && Held(txns[t]) == {}
  }

  lemma CancelMoves(m: Mode, n: nat, s0: Sys, db: Db, txns: map<Id, Txn>, t: Txn, c: Choice)
    requires Idle(n, txns) && Goes(m, n, s0, Sys(db, txns[n := t])) && ChoiceOk(db, t, c)
    requires Commits(m, db, t, c).None? && Next(m, db, t, c).Some?
    ensures Goes(m, n, s0, Sys(db, txns[n := Next(m, db, t, c).value]))
  {
    hide Goes;
    var s := Sys(db, txns[n := t]);
    GoesOn(m, n, s0, s, Advance(n, c));
    assert s.txns[n := Next(m, db, t, c).value] == txns[n := Next(m, db, t, c).value];
  }

  /** A user cancels a booking before any of the cleanups has locked anything. */
  lemma CancelBeside(m: Mode, n: nat, s0: Sys, db: Db, txns: map<Id, Txn>, b: Id)
    requires Idle(n, txns) && Goes(m, n, s0, Sys(db, txns)) && b in db.bookings && db.bookings[b].status != CANCELLED
    ensures Goes(m, n, s0, Sys(CancelOne(db, b), txns))
  {
    hide Goes, Effect;
    var c := SomeChoice(db, CancelStart(b));
    var k := db.bookings[b].slot;
    GoesOn(m, n, s0, Sys(db, txns), Begin(n, CancelStart(b)));
    CancelMoves(m, n, s0, db, txns, CancelStart(b), c);
    CancelMoves(m, n, s0, db, txns, CancelLocked(b, k), c);
    CancelMoves(m, n, s0, db, txns, CancelSlot(b, k), c);
    var t := CancelChecked(b, k, !OthersActive(db, k, {b}));
    var last := Sys(db, txns[n := t]);
    GoesOn(m, n, s0, last, Advance(n, c));
    assert last.txns - {n} == txns;
  }

  lemma StillThere(db: Db, ids: seq<Id>, b: Id)
    requires b in db.bookings && b !in ids && forall i :: 0 <= i < |ids| ==> ids[i] in db.bookings
    ensures b in CancelInOrder(db, ids).bookings && CancelInOrder(db, ids).bookings[b] == db.bookings[b]
  {
    BatchIsOneAtATime(db, ids);
  }

  lemma {:induction false} CancelsBeside(m: Mode, n: nat, db: Db, txns: map<Id, Txn>, ids: seq<Id>)
    requires Idle(n, txns) && DistinctIds(ids)
    requires forall i :: 0 <= i < |ids| ==> ids[i] in db.bookings && db.bookings[ids[i]].status != CANCELLED
    ensures Goes(m, n, Sys(db, txns), Sys(CancelInOrder(db, ids), txns))
  {
    hide Goes, CancelOne, Idle;
    if ids == [] {
      GoesNowhere(m, n, Sys(db, txns));
    } else {
      var k := |ids| - 1;
      var init := ids[..k];
      CancelsBeside(m, n, db, txns, init);
      StillThere(db, init, ids[k]);
      CancelBeside(m, n, Sys(db, txns), CancelInOrder(db, init), txns, ids[k]);
    }
  }

  lemma FirstOfTwo(db: Db, xs: seq<Id>, ys: seq<Id>, x: Id, y: Id)
    requires DistinctIds(xs) && Precedes(xs, x, y)
    requires Shared(db, ys, x) && forall z :: z in xs && Shared(db, ys, z) ==> z == x || z == y
    ensures FirstShared(db, xs, ys) == Some(x)
  {
    SomeFirst(db, xs, ys, x);
    var pre, suf := SplitAtFirst(db, xs, ys);
    var v := FirstShared(db, xs, ys).value;
    var i, j :| 0 <= i < j < |xs| && xs[i] == x && xs[j] == y;
    assert xs[|pre|] == v && (forall k :: 0 <= k < |pre| ==> xs[k] == pre[k]);
    assert |pre| <= i;
  }

  lemma BothIdle(db: Db, xs: seq<Id>, ys: seq<Id>)
    ensures Idle(2, Both(db, xs, ys).txns)
  {
  }

  lemma SameTxns(db: Db, db': Db, xs: seq<Id>, ys: seq<Id>)
    ensures Both(db, xs, ys) == Sys(db, Both(db, xs, ys).txns)
    ensures Both(db', xs, ys) == Sys(db', Both(db, xs, ys).txns)
  {
  }

  /** What two lists agree on can be cancelled away, down to two bookings they do not agree on. */
  lemma OpposedBlock(m: Mode, db: Db, xs: seq<Id>, ys: seq<Id>, x: Id, y: Id)
    requires DistinctIds(xs) && DistinctIds(ys) && Opposed(db, xs, ys, x, y)
    ensures CanBlock(m, Both(db, xs, ys))
  {
    hide Goes, Gets, Stuck, Deadlocked, Both, FirstShared, CancelBatch;
    var others := PendingOf(db, xs) * PendingOf(db, ys) - {x, y};
    var ids := ListOf(others);
    assert forall i :: 0 <= i < |ids| ==> ids[i] in Elems(ids);
    assert Idle(2, Both(db, xs, ys).txns) by { BothIdle(db, xs, ys); }
    CancelsBeside(m, 2, db, Both(db, xs, ys).txns, ids);
    var db' := CancelInOrder(db, ids);
    LeftPending(db, xs, ys, x, y, ids);
    FirstOfTwo(db', xs, ys, x, y);
    FirstOfTwo(db', ys, xs, y, x);
    Different(xs, x, y);
    var s := CrossedBlock(m, db', xs, ys);
    SameTxns(db, db', xs, ys);
    GoesThenGets(m, 2, Both(db, xs, ys), Both(db', xs, ys), s);
  }

  lemma Different(xs: seq<Id>, x: Id, y: Id)
    requires DistinctIds(xs) && Precedes(xs, x, y)
    ensures x != y
  {
  }

  lemma LeftPending(db: Db, xs: seq<Id>, ys: seq<Id>, x: Id, y: Id, ids: seq<Id>)
    requires Opposed(db, xs, ys, x, y) && Elems(ids) == PendingOf(db, xs) * PendingOf(db, ys) - {x, y}
    ensures var db' := CancelInOrder(db, ids);
            Shared(db', ys, x) && Shared(db', xs, y) &&
            (forall z :: z in xs && Shared(db', ys, z) ==> z == x || z == y) &&
            (forall z :: z in ys && Shared(db', xs, z) ==> z == x || z == y)
  {
    assert forall i :: 0 <= i < |ids| ==> ids[i] in Elems(ids);
    BatchIsOneAtATime(db, ids);
    var db' := CancelBatch(db, Elems(ids));
    assert forall b :: b in db.bookings <==> b in db'.bookings;
    assert forall b :: b in db.bookings && b !in Elems(ids) ==> db'.bookings[b] == db.bookings[b];
    assert forall b :: b in db.bookings && b in Elems(ids) ==> db'.bookings[b].status == CANCELLED;
  }

  /** Two overlapping cleanups can come to wait for each other, in some run in which anything else may
      happen beside them, if and only if their lists have some two PENDING bookings in opposite
      orders. */
  lemma TwoCleanupsBlockIff(m: Mode, db: Db, xs: seq<Id>, ys: seq<Id>)
    requires Consistent(db) && DistinctIds(xs) && DistinctIds(ys)
    requires Elems(xs) <= db.bookings.Keys && Elems(ys) <= db.bookings.Keys
    ensures CanBlock(m, Both(db, xs, ys)) <==> Disagree(db, xs, ys)
  {
    hide Deadlocked, Both, Opposed, OnTheirWay, PaidIfConfirmed, Sandwich, Keys;
    if x, y :| Opposed(db, xs, ys, x, y) {
      OpposedBlock(m, db, xs, ys, x, y);
    } else if CanBlock(m, Both(db, xs, ys)) {
      var s :| Goes(m, 2, Both(db, xs, ys), s) && Deadlocked(m, s);
      var acts :| NoRestart(2, acts) && CanAll(m, Both(db, xs, ys), acts) && DoAll(m, Both(db, xs, ys), acts) == s;
      BothOnTheirWay(db, xs, ys);
      assert OnBookings(db, [xs, ys]);
      WayRun(m, db, [xs, ys], Both(db, xs, ys), acts);
      DeadlockDisagrees(m, db, xs, ys, s);
    }
  }

  lemma FirstDifference(xs: seq<Id>, ys: seq<Id>) returns (i: nat)
    requires |xs| == |ys| && xs != ys
    ensures i < |xs| && xs[i] != ys[i] && xs[..i] == ys[..i]
  {
    i := 0;
    while xs[i] == ys[i]
      invariant 0 <= i < |xs| && xs[..i] == ys[..i] && exists j :: i <= j < |xs| && xs[j] != ys[j]
      decreases |xs| - i
    {
      i := i + 1;
    }
  }

  lemma {:induction false} SameSize(xs: seq<Id>)
    requires DistinctIds(xs)
    ensures |Elems(xs)| == |xs|
  {
    if xs == [] {
      assert Elems(xs) == {};
    } else {
      var init, x := xs[..|xs| - 1], xs[|xs| - 1];
      SameSize(init);
      assert xs == init + [x] && x !in Elems(init);
      assert Elems(xs) == Elems(init) + {x};
    }
  }

  lemma Reordered(db: Db, xs: seq<Id>, ys: seq<Id>)
    requires DistinctIds(xs) && DistinctIds(ys) && Elems(xs) == Elems(ys) && Elems(xs) == PendingOf(db, xs) && xs != ys
    ensures Disagree(db, xs, ys)
  {
    SameSize(xs);
    SameSize(ys);
    var i := FirstDifference(xs, ys);
    var x, y := xs[i], ys[i];
    assert x in Elems(xs) && y in Elems(ys);
    assert x in Elems(ys) && y in Elems(xs);
    var k :| 0 <= k < |ys| && ys[k] == x;
    var l :| 0 <= l < |xs| && xs[l] == y;
    assert forall j :: 0 <= j < i ==> xs[j] == xs[..i][j] && ys[j] == ys[..i][j];
    assert Precedes(xs, x, y) && Precedes(ys, y, x);
    assert Opposed(db, xs, ys, x, y);
  }

  /** So cleanups that have read the same candidates are safe from each other if and only if they lock
      them in the same order. */
  lemma SameCandidatesBlockIff(m: Mode, db: Db, xs: seq<Id>, ys: seq<Id>, cutoff: int)
    requires Consistent(db) && DistinctIds(xs) && DistinctIds(ys)
    requires Elems(xs) == Stale(db, cutoff) && Elems(ys) == Stale(db, cutoff)
    ensures CanBlock(m, Both(db, xs, ys)) <==> xs != ys
  {
    hide Consistent, CanBlock, Both;
    assert PendingOf(db, xs) == Elems(xs);
    TwoCleanupsBlockIff(m, db, xs, ys);
    if xs != ys { Reordered(db, xs, ys); }
  }

  // ---- It lasts ----

  /** Nothing but an abort of one of the two, which PostgreSQL's deadlock detection would bring about,
      ends the wait. */
  lemma DeadlockLasts(m: Mode, s: Sys, a: Action)
    requires Pinned(s) && Deadlocked(m, s) && s.txns[0].CleanupStart? && s.txns[1].CleanupStart?
    requires Can(m, s, a) && a != Abort(0) && a != Abort(1)
    ensures Deadlocked(m, Do(m, s, a))
  {
    hide Commit, Effect, Guard;
    StepPinned(m, s, a);
    var s' := Do(m, s, a);
    var x, y := s.txns[0].ids[0], s.txns[1].ids[0];
    assert BookingRow(x) in Held(s.txns[1]) && BookingRow(x) in Needs(m, s.db, s.txns[0]);
    assert BookingRow(y) in Held(s.txns[0]) && BookingRow(y) in Needs(m, s.db, s.txns[1]);
    assert s'.txns[0] == s.txns[0] && s'.txns[1] == s.txns[1];
    assert Pins(s'.db, s'.txns[0]) && Pins(s'.db, s'.txns[1]);
    assert BookingRow(x) in Needs(m, s'.db, s'.txns[0]) && BookingRow(y) in Needs(m, s'.db, s'.txns[1]);
  }

  lemma BeginBoth(m: Mode, db: Db, xs: seq<Id>, ys: seq<Id>)
    requires BeginOk(db, CleanupStart(xs, {})) && BeginOk(db, CleanupStart(ys, {}))
    ensures Reaches(m, Sys(db, map[]), Both(db, xs, ys))
  {
    hide BeginOk, Reaches;
    var s0, s1 := Sys(db, map[]), Sys(db, map[0 := CleanupStart(xs, {})]);
    Reached(m, s0);
    ReachStep(m, s0, s0, Begin(0, CleanupStart(xs, {})));
    assert Do(m, s0, Begin(0, CleanupStart(xs, {}))) == s1;
    ReachStep(m, s0, s1, Begin(1, CleanupStart(ys, {})));
    assert Do(m, s1, Begin(1, CleanupStart(ys, {}))) == Both(db, xs, ys);
  }

  lemma ReachOn(m: Mode, s0: Sys, s: Sys, s': Sys)
    requires Reaches(m, s0, s) && Gets(m, s, s')
    ensures Reaches(m, s0, s')
  {
    var xs :| CanAll(m, s0, xs) && DoAll(m, s0, xs) == s;
    var ys :| OnlyAdvances(ys) && CanAll(m, s, ys) && DoAll(m, s, ys) == s';
    JoinRuns(m, s0, xs, ys);
  }

  /** Whenever two bookings or more are stale, two overlapping cleanups that lock them in different
      orders can end up in a state in which nobody can move. */
  lemma TwoCleanupsCanDeadlock(m: Mode, db: Db, a: Id, b: Id, cutoff: int) returns (s: Sys)
    requires a != b && a in Stale(db, cutoff) && b in Stale(db, cutoff)
    ensures Reaches(m, Sys(db, map[]), s) && Stuck(m, s)
  {
    hide Reaches, Gets, Stuck, Deadlocked;
    var rest := ListOf(Stale(db, cutoff) - {a, b});
    var xs, ys := [a, b] + rest, [b, a] + rest;
    assert Elems(xs) == {a, b} + Elems(rest) && Elems(ys) == {a, b} + Elems(rest);
    assert Elems(xs) == Stale(db, cutoff) && Elems(ys) == Stale(db, cutoff);
    assert Shared(db, ys, a) && Shared(db, xs, b) && xs[0] == a && ys[0] == b;
    s := CrossedBlock(m, db, xs, ys);
    BeginBoth(m, db, xs, ys);
    ReachOn(m, Sys(db, map[]), Both(db, xs, ys), s);
  }
}
