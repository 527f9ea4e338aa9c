/** Exactly when any number of overlapping stale cleanups can come to wait for each other in a ring. */
module CleanupRings {
  import opened Rows
  import opened Steps
  import opened Operations
  import opened Transactions
  import opened LockOrder
  import opened CleanupDeadlock

  /** One cleanup for each list; none has locked anything. */
  function Starting(lists: seq<seq<Id>>): map<Id, Txn> {
    map t: nat | 0 <= t < |lists| :: CleanupStart(lists[t], {})
  }

  /** Some of the cleanups, all different, wait for each other in a ring. */
  ghost predicate WaitRing(m: Mode, s: Sys, n: nat, p: seq<Id>) {
    WaitPath(m, s, p) && p[0] == p[|p| - 1] && DistinctIds(p[..|p| - 1]) && forall i :: 0 <= i < |p| ==> p[i] < n
  }

  /** They can come to do so, in some run in which anything else may happen beside them. */
  ghost predicate CanWaitInRing(m: Mode, db: Db, lists: seq<seq<Id>>) {
    exists s, p :: Goes(m, |lists|, Sys(db, Starting(lists)), s) && WaitRing(m, s, |lists|, p)
  }

  predicate Pending(db: Db, b: Id) {
    b in db.bookings && db.bookings[b].status == PENDING
  }

  /** Cleanup t has the PENDING bookings x and y in this order. */
  predicate Edge(db: Db, lists: seq<seq<Id>>, t: Id, x: Id, y: Id) {
    t < |lists| && Pending(db, x) && Pending(db, y) && Precedes(lists[t], x, y)
  }

  /** Different cleanups whose orders close a ring of bookings. */
  predicate Ring(db: Db, lists: seq<seq<Id>>, ts: seq<Id>, bs: seq<Id>) {
    |ts| >= 2 && |bs| == |ts| + 1 && bs[0] == bs[|ts|] && DistinctIds(ts) &&
    forall i :: 0 <= i < |ts| ==> Edge(db, lists, ts[i], bs[i], bs[i + 1])
  }

  ghost predicate OrdersRing(db: Db, lists: seq<seq<Id>>) {
    exists ts, bs :: Ring(db, lists, ts, bs)
  }

  // ---- Who waits in a ring has such orders ----

  lemma StartingOnTheWay(db: Db, lists: seq<seq<Id>>)
    ensures OnTheirWay(db, lists, Sys(db, Starting(lists)))
  {
    forall t | 0 <= t < |lists|
      ensures Through(db, lists[t], Starting(lists)[t])
    {
      StartThrough(db, lists[t]);
    }
  }

  /** What the i-th cleanup of the ring wants next. */
  function Wanted(s: Sys, t: Id): Id {
    if t in s.txns && s.txns[t].CleanupStart? && s.txns[t].ids != [] then s.txns[t].ids[0] else 0
  }

  lemma WaitsForBooking(m: Mode, db: Db, lists: seq<seq<Id>>, s: Sys, t: nat, u: nat, v: nat)
    requires NoDoubleBooking(db) && OnTheirWay(db, lists, s) && OnBookings(db, lists)
    requires t < |lists| && u < |lists| && v < |lists| && WaitsFor(m, s, t, u) && WaitsFor(m, s, u, v)
    ensures s.txns[t].CleanupStart?
  {
    NoMeetingAtSlots(m, db, lists, s, t, u);
  }

  /** Waiting for a cleanup that waits itself means: it has gone past the booking wanted. */
  lemma WaitIsEdge(m: Mode, db: Db, lists: seq<seq<Id>>, s: Sys, t: nat, u: nat)
    requires OnTheirWay(db, lists, s) && OnBookings(db, lists) && t < |lists| && u < |lists|
    requires WaitsFor(m, s, t, u) && s.txns[t].CleanupStart? && s.txns[u].CleanupStart?
    requires Needs(m, s.db, s.txns[u]) != {}
    ensures Edge(db, lists, u, Wanted(s, t), Wanted(s, u))
  {
    var x, y := s.txns[t], s.txns[u];
    assert Through(db, lists[t], x) && Through(db, lists[u], y);
    var pre :| lists[u] == pre + y.ids && y.stale <= Elems(pre);
    assert Wanted(s, t) in y.stale;
    GonePast(pre, y.ids, Wanted(s, t));
    assert Wanted(s, u) in Elems(lists[u]) && Wanted(s, t) in Elems(lists[u]);
  }

  lemma RingHasOrders(m: Mode, db: Db, lists: seq<seq<Id>>, s: Sys, p: seq<Id>)
    requires NoDoubleBooking(db) && OnTheirWay(db, lists, s) && OnBookings(db, lists) && WaitRing(m, s, |lists|, p)
    ensures OrdersRing(db, lists)
  {
    hide NoDoubleBooking, OnTheirWay, OnBookings, Edge, WaitsFor, Wanted;
    var k := |p| - 1;
    forall i | 0 <= i < k
      ensures p[i] in s.txns && s.txns[p[i]].CleanupStart? && Needs(m, s.db, s.txns[p[i]]) != {}
    {
      var next := if i + 1 < k then p[i + 2] else p[1];
      assert WaitsFor(m, s, p[i], p[i + 1]) && WaitsFor(m, s, p[i + 1], next) by { Onwards(m, s, |lists|, p, i); }
      WaiterNeeds(m, s, p[i], p[i + 1]);
      WaitsForBooking(m, db, lists, s, p[i], p[i + 1], next);
    }
    OneInRing(m, s, |lists|, p);
    var ts, bs := p[1..], seq(k + 1, i requires 0 <= i <= k => Wanted(s, p[i]));
    forall i | 0 <= i < k
      ensures Edge(db, lists, ts[i], bs[i], bs[i + 1])
    {
      assert WaitsFor(m, s, p[i], p[i + 1]);
      assert p[i + 1] == if i + 1 < k then p[i + 1] else p[0];
      WaitIsEdge(m, db, lists, s, p[i], p[i + 1]);
    }
    RingIsDistinct(p);
    assert Ring(db, lists, ts, bs);
  }

  lemma Onwards(m: Mode, s: Sys, n: nat, p: seq<Id>, i: nat)
    requires WaitRing(m, s, n, p) && i < |p| - 1
    ensures WaitsFor(m, s, p[i], p[i + 1])
    ensures WaitsFor(m, s, p[i + 1], if i + 1 < |p| - 1 then p[i + 2] else p[1])
  {
    hide WaitsFor;
    if i + 1 < |p| - 1 {
      assert WaitsFor(m, s, p[i + 1], p[i + 1 + 1]);
    } else {
      assert WaitsFor(m, s, p[0], p[0 + 1]);
    }
  }

  lemma WaiterNeeds(m: Mode, s: Sys, t: Id, u: Id)
    requires WaitsFor(m, s, t, u)
    ensures t in s.txns && Needs(m, s.db, s.txns[t]) != {}
  {
  }

  lemma OneInRing(m: Mode, s: Sys, n: nat, p: seq<Id>)
    requires WaitRing(m, s, n, p)
    ensures |p| - 1 >= 2
  {
    assert WaitsFor(m, s, p[0], p[0 + 1]);
  }

  lemma RingIsDistinct(p: seq<Id>)
    requires |p| >= 2 && p[0] == p[|p| - 1] && DistinctIds(p[..|p| - 1])
    ensures DistinctIds(p[1..])
  {
    var q := p[..|p| - 1];
    assert forall i :: 0 <= i < |q| ==> q[i] == p[i];
  }

  // ---- A ring without shortcuts ----

  predicate InRange(lists: seq<seq<Id>>, ts: seq<Id>) {
    forall i :: 0 <= i < |ts| ==> ts[i] < |lists|
  }

  lemma RingInRange(db: Db, lists: seq<seq<Id>>, ts: seq<Id>, bs: seq<Id>)
    requires Ring(db, lists, ts, bs)
    ensures InRange(lists, ts)
  {
    forall i | 0 <= i < |ts|
      ensures ts[i] < |lists|
    {
      assert Edge(db, lists, ts[i], bs[i], bs[i + 1]);
    }
  }

  /** A list of the ring that has a third booking of the ring. */
  predicate Shortcut(lists: seq<seq<Id>>, ts: seq<Id>, bs: seq<Id>, i: nat, j: nat)
    requires i < |ts| && j < |ts| && |bs| == |ts| + 1 && ts[i] < |lists|
  {
    bs[j] in lists[ts[i]] && j != i && j != (if i + 1 < |ts| then i + 1 else 0)
  }

  lemma Rotated(db: Db, lists: seq<seq<Id>>, ts: seq<Id>, bs: seq<Id>, r: nat)
    requires Ring(db, lists, ts, bs) && r < |ts|
    ensures Ring(db, lists, ts[r..] + ts[..r], bs[r..|ts|] + bs[..r + 1])
  {
    hide Edge;
    var ts', bs' := ts[r..] + ts[..r], bs[r..|ts|] + bs[..r + 1];
    var k := |ts|;
    forall i | 0 <= i < k
      ensures Edge(db, lists, ts'[i], bs'[i], bs'[i + 1])
    {
      var o := if i < k - r then i + r else i - (k - r);
      assert ts'[i] == ts[o] && bs'[i] == bs[o] && bs'[i + 1] == bs[o + 1];
    }
    forall i, j | 0 <= i < j < k
      ensures ts'[i] != ts'[j]
    {
      var a := if i < k - r then i + r else i - (k - r);
      var b := if j < k - r then j + r else j - (k - r);
      assert ts'[i] == ts[a] && ts'[j] == ts[b] && a != b;
    }
  }

  lemma Ordered(xs: seq<Id>, x: Id, y: Id)
    requires x in xs && y in xs && x != y
    ensures Precedes(xs, x, y) || Precedes(xs, y, x)
  {
    var i :| 0 <= i < |xs| && xs[i] == x;
    var j :| 0 <= j < |xs| && xs[j] == y;
  }

  lemma PrecedesOn(xs: seq<Id>, x: Id, y: Id, z: Id)
    requires DistinctIds(xs) && Precedes(xs, x, y) && Precedes(xs, y, z)
    ensures Precedes(xs, x, z)
  {
  }

  lemma DistinctPart(ts: seq<Id>, i: nat, j: nat)
    requires DistinctIds(ts) && i <= j <= |ts|
    ensures DistinctIds(ts[i..j]) && forall x :: x in ts[i..j] ==> exists l :: i <= l < j && ts[l] == x
  {
  }

  /** The arc of the ring from i to j. */
  lemma Arc(db: Db, lists: seq<seq<Id>>, ts: seq<Id>, bs: seq<Id>, i: nat, j: nat)
    requires Ring(db, lists, ts, bs) && i <= j <= |ts|
    ensures forall l :: 0 <= l < j - i ==> Edge(db, lists, ts[i..j][l], bs[i..j + 1][l], bs[i..j + 1][l + 1])
    ensures DistinctIds(ts[i..j])
  {
    hide Edge;
    forall l | 0 <= l < j - i
      ensures Edge(db, lists, ts[i..j][l], bs[i..j + 1][l], bs[i..j + 1][l + 1])
    {
      assert Edge(db, lists, ts[i + l], bs[i + l], bs[i + l + 1]);
    }
    DistinctPart(ts, i, j);
  }

  /** An arc closed by the first cleanup, which has its ends in the other order. */
  lemma CloseArc(db: Db, lists: seq<seq<Id>>, ts: seq<Id>, bs: seq<Id>, i: nat, j: nat)
    requires Ring(db, lists, ts, bs) && 1 <= i < j <= |ts| && Edge(db, lists, ts[0], bs[j], bs[i])
    ensures Ring(db, lists, ts[i..j] + [ts[0]], bs[i..j + 1] + [bs[i]])
  {
    hide Edge;
    Arc(db, lists, ts, bs, i, j);
    var ts', bs' := ts[i..j] + [ts[0]], bs[i..j + 1] + [bs[i]];
    forall l | 0 <= l < |ts'|
      ensures Edge(db, lists, ts'[l], bs'[l], bs'[l + 1])
    {
      if l < j - i { assert Edge(db, lists, ts[i..j][l], bs[i..j + 1][l], bs[i..j + 1][l + 1]); }
    }
    assert ts[0] !in ts[i..j] by { DistinctPart(ts, i, j); }
  }

  lemma Shorten(db: Db, lists: seq<seq<Id>>, ts: seq<Id>, bs: seq<Id>, j: nat) returns (ts': seq<Id>, bs': seq<Id>)
    requires Ring(db, lists, ts, bs) && InRange(lists, ts) && 2 <= j < |ts| && bs[j] in lists[ts[0]]
    requires forall t :: 0 <= t < |lists| ==> DistinctIds(lists[t])
    ensures Ring(db, lists, ts', bs') && |ts'| < |ts|
  {
    assert Edge(db, lists, ts[0], bs[0], bs[0 + 1]) && Edge(db, lists, ts[1], bs[1], bs[1 + 1]);
    assert Edge(db, lists, ts[j], bs[j], bs[j + 1]);
    hide Edge;
    if bs[j] == bs[1] {
      assert j >= 3 by { NotTwice(db, lists, ts[1], bs[1], bs[2]); }
      Arc(db, lists, ts, bs, 1, j);
      ts', bs' := ts[1..j], bs[1..j + 1];
    } else if bs[j] == bs[0] {
      Arc(db, lists, ts, bs, 0, j);
      ts', bs' := ts[0..j], bs[0..j + 1];
    } else {
      ShortcutEdge(db, lists, ts[0], bs[0], bs[1], bs[j]);
      if Edge(db, lists, ts[0], bs[j], bs[1]) {
        CloseArc(db, lists, ts, bs, 1, j);
        ts', bs' := ts[1..j] + [ts[0]], bs[1..j + 1] + [bs[1]];
      } else {
        OpenArc(db, lists, ts, bs, j);
        ts', bs' := [ts[0]] + ts[j..], [bs[0]] + bs[j..];
      }
    }
  }

  lemma NotTwice(db: Db, lists: seq<seq<Id>>, t: Id, x: Id, y: Id)
    requires Edge(db, lists, t, x, y) && DistinctIds(lists[t])
    ensures x != y
  {
  }

  lemma ShortcutEdge(db: Db, lists: seq<seq<Id>>, t: Id, x: Id, y: Id, z: Id)
    requires Edge(db, lists, t, x, y) && DistinctIds(lists[t]) && z in lists[t] && z != y && Pending(db, z)
    ensures Edge(db, lists, t, z, y) || Edge(db, lists, t, x, z)
  {
    assert y in lists[t];
    Ordered(lists[t], y, z);
    if Precedes(lists[t], y, z) { PrecedesOn(lists[t], x, y, z); }
  }

  /** The first cleanup leads straight on to j. */
  lemma OpenArc(db: Db, lists: seq<seq<Id>>, ts: seq<Id>, bs: seq<Id>, j: nat)
    requires Ring(db, lists, ts, bs) && 2 <= j < |ts| && Edge(db, lists, ts[0], bs[0], bs[j])
    ensures Ring(db, lists, [ts[0]] + ts[j..], [bs[0]] + bs[j..])
  {
    hide Edge;
    var k := |ts|;
    Arc(db, lists, ts, bs, j, k);
    assert ts[j..] == ts[j..k] && bs[j..] == bs[j..k + 1];
    var ts', bs' := [ts[0]] + ts[j..], [bs[0]] + bs[j..];
    forall l | 0 <= l < |ts'|
      ensures Edge(db, lists, ts'[l], bs'[l], bs'[l + 1])
    {
      if l > 0 { assert Edge(db, lists, ts[j..k][l - 1], bs[j..k + 1][l - 1], bs[j..k + 1][l - 1 + 1]); }
    }
    assert ts[0] !in ts[j..k] by { DistinctPart(ts, j, k); }
  }

  ghost predicate NoShortcut(lists: seq<seq<Id>>, ts: seq<Id>, bs: seq<Id>)
    requires InRange(lists, ts) && |bs| == |ts| + 1
  {
    forall i, j :: 0 <= i < |ts| && 0 <= j < |ts| ==> !Shortcut(lists, ts, bs, i, j)
  }

  /** Every ring has one without shortcuts. */
  lemma {:induction false} Straighten(db: Db, lists: seq<seq<Id>>, ts: seq<Id>, bs: seq<Id>)
      returns (ts': seq<Id>, bs': seq<Id>)
    requires Ring(db, lists, ts, bs) && forall t :: 0 <= t < |lists| ==> DistinctIds(lists[t])
    ensures Ring(db, lists, ts', bs') && InRange(lists, ts') && NoShortcut(lists, ts', bs')
    decreases |ts|
  {
    hide Edge;
    RingInRange(db, lists, ts, bs);
    if NoShortcut(lists, ts, bs) {
      ts', bs' := ts, bs;
    } else {
      var i, j :| 0 <= i < |ts| && 0 <= j < |ts| && Shortcut(lists, ts, bs, i, j);
      var k := |ts|;
      Rotated(db, lists, ts, bs, i);
      var ts1, bs1 := ts[i..] + ts[..i], bs[i..k] + bs[..i + 1];
      var j1 := if j >= i then j - i else j + k - i;
      assert ts1[0] == ts[i] && bs1[j1] == bs[j];
      RingInRange(db, lists, ts1, bs1);
      var ts2, bs2 := Shorten(db, lists, ts1, bs1, j1);
      ts', bs' := Straighten(db, lists, ts2, bs2);
    }
  }

  // ---- The way into the ring ----

  function AllIds(lists: seq<seq<Id>>): set<Id> {
    if lists == [] then {} else AllIds(lists[..|lists| - 1]) + Elems(lists[|lists| - 1])
  }

  lemma {:induction false} InAllIds(lists: seq<seq<Id>>, t: nat)
    requires t < |lists|
    ensures Elems(lists[t]) <= AllIds(lists)
  {
    if t == |lists| - 1 {
    } else {
      InAllIds(lists[..|lists| - 1], t);
    }
  }

  /** Somebody has cancelled every PENDING booking of the lists but those of the ring. */
  ghost predicate OnlyRingPends(db: Db, lists: seq<seq<Id>>, ts: seq<Id>, bs: seq<Id>) {
    (forall i :: 0 <= i < |bs| ==> Pending(db, bs[i])) &&
    (forall t, x :: 0 <= t < |lists| && x in lists[t] && Pending(db, x) ==> x in bs)
  }

  lemma Clear(m: Mode, db: Db, lists: seq<seq<Id>>, ts: seq<Id>, bs: seq<Id>) returns (db': Db)
    requires Ring(db, lists, ts, bs)
    ensures Goes(m, |lists|, Sys(db, Starting(lists)), Sys(db', Starting(lists))) && OnlyRingPends(db', lists, ts, bs)
  {
    hide Goes, CancelBatch, Edge;
    var others := set b | b in AllIds(lists) && b in db.bookings && Pending(db, b) && b !in bs;
    var ids := ListOf(others);
    assert forall i :: 0 <= i < |ids| ==> ids[i] in Elems(ids);
    assert Idle(|lists|, Starting(lists));
    CancelsBeside(m, |lists|, db, Starting(lists), ids);
    db' := CancelInOrder(db, ids);
    BatchIsOneAtATime(db, ids);
    RingPends(db, lists, ts, bs);
    OthersGone(db, db', others);
    forall t, x | 0 <= t < |lists| && x in lists[t] && Pending(db', x)
      ensures x in bs
    {
      InAllIds(lists, t);
      assert x in Elems(lists[t]);
    }
  }

  lemma RingPends(db: Db, lists: seq<seq<Id>>, ts: seq<Id>, bs: seq<Id>)
    requires Ring(db, lists, ts, bs)
    ensures forall i :: 0 <= i < |bs| ==> Pending(db, bs[i])
  {
    forall i | 0 <= i < |bs|
      ensures Pending(db, bs[i])
    {
      var o := if i < |ts| then i else 0;
      assert Edge(db, lists, ts[o], bs[o], bs[o + 1]);
    }
  }

  lemma OthersGone(db: Db, db': Db, ids: set<Id>)
    requires db' == CancelBatch(db, ids)
    ensures forall x :: Pending(db', x) <==> Pending(db, x) && x !in ids
  {
  }

  /** The ring's i-th cleanup, having locked its own booking, is about to lock the next one's. */
  ghost predicate AtBrink(db: Db, t: Txn, x: Id, y: Id) {
    t.CleanupStart? && t.ids != [] && t.ids[0] == y && t.stale == {x}
  }

  /** The first n cleanups of the ring are at the brink, all others at their start. */
  ghost predicate Lined(db: Db, lists: seq<seq<Id>>, ts: seq<Id>, bs: seq<Id>, s: Sys, n: nat)
    requires n <= |ts| && |bs| == |ts| + 1
  {
    s.db == db && s.txns.Keys == Starting(lists).Keys &&
    (forall i :: 0 <= i < n ==> ts[i] in s.txns && AtBrink(db, s.txns[ts[i]], bs[i], bs[i + 1])) &&
    (forall t :: t in s.txns && t !in ts[..n] ==> s.txns[t] == CleanupStart(lists[t], {}))
  }

  lemma SplitAt(xs: seq<Id>, y: Id) returns (pre: seq<Id>, suf: seq<Id>)
    requires y in xs
    ensures xs == pre + suf && suf != [] && suf[0] == y
  {
    var j :| 0 <= j < |xs| && xs[j] == y;
    pre, suf := xs[..j], xs[j..];
  }

  lemma OnlyOwnBefore(db: Db, xs: seq<Id>, pre: seq<Id>, suf: seq<Id>, x: Id, y: Id)
    requires DistinctIds(xs) && Precedes(xs, x, y) && xs == pre + suf && suf != [] && suf[0] == y && Pending(db, x)
    requires forall z :: z in xs && Pending(db, z) ==> z == x || z == y
    ensures PendingOf(db, pre) == {x}
  {
    var i, j :| 0 <= i < j < |xs| && xs[i] == x && xs[j] == y;
    assert xs[|pre|] == y && j == |pre|;
    assert x in Elems(pre) by { assert pre[i] == x; }
    forall z | z in Elems(pre) && Pending(db, z)
      ensures z == x
    {
      var l :| 0 <= l < |pre| && pre[l] == z;
      assert xs[l] == z;
    }
  }

  /** The lists of a ring without shortcuts have two PENDING bookings left each. */
  lemma OwnTwo(db: Db, lists: seq<seq<Id>>, ts: seq<Id>, bs: seq<Id>, i: nat)
    requires |ts| >= 2 && |bs| == |ts| + 1 && bs[0] == bs[|ts|] && InRange(lists, ts) && NoShortcut(lists, ts, bs)
    requires OnlyRingPends(db, lists, ts, bs) && i < |ts|
    ensures forall z :: z in lists[ts[i]] && Pending(db, z) ==> z == bs[i] || z == bs[i + 1]
  {
    forall z | z in lists[ts[i]] && Pending(db, z)
      ensures z == bs[i] || z == bs[i + 1]
    {
      assert z in bs;
      var j :| 0 <= j < |bs| && bs[j] == z;
      var o := if j < |ts| then j else 0;
      assert !Shortcut(lists, ts, bs, i, o);
    }
  }

  /** Different cleanups of such a ring lock different bookings. */
  lemma OwnDiffers(db: Db, lists: seq<seq<Id>>, ts: seq<Id>, bs: seq<Id>, i: nat, j: nat)
    requires Ring(db, lists, ts, bs) && InRange(lists, ts) && NoShortcut(lists, ts, bs) && i < j < |ts|
    requires forall t :: 0 <= t < |lists| ==> DistinctIds(lists[t])
    ensures bs[i] != bs[j]
  {
    assert Edge(db, lists, ts[i], bs[i], bs[i + 1]) && Edge(db, lists, ts[j], bs[j], bs[j + 1]);
    assert !Shortcut(lists, ts, bs, i, j) && !Shortcut(lists, ts, bs, j, i);
    NotTwice(db, lists, ts[i], bs[i], bs[i + 1]);
    NotTwice(db, lists, ts[j], bs[j], bs[j + 1]);
    assert bs[i] in lists[ts[i]];
  }

  /** Nobody else holds the booking that the n-th cleanup of the ring locks. */
  lemma OthersHoldOthers(db: Db, lists: seq<seq<Id>>, ts: seq<Id>, bs: seq<Id>, s: Sys, n: nat, u: Id)
    requires Ring(db, lists, ts, bs) && InRange(lists, ts) && NoShortcut(lists, ts, bs) && n < |ts|
    requires forall t :: 0 <= t < |lists| ==> DistinctIds(lists[t])
    requires Lined(db, lists, ts, bs, s, n) && u in s.txns && u != ts[n]
    ensures Held(s.txns[u]) !! {BookingRow(bs[n])}
  {
    hide Edge, NoShortcut, InRange;
    if u in ts[..n] {
      var i :| 0 <= i < n && ts[..n][i] == u;
      OwnDiffers(db, lists, ts, bs, i, n);
      assert AtBrink(db, s.txns[ts[i]], bs[i], bs[i + 1]);
    } else {
      assert s.txns[u] == CleanupStart(lists[u], {});
    }
  }

  lemma LinedNext(db: Db, lists: seq<seq<Id>>, ts: seq<Id>, bs: seq<Id>, s: Sys, n: nat, suf: seq<Id>)
    requires n < |ts| && |bs| == |ts| + 1 && DistinctIds(ts) && ts[n] < |lists| && Lined(db, lists, ts, bs, s, n)
    requires suf != [] && suf[0] == bs[n + 1]
    ensures Lined(db, lists, ts, bs, s.(txns := s.txns[ts[n] := CleanupStart(suf, {bs[n]})]), n + 1)
  {
    assert ts[..n + 1] == ts[..n] + [ts[n]];
  }

  lemma LineUpOne(m: Mode, db: Db, lists: seq<seq<Id>>, ts: seq<Id>, bs: seq<Id>, s0: Sys, s: Sys, n: nat)
      returns (s': Sys)
    requires Ring(db, lists, ts, bs) && InRange(lists, ts) && NoShortcut(lists, ts, bs)
    requires OnlyRingPends(db, lists, ts, bs) && forall t :: 0 <= t < |lists| ==> DistinctIds(lists[t])
    requires n < |ts| && Gets(m, s0, s) && Lined(db, lists, ts, bs, s, n)
    ensures Gets(m, s0, s') && Lined(db, lists, ts, bs, s', n + 1)
  {
    hide Gets, NoShortcut, OnlyRingPends, Ring, Held;
    var t := ts[n];
    assert |bs| == |ts| + 1 && DistinctIds(ts) by { RingSays(db, lists, ts, bs, n); }
    assert Edge(db, lists, t, bs[n], bs[n + 1]) by { RingSays(db, lists, ts, bs, n); }
    OwnTwo(db, lists, ts, bs, n) by { RingSays(db, lists, ts, bs, n); }
    var pre, suf := SplitAt(lists[t], bs[n + 1]);
    OnlyOwnBefore(db, lists[t], pre, suf, bs[n], bs[n + 1]);
    hide Edge;
    forall u | u in s.txns && u !in {t}
      ensures Held(s.txns[u]) !! {BookingRow(bs[n])}
    {
      OthersHoldOthers(db, lists, ts, bs, s, n, u);
    }
    assert t !in ts[..n];
    hide DistinctIds;
    LocksPrefix(m, s0, s, t, pre, suf, {});
    assert {} + {bs[n]} == {bs[n]};
    s' := s.(txns := s.txns[t := CleanupStart(suf, {bs[n]})]);
    LinedNext(db, lists, ts, bs, s, n, suf);
  }

  lemma RingSays(db: Db, lists: seq<seq<Id>>, ts: seq<Id>, bs: seq<Id>, i: nat)
    requires Ring(db, lists, ts, bs) && i < |ts|
    ensures Edge(db, lists, ts[i], bs[i], bs[i + 1]) && DistinctIds(ts)
    ensures |ts| >= 2 && |bs| == |ts| + 1 && bs[0] == bs[|ts|]
  {
  }

  lemma {:induction false} LineUp(m: Mode, db: Db, lists: seq<seq<Id>>, ts: seq<Id>, bs: seq<Id>, n: nat)
      returns (s: Sys)
    requires Ring(db, lists, ts, bs) && InRange(lists, ts) && NoShortcut(lists, ts, bs)
    requires OnlyRingPends(db, lists, ts, bs) && forall t :: 0 <= t < |lists| ==> DistinctIds(lists[t])
    requires n <= |ts|
    ensures Gets(m, Sys(db, Starting(lists)), s) && Lined(db, lists, ts, bs, s, n)
  {
    hide Gets, NoShortcut, OnlyRingPends, Edge, AtBrink;
    if n == 0 {
      s := Sys(db, Starting(lists));
      GetsNowhere(m, s);
    } else {
      var mid := LineUp(m, db, lists, ts, bs, n - 1);
      s := LineUpOne(m, db, lists, ts, bs, Sys(db, Starting(lists)), mid, n - 1);
    }
  }

  lemma BrinkWaits(m: Mode, s: Sys, t: Id, u: Id, x: Id, y: Id, z: Id)
    requires t in s.txns && u in s.txns && t != u && Pending(s.db, y)
    requires AtBrink(s.db, s.txns[t], x, y) && AtBrink(s.db, s.txns[u], y, z)
    ensures WaitsFor(m, s, t, u)
  {
    assert BookingRow(y) in Held(s.txns[u]) && BookingRow(y) in Needs(m, s.db, s.txns[t]);
  }

  lemma LinedWaits(m: Mode, db: Db, lists: seq<seq<Id>>, ts: seq<Id>, bs: seq<Id>, s: Sys)
    requires Ring(db, lists, ts, bs) && InRange(lists, ts) && OnlyRingPends(db, lists, ts, bs)
    requires Lined(db, lists, ts, bs, s, |ts|)
    ensures WaitRing(m, s, |lists|, ts + [ts[0]])
  {
    hide Edge, AtBrink, WaitsFor;
    var k, p := |ts|, ts + [ts[0]];
    forall i | 0 <= i < |p| - 1
      ensures WaitsFor(m, s, p[i], p[i + 1])
    {
      var o := if i + 1 < k then i + 1 else 0;
      assert p[i] == ts[i] && p[i + 1] == ts[o] && bs[i + 1] == bs[o];
      assert ts[i] != ts[o];
      BrinkWaits(m, s, ts[i], ts[o], bs[i], bs[i + 1], bs[o + 1]);
    }
    assert p[..|p| - 1] == ts;
  }

  /** Any number of overlapping cleanups: some of them can come to wait for each other in a ring, in some
      run in which anything else may happen beside them, if and only if the orders in which different
      cleanups lock PENDING bookings close a ring. */
  lemma CleanupsBlockIff(m: Mode, db: Db, lists: seq<seq<Id>>)
    requires Consistent(db) && OnBookings(db, lists) && forall t :: 0 <= t < |lists| ==> DistinctIds(lists[t])
    ensures CanWaitInRing(m, db, lists) <==> OrdersRing(db, lists)
  {
    hide Ring, Starting, WaitRing, Goes, Gets, OnTheirWay, OnBookings, NoShortcut, OnlyRingPends, InRange, Lined,
         PaidIfConfirmed, Sandwich, Keys;
    if ts0, bs0 :| Ring(db, lists, ts0, bs0) {
      var ts, bs := Straighten(db, lists, ts0, bs0);
      var db' := Clear(m, db, lists, ts, bs);
      StillRing(db, db', lists, ts, bs);
      var s := LineUp(m, db', lists, ts, bs, |ts|);
      LinedWaits(m, db', lists, ts, bs, s);
      GoesThenGets(m, |lists|, Sys(db, Starting(lists)), Sys(db', Starting(lists)), s);
    }
    if CanWaitInRing(m, db, lists) {
      var s, p :| Goes(m, |lists|, Sys(db, Starting(lists)), s) && WaitRing(m, s, |lists|, p);
      GoesOnTheWay(m, db, lists, s);
      RingHasOrders(m, db, lists, s, p);
    }
  }

  lemma StillRing(db: Db, db': Db, lists: seq<seq<Id>>, ts: seq<Id>, bs: seq<Id>)
    requires Ring(db, lists, ts, bs) && OnlyRingPends(db', lists, ts, bs)
    ensures Ring(db', lists, ts, bs)
  {
    forall i | 0 <= i < |ts|
      ensures Edge(db', lists, ts[i], bs[i], bs[i + 1])
    {
      assert Edge(db, lists, ts[i], bs[i], bs[i + 1]) && Pending(db', bs[i]) && Pending(db', bs[i + 1]);
    }
  }

  lemma GoesOnTheWay(m: Mode, db: Db, lists: seq<seq<Id>>, s: Sys)
    requires Goes(m, |lists|, Sys(db, Starting(lists)), s) && OnBookings(db, lists)
    ensures OnTheirWay(db, lists, s)
  {
    hide OnTheirWay, OnBookings, CanAll, DoAll, Starting;
    var s0 := Sys(db, Starting(lists));
    var acts :| NoRestart(|lists|, acts) && CanAll(m, s0, acts) && DoAll(m, s0, acts) == s;
    StartingOnTheWay(db, lists);
    WayRun(m, db, lists, s0, acts);
  }
}
