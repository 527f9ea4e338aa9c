/** Slot generation and the weekly slot cleanup, on the tables of the booking services. */
module SlotGeneration {
  import opened Rows
  import opened Steps
  import opened Operations
  import opened Services
  import opened Calendar

  /** A turf with its opening and closing hour (0..23). */
  datatype Turf = Turf(id: Id, openHour: nat, closeHour: nat)

  predicate ValidHours(turf: Turf) {
    turf.openHour < 24 && turf.closeHour < 24
  }

  /** Closing at or before the opening hour means closing on the next day. */
  function EndHour(turf: Turf): nat {
    if turf.closeHour <= turf.openHour then turf.closeHour + 24 else turf.closeHour
  }

  function SlotCount(turf: Turf): nat
    requires ValidHours(turf)
  {
    EndHour(turf) - turf.openHour
  }

  function RowOf(k: SlotKey): Slot {
    Slot((k.hour + 1) % 24, false)
  }

  /** Hours since 1970-01-01T00:00Z at which a slot starts; it takes one hour. */
  function Hours(k: SlotKey): int {
    24 * k.day + k.hour
  }

  /** INSERT ... ON CONFLICT DO NOTHING, row by row. */
  function InsertSkip(slots: map<SlotKey, Slot>, keys: seq<SlotKey>): map<SlotKey, Slot> {
    if keys == [] then slots
    else
      var s, k := InsertSkip(slots, keys[..|keys| - 1]), keys[|keys| - 1];
      if k in s then s else s[k := RowOf(k)]
  }

  /** The slots of the hours [from, until) of a day, hours from 24 on falling on the next day. */
  function KeysBetween(turf: Id, day: int, from: nat, until: nat): seq<SlotKey> {
    if from >= until then []
    else KeysBetween(turf, day, from, until - 1) + [SlotKey(turf, day + (until - 1) / 24, (until - 1) % 24)]
  }

  function DayKeys(turf: Turf, day: int): seq<SlotKey> {
    KeysBetween(turf.id, day, turf.openHour, EndHour(turf))
  }

  function TurfsKeys(turfs: seq<Turf>, day: int): seq<SlotKey> {
    if turfs == [] then [] else TurfsKeys(turfs[..|turfs| - 1], day) + DayKeys(turfs[|turfs| - 1], day)
  }

  function DaysKeys(turfs: seq<Turf>, day: int, days: nat): seq<SlotKey> {
    if days == 0 then [] else DaysKeys(turfs, day, days - 1) + TurfsKeys(turfs, day + days - 1)
  }

  // ---- The service ----

  class SlotService {
    const t: Tables

    constructor (t: Tables)
      ensures this.t == t
    {
      this.t := t;
    }

    /** createMany with skipDuplicates. */
    method CreateMany(keys: seq<SlotKey>)
      modifies t`slots
      ensures t.slots == InsertSkip(old(t.slots), keys)
    {
      var i := 0;
      while i < |keys|
        invariant 0 <= i <= |keys|
        invariant t.slots == InsertSkip(old(t.slots), keys[..i])
      {
        assert keys[..i + 1][..i] == keys[..i];
        if keys[i] !in t.slots {
          t.slots := t.slots[keys[i] := RowOf(keys[i])];
        }
        i := i + 1;
      }
      assert keys[..i] == keys;
    }

    method GenerateTurfSlots(turf: Turf, date: int)
      requires ValidHours(turf)
      modifies t`slots
      ensures t.slots == InsertSkip(old(t.slots), DayKeys(turf, Day(date)))
    {
      hide InsertSkip, Day, DateOf, SetDate;
      var currentHour, endHour := turf.openHour, turf.closeHour;
      if endHour <= currentHour {
        endHour := endHour + 24;
      }
      var slotsToCreate: seq<SlotKey> := [];
      while currentHour < endHour
        invariant turf.openHour <= currentHour <= endHour && t.slots == old(t.slots)
        invariant slotsToCreate == KeysBetween(turf.id, Day(date), turf.openHour, currentHour)
      {
        var slotDate := new JsDate(date);
        if currentHour >= 24 {
          NextDate(date);
          slotDate.SetUTCDate(DateOf(slotDate.t) + 1);
        }
        slotsToCreate := slotsToCreate + [SlotKey(turf.id, Day(slotDate.t), currentHour % 24)];
        currentHour := currentHour + 1;
      }
      CreateMany(slotsToCreate);
    }

    /** Every active turf, for each of the next days from today on. */
    method GenerateSlotsForNextDays(turfs: seq<Turf>, days: nat, now: int)
      requires forall i :: 0 <= i < |turfs| ==> ValidHours(turfs[i])
      modifies t`slots
      ensures t.slots == InsertSkip(old(t.slots), DaysKeys(turfs, Day(now), days))
    {
      hide InsertSkip, TurfsKeys, Day, DateOf, SetDate, SetHours;
      InsertNone(t.slots);
      var today := new JsDate(now);
      today.SetUTCHours(0, 0, 0, 0);
      MidnightDay(now);
      var i := 0;
      while i < days
        invariant 0 <= i <= days && Day(today.t) == Day(now)
        invariant t.slots == InsertSkip(old(t.slots), DaysKeys(turfs, Day(now), i))
      {
        var date := new JsDate(today.t);
        LaterDate(today.t, i);
        date.SetUTCDate(DateOf(today.t) + i);
        GenerateForTurfs(turfs, date.t);
        InsertAppend(old(t.slots), DaysKeys(turfs, Day(now), i), TurfsKeys(turfs, Day(now) + i));
        i := i + 1;
      }
    }

    method GenerateForTurfs(turfs: seq<Turf>, date: int)
      requires forall i :: 0 <= i < |turfs| ==> ValidHours(turfs[i])
      modifies t`slots
      ensures t.slots == InsertSkip(old(t.slots), TurfsKeys(turfs, Day(date)))
    {
      hide InsertSkip, DayKeys, Day;
      InsertNone(t.slots);
      var j := 0;
      while j < |turfs|
        invariant 0 <= j <= |turfs|
        invariant t.slots == InsertSkip(old(t.slots), TurfsKeys(turfs[..j], Day(date)))
      {
        GenerateTurfSlots(turfs[j], date);
        assert turfs[..j + 1][..j] == turfs[..j];
        InsertAppend(old(t.slots), TurfsKeys(turfs[..j], Day(date)), DayKeys(turfs[j], Day(date)));
        j := j + 1;
      }
      assert turfs[..j] == turfs;
    }

    /** Deletes free slots older than thirty days, or nothing if a booking refers to one. */
    method CleanupOldSlots(now: int) returns (r: Result)
      modifies t`slots
      ensures (t.Snapshot(), r) == Operations.CleanupOldSlots(old(t.Snapshot()), Day(now) - 30)
      ensures r == Done ==>
                t.slots == map k | k in old(t.slots) && (k.day >= Day(now) - 30 || old(t.slots)[k].isBooked) ::
                  old(t.slots)[k]
      ensures r != Done ==>
                t.slots == old(t.slots) &&
                exists b :: b in t.bookings && t.bookings[b].slot in t.slots &&
                            t.bookings[b].slot.day < Day(now) - 30 && !t.slots[t.bookings[b].slot].isBooked
    {
      hide Day, DateOf, SetDate;
      var thirtyDaysAgo := new JsDate(now);
      LaterDate(now, -30);
      thirtyDaysAgo.SetUTCDate(DateOf(thirtyDaysAgo.t) - 30);
      var cutoffDay := Day(thirtyDaysAgo.t);
      var doomed := set k | k in t.slots && k.day < cutoffDay && !t.slots[k].isBooked;
      assert doomed == OldFree(t.Snapshot(), cutoffDay);
      var blocked := set b | b in t.bookings && t.bookings[b].slot in doomed;
      if blocked != {} {
        var b :| b in blocked;
        return Conflict;
      }
      assert forall b :: b in t.bookings && t.bookings[b].slot in doomed ==> b in blocked;
      t.slots := t.slots - doomed;
      return Done;
    }
  }

  lemma MidnightDay(t: int)
    ensures Day(SetHours(t, 0, 0, 0, 0)) == Day(t)
  {
    DayOfMakeDate(Day(t), 0);
  }

  lemma NextDate(date: int)
    ensures Day(SetDate(date, DateOf(date) + 1)) == Day(date) + 1
  {
    LaterDate(date, 1);
  }

  lemma LaterDate(date: int, days: int)
    ensures Day(SetDate(date, DateOf(date) + days)) == Day(date) + days
  {
    hide SetDate;
    SetDateShifts(date, DateOf(date) + days);
  }

  // ---- Insertion ----

  lemma InsertNone(slots: map<SlotKey, Slot>)
    ensures InsertSkip(slots, []) == slots
  {
  }

  lemma {:induction false} InsertAppend(slots: map<SlotKey, Slot>, xs: seq<SlotKey>, ys: seq<SlotKey>)
    ensures InsertSkip(slots, xs + ys) == InsertSkip(InsertSkip(slots, xs), ys)
  {
    if ys == [] {
      assert xs + ys == xs;
    } else {
      assert (xs + ys)[..|xs + ys| - 1] == xs + ys[..|ys| - 1];
      InsertAppend(slots, xs, ys[..|ys| - 1]);
    }
  }

  function WithRows(slots: map<SlotKey, Slot>, ks: set<SlotKey>): map<SlotKey, Slot> {
    slots + map k | k in ks && k !in slots :: RowOf(k)
  }

  function KeySet(keys: seq<SlotKey>): set<SlotKey> {
    set k | k in keys
  }

  lemma OneMoreRow(slots: map<SlotKey, Slot>, ks: set<SlotKey>, k: SlotKey)
    ensures WithRows(slots, ks + {k}) ==
              if k in WithRows(slots, ks) then WithRows(slots, ks) else WithRows(slots, ks)[k := RowOf(k)]
  {
  }

  /** Generation adds exactly the missing slots, unbooked, and changes no existing row. */
  lemma {:induction false} InsertsMissing(slots: map<SlotKey, Slot>, keys: seq<SlotKey>)
    ensures InsertSkip(slots, keys) == WithRows(slots, KeySet(keys))
  {
    if keys == [] {
      assert WithRows(slots, KeySet(keys)) == slots;
    } else {
      hide WithRows;
      var init, k := keys[..|keys| - 1], keys[|keys| - 1];
      InsertsMissing(slots, init);
      assert keys == init + [k];
      assert KeySet(keys) == KeySet(init) + {k};
      OneMoreRow(slots, KeySet(init), k);
    }
  }

  lemma RowsJoin(slots: map<SlotKey, Slot>, a: set<SlotKey>, b: set<SlotKey>)
    ensures WithRows(WithRows(slots, a), b) == WithRows(slots, a + b)
  {
  }

  /** Generating again changes nothing, and generations commute, whatever hours they were for. */
  lemma GenerationIdempotent(slots: map<SlotKey, Slot>, xs: seq<SlotKey>, ys: seq<SlotKey>)
    ensures InsertSkip(InsertSkip(slots, xs), xs) == InsertSkip(slots, xs)
    ensures InsertSkip(InsertSkip(slots, xs), ys) == InsertSkip(InsertSkip(slots, ys), xs)
  {
    hide InsertSkip, WithRows;
    InsertsMissing(slots, xs);
    InsertsMissing(slots, ys);
    InsertsMissing(InsertSkip(slots, xs), xs);
    InsertsMissing(InsertSkip(slots, xs), ys);
    InsertsMissing(InsertSkip(slots, ys), xs);
    var a, b := KeySet(xs), KeySet(ys);
    RowsJoin(slots, a, a);
    RowsJoin(slots, a, b);
    RowsJoin(slots, b, a);
    assert a + a == a && a + b == b + a;
  }

  function RowsFor(keys: seq<SlotKey>): map<SlotKey, Slot> {
    map k | k in keys :: RowOf(k)
  }

  /** Seen from the booking side a generation is one `AddSlots` operation. */
  lemma GenerationIsAddSlots(db: Db, keys: seq<SlotKey>)
    ensures db.(slots := InsertSkip(db.slots, keys)) == AddSlots(db, RowsFor(keys))
  {
    hide InsertSkip;
    InsertsMissing(db.slots, keys);
    assert WithRows(db.slots, KeySet(keys)) == AddSlots(db, RowsFor(keys)).slots;
  }

  // ---- Tiling ----

  lemma {:induction false} KeysAt(turf: Id, day: int, from: nat, until: nat)
    requires from <= until
    ensures var ks := KeysBetween(turf, day, from, until);
            |ks| == until - from &&
            forall i :: 0 <= i < |ks| ==> ks[i].turf == turf && ks[i].hour < 24 && Hours(ks[i]) == 24 * day + from + i
  {
    if from == until {
    } else {
      KeysAt(turf, day, from, until - 1);
    }
  }

  /** A day's slots tile [open, close) hour by hour: the count is close - open (plus 24 when not
      positive), each slot starts where the one before ends, the first at opening and the last one
      ending at closing time. */
  lemma DayTiles(turf: Turf, day: int)
    requires ValidHours(turf)
    ensures var ks := DayKeys(turf, day);
            |ks| == (if turf.closeHour - turf.openHour > 0 then turf.closeHour - turf.openHour
                     else turf.closeHour - turf.openHour + 24) &&
            1 <= |ks| <= 24 &&
            (forall i :: 0 <= i < |ks| ==>
               ks[i].turf == turf.id && ks[i].hour < 24 && Hours(ks[i]) == 24 * day + turf.openHour + i) &&
            (forall i :: 0 <= i < |ks| - 1 ==> RowOf(ks[i]).endHour == ks[i + 1].hour) &&
            ks[0] == SlotKey(turf.id, day, turf.openHour) && RowOf(ks[|ks| - 1]).endHour == turf.closeHour
  {
    KeysAt(turf.id, day, turf.openHour, EndHour(turf));
    var ks := DayKeys(turf, day);
    forall i | 0 <= i < |ks| - 1 ensures RowOf(ks[i]).endHour == ks[i + 1].hour {
      assert Hours(ks[i + 1]) == Hours(ks[i]) + 1;
      NextHour(ks[i], ks[i + 1]);
    }
    var last := ks[|ks| - 1];
    NextHour(last, SlotKey(turf.id, day + EndHour(turf) / 24, turf.closeHour));
  }

  lemma NextHour(k: SlotKey, l: SlotKey)
    requires k.hour < 24 && l.hour < 24 && Hours(l) == Hours(k) + 1
    ensures RowOf(k).endHour == l.hour
  {
  }

  predicate Distinct(keys: seq<SlotKey>) {
    forall i, j :: 0 <= i < j < |keys| ==> keys[i] != keys[j]
  }

  function TotalCount(turfs: seq<Turf>): nat
    requires forall i :: 0 <= i < |turfs| ==> ValidHours(turfs[i])
  {
    if turfs == [] then 0 else TotalCount(turfs[..|turfs| - 1]) + SlotCount(turfs[|turfs| - 1])
  }

  /** One of the slots of a turf for a day, those past midnight included. */
  predicate DayHas(turf: Turf, day: int, k: SlotKey) {
    turf.id == k.turf && k.hour < 24 && 24 * day + turf.openHour <= Hours(k) < 24 * day + EndHour(turf)
  }

  lemma DayKeysAre(turf: Turf, day: int, k: SlotKey)
    requires ValidHours(turf)
    ensures k in DayKeys(turf, day) <==> DayHas(turf, day, k)
  {
    DayTiles(turf, day);
    hide DayKeys;
    var ks := DayKeys(turf, day);
    if DayHas(turf, day, k) {
      var l := ks[Hours(k) - 24 * day - turf.openHour];
      assert Hours(l) == Hours(k);
    }
  }

  lemma {:induction false} TurfsKeysAre(turfs: seq<Turf>, day: int, k: SlotKey)
    requires AllValid(turfs)
    ensures k in TurfsKeys(turfs, day) <==> OnDay(turfs, day, k)
  {
    hide DayKeys, DayHas;
    if turfs == [] {
    } else {
      var n := |turfs| - 1;
      TurfsKeysAre(turfs[..n], day, k);
      DayKeysAre(turfs[n], day, k);
      if OnDay(turfs[..n], day, k) {
        var i :| 0 <= i < n && DayHas(turfs[..n][i], day, k);
        assert DayHas(turfs[i], day, k);
      }
      if OnDay(turfs, day, k) {
        var i :| 0 <= i <= n && DayHas(turfs[i], day, k);
        assert i < n ==> DayHas(turfs[..n][i], day, k);
      }
    }
  }

  /** A generation over days covers exactly the slots of its turfs on those days. */
  lemma {:induction false} DaysKeysAre(turfs: seq<Turf>, day: int, days: nat, k: SlotKey)
    requires AllValid(turfs)
    ensures k in DaysKeys(turfs, day, days) <==> exists d :: day <= d < day + days && OnDay(turfs, d, k)
  {
    hide TurfsKeys, OnDay;
    if days == 0 {
    } else {
      DaysKeysAre(turfs, day, days - 1, k);
      TurfsKeysAre(turfs, day + days - 1, k);
    }
  }

  predicate OnDay(turfs: seq<Turf>, day: int, k: SlotKey) {
    exists i :: 0 <= i < |turfs| && DayHas(turfs[i], day, k)
  }

  predicate UpTo(turf: Turf, day: int, k: SlotKey) {
    turf.id == k.turf && Hours(k) < 24 * day + EndHour(turf)
  }

  lemma {:induction false} TurfsDistinct(turfs: seq<Turf>, day: int)
    requires forall i :: 0 <= i < |turfs| ==> ValidHours(turfs[i])
    requires forall i, j :: 0 <= i < j < |turfs| ==> turfs[i].id != turfs[j].id
    ensures var ks := TurfsKeys(turfs, day);
            |ks| == TotalCount(turfs) && Distinct(ks) &&
            (forall k :: k in ks ==> OnDay(turfs, day, k))
  {
    if turfs == [] {
    } else {
      var n := |turfs| - 1;
      TurfsDistinct(turfs[..n], day);
      DayTiles(turfs[n], day);
      var xs, ys := TurfsKeys(turfs[..n], day), DayKeys(turfs[n], day);
      forall k: SlotKey | k in xs + ys
        ensures OnDay(turfs, day, k)
      {
        if k in xs {
          var i :| 0 <= i < n && DayHas(turfs[..n][i], day, k);
          assert DayHas(turfs[i], day, k);
        } else {
          assert DayHas(turfs[n], day, k);
        }
      }
      AppendDistinct(xs, ys);
    }
  }

  lemma AppendDistinct(xs: seq<SlotKey>, ys: seq<SlotKey>)
    requires Distinct(xs) && Distinct(ys) && forall k :: k in xs ==> k !in ys
    ensures Distinct(xs + ys)
  {
    forall i, j | 0 <= i < j < |xs + ys| ensures (xs + ys)[i] != (xs + ys)[j] {
      if i < |xs| <= j { assert xs[i] in xs && ys[j - |xs|] in ys; }
    }
  }

  /** N days give N times the daily count of keys, all different: the hours a turf opens past
      midnight never collide with the next day's. */
  lemma {:induction false} DaysDistinct(turfs: seq<Turf>, day: int, days: nat)
    requires forall i :: 0 <= i < |turfs| ==> ValidHours(turfs[i])
    requires forall i, j :: 0 <= i < j < |turfs| ==> turfs[i].id != turfs[j].id
    ensures var ks := DaysKeys(turfs, day, days);
            |ks| == days * TotalCount(turfs) && Distinct(ks) &&
            (forall k :: k in ks ==> SomeUpTo(turfs, day + days - 1, k))
  {
    hide TurfsKeys, SomeUpTo, OnDay;
    if days == 0 {
    } else {
      DaysDistinct(turfs, day, days - 1);
      TurfsDistinct(turfs, day + days - 1);
      var xs, ys := DaysKeys(turfs, day, days - 1), TurfsKeys(turfs, day + days - 1);
      forall k: SlotKey | k in xs + ys
        ensures SomeUpTo(turfs, day + days - 1, k)
      {
        StillUpTo(turfs, day + days - 1, k);
      }
      forall k: SlotKey | k in xs ensures k !in ys {
        DaysApart(turfs, day + days - 1, k);
      }
      AppendDistinct(xs, ys);
      DaysTimes(days, TotalCount(turfs));
    }
  }

  predicate SomeUpTo(turfs: seq<Turf>, day: int, k: SlotKey) {
    exists i :: 0 <= i < |turfs| && UpTo(turfs[i], day, k)
  }

  lemma StillUpTo(turfs: seq<Turf>, day: int, k: SlotKey)
    requires SomeUpTo(turfs, day - 1, k) || OnDay(turfs, day, k)
    ensures SomeUpTo(turfs, day, k)
  {
    if SomeUpTo(turfs, day - 1, k) {
      var i :| 0 <= i < |turfs| && UpTo(turfs[i], day - 1, k);
      assert UpTo(turfs[i], day, k);
    } else {
      var i :| 0 <= i < |turfs| && DayHas(turfs[i], day, k);
      assert UpTo(turfs[i], day, k);
    }
  }

  lemma DaysApart(turfs: seq<Turf>, day: int, k: SlotKey)
    requires SomeUpTo(turfs, day - 1, k) && forall i :: 0 <= i < |turfs| ==> ValidHours(turfs[i])
    requires forall i, j :: 0 <= i < j < |turfs| ==> turfs[i].id != turfs[j].id
    ensures !OnDay(turfs, day, k)
  {
  }

  lemma DaysTimes(days: nat, n: nat)
    requires days > 0
    ensures (days - 1) * n + n == days * n
  {
  }

  // ---- Slots never overlap, whatever happens ----

  /** Two different slots of a turf share no moment. */
  lemma SlotsDisjoint(slots: map<SlotKey, Slot>, k: SlotKey, l: SlotKey)
    requires WellTimed(slots) && k in slots && l in slots && k != l && k.turf == l.turf
    ensures SlotEnd(k) <= SlotStart(l) || SlotEnd(l) <= SlotStart(k)
  {
    assert SlotStart(k) == Hours(k) * MS_PER_HOUR && SlotStart(l) == Hours(l) * MS_PER_HOUR;
    assert Hours(k) != Hours(l);
  }

  predicate AllValid(turfs: seq<Turf>) {
    forall i :: 0 <= i < |turfs| ==> ValidHours(turfs[i])
  }

  predicate InHours(keys: seq<SlotKey>) {
    forall k :: k in keys ==> k.hour < 24
  }

  lemma DayInHours(turf: Turf, day: int)
    requires ValidHours(turf)
    ensures InHours(DayKeys(turf, day))
  {
    KeysAt(turf.id, day, turf.openHour, EndHour(turf));
  }

  lemma {:induction false} TurfsInHours(turfs: seq<Turf>, day: int)
    requires AllValid(turfs)
    ensures InHours(TurfsKeys(turfs, day))
  {
    hide DayKeys;
    if turfs == [] {
    } else {
      TurfsInHours(turfs[..|turfs| - 1], day);
      DayInHours(turfs[|turfs| - 1], day);
    }
  }

  lemma {:induction false} DaysInHours(turfs: seq<Turf>, day: int, days: nat)
    requires AllValid(turfs)
    ensures InHours(DaysKeys(turfs, day, days))
  {
    hide TurfsKeys;
    if days == 0 {
    } else {
      DaysInHours(turfs, day, days - 1);
      TurfsInHours(turfs, day + days - 1);
    }
  }

  /** Generation on demand is that of one turf for one day. */
  lemma OnDemandIsGeneration(turf: Turf, day: int)
    ensures DaysKeys([turf], day, 1) == DayKeys(turf, day)
  {
    hide DayKeys;
    assert [turf][..0] == [];
    assert TurfsKeys([turf], day) == [] + DayKeys(turf, day) == DayKeys(turf, day);
    assert DaysKeys([turf], day, 1) == [] + TurfsKeys([turf], day);
  }

  /** Slots are added by generations only, for any turfs with any valid hours and any days. */
  ghost predicate Generated(op: Op) {
    op.OpAddSlots? ==>
      exists turfs, day, days :: AllValid(turfs) && op.rows == RowsFor(DaysKeys(turfs, day, days))
  }

  lemma GeneratedIsWellTimed(op: Op)
    requires op.OpAddSlots? && Generated(op)
    ensures WellTimed(op.rows)
  {
    hide DaysKeys;
    var turfs, day, days :| AllValid(turfs) && op.rows == RowsFor(DaysKeys(turfs, day, days));
    DaysInHours(turfs, day, days);
  }

  /** Over every run of service calls, with any opening hours at each generation, all slots of a
      turf stay pairwise disjoint hours. */
  lemma {:induction false} AlwaysWellTimed(key: SlotIdKey, db: Db, ops: seq<Op>)
    requires WellTimed(db.slots) && forall i :: 0 <= i < |ops| ==> Generated(ops[i])
    ensures WellTimed(ApplyAll(key, db, ops).slots)
  {
    if ops == [] {
    } else {
      AlwaysWellTimed(key, db, ops[..|ops| - 1]);
      StaysWellTimed(key, ApplyAll(key, db, ops[..|ops| - 1]), ops[|ops| - 1]);
    }
  }

  lemma StaysWellTimed(key: SlotIdKey, db: Db, op: Op)
    requires WellTimed(db.slots) && Generated(op)
    ensures WellTimed(Apply(key, db, op).slots)
  {
    hide Generated;
    if op.OpAutoComplete? {
    } else {
      if op.OpAddSlots? { GeneratedIsWellTimed(op); }
      ApplyIsEffect(key, db, op);
      match LabelOf(key, db, op)
      case None =>
      case Some(l) => EffectWellTimed(db, l);
    }
  }

  lemma EffectWellTimed(db: Db, l: Label)
    requires WellTimed(db.slots) && (l.SlotsAdded? ==> WellTimed(l.rows))
    ensures WellTimed(Effect(db, l).slots)
  {
  }
}
