/** Which slots the list of a day offers, and when the count of its rows misleads it. */
module SlotLists {
  import opened Rows
  import opened Services
  import opened SlotGeneration
  import opened SlotCache

  /** The hours of a day that fall to a turf: those it is open from its opening hour on, and those it
      is still open from the day before. */
  predicate OwnHour(turf: Turf, h: nat) {
    (turf.openHour <= h < 24 && h < EndHour(turf)) || h + 24 < EndHour(turf)
  }

  function OwnHours(turf: Turf): set<nat> {
    set h: nat | h < 24 && OwnHour(turf, h)
  }

  predicate Missed(s: State, turf: Turf, day: int, now: int) {
    !Live(s.cache, CacheKey(turf.id, day), now)
  }

  /** Past the cache, the table has every slot of the day after a read if and only if the day had
      fewer rows than the turf is open hours, or missed none. */
  lemma FilledIff(s: State, turf: Turf, day: int, now: int)
    requires ValidHours(turf) && Missed(s, turf, day, now)
    ensures (forall k :: DayHas(turf, day, k) ==> k in AfterRead(s, turf, day, now).slots)
       <==> |HoursOn(s.slots, CacheKey(turf.id, day))| < EndHour(turf) - turf.openHour ||
            forall k :: DayHas(turf, day, k) ==> k in s.slots
  {
    hide AfterRead, Answer, DayHas, Lists, HoursOn;
    ReadLists(s, turf, day, now);
  }

  function HourRange(from: nat, until: nat): (hours: set<nat>)
    ensures forall h: nat :: h in hours <==> from <= h < until
    ensures |hours| == if from <= until then until - from else 0
  {
    if from >= until then {} else HourRange(from, until - 1) + {until - 1}
  }

  /** A turf has as many own hours on a day as it is open hours, also when it closes past midnight. */
  lemma OwnHourCount(turf: Turf)
    requires ValidHours(turf)
    ensures |OwnHours(turf)| == EndHour(turf) - turf.openHour
  {
    hide HourRange;
    var e, o := EndHour(turf), turf.openHour;
    var today, yesterday := HourRange(o, if e < 24 then e else 24), HourRange(0, if e < 24 then 0 else e - 24);
    forall h: nat
      ensures h in OwnHours(turf) <==> h in today + yesterday
    {
    }
    assert OwnHours(turf) == today + yesterday && today !! yesterday;
    hide *;
    Disjoint(today, yesterday);
  }

  lemma Disjoint(a: set<nat>, b: set<nat>)
    requires a !! b
    ensures |a + b| == |a| + |b|
  {
  }

  lemma AllOrFewer(a: set<nat>, b: set<nat>)
    requires a <= b && |a| >= |b|
    ensures a == b
  {
    if a != b {
      var x :| x in b && x !in a;
      assert a <= b - {x} && |b - {x}| == |b| - 1;
      SubsetSize(a, b - {x});
    }
  }

  lemma {:induction false} SubsetSize(a: set<nat>, b: set<nat>)
    requires a <= b
    ensures |a| <= |b|
  {
    if a == {} {
    } else {
      var x :| x in a;
      SubsetSize(a - {x}, b - {x});
    }
  }

  /** As long as the rows of the day are at the turf's own hours, the count does not mislead: whatever
      is missing, a read past the cache lists every hour of the day from opening to closing time or
      midnight. */
  lemma OpenHoursAreListed(s: State, turf: Turf, day: int, now: int, h: nat)
    requires ValidHours(turf) && Missed(s, turf, day, now)
    requires forall i :: i in HoursOn(s.slots, CacheKey(turf.id, day)) ==> OwnHour(turf, i)
    requires turf.openHour <= h < 24 && h < EndHour(turf)
    ensures Has(Answer(s, turf, day, now), h)
  {
    hide AfterRead, Answer;
    var key := CacheKey(turf.id, day);
    var k := SlotKey(turf.id, day, h);
    ReadLists(s, turf, day, now);
    assert DayHas(turf, day, k);
    if |HoursOn(s.slots, key)| >= EndHour(turf) - turf.openHour {
      OwnHourCount(turf);
      AllOrFewer(HoursOn(s.slots, key), OwnHours(turf));
      assert h in OwnHours(turf);
    }
    assert h in HoursOn(AfterRead(s, turf, day, now).slots, key);
    ListHas(Answer(s, turf, day, now), AfterRead(s, turf, day, now).slots, key, h);
  }

  /** The first look at a day of a turf that closes by midnight lists exactly its open hours, all free. */
  lemma FirstLookListsTheDay(s: State, turf: Turf, day: int, now: int)
    requires ValidHours(turf) && EndHour(turf) <= 24 && Missed(s, turf, day, now)
    requires HoursOn(s.slots, CacheKey(turf.id, day)) == {}
    ensures |Answer(s, turf, day, now)| == EndHour(turf) - turf.openHour
    ensures forall i :: 0 <= i < |Answer(s, turf, day, now)| ==>
              Answer(s, turf, day, now)[i] == (turf.openHour + i, Slot((turf.openHour + i + 1) % 24, false))
  {
    hide AfterRead, Answer;
    ReadLists(s, turf, day, now);
    var key, view, slots := CacheKey(turf.id, day), Answer(s, turf, day, now), AfterRead(s, turf, day, now).slots;
    forall h: nat
      ensures h in HoursOn(slots, key) <==> turf.openHour <= h < EndHour(turf)
    {
      assert SlotKey(turf.id, day, h) in slots && h < 24 ==>
             SlotKey(turf.id, day, h) in s.slots || DayHas(turf, day, SlotKey(turf.id, day, h));
      assert SlotKey(turf.id, day, h) in s.slots && h < 24 ==> h in HoursOn(s.slots, key);
    }
    forall h: nat
      ensures turf.openHour <= h < EndHour(turf) <==> Has(view, h)
    {
      ListHas(view, slots, key, h);
    }
    InARow(view, turf.openHour, EndHour(turf));
    forall i | 0 <= i < |view|
      ensures view[i] == (turf.openHour + i, Slot((turf.openHour + i + 1) % 24, false))
    {
      assert view[i] in view && view[i].0 == turf.openHour + i;
      assert view[i].0 !in HoursOn(s.slots, key);
    }
  }

  predicate Has(view: View, h: nat) {
    exists i :: 0 <= i < |view| && view[i].0 == h
  }

  lemma ListHas(view: View, slots: map<SlotKey, Slot>, key: CacheKey, h: nat)
    requires Lists(view, slots, key)
    ensures Has(view, h) <==> h in HoursOn(slots, key)
  {
    if Has(view, h) {
      var i :| 0 <= i < |view| && view[i].0 == h;
      assert (h, view[i].1) in view;
    }
    if h in HoursOn(slots, key) {
      var row := (h, slots[SlotKey(key.turf, key.day, h)]);
      assert row in view;
      var i :| 0 <= i < |view| && view[i] == row;
    }
  }

  /** An ascending list that has exactly the hours from `from` to `until`. */
  lemma {:induction false} InARow(view: View, from: nat, until: nat)
    requires forall i, j :: 0 <= i < j < |view| ==> view[i].0 < view[j].0
    requires from <= until && forall h: nat :: from <= h < until <==> Has(view, h)
    ensures |view| == until - from && forall i :: 0 <= i < |view| ==> view[i].0 == from + i
  {
    if from == until {
      assert view != [] ==> Has(view, view[0].0);
    } else {
      assert Has(view, until - 1);
      var n, init := |view| - 1, view[..|view| - 1];
      var j :| 0 <= j <= n && view[j].0 == until - 1;
      assert Has(view, view[n].0);
      assert view[n].0 == until - 1;
      forall h: nat
        ensures from <= h < until - 1 <==> Has(init, h)
      {
        assert Has(init, h) ==> Has(view, h);
        if Has(init, h) {
          var i :| 0 <= i < n && init[i].0 == h;
          assert view[i].0 < view[n].0;
        }
        if from <= h < until - 1 {
          assert Has(view, h);
          var i :| 0 <= i <= n && view[i].0 == h;
          assert init[i].0 == h;
        }
      }
      InARow(init, from, until - 1);
    }
  }

  lemma GeneratedHours(turf: Turf, day: int)
    requires ValidHours(turf) && EndHour(turf) <= 24
    ensures HoursOn(InsertSkip(map[], DayKeys(turf, day)), CacheKey(turf.id, day)) ==
              HourRange(turf.openHour, EndHour(turf))
  {
    hide InsertSkip, DayKeys;
    var slots, key := InsertSkip(map[], DayKeys(turf, day)), CacheKey(turf.id, day);
    InsertsMissing(map[], DayKeys(turf, day));
    forall h: nat
      ensures h in HoursOn(slots, key) <==> h in HourRange(turf.openHour, EndHour(turf))
    {
      DayKeysAre(turf, day, SlotKey(turf.id, day, h));
    }
  }

  /** When a turf changes its hours, days that have rows for the old ones keep them: if the new day is
      no longer than the old one was, a read past the cache generates nothing, and no new hour is
      offered. */
  lemma NewHoursAreNotOffered(s: State, before: Turf, turf: Turf, day: int, now: int, h: nat)
    requires ValidHours(before) && ValidHours(turf) && before.id == turf.id && EndHour(before) <= 24
    requires s.slots == InsertSkip(map[], DayKeys(before, day)) && Missed(s, turf, day, now)
    requires EndHour(turf) - turf.openHour <= EndHour(before) - before.openHour
    ensures AfterRead(s, turf, day, now).slots == s.slots
    ensures Has(Answer(s, turf, day, now), h) <==> before.openHour <= h < EndHour(before)
  {
    hide AfterRead, Answer, InsertSkip, DayKeys, Lists, HoursOn;
    var key := CacheKey(turf.id, day);
    ReadLists(s, turf, day, now);
    GeneratedHours(before, day);
    ListHas(Answer(s, turf, day, now), s.slots, key, h);
  }
}
