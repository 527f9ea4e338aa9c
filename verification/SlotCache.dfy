/** The slot list of a turf and day behind its sixty-second cache. */
module SlotCache {
  import opened Rows
  import Operations
  import opened Services
  import opened SlotGeneration
  import opened Calendar

  const TTL_MS: int := 60000

  datatype CacheKey = CacheKey(turf: Id, day: int)

  /** Rows of a day in the order of their start time. */
  type View = seq<(nat, Slot)>

  datatype Cached = Cached(view: View, until: int)

  datatype State = State(slots: map<SlotKey, Slot>, cache: map<CacheKey, Cached>)

  function ViewUpTo(slots: map<SlotKey, Slot>, key: CacheKey, h: nat): View {
    if h == 0 then []
    else ViewUpTo(slots, key, h - 1) +
         (var k := SlotKey(key.turf, key.day, h - 1); if k in slots then [(h - 1, slots[k])] else [])
  }

  /** What findMany ordered by startTime returns for a turf and day. */
  function ViewOf(slots: map<SlotKey, Slot>, key: CacheKey): View {
    ViewUpTo(slots, key, 24)
  }

  predicate Live(cache: map<CacheKey, Cached>, key: CacheKey, now: int) {
    key in cache && now < cache[key].until
  }

  predicate Generates(s: State, turf: Turf, day: int)
    requires ValidHours(turf)
  {
    |ViewOf(s.slots, CacheKey(turf.id, day))| < SlotCount(turf)
  }

  /** The table after a read that missed the cache: short days are generated on demand. */
  function Filled(s: State, turf: Turf, day: int): map<SlotKey, Slot>
    requires ValidHours(turf)
  {
    if Generates(s, turf, day) then InsertSkip(s.slots, DayKeys(turf, day)) else s.slots
  }

  function Answer(s: State, turf: Turf, day: int, now: int): View
    requires ValidHours(turf)
  {
    var key := CacheKey(turf.id, day);
    if Live(s.cache, key, now) then s.cache[key].view else ViewOf(Filled(s, turf, day), key)
  }

  function AfterRead(s: State, turf: Turf, day: int, now: int): State
    requires ValidHours(turf)
  {
    var key := CacheKey(turf.id, day);
    if Live(s.cache, key, now) then s
    else
      var slots := Filled(s, turf, day);
      State(slots, s.cache[key := Cached(ViewOf(slots, key), now + TTL_MS)])
  }

  function Invalidate(cache: map<CacheKey, Cached>, turfs: set<Id>): map<CacheKey, Cached> {
    map k | k in cache && k.turf !in turfs :: cache[k]
  }

  // ---- What a read that misses the cache does, told from the rows ----

  /** The hours of a day that have a row. */
  function HoursOn(slots: map<SlotKey, Slot>, key: CacheKey): set<nat> {
    set h: nat | h < 24 && SlotKey(key.turf, key.day, h) in slots
  }

  /** A list has exactly the rows of the day, by their hours. */
  ghost predicate Lists(view: View, slots: map<SlotKey, Slot>, key: CacheKey) {
    (forall h, row ::
       (h, row) in view <==> h in HoursOn(slots, key) && slots[SlotKey(key.turf, key.day, h)] == row) &&
    (forall i, j :: 0 <= i < j < |view| ==> view[i].0 < view[j].0)
  }

  /** A day with fewer rows than the turf is open hours gets every slot it misses, those past midnight
      included, unbooked; nothing else changes. */
  ghost predicate ToppedUp(before: map<SlotKey, Slot>, after: map<SlotKey, Slot>, turf: Turf, day: int) {
    if |HoursOn(before, CacheKey(turf.id, day))| >= EndHour(turf) - turf.openHour then after == before
    else
      (forall k :: k in after <==> k in before || DayHas(turf, day, k)) &&
      (forall k :: k in after ==> after[k] == if k in before then before[k] else Slot((k.hour + 1) % 24, false))
  }

  lemma {:induction false} ViewLists(slots: map<SlotKey, Slot>, key: CacheKey, h: nat)
    ensures forall i: nat, row: Slot ::
              (i, row) in ViewUpTo(slots, key, h) <==>
              i < h && SlotKey(key.turf, key.day, i) in slots && slots[SlotKey(key.turf, key.day, i)] == row
    ensures var view := ViewUpTo(slots, key, h); forall i, j :: 0 <= i < j < |view| ==> view[i].0 < view[j].0
    ensures |ViewUpTo(slots, key, h)| == |set i: nat | i < h && SlotKey(key.turf, key.day, i) in slots|
  {
    var hours := set i: nat | i < h && SlotKey(key.turf, key.day, i) in slots;
    if h == 0 {
      assert hours == {};
    } else {
      ViewLists(slots, key, h - 1);
      var fewer := set i: nat | i < h - 1 && SlotKey(key.turf, key.day, i) in slots;
      var init, view := ViewUpTo(slots, key, h - 1), ViewUpTo(slots, key, h);
      if SlotKey(key.turf, key.day, h - 1) in slots {
        assert hours == fewer + {h - 1};
        assert forall i :: 0 <= i < |init| ==> init[i] in init && init[i].0 < h - 1;
      } else {
        assert hours == fewer && view == init;
      }
    }
  }

  lemma ReadLists(s: State, turf: Turf, day: int, now: int)
    requires ValidHours(turf)
    ensures var key := CacheKey(turf.id, day); var s' := AfterRead(s, turf, day, now);
            !Live(s.cache, key, now) ==>
              Lists(Answer(s, turf, day, now), s'.slots, key) && ToppedUp(s.slots, s'.slots, turf, day)
  {
    hide InsertSkip, DayKeys, DayHas, ViewUpTo;
    var key, slots := CacheKey(turf.id, day), Filled(s, turf, day);
    ViewLists(slots, key, 24);
    ViewLists(s.slots, key, 24);
    InsertsMissing(s.slots, DayKeys(turf, day));
    forall k
      ensures k in DayKeys(turf, day) <==> DayHas(turf, day, k)
    {
      DayKeysAre(turf, day, k);
    }
  }

  // ---- The service ----

  class TurfService {
    const t: Tables
    const slotService: SlotService
    var cache: map<CacheKey, Cached>

    constructor (t: Tables, slotService: SlotService)
      requires slotService.t == t
      ensures this.t == t && this.slotService == slotService && cache == map[]
    {
      this.t, this.slotService, cache := t, slotService, map[];
    }

    function Now(): State
      reads this, t
    {
      State(t.slots, cache)
    }

    method GetAvailableSlots(turf: Turf, date: int, now: int) returns (view: View)
      requires ValidHours(turf) && slotService.t == t
      modifies this`cache, t`slots
      ensures view == Answer(old(Now()), turf, Day(date), now)
      ensures Now() == AfterRead(old(Now()), turf, Day(date), now)
      ensures var key := CacheKey(turf.id, Day(date));
              if key in old(cache) && now < old(cache)[key].until
              then view == old(cache)[key].view && t.slots == old(t.slots) && cache == old(cache)
              else Lists(view, t.slots, key) && cache == old(cache)[key := Cached(view, now + 60 * 1000)] &&
                   ToppedUp(old(t.slots), t.slots, turf, Day(date))
    {
      hide Lists, ToppedUp, InsertSkip, DayKeys, ViewUpTo, Day;
      ReadLists(Now(), turf, Day(date), now);
      var searchDate := new JsDate(date);
      searchDate.SetUTCHours(0, 0, 0, 0);
      MidnightDay(date);
      var day := Day(searchDate.t);
      var cacheKey := CacheKey(turf.id, day);
      if cacheKey in cache && now < cache[cacheKey].until {
        return cache[cacheKey].view;
      }
      var endHour := turf.closeHour;
      if endHour <= turf.openHour {
        endHour := endHour + 24;
      }
      var expectedSlotsCount := endHour - turf.openHour;
      view := FindMany(cacheKey);
      if |view| < expectedSlotsCount {
        slotService.GenerateTurfSlots(turf, searchDate.t);
        view := FindMany(cacheKey);
      }
      cache := cache[cacheKey := Cached(view, now + TTL_MS)];
    }

    method FindMany(key: CacheKey) returns (view: View)
      ensures view == ViewOf(t.slots, key)
    {
      view := [];
      var h := 0;
      while h < 24
        invariant 0 <= h <= 24 && view == ViewUpTo(t.slots, key, h)
      {
        var k := SlotKey(key.turf, key.day, h);
        if k in t.slots { view := view + [(h, t.slots[k])]; }
        h := h + 1;
      }
    }

    /** delByPattern(`slots:available:<turf>:*`): a scan returns matching keys page by page, every
        key that stays in the store at least once. */
    method DelByPattern(turf: Id, pages: seq<set<CacheKey>>)
      requires forall i, k :: 0 <= i < |pages| && k in pages[i] ==> k.turf == turf
      requires forall k :: k in cache && k.turf == turf ==> exists i :: 0 <= i < |pages| && k in pages[i]
      modifies this`cache
      ensures cache == Invalidate(old(cache), {turf})
    {
      var cursor := 0;
      while cursor < |pages|
        invariant 0 <= cursor <= |pages|
        invariant forall k :: k in cache ==> k in old(cache) && cache[k] == old(cache)[k]
        invariant forall k :: k in old(cache) && k !in cache ==> k.turf == turf
        invariant forall i, k :: 0 <= i < cursor && k in pages[i] ==> k !in cache
      {
        cache := cache - pages[cursor];
        cursor := cursor + 1;
      }
    }
  }

  // ---- When invalidation succeeds ----

  /** Every live cache entry is the current view. */
  ghost predicate Current(s: State, now: int) {
    forall key :: Live(s.cache, key, now) ==> s.cache[key].view == ViewOf(s.slots, key)
  }

  /** A write that touches the slots of some turfs only. */
  ghost predicate Touches(before: map<SlotKey, Slot>, after: map<SlotKey, Slot>, turfs: set<Id>) {
    forall k: SlotKey :: k.turf !in turfs ==> (k in before <==> k in after) && (k in before ==> before[k] == after[k])
  }

  /** The booking calls touch no slot outside the turfs whose lists they drop. */
  lemma CallsTouchOwnTurfs(key: SlotIdKey, db: Db, id: Id, user: Id, turf: Id, slot: SlotKey, turfActive: bool,
      now: int)
    ensures Touches(db.slots, Operations.Create(key, db, id, user, turf, slot, turfActive, now).0.slots, {turf})
    ensures id in db.bookings ==>
              Touches(db.slots, Operations.Cancel(db, id, user).0.slots, {db.bookings[id].slot.turf})
    ensures var stale := Operations.Stale(db, now - Operations.STALE_MS);
            Touches(db.slots, Operations.CleanupStale(db, now).slots, set k | k in SlotsOf(db, stale) :: k.turf)
  {
  }

  lemma {:induction false} SameView(a: map<SlotKey, Slot>, b: map<SlotKey, Slot>, key: CacheKey, h: nat)
    requires forall i :: 0 <= i < h ==> var k := SlotKey(key.turf, key.day, i);
               (k in a <==> k in b) && (k in a ==> a[k] == b[k])
    ensures ViewUpTo(a, key, h) == ViewUpTo(b, key, h)
  {
    if h == 0 {
    } else {
      SameView(a, b, key, h - 1);
    }
  }

  lemma {:induction false} ViewHas(slots: map<SlotKey, Slot>, key: CacheKey, h: nat, i: nat)
    requires i < h
    ensures SlotKey(key.turf, key.day, i) in slots <==> exists row :: (i, row) in ViewUpTo(slots, key, h)
    decreases h
  {
    ViewBelow(slots, key, h - 1);
    var k := SlotKey(key.turf, key.day, h - 1);
    if i < h - 1 {
      ViewHas(slots, key, h - 1, i);
      if row :| (i, row) in ViewUpTo(slots, key, h) { assert (i, row) in ViewUpTo(slots, key, h - 1); }
      if row :| (i, row) in ViewUpTo(slots, key, h - 1) { assert (i, row) in ViewUpTo(slots, key, h); }
    } else if k in slots {
      assert (i, slots[k]) in ViewUpTo(slots, key, h);
    }
  }

  lemma {:induction false} ViewBelow(slots: map<SlotKey, Slot>, key: CacheKey, h: nat)
    ensures forall i, row :: (i, row) in ViewUpTo(slots, key, h) ==> i < h
  {
    if h == 0 {
    } else {
      ViewBelow(slots, key, h - 1);
    }
  }

  predicate RowsDiffer(a: map<SlotKey, Slot>, b: map<SlotKey, Slot>, k: SlotKey) {
    (k in a) != (k in b) || (k in a && a[k] != b[k])
  }

  lemma {:induction false} ViewHasRow(slots: map<SlotKey, Slot>, key: CacheKey, h: nat, i: nat, row: Slot)
    requires i < h
    ensures var k := SlotKey(key.turf, key.day, i);
            (i, row) in ViewUpTo(slots, key, h) <==> k in slots && slots[k] == row
    decreases h
  {
    ViewBelow(slots, key, h - 1);
    if i < h - 1 { ViewHasRow(slots, key, h - 1, i, row); }
  }

  /** A day's list shows every difference in its rows. */
  lemma ViewsDiffer(a: map<SlotKey, Slot>, b: map<SlotKey, Slot>, k: SlotKey)
    requires RowsDiffer(a, b, k) && k.hour < 24
    ensures ViewOf(a, CacheKey(k.turf, k.day)) != ViewOf(b, CacheKey(k.turf, k.day))
  {
    var key := CacheKey(k.turf, k.day);
    if k in a {
      ViewHasRow(a, key, 24, k.hour, a[k]);
      ViewHasRow(b, key, 24, k.hour, a[k]);
    } else {
      ViewHasRow(a, key, 24, k.hour, b[k]);
      ViewHasRow(b, key, 24, k.hour, b[k]);
    }
  }

  /** A write whose turfs are invalidated with it leaves no stale entry. */
  lemma WriteAndDropKeepsCurrent(s: State, slots: map<SlotKey, Slot>, turfs: set<Id>, now: int)
    requires Current(s, now) && Touches(s.slots, slots, turfs)
    ensures Current(State(slots, Invalidate(s.cache, turfs)), now)
  {
    forall key | Live(Invalidate(s.cache, turfs), key, now)
      ensures ViewOf(slots, key) == ViewOf(s.slots, key)
    {
      SameView(slots, s.slots, key, 24);
    }
  }

  /** The slots a read would add past midnight. */
  ghost predicate AddsNextDay(s: State, turf: Turf, day: int) {
    exists k :: k in DayKeys(turf, day) && k.day == day + 1 && k !in s.slots
  }

  lemma DayKeysDays(turf: Turf, day: int, k: SlotKey)
    requires ValidHours(turf) && k in DayKeys(turf, day)
    ensures k.turf == turf.id && k.hour < 24 && (k.day == day || k.day == day + 1)
  {
    DayTiles(turf, day);
    var i :| 0 <= i < |DayKeys(turf, day)| && DayKeys(turf, day)[i] == k;
    assert Hours(k) == 24 * day + turf.openHour + i;
  }

  lemma FilledOutside(s: State, turf: Turf, day: int, key: CacheKey)
    requires ValidHours(turf) && key != CacheKey(turf.id, day)
    requires key == CacheKey(turf.id, day + 1) ==> !AddsNextDay(s, turf, day)
    ensures ViewOf(Filled(s, turf, day), key) == ViewOf(s.slots, key)
  {
    hide InsertSkip, DayKeys;
    InsertsMissing(s.slots, DayKeys(turf, day));
    forall i | 0 <= i < 24
      ensures var k := SlotKey(key.turf, key.day, i); k in Filled(s, turf, day) <==> k in s.slots
      ensures var k := SlotKey(key.turf, key.day, i); k in s.slots ==> Filled(s, turf, day)[k] == s.slots[k]
    {
      var k := SlotKey(key.turf, key.day, i);
      if k in DayKeys(turf, day) { DayKeysDays(turf, day, k); }
    }
    SameView(Filled(s, turf, day), s.slots, key, 24);
  }

  /** Past a cache miss, the read generates a missing slot of the next day while that day's list is
      cached: generation on demand invalidates nothing. */
  ghost predicate Blind(s: State, turf: Turf, day: int, now: int)
    requires ValidHours(turf)
  {
    !Live(s.cache, CacheKey(turf.id, day), now) && Generates(s, turf, day) &&
    Live(s.cache, CacheKey(turf.id, day + 1), now) && AddsNextDay(s, turf, day)
  }

  /** A read keeps every cached view current exactly when it is not blind. */
  lemma ReadKeepsCurrentIff(s: State, turf: Turf, day: int, now: int)
    requires Current(s, now) && ValidHours(turf)
    ensures Current(AfterRead(s, turf, day, now), now) <==> !Blind(s, turf, day, now)
  {
    hide ViewOf, InsertSkip, DayKeys;
    var here, next := CacheKey(turf.id, day), CacheKey(turf.id, day + 1);
    var s' := AfterRead(s, turf, day, now);
    if Live(s.cache, here, now) || !Generates(s, turf, day) {
    } else if Live(s.cache, next, now) && AddsNextDay(s, turf, day) {
      NextDayStale(s, turf, day);
      assert s'.cache[next] == s.cache[next];
    } else {
      forall key | Live(s'.cache, key, now)
        ensures s'.cache[key].view == ViewOf(s'.slots, key)
      {
        if key != here { FilledOutside(s, turf, day, key); }
      }
    }
  }

  lemma NextDayStale(s: State, turf: Turf, day: int)
    requires ValidHours(turf) && Generates(s, turf, day) && AddsNextDay(s, turf, day)
    ensures ViewOf(Filled(s, turf, day), CacheKey(turf.id, day + 1)) != ViewOf(s.slots, CacheKey(turf.id, day + 1))
  {
    hide InsertSkip, DayKeys;
    var next := CacheKey(turf.id, day + 1);
    var k :| k in DayKeys(turf, day) && k.day == day + 1 && k !in s.slots;
    DayKeysDays(turf, day, k);
    InsertsMissing(s.slots, DayKeys(turf, day));
    ViewHas(s.slots, next, 24, k.hour);
    ViewHas(Filled(s, turf, day), next, 24, k.hour);
  }

  /** While the cached views are current, a read answers with the current view. */
  lemma ReadIsCurrent(s: State, turf: Turf, day: int, now: int)
    requires Current(s, now) && ValidHours(turf)
    ensures Answer(s, turf, day, now) == ViewOf(AfterRead(s, turf, day, now).slots, CacheKey(turf.id, day))
  {
  }

  /** A booking, cancellation or cleanup with its invalidation, or a read. */
  datatype Step = Booked(slots: map<SlotKey, Slot>, turfs: set<Id>, now: int) | Looked(reader: Turf, day: int, now: int)

  ghost predicate Proper(s: State, e: Step) {
    match e
    case Booked(slots, turfs, _) => Touches(s.slots, slots, turfs)
    case Looked(reader, day, now) => ValidHours(reader)
  }

  function Take(s: State, e: Step): State {
    match e
    case Booked(slots, turfs, now) => State(slots, Invalidate(s.cache, turfs))
    case Looked(reader, day, now) => if ValidHours(reader) then AfterRead(s, reader, day, now) else s
  }

  function TakeAll(s0: State, es: seq<Step>): State {
    if es == [] then s0 else Take(TakeAll(s0, es[..|es| - 1]), es[|es| - 1])
  }

  /** A run from an empty cache in which time does not run backwards. */
  ghost predicate ProperRun(s0: State, es: seq<Step>) {
    if es == [] then s0.cache == map[]
    else
      ProperRun(s0, es[..|es| - 1]) && Proper(TakeAll(s0, es[..|es| - 1]), es[|es| - 1]) &&
      (|es| >= 2 ==> es[|es| - 2].now <= es[|es| - 1].now)
  }

  ghost predicate CurrentThroughout(s0: State, es: seq<Step>) {
    es == [] || (CurrentThroughout(s0, es[..|es| - 1]) && Current(TakeAll(s0, es), es[|es| - 1].now))
  }

  ghost predicate NoBlindRead(s0: State, es: seq<Step>) {
    es == [] ||
    (NoBlindRead(s0, es[..|es| - 1]) &&
     match es[|es| - 1]
     case Booked(_, _, _) => true
     case Looked(reader, day, now) => ValidHours(reader) ==> !Blind(TakeAll(s0, es[..|es| - 1]), reader, day, now))
  }

  lemma StepKeepsCurrentIff(s: State, e: Step)
    requires Proper(s, e) && Current(s, e.now)
    ensures Current(Take(s, e), e.now) <==> (e.Looked? ==> !Blind(s, e.reader, e.day, e.now))
  {
    hide Current, Blind;
    match e
    case Booked(slots, turfs, t) => WriteAndDropKeepsCurrent(s, slots, turfs, t);
    case Looked(reader, day, t) => ReadKeepsCurrentIff(s, reader, day, t);
  }

  lemma StaysCurrent(s: State, now: int, later: int)
    requires Current(s, now) && now <= later
    ensures Current(s, later)
  {
  }

  /** Over every run of bookings, cancellations and cleanups whose invalidations succeed, and of
      reads, the cached lists are current throughout exactly when no read is blind. */
  lemma {:induction false} CurrentIffNoBlindRead(s0: State, es: seq<Step>)
    requires ProperRun(s0, es)
    ensures CurrentThroughout(s0, es) <==> NoBlindRead(s0, es)
  {
    hide Current, Blind, Take;
    if es == [] {
    } else {
      var init, e := es[..|es| - 1], es[|es| - 1];
      CurrentIffNoBlindRead(s0, init);
      if NoBlindRead(s0, init) {
        CurrentAt(s0, init, e.now);
        StepKeepsCurrentIff(TakeAll(s0, init), e);
      }
    }
  }

  lemma CurrentAt(s0: State, es: seq<Step>, now: int)
    requires ProperRun(s0, es) && CurrentThroughout(s0, es)
    requires es != [] ==> es[|es| - 1].now <= now
    ensures Current(TakeAll(s0, es), now)
  {
    if es != [] { StaysCurrent(TakeAll(s0, es), es[|es| - 1].now, now); }
  }

  lemma {:induction false} NoRowsNoView(slots: map<SlotKey, Slot>, key: CacheKey, h: nat)
    requires forall i :: 0 <= i < h ==> SlotKey(key.turf, key.day, i) !in slots
    ensures ViewUpTo(slots, key, h) == []
  {
    if h == 0 {
    } else {
      NoRowsNoView(slots, key, h - 1);
    }
  }

  lemma OvernightKeys(turf: Turf, day: int)
    requires ValidHours(turf) && EndHour(turf) > 24
    ensures SlotKey(turf.id, day + 1, 0) in DayKeys(turf, day)
    ensures SlotKey(turf.id, day + 1, 0) !in DayKeys(turf, day + 1)
  {
    DayTiles(turf, day);
    DayTiles(turf, day + 1);
    hide DayKeys;
    var k := DayKeys(turf, day)[24 - turf.openHour];
    assert Hours(k) == 24 * (day + 1);
    assert k == SlotKey(turf.id, day + 1, 0);
    var next := DayKeys(turf, day + 1);
    assert forall i :: 0 <= i < |next| ==> Hours(next[i]) == 24 * (day + 1) + turf.openHour + i;
    assert forall i :: 0 <= i < |next| ==> next[i] != k;
  }

  /** A blind read needs no more than two looks at a turf that closes past midnight: at the next day,
      and then at the day itself. */
  lemma OvernightReadIsBlind(s0: State, turf: Turf, day: int, now: int)
    requires ValidHours(turf) && EndHour(turf) > 24 && s0.cache == map[]
    requires forall k :: k in s0.slots ==> k.turf != turf.id
    ensures var es := [Looked(turf, day + 1, now), Looked(turf, day, now)];
            ProperRun(s0, es) && !NoBlindRead(s0, es) && !CurrentThroughout(s0, es)
  {
    hide ViewOf, InsertSkip, DayKeys, Current, Generates;
    var e1, e2 := Looked(turf, day + 1, now), Looked(turf, day, now);
    var es := [e1, e2];
    assert es[..|es| - 1] == [e1] && [e1][..|[e1]| - 1] == [];
    var s1 := Take(s0, e1);
    assert TakeAll(s0, [e1]) == s1;
    ShortDay(s0, turf, day + 1);
    InsertsMissing(s0.slots, DayKeys(turf, day + 1));
    OvernightKeys(turf, day);
    ShortAfterNext(s0, s1, turf, day);
    assert Blind(s1, turf, day, now);
    assert ProperRun(s0, []) && ProperRun(s0, [e1]);
    assert ProperRun(s0, es);
    assert !NoBlindRead(s0, es);
    CurrentIffNoBlindRead(s0, es);
  }

  lemma ShortDay(s: State, turf: Turf, day: int)
    requires ValidHours(turf) && forall k :: k in s.slots ==> k.turf != turf.id || k.day != day
    ensures Generates(s, turf, day)
  {
    NoRowsNoView(s.slots, CacheKey(turf.id, day), 24);
  }

  lemma ShortAfterNext(s0: State, s1: State, turf: Turf, day: int)
    requires ValidHours(turf) && forall k :: k in s0.slots ==> k.turf != turf.id
    requires s1.slots == WithRows(s0.slots, KeySet(DayKeys(turf, day + 1)))
    ensures Generates(s1, turf, day)
  {
    hide DayKeys, Generates;
    forall k | k in s1.slots
      ensures k.turf != turf.id || k.day != day
    {
      if k in DayKeys(turf, day + 1) { DayKeysDays(turf, day + 1, k); }
    }
    ShortDay(s1, turf, day);
  }

  lemma DaytimeAddsNothing(s: State, turf: Turf, day: int)
    requires ValidHours(turf) && EndHour(turf) <= 24
    ensures !AddsNextDay(s, turf, day)
  {
    hide DayKeys;
    DayTiles(turf, day);
    forall k | k in DayKeys(turf, day) ensures k.day != day + 1 {
      var i :| 0 <= i < |DayKeys(turf, day)| && DayKeys(turf, day)[i] == k;
      assert Hours(k) == 24 * day + turf.openHour + i < 24 * (day + 1);
    }
  }

  lemma {:induction false} DaytimeIsNeverBlind(s0: State, es: seq<Step>)
    requires ProperRun(s0, es)
    requires forall i :: 0 <= i < |es| && es[i].Looked? ==> EndHour(es[i].reader) <= 24
    ensures NoBlindRead(s0, es)
  {
    hide Take, AddsNextDay, Generates;
    if es == [] {
    } else {
      var init, e := es[..|es| - 1], es[|es| - 1];
      DaytimeIsNeverBlind(s0, init);
      if e.Looked? { DaytimeAddsNothing(TakeAll(s0, init), e.reader, e.day); }
    }
  }

  /** So where every turf closes by midnight, each read answers with the view of its moment. */
  lemma DaytimeReadsAreCurrent(s0: State, es: seq<Step>, turf: Turf, day: int, now: int)
    requires ProperRun(s0, es) && ValidHours(turf) && (es != [] ==> es[|es| - 1].now <= now)
    requires forall i :: 0 <= i < |es| && es[i].Looked? ==> EndHour(es[i].reader) <= 24
    ensures var s := TakeAll(s0, es);
            Answer(s, turf, day, now) == ViewOf(AfterRead(s, turf, day, now).slots, CacheKey(turf.id, day))
  {
    hide Current, NoBlindRead, CurrentThroughout;
    DaytimeIsNeverBlind(s0, es);
    CurrentIffNoBlindRead(s0, es);
    CurrentAt(s0, es, now);
    ReadIsCurrent(TakeAll(s0, es), turf, day, now);
  }

  // ---- Requests that overlap ----

  /** A request past a cache miss, between its database calls. */
  datatype Request =
    | Missed(reader: Turf, day: int)
    | Short(reader: Turf, day: int)
    | Generated(reader: Turf, day: int)
    | Fetched(key: CacheKey, view: View)

  datatype Traffic = Traffic(s: State, requests: map<Id, Request>)

  /** `Read` is a request's look at the cache, `Go` its next call after a miss: it finds the rows, then
      generates and finds again if they are too few, and last stores the list it has read. */
  datatype Event =
    | Write(slots: map<SlotKey, Slot>, now: int)
    | Drop(turfs: set<Id>, now: int)
    | WriteAndDrop(slots: map<SlotKey, Slot>, turfs: set<Id>, now: int)
    | Read(id: Id, reader: Turf, day: int, now: int)
    | Go(id: Id, now: int)

  function GoOn(s: State, r: Request, now: int): (State, Option<Request>) {
    match r
    case Missed(reader, day) =>
      var view := ViewOf(s.slots, CacheKey(reader.id, day));
      if ValidHours(reader) && |view| < SlotCount(reader) then (s, Some(Short(reader, day)))
      else (s, Some(Fetched(CacheKey(reader.id, day), view)))
    case Short(reader, day) => (s.(slots := InsertSkip(s.slots, DayKeys(reader, day))), Some(Generated(reader, day)))
    case Generated(reader, day) =>
      (s, Some(Fetched(CacheKey(reader.id, day), ViewOf(s.slots, CacheKey(reader.id, day)))))
    case Fetched(key, view) => (s.(cache := s.cache[key := Cached(view, now + TTL_MS)]), None)
  }

  function Next(t: Traffic, e: Event): Traffic {
    match e
    case Write(slots, _) => t.(s := t.s.(slots := slots))
    case Drop(turfs, _) => t.(s := t.s.(cache := Invalidate(t.s.cache, turfs)))
    case WriteAndDrop(slots, turfs, _) => t.(s := State(slots, Invalidate(t.s.cache, turfs)))
    case Read(id, reader, day, now) =>
      if Live(t.s.cache, CacheKey(reader.id, day), now) then t
      else t.(requests := t.requests[id := Missed(reader, day)])
    case Go(id, now) =>
      if id !in t.requests then t
      else
        var (s, r) := GoOn(t.s, t.requests[id], now);
        Traffic(s, if r.Some? then t.requests[id := r.value] else t.requests - {id})
  }

  function Stage(t: Traffic, id: Id): nat {
    if id !in t.requests then 0
    else match t.requests[id]
      case Missed(_, _) => 4
      case Short(_, _) => 3
      case Generated(_, _) => 2
      case Fetched(_, _) => 1
  }

  function Finish(t: Traffic, id: Id, now: int): Traffic
    decreases Stage(t, id)
  {
    if id !in t.requests then t else Finish(Next(t, Go(id, now)), id, now)
  }

  /** A request that nothing overlaps leaves what the atomic read leaves. */
  lemma AloneIsAtomic(t: Traffic, id: Id, turf: Turf, day: int, now: int)
    requires ValidHours(turf) && id !in t.requests
    ensures Finish(Next(t, Read(id, turf, day, now)), id, now) == Traffic(AfterRead(t.s, turf, day, now), t.requests)
  {
    hide ViewOf, InsertSkip, DayKeys, Invalidate;
    var key := CacheKey(turf.id, day);
    if !Live(t.s.cache, key, now) {
      var t1 := Next(t, Read(id, turf, day, now));
      var t2 := Next(t1, Go(id, now));
      assert Finish(t1, id, now) == Finish(t2, id, now);
      if Generates(t.s, turf, day) {
        var t3 := Next(t2, Go(id, now));
        var t4 := Next(t3, Go(id, now));
        assert Finish(t2, id, now) == Finish(t3, id, now) == Finish(t4, id, now);
        StoresAndEnds(t, t4, id, Fetched(key, ViewOf(Filled(t.s, turf, day), key)), now);
      } else {
        StoresAndEnds(t, t2, id, Fetched(key, ViewOf(t.s.slots, key)), now);
      }
    }
  }

  lemma StoresAndEnds(t: Traffic, t': Traffic, id: Id, f: Request, now: int)
    requires id !in t.requests && f.Fetched? && t'.requests == t.requests[id := f]
    ensures var cache := t'.s.cache[f.key := Cached(f.view, now + TTL_MS)];
            Finish(t', id, now) == Traffic(t'.s.(cache := cache), t.requests)
  {
    hide ViewOf, InsertSkip, DayKeys, Invalidate;
    assert t'.requests - {id} == t.requests;
    var t'' := Next(t', Go(id, now));
    assert id !in t''.requests && Finish(t'', id, now) == t'';
  }

  predicate Timed(es: seq<Event>) {
    forall i, j :: 0 <= i < j < |es| ==> es[i].now <= es[j].now
  }

  function At(t0: Traffic, es: seq<Event>, n: nat): Traffic
    requires n <= |es|
  {
    if n == 0 then t0 else Next(At(t0, es, n - 1), es[n - 1])
  }

  // ---- How old an answer can be ----

  /** The view is the true one right after step f. */
  predicate TrueAfter(t0: Traffic, es: seq<Event>, f: nat, key: CacheKey, view: View) {
    f < |es| && view == ViewOf(At(t0, es, f + 1).s.slots, key)
  }

  /** Request `id` found the view at step f. */
  predicate FoundAt(t0: Traffic, es: seq<Event>, f: nat, id: Id, key: CacheKey, view: View) {
    f < |es| && es[f].Go? && es[f].id == id && TrueAfter(t0, es, f, key, view)
  }

  ghost predicate WasFound(t0: Traffic, es: seq<Event>, n: nat, id: Id, key: CacheKey, view: View) {
    exists f :: 0 <= f < n && FoundAt(t0, es, f, id, key, view)
  }

  /** The entry was stored at step g by a request that had found it before. */
  ghost predicate StoredAt(t0: Traffic, es: seq<Event>, g: nat, key: CacheKey, c: Cached) {
    g < |es| && es[g].Go? && c.until == es[g].now + TTL_MS && WasFound(t0, es, g, es[g].id, key, c.view)
  }

  ghost predicate WasStored(t0: Traffic, es: seq<Event>, n: nat, key: CacheKey, c: Cached) {
    exists g :: 0 <= g < n && StoredAt(t0, es, g, key, c)
  }

  ghost predicate AllFound(t0: Traffic, es: seq<Event>, n: nat)
    requires n <= |es|
  {
    var rs := At(t0, es, n).requests;
    forall id :: id in rs && rs[id].Fetched? ==> WasFound(t0, es, n, id, rs[id].key, rs[id].view)
  }

  lemma {:induction false} FetchedWasFound(t0: Traffic, es: seq<Event>, n: nat)
    requires n <= |es| && t0.requests == map[]
    ensures AllFound(t0, es, n)
  {
    hide ViewOf, InsertSkip, DayKeys, Invalidate;
    if n == 0 {
    } else {
      FetchedWasFound(t0, es, n - 1);
      var before, after := At(t0, es, n - 1).requests, At(t0, es, n).requests;
      forall id | id in after && after[id].Fetched?
        ensures WasFound(t0, es, n, id, after[id].key, after[id].view)
      {
        if id in before && after[id] == before[id] {
          var f :| 0 <= f < n - 1 && FoundAt(t0, es, f, id, before[id].key, before[id].view);
          assert 0 <= f < n;
        } else {
          assert FoundAt(t0, es, n - 1, id, after[id].key, after[id].view);
        }
      }
    }
  }

  lemma {:induction false} CacheWasStored(t0: Traffic, es: seq<Event>, n: nat)
    requires n <= |es| && t0.requests == map[] && t0.s.cache == map[]
    ensures forall key :: key in At(t0, es, n).s.cache ==> WasStored(t0, es, n, key, At(t0, es, n).s.cache[key])
  {
    hide ViewOf, InsertSkip, DayKeys, WasFound;
    if n == 0 {
    } else {
      CacheWasStored(t0, es, n - 1);
      FetchedWasFound(t0, es, n - 1);
      var before, after := At(t0, es, n - 1).s.cache, At(t0, es, n).s.cache;
      forall key | key in after
        ensures WasStored(t0, es, n, key, after[key])
      {
        if key in before && after[key] == before[key] {
          var g :| 0 <= g < n - 1 && StoredAt(t0, es, g, key, before[key]);
          assert 0 <= g < n;
        } else {
          assert StoredAt(t0, es, n - 1, key, after[key]);
        }
      }
    }
  }

  /** What a step answers to a user: a list from the cache, or the list the request has read itself. */
  function Answered(t: Traffic, e: Event): Option<(CacheKey, View)> {
    match e
    case Read(_, reader, day, now) =>
      var key := CacheKey(reader.id, day);
      if Live(t.s.cache, key, now) then Some((key, t.s.cache[key].view)) else None
    case Go(id, _) =>
      if id in t.requests && t.requests[id].Fetched? then Some((t.requests[id].key, t.requests[id].view)) else None
    case _ => None
  }

  /** Every list answered at time t was the true database view when some request found it (step f), and
      that request is this one or stored the list within the last sixty seconds (step g). This needs
      no invalidation, and requests may overlap at each of their calls. */
  lemma BoundedStaleness(t0: Traffic, es: seq<Event>, n: nat) returns (f: nat, g: nat)
    requires Timed(es) && n < |es| && t0.s.cache == map[] && t0.requests == map[]
    requires Answered(At(t0, es, n), es[n]).Some?
    ensures var (key, view) := Answered(At(t0, es, n), es[n]).value;
            f < g <= n && TrueAfter(t0, es, f, key, view) && es[f].Go? && es[g].Go? && es[f].id == es[g].id &&
            es[n].now - TTL_MS <= es[g].now <= es[n].now && (es[n].Go? ==> g == n)
  {
    hide ViewOf, InsertSkip, DayKeys, Invalidate;
    var t := At(t0, es, n);
    var (key, view) := Answered(t, es[n]).value;
    if es[n].Go? {
      g := n;
      FetchedWasFound(t0, es, n);
      assert WasFound(t0, es, n, es[n].id, key, view);
      f :| 0 <= f < n && FoundAt(t0, es, f, es[n].id, key, view);
    } else {
      CacheWasStored(t0, es, n);
      assert WasStored(t0, es, n, key, t.s.cache[key]);
      g :| 0 <= g < n && StoredAt(t0, es, g, key, t.s.cache[key]);
      f :| 0 <= f < g && FoundAt(t0, es, f, es[g].id, key, view);
    }
  }

  /** No two calls of one request are more than `d` apart. */
  predicate Prompt(es: seq<Event>, d: int) {
    forall f, g :: 0 <= f < g < |es| && es[f].Go? && es[g].Go? && es[f].id == es[g].id ==>
      es[g].now - es[f].now <= d
  }

  /** So an answer is stale by at most sixty seconds plus the time a request takes. */
  lemma StaleAtMost(t0: Traffic, es: seq<Event>, n: nat, d: nat) returns (f: nat)
    requires Timed(es) && n < |es| && t0.s.cache == map[] && t0.requests == map[] && Prompt(es, d)
    requires Answered(At(t0, es, n), es[n]).Some?
    ensures var (key, view) := Answered(At(t0, es, n), es[n]).value;
            f < n && TrueAfter(t0, es, f, key, view) && es[n].now - TTL_MS - d <= es[f].now <= es[n].now
  {
    hide TrueAfter, Answered, At;
    var g;
    f, g := BoundedStaleness(t0, es, n);
  }

  // ---- Exactly when overlapping requests keep the cache current ----

  /** The request is about to insert a missing slot into a day whose list is cached. */
  ghost predicate FillsCachedDay(s: State, keys: seq<SlotKey>, now: int) {
    exists k :: k in keys && k !in s.slots && Live(s.cache, CacheKey(k.turf, k.day), now)
  }

  lemma InsertShows(slots: map<SlotKey, Slot>, keys: seq<SlotKey>, k: SlotKey)
    requires k in keys && k !in slots && k.hour < 24
    ensures ViewOf(InsertSkip(slots, keys), CacheKey(k.turf, k.day)) != ViewOf(slots, CacheKey(k.turf, k.day))
  {
    hide InsertSkip;
    InsertsMissing(slots, keys);
    ViewHas(slots, CacheKey(k.turf, k.day), 24, k.hour);
    ViewHas(InsertSkip(slots, keys), CacheKey(k.turf, k.day), 24, k.hour);
  }

  lemma InsertHides(slots: map<SlotKey, Slot>, keys: seq<SlotKey>, key: CacheKey)
    requires forall k :: k in keys && k !in slots ==> CacheKey(k.turf, k.day) != key
    ensures ViewOf(InsertSkip(slots, keys), key) == ViewOf(slots, key)
  {
    hide InsertSkip;
    InsertsMissing(slots, keys);
    SameView(InsertSkip(slots, keys), slots, key, 24);
  }

  lemma InsertKeepsCurrentIff(s: State, keys: seq<SlotKey>, now: int)
    requires Current(s, now) && forall k :: k in keys ==> k.hour < 24
    ensures Current(s.(slots := InsertSkip(s.slots, keys)), now) <==> !FillsCachedDay(s, keys, now)
  {
    hide ViewOf, InsertSkip;
    if k :| k in keys && k !in s.slots && Live(s.cache, CacheKey(k.turf, k.day), now) {
      InsertShows(s.slots, keys, k);
    } else {
      forall key | Live(s.cache, key, now)
        ensures s.cache[key].view == ViewOf(InsertSkip(s.slots, keys), key)
      {
        InsertHides(s.slots, keys, key);
      }
    }
  }

  /** A request is about to store a list that is no longer the true one. */
  predicate StoresOld(t: Traffic, e: Event) {
    e.Go? && e.id in t.requests && t.requests[e.id].Fetched? &&
    t.requests[e.id].view != ViewOf(t.s.slots, t.requests[e.id].key)
  }

  /** A request is about to generate a missing slot of a day whose list is cached. */
  ghost predicate GeneratesUnseen(t: Traffic, e: Event) {
    e.Go? && e.id in t.requests && t.requests[e.id].Short? &&
    FillsCachedDay(t.s, DayKeys(t.requests[e.id].reader, t.requests[e.id].day), e.now)
  }

  /** A write that invalidates nothing, as those of the refund, of slot generation by the cron job and
      of the slot cleanup, is about to change a row of a day whose list is cached. */
  ghost predicate WritesUnseen(t: Traffic, e: Event) {
    e.Write? && exists k :: ChangesCachedDay(t.s, e.slots, k, e.now)
  }

  predicate ChangesCachedDay(s: State, slots: map<SlotKey, Slot>, k: SlotKey, now: int) {
    k.hour < 24 && RowsDiffer(s.slots, slots, k) && Live(s.cache, CacheKey(k.turf, k.day), now)
  }

  lemma WriteKeepsCurrentIff(s: State, slots: map<SlotKey, Slot>, now: int)
    requires Current(s, now)
    ensures Current(s.(slots := slots), now) <==> !exists k :: ChangesCachedDay(s, slots, k, now)
  {
    hide ViewOf;
    if k :| ChangesCachedDay(s, slots, k, now) {
      ViewsDiffer(s.slots, slots, k);
    } else {
      forall key | Live(s.cache, key, now)
        ensures s.cache[key].view == ViewOf(slots, key)
      {
        forall i | 0 <= i < 24
          ensures !RowsDiffer(s.slots, slots, SlotKey(key.turf, key.day, i))
        {
          assert !ChangesCachedDay(s, slots, SlotKey(key.turf, key.day, i), now);
        }
        SameDay(s.slots, slots, key);
      }
    }
  }

  lemma SameDay(a: map<SlotKey, Slot>, b: map<SlotKey, Slot>, key: CacheKey)
    requires forall i :: 0 <= i < 24 ==> !RowsDiffer(a, b, SlotKey(key.turf, key.day, i))
    ensures ViewOf(a, key) == ViewOf(b, key)
  {
    forall i | 0 <= i < 24
      ensures var k := SlotKey(key.turf, key.day, i); (k in a <==> k in b) && (k in a ==> a[k] == b[k])
    {
      assert !RowsDiffer(a, b, SlotKey(key.turf, key.day, i));
    }
    SameView(a, b, key, 24);
  }

  /** A write that comes with its invalidation drops what it touches; turfs have valid hours. */
  ghost predicate Sound(t: Traffic, e: Event) {
    match e
    case WriteAndDrop(slots, turfs, _) => Touches(t.s.slots, slots, turfs)
    case Read(_, reader, _, _) => ValidHours(reader)
    case _ => true
  }

  predicate RequestsValid(t: Traffic) {
    forall id :: id in t.requests && !t.requests[id].Fetched? ==> ValidHours(t.requests[id].reader)
  }

  lemma EventKeepsCurrentIff(t: Traffic, e: Event)
    requires RequestsValid(t) && Sound(t, e) && Current(t.s, e.now)
    ensures Current(Next(t, e).s, e.now) <==> !StoresOld(t, e) && !GeneratesUnseen(t, e) && !WritesUnseen(t, e)
  {
    hide ViewOf, InsertSkip, DayKeys, FillsCachedDay, ChangesCachedDay;
    match e
    case Write(slots, now) => WriteKeepsCurrentIff(t.s, slots, now);
    case WriteAndDrop(slots, turfs, now) => WriteAndDropKeepsCurrent(t.s, slots, turfs, now);
    case Go(id, now) =>
      if id in t.requests {
        match t.requests[id]
        case Short(reader, day) =>
          KeysInHours(reader, day);
          InsertKeepsCurrentIff(t.s, DayKeys(reader, day), now);
        case Fetched(key, view) => assert Live(Next(t, e).s.cache, key, now);
        case _ =>
      }
    case _ =>
  }

  lemma KeysInHours(turf: Turf, day: int)
    requires ValidHours(turf)
    ensures forall k :: k in DayKeys(turf, day) ==> k.hour < 24
  {
    hide DayKeys;
    forall k | k in DayKeys(turf, day)
      ensures k.hour < 24
    {
      DayKeysDays(turf, day, k);
    }
  }

  ghost predicate SoundRun(t0: Traffic, es: seq<Event>, n: nat)
    requires n <= |es|
  {
    if n == 0 then t0.s.cache == map[] && t0.requests == map[]
    else SoundRun(t0, es, n - 1) && Sound(At(t0, es, n - 1), es[n - 1])
  }

  ghost predicate StaysCurrentTo(t0: Traffic, es: seq<Event>, n: nat)
    requires n <= |es|
  {
    n == 0 || (StaysCurrentTo(t0, es, n - 1) && Current(At(t0, es, n).s, es[n - 1].now))
  }

  ghost predicate NothingOld(t0: Traffic, es: seq<Event>, n: nat)
    requires n <= |es|
  {
    n == 0 ||
    (NothingOld(t0, es, n - 1) &&
     !StoresOld(At(t0, es, n - 1), es[n - 1]) && !GeneratesUnseen(At(t0, es, n - 1), es[n - 1]) &&
     !WritesUnseen(At(t0, es, n - 1), es[n - 1]))
  }

  lemma {:induction false} RunRequestsValid(t0: Traffic, es: seq<Event>, n: nat)
    requires n <= |es| && SoundRun(t0, es, n)
    ensures RequestsValid(At(t0, es, n))
  {
    hide ViewOf, InsertSkip, DayKeys, Invalidate, Touches;
    if n == 0 {
    } else {
      RunRequestsValid(t0, es, n - 1);
    }
  }

  lemma CurrentBefore(t0: Traffic, es: seq<Event>, n: nat)
    requires Timed(es) && n < |es| && SoundRun(t0, es, n) && StaysCurrentTo(t0, es, n)
    ensures Current(At(t0, es, n).s, es[n].now)
  {
    if n == 0 {
      StartRun(t0, es);
    } else {
      StaysCurrent(At(t0, es, n).s, es[n - 1].now, es[n].now);
    }
  }

  lemma StartRun(t0: Traffic, es: seq<Event>)
    requires SoundRun(t0, es, 0)
    ensures At(t0, es, 0).s.cache == map[]
  {
  }

  /** However requests overlap with each other and with writes: every cached list is current throughout
      if and only if no request stores a list that was made old since it was found, none generates a
      missing slot of a cached day, and no write without invalidation changes a cached day. */
  lemma {:induction false} OverlapsCurrentIff(t0: Traffic, es: seq<Event>, n: nat)
    requires Timed(es) && n <= |es| && SoundRun(t0, es, n)
    ensures StaysCurrentTo(t0, es, n) <==> NothingOld(t0, es, n)
  {
    hide Current, StoresOld, GeneratesUnseen, WritesUnseen, Next;
    if n == 0 {
    } else {
      OverlapsCurrentIff(t0, es, n - 1);
      if StaysCurrentTo(t0, es, n - 1) {
        RunRequestsValid(t0, es, n - 1);
        CurrentBefore(t0, es, n - 1);
        EventKeepsCurrentIff(At(t0, es, n - 1), es[n - 1]);
      }
    }
  }

  /** What an overtaken store does: it puts the old list back, and the next request is answered with
      it. */
  lemma OvertakenStoreAnswersOld(t: Traffic, id: Id, reader: Turf, slots: map<SlotKey, Slot>, turfs: set<Id>, now: int)
    requires id in t.requests && t.requests[id].Fetched? && reader.id == t.requests[id].key.turf
    requires t.requests[id].view != ViewOf(slots, t.requests[id].key)
    ensures var f := t.requests[id];
            var t' := Next(Next(t, WriteAndDrop(slots, turfs, now)), Go(id, now));
            t'.s.slots == slots && Answered(t', Read(id, reader, f.key.day, now)) == Some((f.key, f.view)) &&
            f.view != ViewOf(t'.s.slots, f.key) && !Current(t'.s, now)
  {
    hide ViewOf, InsertSkip, DayKeys, Invalidate;
    var f := t.requests[id];
    var t' := Next(Next(t, WriteAndDrop(slots, turfs, now)), Go(id, now));
    assert Live(t'.s.cache, f.key, now);
  }

  /** It takes one request and one write from an empty cache: the request finds a full day, a booking
      changes a row of that day and drops its list, and the request stores what it had found. */
  lemma OvertakenFromEmptyCache(
      slots: map<SlotKey, Slot>, slots': map<SlotKey, Slot>, reader: Turf, k: SlotKey, now: int)
    requires ValidHours(reader) && k.turf == reader.id && k.hour < 24 && RowsDiffer(slots, slots', k)
    requires |ViewOf(slots, CacheKey(k.turf, k.day))| >= SlotCount(reader) && Touches(slots, slots', {reader.id})
    ensures var t0 := Traffic(State(slots, map[]), map[]);
            var es := [Read(0, reader, k.day, now), Go(0, now), WriteAndDrop(slots', {reader.id}, now), Go(0, now)];
            var key := CacheKey(k.turf, k.day);
            SoundRun(t0, es, 4) && At(t0, es, 4).s.slots == slots' &&
            Answered(At(t0, es, 4), Read(1, reader, k.day, now)) == Some((key, ViewOf(slots, key))) &&
            ViewOf(slots, key) != ViewOf(slots', key)
  {
    hide ViewOf, InsertSkip, DayKeys, Invalidate, Touches;
    var t0, key := Traffic(State(slots, map[]), map[]), CacheKey(k.turf, k.day);
    var es := [Read(0, reader, k.day, now), Go(0, now), WriteAndDrop(slots', {reader.id}, now), Go(0, now)];
    assert At(t0, es, 0) == t0;
    var t1 := Next(t0, es[0]);
    assert At(t0, es, 1) == t1;
    var t2 := Next(t1, es[1]);
    assert At(t0, es, 2) == t2 && t2.requests[0] == Fetched(key, ViewOf(slots, key)) && t2.s.slots == slots;
    var t3 := Next(t2, es[2]);
    assert At(t0, es, 3) == t3;
    assert At(t0, es, 4) == Next(t3, es[3]);
    assert SoundRun(t0, es, 0) && SoundRun(t0, es, 1) && SoundRun(t0, es, 2) && SoundRun(t0, es, 3);
    ViewsDiffer(slots, slots', k);
    OvertakenStoreAnswersOld(t2, 0, reader, slots', {reader.id}, now);
  }
}
