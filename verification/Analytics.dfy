/** Revenue analytics: the grouped-map computation and the bucket-by-bucket filter it replaces. */
module Analytics {
  import opened Rows
  import opened Calendar
  import opened Labels

  datatype Period = Daily | Weekly | Monthly

  /** A payment as the query sees it: whether it reads PAID, when it was paid, cents. */
  datatype PaymentRow = PaymentRow(paid: bool, paidAt: Option<int>, amount: int)

  datatype Bucket = Bucket(text: string, revenue: int, bookings: int)

  /** An amount at a time. */
  type Entry = (int, int)

  function Count(p: Period): nat {
    if p == Daily then 30 else 12
  }

  /** date_trunc. */
  function Trunc(p: Period, t: int): int {
    match p case Daily => StartOfDay(t) case Weekly => StartOfWeek(t) case Monthly => StartOfMonth(t)
  }

  function Label(p: Period, t: int): string {
    if p == Monthly then MonthLabel(t) else DateLabel(t)
  }

  function RangeEnd(p: Period, now: int): int {
    match p
    case Daily => AddDays(StartOfDay(now), 1)
    case Weekly => AddDays(StartOfWeek(now), 7)
    case Monthly => AddMonths(StartOfMonth(now), 1)
  }

  /** i periods back from t. */
  function Back(p: Period, t: int, i: int): int {
    match p
    case Daily => AddDays(t, -i)
    case Weekly => AddDays(t, -i * 7)
    case Monthly => AddMonths(t, -i)
  }

  /** The boundary i periods before the end of the range. */
  function Bound(p: Period, now: int, i: int): int {
    Back(p, RangeEnd(p, now), i)
  }

  function RangeStart(p: Period, now: int): int {
    Bound(p, now, Count(p))
  }

  // ---- The query ----

  function Within(t: int, lo: int, hi: int): bool {
    lo <= t < hi
  }

  function PaidEntries(rows: seq<PaymentRow>, lo: int, hi: int): seq<Entry> {
    if rows == [] then []
    else
      var r := rows[|rows| - 1];
      PaidEntries(rows[..|rows| - 1], lo, hi) +
      (if r.paid && r.paidAt.Some? && Within(r.paidAt.value, lo, hi) then [(r.paidAt.value, r.amount)] else [])
  }

  function CreatedEntries(rows: seq<int>, lo: int, hi: int): seq<Entry> {
    if rows == [] then []
    else CreatedEntries(rows[..|rows| - 1], lo, hi) +
         (if Within(rows[|rows| - 1], lo, hi) then [(rows[|rows| - 1], 1)] else [])
  }

  /** SUM ... GROUP BY date_trunc(period). */
  function GroupSums(p: Period, xs: seq<Entry>): map<int, int> {
    if xs == [] then map[]
    else
      var m, x := GroupSums(p, xs[..|xs| - 1]), xs[|xs| - 1];
      var k := Trunc(p, x.0);
      m[k := (if k in m then m[k] else 0) + x.1]
  }

  /** The rows a query may return for a grouping: every group once, in any order. */
  ghost predicate Lists(groups: seq<Entry>, m: map<int, int>) {
    (forall i :: 0 <= i < |groups| ==> groups[i].0 in m && groups[i].1 == m[groups[i].0]) &&
    (forall k :: k in m ==> exists i :: 0 <= i < |groups| && groups[i].0 == k)
  }

  // ---- The simple form ----

  /** Sum of the amounts with lo <= time < hi. */
  function Filtered(xs: seq<Entry>, lo: int, hi: int): int {
    if xs == [] then 0
    else Filtered(xs[..|xs| - 1], lo, hi) + (if Within(xs[|xs| - 1].0, lo, hi) then xs[|xs| - 1].1 else 0)
  }

  function Revenue(rows: seq<PaymentRow>, lo: int, hi: int): int {
    if rows == [] then 0
    else
      var r := rows[|rows| - 1];
      Revenue(rows[..|rows| - 1], lo, hi) +
      (if r.paid && r.paidAt.Some? && Within(r.paidAt.value, lo, hi) then r.amount else 0)
  }

  function Bookings(rows: seq<int>, lo: int, hi: int): int {
    if rows == [] then 0
    else Bookings(rows[..|rows| - 1], lo, hi) + (if Within(rows[|rows| - 1], lo, hi) then 1 else 0)
  }

  /** The bucket that starts i + 1 boundaries before the end, filtered row by row. */
  function SimpleBucket(p: Period, now: int, payments: seq<PaymentRow>, bookings: seq<int>, i: int): Bucket {
    var lo, hi := Bound(p, now, i + 1), Bound(p, now, i);
    Bucket(Label(p, lo), Revenue(payments, lo, hi), Bookings(bookings, lo, hi))
  }

  // ---- Periods tile time ----

  predicate IsStart(p: Period, s: int) {
    Trunc(p, s) == s
  }

  /** The start after s. */
  function After(p: Period, s: int): int {
    Back(p, s, -1)
  }

  lemma MonthStartFacts(index: int)
    ensures var s := CivilMidnight(index, 1);
            MonthIndex(s) == index && DateOf(s) == 1 && TimeInDay(s) == 0 && StartOfMonth(s) == s
  {
    hide DayFromYear, MonthStart, MonthIn, YearOfDay, MonthOfDay, DateOfDay, CivilMidnight;
    MonthBounds(index / 12, index % 12);
    CivilReadBack(index, 1, 0);
  }

  lemma AddToMonthStart(index: int, n: int)
    ensures AddMonths(CivilMidnight(index, 1), n) == CivilMidnight(index + n, 1)
  {
    hide DayFromYear, MonthStart, YearOf, MonthOf, DateOf, CivilMidnight, MonthIndex, MaxDays;
    MonthStartFacts(index);
    MaxDaysFits(index + n);
  }

  lemma DayStarts(t: int)
    ensures StartOfDay(StartOfDay(t)) == StartOfDay(t) && StartOfWeek(StartOfWeek(t)) == StartOfWeek(t)
  {
    DayOfMakeDate(Day(t), 0);
    DayOfMakeDate(Day(t) - (Day(t) + 3) % 7, 0);
    WeekStartsMonday(t);
  }

  lemma TruncIsStart(p: Period, t: int)
    ensures IsStart(p, Trunc(p, t))
  {
    hide MonthIndex, CivilMidnight, StartOfDay, StartOfWeek;
    DayStarts(t);
    MonthStartFacts(MonthIndex(t));
  }

  /** A time lies in the period of a start exactly when it truncates to it. */
  lemma InPeriodIff(p: Period, s: int, t: int)
    requires IsStart(p, s)
    ensures Within(t, s, After(p, s)) <==> Trunc(p, t) == s
  {
    match p
    case Daily => DayPeriod(s, t);
    case Weekly => WeekPeriod(s, t);
    case Monthly => MonthPeriod(s, t);
  }

  lemma DayPeriod(s: int, t: int)
    requires StartOfDay(s) == s
    ensures Within(t, s, AddDays(s, 1)) <==> StartOfDay(t) == s
  {
  }

  lemma WeekPeriod(s: int, t: int)
    requires StartOfWeek(s) == s
    ensures Within(t, s, AddDays(s, 7)) <==> StartOfWeek(t) == s
  {
    WeekStartsMonday(s);
    WeekStartsMonday(t);
    var w := StartOfWeek(t);
    assert Day(w) * MS_PER_DAY == w && Day(s) * MS_PER_DAY == s;
    assert (Day(w) + 4) % 7 == (Day(s) + 4) % 7;
    if Within(t, s, AddDays(s, 7)) {
      assert -7 < Day(w) - Day(s) < 7;
    }
  }

  lemma MonthPeriod(s: int, t: int)
    requires StartOfMonth(s) == s
    ensures Within(t, s, AddMonths(s, 1)) <==> StartOfMonth(t) == s
  {
    hide MonthIndex, CivilMidnight, AddMonths, Day, TimeInDay, DateOf;
    var i, j := MonthIndex(s), MonthIndex(t);
    AddToMonthStart(i, 1);
    MonthStartFacts(i);
    MonthStartFacts(j);
    MonthHolds(t);
    if i < j { MonthsUp(i + 1, j); }
    if j < i { MonthsUp(j + 1, i); }
  }

  lemma MonthsUp(i: int, j: int)
    requires i <= j
    ensures CivilMidnight(i, 1) <= CivilMidnight(j, 1)
  {
    if i < j {
      MonthsClimb(i, j);
      MonthBounds(i / 12, i % 12);
    }
  }

  lemma RangeEndIsStart(p: Period, now: int)
    ensures IsStart(p, RangeEnd(p, now))
  {
    match p
    case Daily => DayStarts(now);
    case Weekly => WeekStartsMonday(now);
    case Monthly => MonthBackIs(now, 0);
  }

  /** Months back from the end of the range are month starts. */
  lemma MonthBackIs(now: int, i: int)
    ensures var index := MonthIndex(now) + 1 - i;
            Bound(Monthly, now, i) == CivilMidnight(index, 1) && IsStart(Monthly, CivilMidnight(index, 1))
    ensures RangeEnd(Monthly, now) == CivilMidnight(MonthIndex(now) + 1, 1)
    ensures IsStart(Monthly, RangeEnd(Monthly, now))
  {
    hide MonthIndex, CivilMidnight, AddMonths;
    var e := MonthIndex(now);
    AddToMonthStart(e, 1);
    AddToMonthStart(e + 1, -i);
    MonthStartFacts(e + 1);
    MonthStartFacts(e + 1 - i);
  }

  lemma DaysOn(s: int, n: int)
    ensures StartOfDay(s) == s ==> StartOfDay(AddDays(s, n)) == AddDays(s, n)
    ensures StartOfWeek(s) == s ==> StartOfWeek(AddDays(s, 7 * n)) == AddDays(s, 7 * n)
  {
    DayOfMakeDate(Day(s) + n, 0);
    DayOfMakeDate(Day(s) + 7 * n, 0);
  }

  lemma DayWeekTile(p: Period, now: int, i: int)
    requires p != Monthly
    ensures IsStart(p, Bound(p, now, i))
    ensures After(p, Bound(p, now, i + 1)) == Bound(p, now, i)
    ensures Bound(p, now, i + 1) < Bound(p, now, i)
  {
    hide RangeEnd, StartOfDay, StartOfWeek, StartOfMonth, AddMonths;
    RangeEndIsStart(p, now);
    DaysOn(RangeEnd(p, now), -i);
  }

  /** Boundaries are starts, one period apart. */
  lemma BoundsTile(p: Period, now: int, i: int)
    ensures IsStart(p, Bound(p, now, i))
    ensures After(p, Bound(p, now, i + 1)) == Bound(p, now, i)
    ensures Bound(p, now, i + 1) < Bound(p, now, i)
  {
    hide IsStart, Bound, After;
    if p == Monthly {
      MonthTile(now, i);
    } else {
      DayWeekTile(p, now, i);
    }
  }

  lemma MonthTile(now: int, i: int)
    ensures IsStart(Monthly, Bound(Monthly, now, i))
    ensures After(Monthly, Bound(Monthly, now, i + 1)) == Bound(Monthly, now, i)
    ensures Bound(Monthly, now, i + 1) < Bound(Monthly, now, i)
  {
    hide MonthIndex, CivilMidnight, AddMonths, Bound;
    var e := MonthIndex(now) + 1;
    MonthBackIs(now, i);
    MonthBackIs(now, i + 1);
    AddToMonthStart(e - (i + 1), 1);
    MonthsClimb(e - (i + 1), e - i);
    MonthBounds((e - (i + 1)) / 12, (e - (i + 1)) % 12);
  }

  /** Different starts have different labels. */
  lemma LabelsDistinct(p: Period, s: int, t: int)
    requires IsStart(p, s) && IsStart(p, t) && Label(p, s) == Label(p, t)
    ensures s == t
  {
    hide DateLabel, MonthLabel, MonthIndex, CivilMidnight;
    if p == Monthly { MonthLabelInjective(s, t); } else { DateLabelInjective(s, t); }
  }

  // ---- Grouped sums are filtered sums ----

  lemma {:induction false} GroupIsFilter(p: Period, xs: seq<Entry>, s: int)
    requires IsStart(p, s)
    ensures Filtered(xs, s, After(p, s)) == if s in GroupSums(p, xs) then GroupSums(p, xs)[s] else 0
  {
    hide Trunc, After, IsStart;
    if xs == [] {
    } else {
      GroupIsFilter(p, xs[..|xs| - 1], s);
      InPeriodIff(p, s, xs[|xs| - 1].0);
    }
  }

  lemma {:induction false} GroupKeysAreStarts(p: Period, xs: seq<Entry>)
    ensures forall k :: k in GroupSums(p, xs) ==> IsStart(p, k)
  {
    hide Trunc, IsStart;
    if xs == [] {
    } else {
      GroupKeysAreStarts(p, xs[..|xs| - 1]);
      TruncIsStart(p, xs[|xs| - 1].0);
    }
  }

  lemma {:induction false} PaidIsRevenue(rows: seq<PaymentRow>, lo: int, hi: int, a: int, b: int)
    requires lo <= a && b <= hi
    ensures Filtered(PaidEntries(rows, lo, hi), a, b) == Revenue(rows, a, b)
  {
    if rows == [] {
    } else {
      var init := rows[..|rows| - 1];
      PaidIsRevenue(init, lo, hi, a, b);
      var xs, all := PaidEntries(init, lo, hi), PaidEntries(rows, lo, hi);
      if |all| > |xs| { assert all[..|all| - 1] == xs; } else { assert all == xs; }
    }
  }

  lemma {:induction false} CreatedIsBookings(rows: seq<int>, lo: int, hi: int, a: int, b: int)
    requires lo <= a && b <= hi
    ensures Filtered(CreatedEntries(rows, lo, hi), a, b) == Bookings(rows, a, b)
  {
    if rows == [] {
    } else {
      var init := rows[..|rows| - 1];
      CreatedIsBookings(init, lo, hi, a, b);
      var xs, all := CreatedEntries(init, lo, hi), CreatedEntries(rows, lo, hi);
      if |all| > |xs| { assert all[..|all| - 1] == xs; } else { assert all == xs; }
    }
  }

  lemma {:induction false} BoundsDescend(p: Period, now: int, i: nat, j: nat)
    requires i <= j
    ensures Bound(p, now, j) <= Bound(p, now, i)
    decreases j - i
  {
    hide Bound, After, IsStart;
    if i == j {
    } else {
      BoundsDescend(p, now, i, j - 1);
      BoundsTile(p, now, j - 1);
    }
  }

  // ---- Which day, week or month a bucket is ----

  /** Days since the Monday of the week of t. */
  function SinceMonday(t: int): int {
    (Day(t) + 3) % 7
  }

  /** The text of the day, Monday or month that lies n periods before that of `now`. */
  ghost predicate ShowsPeriod(p: Period, now: int, n: int, s: string) {
    match p
    case Daily => ShowsDay(s, Day(now) - n)
    case Weekly => ShowsDay(s, Day(now) - SinceMonday(now) - 7 * n)
    case Monthly =>
      var index := MonthIndex(now) - n;
      ShowsMonth(s, index / 12, index % 12 + 1)
  }

  predicate ShowsDay(s: string, day: int) {
    ShowsDate(s, YearOfDay(day), MonthOfDay(day) + 1, DateOfDay(day))
  }

  /** A time falls into the period that lies n periods before that of `now`. */
  predicate FallsInto(p: Period, now: int, n: int, t: int) {
    match p
    case Daily => Day(t) == Day(now) - n
    case Weekly => Day(t) - SinceMonday(t) == Day(now) - SinceMonday(now) - 7 * n
    case Monthly => MonthIndex(t) == MonthIndex(now) - n
  }

  lemma DayBound(now: int, n: int)
    ensures Day(Bound(Daily, now, n + 1)) == Day(now) - n
    ensures Day(Bound(Weekly, now, n + 1)) == Day(now) - SinceMonday(now) - 7 * n
  {
    hide SinceMonday;
    assert StartOfWeek(now) == (Day(now) - SinceMonday(now)) * MS_PER_DAY by { MondayIs(now); }
    DayOfMakeDate(Day(now) - n, 0);
    DayOfMakeDate(Day(now) - SinceMonday(now) - 7 * n, 0);
  }

  lemma MondayIs(t: int)
    ensures StartOfWeek(t) == (Day(t) - SinceMonday(t)) * MS_PER_DAY
  {
  }

  lemma MonthBound(now: int, n: int)
    ensures MonthIndex(Bound(Monthly, now, n + 1)) == MonthIndex(now) - n
  {
    hide MonthIndex, CivilMidnight, Bound;
    MonthBackIs(now, n + 1);
    MonthStartFacts(MonthIndex(now) - n);
  }

  /** The label of a bucket says which period it is. */
  lemma LabelShows(p: Period, now: int, n: int)
    ensures ShowsPeriod(p, now, n, Label(p, Bound(p, now, n + 1)))
  {
    hide Bound, DateLabel, MonthLabel, ShowsDate, ShowsMonth, YearOfDay, MonthOfDay, DateOfDay, SinceMonday;
    var s := Bound(p, now, n + 1);
    DayBound(now, n);
    if p == Monthly {
      MonthBound(now, n);
      MonthLabelReads(s);
      IndexParts(s);
    } else {
      DateLabelReads(s);
    }
  }

  lemma IndexParts(t: int)
    ensures MonthIndex(t) / 12 == YearOf(t) && MonthIndex(t) % 12 == MonthOf(t)
  {
    hide YearOfDay;
  }

  /** And its bounds hold exactly the times of that period. */
  lemma BucketHoldsIff(p: Period, now: int, n: nat, t: int)
    ensures InBucket(p, now, n, t) <==> FallsInto(p, now, n, t)
  {
    hide Bound, After, IsStart, Trunc, Within, MonthIndex, SinceMonday, Day;
    var s := Bound(p, now, n + 1);
    BoundsTile(p, now, n);
    BoundsTile(p, now, n + 1);
    InPeriodIff(p, s, t);
    DayBound(now, n);
    MonthBound(now, n);
    SameStartIff(p, s, t);
  }

  lemma SameStartIff(p: Period, s: int, t: int)
    requires IsStart(p, s)
    ensures Trunc(p, t) == s <==>
              match p
              case Daily => Day(t) == Day(s)
              case Weekly => Day(t) - SinceMonday(t) == Day(s)
              case Monthly => MonthIndex(t) == MonthIndex(s)
  {
    hide CivilMidnight, MonthIndex;
    if p == Monthly { MonthStartFacts(MonthIndex(t)); }
  }

  /** What the PAID payments of a day, week or month come to. */
  function RevenueOf(p: Period, now: int, n: int, rows: seq<PaymentRow>): int {
    if rows == [] then 0
    else
      var r := rows[|rows| - 1];
      RevenueOf(p, now, n, rows[..|rows| - 1]) +
      (if r.paid && r.paidAt.Some? && FallsInto(p, now, n, r.paidAt.value) then r.amount else 0)
  }

  /** The bookings made in it. */
  function MadeIn(p: Period, now: int, n: int, rows: seq<int>): set<nat> {
    set i: nat | i < |rows| && FallsInto(p, now, n, rows[i])
  }

  lemma {:induction false} RevenueByCalendar(p: Period, now: int, n: nat, rows: seq<PaymentRow>)
    ensures Revenue(rows, Bound(p, now, n + 1), Bound(p, now, n)) == RevenueOf(p, now, n, rows)
  {
    hide Bound, FallsInto;
    if rows == [] {
    } else {
      RevenueByCalendar(p, now, n, rows[..|rows| - 1]);
      if rows[|rows| - 1].paidAt.Some? { BucketHoldsIff(p, now, n, rows[|rows| - 1].paidAt.value); }
    }
  }

  lemma {:induction false} BookingsByCalendar(p: Period, now: int, n: nat, rows: seq<int>)
    ensures Bookings(rows, Bound(p, now, n + 1), Bound(p, now, n)) == |MadeIn(p, now, n, rows)|
  {
    hide Bound, FallsInto;
    if rows == [] {
    } else {
      var k, init := |rows| - 1, rows[..|rows| - 1];
      BookingsByCalendar(p, now, n, init);
      BucketHoldsIff(p, now, n, rows[k]);
      assert forall i :: 0 <= i < k ==> init[i] == rows[i];
      assert MadeIn(p, now, n, rows) ==
             if FallsInto(p, now, n, rows[k]) then MadeIn(p, now, n, init) + {k} else MadeIn(p, now, n, init);
    }
  }

  // ---- The method ----

  ghost predicate Keyed(p: Period, texts: map<string, int>, sums: map<int, int>) {
    forall s :: IsStart(p, s) ==> (Label(p, s) in texts <==> s in sums) && (s in sums ==> texts[Label(p, s)] == sums[s])
  }

  /** One of the two loops that turn query rows into a Map keyed by label. */
  method KeyGroups(p: Period, groups: seq<Entry>, ghost sums: map<int, int>) returns (texts: map<string, int>)
    requires Lists(groups, sums) && forall k :: k in sums ==> IsStart(p, k)
    ensures Keyed(p, texts, sums)
  {
    hide IsStart, Label;
    texts := map[];
    var i := 0;
    while i < |groups|
      invariant 0 <= i <= |groups|
      invariant forall s :: IsStart(p, s) && Label(p, s) in texts ==> s in sums && texts[Label(p, s)] == sums[s]
      invariant forall j :: 0 <= j < i ==> Label(p, groups[j].0) in texts
    {
      forall s | IsStart(p, s) && Label(p, s) == Label(p, groups[i].0)
        ensures s == groups[i].0
      {
        LabelsDistinct(p, s, groups[i].0);
      }
      texts := texts[Label(p, groups[i].0) := groups[i].1];
      i := i + 1;
    }
  }

  /** getRevenueAnalytics on the rows the two grouped queries return, in any order. */
  method GetRevenueAnalytics(p: Period, now: int, payments: seq<PaymentRow>, bookings: seq<int>,
                             paymentGroups: seq<Entry>, bookingGroups: seq<Entry>) returns (result: seq<Bucket>)
    requires Lists(paymentGroups, GroupSums(p, PaidEntries(payments, RangeStart(p, now), RangeEnd(p, now))))
    requires Lists(bookingGroups, GroupSums(p, CreatedEntries(bookings, RangeStart(p, now), RangeEnd(p, now))))
    ensures |result| == if p == Daily then 30 else 12
    ensures forall j :: 0 <= j < |result| ==>
              var n := |result| - 1 - j;
              ShowsPeriod(p, now, n, result[j].text) && result[j].revenue == RevenueOf(p, now, n, payments) &&
              result[j].bookings == |MadeIn(p, now, n, bookings)|
    ensures forall j :: 0 <= j < |result| ==> result[j] == SimpleBucket(p, now, payments, bookings, Count(p) - 1 - j)
    ensures SumRevenue(result) == Revenue(payments, RangeStart(p, now), RangeEnd(p, now))
    ensures SumBookings(result) == Bookings(bookings, RangeStart(p, now), RangeEnd(p, now))
  {
    hide Label, IsStart, Bound, Trunc, RangeEnd, RangeStart, Back, After, ShowsPeriod, RevenueOf, MadeIn;
    var days := Count(p);
    ghost var paid := PaidEntries(payments, RangeStart(p, now), RangeEnd(p, now));
    ghost var made := CreatedEntries(bookings, RangeStart(p, now), RangeEnd(p, now));
    GroupKeysAreStarts(p, paid);
    GroupKeysAreStarts(p, made);
    var revenueMap := KeyGroups(p, paymentGroups, GroupSums(p, paid));
    var bookingMap := KeyGroups(p, bookingGroups, GroupSums(p, made));
    result := [];
    var i := days - 1;
    while i >= 0
      invariant -1 <= i < days && |result| == days - 1 - i
      invariant forall j :: 0 <= j < |result| ==> result[j] == SimpleBucket(p, now, payments, bookings, days - 1 - j)
      invariant forall j :: 0 <= j < |result| ==>
                  var n := days - 1 - j;
                  ShowsPeriod(p, now, n, result[j].text) && result[j].revenue == RevenueOf(p, now, n, payments) &&
                  result[j].bookings == |MadeIn(p, now, n, bookings)|
    {
      var endDate := Bound(p, now, i);
      var startDate := Back(p, endDate, 1);
      BackTwice(p, now, i);
      var text := Label(p, startDate);
      var totalRevenue := if text in revenueMap then revenueMap[text] else 0;
      var bookingsCount := if text in bookingMap then bookingMap[text] else 0;
      BucketAgrees(p, now, payments, bookings, i);
      LabelShows(p, now, i);
      RevenueByCalendar(p, now, i, payments);
      BookingsByCalendar(p, now, i, bookings);
      result := result + [Bucket(text, totalRevenue, bookingsCount)];
      i := i - 1;
    }
    BucketsSumToRange(p, now, payments, bookings, result);
  }

  lemma BackTwice(p: Period, now: int, i: int)
    ensures Back(p, Bound(p, now, i), 1) == Bound(p, now, i + 1)
  {
    if p == Monthly {
      MonthBackTwice(now, i);
    } else {
      DaysBackTwice(RangeEnd(p, now), i);
    }
  }

  lemma DaysBackTwice(t: int, i: int)
    ensures AddDays(AddDays(t, -i), -1) == AddDays(t, -(i + 1))
    ensures AddDays(AddDays(t, -i * 7), -7) == AddDays(t, -(i + 1) * 7)
  {
  }

  lemma MonthBackTwice(now: int, i: int)
    ensures Back(Monthly, Bound(Monthly, now, i), 1) == Bound(Monthly, now, i + 1)
  {
    hide MonthIndex, CivilMidnight, AddMonths, Bound;
    MonthBackIs(now, i);
    MonthBackIs(now, i + 1);
    AddToMonthStart(MonthIndex(now) + 1 - i, -1);
  }

  lemma BucketAgrees(p: Period, now: int, payments: seq<PaymentRow>, bookings: seq<int>, i: nat)
    requires i < Count(p)
    ensures var lo := RangeStart(p, now); var hi := RangeEnd(p, now); var s := Bound(p, now, i + 1);
            var paid := GroupSums(p, PaidEntries(payments, lo, hi));
            var made := GroupSums(p, CreatedEntries(bookings, lo, hi));
            IsStart(p, s) &&
            Revenue(payments, s, Bound(p, now, i)) == (if s in paid then paid[s] else 0) &&
            Bookings(bookings, s, Bound(p, now, i)) == (if s in made then made[s] else 0)
  {
    hide IsStart, Trunc, Back, After, RangeEnd, Bound;
    var lo, hi, s, e := RangeStart(p, now), RangeEnd(p, now), Bound(p, now, i + 1), Bound(p, now, i);
    BoundsTile(p, now, i);
    BoundsTile(p, now, i + 1);
    BoundsDescend(p, now, i + 1, Count(p));
    BoundZero(p, now);
    BoundsDescend(p, now, 0, i);
    GroupIsFilter(p, PaidEntries(payments, lo, hi), s);
    GroupIsFilter(p, CreatedEntries(bookings, lo, hi), s);
    PaidIsRevenue(payments, lo, hi, s, e);
    CreatedIsBookings(bookings, lo, hi, s, e);
  }

  lemma BoundZero(p: Period, now: int)
    ensures Bound(p, now, 0) == RangeEnd(p, now)
  {
    hide RangeEnd, CivilMidnight, AddMonths;
    if p == Monthly { MonthZero(now); }
  }

  lemma MonthZero(now: int)
    ensures AddMonths(RangeEnd(Monthly, now), 0) == RangeEnd(Monthly, now)
  {
    hide MonthIndex, CivilMidnight, AddMonths;
    AddToMonthStart(MonthIndex(now), 1);
    AddToMonthStart(MonthIndex(now) + 1, 0);
  }

  // ---- The buckets partition the range ----

  function SumRevenue(bs: seq<Bucket>): int {
    if bs == [] then 0 else SumRevenue(bs[..|bs| - 1]) + bs[|bs| - 1].revenue
  }

  function SumBookings(bs: seq<Bucket>): int {
    if bs == [] then 0 else SumBookings(bs[..|bs| - 1]) + bs[|bs| - 1].bookings
  }

  /** The list of buckets, oldest first. */
  ghost predicate Report(p: Period, now: int, payments: seq<PaymentRow>, bookings: seq<int>, bs: seq<Bucket>) {
    |bs| == Count(p) && forall j :: 0 <= j < |bs| ==>
      bs[j] == SimpleBucket(p, now, payments, bookings, Count(p) - 1 - j)
  }

  lemma {:induction false} RevenueSplits(rows: seq<PaymentRow>, a: int, b: int, c: int)
    requires a <= b <= c
    ensures Revenue(rows, a, c) == Revenue(rows, a, b) + Revenue(rows, b, c)
  {
    if rows == [] {
    } else {
      RevenueSplits(rows[..|rows| - 1], a, b, c);
    }
  }

  lemma {:induction false} BookingsSplit(rows: seq<int>, a: int, b: int, c: int)
    requires a <= b <= c
    ensures Bookings(rows, a, c) == Bookings(rows, a, b) + Bookings(rows, b, c)
  {
    if rows == [] {
    } else {
      BookingsSplit(rows[..|rows| - 1], a, b, c);
    }
  }

  lemma {:induction false} OldestBuckets(p: Period, now: int, payments: seq<PaymentRow>, bookings: seq<int>,
      bs: seq<Bucket>, n: nat)
    requires Report(p, now, payments, bookings, bs) && n <= |bs|
    ensures SumRevenue(bs[..n]) == Revenue(payments, RangeStart(p, now), Bound(p, now, Count(p) - n))
    ensures SumBookings(bs[..n]) == Bookings(bookings, RangeStart(p, now), Bound(p, now, Count(p) - n))
  {
    hide Bound, Label, Revenue, Bookings;
    var i := Count(p) - n;
    if n == 0 {
      EmptyRange(payments, bookings, RangeStart(p, now));
    } else {
      OldestBuckets(p, now, payments, bookings, bs, n - 1);
      assert bs[..n][..n - 1] == bs[..n - 1];
      BoundsDescend(p, now, i, i + 1);
      BoundsDescend(p, now, i + 1, Count(p));
      RevenueSplits(payments, RangeStart(p, now), Bound(p, now, i + 1), Bound(p, now, i));
      BookingsSplit(bookings, RangeStart(p, now), Bound(p, now, i + 1), Bound(p, now, i));
    }
  }

  /** The revenues and counts of the returned buckets add up to the totals of the range. */
  lemma BucketsSumToRange(p: Period, now: int, payments: seq<PaymentRow>, bookings: seq<int>, bs: seq<Bucket>)
    requires Report(p, now, payments, bookings, bs)
    ensures SumRevenue(bs) == Revenue(payments, RangeStart(p, now), RangeEnd(p, now))
    ensures SumBookings(bs) == Bookings(bookings, RangeStart(p, now), RangeEnd(p, now))
  {
    hide Bound, RangeStart, RangeEnd, SimpleBucket, Revenue, Bookings;
    assert bs[..Count(p)] == bs;
    OldestBuckets(p, now, payments, bookings, bs, Count(p));
    BoundZero(p, now);
  }

  lemma {:induction false} EmptyRange(payments: seq<PaymentRow>, bookings: seq<int>, t: int)
    ensures Revenue(payments, t, t) == 0 && Bookings(bookings, t, t) == 0
    decreases |payments| + |bookings|
  {
    if payments != [] { EmptyRange(payments[..|payments| - 1], bookings, t); }
    if bookings != [] { EmptyRange(payments, bookings[..|bookings| - 1], t); }
  }

  predicate InBucket(p: Period, now: int, i: nat, t: int) {
    Within(t, Bound(p, now, i + 1), Bound(p, now, i))
  }

  function BucketLabel(p: Period, now: int, i: nat): string {
    Label(p, Bound(p, now, i + 1))
  }

  /** No two buckets share a label or a moment. */
  lemma BucketsApart(p: Period, now: int, i: nat, j: nat, t: int)
    requires i < j
    ensures BucketLabel(p, now, i) != BucketLabel(p, now, j)
    ensures !(InBucket(p, now, i, t) && InBucket(p, now, j, t))
  {
    hide Bound, Label, IsStart, After;
    BoundsDescend(p, now, i + 1, j);
    BoundsTile(p, now, i + 1);
    BoundsTile(p, now, j + 1);
    BoundsTile(p, now, j);
    if BucketLabel(p, now, i) == BucketLabel(p, now, j) {
      LabelsDistinct(p, Bound(p, now, i + 1), Bound(p, now, j + 1));
    }
  }

  /** Every moment of the range lies in exactly one bucket. */
  lemma OneBucketPerMoment(p: Period, now: int, t: int, n: nat) returns (i: nat)
    requires Within(t, Bound(p, now, n), RangeEnd(p, now))
    ensures i < n && InBucket(p, now, i, t)
    ensures forall j: nat :: InBucket(p, now, j, t) ==> j == i
  {
    hide Bound, RangeEnd;
    BoundZero(p, now);
    i := FindBucket(p, now, t, n);
    forall j: nat | InBucket(p, now, j, t)
      ensures j == i
    {
      if i < j { BucketsApart(p, now, i, j, t); }
      if j < i { BucketsApart(p, now, j, i, t); }
    }
  }

  lemma {:induction false} FindBucket(p: Period, now: int, t: int, n: nat) returns (i: nat)
    requires Within(t, Bound(p, now, n), Bound(p, now, 0))
    ensures i < n && InBucket(p, now, i, t)
  {
    hide Bound;
    i := n - 1;
    if t >= Bound(p, now, n - 1) {
      i := FindBucket(p, now, t, n - 1);
    }
  }
}
