/** UTC calendar arithmetic as the JavaScript `Date` object computes it (section 21.4.1 of
    ECMA-262), and the date helpers built on it. A time value counts milliseconds from
    1970-01-01T00:00Z; months count from 0. */
module Calendar {
  const MS_PER_DAY: int := 86400000
  const MS_PER_HOUR: int := 3600000

  function Day(t: int): int {
    t / MS_PER_DAY
  }

  function TimeInDay(t: int): int {
    t % MS_PER_DAY
  }

  // ---- Years, months, dates ----

  predicate Leap(y: int) {
    y % 4 == 0 && (y % 100 != 0 || y % 400 == 0)
  }

  function DaysInYear(y: int): int {
    if Leap(y) then 366 else 365
  }

  function DayFromYear(y: int): int {
    365 * (y - 1970) + (y - 1969) / 4 - (y - 1901) / 100 + (y - 1601) / 400
  }

  /** Days of a year before month m; m = 12 gives the whole year. */
  function MonthStart(y: int, m: int): int {
    var feb := if Leap(y) then 29 else 28;
    if m <= 0 then 0
    else if m == 1 then 31
    else if m == 2 then 31 + feb
    else if m == 3 then 62 + feb
    else if m == 4 then 92 + feb
    else if m == 5 then 123 + feb
    else if m == 6 then 153 + feb
    else if m == 7 then 184 + feb
    else if m == 8 then 215 + feb
    else if m == 9 then 245 + feb
    else if m == 10 then 276 + feb
    else if m == 11 then 306 + feb
    else 337 + feb
  }

  function MonthLength(y: int, m: int): int {
    MonthStart(y, m + 1) - MonthStart(y, m)
  }

  lemma FourYears(y: int)
    ensures (y - 1968) / 4 == (y - 1969) / 4 + (if y % 4 == 0 then 1 else 0)
  {
  }

  lemma Century(y: int)
    ensures (y - 1900) / 100 == (y - 1901) / 100 + (if y % 100 == 0 then 1 else 0)
  {
  }

  lemma FourCenturies(y: int)
    ensures (y - 1600) / 400 == (y - 1601) / 400 + (if y % 400 == 0 then 1 else 0)
    ensures y % 400 == 0 ==> y % 100 == 0
    ensures y % 100 == 0 ==> y % 4 == 0
  {
  }

  lemma YearStep(y: int)
    ensures DayFromYear(y + 1) == DayFromYear(y) + DaysInYear(y)
  {
    FourYears(y);
    Century(y);
    FourCenturies(y);
  }

  lemma {:induction false} YearsClimb(y: int, z: int)
    requires y < z
    ensures DayFromYear(y) + 365 <= DayFromYear(z)
    decreases z - y
  {
    YearStep(z - 1);
    if y == z - 1 {
    } else {
      YearsClimb(y, z - 1);
    }
  }

  function YearFrom(day: int, y: int): (r: int)
    requires DayFromYear(y) <= day
    ensures DayFromYear(r) <= day < DayFromYear(r + 1)
    decreases day - DayFromYear(y)
  {
    YearStep(y);
    if DayFromYear(y + 1) <= day then YearFrom(day, y + 1) else y
  }

  lemma YearGuess(day: int)
    ensures DayFromYear(1970 + (if day >= 0 then day / 366 else day / 365)) <= day
  {
    var k := if day >= 0 then day / 366 else day / 365;
    assert (k + 1) / 4 - (k + 69) / 100 + (k + 369) / 400 <= if k >= 0 then k else 0;
  }

  /** The year whose first day is the last one not after `day`. */
  function YearOfDay(day: int): (y: int)
    ensures DayFromYear(y) <= day < DayFromYear(y + 1)
  {
    YearGuess(day);
    YearFrom(day, 1970 + (if day >= 0 then day / 366 else day / 365))
  }

  function MonthIn(y: int, n: int): (m: int)
    requires 0 <= n < DaysInYear(y)
    ensures 0 <= m < 12 && MonthStart(y, m) <= n < MonthStart(y, m + 1)
  {
    if n < MonthStart(y, 1) then 0
    else if n < MonthStart(y, 2) then 1
    else if n < MonthStart(y, 3) then 2
    else if n < MonthStart(y, 4) then 3
    else if n < MonthStart(y, 5) then 4
    else if n < MonthStart(y, 6) then 5
    else if n < MonthStart(y, 7) then 6
    else if n < MonthStart(y, 8) then 7
    else if n < MonthStart(y, 9) then 8
    else if n < MonthStart(y, 10) then 9
    else if n < MonthStart(y, 11) then 10
    else 11
  }

  function MonthOfDay(day: int): (m: int)
    ensures 0 <= m < 12
  {
    var y := YearOfDay(day);
    YearStep(y);
    MonthIn(y, day - DayFromYear(y))
  }

  function DateOfDay(day: int): (d: int) {
    var y := YearOfDay(day);
    day - DayFromYear(y) - MonthStart(y, MonthOfDay(day)) + 1
  }

  /** The civil date (year, month, date) as a day number. */
  function DayOfCivil(y: int, m: int, d: int): int {
    DayFromYear(y) + MonthStart(y, m) + d - 1
  }

  predicate ValidCivil(y: int, m: int, d: int) {
    0 <= m < 12 && 1 <= d <= MonthLength(y, m)
  }

  /** Every day number is a valid civil date, and that date is the day. */
  lemma DayRoundTrip(day: int)
    ensures ValidCivil(YearOfDay(day), MonthOfDay(day), DateOfDay(day))
    ensures DayOfCivil(YearOfDay(day), MonthOfDay(day), DateOfDay(day)) == day
  {
    YearStep(YearOfDay(day));
  }

  lemma MonthIsUnique(y: int, n: int, m: int)
    requires 0 <= n < DaysInYear(y) && 0 <= m < 12 && MonthStart(y, m) <= n < MonthStart(y, m + 1)
    ensures MonthIn(y, n) == m
  {
  }

  lemma YearIsUnique(day: int, y: int)
    requires DayFromYear(y) <= day < DayFromYear(y + 1)
    ensures YearOfDay(day) == y
  {
    var z := YearOfDay(day);
    if z < y { if z + 1 < y { YearsClimb(z + 1, y); } }
    if y < z { if y + 1 < z { YearsClimb(y + 1, z); } }
  }

  /** And every valid civil date is read back from its day number. */
  lemma CivilRoundTrip(y: int, m: int, d: int)
    requires ValidCivil(y, m, d)
    ensures var day := DayOfCivil(y, m, d);
            YearOfDay(day) == y && MonthOfDay(day) == m && DateOfDay(day) == d
  {
    YearStep(y);
    var n := MonthStart(y, m) + d - 1;
    YearIsUnique(DayOfCivil(y, m, d), y);
    MonthIsUnique(y, n, m);
  }

  // ---- The Date object ----

  function YearOf(t: int): int { YearOfDay(Day(t)) }
  function MonthOf(t: int): int { MonthOfDay(Day(t)) }
  function DateOf(t: int): int { DateOfDay(Day(t)) }

  /** 0 is Sunday. */
  function WeekDay(t: int): int {
    (Day(t) + 4) % 7
  }

  function MakeDay(year: int, month: int, date: int): int {
    DayOfCivil(year + month / 12, month % 12, 1) + date - 1
  }

  function MakeDate(day: int, time: int): int {
    day * MS_PER_DAY + time
  }

  function SetDate(t: int, d: int): int {
    MakeDate(MakeDay(YearOf(t), MonthOf(t), d), TimeInDay(t))
  }

  function SetMonth(t: int, m: int): int {
    MakeDate(MakeDay(YearOf(t), m, DateOf(t)), TimeInDay(t))
  }

  function SetHours(t: int, h: int, min: int, s: int, ms: int): int {
    MakeDate(Day(t), h * MS_PER_HOUR + min * 60000 + s * 1000 + ms)
  }

  /** Date.UTC reads the years 0 to 99 as 1900 to 1999. */
  function DateUTC(year: int, month: int, date: int): int {
    MakeDate(MakeDay(if 0 <= year <= 99 then 1900 + year else year, month, date), 0)
  }

  class JsDate {
    var t: int

    constructor (t: int)
      ensures this.t == t
    {
      this.t := t;
    }

    method SetUTCDate(d: int)
      modifies this
      ensures t == SetDate(old(t), d)
    {
      t := MakeDate(MakeDay(YearOf(t), MonthOf(t), d), TimeInDay(t));
    }

    method SetUTCMonth(m: int)
      modifies this
      ensures t == SetMonth(old(t), m)
    {
      t := MakeDate(MakeDay(YearOf(t), m, DateOf(t)), TimeInDay(t));
    }

    method SetUTCHours(h: int, min: int, s: int, ms: int)
      modifies this
      ensures t == SetHours(old(t), h, min, s, ms)
    {
      t := MakeDate(Day(t), h * MS_PER_HOUR + min * 60000 + s * 1000 + ms);
    }
  }

  lemma DayOfMakeDate(day: int, time: int)
    requires 0 <= time < MS_PER_DAY
    ensures Day(MakeDate(day, time)) == day && TimeInDay(MakeDate(day, time)) == time
  {
  }

  lemma SetDateShifts(t: int, d: int)
    ensures SetDate(t, d) == t + (d - DateOf(t)) * MS_PER_DAY
  {
    hide DayFromYear, MonthStart, MonthIn, YearOfDay, MonthOfDay, DateOfDay;
    DayRoundTrip(Day(t));
  }

  // ---- date.util.ts ----

  function StartOfDay(t: int): int {
    Day(t) * MS_PER_DAY
  }

  /** Monday 00:00 of the week of t. */
  function StartOfWeek(t: int): int {
    (Day(t) - (Day(t) + 3) % 7) * MS_PER_DAY
  }

  function MonthIndex(t: int): int {
    12 * YearOf(t) + MonthOf(t)
  }

  /** Midnight of a date given by its month index (months since January of year 0). */
  function CivilMidnight(index: int, d: int): int {
    DayOfCivil(index / 12, index % 12, d) * MS_PER_DAY
  }

  function StartOfMonth(t: int): int {
    CivilMidnight(MonthIndex(t), 1)
  }

  function AddDays(t: int, days: int): int {
    t + days * MS_PER_DAY
  }

  /** The length `addUTCMonths` takes a month to have. */
  function MaxDays(index: int): int {
    var y := index / 12;
    MonthLength(if 0 <= y <= 99 then 1900 + y else y, index % 12)
  }

  function Min(a: int, b: int): int {
    if a <= b then a else b
  }

  function AddMonths(t: int, months: int): int {
    var index := MonthIndex(t) + months;
    CivilMidnight(index, Min(DateOf(t), MaxDays(index))) + TimeInDay(t)
  }

  /** A date of a month index read back from its midnight plus a time of day. */
  lemma CivilReadBack(index: int, d: int, time: int)
    requires 1 <= d <= MonthLength(index / 12, index % 12) && 0 <= time < MS_PER_DAY
    ensures var t := CivilMidnight(index, d) + time;
            MonthIndex(t) == index && DateOf(t) == d && TimeInDay(t) == time && YearOf(t) == index / 12 &&
              MonthOf(t) == index % 12
  {
    hide DayFromYear, MonthStart, MonthIn, YearOfDay, MonthOfDay, DateOfDay;
    CivilRoundTrip(index / 12, index % 12, d);
    DayOfMakeDate(DayOfCivil(index / 12, index % 12, d), time);
  }

  lemma MaxDaysFits(index: int)
    ensures 28 <= MaxDays(index) <= MonthLength(index / 12, index % 12) <= 31
    ensures index != 1 ==> MaxDays(index) == MonthLength(index / 12, index % 12)
    ensures index == 1 ==> MaxDays(index) == 28 && MonthLength(index / 12, index % 12) == 29
  {
  }

  lemma MonthBounds(y: int, m: int)
    ensures m == 0 ==> MonthStart(y, m) == 0
    ensures m == 12 ==> MonthStart(y, m) == DaysInYear(y)
    ensures 0 <= m < 12 ==> 28 <= MonthLength(y, m) <= 31
  {
  }

  lemma LastOfMonth(y: int, m: int)
    requires 0 <= m < 12
    ensures MakeDay(y, m + 1, 0) == DayOfCivil(y, m, MonthLength(y, m))
    ensures ValidCivil(y, m, MonthLength(y, m))
  {
    hide DayFromYear, MonthStart;
    YearStep(y);
    MonthBounds(y, m);
    MonthBounds(y, m + 1);
    MonthBounds(y + (m + 1) / 12, (m + 1) % 12);
    assert if m < 11 then (m + 1) / 12 == 0 && (m + 1) % 12 == m + 1 else (m + 1) / 12 == 1 && (m + 1) % 12 == 0;
  }

  /** What Date.UTC(year, month + 1, 0).getUTCDate() yields. */
  lemma LastDateOfMonth(index: int)
    ensures DateOf(DateUTC(index / 12, index % 12 + 1, 0)) == MaxDays(index)
  {
    hide DayFromYear, MonthStart, MonthIn, YearOfDay, MonthOfDay, DateOfDay, DayOfCivil, MakeDay;
    var y0, m := index / 12, index % 12;
    var y := if 0 <= y0 <= 99 then 1900 + y0 else y0;
    LastOfMonth(y, m);
    CivilRoundTrip(y, m, MonthLength(y, m));
    DayOfMakeDate(MakeDay(y, m + 1, 0), 0);
  }

  method StartOfUTCDay(date: JsDate) returns (result: JsDate)
    ensures fresh(result) && result.t == StartOfDay(date.t)
  {
    result := new JsDate(date.t);
    result.SetUTCHours(0, 0, 0, 0);
  }

  method StartOfUTCWeek(date: JsDate) returns (result: JsDate)
    ensures fresh(result) && result.t == StartOfWeek(date.t)
  {
    hide DayFromYear, MonthStart, MonthIn, YearOfDay, MonthOfDay, DateOfDay;
    result := new JsDate(date.t);
    result.SetUTCHours(0, 0, 0, 0);
    DayOfMakeDate(Day(date.t), 0);
    var day := WeekDay(result.t);
    var diff := DateOf(result.t) - day + (if day == 0 then -6 else 1);
    SetDateShifts(result.t, diff);
    result.SetUTCDate(diff);
  }

  method StartOfUTCMonth(date: JsDate) returns (result: JsDate)
    ensures fresh(result) && result.t == StartOfMonth(date.t)
  {
    hide DayFromYear, MonthStart, MonthIn, YearOfDay, MonthOfDay, DateOfDay, DayOfCivil, MakeDay, CivilMidnight,
        SetDate;
    result := new JsDate(date.t);
    result.SetUTCHours(0, 0, 0, 0);
    DayOfMakeDate(Day(date.t), 0);
    FirstOfMonth(result.t);
    result.SetUTCDate(1);
  }

  method AddUTCDays(date: JsDate, days: int) returns (result: JsDate)
    ensures fresh(result) && result.t == AddDays(date.t, days)
  {
    hide DayFromYear, MonthStart, MonthIn, YearOfDay, MonthOfDay, DateOfDay;
    result := new JsDate(date.t);
    SetDateShifts(date.t, DateOf(date.t) + days);
    result.SetUTCDate(DateOf(result.t) + days);
  }

  lemma MonthCarry(y: int, m: int)
    ensures y + m / 12 == (12 * y + m) / 12 && m % 12 == (12 * y + m) % 12
  {
  }

  method AddUTCMonths(date: JsDate, months: int) returns (result: JsDate)
    ensures fresh(result) && result.t == AddMonths(date.t, months)
  {
    hide DayFromYear, MonthStart, MonthIn, YearOfDay, MonthOfDay, DateOfDay;
    result := new JsDate(date.t);
    var originalDay := DateOf(result.t);
    var targetMonth := MonthOf(result.t) + months;
    ghost var index, time := MonthIndex(date.t) + months, TimeInDay(date.t);
    DayRoundTrip(Day(date.t));

    result.SetUTCDate(1);
    FirstOfMonth(date.t);
    CivilReadBack(MonthIndex(date.t), 1, time);
    result.SetUTCMonth(targetMonth);
    MonthCarry(YearOf(date.t), targetMonth);
    assert result.t == CivilMidnight(index, 1) + time;
    MaxDaysFits(index);
    CivilReadBack(index, 1, time);
    LastDateOfMonth(index);
    var maxDays := DateOf(DateUTC(YearOf(result.t), MonthOf(result.t) + 1, 0));
    var d := if originalDay <= maxDays then originalDay else maxDays;
    SetDateShifts(result.t, d);
    result.SetUTCDate(d);
  }

  lemma FirstOfMonth(t: int)
    ensures SetDate(t, 1) == StartOfMonth(t) + TimeInDay(t)
    ensures 1 <= MonthLength(YearOf(t), MonthOf(t))
  {
    hide DayFromYear, MonthStart, MonthIn, YearOfDay, MonthOfDay, DateOfDay;
    DayRoundTrip(Day(t));
  }

  // ---- What the helpers promise ----

  /** The week starts on a Monday at midnight, at most seven days before. */
  lemma WeekStartsMonday(t: int)
    ensures var w := StartOfWeek(t);
            WeekDay(w) == 1 && TimeInDay(w) == 0 && w <= t < AddDays(w, 7)
  {
    DayOfMakeDate(Day(t) - (Day(t) + 3) % 7, 0);
  }

  /** Adding months, forwards or backwards, lands in exactly the target month at the same time of
      day; the date is the original one capped at the month's length, except that February of the
      year 0 is taken to have 28 days. */
  lemma AddMonthsLands(t: int, months: int)
    ensures var r := AddMonths(t, months);
            MonthIndex(r) == MonthIndex(t) + months && TimeInDay(r) == TimeInDay(t) &&
            DateOf(r) <= DateOf(t)
    ensures DateOf(AddMonths(t, months)) == Min(DateOf(t),
        MonthLength(YearOf(AddMonths(t, months)), MonthOf(AddMonths(t, months))))
       <==> !(MonthIndex(t) + months == 1 && DateOf(t) >= 29)
  {
    hide DayFromYear, MonthStart, MonthIn, YearOfDay, MonthOfDay, DateOfDay;
    var index := MonthIndex(t) + months;
    DayRoundTrip(Day(t));
    MaxDaysFits(index);
    CivilReadBack(index, Min(DateOf(t), MaxDays(index)), TimeInDay(t));
  }

  /** Dates up to the 28th compose: a months and then b months are a + b months. */
  lemma AddMonthsComposes(t: int, a: int, b: int)
    requires DateOf(t) <= 28
    ensures AddMonths(AddMonths(t, a), b) == AddMonths(t, a + b)
  {
    hide DayFromYear, MonthStart, MonthIn, YearOfDay, MonthOfDay, DateOfDay;
    DayRoundTrip(Day(t));
    MaxDaysFits(MonthIndex(t) + a);
    MaxDaysFits(MonthIndex(t) + a + b);
    CivilReadBack(MonthIndex(t) + a, DateOf(t), TimeInDay(t));
  }

  lemma NextMonth(i: int)
    ensures CivilMidnight(i, 1) + MonthLength(i / 12, i % 12) * MS_PER_DAY == CivilMidnight(i + 1, 1)
  {
    hide DayFromYear, MonthStart;
    YearStep(i / 12);
    MonthBounds(i / 12, i % 12 + 1);
    MonthBounds((i + 1) / 12, (i + 1) % 12);
    assert if i % 12 < 11 then (i + 1) / 12 == i / 12 && (i + 1) % 12 == i % 12 + 1
           else (i + 1) / 12 == i / 12 + 1 && (i + 1) % 12 == 0;
  }

  lemma {:induction false} MonthsClimb(i: int, j: int)
    requires i < j
    ensures CivilMidnight(i, 1) + MonthLength(i / 12, i % 12) * MS_PER_DAY <= CivilMidnight(j, 1)
    decreases j - i
  {
    hide DayFromYear, MonthStart, CivilMidnight;
    if j == i + 1 {
      NextMonth(i);
    } else {
      MonthsClimb(i, j - 1);
      MonthsClimb(j - 1, j);
      MaxDaysFits(j - 1);
    }
  }

  /** A later day never has an earlier image. */
  lemma AddMonthsMonotone(s: int, t: int, months: int)
    requires Day(s) <= Day(t)
    ensures Day(AddMonths(s, months)) <= Day(AddMonths(t, months))
  {
    hide DayFromYear, MonthStart, MonthIn, YearOfDay, MonthOfDay, DateOfDay;
    DayRoundTrip(Day(s));
    DayRoundTrip(Day(t));
    var i, j := MonthIndex(s), MonthIndex(t);
    if j < i { MonthsClimb(j, i); }
    MaxDaysFits(i + months);
    MaxDaysFits(j + months);
    if i < j { MonthsClimb(i + months, j + months); }
  }

  /** Every time lies in its own month: from its first midnight up to the next month's. */
  lemma MonthHolds(t: int)
    ensures StartOfMonth(t) <= t < CivilMidnight(MonthIndex(t) + 1, 1)
  {
    hide DayFromYear, MonthStart, MonthIn, YearOfDay, MonthOfDay, DateOfDay;
    DayRoundTrip(Day(t));
    MonthsClimb(MonthIndex(t), MonthIndex(t) + 1);
  }
}
