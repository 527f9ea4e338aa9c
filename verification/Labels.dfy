/** The text keys the analytics maps use: `toISOString().split('T')[0]` and `YYYY-MM`. */
module Labels {
  import opened Calendar

  function DigitChar(d: int): char
    requires 0 <= d < 10
  {
    (d + '0' as int) as char
  }

  function Digits(n: nat): (s: string)
    ensures |s| >= 1
    ensures n < 100 ==> |s| <= 2
    ensures forall c :: c in s ==> '0' <= c <= '9'
  {
    if n < 10 then [DigitChar(n)] else Digits(n / 10) + [DigitChar(n % 10)]
  }

  function PadStart(s: string, width: nat): (r: string)
    ensures |r| == if |s| >= width then |s| else width
    ensures (forall c :: c in s ==> '0' <= c <= '9') ==> forall c :: c in r ==> '0' <= c <= '9'
    decreases width - |s|
  {
    if |s| >= width then s else PadStart("0" + s, width)
  }

  function Value(s: string): int {
    if s == "" then 0 else 10 * Value(s[..|s| - 1]) + (s[|s| - 1] as int - '0' as int)
  }

  lemma {:induction false} ValueOfDigits(n: nat)
    ensures Value(Digits(n)) == n
  {
    if n < 10 {
    } else {
      ValueOfDigits(n / 10);
      assert Digits(n)[..|Digits(n)| - 1] == Digits(n / 10);
    }
  }

  lemma {:induction false} ZeroInFront(s: string)
    ensures Value("0" + s) == Value(s)
  {
    if s == "" {
      assert "0" + s == "0";
    } else {
      ZeroInFront(s[..|s| - 1]);
      assert ("0" + s)[..|s|] == "0" + s[..|s| - 1];
    }
  }

  lemma {:induction false} ValueOfPad(s: string, width: nat)
    ensures Value(PadStart(s, width)) == Value(s)
    decreases width - |s|
  {
    if |s| >= width {
    } else {
      ZeroInFront(s);
      ValueOfPad("0" + s, width);
    }
  }

  lemma ValueOfPadded(n: nat, width: nat)
    ensures Value(PadStart(Digits(n), width)) == n
  {
    ValueOfPad(Digits(n), width);
    ValueOfDigits(n);
  }

  function Two(n: nat): string {
    PadStart(Digits(n), 2)
  }

  /** The year part of an ISO string: four digits, or a sign and six. */
  function IsoYear(y: int): string {
    if 0 <= y <= 9999 then PadStart(Digits(y), 4)
    else if y < 0 then "-" + PadStart(Digits(-y), 6)
    else "+" + PadStart(Digits(y), 6)
  }

  /** A number in a template string. */
  function Plain(y: int): string {
    if y < 0 then "-" + Digits(-y) else Digits(y)
  }

  lemma IsoYearInjective(y: int, z: int)
    requires IsoYear(y) == IsoYear(z)
    ensures y == z
  {
    var s := IsoYear(y);
    ValueOfPadded(if y < 0 then -y else y, if 0 <= y <= 9999 then 4 else 6);
    ValueOfPadded(if z < 0 then -z else z, if 0 <= z <= 9999 then 4 else 6);
    assert 0 <= y <= 9999 ==> s[0] in PadStart(Digits(y), 4);
    assert 0 <= z <= 9999 ==> s[0] in PadStart(Digits(z), 4);
    assert !(0 <= y <= 9999) ==> s[1..] == PadStart(Digits(if y < 0 then -y else y), 6);
    assert !(0 <= z <= 9999) ==> s[1..] == PadStart(Digits(if z < 0 then -z else z), 6);
  }

  lemma PlainInjective(y: int, z: int)
    requires Plain(y) == Plain(z)
    ensures y == z
  {
    var s := Plain(y);
    ValueOfDigits(if y < 0 then -y else y);
    ValueOfDigits(if z < 0 then -z else z);
    assert y >= 0 ==> s[0] in Digits(y);
    assert z >= 0 ==> s[0] in Digits(z);
    assert y < 0 ==> s[1..] == Digits(-y);
    assert z < 0 ==> s[1..] == Digits(-z);
  }

  lemma TwoInjective(a: nat, b: nat)
    requires Two(a) == Two(b)
    ensures a == b
  {
    ValueOfPadded(a, 2);
    ValueOfPadded(b, 2);
  }

  function DateText(y: int, m: nat, d: nat): string {
    IsoYear(y) + "-" + Two(m) + "-" + Two(d)
  }

  function MonthText(y: int, m: nat): string {
    Plain(y) + "-" + Two(m)
  }

  lemma DateTextInjective(y: int, m: nat, d: nat, y': int, m': nat, d': nat)
    requires m < 100 && d < 100 && m' < 100 && d' < 100
    requires DateText(y, m, d) == DateText(y', m', d')
    ensures y == y' && m == m' && d == d'
  {
    var s := DateText(y, m, d);
    var n := |s| - 6;
    assert s[..n] == IsoYear(y) && s[n + 1..n + 3] == Two(m) && s[n + 4..] == Two(d);
    assert s[..n] == IsoYear(y') && s[n + 1..n + 3] == Two(m') && s[n + 4..] == Two(d');
    IsoYearInjective(y, y');
    TwoInjective(m, m');
    TwoInjective(d, d');
  }

  lemma MonthTextInjective(y: int, m: nat, y': int, m': nat)
    requires m < 100 && m' < 100
    requires MonthText(y, m) == MonthText(y', m')
    ensures y == y' && m == m'
  {
    var s := MonthText(y, m);
    var n := |s| - 3;
    assert s[..n] == Plain(y) && s[n + 1..] == Two(m);
    assert s[..n] == Plain(y') && s[n + 1..] == Two(m');
    PlainInjective(y, y');
    TwoInjective(m, m');
  }

  function DateLabel(t: int): string {
    DayRoundTrip(Day(t));
    DateText(YearOf(t), MonthOf(t) + 1, DateOf(t))
  }

  function MonthLabel(t: int): string {
    MonthText(YearOf(t), MonthOf(t) + 1)
  }

  /** Two times with the same date text fall on the same day. */
  lemma DateLabelInjective(s: int, t: int)
    requires DateLabel(s) == DateLabel(t)
    ensures Day(s) == Day(t)
  {
    hide DayFromYear, MonthStart, MonthIn, YearOfDay, MonthOfDay, DateOfDay, DateText;
    DayRoundTrip(Day(s));
    DayRoundTrip(Day(t));
    MonthBounds(YearOf(s), MonthOf(s));
    MonthBounds(YearOf(t), MonthOf(t));
    DateTextInjective(YearOf(s), MonthOf(s) + 1, DateOf(s), YearOf(t), MonthOf(t) + 1, DateOf(t));
  }

  /** And with the same month text, in the same month. */
  lemma MonthLabelInjective(s: int, t: int)
    requires MonthLabel(s) == MonthLabel(t)
    ensures MonthIndex(s) == MonthIndex(t)
  {
    hide DayFromYear, MonthStart, MonthIn, YearOfDay, MonthOfDay, DateOfDay, MonthText;
    MonthTextInjective(YearOf(s), MonthOf(s) + 1, YearOf(t), MonthOf(t) + 1);
  }

  // ---- What the texts say ----

  predicate AllDigits(s: string) {
    forall c :: c in s ==> '0' <= c <= '9'
  }

  /** The year a text shows: its digits, and a sign if it has one. */
  function YearShown(s: string): int {
    if s != "" && s[0] == '-' then -Value(s[1..])
    else if s != "" && s[0] == '+' then Value(s[1..])
    else Value(s)
  }

  /** A year, a dash and two digits; months count from 1. */
  predicate ShowsMonth(s: string, y: int, m: int) {
    |s| >= 4 && YearShown(s[..|s| - 3]) == y && s[|s| - 3] == '-' &&
    AllDigits(s[|s| - 2..]) && Value(s[|s| - 2..]) == m
  }

  /** A year, a dash and two digits, a dash and two digits. */
  predicate ShowsDate(s: string, y: int, m: int, d: int) {
    |s| >= 7 && ShowsMonth(s[..|s| - 3], y, m) && s[|s| - 3] == '-' &&
    AllDigits(s[|s| - 2..]) && Value(s[|s| - 2..]) == d
  }

  lemma TwoShows(n: nat)
    requires n < 100
    ensures |Two(n)| == 2 && AllDigits(Two(n)) && Value(Two(n)) == n
  {
    ValueOfPadded(n, 2);
  }

  lemma DigitsFirst(s: string, n: nat)
    requires s != "" && AllDigits(s) && Value(s) == n
    ensures YearShown(s) == n
  {
    assert s[0] in s;
  }

  lemma PlainShows(y: int)
    ensures Plain(y) != "" && YearShown(Plain(y)) == y
    ensures 1000 <= y <= 9999 ==> |Plain(y)| == 4
  {
    ValueOfDigits(if y < 0 then -y else y);
    if y < 0 { assert Plain(y)[1..] == Digits(-y); } else { DigitsFirst(Digits(y), y); }
    if 1000 <= y <= 9999 {
      assert |Digits(y / 100)| == |Digits(y / 100 / 10)| + 1 == 2;
      assert y / 10 / 10 == y / 100 && |Digits(y / 10)| == |Digits(y / 10 / 10)| + 1;
    }
  }

  lemma IsoYearShows(y: int)
    ensures IsoYear(y) != "" && YearShown(IsoYear(y)) == y
    ensures 0 <= y <= 9999 ==> |IsoYear(y)| == 4
  {
    var n, width := if y < 0 then -y else y, if 0 <= y <= 9999 then 4 else 6;
    ValueOfPadded(n, width);
    if 0 <= y <= 9999 {
      FourDigits(y);
      DigitsFirst(IsoYear(y), y);
    } else {
      assert IsoYear(y)[1..] == PadStart(Digits(n), width);
    }
  }

  lemma FourDigits(y: nat)
    requires y <= 9999
    ensures |Digits(y)| <= 4
  {
    assert y >= 10 ==> |Digits(y)| == |Digits(y / 10)| + 1;
    assert y >= 100 ==> |Digits(y / 10)| == |Digits(y / 10 / 10)| + 1;
  }

  /** A month text reads back as the year and the month of its time, January being 01. */
  lemma MonthLabelReads(t: int)
    ensures ShowsMonth(MonthLabel(t), YearOf(t), MonthOf(t) + 1)
    ensures 1000 <= YearOf(t) <= 9999 ==> |MonthLabel(t)| == 7
  {
    hide Two, Plain, YearShown, Value, AllDigits, YearOfDay;
    var y, m := Plain(YearOf(t)), Two(MonthOf(t) + 1);
    TwoShows(MonthOf(t) + 1);
    PlainShows(YearOf(t));
    assert MonthLabel(t)[..|y|] == y && MonthLabel(t)[|y| + 1..] == m;
  }

  /** And a date text as the year, month and date. */
  lemma DateLabelReads(t: int)
    ensures ShowsDate(DateLabel(t), YearOf(t), MonthOf(t) + 1, DateOf(t))
    ensures 0 <= YearOf(t) <= 9999 ==> |DateLabel(t)| == 10
  {
    hide Two, IsoYear, YearShown, Value, AllDigits, YearOfDay, MonthOfDay, DateOfDay, DayFromYear, MonthStart;
    DayRoundTrip(Day(t));
    MonthBounds(YearOf(t), MonthOf(t));
    var y, m, d := IsoYear(YearOf(t)), Two(MonthOf(t) + 1), Two(DateOf(t));
    TwoShows(MonthOf(t) + 1);
    TwoShows(DateOf(t));
    IsoYearShows(YearOf(t));
    var s := DateLabel(t);
    var front := s[..|s| - 3];
    assert front == y + "-" + m && s[|s| - 2..] == d;
    assert front[..|y|] == y && front[|y| + 1..] == m;
  }
}
