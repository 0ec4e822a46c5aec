/** Calendar dates as Python's `datetime` sees them (years 1 to 9999), the
    one-day steps the downloader takes, and the 'YYYYMMDD' and 'YYYY-MM-DD'
    renderings it writes. */
module Calendar {
  import opened Wrappers
  import opened Text

  datatype Date = Date(year: int, month: int, day: int)

  predicate IsLeap(y: int) {
    (y % 4 == 0 && y % 100 != 0) || y % 400 == 0
  }

  function DaysInMonth(y: int, m: int): int {
    if m == 2 then (if IsLeap(y) then 29 else 28)
    else if m == 4 || m == 6 || m == 9 || m == 11 then 30
    else 31
  }

  /** A date `datetime` accepts. */
  predicate Valid(d: Date) {
    1 <= d.year <= 9999 && 1 <= d.month <= 12 && 1 <= d.day <= DaysInMonth(d.year, d.month)
  }

  const LastDate := Date(9999, 12, 31)
  const FirstDate := Date(1, 1, 1)

  /** The date as the number YYYYMMDD; its order is the calendar order. */
  function Ymd(d: Date): int {
    d.year * 10000 + d.month * 100 + d.day
  }

  predicate Before(a: Date, b: Date) {
    Ymd(a) < Ymd(b)
  }

  lemma YmdInjective(a: Date, b: Date)
    requires Valid(a) && Valid(b) && Ymd(a) == Ymd(b)
    ensures a == b
  {
  }

  /** `d.replace(day=1)` moved one month on, December rolling into January. */
  function FirstOfNextMonth(d: Date): Date {
    if d.month == 12 then Date(d.year + 1, 1, 1) else Date(d.year, d.month + 1, 1)
  }

  /** `d + timedelta(days=1)`. */
  function Next(d: Date): Date {
    if d.day < DaysInMonth(d.year, d.month) then Date(d.year, d.month, d.day + 1)
    else FirstOfNextMonth(d)
  }

  /** `d - timedelta(days=1)`. */
  function Prev(d: Date): Date {
    if d.day > 1 then Date(d.year, d.month, d.day - 1)
    else if d.month == 1 then Date(d.year - 1, 12, 31)
    else Date(d.year, d.month - 1, DaysInMonth(d.year, d.month - 1))
  }

  /** The next day is a valid date strictly after `d`, with no date in between. */
  lemma NextIsSuccessor(d: Date, x: Date)
    requires Valid(d) && d != LastDate && Valid(x)
    ensures Valid(Next(d)) && Before(d, Next(d))
    ensures Before(d, x) ==> Ymd(Next(d)) <= Ymd(x)
  {
    if d.day == DaysInMonth(d.year, d.month) && Before(d, x) {
      if x.year == d.year {
        assert x.month > d.month;
      } else {
        assert x.year > d.year;
      }
    }
  }

  /** December 9999, the month whose successor `datetime` cannot represent. */
  predicate InLastMonth(d: Date) {
    d.year == 9999 && d.month == 12
  }

  /** The first of the next month is a valid date after every day of `d`'s month,
      and the day before it is the last day of that month. */
  lemma FirstOfNextMonthFacts(d: Date)
    requires Valid(d) && !InLastMonth(d)
    ensures Valid(FirstOfNextMonth(d)) && Before(d, FirstOfNextMonth(d))
    ensures Prev(FirstOfNextMonth(d)) == Date(d.year, d.month, DaysInMonth(d.year, d.month))
    ensures Next(Date(d.year, d.month, DaysInMonth(d.year, d.month))) == FirstOfNextMonth(d)
  {
  }

  lemma PrevNext(d: Date)
    requires Valid(d) && d != LastDate
    ensures Prev(Next(d)) == d
  {
  }

  lemma NextPrev(d: Date)
    requires Valid(d) && d != FirstDate
    ensures Valid(Prev(d)) && Next(Prev(d)) == d
  {
  }

  /** `d + timedelta(days=n)`; None where `datetime` would overflow. */
  function ShiftDays(d: Date, n: int): (r: Option<Date>)
    requires Valid(d)
    ensures r.Some? ==> Valid(r.value)
    decreases if n < 0 then -n else n
  {
    if n == 0 then Some(d)
    else if n > 0 then (if d == LastDate then None else ShiftDays(Next(d), n - 1))
    else (if d == FirstDate then None else ShiftDays(Prev(d), n + 1))
  }

  /** Shifting back a number of days lands on or before the start, and moving forward
      the same number of days from there returns to the start. */
  lemma {:induction false} ShiftBackAndForth(d: Date, n: nat)
    requires Valid(d)
    requires ShiftDays(d, -(n as int)).Some?
    ensures Ymd(ShiftDays(d, -(n as int)).value) <= Ymd(d)
    ensures ShiftDays(ShiftDays(d, -(n as int)).value, n) == Some(d)
    decreases n
  {
    if n > 0 {
      NextPrev(d);
      var p := Prev(d);
      assert ShiftDays(d, -(n as int)) == ShiftDays(p, -((n - 1) as int));
      ShiftBackAndForth(p, n - 1);
      ShiftForwardLast(ShiftDays(p, -((n - 1) as int)).value, n - 1, p);
    }
  }

  /** Moving forward n days and then one more is moving forward n + 1 days. */
  lemma {:induction false} ShiftForwardLast(d: Date, n: nat, e: Date)
    requires Valid(d) && Valid(e) && e != LastDate
    requires ShiftDays(d, n) == Some(e)
    ensures ShiftDays(d, n + 1) == Some(Next(e))
    decreases n
  {
    if n > 0 {
      ShiftForwardLast(Next(d), n - 1, e);
    }
  }

  /** `strftime('%Y%m%d')`. */
  function FormatYmd(d: Date): string {
    DigitsOf(if Ymd(d) < 0 then 0 else Ymd(d), 8)
  }

  /** `strftime('%Y-%m-%d')`. */
  function FormatIso(d: Date): string {
    var s := FormatYmd(d);
    s[..4] + "-" + s[4..6] + "-" + s[6..8]
  }

  /** `pd.to_datetime(s, format='%Y%m%d')`: exactly eight digits naming a valid date. */
  function ParseYmd(s: string): Option<Date> {
    if |s| == 8 && IsDigits(s) then
      var v := ValueOf(s);
      var d := Date(v / 10000, v / 100 % 100, v % 100);
      if Valid(d) then Some(d) else None
    else None
  }

  lemma YmdBounds(d: Date)
    requires Valid(d)
    ensures 10000 <= Ymd(d) < Pow10(8)
  {
    assert Pow10(8) == 100000000;
  }

  /** Formatting a valid date and parsing it back gives the date. */
  lemma ParseFormat(d: Date)
    requires Valid(d)
    ensures ParseYmd(FormatYmd(d)) == Some(d)
  {
    YmdBounds(d);
    ValueOfDigitsOf(Ymd(d), 8);
    YmdFields(d);
  }

  lemma YmdFields(d: Date)
    requires Valid(d)
    ensures Ymd(d) / 10000 == d.year
    ensures Ymd(d) / 100 % 100 == d.month
    ensures Ymd(d) % 100 == d.day
  {
    var v := Ymd(d);
    var low := d.month * 100 + d.day;
    assert 0 <= low < 10000;
    assert v == d.year * 10000 + low;
    assert v / 100 == d.year * 100 + d.month;
  }

  /** A string that parses is the formatting of the date it names. */
  lemma FormatParse(s: string)
    requires ParseYmd(s).Some?
    ensures Valid(ParseYmd(s).value)
    ensures FormatYmd(ParseYmd(s).value) == s
  {
    var v := ValueOf(s);
    var d := ParseYmd(s).value;
    SplitYmd(v);
    assert d == Date(v / 10000, v / 100 % 100, v % 100);
    assert Ymd(d) == v;
    DigitsOfValueOf(s);
  }

  /** A number is its YYYY, MM and DD parts put back together. */
  lemma SplitYmd(v: nat)
    ensures v == (v / 10000) * 10000 + (v / 100 % 100) * 100 + v % 100
  {
    var h := v / 100;
    assert v == h * 100 + v % 100;
    assert h == (h / 100) * 100 + h % 100;
    assert h / 100 == v / 10000;
  }

  /** On valid dates, comparing the 'YYYYMMDD' strings as Python does is comparing
      the dates. */
  lemma FormatOrder(a: Date, b: Date)
    requires Valid(a) && Valid(b)
    ensures StrLe(FormatYmd(a), FormatYmd(b)) <==> Ymd(a) <= Ymd(b)
    ensures FormatYmd(a) == FormatYmd(b) <==> a == b
  {
    YmdBounds(a);
    YmdBounds(b);
    var sa, sb := FormatYmd(a), FormatYmd(b);
    assert sa == DigitsOf(Ymd(a), 8) && sb == DigitsOf(Ymd(b), 8);
    ValueOfDigitsOf(Ymd(a), 8);
    ValueOfDigitsOf(Ymd(b), 8);
    StrLeDigits(sa, sb);
    if Ymd(a) == Ymd(b) {
      YmdInjective(a, b);
    }
  }
}
