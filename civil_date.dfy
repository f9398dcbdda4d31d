/** Calendar dates as (year, month, day) triples, their day numbers (days
    since 1970-01-01) and the weekday that `Date.getDay` reports. */
module CivilDate {
  import opened Common

  datatype Date = Date(year: int, month: int, day: int)

  predicate IsLeap(y: int) { y % 4 == 0 && (y % 100 != 0 || y % 400 == 0) }

  function DaysInMonth(y: int, m: int): (n: int)
    requires 1 <= m <= 12
    ensures 28 <= n <= 31
  {
    if m == 2 then (if IsLeap(y) then 29 else 28)
    else if m == 4 || m == 6 || m == 9 || m == 11 then 30
    else 31
  }

  predicate Valid(d: Date) { 1 <= d.month <= 12 && 1 <= d.day <= DaysInMonth(d.year, d.month) }

  /** Days of year `y` before the first of month `m`. */
  function DaysBeforeMonth(y: int, m: int): int
    requires 1 <= m <= 12
  {
    [0, 31, 59, 90, 120, 151, 181, 212, 243, 273, 304, 334][m - 1] + (if m > 2 && IsLeap(y) then 1 else 0)
  }

  lemma MonthStep(y: int, m: int)
    requires 1 <= m < 12
    ensures DaysBeforeMonth(y, m + 1) == DaysBeforeMonth(y, m) + DaysInMonth(y, m)
  {
  }

  function YearLength(y: int): int { if IsLeap(y) then 366 else 365 }

  /** Leap years in 1..n, extended to all integers by floor division. */
  function Leaps(n: int): int { n / 4 - n / 100 + n / 400 }

  function DaysBeforeYear(y: int): int { 365 * (y - 1970) + Leaps(y - 1) - Leaps(1969) }

  /** Days since 1970-01-01. */
  function DayNumber(d: Date): int
    requires Valid(d)
  {
    DaysBeforeYear(d.year) + DaysBeforeMonth(d.year, d.month) + d.day - 1
  }

  /** `getDay()`: 0 is Sunday; 1970-01-01 was a Thursday. */
  function Weekday(d: Date): (w: int)
    requires Valid(d)
    ensures 0 <= w < 7
  {
    SealedWeekday(d, 1)
  }

  /** `Weekday` and `NextDay` compute through a "sealed" twin that only
      computes at `k == 0`, one call further down. A proof that merely
      mentions a weekday or a next day then does not see the day-number and
      month-length arithmetic behind it; `WeekdayNumber` and `NextDayIs`
      state that arithmetic where a proof needs it. */
  function SealedWeekday(d: Date, k: nat): (w: int)
    requires Valid(d)
    ensures 0 <= w < 7
  {
    if k == 0 then (DayNumber(d) + 4) % 7 else SealedWeekday(d, k - 1)
  }

  lemma WeekdayNumber(d: Date)
    requires Valid(d)
    ensures Weekday(d) == (DayNumber(d) + 4) % 7
  {
    assert SealedWeekday(d, 0) == (DayNumber(d) + 4) % 7;
  }

  function NextDay(d: Date): (r: Date)
    requires Valid(d)
    ensures Valid(r)
  {
    SealedNext(d, 1)
  }

  function SealedNext(d: Date, k: nat): (r: Date)
    requires Valid(d)
    ensures Valid(r)
  {
    if k > 0 then SealedNext(d, k - 1) else
    if d.day < DaysInMonth(d.year, d.month) then Date(d.year, d.month, d.day + 1)
    else if d.month < 12 then Date(d.year, d.month + 1, 1)
    else Date(d.year + 1, 1, 1)
  }

  function PrevDay(d: Date): (r: Date)
    requires Valid(d)
    ensures Valid(r)
  {
    if d.day > 1 then Date(d.year, d.month, d.day - 1)
    else if d.month > 1 then Date(d.year, d.month - 1, DaysInMonth(d.year, d.month - 1))
    else Date(d.year - 1, 12, 31)
  }

  lemma DivStep4(y: int)
    ensures y / 4 - (y - 1) / 4 == if y % 4 == 0 then 1 else 0
  {
  }

  lemma DivStep100(y: int)
    ensures y / 100 - (y - 1) / 100 == if y % 100 == 0 then 1 else 0
  {
  }

  lemma DivStep400(y: int)
    ensures y / 400 - (y - 1) / 400 == if y % 400 == 0 then 1 else 0
  {
  }

  lemma YearStep(y: int)
    ensures DaysBeforeYear(y + 1) == DaysBeforeYear(y) + YearLength(y)
  {
    DivStep4(y);
    DivStep100(y);
    DivStep400(y);
    DivisorChain(y);
    assert Leaps(y) - Leaps(y - 1) == if IsLeap(y) then 1 else 0;
  }

  lemma DivisorChain(y: int)
    ensures (y % 400 == 0 ==> y % 100 == 0) && (y % 100 == 0 ==> y % 4 == 0)
  {
    var r := y % 400;
    Remainder100(y, 4 * (y / 400) + r / 100, r % 100);
    Remainder4(y, 25 * (y / 100) + (y % 100) / 4, (y % 100) % 4);
  }

  lemma Remainder100(y: int, a: int, b: int)
    requires y == 100 * a + b && 0 <= b < 100
    ensures y % 100 == b
  {
  }

  lemma Remainder4(y: int, a: int, b: int)
    requires y == 4 * a + b && 0 <= b < 4
    ensures y % 4 == b
  {
  }

  lemma DecemberEnd(y: int)
    ensures DaysBeforeMonth(y, 12) + 31 == YearLength(y)
  {
  }

  lemma NextDayIs(d: Date)
    requires Valid(d)
    ensures NextDay(d) == if d.day < DaysInMonth(d.year, d.month) then Date(d.year, d.month, d.day + 1)
                          else if d.month < 12 then Date(d.year, d.month + 1, 1)
                          else Date(d.year + 1, 1, 1)
  {
    assert NextDay(d) == SealedNext(d, 0);
  }

  lemma NextDayNumber(d: Date)
    requires Valid(d)
    ensures DayNumber(NextDay(d)) == DayNumber(d) + 1
  {
    NextDayIs(d);
    if d.day == DaysInMonth(d.year, d.month) {
      if d.month == 12 {
        YearStep(d.year);
        DecemberEnd(d.year);
      } else {
        MonthStep(d.year, d.month);
      }
    }
  }

  lemma PrevDayNumber(d: Date)
    requires Valid(d)
    ensures DayNumber(PrevDay(d)) == DayNumber(d) - 1
  {
    if d.day == 1 {
      if d.month == 1 {
        YearStep(d.year - 1);
        DecemberEnd(d.year - 1);
      } else {
        MonthStep(d.year, d.month - 1);
      }
    }
  }

  /** Day numbers grow with the (year, month, day) order: comparing dates
      by instant and comparing them field by field agree. */
  predicate LexLt(a: Date, b: Date)
  {
    a.year < b.year || (a.year == b.year && (a.month < b.month || (a.month == b.month && a.day < b.day)))
  }

  lemma {:induction false} MonthMonotone(y: int, m1: int, m2: int)
    requires 1 <= m1 < m2 <= 12
    ensures DaysBeforeMonth(y, m1) + DaysInMonth(y, m1) <= DaysBeforeMonth(y, m2)
    decreases m2 - m1
  {
    MonthStep(y, m1);
    if m1 + 1 < m2 {
      MonthMonotone(y, m1 + 1, m2);
    }
  }

  lemma {:induction false} YearMonotone(y1: int, y2: int)
    requires y1 < y2
    ensures DaysBeforeYear(y1) + YearLength(y1) <= DaysBeforeYear(y2)
    decreases y2 - y1
  {
    YearStep(y1);
    if y1 + 1 < y2 {
      YearMonotone(y1 + 1, y2);
    }
  }

  lemma LastDayOfYear(d: Date)
    requires Valid(d)
    ensures DayNumber(d) < DaysBeforeYear(d.year) + YearLength(d.year)
  {
    DecemberEnd(d.year);
    if d.month < 12 {
      MonthMonotone(d.year, d.month, 12);
    }
  }

  lemma DayNumberLess(a: Date, b: Date)
    requires Valid(a) && Valid(b) && LexLt(a, b)
    ensures DayNumber(a) < DayNumber(b)
  {
    if a.year < b.year {
      LastDayOfYear(a);
      YearMonotone(a.year, b.year);
      assert DayNumber(b) >= DaysBeforeYear(b.year);
    } else if a.month < b.month {
      MonthMonotone(a.year, a.month, b.month);
    }
  }

  lemma DayNumberOrder(a: Date, b: Date)
    requires Valid(a) && Valid(b)
    ensures DayNumber(a) < DayNumber(b) <==> LexLt(a, b)
    ensures DayNumber(a) == DayNumber(b) <==> a == b
  {
    if LexLt(a, b) {
      DayNumberLess(a, b);
    } else if LexLt(b, a) {
      DayNumberLess(b, a);
    } else {
      assert a == b;
    }
  }

  /** `yyyy-MM-dd`, for years 0..9999. */
  function DateKey(d: Date): (s: string)
    requires Valid(d) && 0 <= d.year < 10000
    ensures |s| == 10 && s[4] == '-' && s[7] == '-'
  {
    Pad4(d.year) + "-" + Pad2(d.month) + "-" + Pad2(d.day)
  }

  /** Reading `yyyy-MM-dd` back, as `split("-").map(Number)` does for a
      well-formed key; anything else is refused. */
  function ParseDateKey(s: string): (r: Option<Date>)
    ensures r.Some? ==> Valid(r.value) && 0 <= r.value.year < 10000
  {
    if |s| == 10 && s[4] == '-' && s[7] == '-' && AllDigits(s[..4]) && AllDigits(s[5..7]) && AllDigits(s[8..]) then
      var d := Date(ParseDecimal(s[..4]), ParseDecimal(s[5..7]), ParseDecimal(s[8..]));
      if Valid(d) && d.year < 10000 then Some(d) else None
    else None
  }

  lemma DateKeyRoundTrip(d: Date)
    requires Valid(d) && 0 <= d.year < 10000
    ensures ParseDateKey(DateKey(d)) == Some(d)
  {
    var s := DateKey(d);
    assert s[..4] == Pad4(d.year);
    assert s[5..7] == Pad2(d.month);
    assert s[8..] == Pad2(d.day);
    Pad2Parse(d.month);
    Pad2Parse(d.day);
  }
}
