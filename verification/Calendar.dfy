/** The proleptic Gregorian calendar, counted in days from 1970-01-01. */
module Calendar {
  import opened Arithmetic

  datatype Date = Date(year: int, month: int, day: int)

  const EPOCH := Date(1970, 1, 1)

  predicate Leap(year: int) {
    year % 4 == 0 && (year % 100 != 0 || year % 400 == 0)
  }

  function YearDays(year: int): int {
    if Leap(year) then 366 else 365
  }

  function MonthDays(year: int, month: int): int
    requires 1 <= month <= 12
  {
    if month == 2 then (if Leap(year) then 29 else 28)
    else if month in {4, 6, 9, 11} then 30
    else 31
  }

  predicate Valid(d: Date) {
    1 <= d.month <= 12 && 1 <= d.day <= MonthDays(d.year, d.month)
  }

  /** The day after. Together with the epoch this is the whole calendar. */
  function Next(d: Date): (r: Date)
    requires Valid(d)
    ensures Valid(r)
  {
    if d.day < MonthDays(d.year, d.month) then Date(d.year, d.month, d.day + 1)
    else if d.month < 12 then Date(d.year, d.month + 1, 1)
    else Date(d.year + 1, 1, 1)
  }

  /** Days from 0001-01-01 to the first of January of a year. */
  function DaysBeforeYear(year: int): int {
    365 * (year - 1) + (year - 1) / 4 - (year - 1) / 100 + (year - 1) / 400
  }

  function DaysBeforeMonth(year: int, month: int): int
    requires 1 <= month <= 13
    decreases month
  {
    if month == 1 then 0 else DaysBeforeMonth(year, month - 1) + MonthDays(year, month - 1)
  }

  const EPOCH_OFFSET := 719162

  /** Days from the epoch, as a date converts to `sys_days`. */
  function DayNumber(d: Date): int
    requires Valid(d)
  {
    DaysBeforeYear(d.year) + DaysBeforeMonth(d.year, d.month) + d.day - 1 - EPOCH_OFFSET
  }

  lemma QuotientSteps(y: int)
    ensures y / 4 == (y - 1) / 4 + (if y % 4 == 0 then 1 else 0)
    ensures y / 100 == (y - 1) / 100 + (if y % 100 == 0 then 1 else 0)
    ensures y / 400 == (y - 1) / 400 + (if y % 400 == 0 then 1 else 0)
  {
    var q4, q100, q400 := y / 4, y / 100, y / 400;
    if y % 4 == 0 { By4(y - 1, q4 - 1, 3); } else { By4(y - 1, q4, y % 4 - 1); }
    if y % 100 == 0 { By100(y - 1, q100 - 1, 99); } else { By100(y - 1, q100, y % 100 - 1); }
    if y % 400 == 0 { By400(y - 1, q400 - 1, 399); } else { By400(y - 1, q400, y % 400 - 1); }
  }

  lemma WholeCenturies(year: int)
    ensures year % 400 == 0 ==> year % 100 == 0
    ensures year % 100 == 0 ==> year % 4 == 0
  {
    if year % 400 == 0 {
      By100(year, 4 * (year / 400), 0);
    }
    if year % 100 == 0 {
      By4(year, 25 * (year / 100), 0);
    }
  }

  lemma YearLength(year: int)
    ensures DaysBeforeYear(year + 1) == DaysBeforeYear(year) + YearDays(year)
  {
    QuotientSteps(year);
    WholeCenturies(year);
  }

  lemma MonthsFillYear(year: int)
    ensures DaysBeforeMonth(year, 13) == YearDays(year)
  {
    assert DaysBeforeMonth(year, 4) == 59 + MonthDays(year, 2) - 28 + 31;
    assert DaysBeforeMonth(year, 7) == DaysBeforeMonth(year, 4) + 91;
    assert DaysBeforeMonth(year, 10) == DaysBeforeMonth(year, 7) + 92;
  }

  /** Day numbers are the count of days: zero at the epoch, one more for every next day. */
  lemma DayNumberCounts(d: Date)
    requires Valid(d)
    ensures DayNumber(Next(d)) == DayNumber(d) + 1
    ensures DayNumber(EPOCH) == 0
  {
    if d.day == MonthDays(d.year, d.month) && d.month == 12 {
      YearLength(d.year);
      MonthsFillYear(d.year);
      assert DaysBeforeMonth(d.year, 13) == DaysBeforeMonth(d.year, 12) + 31;
    }
  }

  // ------------------------------------------------- from day numbers to dates

  /** The month that holds day `doy` (counted from zero) of a year, searching from `month`. */
  function MonthFrom(year: int, doy: int, month: int): (r: int)
    requires 1 <= month <= 12 && DaysBeforeMonth(year, month) <= doy < DaysBeforeMonth(year, 13)
    ensures month <= r <= 12
    ensures DaysBeforeMonth(year, r) <= doy < DaysBeforeMonth(year, r + 1)
    decreases 12 - month
  {
    if doy < DaysBeforeMonth(year, month + 1) then month else MonthFrom(year, doy, month + 1)
  }

  datatype YearDay = YearDay(year: int, doy: int)

  /** A year in its 400-year, 100-year and 4-year cycles. */
  function InCycle(a: int, b: int, c: int, d: int): int {
    400 * a + 100 * b + 4 * c + d + 1
  }

  function YearIn4(a: int, b: int, c: int, r4: int): YearDay {
    var d := if r4 / 365 < 3 then r4 / 365 else 3;
    YearDay(InCycle(a, b, c, d), r4 - 365 * d)
  }

  function YearIn100(a: int, b: int, r100: int): YearDay {
    YearIn4(a, b, r100 / 1461, r100 % 1461)
  }

  function YearIn400(a: int, r400: int): YearDay {
    var b := if r400 / 36524 < 3 then r400 / 36524 else 3;
    YearIn100(a, b, r400 - 36524 * b)
  }

  /** The year of a day, by its 400-year, 100-year, 4-year and 1-year cycles. */
  function YearOf(z: int): YearDay {
    YearIn400(z / 146097, z % 146097)
  }

  lemma CycleDays(a: int, b: int, c: int, d: int)
    requires 0 <= b <= 3 && 0 <= c <= 24 && 0 <= d <= 3
    ensures DaysBeforeYear(InCycle(a, b, c, d)) == 146097 * a + 36524 * b + 1461 * c + 365 * d
  {
    var y := InCycle(a, b, c, d) - 1;
    By4(y, 100 * a + 25 * b + c, d);
    By100(y, 4 * a + b, 4 * c + d);
    By400(y, a, 100 * b + 4 * c + d);
  }

  lemma CycleLeap(a: int, b: int, c: int, d: int)
    requires 0 <= b <= 3 && 0 <= c <= 24 && 0 <= d <= 3
    ensures Leap(InCycle(a, b, c, d)) <==> d == 3 && (c < 24 || b == 3)
  {
    var year := InCycle(a, b, c, d);
    if d < 3 {
      By4(year, 100 * a + 25 * b + c, d + 1);
    } else {
      By4(year, 100 * a + 25 * b + c + 1, 0);
      if c < 24 {
        By100(year, 4 * a + b, 4 * c + 4);
      } else {
        By100(year, 4 * a + b + 1, 0);
        if b < 3 {
          By400(year, a, 100 * b + 100);
        } else {
          By400(year, a + 1, 0);
        }
      }
    }
  }

  /** The century of a day in its 400 years; the last one may be a day longer. */
  lemma Century(r400: int)
    requires 0 <= r400 < 146097
    ensures var c := if r400 / 36524 < 3 then r400 / 36524 else 3;
            0 <= c <= 3 && 0 <= r400 - 36524 * c <= 36524 && (r400 - 36524 * c == 36524 ==> c == 3)
  {
  }

  /** The four years of a day in its century; the last ones are a day shorter in most centuries. */
  lemma FourYears(r100: int)
    requires 0 <= r100 <= 36524
    ensures var c, r := r100 / 1461, r100 % 1461;
            0 <= c <= 24 && 0 <= r <= 1460 && r100 == 1461 * c + r && (c == 24 && r == 1460 ==> r100 == 36524)
  {
  }

  lemma OneYear(r4: int)
    requires 0 <= r4 <= 1460
    ensures var c := if r4 / 365 < 3 then r4 / 365 else 3;
            0 <= c <= 3 && 0 <= r4 - 365 * c <= 365 && (r4 - 365 * c == 365 ==> r4 == 1460 && c == 3)
  {
  }

  /** The year found is the one that holds the day. */
  ghost predicate Holds(r: YearDay, z: int) {
    DaysBeforeYear(r.year) + r.doy == z && 0 <= r.doy < YearDays(r.year)
  }

  lemma In4(a: int, b: int, c: int, r4: int)
    requires 0 <= b <= 3 && 0 <= c <= 24 && 0 <= r4 <= 1460 && (r4 == 1460 ==> c < 24 || b == 3)
    ensures Holds(YearIn4(a, b, c, r4), 146097 * a + 36524 * b + 1461 * c + r4)
  {
    OneYear(r4);
    var d := if r4 / 365 < 3 then r4 / 365 else 3;
    CycleDays(a, b, c, d);
    CycleLeap(a, b, c, d);
  }

  lemma In100(a: int, b: int, r100: int)
    requires 0 <= b <= 3 && 0 <= r100 <= 36524 && (r100 == 36524 ==> b == 3)
    ensures Holds(YearIn100(a, b, r100), 146097 * a + 36524 * b + r100)
  {
    FourYears(r100);
    In4(a, b, r100 / 1461, r100 % 1461);
  }

  lemma In400(a: int, r400: int)
    requires 0 <= r400 < 146097
    ensures Holds(YearIn400(a, r400), 146097 * a + r400)
  {
    Century(r400);
    var b := if r400 / 36524 < 3 then r400 / 36524 else 3;
    In100(a, b, r400 - 36524 * b);
  }

  lemma YearOfCorrect(z: int)
    ensures Holds(YearOf(z), z)
  {
    In400(z / 146097, z % 146097);
  }

  /** The date of a day number, as `sys_days` converts to a date. */
  function FromDayNumber(n: int): (d: Date)
    ensures Valid(d)
    ensures DayNumber(d) == n
  {
    var z := n + EPOCH_OFFSET;
    YearOfCorrect(z);
    var y := YearOf(z);
    MonthsFillYear(y.year);
    var month := MonthFrom(y.year, y.doy, 1);
    Date(y.year, month, y.doy - DaysBeforeMonth(y.year, month) + 1)
  }

  lemma {:induction false} YearsApart(a: int, b: int)
    requires a < b
    ensures DaysBeforeYear(a) + YearDays(a) <= DaysBeforeYear(b)
    decreases b - a
  {
    YearLength(a);
    if a + 1 < b {
      YearsApart(a + 1, b);
    }
  }

  lemma {:induction false} MonthsApart(year: int, a: int, b: int)
    requires 1 <= a < b <= 13
    ensures DaysBeforeMonth(year, a) + MonthDays(year, a) <= DaysBeforeMonth(year, b)
    decreases b - a
  {
    if a + 1 < b {
      MonthsApart(year, a + 1, b);
    }
  }

  lemma WithinYear(d: Date)
    requires Valid(d)
    ensures 0 <= DayNumber(d) + EPOCH_OFFSET - DaysBeforeYear(d.year) < YearDays(d.year)
  {
    MonthsFillYear(d.year);
    MonthsApart(d.year, d.month, 13);
    if d.month > 1 {
      MonthsApart(d.year, 1, d.month);
    }
  }

  /** No two dates share a day number, so the two conversions are inverse to each other. */
  lemma DayNumberInjective(d: Date, e: Date)
    requires Valid(d) && Valid(e) && DayNumber(d) == DayNumber(e)
    ensures d == e
  {
    WithinYear(d);
    WithinYear(e);
    if d.year < e.year {
      YearsApart(d.year, e.year);
    } else if e.year < d.year {
      YearsApart(e.year, d.year);
    } else if d.month < e.month {
      MonthsApart(d.year, d.month, e.month);
    } else if e.month < d.month {
      MonthsApart(d.year, e.month, d.month);
    }
  }
}
