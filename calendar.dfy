/** Time values as ECMAScript defines them (section 21.4.1 of ECMA-262):
    integer milliseconds since 1970-01-01T00:00:00Z. Only the pieces the
    dashboard's month window and the renewal report's date text use:
    `new Date(y, m, d, h, min, s, ms)` and `Date.prototype.toISOString`.
    Time zones are not modelled: local time is taken to be UTC. */
module Calendar {
  import opened Text

  const MsPerDay: int := 86_400_000

  /** `new Date(y, ...)` reads a year 0..99 as 1900..1999. */
  function ConstructorYear(y: int): int
  {
    if 0 <= y <= 99 then 1900 + y else y
  }

  /** The Gregorian leap-year rule. */
  predicate IsLeapYear(y: int)
  {
    y % 4 == 0 && (y % 100 != 0 || y % 400 == 0)
  }

  function DaysInYear(y: int): int
  {
    if IsLeapYear(y) then 366 else 365
  }

  /** The day number of January 1st of year `y` (ECMA-262 DayFromYear). */
  function DayFromYear(y: int): int
  {
    365 * (y - 1970) + (y - 1969) / 4 - (y - 1901) / 100 + (y - 1601) / 400
  }

  /** Days of the year before month `m0` (0 = January). */
  function DaysBeforeMonth(m0: int, leap: bool): int
    requires 0 <= m0 < 12
  {
    [0, 31, 59, 90, 120, 151, 181, 212, 243, 273, 304, 334][m0]
      + (if leap && m0 >= 2 then 1 else 0)
  }

  /** The length of month `month` (1 = January) of year `y`. */
  function DaysInMonth(y: int, month: int): int
    requires 1 <= month <= 12
  {
    if month == 2 then (if IsLeapYear(y) then 29 else 28)
    else if month == 4 || month == 6 || month == 9 || month == 11 then 30
    else 31
  }

  /** ECMA-262 MakeDay: the day number of date `date` of month `month`
      (0-based, any integer: it carries into the year) of `year`. Date 0 is
      the day before the 1st. */
  function MakeDay(year: int, month: int, date: int): int
  {
    var ym := year + month / 12;
    var mn := month % 12;
    DayFromYear(ym) + DaysBeforeMonth(mn, IsLeapYear(ym)) + date - 1
  }

  function MakeTime(hour: int, min: int, sec: int, ms: int): int
  {
    hour * 3_600_000 + min * 60_000 + sec * 1_000 + ms
  }

  function MakeDate(day: int, time: int): int
  {
    day * 86_400_000 + time
  }

  /** `new Date(year, month - 1, 1)`: the first instant of the month, as
      the constructor computes it (MakeDate of MakeDay and MakeTime, with
      the two-digit year rule). */
  function MonthStart(year: int, month: int): int
  {
    MakeDate(MakeDay(ConstructorYear(year), month - 1, 1), MakeTime(0, 0, 0, 0))
  }

  /** `new Date(year, month, 0, 23, 59, 59, 999)`: day 0 of the next month,
      that is the last day of this one, at its last millisecond. */
  function MonthEnd(year: int, month: int): int
  {
    MakeDate(MakeDay(ConstructorYear(year), month, 0), MakeTime(23, 59, 59, 999))
  }

  /** The first day of a month, computed without MakeDay's carrying. */
  function FirstDayOfMonth(y: int, month: int): int
    requires 1 <= month <= 12
  {
    DayFromYear(y) + DaysBeforeMonth(month - 1, IsLeapYear(y))
  }

  /** Each quotient in DayFromYear steps up by one exactly when `y` is a
      multiple of its divisor. */
  lemma Step4(y: int)
    ensures (y - 1968) / 4 - (y - 1969) / 4 == (if y % 4 == 0 then 1 else 0)
  {
  }

  lemma Step100(y: int)
    ensures (y - 1900) / 100 - (y - 1901) / 100 == (if y % 100 == 0 then 1 else 0)
  {
  }

  lemma Step400(y: int)
    ensures (y - 1600) / 400 - (y - 1601) / 400 == (if y % 400 == 0 then 1 else 0)
  {
  }

  /** Consecutive New Year's days are one year length apart. */
  lemma YearLength(y: int)
    ensures DayFromYear(y + 1) == DayFromYear(y) + DaysInYear(y)
  {
    DayFromYearStep(y);
    Step4(y);
    Step100(y);
    Step400(y);
    LeapDivisors(y);
  }

  lemma DayFromYearStep(y: int)
    ensures DayFromYear(y + 1) - DayFromYear(y)
         == 365 + ((y - 1968) / 4 - (y - 1969) / 4) - ((y - 1900) / 100 - (y - 1901) / 100)
                + ((y - 1600) / 400 - (y - 1601) / 400)
  {
    assert y + 1 - 1969 == y - 1968 && y + 1 - 1901 == y - 1900 && y + 1 - 1601 == y - 1600;
  }

  /** A multiple of 400 is one of 100, and a multiple of 100 one of 4. */
  lemma LeapDivisors(y: int)
    ensures y % 400 == 0 ==> y % 100 == 0
    ensures y % 100 == 0 ==> y % 4 == 0
  {
    if y % 400 == 0 {
      Multiple(y, 400, 100);
    }
    if y % 100 == 0 {
      Multiple(y, 100, 4);
    }
  }

  lemma Multiple(y: int, m: int, n: int)
    requires (m == 400 && n == 100) || (m == 100 && n == 4)
    requires y % m == 0
    ensures y % n == 0
  {
    var k := y / m;
    if m == 400 {
      assert y == 100 * (4 * k);
    } else {
      assert y == 4 * (25 * k);
    }
  }

  /** The dashboard window of `(year, month)` runs from 00:00:00.000 on day 1
      to 23:59:59.999 on the month's last day, whose number is 28, 29, 30 or
      31 by the Gregorian rule. */
  lemma {:induction false} MonthWindow(year: int, month: int)
    requires 1 <= month <= 12
    ensures var y := ConstructorYear(year);
      && MonthStart(year, month) == MakeDate(FirstDayOfMonth(y, month), MakeTime(0, 0, 0, 0))
      && MonthEnd(year, month)
         == MakeDate(FirstDayOfMonth(y, month) + DaysInMonth(y, month) - 1, MakeTime(23, 59, 59, 999))
    ensures MonthEnd(year, month) - MonthStart(year, month) + 1
            == DaysInMonth(ConstructorYear(year), month) * MsPerDay
  {
    var y := ConstructorYear(year);
    MonthStartDay(y, month);
    MonthEndDay(y, month);
  }

  lemma MonthStartDay(y: int, month: int)
    requires 1 <= month <= 12
    ensures MakeDay(y, month - 1, 1) == FirstDayOfMonth(y, month)
  {
    SameYearDay(y, month - 1, 1);
  }

  lemma MonthEndDay(y: int, month: int)
    requires 1 <= month <= 12
    ensures MakeDay(y, month, 0) == FirstDayOfMonth(y, month) + DaysInMonth(y, month) - 1
  {
    NextMonthStart(y, month);
    DateOffset(y, month, 0);
  }

  lemma SameYearDay(y: int, m0: int, date: int)
    requires 0 <= m0 < 12
    ensures MakeDay(y, m0, date) == DayFromYear(y) + DaysBeforeMonth(m0, IsLeapYear(y)) + date - 1
  {
    assert m0 / 12 == 0 && m0 % 12 == m0;
  }

  lemma DateOffset(y: int, month: int, date: int)
    ensures MakeDay(y, month, date) == MakeDay(y, month, 1) + date - 1
  {
  }

  /** Day 1 of the month after `month`, as MakeDay computes it with its
      carry into the next year, is `DaysInMonth` days after day 1 of `month`. */
  lemma NextMonthStart(y: int, month: int)
    requires 1 <= month <= 12
    ensures MakeDay(y, month, 1) == FirstDayOfMonth(y, month) + DaysInMonth(y, month)
  {
    var leap := IsLeapYear(y);
    if month == 12 {
      assert month / 12 == 1 && month % 12 == 0;
      YearLength(y);
      assert DaysBeforeMonth(11, leap) + 31 == DaysInYear(y);
    } else {
      assert month / 12 == 0 && month % 12 == month;
      assert DaysBeforeMonth(month, leap) == DaysBeforeMonth(month - 1, leap) + DaysInMonth(y, month);
    }
  }

  lemma DaysInMonthRange(y: int, month: int)
    requires 1 <= month <= 12
    ensures 28 <= DaysInMonth(y, month) <= 31
    ensures month == 2 ==> (DaysInMonth(y, month) == 29 <==> IsLeapYear(y))
  {
  }

  /** The civil date (year, month 1..12, day 1..31) of day number `days`
      (days since 1970-01-01), by the era decomposition of the proleptic
      Gregorian calendar into 400-year cycles. */
  function CivilFromDays(days: int): (r: (int, int, int))
    ensures 1 <= r.1 <= 12 && 1 <= r.2 <= 31
  {
    var z := days + 719_468;
    var era := z / 146_097;
    var doe := z % 146_097;
    var yoe := (doe - doe / 1_460 + doe / 36_524 - doe / 146_096) / 365;
    var doy := doe - (365 * yoe + yoe / 4 - yoe / 100);
    var mp := (5 * doy + 2) / 153;
    var d := doy - (153 * mp + 2) / 5 + 1;
    var m := if mp < 10 then mp + 3 else mp - 9;
    var y := yoe + era * 400 + (if m <= 2 then 1 else 0);
    (y, m, d)
  }

  /** The year as toISOString writes it: four digits for 0..9999, otherwise
      a sign and six digits. */
  function IsoYear(y: int): string
  {
    if 0 <= y <= 9999 then Padded(y, 4)
    else if y < 0 then "-" + Padded(-y, 6)
    else "+" + Padded(y, 6)
  }

  /** The `YYYY-MM-DD` part of the ISO rendering of time value `t`. */
  function IsoDate(t: int): string
  {
    var civil := CivilFromDays(t / MsPerDay);
    IsoYear(civil.0) + "-" + Padded(civil.1, 2) + "-" + Padded(civil.2, 2)
  }

  /** `new Date(t).toISOString()`: `YYYY-MM-DDTHH:mm:ss.sssZ` in UTC. */
  function IsoString(t: int): string
  {
    IsoDate(t) + ("T" + IsoTime(t))
  }

  /** The `HH:mm:ss.sssZ` part of the ISO rendering of time value `t`. */
  function IsoTime(t: int): string
  {
    var ms := t % MsPerDay;
    Padded(ms / 3_600_000, 2) + ":" + Padded(ms / 60_000 % 60, 2) + ":"
      + Padded(ms / 1_000 % 60, 2) + "." + Padded(ms % 1_000, 3) + "Z"
  }

  /** `toISOString().split('T')[0]` is the date part of the time value. */
  lemma IsoDatePart(t: int)
    ensures Before(IsoString(t), 'T') == IsoDate(t)
  {
    var civil := CivilFromDays(t / MsPerDay);
    DateThenT(civil.0, civil.1, civil.2, IsoTime(t));
  }

  /** A rendered date holds no `T`, so it is everything before the `T`
      that follows it. */
  lemma DateThenT(year: int, month: nat, day: nat, tail: string)
    ensures var date := IsoYear(year) + "-" + Padded(month, 2) + "-" + Padded(day, 2);
      Before(date + ("T" + tail), 'T') == date
  {
    var y := IsoYear(year);
    var date := y + "-" + Padded(month, 2) + "-" + Padded(day, 2);
    assert 'T' !in y by {
      if 0 <= year <= 9999 {
        assert AllDigits(y);
      } else {
        assert AllDigits(y[1..]);
      }
    }
    assert 'T' !in Padded(month, 2) && 'T' !in Padded(day, 2);
    assert 'T' !in date;
    BeforeAt(date, "T" + tail, 'T');
  }

  lemma {:induction false} BeforeAt(s: string, rest: string, c: char)
    requires c !in s && rest != [] && rest[0] == c
    ensures Before(s + rest, c) == s
  {
    if s != [] {
      assert (s + rest)[1..] == s[1..] + rest;
      BeforeAt(s[1..], rest, c);
    }
  }

  /** The two calendars agree on a leap day: counting 28 days on from the
      first day of February 2024 reaches the civil date 2024-02-29. */
  lemma LeapDayAgrees()
    ensures CivilFromDays(FirstDayOfMonth(2024, 2) + 28) == (2024, 2, 29)
  {
    assert DayFromYear(2024) == 19_723;
    assert FirstDayOfMonth(2024, 2) + 28 == 19_782;
    assert 739_250 / 146_097 == 5 && 739_250 % 146_097 == 8_765;
    assert 8_765 / 1_460 == 6 && 8_765 / 36_524 == 0 && 8_765 / 146_096 == 0;
    assert 8_759 / 365 == 23 && 23 / 4 == 5 && 23 / 100 == 0;
    assert (5 * 365 + 2) / 153 == 11 && (153 * 11 + 2) / 5 == 337;
  }
}
