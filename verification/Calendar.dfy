/**
 The Gregorian calendar as Go's time package counts it in UTC, from 0001-01-01.
 */
module Calendar {
  import opened Schema

  // ----- Days -----

  predicate Leap(year: int) {
    year % 4 == 0 && (year % 100 != 0 || year % 400 == 0)
  }

  /** Days from 0001-01-01 to the first day of a year. */
  function DaysBeforeYear(year: int): int {
    365 * (year - 1) + (year - 1) / 4 - (year - 1) / 100 + (year - 1) / 400
  }

  lemma DividedBy4(n: int, q: int, r: int)
    requires 0 <= r < 4 && n == 4 * q + r
    ensures n / 4 == q && n % 4 == r
  {
  }

  lemma DividedBy100(n: int, q: int, r: int)
    requires 0 <= r < 100 && n == 100 * q + r
    ensures n / 100 == q && n % 100 == r
  {
  }

  lemma DividedBy400(n: int, q: int, r: int)
    requires 0 <= r < 400 && n == 400 * q + r
    ensures n / 400 == q && n % 400 == r
  {
  }

  lemma Fours(year: int)
    ensures year / 4 - (year - 1) / 4 == if year % 4 == 0 then 1 else 0
  {
    var q, r := year / 4, year % 4;
    if r == 0 {
      DividedBy4(year - 1, q - 1, 3);
    } else {
      DividedBy4(year - 1, q, r - 1);
    }
  }

  lemma Hundreds(year: int)
    ensures year / 100 - (year - 1) / 100 == if year % 100 == 0 then 1 else 0
    ensures year % 100 == 0 ==> year % 4 == 0
  {
    var q, r := year / 100, year % 100;
    if r == 0 {
      DividedBy100(year - 1, q - 1, 99);
      DividedBy4(year, 25 * q, 0);
    } else {
      DividedBy100(year - 1, q, r - 1);
    }
  }

  lemma FourHundreds(year: int)
    ensures year / 400 - (year - 1) / 400 == if year % 400 == 0 then 1 else 0
    ensures year % 400 == 0 ==> year % 100 == 0
  {
    var q, r := year / 400, year % 400;
    if r == 0 {
      DividedBy400(year - 1, q - 1, 399);
      DividedBy100(year, 4 * q, 0);
    } else {
      DividedBy400(year - 1, q, r - 1);
    }
  }

  lemma YearStep(year: int)
    ensures DaysBeforeYear(year + 1) - DaysBeforeYear(year) ==
            365 + (year / 4 - (year - 1) / 4) - (year / 100 - (year - 1) / 100) + (year / 400 - (year - 1) / 400)
  {
  }

  lemma YearLength(year: int)
    ensures DaysBeforeYear(year + 1) - DaysBeforeYear(year) == if Leap(year) then 366 else 365
  {
    hide DaysBeforeYear;
    YearStep(year);
    Fours(year);
    Hundreds(year);
    FourHundreds(year);
  }

  /** The year a day lies in, searched from a year that does not begin after it. */
  function YearFrom(day: int, year: int): (found: int)
    requires DaysBeforeYear(year) <= day
    ensures DaysBeforeYear(found) <= day < DaysBeforeYear(found + 1)
    decreases day - DaysBeforeYear(year)
  {
    YearLength(year);
    if day < DaysBeforeYear(year + 1) then year else YearFrom(day, year + 1)
  }

  // Days in 400 years.
  const CYCLE: int := 146_097

  function YearOf(day: int): (year: int)
    ensures DaysBeforeYear(year) <= day < DaysBeforeYear(year + 1)
  {
    CycleStart(day / CYCLE);
    YearFrom(day, 400 * (day / CYCLE) + 1)
  }

  lemma CycleStart(cycle: int)
    ensures DaysBeforeYear(400 * cycle + 1) == cycle * CYCLE
  {
    DividedBy4(400 * cycle, 100 * cycle, 0);
    DividedBy100(400 * cycle, 4 * cycle, 0);
    DividedBy400(400 * cycle, cycle, 0);
  }

  lemma {:induction false} YearsGrow(a: int, b: int)
    requires a <= b
    ensures DaysBeforeYear(a) <= DaysBeforeYear(b)
    decreases b - a
  {
    if a < b {
      YearsGrow(a, b - 1);
      YearLength(b - 1);
    }
  }

  lemma OneYear(day: int, a: int, b: int)
    requires DaysBeforeYear(a) <= day < DaysBeforeYear(a + 1)
    requires DaysBeforeYear(b) <= day < DaysBeforeYear(b + 1)
    ensures a == b
  {
    hide DaysBeforeYear;
    if a < b { YearsGrow(a + 1, b); }
    if b < a { YearsGrow(b + 1, a); }
  }

  // ----- Months -----

  function MonthLength(month: int, leap: bool): (days: int)
    ensures 28 <= days <= 31
  {
    if month == 2 then (if leap then 29 else 28)
    else if month == 4 || month == 6 || month == 9 || month == 11 then 30
    else 31
  }

  function DaysBeforeMonth(month: int, leap: bool): int
    requires 1 <= month <= 13
    decreases month
  {
    if month == 1 then 0 else DaysBeforeMonth(month - 1, leap) + MonthLength(month - 1, leap)
  }

  lemma YearOfMonths(leap: bool)
    ensures DaysBeforeMonth(13, leap) == if leap then 366 else 365
  {
    assert DaysBeforeMonth(5, leap) == if leap then 121 else 120;
    assert DaysBeforeMonth(9, leap) == DaysBeforeMonth(5, leap) + 123;
    assert DaysBeforeMonth(13, leap) == DaysBeforeMonth(9, leap) + 122;
  }

  function MonthFrom(day: int, leap: bool, month: int): (found: int)
    requires 1 <= month <= 12 && DaysBeforeMonth(month, leap) <= day < DaysBeforeMonth(13, leap)
    ensures month <= found <= 12 && DaysBeforeMonth(found, leap) <= day < DaysBeforeMonth(found + 1, leap)
    decreases 12 - month
  {
    if day < DaysBeforeMonth(month + 1, leap) then month else MonthFrom(day, leap, month + 1)
  }

  lemma {:induction false} MonthsGrow(a: int, b: int, leap: bool)
    requires 1 <= a <= b <= 13
    ensures DaysBeforeMonth(a, leap) <= DaysBeforeMonth(b, leap)
    decreases b - a
  {
    if a < b { MonthsGrow(a, b - 1, leap); }
  }

  lemma OneMonth(day: int, leap: bool, a: int, b: int)
    requires 1 <= a <= 12 && DaysBeforeMonth(a, leap) <= day < DaysBeforeMonth(a + 1, leap)
    requires 1 <= b <= 12 && DaysBeforeMonth(b, leap) <= day < DaysBeforeMonth(b + 1, leap)
    ensures a == b
  {
    hide DaysBeforeMonth;
    if a < b { MonthsGrow(a + 1, b, leap); }
    if b < a { MonthsGrow(b + 1, a, leap); }
  }

  // ----- Instants -----

  datatype Date = Date(year: int, month: int, day: int)

  predicate ValidDate(d: Date) {
    1 <= d.month <= 12 && 1 <= d.day <= MonthLength(d.month, Leap(d.year))
  }

  function DayNumber(d: Date): int
    requires ValidDate(d)
  {
    DaysBeforeYear(d.year) + DaysBeforeMonth(d.month, Leap(d.year)) + d.day - 1
  }

  function DateOf(day: int): (d: Date)
    ensures ValidDate(d) && DayNumber(d) == day
  {
    var year := YearOf(day);
    var leap := Leap(year);
    var rest := day - DaysBeforeYear(year);
    YearLength(year);
    YearOfMonths(leap);
    var month := MonthFrom(rest, leap, 1);
    Date(year, month, rest - DaysBeforeMonth(month, leap) + 1)
  }

  lemma DateOfDayNumber(d: Date)
    requires ValidDate(d)
    ensures DateOf(DayNumber(d)) == d
  {
    hide DaysBeforeYear;
    var day, leap := DayNumber(d), Leap(d.year);
    MonthsGrow(1, d.month, leap);
    MonthsGrow(d.month + 1, 13, leap);
    YearOfMonths(leap);
    YearLength(d.year);
    OneYear(day, YearOf(day), d.year);
    OneMonth(day - DaysBeforeYear(d.year), leap, DateOf(day).month, d.month);
  }

  datatype Clock = Clock(hour: int, minute: int, second: int, nanos: int)

  predicate ValidClock(c: Clock) {
    0 <= c.hour < 24 && 0 <= c.minute < 60 && 0 <= c.second < 60 && 0 <= c.nanos < SECOND
  }

  function ClockInstant(c: Clock): Time {
    c.hour * HOUR + c.minute * MINUTE + c.second * SECOND + c.nanos
  }

  function ClockOf(rest: Time): (c: Clock)
    requires 0 <= rest < DAY
    ensures ValidClock(c) && ClockInstant(c) == rest
  {
    var hour := rest / HOUR;
    var inHour := rest - hour * HOUR;
    var minute := inHour / MINUTE;
    var inMinute := inHour - minute * MINUTE;
    var second := inMinute / SECOND;
    Clock(hour, minute, second, inMinute - second * SECOND)
  }

  lemma ClockOfInstant(c: Clock)
    requires ValidClock(c)
    ensures 0 <= ClockInstant(c) < DAY && ClockOf(ClockInstant(c)) == c
  {
  }

  function Instant(d: Date, c: Clock): Time
    requires ValidDate(d)
  {
    DayNumber(d) * DAY + ClockInstant(c)
  }

  /** Every instant has one valid date and time of day, and every valid date and time of day is one instant. */
  lemma InstantExact(t: Time, d: Date, c: Clock)
    requires ValidDate(d) && ValidClock(c)
    ensures Instant(d, c) == t <==> DateOf(t / DAY) == d && ClockOf(t % DAY) == c
  {
    hide DaysBeforeYear, DateOf, ClockInstant, ClockOf;
    DateOfDayNumber(d);
    ClockOfInstant(c);
    if Instant(d, c) == t {
      Quotient(DayNumber(d), ClockInstant(c), t);
    }
  }

  lemma Quotient(days: int, rest: Time, t: Time)
    requires 0 <= rest < DAY && days * DAY + rest == t
    ensures t / DAY == days && t % DAY == rest
  {
  }
}
