/**
 * ECMAScript time values: day numbers, years, months and clock fields in the
 * proleptic Gregorian calendar, after section 21.4.1 of ECMA-262. Milliseconds
 * are integers; `/` and `%` by a positive divisor are the floor and the modulo.
 */
module Calendar {

  const MS_PER_SECOND := 1000
  const MS_PER_DAY := 86_400_000

  /** TimeClip's bound. */
  const MAX_TIME := 8_640_000_000_000_000

  predicate IsLeap(year: int) {
    year % 4 == 0 && (year % 100 != 0 || year % 400 == 0)
  }

  function DaysInYear(year: int): int {
    if IsLeap(year) then 366 else 365
  }

  function DayFromYear(year: int): int {
    365 * (year - 1970) + (year - 1969) / 4 - (year - 1901) / 100 + (year - 1601) / 400
  }

  lemma YearsAreContiguous(year: int)
    ensures DayFromYear(year + 1) == DayFromYear(year) + DaysInYear(year)
  {
    QuotientStep(year - 1969, 4);
    QuotientStep(year - 1901, 100);
    QuotientStep(year - 1601, 400);
    LeapCycles(year);
  }

  /** The three cycles of the leap rule, counted from the years that DayFromYear counts from. */
  lemma LeapCycles(year: int)
    ensures (year - 1968) % 4 == 0 <==> year % 4 == 0
    ensures (year - 1900) % 100 == 0 <==> year % 100 == 0
    ensures (year - 1600) % 400 == 0 <==> year % 400 == 0
    ensures year % 400 == 0 ==> year % 100 == 0
    ensures year % 100 == 0 ==> year % 4 == 0
  {
    QuotientIs(year - 1968, 4, year / 4 - 492, year % 4);
    QuotientIs(year - 1900, 100, year / 100 - 19, year % 100);
    QuotientIs(year - 1600, 400, year / 400 - 4, year % 400);
    if year % 400 == 0 {
      QuotientIs(year, 100, year / 400 * 4, 0);
    }
    if year % 100 == 0 {
      QuotientIs(year, 4, year / 100 * 25, 0);
    }
  }

  lemma QuotientStep(n: int, d: int)
    requires d > 1
    ensures (n + 1) / d == n / d + (if (n + 1) % d == 0 then 1 else 0)
  {
    var q, r := n / d, n % d;
    assert n + 1 == q * d + (r + 1);
    if r + 1 == d {
      assert n + 1 == (q + 1) * d;
      QuotientIs(n + 1, d, q + 1, 0);
    } else {
      QuotientIs(n + 1, d, q, r + 1);
    }
  }

  lemma QuotientIs(n: int, d: int, q: int, r: int)
    requires d > 0 && n == q * d + r && 0 <= r < d
    ensures n / d == q && n % d == r
  {
    var k := q - n / d;
    assert k * d == n % d - r by {
      assert n == n / d * d + n % d;
      assert k * d == q * d - n / d * d;
    }
    if k > 0 {
      ProductIsAtLeast(k, d);
    } else if k < 0 {
      ProductIsAtLeast(-k, d);
    }
  }

  lemma ProductIsAtLeast(k: int, d: int)
    requires k > 0 && d > 0
    ensures k * d >= d
  {
    assert (k - 1) * d >= 0;
  }

  lemma {:induction false} YearsIncrease(a: int, b: int)
    requires a <= b
    ensures DayFromYear(b) >= DayFromYear(a) + 365 * (b - a)
    decreases b - a
  {
    if a < b {
      YearsIncrease(a, b - 1);
      YearsAreContiguous(b - 1);
    }
  }

  /** The largest year that does not begin after the day. */
  function YearFromDay(day: int): (year: int)
    ensures DayFromYear(year) <= day < DayFromYear(year + 1)
  {
    if day >= 0 then YearUpFrom(day, 1970) else YearDownFrom(day, 1969)
  }

  function YearUpFrom(day: int, year: int): (found: int)
    requires DayFromYear(year) <= day
    ensures DayFromYear(found) <= day < DayFromYear(found + 1)
    decreases day - DayFromYear(year)
  {
    YearsAreContiguous(year);
    if day < DayFromYear(year + 1) then year else YearUpFrom(day, year + 1)
  }

  function YearDownFrom(day: int, year: int): (found: int)
    requires day < DayFromYear(year + 1)
    ensures DayFromYear(found) <= day < DayFromYear(found + 1)
    decreases DayFromYear(year + 1) - day
  {
    YearsAreContiguous(year);
    if DayFromYear(year) <= day then year else YearDownFrom(day, year - 1)
  }

  lemma YearOfDay(day: int, year: int)
    requires DayFromYear(year) <= day < DayFromYear(year + 1)
    ensures YearFromDay(day) == year
  {
    var found := YearFromDay(day);
    if found < year {
      YearsIncrease(found + 1, year);
    } else if found > year {
      YearsIncrease(year + 1, found);
    }
  }

  // ----- Months -----

  /** Days of the year before month `month`, counted from 0; 12 stands for the end of the year. */
  function DaysBefore(month: int, leap: bool): int
    requires 0 <= month <= 12
  {
    [0, 31, 59, 90, 120, 151, 181, 212, 243, 273, 304, 334, 365][month] + if leap && month >= 2 then 1 else 0
  }

  function DaysInMonth(year: int, month: int): int
    requires 0 <= month < 12
  {
    DaysBefore(month + 1, IsLeap(year)) - DaysBefore(month, IsLeap(year))
  }

  function MonthOf(dayInYear: int, leap: bool): (month: int)
    requires 0 <= dayInYear < if leap then 366 else 365
    ensures 0 <= month < 12
    ensures DaysBefore(month, leap) <= dayInYear < DaysBefore(month + 1, leap)
  {
    MonthUpFrom(dayInYear, leap, 0)
  }

  function MonthUpFrom(dayInYear: int, leap: bool, month: int): (found: int)
    requires 0 <= month < 12
    requires DaysBefore(month, leap) <= dayInYear < if leap then 366 else 365
    ensures 0 <= found < 12
    ensures DaysBefore(found, leap) <= dayInYear < DaysBefore(found + 1, leap)
    decreases 12 - month
  {
    if dayInYear < DaysBefore(month + 1, leap) then month else MonthUpFrom(dayInYear, leap, month + 1)
  }

  lemma {:induction false} MonthsIncrease(a: int, b: int, leap: bool)
    requires 0 <= a <= b <= 12
    ensures DaysBefore(a, leap) + 28 * (b - a) <= DaysBefore(b, leap)
    decreases b - a
  {
    if a < b {
      MonthsIncrease(a, b - 1, leap);
    }
  }

  lemma MonthOfDay(dayInYear: int, leap: bool, month: int)
    requires 0 <= month < 12
    requires DaysBefore(month, leap) <= dayInYear < DaysBefore(month + 1, leap)
    ensures 0 <= dayInYear < if leap then 366 else 365
    ensures MonthOf(dayInYear, leap) == month
  {
    MonthsIncrease(0, month, leap);
    MonthsIncrease(month + 1, 12, leap);
    var found := MonthOf(dayInYear, leap);
    if found < month {
      MonthsIncrease(found + 1, month, leap);
    } else if found > month {
      MonthsIncrease(month + 1, found, leap);
    }
  }

  // ----- Fields of a time value -----

  /** `month` counts from 0, as in ECMAScript. */
  datatype Fields = Fields(year: int, month: int, day: int, hour: int, minute: int, second: int)

  /** A day that exists, at a time that exists. */
  predicate Real(f: Fields) {
    && 0 <= f.month < 12
    && 1 <= f.day <= DaysInMonth(f.year, f.month)
    && 0 <= f.hour < 24 && 0 <= f.minute < 60 && 0 <= f.second < 60
  }

  function Day(time: int): int {
    time / MS_PER_DAY
  }

  function DayInYear(day: int): (within: int)
    ensures 0 <= within < if IsLeap(YearFromDay(day)) then 366 else 365
  {
    YearsAreContiguous(YearFromDay(day));
    day - DayFromYear(YearFromDay(day))
  }

  datatype Date = Date(year: int, month: int, day: int)

  function DateOf(day: int): Date {
    var year := YearFromDay(day);
    var month := MonthOf(DayInYear(day), IsLeap(year));
    Date(year, month, DayInYear(day) - DaysBefore(month, IsLeap(year)) + 1)
  }

  /** What the getUTC accessors read. */
  function FieldsOf(time: int): Fields {
    var date := DateOf(Day(time));
    Fields(date.year, date.month, date.day, time / 3_600_000 % 24, time / 60_000 % 60, time / 1000 % 60)
  }

  /** MakeDay: months outside 0..11 carry into the year, days are not checked. */
  function MakeDay(year: int, month: int, day: int): int {
    var y, m := year + month / 12, month % 12;
    DayFromYear(y) + DaysBefore(m, IsLeap(y)) + day - 1
  }

  function MakeTime(hour: int, minute: int, second: int): int {
    hour * 3_600_000 + minute * 60_000 + second * 1000
  }

  function TimeOf(f: Fields): int {
    MakeDay(f.year, f.month, f.day) * MS_PER_DAY + MakeTime(f.hour, f.minute, f.second)
  }

  lemma DateIsReal(day: int)
    ensures 0 <= DateOf(day).month < 12
    ensures 1 <= DateOf(day).day <= DaysInMonth(DateOf(day).year, DateOf(day).month)
  {
  }

  lemma FieldsAreReal(time: int)
    ensures Real(FieldsOf(time))
  {
    DateIsReal(Day(time));
  }

  lemma ClockFields(day: int, hour: int, minute: int, second: int)
    requires 0 <= hour < 24 && 0 <= minute < 60 && 0 <= second < 60
    ensures var time := day * MS_PER_DAY + MakeTime(hour, minute, second);
            && time / MS_PER_DAY == day
            && time / 3_600_000 % 24 == hour
            && time / 60_000 % 60 == minute
            && time / 1000 % 60 == second
  {
    var time := day * MS_PER_DAY + MakeTime(hour, minute, second);
    QuotientIs(time, MS_PER_DAY, day, MakeTime(hour, minute, second));
    QuotientIs(time, 3_600_000, day * 24 + hour, minute * 60_000 + second * 1000);
    QuotientIs(day * 24 + hour, 24, day, hour);
    QuotientIs(time, 60_000, (day * 24 + hour) * 60 + minute, second * 1000);
    QuotientIs((day * 24 + hour) * 60 + minute, 60, day * 24 + hour, minute);
    QuotientIs(time, 1000, ((day * 24 + hour) * 60 + minute) * 60 + second, 0);
    QuotientIs(((day * 24 + hour) * 60 + minute) * 60 + second, 60, (day * 24 + hour) * 60 + minute, second);
  }

  lemma MakeDayInYear(f: Fields)
    requires Real(f)
    ensures MakeDay(f.year, f.month, f.day) == DayFromYear(f.year) + DaysBefore(f.month, IsLeap(f.year)) + f.day - 1
    ensures DayFromYear(f.year) <= MakeDay(f.year, f.month, f.day) < DayFromYear(f.year + 1)
  {
    QuotientIs(f.month, 12, 0, f.month);
    MonthsIncrease(0, f.month, IsLeap(f.year));
    MonthsIncrease(f.month + 1, 12, IsLeap(f.year));
    YearsAreContiguous(f.year);
  }

  lemma DateOfIs(day: int, year: int, month: int, within: int)
    requires DayFromYear(year) <= day < DayFromYear(year + 1) && within == day - DayFromYear(year)
    requires 0 <= month < 12 && DaysBefore(month, IsLeap(year)) <= within < DaysBefore(month + 1, IsLeap(year))
    ensures DateOf(day) == Date(year, month, within - DaysBefore(month, IsLeap(year)) + 1)
  {
    YearOfDay(day, year);
    MonthOfDay(within, IsLeap(year), month);
  }

  lemma DateOfMakeDay(f: Fields)
    requires Real(f)
    ensures DateOf(MakeDay(f.year, f.month, f.day)) == Date(f.year, f.month, f.day)
  {
    MakeDayInYear(f);
    DateOfIs(MakeDay(f.year, f.month, f.day), f.year, f.month, DaysBefore(f.month, IsLeap(f.year)) + f.day - 1);
  }

  /** Reading the fields of a real date back gives the date. */
  lemma FieldsOfTimeOf(f: Fields)
    requires Real(f)
    ensures FieldsOf(TimeOf(f)) == f
  {
    DateOfMakeDay(f);
    ClockFields(MakeDay(f.year, f.month, f.day), f.hour, f.minute, f.second);
  }

  lemma MakeDayOfDateOf(day: int)
    ensures MakeDay(DateOf(day).year, DateOf(day).month, DateOf(day).day) == day
  {
    var month := DateOf(day).month;
    QuotientIs(month, 12, 0, month);
  }

  /** Every whole second is the time of its fields. */
  lemma TimeOfFieldsOf(time: int)
    requires time % MS_PER_SECOND == 0
    ensures TimeOf(FieldsOf(time)) == time
  {
    MakeDayOfDateOf(Day(time));
    SplitClock(time);
  }

  lemma SplitClock(time: int)
    requires time % MS_PER_SECOND == 0
    ensures time == time / MS_PER_DAY * MS_PER_DAY
                    + MakeTime(time / 3_600_000 % 24, time / 60_000 % 60, time / 1000 % 60)
  {
    var s := time / 1000;
    var m, h := s / 60, s / 60 / 60;
    var d := h / 24;
    QuotientIs(time, 60_000, m, s % 60 * 1000);
    QuotientIs(time, 3_600_000, h, m % 60 * 60_000 + s % 60 * 1000);
    QuotientIs(time, MS_PER_DAY, d, h % 24 * 3_600_000 + m % 60 * 60_000 + s % 60 * 1000);
  }

  // ----- Order -----

  predicate ClockEarlier(f: Fields, g: Fields) {
    || f.hour < g.hour
    || (f.hour == g.hour && (f.minute < g.minute || (f.minute == g.minute && f.second < g.second)))
  }

  predicate DateEarlier(f: Fields, g: Fields) {
    || f.year < g.year
    || (f.year == g.year && (f.month < g.month || (f.month == g.month && f.day < g.day)))
  }

  predicate SameDate(f: Fields, g: Fields) {
    f.year == g.year && f.month == g.month && f.day == g.day
  }

  predicate Earlier(f: Fields, g: Fields) {
    DateEarlier(f, g) || (SameDate(f, g) && ClockEarlier(f, g))
  }

  lemma EarlierDateIsEarlierDay(f: Fields, g: Fields)
    requires Real(f) && Real(g) && DateEarlier(f, g)
    ensures MakeDay(f.year, f.month, f.day) < MakeDay(g.year, g.month, g.day)
  {
    MakeDayInYear(f);
    MakeDayInYear(g);
    if f.year < g.year {
      YearsIncrease(f.year + 1, g.year);
    } else {
      EarlierInSameYear(f, g);
    }
  }

  lemma EarlierInSameYear(f: Fields, g: Fields)
    requires Real(f) && Real(g) && DateEarlier(f, g) && f.year == g.year
    ensures DaysBefore(f.month, IsLeap(f.year)) + f.day < DaysBefore(g.month, IsLeap(f.year)) + g.day
  {
    if f.month < g.month {
      MonthsIncrease(f.month + 1, g.month, IsLeap(f.year));
    }
  }

  lemma SameDateSameDay(f: Fields, g: Fields)
    requires SameDate(f, g)
    ensures MakeDay(f.year, f.month, f.day) == MakeDay(g.year, g.month, g.day)
  {
  }

  lemma EarlierTimeHasEarlierFields(f: Fields, g: Fields)
    requires Real(f) && Real(g) && TimeOf(f) < TimeOf(g)
    ensures Earlier(f, g)
  {
    if DateEarlier(g, f) {
      EarlierDateIsEarlierDay(g, f);
    } else if SameDate(f, g) {
      SameDateSameDay(f, g);
    }
  }

  /** The order of field tuples is the order of time values. */
  lemma LaterSecondsHaveLaterFields(t: int, u: int)
    requires t % MS_PER_SECOND == 0 && u % MS_PER_SECOND == 0 && t < u
    ensures Earlier(FieldsOf(t), FieldsOf(u))
  {
    TimeOfFieldsOf(t);
    TimeOfFieldsOf(u);
    FieldsAreReal(t);
    FieldsAreReal(u);
    EarlierTimeHasEarlierFields(FieldsOf(t), FieldsOf(u));
  }
}
