/** The two timestamp parsers: calendar components, and Unix epochs carried as source ids. */
module Instants {
  import opened Wrappers
  import opened Calendar

  // ----- Decimal text -----

  function Digit(d: nat): char
    requires d < 10
  {
    "0123456789"[d]
  }

  predicate IsDigit(c: char) {
    '0' <= c <= '9'
  }

  function DigitValue(c: char): (d: nat)
    requires IsDigit(c)
    ensures d < 10
  {
    c as int - '0' as int
  }

  predicate AllDigits(s: string) {
    forall i | 0 <= i < |s| :: IsDigit(s[i])
  }

  function Decimal(n: nat): (s: string)
    ensures AllDigits(s) && |s| > 0
  {
    if n < 10 then [Digit(n)] else Decimal(n / 10) + [Digit(n % 10)]
  }

  /** What Number makes of a string of digits. */
  function Value(s: string): nat
    requires AllDigits(s)
  {
    if s == [] then 0 else 10 * Value(s[..|s| - 1]) + DigitValue(s[|s| - 1])
  }

  lemma {:induction false} ValueOfDecimal(n: nat)
    ensures Value(Decimal(n)) == n
  {
    if n < 10 {
      assert Decimal(n)[..0] == [];
    } else {
      ValueOfDecimal(n / 10);
      assert Decimal(n)[..|Decimal(n)| - 1] == Decimal(n / 10);
    }
  }

  function Zeros(n: nat): (s: string)
    ensures |s| == n && forall i | 0 <= i < n :: s[i] == '0'
  {
    if n == 0 then [] else ['0'] + Zeros(n - 1)
  }

  function PadStart(s: string, width: nat): string {
    Zeros(if |s| < width then width - |s| else 0) + s
  }

  lemma {:induction false} ValueIgnoresZeros(n: nat, s: string)
    requires AllDigits(s)
    ensures AllDigits(Zeros(n) + s) && Value(Zeros(n) + s) == Value(s)
    decreases n + |s|
  {
    var all := Zeros(n) + s;
    if s != [] {
      ValueIgnoresZeros(n, s[..|s| - 1]);
      assert all[..|all| - 1] == Zeros(n) + s[..|s| - 1];
    } else if n > 0 {
      assert all[..n - 1] == Zeros(n - 1) + [] by {
        assert Zeros(n)[..n - 1] == Zeros(n - 1);
      }
      ValueIgnoresZeros(n - 1, []);
    }
  }

  function Text(n: int): string {
    if n < 0 then "-" + Decimal(-n) else Decimal(n)
  }

  function PadTwo(n: int): string {
    PadStart(Text(n), 2)
  }

  function PadFour(n: int): string {
    PadStart(Text(n), 4)
  }

  function PowerOfTen(width: nat): nat {
    if width == 0 then 1 else 10 * PowerOfTen(width - 1)
  }

  /** The last `width` decimal digits. */
  function FixedDigits(n: nat, width: nat): (s: string)
    ensures |s| == width && AllDigits(s)
  {
    if width == 0 then [] else FixedDigits(n / 10, width - 1) + [Digit(n % 10)]
  }

  lemma {:induction false} PaddedIsFixed(n: nat, width: nat)
    requires width > 0 && n < PowerOfTen(width)
    ensures PadStart(Decimal(n), width) == FixedDigits(n, width)
  {
    if n < 10 {
      PaddedDigit(n, width);
    } else {
      PaddedIsFixed(n / 10, width - 1);
      assert Decimal(n) == Decimal(n / 10) + [Digit(n % 10)];
      PadStartAppends(Decimal(n / 10), Digit(n % 10), width - 1);
    }
  }

  lemma PaddedDigit(n: nat, width: nat)
    requires n < 10 && width > 0
    ensures PadStart(Decimal(n), width) == FixedDigits(n, width)
  {
    ZerosAreFixed(width - 1);
    assert FixedDigits(n, width) == FixedDigits(0, width - 1) + [Digit(n)];
  }

  lemma PadStartAppends(s: string, digit: char, width: nat)
    ensures PadStart(s + [digit], width + 1) == PadStart(s, width) + [digit]
  {
  }

  lemma {:induction false} ZerosAreFixed(width: nat)
    ensures Zeros(width) == FixedDigits(0, width)
  {
    if width > 0 {
      ZerosAreFixed(width - 1);
      assert Zeros(width) == Zeros(width - 1) + ['0'];
    }
  }

  lemma {:induction false} ValueOfFixed(n: nat, width: nat)
    requires n < PowerOfTen(width)
    ensures Value(FixedDigits(n, width)) == n
  {
    if width > 0 {
      ValueOfFixed(n / 10, width - 1);
      var s := FixedDigits(n, width);
      assert s[..|s| - 1] == FixedDigits(n / 10, width - 1);
    }
  }

  /** `YYYY-MM-DDTHH:MM:SS.000Z`, with a longer year when it has one. */
  function Render(f: Fields): string {
    PadFour(f.year) + ("-" + MonthText(f))
  }

  function MonthText(f: Fields): string {
    PadTwo(f.month + 1) + ("-" + DayText(f))
  }

  function DayText(f: Fields): string {
    PadTwo(f.day) + ("T" + HourText(f))
  }

  function HourText(f: Fields): string {
    PadTwo(f.hour) + (":" + MinuteText(f))
  }

  function MinuteText(f: Fields): string {
    PadTwo(f.minute) + (":" + SecondText(f))
  }

  function SecondText(f: Fields): string {
    PadTwo(f.second) + ".000Z"
  }

  // ----- Calendar components -----

  /** Date.UTC takes a two-digit year for one of the twentieth century. */
  function Remapped(f: Fields): Fields {
    if 0 <= f.year <= 99 then f.(year := 1900 + f.year) else f
  }

  /** TimeClip makes far-off times invalid. */
  function DateUtc(f: Fields): Option<int> {
    var time := TimeOf(Remapped(f));
    if -MAX_TIME <= time <= MAX_TIME then Some(time) else None
  }

  /** `month` counts from 1, and a missing second is 0. */
  datatype Components = Components(year: int, month: int, day: int, hour: int, minute: int, second: Option<int>) {
    function Fields(): Fields {
      Calendar.Fields(year, month - 1, day, hour, minute, if second.Some? then second.value else 0)
    }
  }

  function ComponentsToUtcIso(c: Components): Option<string> {
    var f := c.Fields();
    var time := DateUtc(f);
    if time.None? || FieldsOf(time.value) != f then None else Some(Render(f))
  }

  predicate Acceptable(f: Fields) {
    Real(f) && !(0 <= f.year <= 99) && -MAX_TIME <= TimeOf(f) <= MAX_TIME
  }

  lemma ReadBackIsAcceptable(f: Fields)
    requires Real(f) && DateUtc(f).Some? && FieldsOf(DateUtc(f).value).year == f.year
    ensures Acceptable(f)
  {
    if 0 <= f.year <= 99 {
      RemappedYearIsRejected(f);
    }
  }

  lemma AcceptedIsAcceptable(c: Components)
    requires ComponentsToUtcIso(c).Some?
    ensures Acceptable(c.Fields())
  {
    FieldsAreReal(DateUtc(c.Fields()).value);
    ReadBackIsAcceptable(c.Fields());
  }

  /**
   * For all integers: the components are accepted exactly when they are a real
   * date and time, outside the years 0 to 99 and within the range of time values.
   */
  lemma ComponentsAcceptedExactlyWhenReal(c: Components)
    ensures ComponentsToUtcIso(c).Some? <==> Acceptable(c.Fields())
  {
    if ComponentsToUtcIso(c).Some? {
      AcceptedIsAcceptable(c);
    }
    if Acceptable(c.Fields()) {
      FieldsOfTimeOf(c.Fields());
    }
  }

  lemma LaterYearReadsLater(day: int)
    requires DayFromYear(100) <= day
    ensures DateOf(day).year >= 100
  {
    var found := YearFromDay(day);
    if found < 100 {
      YearsIncrease(found + 1, 100);
    }
  }

  lemma TimeAfterYear(g: Fields)
    requires 0 <= g.month < 12 && 1 <= g.day && 0 <= g.hour < 24 && 0 <= g.minute < 60 && 0 <= g.second < 60
    ensures Day(TimeOf(g)) >= DayFromYear(g.year)
  {
    ClockFields(MakeDay(g.year, g.month, g.day), g.hour, g.minute, g.second);
    QuotientIs(g.month, 12, 0, g.month);
    MonthsIncrease(0, g.month, IsLeap(g.year));
  }

  lemma RemappedYearIsRejected(f: Fields)
    requires Real(f) && 0 <= f.year <= 99
    ensures FieldsOf(TimeOf(Remapped(f))).year >= 100
  {
    var g := Remapped(f);
    TimeAfterYear(g);
    YearsIncrease(100, g.year);
    LaterYearReadsLater(Day(TimeOf(g)));
  }

  /** Up to the year 275759 the range of time values excludes nothing. */
  lemma RealDatesAreInRange(f: Fields)
    requires Real(f) && 100 <= f.year <= 275_759
    ensures -MAX_TIME <= TimeOf(f) <= MAX_TIME
  {
    MakeDayInYear(f);
    YearsIncrease(100, f.year);
    YearsIncrease(f.year + 1, 275_760);
  }

  // ----- Reading a rendered instant back -----

  datatype Piece = Piece(value: nat, rest: string)

  /** Two digits and their separator. */
  function ReadTwo(s: string, separator: char): Option<Piece> {
    if |s| >= 3 && AllDigits(s[..2]) && s[2] == separator then Some(Piece(Value(s[..2]), s[3..])) else None
  }

  function ReadClock(date: Date, s: string): Option<Fields> {
    var hour := ReadTwo(s, ':');
    if hour.None? then None
    else
      var minute := ReadTwo(hour.value.rest, ':');
      if minute.None? then None
      else
        var second := ReadTwo(minute.value.rest, '.');
        if second.None? || second.value.rest != "000Z" then None
        else Some(Calendar.Fields(date.year, date.month, date.day, hour.value.value, minute.value.value,
                                  second.value.value))
  }

  function ReadDay(year: nat, month: int, s: string): Option<Fields> {
    var day := ReadTwo(s, 'T');
    if day.None? then None else ReadClock(Date(year, month, day.value.value), day.value.rest)
  }

  function ReadMonth(year: nat, s: string): Option<Fields> {
    var month := ReadTwo(s, '-');
    if month.None? then None else ReadDay(year, month.value.value - 1, month.value.rest)
  }

  /** The fields of an instant in ISO form; all but the year have fixed width. */
  function ReadIso(s: string): Option<Fields> {
    var n := |s| - 20;
    if n < 4 || !AllDigits(s[..n]) || s[n] != '-' then None else ReadMonth(Value(s[..n]), s[n + 1..])
  }

  lemma PadTwoReadsBack(n: nat)
    requires n < 100
    ensures |PadTwo(n)| == 2 && AllDigits(PadTwo(n)) && Value(PadTwo(n)) == n
  {
    assert PowerOfTen(2) == 100;
    PaddedIsFixed(n, 2);
    ValueOfFixed(n, 2);
  }

  lemma PadFourReadsBack(n: nat)
    ensures |PadFour(n)| >= 4 && AllDigits(PadFour(n)) && Value(PadFour(n)) == n
  {
    var s := Decimal(n);
    ValueOfDecimal(n);
    ValueIgnoresZeros(if |s| < 4 then 4 - |s| else 0, s);
  }

  lemma ReadTwoReadsBack(n: nat, separator: char, rest: string)
    requires n < 100
    ensures var s := PadTwo(n) + ([separator] + rest);
            |s| == 3 + |rest| && ReadTwo(s, separator) == Some(Piece(n, rest))
  {
    PadTwoReadsBack(n);
    var s := PadTwo(n) + ([separator] + rest);
    assert s[..2] == PadTwo(n) && s[3..] == rest;
  }

  lemma ClockReadsBack(f: Fields)
    requires Real(f)
    ensures |HourText(f)| == 13
    ensures ReadClock(Date(f.year, f.month, f.day), HourText(f)) == Some(f)
  {
    assert ".000Z" == ['.'] + "000Z";
    ReadTwoReadsBack(f.second, '.', "000Z");
    ReadTwoReadsBack(f.minute, ':', SecondText(f));
    ReadTwoReadsBack(f.hour, ':', MinuteText(f));
  }

  lemma DateFitsTwoDigits(f: Fields)
    requires Real(f)
    ensures 1 <= f.day < 100 && 1 <= f.month + 1 < 100
  {
    MonthsIncrease(f.month, f.month + 1, IsLeap(f.year));
  }

  lemma DayReadsBack(f: Fields)
    requires Real(f) && f.year >= 0
    ensures |DayText(f)| == 16
    ensures ReadDay(f.year, f.month, DayText(f)) == Some(f)
  {
    DateFitsTwoDigits(f);
    ClockReadsBack(f);
    ReadTwoReadsBack(f.day, 'T', HourText(f));
  }

  lemma MonthReadsBack(f: Fields)
    requires Real(f) && f.year >= 0
    ensures |MonthText(f)| == 19
    ensures ReadMonth(f.year, MonthText(f)) == Some(f)
  {
    DateFitsTwoDigits(f);
    DayReadsBack(f);
    ReadTwoReadsBack(f.month + 1, '-', DayText(f));
  }

  lemma SplitsAt(head: string, separator: char, tail: string)
    ensures var s := head + ([separator] + tail);
            |s| == |head| + 1 + |tail| && s[..|head|] == head && s[|head|] == separator && s[|head| + 1..] == tail
  {
  }

  lemma RenderedReadsBack(f: Fields)
    requires Real(f) && f.year >= 0
    ensures ReadIso(Render(f)) == Some(f)
  {
    PadFourReadsBack(f.year);
    MonthReadsBack(f);
    SplitsAt(PadFour(f.year), '-', MonthText(f));
  }

  /** An accepted string says exactly the components it was made from. */
  lemma ComponentsReadBack(c: Components)
    requires c.year >= 0 && ComponentsToUtcIso(c).Some?
    ensures ReadIso(ComponentsToUtcIso(c).value) == Some(c.Fields())
  {
    AcceptedIsAcceptable(c);
    RenderedReadsBack(c.Fields());
  }

  // ----- Unix epochs -----

  const EPOCH_LOWER_BOUND_SECONDS := 1_420_070_400
  const EPOCH_UPPER_BOUND_SECONDS := 2_051_222_400

  function EpochToUtcIso(externalId: string): Option<string> {
    if externalId == "" || !AllDigits(externalId) then None
    else
      var seconds := Value(externalId);
      if Decimal(seconds) != externalId then None
      else if seconds < EPOCH_LOWER_BOUND_SECONDS || seconds > EPOCH_UPPER_BOUND_SECONDS then None
      else Some(Render(FieldsOf(seconds * MS_PER_SECOND)))
  }

  predicate InWindow(seconds: nat) {
    EPOCH_LOWER_BOUND_SECONDS <= seconds <= EPOCH_UPPER_BOUND_SECONDS
  }

  /** Accepted exactly when it is the canonical decimal of a second in the window. */
  lemma EpochAcceptedExactlyWhenCanonical(externalId: string)
    ensures EpochToUtcIso(externalId).Some?
            <==> exists n: nat :: 1_420_070_400 <= n <= 2_051_222_400 && externalId == Decimal(n)
  {
    if EpochToUtcIso(externalId).Some? {
      assert InWindow(Value(externalId)) && externalId == Decimal(Value(externalId));
    }
    if n: nat :| 1_420_070_400 <= n <= 2_051_222_400 && externalId == Decimal(n) {
      ValueOfDecimal(n);
    }
  }

  lemma YearInWindow(f: Fields)
    requires Real(f)
    requires EPOCH_LOWER_BOUND_SECONDS * MS_PER_SECOND <= TimeOf(f) <= EPOCH_UPPER_BOUND_SECONDS * MS_PER_SECOND
    ensures 1970 <= f.year < 10_000
  {
    MakeDayInYear(f);
    if f.year < 1970 {
      YearsIncrease(f.year + 1, 1970);
    }
    if f.year >= 10_000 {
      YearsIncrease(10_000, f.year);
    }
  }

  lemma WindowFields(seconds: nat)
    requires InWindow(seconds)
    ensures seconds * MS_PER_SECOND % MS_PER_SECOND == 0
    ensures Real(FieldsOf(seconds * MS_PER_SECOND))
    ensures 1970 <= FieldsOf(seconds * MS_PER_SECOND).year < 10_000
  {
    QuotientIs(seconds * MS_PER_SECOND, MS_PER_SECOND, seconds, 0);
    FieldsAreReal(seconds * MS_PER_SECOND);
    TimeOfFieldsOf(seconds * MS_PER_SECOND);
    YearInWindow(FieldsOf(seconds * MS_PER_SECOND));
  }

  lemma EpochRenders(seconds: nat)
    requires InWindow(seconds)
    ensures EpochToUtcIso(Decimal(seconds)) == Some(Render(FieldsOf(seconds * MS_PER_SECOND)))
  {
    ValueOfDecimal(seconds);
  }

  /** Reading the rendered fields back gives the same second. */
  lemma EpochReadsBack(seconds: nat)
    requires InWindow(seconds)
    ensures var iso := EpochToUtcIso(Decimal(seconds));
            && iso.Some? && ReadIso(iso.value).Some?
            && TimeOf(ReadIso(iso.value).value) == seconds * MS_PER_SECOND
  {
    EpochRenders(seconds);
    WindowFields(seconds);
    RenderedReadsBack(FieldsOf(seconds * MS_PER_SECOND));
    TimeOfFieldsOf(seconds * MS_PER_SECOND);
  }

  // ----- Lexicographic order of rendered instants -----

  predicate LexLess(a: string, b: string) {
    && b != []
    && (a == [] || a[0] < b[0] || (a[0] == b[0] && LexLess(a[1..], b[1..])))
  }

  lemma {:induction false} LexAfterPrefix(p: string, a: string, b: string)
    ensures LexLess(p + a, p + b) <==> LexLess(a, b)
  {
    if p == [] {
      assert p + a == a && p + b == b;
    } else {
      LexAfterPrefix(p[1..], a, b);
      assert (p + a)[1..] == p[1..] + a && (p + b)[1..] == p[1..] + b;
    }
  }

  lemma {:induction false} LexInHead(x: string, y: string, a: string, b: string)
    requires |x| == |y| && LexLess(x, y)
    ensures LexLess(x + a, y + b)
  {
    if x[0] == y[0] {
      LexInHead(x[1..], y[1..], a, b);
    }
    assert (x + a)[1..] == x[1..] + a && (y + b)[1..] == y[1..] + b;
  }

  lemma {:induction false} FixedDigitsOrder(n: nat, m: nat, width: nat)
    requires n < m < PowerOfTen(width)
    ensures LexLess(FixedDigits(n, width), FixedDigits(m, width))
  {
    if n / 10 == m / 10 {
      LexAfterPrefix(FixedDigits(n / 10, width - 1), [Digit(n % 10)], [Digit(m % 10)]);
    } else {
      FixedDigitsOrder(n / 10, m / 10, width - 1);
      LexInHead(FixedDigits(n / 10, width - 1), FixedDigits(m / 10, width - 1), [Digit(n % 10)], [Digit(m % 10)]);
    }
  }

  /** A numeric field that comes out smaller decides, whatever follows; an equal one passes the question on. */
  lemma PaddedFieldOrder(n: nat, m: nat, width: nat, a: string, b: string)
    requires n < PowerOfTen(width) && m < PowerOfTen(width) && width > 0
    requires n < m || (n == m && LexLess(a, b))
    ensures LexLess(PadStart(Decimal(n), width) + a, PadStart(Decimal(m), width) + b)
  {
    PaddedIsFixed(n, width);
    PaddedIsFixed(m, width);
    if n < m {
      FixedDigitsOrder(n, m, width);
      LexInHead(FixedDigits(n, width), FixedDigits(m, width), a, b);
    } else {
      LexAfterPrefix(FixedDigits(n, width), a, b);
    }
  }

  lemma SecondTextOrder(f: Fields, g: Fields)
    requires Real(f) && Real(g) && f.second < g.second
    ensures LexLess(SecondText(f), SecondText(g))
  {
    assert PowerOfTen(2) == 100;
    PaddedFieldOrder(f.second, g.second, 2, ".000Z", ".000Z");
  }

  lemma MinuteTextOrder(f: Fields, g: Fields)
    requires Real(f) && Real(g) && (f.minute < g.minute || (f.minute == g.minute && f.second < g.second))
    ensures LexLess(MinuteText(f), MinuteText(g))
  {
    assert PowerOfTen(2) == 100;
    if f.minute == g.minute {
      SecondTextOrder(f, g);
      LexAfterPrefix(":", SecondText(f), SecondText(g));
    }
    PaddedFieldOrder(f.minute, g.minute, 2, ":" + SecondText(f), ":" + SecondText(g));
  }

  lemma HourTextOrder(f: Fields, g: Fields)
    requires Real(f) && Real(g) && ClockEarlier(f, g)
    ensures LexLess(HourText(f), HourText(g))
  {
    assert PowerOfTen(2) == 100;
    if f.hour == g.hour {
      MinuteTextOrder(f, g);
      LexAfterPrefix(":", MinuteText(f), MinuteText(g));
    }
    PaddedFieldOrder(f.hour, g.hour, 2, ":" + MinuteText(f), ":" + MinuteText(g));
  }

  lemma DayTextOrder(f: Fields, g: Fields)
    requires Real(f) && Real(g) && (f.day < g.day || (f.day == g.day && ClockEarlier(f, g)))
    ensures LexLess(DayText(f), DayText(g))
  {
    assert PowerOfTen(2) == 100;
    DateFitsTwoDigits(f);
    DateFitsTwoDigits(g);
    if f.day == g.day {
      HourTextOrder(f, g);
      LexAfterPrefix("T", HourText(f), HourText(g));
    }
    PaddedFieldOrder(f.day, g.day, 2, "T" + HourText(f), "T" + HourText(g));
  }

  lemma MonthTextOrder(f: Fields, g: Fields)
    requires Real(f) && Real(g)
    requires f.month < g.month || (f.month == g.month && (f.day < g.day || (f.day == g.day && ClockEarlier(f, g))))
    ensures LexLess(MonthText(f), MonthText(g))
  {
    assert PowerOfTen(2) == 100;
    if f.month == g.month {
      DayTextOrder(f, g);
      LexAfterPrefix("-", DayText(f), DayText(g));
    }
    PaddedFieldOrder(f.month + 1, g.month + 1, 2, "-" + DayText(f), "-" + DayText(g));
  }

  lemma RenderOrder(f: Fields, g: Fields)
    requires Real(f) && Real(g) && Earlier(f, g)
    requires 0 <= f.year < 10_000 && 0 <= g.year < 10_000
    ensures LexLess(Render(f), Render(g))
  {
    assert PowerOfTen(4) == 10_000;
    if f.year == g.year {
      MonthTextOrder(f, g);
      LexAfterPrefix("-", MonthText(f), MonthText(g));
    }
    PaddedFieldOrder(f.year, g.year, 4, "-" + MonthText(f), "-" + MonthText(g));
  }

  /** Later epochs render to lexicographically later strings. */
  lemma LaterEpochsRenderLater(earlier: nat, later: nat)
    requires InWindow(earlier) && InWindow(later) && earlier < later
    ensures EpochToUtcIso(Decimal(earlier)).Some? && EpochToUtcIso(Decimal(later)).Some?
    ensures LexLess(EpochToUtcIso(Decimal(earlier)).value, EpochToUtcIso(Decimal(later)).value)
  {
    EpochRenders(earlier);
    EpochRenders(later);
    WindowFields(earlier);
    WindowFields(later);
    LaterSecondsHaveLaterFields(earlier * MS_PER_SECOND, later * MS_PER_SECOND);
    RenderOrder(FieldsOf(earlier * MS_PER_SECOND), FieldsOf(later * MS_PER_SECOND));
  }
}
