/** What the staged timestamp is, told of the id, the filename and the listing. */
module TimestampFacts {
  import opened Wrappers
  import opened Calendar
  import opened Instants
  import opened Payloads

  /** The id is the canonical decimal of a second in the window. */
  ghost predicate IsEpoch(id: Option<string>, seconds: nat) {
    InWindow(seconds) && id == Some(Decimal(seconds))
  }

  /** The date and time that the six numerals at the start of the name say. */
  function StampOf(name: string): Fields
    requires HasTimestampPrefix(name)
  {
    Fields(Value(name[0..4]), Value(name[5..7]) - 1, Value(name[8..10]),
           Value(name[12..14]), Value(name[15..17]), Value(name[18..20]))
  }

  /** The name starts with an acceptable date and time. */
  ghost predicate IsStamped(name: string) {
    HasTimestampPrefix(name) && Acceptable(StampOf(name))
  }

  function ListedTime(c: Candidate): Option<string> {
    match c.metadata
    case Some(metadata) => metadata.discoveredAt
    case None => None
  }

  lemma StampReadsBack(name: string)
    ensures ReplayTimestampFromFilename(name).Some? <==> IsStamped(name)
    ensures IsStamped(name) ==> ReadIso(ReplayTimestampFromFilename(name).value) == Some(StampOf(name))
  {
    if HasTimestampPrefix(name) {
      var f := StampOf(name);
      var c := Components(f.year, f.month + 1, f.day, f.hour, f.minute, Some(f.second));
      assert c.Fields() == f;
      ComponentsAcceptedExactlyWhenReal(c);
      if ComponentsToUtcIso(c).Some? {
        ComponentsReadBack(c);
      }
    }
  }

  /**
   * An epoch id gives the timestamp; without one, an acceptable date and time at
   * the start of the filename gives it; and without that, the listing does.
   */
  lemma TimestampTells(c: Candidate)
    ensures forall seconds: nat | IsEpoch(c.externalId, seconds) ::
              && ReplayTimestamp(c).Some? && ReadIso(ReplayTimestamp(c).value).Some?
              && Real(ReadIso(ReplayTimestamp(c).value).value)
              && TimeOf(ReadIso(ReplayTimestamp(c).value).value) == seconds * 1000
    ensures (forall seconds: nat :: !IsEpoch(c.externalId, seconds)) ==>
              if IsStamped(c.filename) then
                ReplayTimestamp(c).Some? && ReadIso(ReplayTimestamp(c).value) == Some(StampOf(c.filename))
              else ReplayTimestamp(c) == ListedTime(c)
  {
    StampReadsBack(c.filename);
    forall seconds: nat | IsEpoch(c.externalId, seconds)
      ensures ReplayTimestamp(c).Some? && ReadIso(ReplayTimestamp(c).value).Some?
      ensures Real(ReadIso(ReplayTimestamp(c).value).value)
      ensures TimeOf(ReadIso(ReplayTimestamp(c).value).value) == seconds * 1000
    {
      WindowFields(seconds);
      EpochRenders(seconds);
      RenderedReadsBack(FieldsOf(seconds * 1000));
      EpochReadsBack(seconds);
    }
    if c.externalId.Some? && EpochToUtcIso(c.externalId.value).Some? {
      EpochAcceptedExactlyWhenCanonical(c.externalId.value);
      var seconds: nat :| 1_420_070_400 <= seconds <= 2_051_222_400 && c.externalId.value == Decimal(seconds);
      assert IsEpoch(c.externalId, seconds);
    }
  }

  // ----- The text -----

  /** `YYYY-MM-DDTHH:MM:SS.000Z`, position by position. */
  ghost predicate IsTextOf(s: string, f: Fields) {
    && |s| == 24
    && AllDigits(s[0..4]) && Value(s[0..4]) == f.year && s[4] == '-'
    && AllDigits(s[5..7]) && Value(s[5..7]) == f.month + 1 && s[7] == '-'
    && AllDigits(s[8..10]) && Value(s[8..10]) == f.day && s[10] == 'T'
    && AllDigits(s[11..13]) && Value(s[11..13]) == f.hour && s[13] == ':'
    && AllDigits(s[14..16]) && Value(s[14..16]) == f.minute && s[16] == ':'
    && AllDigits(s[17..19]) && Value(s[17..19]) == f.second && s[19..] == ".000Z"
  }

  lemma PartsOf(head: string, part: string, separator: string, tail: string)
    ensures var s := head + (part + (separator + tail));
            && s[|head|..|head| + |part|] == part
            && s[|head| + |part|..|head| + |part| + |separator|] == separator
            && s[|head| + |part| + |separator|..] == tail
  {
  }

  lemma TailIsAt(s: string, from: nat, part: string, separator: string, tail: string)
    requires from <= |s| && s[from..] == part + (separator + tail)
    ensures |s| == from + |part| + |separator| + |tail|
    ensures s[from..from + |part|] == part
    ensures s[from + |part|..from + |part| + |separator|] == separator
    ensures s[from + |part| + |separator|..] == tail
  {
    PartsOf(s[..from], part, separator, tail);
    assert s == s[..from] + (part + (separator + tail));
  }

  /** Every rendered date and time of a four-digit year has that form. */
  lemma RenderedHasForm(f: Fields)
    requires Real(f) && 0 <= f.year < 10_000
    ensures IsTextOf(Render(f), f)
  {
    var s := Render(f);
    StampsAreNumerals(f);
    assert s[0..] == s;
    TailIsAt(s, 0, PadFour(f.year), "-", MonthText(f));
    TailIsAt(s, 5, PadTwo(f.month + 1), "-", DayText(f));
    TailIsAt(s, 8, PadTwo(f.day), "T", HourText(f));
    TailIsAt(s, 11, PadTwo(f.hour), ":", MinuteText(f));
    TailIsAt(s, 14, PadTwo(f.minute), ":", SecondText(f));
    assert s[17..] == PadTwo(f.second) + (".000Z" + "");
    TailIsAt(s, 17, PadTwo(f.second), ".000Z", "");
    assert s[19..24] == s[19..];
    assert s[4] == s[4..5][0] && s[7] == s[7..8][0] && s[10] == s[10..11][0];
    assert s[13] == s[13..14][0] && s[16] == s[16..17][0];
  }

  // ----- Names that are stamped -----

  /** `YYYY_MM_DD__HH_MM_SS__`, and what follows. */
  function NameOf(year: string, month: string, day: string, hour: string, minute: string, second: string,
                  rest: string): string
  {
    (year + "_" + month + "_" + day) + ("__" + (hour + "_" + minute + "_" + second) + "__" + rest)
  }

  function StampedName(f: Fields, rest: string): string {
    NameOf(PadFour(f.year), PadTwo(f.month + 1), PadTwo(f.day), PadTwo(f.hour), PadTwo(f.minute), PadTwo(f.second),
           rest)
  }

  lemma FourDigits(n: nat)
    requires n < 10_000
    ensures |PadFour(n)| == 4 && AllDigits(PadFour(n)) && Value(PadFour(n)) == n
  {
    assert PowerOfTen(4) == 10_000 by {
      assert PowerOfTen(2) == 100;
    }
    PaddedIsFixed(n, 4);
    PadFourReadsBack(n);
  }

  lemma StampSplits(year: string, month: string, day: string, hour: string, minute: string, second: string,
                    rest: string)
    requires |year| == 4 && |month| == |day| == |hour| == |minute| == |second| == 2
    ensures var name := NameOf(year, month, day, hour, minute, second, rest);
            && |name| == 22 + |rest|
            && name[0..4] == year && name[4..5] == "_" && name[5..7] == month && name[7..8] == "_"
            && name[8..10] == day && name[10..12] == "__" && name[12..14] == hour && name[14..15] == "_"
            && name[15..17] == minute && name[17..18] == "_" && name[18..20] == second && name[20..22] == "__"
  {
    var name := NameOf(year, month, day, hour, minute, second, rest);
    var date, time := year + "_" + month + "_" + day, hour + "_" + minute + "_" + second;
    assert name == date + ("__" + time + "__" + rest);
    assert name[..10] == date && name[10..] == "__" + time + "__" + rest;
    assert date[0..4] == year && date[4..5] == "_" && date[5..7] == month && date[7..8] == "_" && date[8..10] == day;
    assert name[10..][..2] == "__" && name[10..][2..10] == time && name[10..][10..12] == "__";
    assert time[0..2] == hour && time[2..3] == "_" && time[3..5] == minute && time[5..6] == "_" && time[6..8] == second;
    assert name[12..20] == time;
    assert name[0..4] == name[..10][0..4] && name[4..5] == name[..10][4..5] && name[5..7] == name[..10][5..7];
    assert name[7..8] == name[..10][7..8] && name[8..10] == name[..10][8..10];
    assert name[12..14] == name[12..20][0..2] && name[14..15] == name[12..20][2..3];
    assert name[15..17] == name[12..20][3..5] && name[17..18] == name[12..20][5..6];
    assert name[18..20] == name[12..20][6..8];
  }

  /** Six numerals of the right lengths. */
  ghost predicate AreNumerals(f: Fields, year: string, month: string, day: string, hour: string, minute: string,
                              second: string) {
    && |year| == 4 && |month| == |day| == |hour| == |minute| == |second| == 2
    && AllDigits(year) && AllDigits(month) && AllDigits(day) && AllDigits(hour) && AllDigits(minute)
    && AllDigits(second)
    && f == Fields(Value(year), Value(month) - 1, Value(day), Value(hour), Value(minute), Value(second))
  }

  lemma NumeralsAreRead(f: Fields, year: string, month: string, day: string, hour: string, minute: string,
                        second: string, rest: string)
    requires AreNumerals(f, year, month, day, hour, minute, second)
    ensures var name := NameOf(year, month, day, hour, minute, second, rest);
            HasTimestampPrefix(name) && StampOf(name) == f
  {
    var name := NameOf(year, month, day, hour, minute, second, rest);
    StampSplits(year, month, day, hour, minute, second, rest);
    assert name[4] == name[4..5][0] && name[7] == name[7..8][0];
    assert name[14] == name[14..15][0] && name[17] == name[17..18][0];
    assert HasDigits(name, 0, 4) && HasDigits(name, 5, 7) && HasDigits(name, 8, 10);
    assert HasDigits(name, 12, 14) && HasDigits(name, 15, 17) && HasDigits(name, 18, 20);
    assert HasTimestampPrefix(name);
    assert Value(name[0..4]) == Value(year) && Value(name[5..7]) == Value(month) && Value(name[8..10]) == Value(day);
    assert Value(name[12..14]) == Value(hour) && Value(name[15..17]) == Value(minute);
    assert Value(name[18..20]) == Value(second);
  }

  lemma StampsAreNumerals(f: Fields)
    requires Real(f) && 0 <= f.year < 10_000
    ensures AreNumerals(f, PadFour(f.year), PadTwo(f.month + 1), PadTwo(f.day), PadTwo(f.hour), PadTwo(f.minute),
                        PadTwo(f.second))
  {
    FourDigits(f.year);
    PadTwoReadsBack(f.month + 1);
    PadTwoReadsBack(f.day);
    PadTwoReadsBack(f.hour);
    PadTwoReadsBack(f.minute);
    PadTwoReadsBack(f.second);
  }

  /** A name stamped with a date and time of four-digit years is staged with that date and time. */
  lemma StampedNameIsStaged(c: Candidate, f: Fields, rest: string)
    requires Real(f) && 100 <= f.year < 10_000 && c.externalId.None? && c.filename == StampedName(f, rest)
    ensures ReplayTimestamp(c).Some? && ReadIso(ReplayTimestamp(c).value) == Some(f)
  {
    StampsAreNumerals(f);
    NumeralsAreRead(f, PadFour(f.year), PadTwo(f.month + 1), PadTwo(f.day), PadTwo(f.hour), PadTwo(f.minute),
                    PadTwo(f.second), rest);
    RealDatesAreInRange(f);
    TimestampTells(c);
  }
}
