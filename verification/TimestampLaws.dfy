/**
 What the timestamp reader computes: the floor, in milliseconds, of the instant a string denotes,
 for every RFC 3339 string and for every string the bridge prints.
 */
module TimestampLaws {
  import opened CivilDays
  import opened Decimals
  import opened Timestamp
  import opened Wrappers

  // ---- Truncation of the fraction ----

  /** `f` is `n / scale` rounded down. */
  predicate Truncates(f: nat, scale: nat, n: nat) {
    f * scale <= n < (f + 1) * scale
  }

  lemma {:induction false} LeadingDigits(digits: string)
    requires AllDigits(digits) && |digits| >= 3
    ensures Truncates(Decimal(digits[..3]), Pow10(|digits| - 3), Decimal(digits))
    decreases |digits|
  {
    if |digits| == 3 {
      assert digits[..3] == digits;
    } else {
      var shorter := digits[..|digits| - 1];
      LeadingDigits(shorter);
      assert shorter[..3] == digits[..3];
      ScaleUp(Decimal(digits[..3]), Pow10(|shorter| - 3), Decimal(shorter),
              DigitValue(digits[|digits| - 1]));
    }
  }

  lemma ScaleUp(f: nat, scale: nat, n: nat, digit: nat)
    requires Truncates(f, scale, n) && digit < 10
    ensures Truncates(f, 10 * scale, 10 * n + digit)
  {
    assert f * (10 * scale) == 10 * (f * scale);
    assert (f + 1) * (10 * scale) == 10 * ((f + 1) * scale);
  }

  lemma ScaleBy1000(f: nat, scale: nat, n: nat)
    requires Truncates(f, scale, n)
    ensures Truncates(f, 1000 * scale, 1000 * n)
  {
    assert f * (1000 * scale) == 1000 * (f * scale);
    assert (f + 1) * (1000 * scale) == 1000 * ((f + 1) * scale);
  }

  lemma PaddedToThree(digits: string)
    requires |digits| < 3
    ensures (digits + "000")[..3] == if |digits| == 2 then digits + "0"
                                     else if |digits| == 1 then digits + "0" + "0"
                                     else digits + "0" + "0" + "0"
  {
  }

  lemma DecimalWithZeros(digits: string)
    requires AllDigits(digits)
    ensures Decimal(digits + "0") == 10 * Decimal(digits)
    ensures Decimal(digits + "0" + "0") == 100 * Decimal(digits)
    ensures Decimal(digits + "0" + "0" + "0") == 1000 * Decimal(digits)
  {
    DecimalAppend(digits, '0');
    DecimalAppend(digits + "0", '0');
    DecimalAppend(digits + "0" + "0", '0');
  }

  lemma ShortFraction(digits: string)
    requires AllDigits(digits) && |digits| < 3
    ensures Truncates(FractionMs(Some(digits)), Pow10(|digits|), 1000 * Decimal(digits))
  {
    assert Pow10(0) == 1 && Pow10(1) == 10 && Pow10(2) == 100;
    PaddedToThree(digits);
    DecimalWithZeros(digits);
  }

  /** Whatever the number of digits, the reader rounds the fraction down to a whole millisecond. */
  lemma FractionIsTruncated(digits: string)
    requires AllDigits(digits)
    ensures Truncates(FractionMs(Some(digits)), Pow10(|digits|), 1000 * Decimal(digits))
  {
    if |digits| < 3 {
      ShortFraction(digits);
    } else {
      LeadingDigits(digits);
      ScaleBy1000(Decimal(digits[..3]), Pow10(|digits| - 3), Decimal(digits));
      PowerOfThree(|digits|);
      assert (digits + "000")[..3] == digits[..3];
    }
  }

  lemma PowerOfThree(n: nat)
    requires n >= 3
    ensures Pow10(n) == 1000 * Pow10(n - 3)
  {
    assert Pow10(n) == 10 * Pow10(n - 1) && Pow10(n - 1) == 10 * Pow10(n - 2);
  }

  lemma RatioBounds(f: nat, scale: nat, n: nat)
    requires scale > 0 && Truncates(f, scale, 1000 * n)
    ensures f as real <= 1000.0 * (n as real / scale as real) < f as real + 1.0
  {
    var q := n as real / scale as real;
    assert 1000.0 * n as real == 1000.0 * q * scale as real;
    CancelScale(f as real, 1000.0 * q, scale as real);
    CancelScale(f as real + 1.0, 1000.0 * q, scale as real);
  }

  lemma CancelScale(a: real, b: real, scale: real)
    requires scale > 0.0
    ensures a * scale <= b * scale <==> a <= b
  {
    assert b * scale - a * scale == (b - a) * scale;
  }

  // ---- Milliseconds are the floor of the instant ----

  lemma FloorOfSum(whole: int, part: nat, fraction: real)
    requires part as real <= 1000.0 * fraction < part as real + 1.0
    ensures (1000.0 * (whole as real + fraction)).Floor == whole * 1000 + part
  {
    assert 1000.0 * (whole as real + fraction) == (whole * 1000) as real + 1000.0 * fraction;
  }

  /** For every valid calendar date, whatever the other fields and however long the fraction. */
  lemma MillisecondsAreFloorOfInstant(s: Stamp)
    requires s.WellFormed() && s.dateTime.CivilDate().Valid()
    ensures s.Milliseconds() == (1000.0 * s.Instant()).Floor
  {
    DaysFromCivilIsDayCount(s.dateTime.CivilDate());
    if s.fraction.Some? {
      var digits := s.fraction.value;
      FractionIsTruncated(digits);
      RatioBounds(FractionMs(s.fraction), Pow10(|digits|), Decimal(digits));
    }
    FloorOfSum(DayCount(s.dateTime.CivilDate()) * 86400 + s.dateTime.Clock() - s.zone.Seconds(),
               FractionMs(s.fraction), FractionSeconds(s.fraction));
  }

  lemma ReadAsFloor(s: Stamp)
    requires s.WellFormed() && s.dateTime.CivilDate().Valid()
    ensures ParsedMs(s.Render()) == Some((1000.0 * s.Instant()).Floor)
  {
    ScanOfRender(s);
    MillisecondsAreFloorOfInstant(s);
  }

  /** Every RFC 3339 string is accepted and read as the floor of its instant in milliseconds. */
  lemma Rfc3339IsRead(s: Stamp)
    requires s.IsRfc3339()
    ensures ParsedMs(s.Render()) == Some((1000.0 * s.Instant()).Floor)
  {
    ReadAsFloor(s);
  }

  /** The text of a date and time: four and five times two digits with the separators between them. */
  function DateTimeText(t: DateTime): string {
    Digits(t.year, 4) + "-" + Digits(t.month, 2) + "-" + Digits(t.day, 2) + "T"
    + Digits(t.hour, 2) + ":" + Digits(t.minute, 2) + ":" + Digits(t.second, 2)
  }

  /** Milliseconds from the epoch to a local time on the day with this number, in a zone this many seconds ahead
      of UTC. */
  function MillisecondsOf(t: DateTime, days: int, ahead: int, fraction: nat): int {
    (days * 86_400 + t.hour * 3600 + t.minute * 60 + t.second - ahead) * 1000 + fraction
  }

  /** The text of a zone that is `ahead` minutes ahead of UTC, with or without its colon. */
  predicate IsZoneText(zone: string, hours: nat, minutes: nat, ahead: int) {
    var (h, m) := (Digits(hours, 2), Digits(minutes, 2));
    || (zone == "Z" && ahead == 0)
    || ((zone == "+" + h + ":" + m || zone == "+" + h + m) && ahead == hours * 60 + minutes)
    || ((zone == "-" + h + ":" + m || zone == "-" + h + m) && ahead == -(hours * 60 + minutes))
  }

  lemma ZoneOfText(zone: string, hours: nat, minutes: nat, ahead: int) returns (z: Zone)
    requires IsZoneText(zone, hours, minutes, ahead) && hours <= 99 && minutes <= 99
    ensures z.WellFormed() && z.Render() == zone && z.Seconds() == ahead * 60
  {
    var (h, m) := (Digits(hours, 2), Digits(minutes, 2));
    if zone == "Z" && ahead == 0 {
      z := Zulu;
    } else {
      var plus := (zone == "+" + h + ":" + m || zone == "+" + h + m) && ahead == hours * 60 + minutes;
      var sign := if plus then "+" else "-";
      assert sign + h + "" + m == sign + h + m;
      z := Offset(!plus, hours, zone == sign + h + ":" + m, minutes);
    }
  }

  /** On the text itself: a local time is read as the seconds from the epoch to it, less what it is ahead of
      UTC. */
  lemma WrittenTimeIsRead(text: string, t: DateTime, zone: string, hours: nat, minutes: nat, ahead: int)
    requires t.WellFormed() && t.CivilDate().Valid() && hours <= 99 && minutes <= 99
    requires IsZoneText(zone, hours, minutes, ahead) && text == DateTimeText(t) + zone
    ensures ParsedMs(text) == Some(MillisecondsOf(t, DayCount(t.CivilDate()), ahead * 60, 0))
  {
    var z := ZoneOfText(zone, hours, minutes, ahead);
    NoFraction(DateTimeText(t), zone);
    DatedStampIsRead(Stamp(t, None, z), text);
  }

  /** A fraction adds its milliseconds. */
  lemma WrittenFractionIsRead(text: string, t: DateTime, digits: string, zone: string, hours: nat, minutes: nat,
                              ahead: int)
    requires t.WellFormed() && t.CivilDate().Valid() && hours <= 99 && minutes <= 99 && AllDigits(digits)
    requires IsZoneText(zone, hours, minutes, ahead) && text == DateTimeText(t) + ("." + digits) + zone
    ensures ParsedMs(text)
         == Some(MillisecondsOf(t, DayCount(t.CivilDate()), ahead * 60, FractionMs(Some(digits))))
  {
    var z := ZoneOfText(zone, hours, minutes, ahead);
    FractionIsRead(text, t, digits, z);
  }

  lemma FractionIsRead(text: string, t: DateTime, digits: string, z: Zone)
    requires t.WellFormed() && t.CivilDate().Valid() && AllDigits(digits) && z.WellFormed()
    requires text == DateTimeText(t) + ("." + digits) + z.Render()
    ensures ParsedMs(text)
         == Some(MillisecondsOf(t, DayCount(t.CivilDate()), z.Seconds(), FractionMs(Some(digits))))
  {
    DatedStampIsRead(Stamp(t, Some(digits), z), text);
  }

  /** Digits in these places, whatever date and time they make, perhaps a point and any digits, and a zone. */
  predicate IsTimeText(text: string, t: DateTime, fraction: Option<string>, zone: string, hours: nat, minutes: nat,
                       ahead: int) {
    && t.year <= 9999 && t.month <= 99 && t.day <= 99 && t.hour <= 99 && t.minute <= 99 && t.second <= 99
    && hours <= 99 && minutes <= 99 && IsZoneText(zone, hours, minutes, ahead)
    && match fraction
       case None => text == DateTimeText(t) + zone
       case Some(digits) => AllDigits(digits) && text == DateTimeText(t) + ("." + digits) + zone
  }

  lemma TimeTextIsAccepted(text: string, t: DateTime, fraction: Option<string>, zone: string, hours: nat,
                           minutes: nat, ahead: int)
    requires IsTimeText(text, t, fraction, zone, hours, minutes, ahead)
    ensures ParsedMs(text).Some?
  {
    var z := ZoneOfText(zone, hours, minutes, ahead);
    NoFraction(DateTimeText(t), zone);
    ScanOfRender(Stamp(t, fraction, z));
  }

  lemma TextOfZone(z: Zone) returns (hours: nat, minutes: nat, ahead: int)
    requires z.WellFormed()
    ensures hours <= 99 && minutes <= 99 && IsZoneText(z.Render(), hours, minutes, ahead)
  {
    hours, minutes, ahead := 0, 0, z.Seconds() / 60;
    if z.Offset? {
      hours, minutes := z.hours, z.minutes;
      var sign := if z.negative then "-" else "+";
      assert sign + Digits(hours, 2) + "" + Digits(minutes, 2) == sign + Digits(hours, 2) + Digits(minutes, 2);
    }
  }

  lemma AcceptedIsTimeText(text: string)
    returns (t: DateTime, fraction: Option<string>, zone: string, hours: nat, minutes: nat, ahead: int)
    requires ParsedMs(text).Some?
    ensures IsTimeText(text, t, fraction, zone, hours, minutes, ahead)
  {
    ScanRenders(text);
    var s := Scan(text).value;
    t, fraction, zone := s.dateTime, s.fraction, s.zone.Render();
    hours, minutes, ahead := TextOfZone(s.zone);
    NoFraction(DateTimeText(t), zone);
  }

  /** Which strings are accepted: neither the ranges of the fields nor the presence of fraction digits is
      checked. */
  lemma AcceptedIff(text: string)
    ensures ParsedMs(text).Some? <==>
              exists t, fraction, zone, hours: nat, minutes: nat, ahead ::
                IsTimeText(text, t, fraction, zone, hours, minutes, ahead)
  {
    if ParsedMs(text).Some? {
      var t, fraction, zone, hours, minutes, ahead := AcceptedIsTimeText(text);
    }
    if t, fraction, zone, hours: nat, minutes: nat, ahead :|
      IsTimeText(text, t, fraction, zone, hours, minutes, ahead) {
      TimeTextIsAccepted(text, t, fraction, zone, hours, minutes, ahead);
    }
  }

  lemma NoFraction(front: string, zone: string)
    ensures front + "" + zone == front + zone
  {
  }

  lemma StampIsRead(s: Stamp, text: string)
    requires s.WellFormed() && s.Render() == text
    ensures ParsedMs(text) == Some(s.MillisecondsAt(s.dateTime.Days()))
  {
    ScanOfRender(s);
  }

  lemma OnDay(s: Stamp, text: string, days: int, count: int)
    requires s.WellFormed() && ParsedMs(text) == Some(s.MillisecondsAt(days)) && days == count
    ensures ParsedMs(text) == Some(MillisecondsOf(s.dateTime, count, s.zone.Seconds(), FractionMs(s.fraction)))
  {
  }

  lemma DatedStampIsRead(s: Stamp, text: string)
    requires s.WellFormed() && s.dateTime.CivilDate().Valid() && s.Render() == text
    ensures ParsedMs(text)
         == Some(MillisecondsOf(s.dateTime, DayCount(s.dateTime.CivilDate()), s.zone.Seconds(),
                                FractionMs(s.fraction)))
  {
    StampIsRead(s, text);
    DaysFromCivilIsDayCount(s.dateTime.CivilDate());
    OnDay(s, text, s.dateTime.Days(), DayCount(s.dateTime.CivilDate()));
  }

  /** Fields that name one instant are read as one value, whatever their offsets and fractions. */
  lemma SameInstantSameMilliseconds(a: Stamp, b: Stamp)
    requires a.WellFormed() && a.dateTime.CivilDate().Valid() && b.WellFormed() && b.dateTime.CivilDate().Valid()
    requires a.Instant() == b.Instant()
    ensures a.Milliseconds() == b.Milliseconds()
  {
    MillisecondsAreFloorOfInstant(a);
    MillisecondsAreFloorOfInstant(b);
  }

  lemma DayNumberBounds(dateTime: DateTime)
    requires dateTime.WellFormed()
    ensures -1_000_000 < dateTime.Days() < 4_000_000
  {
    WrapAroundIsHarmless(dateTime.year, dateTime.month, dateTime.day);
  }

  lemma FractionBound(fraction: Option<string>)
    requires fraction.Some? ==> AllDigits(fraction.value)
    ensures FractionMs(fraction) < 1000
  {
    if fraction.Some? {
      DigitsOfDecimal((fraction.value + "000")[..3]);
      assert Pow10(2) == 100 && Pow10(3) == 1000;
    }
  }

  lemma StampBoundsAt(s: Stamp, days: int)
    requires s.WellFormed() && -1_000_000 < days < 4_000_000
    ensures -0x4_0000_0000_0000 < s.MillisecondsAt(days) < 0x4_0000_0000_0000
  {
    FractionBound(s.fraction);
  }

  /** No accepted string, valid date or not, comes near the limits of 64-bit milliseconds. */
  lemma MillisecondsFitIn64Bits(text: string)
    requires ParsedMs(text).Some?
    ensures -0x4_0000_0000_0000 < ParsedMs(text).value < 0x4_0000_0000_0000
  {
    ScanRenders(text);
    var s := Scan(text).value;
    DayNumberBounds(s.dateTime);
    StampBoundsAt(s, s.dateTime.Days());
  }

  // ---- The bridge's printer ----

  const TICKS_PER_SECOND: int := 10_000_000
  const FIRST_SECOND: int := -62_135_596_800  // 0001-01-01T00:00:00Z
  const END_SECOND: int := 253_402_300_800    // 10000-01-01T00:00:00Z

  /** The range of .NET's `DateTimeOffset`, in 100 ns ticks from the Unix epoch. */
  predicate IsDateTimeOffset(ticks: int) {
    FIRST_SECOND * TICKS_PER_SECOND <= ticks < END_SECOND * TICKS_PER_SECOND
  }

  /** The fields that the round-trip format "O" prints for a UTC `DateTimeOffset`: seven fraction
      digits and the offset +00:00. */
  function PrintedStamp(ticks: int): Stamp
    requires IsDateTimeOffset(ticks)
  {
    var second := ticks / TICKS_PER_SECOND;
    YearInRange(second / 86400);
    var inDay := second % 86400;
    var inHour := inDay % 3600;
    FieldsOf(DateOfDay(second / 86400), inDay / 3600, inHour / 60, inHour % 60,
             ticks % TICKS_PER_SECOND)
  }

  function FieldsOf(date: Date, hour: nat, minute: nat, second: nat, fraction: nat): Stamp
    requires date.year >= 0
  {
    Stamp(DateTime(date.year, date.month, date.day, hour, minute, second),
          Some(Digits(fraction, 7)), Offset(false, 0, true, 0))
  }

  lemma YearInRange(day: int)
    requires FIRST_SECOND / 86400 <= day < END_SECOND / 86400
    ensures 1 <= DateOfDay(day).year <= 9999
  {
    var date, first, last := DateOfDay(day), Date(1, 1, 1), Date(9999, 12, 31);
    CountOfDateOfDay(day);
    DaysFromCivilIsDayCount(date);
    NumbersOfLimits();
    DaysFromCivilIsMonotone(date, first);
    DaysFromCivilIsMonotone(last, date);
  }

  lemma NumbersOfLimits()
    ensures Date(1, 1, 1).Number() * 86400 == FIRST_SECOND
    ensures (Date(9999, 12, 31).Number() + 1) * 86400 == END_SECOND
  {
    FirstDay();
    LastDay();
  }

  lemma FirstDay()
    ensures Date(1, 1, 1).Number() == -719_162
  {
    WrapAroundIsHarmless(1, 1, 1);
  }

  lemma LastDay()
    ensures Date(9999, 12, 31).Number() == 2_932_896
  {
    WrapAroundIsHarmless(9999, 12, 31);
  }

  lemma PrintedStampIsRfc3339(ticks: int)
    requires IsDateTimeOffset(ticks)
    ensures PrintedStamp(ticks).IsRfc3339()
  {
    YearInRange(ticks / TICKS_PER_SECOND / 86400);
  }

  function PrintUtc(ticks: int): string
    requires IsDateTimeOffset(ticks)
  {
    PrintedStampIsRfc3339(ticks);
    PrintedStamp(ticks).Render()
  }

  lemma MillisecondsOfFields(date: Date, hour: nat, minute: nat, second: nat, fraction: nat)
    requires date.Valid() && 0 <= date.year <= 9999 && fraction < TICKS_PER_SECOND
    requires hour <= 23 && minute <= 59 && second <= 59
    ensures FieldsOf(date, hour, minute, second, fraction).WellFormed()
    ensures FieldsOf(date, hour, minute, second, fraction).Milliseconds()
         == (date.Number() * 86400 + hour * 3600 + minute * 60 + second) * 1000 + fraction / 10_000
  {
    FractionOfTicks(fraction);
  }

  lemma FractionOfTicks(fraction: nat)
    requires fraction < TICKS_PER_SECOND
    ensures FractionMs(Some(Digits(fraction, 7))) == fraction / 10_000
  {
    Powers();
    DecimalOfDigits(fraction, 7);
    FractionIsTruncated(Digits(fraction, 7));
  }

  lemma PrintedMilliseconds(ticks: int)
    requires IsDateTimeOffset(ticks)
    ensures PrintedStamp(ticks).WellFormed()
    ensures PrintedStamp(ticks).Milliseconds() == ticks / 10_000
  {
    var second, fraction := ticks / TICKS_PER_SECOND, ticks % TICKS_PER_SECOND;
    var day, inDay := second / 86400, second % 86400;
    var inHour := inDay % 3600;
    YearInRange(day);
    NumberOfDateOfDay(day);
    MillisecondsOfFields(DateOfDay(day), inDay / 3600, inHour / 60, inHour % 60, fraction);
    TicksToMilliseconds(ticks);
  }

  /** Printing any instant as the bridge does and reading it back gives its millisecond. */
  lemma PrintThenParse(ticks: int)
    requires IsDateTimeOffset(ticks)
    ensures ParsedMs(PrintUtc(ticks)) == Some(ticks / 10_000)
  {
    PrintedMilliseconds(ticks);
    ScanOfRender(PrintedStamp(ticks));
  }

  lemma TicksToMilliseconds(ticks: int)
    ensures var second := ticks / TICKS_PER_SECOND;
            var inDay := second % 86400;
            var inHour := inDay % 3600;
            (second / 86400 * 86400 + inDay / 3600 * 3600 + inHour / 60 * 60 + inHour % 60) * 1000
            + ticks % TICKS_PER_SECOND / 10_000
            == ticks / 10_000
  {
  }
}
