/**
 The hand-written timestamp reader of the message parser, the grammar it accepts, and its
 relation to RFC 3339 and to the format the bridge prints.
 */
module Timestamp {
  import opened CivilDays
  import opened Decimals
  import opened Wrappers

  // ---- The accepted language ----

  datatype Zone = Zulu | Offset(negative: bool, hours: nat, colon: bool, minutes: nat) {
    predicate WellFormed() {
      Offset? ==> hours <= 99 && minutes <= 99
    }

    function Seconds(): int {
      match this
      case Zulu => 0
      case Offset(negative, hours, _, minutes) =>
        if negative then -(hours * 3600 + minutes * 60) else hours * 3600 + minutes * 60
    }

    function Render(): string
      requires WellFormed()
    {
      match this
      case Zulu => "Z"
      case Offset(negative, hours, colon, minutes) =>
        (if negative then "-" else "+") + Digits(hours, 2)
        + (if colon then ":" else "") + Digits(minutes, 2)
    }
  }

  /** The six numbers at the front of a timestamp string. */
  datatype DateTime = DateTime(year: nat, month: nat, day: nat, hour: nat, minute: nat, second: nat) {
    predicate WellFormed() {
      year <= 9999 && month <= 99 && day <= 99 && hour <= 99 && minute <= 99 && second <= 99
    }

    function Render(): string {
      Digits(year, 4) + "-" + Digits(month, 2) + "-" + Digits(day, 2) + "T"
      + Digits(hour, 2) + ":" + Digits(minute, 2) + ":" + Digits(second, 2)
    }

    function Days(): int {
      DaysFromCivil(year, month, day)
    }

    function Clock(): nat {
      hour * 3600 + minute * 60 + second
    }

    function CivilDate(): Date {
      Date(year, month, day)
    }
  }

  /** The fields of a timestamp string, exactly as they are written. */
  datatype Stamp = Stamp(dateTime: DateTime, fraction: Option<string>, zone: Zone) {
    /** What the reader insists on: field widths only. Ranges are not checked, and a decimal
        point may be followed by no digit at all. */
    predicate WellFormed() {
      && dateTime.WellFormed()
      && (fraction.Some? ==> AllDigits(fraction.value))
      && zone.WellFormed()
    }

    function Render(): string
      requires WellFormed()
    {
      dateTime.Render() + RenderFraction(fraction) + zone.Render()
    }

    /** Milliseconds when the date is `days` days after the epoch. */
    function MillisecondsAt(days: int): int
      requires WellFormed()
    {
      (days * 86400 + dateTime.Clock() - zone.Seconds()) * 1000 + FractionMs(fraction)
    }

    /** Milliseconds since 1970-01-01T00:00:00Z as the reader computes them. */
    function Milliseconds(): int
      requires WellFormed()
    {
      MillisecondsAt(dateTime.Days())
    }

    /** The instant these fields denote, in seconds, by the naive day count and the whole fraction. */
    function Instant(): real
      requires WellFormed() && dateTime.CivilDate().Valid()
    {
      (DayCount(dateTime.CivilDate()) * 86400 + dateTime.Clock() - zone.Seconds()) as real
      + FractionSeconds(fraction)
    }

    /** Sections 5.6 and 5.7 of RFC 3339 with uppercase T and Z, leap seconds aside. */
    predicate IsRfc3339() {
      && WellFormed() && dateTime.CivilDate().Valid()
      && dateTime.hour <= 23 && dateTime.minute <= 59 && dateTime.second <= 59
      && (fraction.Some? ==> fraction.value != "")
      && (zone.Offset? ==> zone.colon && zone.hours <= 23 && zone.minutes <= 59)
    }
  }

  function RenderFraction(fraction: Option<string>): string {
    match fraction
    case None => ""
    case Some(digits) => "." + digits
  }

  /** The first three fraction digits, padded with zeros. */
  function FractionMs(fraction: Option<string>): nat
    requires fraction.Some? ==> AllDigits(fraction.value)
  {
    match fraction
    case None => 0
    case Some(digits) => Decimal((digits + "000")[..3])
  }

  function FractionSeconds(fraction: Option<string>): real
    requires fraction.Some? ==> AllDigits(fraction.value)
  {
    match fraction
    case None => 0.0
    case Some(digits) => Decimal(digits) as real / Pow10(|digits|) as real
  }

  // ---- The reader, as a function ----

  function Field(text: string, offset: nat, length: nat): Option<nat> {
    if offset + length <= |text| && AllDigits(text[offset..offset + length])
    then Some(Decimal(text[offset..offset + length])) else None
  }

  function DigitRun(s: string): (n: nat)
    ensures n <= |s| && AllDigits(s[..n]) && (n < |s| ==> !IsDigit(s[n]))
  {
    if s == "" || !IsDigit(s[0]) then 0 else 1 + DigitRun(s[1..])
  }

  /** The fraction at the start of `s`, and its length with the decimal point. */
  function ScanFraction(s: string): (r: (Option<string>, nat))
    ensures r.1 <= |s| && (r.0.Some? ==> AllDigits(r.0.value))
    ensures RenderFraction(r.0) == s[..r.1]
  {
    if s != "" && s[0] == '.' then
      var n := DigitRun(s[1..]);
      (Some(s[1..][..n]), 1 + n)
    else
      (None, 0)
  }

  function ScanZone(s: string): Option<Zone> {
    if s == "Z" then Some(Zulu)
    else if s == "" || (s[0] != '+' && s[0] != '-') || Field(s, 1, 2).None? then None
    else
      var colon := 3 < |s| && s[3] == ':';
      var pos := if colon then 4 else 3;
      if Field(s, pos, 2).None? || |s| != pos + 2 then None
      else Some(Offset(s[0] == '-', Field(s, 1, 2).value, colon, Field(s, pos, 2).value))
  }

  predicate HasDateTimeShape(text: string) {
    && |text| >= 19
    && text[4] == '-' && text[7] == '-' && text[10] == 'T' && text[13] == ':' && text[16] == ':'
    && Field(text, 0, 4).Some? && Field(text, 5, 2).Some? && Field(text, 8, 2).Some?
    && Field(text, 11, 2).Some? && Field(text, 14, 2).Some? && Field(text, 17, 2).Some?
  }

  function ScanDateTime(text: string): Option<DateTime> {
    if HasDateTimeShape(text) then
      Some(DateTime(Field(text, 0, 4).value, Field(text, 5, 2).value, Field(text, 8, 2).value,
                    Field(text, 11, 2).value, Field(text, 14, 2).value, Field(text, 17, 2).value))
    else
      None
  }

  function Scan(text: string): Option<Stamp> {
    var dateTime := ScanDateTime(text);
    if dateTime.None? then None
    else
      var (fraction, length) := ScanFraction(text[19..]);
      var zone := ScanZone(text[19 + length..]);
      if zone.None? then None else Some(Stamp(dateTime.value, fraction, zone.value))
  }

  /** The result of the reader: `None` when it returns false and leaves the output alone. */
  function ParsedMs(text: string): Option<int> {
    var stamp := Scan(text);
    if stamp.Some? then (ScanRenders(text); Some(stamp.value.Milliseconds())) else None
  }

  // ---- The reader, as the program writes it ----

  method ParseInt(text: string, offset: nat, length: nat) returns (r: Option<nat>)
    requires length <= 9
    ensures r == Field(text, offset, length)
  {
    if offset + length > |text| {
      return None;
    }
    var value := 0;
    for i := offset to offset + length
      invariant AllDigits(text[offset..i]) && value == Decimal(text[offset..i])
    {
      if !IsDigit(text[i]) {
        assert text[offset..offset + length][i - offset] == text[i];
        return None;
      }
      ExtendSlice(text, offset, i);
      DecimalAppend(text[offset..i], text[i]);
      value := value * 10 + DigitValue(text[i]);
    }
    return Some(value);
  }

  lemma ExtendSlice(text: string, from: nat, to: nat)
    requires from <= to < |text|
    ensures text[from..to + 1] == text[from..to] + [text[to]]
  {
  }

  method ParseFraction(text: string, start: nat) returns (millisecond: nat, pos: nat)
    requires start <= |text|
    ensures pos == start + ScanFraction(text[start..]).1
    ensures millisecond == FractionMs(ScanFraction(text[start..]).0)
  {
    pos, millisecond := start, 0;
    var msDigits := 0;
    ghost var digits := "";
    if pos < |text| && text[pos] == '.' {
      pos := pos + 1;
      while pos < |text| && IsDigit(text[pos])
        invariant start + 1 <= pos <= |text|
        invariant digits == text[start + 1..pos] && AllDigits(digits)
        invariant msDigits == (if |digits| < 3 then |digits| else 3) && millisecond == Decimal(digits[..msDigits])
      {
        ExtendSlice(text, start + 1, pos);
        NextDigit(digits, text[pos]);
        digits := digits + [text[pos]];
        if msDigits < 3 {
          millisecond := millisecond * 10 + DigitValue(text[pos]);
          msDigits := msDigits + 1;
        }
        pos := pos + 1;
      }
      FractionOfRun(text, start, pos);
    }
    assert (digits + "000")[..msDigits] == digits[..msDigits];
    while msDigits < 3
      invariant msDigits <= 3 && (msDigits < 3 ==> |digits| <= msDigits)
      invariant millisecond == Decimal((digits + "000")[..msDigits])
    {
      NextPadding(digits, msDigits);
      millisecond := millisecond * 10;
      msDigits := msDigits + 1;
    }
    NoFractionIsZero();
  }

  /** Only the first three digits count. */
  lemma NextDigit(digits: string, c: char)
    requires AllDigits(digits) && IsDigit(c)
    ensures |digits| < 3 ==> Decimal((digits + [c])[..|digits| + 1]) == Decimal(digits[..|digits|]) * 10 + DigitValue(c)
    ensures |digits| >= 3 ==> (digits + [c])[..3] == digits[..3]
  {
    assert digits[..|digits|] == digits && (digits + [c])[..|digits| + 1] == digits + [c];
    DecimalAppend(digits, c);
  }

  lemma NextPadding(digits: string, count: nat)
    requires AllDigits(digits) && |digits| <= count < 3
    ensures Decimal((digits + "000")[..count + 1]) == Decimal((digits + "000")[..count]) * 10
  {
    var padded := digits + "000";
    assert padded[..count + 1] == padded[..count] + ['0'];
    DecimalAppend(padded[..count], '0');
  }

  lemma NoFractionIsZero()
    ensures FractionMs(Some("")) == FractionMs(None) == 0
  {
    assert ("" + "000")[..3] == "" + "0" + "0" + "0";
    DecimalAppend("", '0');
    DecimalAppend("0", '0');
    DecimalAppend("00", '0');
  }

  lemma FractionOfRun(text: string, start: nat, pos: nat)
    requires start < pos <= |text| && text[start] == '.'
    requires AllDigits(text[start + 1..pos]) && (pos < |text| ==> !IsDigit(text[pos]))
    ensures ScanFraction(text[start..]) == (Some(text[start + 1..pos]), pos - start)
  {
    var rest := text[start..][1..];
    assert rest == text[start + 1..];
    assert rest[..pos - start - 1] == text[start + 1..pos];
    DigitRunIsMaximal(rest, pos - start - 1);
  }

  lemma {:induction false} DigitRunIsMaximal(s: string, n: nat)
    requires n <= |s| && AllDigits(s[..n]) && (n < |s| ==> !IsDigit(s[n]))
    ensures DigitRun(s) == n
  {
    if n > 0 {
      assert s[..n][0] == s[0];
      assert s[1..][..n - 1] == s[..n][1..];
      DigitRunIsMaximal(s[1..], n - 1);
    }
  }

  method ParseDateTime(text: string) returns (r: Option<DateTime>)
    ensures r == ScanDateTime(text)
  {
    if |text| < 19 {
      return None;
    }
    if text[4] != '-' || text[7] != '-' || text[10] != 'T' || text[13] != ':' || text[16] != ':' {
      return None;
    }
    var year := ParseInt(text, 0, 4);
    var month := ParseInt(text, 5, 2);
    var day := ParseInt(text, 8, 2);
    var hour := ParseInt(text, 11, 2);
    var minute := ParseInt(text, 14, 2);
    var second := ParseInt(text, 17, 2);
    if year.None? || month.None? || day.None? || hour.None? || minute.None? || second.None? {
      return None;
    }
    return Some(DateTime(year.value, month.value, day.value, hour.value, minute.value, second.value));
  }

  lemma ParsedParts(text: string)
    requires ScanDateTime(text).Some?
    ensures var dateTime, (fraction, length) := ScanDateTime(text).value, ScanFraction(text[19..]);
            match ScanZone(text[19 + length..])
            case None => ParsedMs(text) == None
            case Some(zone) =>
              var stamp := Stamp(dateTime, fraction, zone);
              stamp.WellFormed() && ParsedMs(text) == Some(stamp.MillisecondsAt(dateTime.Days()))
  {
    if Scan(text).Some? {
      ScanRenders(text);
    }
  }

  method ParseIso8601UtcMs(text: string) returns (r: Option<int>)
    ensures r == ParsedMs(text)
  {
    var dateTime := ParseDateTime(text);
    if dateTime.None? {
      return None;
    }
    ParsedParts(text);
    var millisecond, pos := ParseFraction(text, 19);
    var offsetSeconds := ParseZone(text, pos);
    if offsetSeconds.None? {
      return None;
    }
    var seconds := dateTime.value.Days() * 86400 + dateTime.value.Clock() - offsetSeconds.value;
    return Some(seconds * 1000 + millisecond);
  }

  /** The offset in seconds, when the rest of the text is a zone and nothing more. */
  method ParseZone(text: string, start: nat) returns (r: Option<int>)
    requires start <= |text|
    ensures r == match ScanZone(text[start..])
                 case None => None
                 case Some(zone) => Some(zone.Seconds())
  {
    var pos := start;
    var offsetSeconds := 0;
    if pos >= |text| {
      return None;
    }
    if text[pos] == 'Z' {
      pos := pos + 1;
    } else if text[pos] == '+' || text[pos] == '-' {
      var sign: int := if text[pos] == '+' then 1 else -1;
      ShiftField(text, pos, 1, 2);
      ShiftField(text, pos, 3, 2);
      ShiftField(text, pos, 4, 2);
      pos := pos + 1;
      var tzHour := ParseInt(text, pos, 2);
      if tzHour.None? {
        return None;
      }
      pos := pos + 2;
      if pos < |text| && text[pos] == ':' {
        pos := pos + 1;
      }
      var tzMinute := ParseInt(text, pos, 2);
      if tzMinute.None? {
        return None;
      }
      pos := pos + 2;
      offsetSeconds := sign * (tzHour.value * 3600 + tzMinute.value * 60);
    } else {
      return None;
    }
    assert text[start..] == "Z" <==> text[start] == 'Z' && start + 1 == |text|;
    if pos != |text| {
      return None;
    }
    return Some(offsetSeconds);
  }

  lemma ShiftField(text: string, base: nat, offset: nat, length: nat)
    requires base <= |text|
    ensures Field(text[base..], offset, length) == Field(text, base + offset, length)
  {
    if base + offset + length <= |text| {
      assert text[base..][offset..offset + length] == text[base + offset..base + offset + length];
    }
  }

  // ---- The grammar is exactly what is accepted ----

  lemma FieldIsDigits(text: string, offset: nat, length: nat)
    requires Field(text, offset, length).Some?
    ensures var value := Field(text, offset, length).value;
            value < Pow10(length) && text[offset..offset + length] == Digits(value, length)
  {
    DigitsOfDecimal(text[offset..offset + length]);
  }

  lemma DigitsAreField(prefix: string, n: nat, width: nat, suffix: string)
    requires n < Pow10(width)
    ensures Field(prefix + Digits(n, width) + suffix, |prefix|, width) == Some(n)
  {
    var text := prefix + Digits(n, width) + suffix;
    assert text[|prefix|..|prefix| + width] == Digits(n, width);
    DecimalOfDigits(n, width);
  }

  lemma Powers()
    ensures Pow10(2) == 100 && Pow10(4) == 10000 && Pow10(7) == 10_000_000
  {
    assert Pow10(1) == 10 && Pow10(3) == 1000 && Pow10(5) == 100_000;
  }

  lemma ScanZoneRenders(s: string)
    requires ScanZone(s).Some?
    ensures ScanZone(s).value.WellFormed() && ScanZone(s).value.Render() == s
  {
    if s != "Z" {
      Powers();
      var pos := if 3 < |s| && s[3] == ':' then 4 else 3;
      FieldIsDigits(s, 1, 2);
      FieldIsDigits(s, pos, 2);
      assert s == s[..1] + s[1..3] + s[3..pos] + s[pos..pos + 2];
    }
  }

  lemma ScanRenders(text: string)
    requires Scan(text).Some?
    ensures Scan(text).value.WellFormed() && Scan(text).value.Render() == text
  {
    var length := ScanFraction(text[19..]).1;
    DateTimeRenders(text);
    ScanZoneRenders(text[19 + length..]);
    assert text == text[..19] + text[19..][..length] + text[19 + length..];
  }

  lemma DateTimeRenders(text: string)
    requires ScanDateTime(text).Some?
    ensures var dateTime := ScanDateTime(text).value;
            dateTime.WellFormed() && text[..19] == dateTime.Render()
  {
    Powers();
    FieldIsDigits(text, 0, 4);
    FieldIsDigits(text, 5, 2);
    FieldIsDigits(text, 8, 2);
    FieldIsDigits(text, 11, 2);
    FieldIsDigits(text, 14, 2);
    FieldIsDigits(text, 17, 2);
    SplitDateTime(text);
  }

  lemma SplitDateTime(text: string)
    requires |text| >= 19
    ensures text[..19] == text[0..4] + [text[4]] + text[5..7] + [text[7]] + text[8..10] + [text[10]]
                          + text[11..13] + [text[13]] + text[14..16] + [text[16]] + text[17..19]
  {
  }

  lemma ScanZoneOfRender(zone: Zone)
    requires zone.WellFormed()
    ensures ScanZone(zone.Render()) == Some(zone)
  {
    if zone.Offset? {
      Powers();
      var sign := if zone.negative then "-" else "+";
      var colon := if zone.colon then ":" else "";
      var hours, minutes := Digits(zone.hours, 2), Digits(zone.minutes, 2);
      var s := zone.Render();
      assert s == sign + hours + (colon + minutes);
      DigitsAreField(sign, zone.hours, 2, colon + minutes);
      assert s == sign + hours + colon + minutes + "";
      DigitsAreField(sign + hours + colon, zone.minutes, 2, "");
      assert s[3] == if zone.colon then ':' else minutes[0];
    }
  }

  lemma ScanFractionOfRender(fraction: Option<string>, rest: string)
    requires fraction.Some? ==> AllDigits(fraction.value)
    requires rest != "" && !IsDigit(rest[0]) && rest[0] != '.'
    ensures var s := RenderFraction(fraction) + rest;
            ScanFraction(s) == (fraction, |RenderFraction(fraction)|)
  {
    if fraction.Some? {
      var s := RenderFraction(fraction) + rest;
      assert s[1..] == fraction.value + rest;
      assert s[1..][..|fraction.value|] == fraction.value;
      DigitRunIsMaximal(s[1..], |fraction.value|);
    }
  }

  lemma ScanDateTimeOfRender(dateTime: DateTime, rest: string)
    requires dateTime.WellFormed()
    ensures ScanDateTime(dateTime.Render() + rest) == Some(dateTime)
  {
    ScanDateOfRender(dateTime, rest);
    ScanClockOfRender(dateTime, rest);
  }

  lemma ScanDateOfRender(dateTime: DateTime, rest: string)
    requires dateTime.WellFormed()
    ensures var text := dateTime.Render() + rest;
            && |text| >= 19 && text[4] == '-' && text[7] == '-' && text[10] == 'T'
            && Field(text, 0, 4) == Some(dateTime.year)
            && Field(text, 5, 2) == Some(dateTime.month)
            && Field(text, 8, 2) == Some(dateTime.day)
  {
    var text := dateTime.Render() + rest;
    Powers();
    FieldAt(text, 0, dateTime.year, 4);
    FieldAt(text, 5, dateTime.month, 2);
    FieldAt(text, 8, dateTime.day, 2);
  }

  lemma ScanClockOfRender(dateTime: DateTime, rest: string)
    requires dateTime.WellFormed()
    ensures var text := dateTime.Render() + rest;
            && |text| >= 19 && text[13] == ':' && text[16] == ':'
            && Field(text, 11, 2) == Some(dateTime.hour)
            && Field(text, 14, 2) == Some(dateTime.minute)
            && Field(text, 17, 2) == Some(dateTime.second)
  {
    var text := dateTime.Render() + rest;
    Powers();
    FieldAt(text, 11, dateTime.hour, 2);
    FieldAt(text, 14, dateTime.minute, 2);
    FieldAt(text, 17, dateTime.second, 2);
  }

  lemma FieldAt(text: string, offset: nat, n: nat, width: nat)
    requires n < Pow10(width)
    requires offset + width <= |text| && text[offset..offset + width] == Digits(n, width)
    ensures Field(text, offset, width) == Some(n)
  {
    DecimalOfDigits(n, width);
  }

  lemma ThreeParts(front: string, middle: string, last: string)
    ensures front + middle + last == front + (middle + last)
    ensures (front + (middle + last))[|front|..] == middle + last
    ensures (front + (middle + last))[|front| + |middle|..] == last
  {
  }

  lemma ScanParts(text: string, stamp: Stamp, length: nat)
    requires |text| >= 19 + length && ScanDateTime(text) == Some(stamp.dateTime)
    requires ScanFraction(text[19..]) == (stamp.fraction, length)
    requires ScanZone(text[19 + length..]) == Some(stamp.zone)
    ensures Scan(text) == Some(stamp)
  {
  }

  lemma ScanOfParts(stamp: Stamp, front: string, middle: string, last: string)
    requires stamp.WellFormed() && front == stamp.dateTime.Render() && |front| == 19
    requires middle == RenderFraction(stamp.fraction) && last == stamp.zone.Render()
    requires last != "" && !IsDigit(last[0]) && last[0] != '.'
    ensures Scan(front + (middle + last)) == Some(stamp)
  {
    ThreeParts(front, middle, last);
    ScanDateTimeOfRender(stamp.dateTime, middle + last);
    ScanFractionOfRender(stamp.fraction, last);
    ScanZoneOfRender(stamp.zone);
    ScanParts(front + (middle + last), stamp, |middle|);
  }

  lemma ScanOfRender(stamp: Stamp)
    requires stamp.WellFormed()
    ensures Scan(stamp.Render()) == Some(stamp)
  {
    var front, middle, last := stamp.dateTime.Render(), RenderFraction(stamp.fraction), stamp.zone.Render();
    ThreeParts(front, middle, last);
    ScanOfParts(stamp, front, middle, last);
  }

  /** The reader accepts a string exactly when it is the written form of some well-formed fields,
      and then it returns the milliseconds of those fields. */
  lemma AcceptsExactlyTheGrammar(text: string)
    ensures ParsedMs(text).Some? <==> exists s: Stamp :: s.WellFormed() && s.Render() == text
    ensures forall s: Stamp :: s.WellFormed() && s.Render() == text
              ==> ParsedMs(text) == Some(s.Milliseconds())
  {
    forall s: Stamp | s.WellFormed() && s.Render() == text
      ensures ParsedMs(text) == Some(s.Milliseconds())
    {
      ScanOfRender(s);
    }
    if ParsedMs(text).Some? {
      ScanRenders(text);
    }
  }
}
