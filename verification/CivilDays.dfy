/**
 Day numbers of civil dates: the era-based computation of the message parser, a calendar that is
 walked one day at a time, and the proof that they agree on every proleptic Gregorian date.
 */
module CivilDays {
  import opened CppArithmetic

  /** `month` and `day` are C++ `unsigned`; each unsigned subexpression wraps. */
  function DaysFromCivil(year: int, month: nat, day: nat): int {
    var y := if month <= 2 then year - 1 else year;
    DaysFromMarch(y, DayOfYear(month, day))
  }

  function DaysFromMarch(y: int, dayOfYear: nat): int {
    var era := TruncDiv(if y >= 0 then y else y - 399, 400);
    var yearOfEra := Wrap32(y - era * 400);
    DayOfEpoch(era, yearOfEra, dayOfYear)
  }

  function DayOfEpoch(era: int, yearOfEra: nat, dayOfYear: nat): int {
    era * 146097 + ToInt32(DayOfEra(yearOfEra, dayOfYear)) - 719468
  }

  /** Days since March 1, with the month counted from March. */
  function DayOfYear(month: nat, day: nat): nat {
    var shiftedMonth := Wrap32(month + (if month > 2 then Wrap32(-3) else 9));
    Wrap32(Wrap32(153 * shiftedMonth + 2) / 5 + day - 1)
  }

  function DayOfEra(yearOfEra: nat, dayOfYear: nat): nat {
    Wrap32(yearOfEra * 365 + yearOfEra / 4 - yearOfEra / 100 + dayOfYear)
  }

  // ---- The calendar ----

  predicate IsLeap(year: int) {
    year % 4 == 0 && (year % 100 != 0 || year % 400 == 0)
  }

  function YearLength(year: int): nat {
    if IsLeap(year) then 366 else 365
  }

  function MonthLength(year: int, month: nat): nat
    requires 1 <= month <= 12
  {
    if month == 2 then (if IsLeap(year) then 29 else 28)
    else if month in {4, 6, 9, 11} then 30
    else 31
  }

  datatype Date = Date(year: int, month: nat, day: nat) {
    predicate Valid() {
      1 <= month <= 12 && 1 <= day <= MonthLength(year, month)
    }

    predicate Before(other: Date) {
      year < other.year ||
      (year == other.year && (month < other.month || (month == other.month && day < other.day)))
    }

    function Next(): Date
      requires Valid()
    {
      if day < MonthLength(year, month) then Date(year, month, day + 1)
      else if month < 12 then Date(year, month + 1, 1)
      else Date(year + 1, 1, 1)
    }

    function Previous(): Date
      requires Valid()
    {
      if day > 1 then Date(year, month, day - 1)
      else if month > 1 then Date(year, month - 1, MonthLength(year, month - 1))
      else Date(year - 1, 12, 31)
    }

    /** The day number the parser computes for this date. */
    function Number(): int {
      DaysFromCivil(year, month, day)
    }
  }

  /** The date `n` days after 1970-01-01, found by stepping through the calendar. */
  function DateOfDay(n: int): (date: Date)
    ensures date.Valid()
    decreases if n < 0 then -n else n
  {
    if n == 0 then Date(1970, 1, 1)
    else if n > 0 then DateOfDay(n - 1).Next()
    else DateOfDay(n + 1).Previous()
  }

  /** Days from 1970-01-01 to January 1 of `year`, adding up the lengths of the years between. */
  function YearStart(year: int): int
    decreases if year < 1970 then 1970 - year else year - 1970
  {
    if year == 1970 then 0
    else if year > 1970 then YearStart(year - 1) + YearLength(year - 1)
    else YearStart(year + 1) - YearLength(year)
  }

  function DaysBeforeMonth(year: int, month: nat): nat
    requires 1 <= month <= 12
  {
    if month == 1 then 0 else DaysBeforeMonth(year, month - 1) + MonthLength(year, month - 1)
  }

  /** The naive day count: whole years, whole months, days. */
  function DayCount(date: Date): int
    requires date.Valid()
  {
    YearStart(date.year) + DaysBeforeMonth(date.year, date.month) + date.day - 1
  }

  // ---- Agreement ----

  function LeapsThrough(year: int): int {
    year / 4 - year / 100 + year / 400
  }

  lemma LeapStep(year: int)
    ensures LeapsThrough(year) == LeapsThrough(year - 1) + (if IsLeap(year) then 1 else 0)
  {
    assert year / 4 - (year - 1) / 4 == if year % 4 == 0 then 1 else 0;
    assert year / 100 - (year - 1) / 100 == if year % 100 == 0 then 1 else 0;
    assert year / 400 - (year - 1) / 400 == if year % 400 == 0 then 1 else 0;
    MultiplesOf400(year);
  }

  lemma MultiplesOf400(year: int)
    ensures year % 400 == 0 ==> year % 100 == 0
    ensures year % 100 == 0 ==> year % 4 == 0
  {
    if year % 400 == 0 {
      assert year == 100 * (4 * (year / 400));
    }
    if year % 100 == 0 {
      assert year == 4 * (25 * (year / 100));
    }
  }

  lemma {:induction false} YearStartClosedForm(year: int)
    ensures YearStart(year) == 365 * (year - 1970) + LeapsThrough(year - 1) - 477
    decreases if year < 1970 then 1970 - year else year - 1970
  {
    if year > 1970 {
      YearStartClosedForm(year - 1);
      LeapStep(year - 1);
    } else if year < 1970 {
      YearStartClosedForm(year + 1);
      LeapStep(year);
    }
  }

  lemma EraOf(era: int, yearOfEra: nat)
    requires yearOfEra < 400
    ensures var y := 400 * era + yearOfEra;
            TruncDiv(if y >= 0 then y else y - 399, 400) == era
  {
  }

  lemma LeapsInEra(era: int, yearOfEra: nat)
    ensures LeapsThrough(400 * era + yearOfEra)
            == 97 * era + yearOfEra / 4 - yearOfEra / 100 + yearOfEra / 400
  {
    assert (400 * era + yearOfEra) / 4 == 100 * era + yearOfEra / 4;
    assert (400 * era + yearOfEra) / 100 == 4 * era + yearOfEra / 100;
    assert (400 * era + yearOfEra) / 400 == era + yearOfEra / 400;
  }

  /** The unsigned arithmetic never shows: on every two-digit month and day, 32-bit wrap-around and
      truncating division give what unbounded integers and floor division give. */
  lemma WrapAroundIsHarmless(year: int, month: nat, day: nat)
    requires month <= 99 && day <= 99
    ensures var y := if month <= 2 then year - 1 else year;
            var m := if month > 2 then month - 3 else month + 9;
            DaysFromCivil(year, month, day)
            == 365 * y + LeapsThrough(y) + (153 * m + 2) / 5 + day - 1 - 719468
  {
    var y := if month <= 2 then year - 1 else year;
    var m := if month > 2 then month - 3 else month + 9;
    DayOfYearInts(month, day);
    var dayOfYear := (153 * m + 2) / 5 + day - 1;
    MarchIsEpoch(y, y / 400, y % 400, Wrap32(dayOfYear));
    DayOfEraInts(y, y / 400, y % 400, dayOfYear);
  }

  lemma MarchIsEpoch(y: int, era: int, yearOfEra: nat, dayOfYear: nat)
    requires y == 400 * era + yearOfEra && yearOfEra < 400
    ensures DaysFromMarch(y, dayOfYear) == DayOfEpoch(era, yearOfEra, dayOfYear)
  {
    EraOf(era, yearOfEra);
  }

  lemma DayOfYearInts(month: nat, day: nat)
    requires month <= 99 && day <= 99
    ensures var m := if month > 2 then month - 3 else month + 9;
            DayOfYear(month, day) == Wrap32((153 * m + 2) / 5 + day - 1)
  {
    assert Wrap32(month + (if month > 2 then Wrap32(-3) else 9))
        == if month > 2 then month - 3 else month + 9;
  }

  lemma DayOfEraInts(y: int, era: int, yearOfEra: nat, dayOfYear: int)
    requires y == 400 * era + yearOfEra && yearOfEra < 400 && -1 <= dayOfYear < 10000
    ensures DayOfEpoch(era, yearOfEra, Wrap32(dayOfYear))
            == 365 * y + LeapsThrough(y) + dayOfYear - 719468
  {
    LeapsInEra(era, yearOfEra);
    WrapOfSum(yearOfEra * 365 + yearOfEra / 4 - yearOfEra / 100, dayOfYear);
  }

  lemma WrapOfSum(a: nat, b: int)
    requires a < 0x1000_0000 && -1 <= b < 0x1000_0000
    ensures ToInt32(Wrap32(a + Wrap32(b))) == a + b
  {
  }

  lemma MonthsFromMarch(year: int, month: nat)
    requires 1 <= month <= 12
    ensures var m := if month > 2 then month - 3 else month + 9;
            DaysBeforeMonth(year, month)
            == (153 * m + 2) / 5 + (if month > 2 then 59 + (if IsLeap(year) then 1 else 0) else -306)
  {
    if month > 1 {
      MonthsFromMarch(year, month - 1);
    }
  }

  /** The era formula is the naive count, for every valid date in every year. */
  lemma DaysFromCivilIsDayCount(date: Date)
    requires date.Valid()
    ensures date.Number() == DayCount(date)
  {
    WrapAroundIsHarmless(date.year, date.month, date.day);
    YearStartClosedForm(date.year);
    LeapStep(date.year);
    MonthsFromMarch(date.year, date.month);
  }

  lemma NextYearStart(year: int)
    ensures YearStart(year + 1) == YearStart(year) + YearLength(year)
  {
  }

  lemma NextDayCount(date: Date)
    requires date.Valid()
    ensures date.Next().Valid() && DayCount(date.Next()) == DayCount(date) + 1
  {
    if date.month == 12 && date.day == 31 {
      NextYearStart(date.year);
      MonthsFromMarch(date.year, 12);
    }
  }

  /** One calendar day is always exactly one day number. */
  lemma NextDayAddsOne(date: Date)
    requires date.Valid()
    ensures date.Next().Valid() && date.Next().Number() == date.Number() + 1
  {
    NextDayCount(date);
    DaysFromCivilIsDayCount(date);
    DaysFromCivilIsDayCount(date.Next());
  }

  lemma PreviousThenNext(date: Date)
    requires date.Valid()
    ensures date.Previous().Valid() && date.Previous().Next() == date
  {
  }

  lemma {:induction false} YearStartMonotone(a: int, b: int)
    requires a <= b
    ensures YearStart(a) + 365 * (b - a) <= YearStart(b)
    decreases b - a
  {
    if a < b {
      NextYearStart(a);
      YearStartMonotone(a + 1, b);
    }
  }

  lemma {:induction false} DaysBeforeMonthMonotone(year: int, a: nat, b: nat)
    requires 1 <= a < b <= 12
    ensures DaysBeforeMonth(year, a) + MonthLength(year, a) <= DaysBeforeMonth(year, b)
    decreases b - a
  {
    if a + 1 < b {
      DaysBeforeMonthMonotone(year, a, b - 1);
    }
  }

  lemma DayWithinYear(date: Date)
    requires date.Valid()
    ensures 0 <= DayCount(date) - YearStart(date.year) < YearLength(date.year)
  {
    MonthsFromMarch(date.year, 12);
    if date.month < 12 {
      DaysBeforeMonthMonotone(date.year, date.month, 12);
    }
  }

  /** Day numbers order dates exactly as (year, month, day) does. */
  lemma DaysFromCivilIsMonotone(a: Date, b: Date)
    requires a.Valid() && b.Valid()
    ensures a.Before(b) <==> a.Number() < b.Number()
  {
    if a.Before(b) {
      EarlierDateHasSmallerNumber(a, b);
    } else if b.Before(a) {
      EarlierDateHasSmallerNumber(b, a);
    }
  }

  lemma EarlierDateHasSmallerNumber(a: Date, b: Date)
    requires a.Valid() && b.Valid() && a.Before(b)
    ensures a.Number() < b.Number()
  {
    DaysFromCivilIsDayCount(a);
    DaysFromCivilIsDayCount(b);
    if a.year < b.year {
      DayWithinYear(a);
      DayWithinYear(b);
      NextYearStart(a.year);
      YearStartMonotone(a.year + 1, b.year);
    } else if a.month < b.month {
      DaysBeforeMonthMonotone(a.year, a.month, b.month);
    }
  }

  lemma {:induction false} CountOfDateOfDay(n: int)
    ensures DayCount(DateOfDay(n)) == n
    decreases if n < 0 then -n else n
  {
    if n > 0 {
      CountOfDateOfDay(n - 1);
      NextDayCount(DateOfDay(n - 1));
    } else if n < 0 {
      CountOfDateOfDay(n + 1);
      PreviousThenNext(DateOfDay(n + 1));
      NextDayCount(DateOfDay(n));
    }
  }

  /** Walking the calendar inverts the parser's day number ... */
  lemma NumberOfDateOfDay(n: int)
    ensures DateOfDay(n).Number() == n
  {
    CountOfDateOfDay(n);
    DaysFromCivilIsDayCount(DateOfDay(n));
  }

  /** ... and the parser's day number inverts walking the calendar. */
  lemma DateOfDayOfNumber(date: Date)
    requires date.Valid()
    ensures DateOfDay(date.Number()) == date
  {
    var walked := DateOfDay(date.Number());
    NumberOfDateOfDay(date.Number());
    DaysFromCivilIsMonotone(walked, date);
    DaysFromCivilIsMonotone(date, walked);
  }
}
