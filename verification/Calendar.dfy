/**
 Gregorian day arithmetic: the `civil_from_days` of src/event_store/mod.rs, which divides with
 truncation, the one of src/security_summary/date.rs, which divides with `div_euclid`, and
 `days_from_civil`. The calendar itself is defined below by leap years, month lengths
 (section 5.7 and appendix C of RFC 3339) and the day after a date.
 */
module Calendar {
  import opened Wrappers

  datatype Date = Date(year: int, month: int, day: int)

  // ----- the calendar -----

  predicate IsLeap(year: int) {
    year % 4 == 0 && (year % 100 != 0 || year % 400 == 0)
  }

  function DaysInMonth(year: int, month: int): int
    requires 1 <= month <= 12
  {
    if month == 2 then (if IsLeap(year) then 29 else 28)
    else if month == 4 || month == 6 || month == 9 || month == 11 then 30
    else 31
  }

  predicate IsDate(d: Date) {
    1 <= d.month <= 12 && 1 <= d.day <= DaysInMonth(d.year, d.month)
  }

  function NextDate(d: Date): Date
    requires IsDate(d)
  {
    if d.day < DaysInMonth(d.year, d.month) then d.(day := d.day + 1)
    else if d.month < 12 then Date(d.year, d.month + 1, 1)
    else Date(d.year + 1, 1, 1)
  }

  // ----- the source's arithmetic -----

  /** Rust's `/` on signed integers. */
  function TruncDiv(a: int, b: int): int
    requires b > 0
  {
    if a >= 0 then a / b else -((-a) / b)
  }

  /** The computation both versions make once they have an era and the day within it. */
  function CivilOfEra(era: int, dayOfEra: int): Date {
    var yearOfEra := TruncDiv(
      dayOfEra - TruncDiv(dayOfEra, 1460) + TruncDiv(dayOfEra, 36524) - TruncDiv(dayOfEra, 146096), 365);
    var dayOfYear := dayOfEra - (365 * yearOfEra + TruncDiv(yearOfEra, 4) - TruncDiv(yearOfEra, 100));
    var monthPrime := TruncDiv(5 * dayOfYear + 2, 153);
    var day := dayOfYear - TruncDiv(153 * monthPrime + 2, 5) + 1;
    var month := monthPrime + if monthPrime < 10 then 3 else -9;
    Date(yearOfEra + era * 400 + if month <= 2 then 1 else 0, month, day)
  }

  /** `civil_from_days` of event_store, before its results are cast to 32 bits. */
  function CivilFromDaysTruncating(days: int): Date {
    var shifted := days + 719468;
    var era := TruncDiv(if shifted >= 0 then shifted else shifted - 146096, 146097);
    CivilOfEra(era, shifted - era * 146097)
  }

  /** `civil_from_days` of security_summary/date, before its results are cast to 32 bits. */
  function CivilFromDays(days: int): Date {
    var shifted := days + 719468;
    var era := shifted / 146097;
    CivilOfEra(era, shifted - era * 146097)
  }

  function DaysFromCivil(d: Date): Option<int> {
    if !(1 <= d.month <= 12) || !(1 <= d.day <= 31) then None
    else
      var year := d.year - if d.month <= 2 then 1 else 0;
      var era := year / 400;
      var yearOfEra := year - era * 400;
      var monthPrime := d.month + if d.month > 2 then -3 else 9;
      var dayOfYear := TruncDiv(153 * monthPrime + 2, 5) + d.day - 1;
      var dayOfEra := yearOfEra * 365 + TruncDiv(yearOfEra, 4) - TruncDiv(yearOfEra, 100) + dayOfYear;
      Some(era * 146097 + dayOfEra - 719468)
  }

  // ----- the two versions agree -----

  /** Truncating division, corrected for negative dividends, is Euclidean division. */
  lemma {:induction false} CorrectedTruncation(a: int)
    ensures TruncDiv(if a >= 0 then a else a - 146096, 146097) == a / 146097
  {
  }

  lemma {:induction false} CivilVersionsAgree(days: int)
    ensures CivilFromDaysTruncating(days) == CivilFromDays(days)
  {
    CorrectedTruncation(days + 719468);
  }

  // ----- years that start on 1 March -----

  /** Days before the year y, counted from year 0; 1 March begins a year. */
  function YearStart(y: int): int { 365 * y + y / 4 - y / 100 + y / 400 }

  /** Days of a year before its month m, March being month 0. */
  function MonthStart(m: int): int { (153 * m + 2) / 5 }

  function YearLength(y: int): int { if IsLeap(y + 1) then 366 else 365 }

  /** The date on day `dayOfMonth` (from 0) of month `m` (from March) of the March year `y`. */
  function FromMarch(y: int, m: int, dayOfMonth: int): Date {
    if m < 10 then Date(y, m + 3, dayOfMonth + 1) else Date(y + 1, m - 9, dayOfMonth + 1)
  }

  function MonthLength(y: int, m: int): int {
    if m == 11 then YearLength(y) - MonthStart(11) else MonthStart(m + 1) - MonthStart(m)
  }

  lemma {:induction false} QuarterSteps(y: int)
    ensures (y + 1) / 4 - y / 4 == if (y + 1) % 4 == 0 then 1 else 0
  {
  }

  lemma {:induction false} CenturySteps(y: int)
    ensures (y + 1) / 100 - y / 100 == if (y + 1) % 100 == 0 then 1 else 0
    ensures (y + 1) / 400 - y / 400 == if (y + 1) % 400 == 0 then 1 else 0
    ensures y % 400 == 0 ==> y % 100 == 0
    ensures y % 100 == 0 ==> y % 4 == 0
  {
  }

  lemma {:induction false} YearsFollow(y: int)
    ensures YearStart(y + 1) == YearStart(y) + YearLength(y)
  {
    QuarterSteps(y);
    CenturySteps(y);
    CenturySteps(y + 1);
  }

  lemma {:induction false} QuotientsGrow(y: int, z: int)
    requires y < z
    ensures z / 4 >= y / 4 && z / 400 >= y / 400 && z / 100 - y / 100 <= z - y
  {
  }

  lemma {:induction false} YearsGrow(y: int, z: int)
    requires y < z
    ensures YearStart(y) < YearStart(z)
  {
    QuotientsGrow(y, z);
  }

  lemma {:induction false} EraShift(era: int, y: int)
    ensures YearStart(400 * era + y) == 146097 * era + YearStart(y)
  {
    assert (400 * era + y) / 4 == 100 * era + y / 4;
    assert (400 * era + y) / 100 == 4 * era + y / 100;
    assert (400 * era + y) / 400 == era + y / 400;
  }

  /** A day of an era as whole centuries, four-year groups, years and days. */
  lemma {:induction false} SplitDay(day: int) returns (c: int, q: int, r: int, s: int)
    requires 0 <= day < 146097
    ensures day == 36524 * c + 1461 * q + 365 * r + s
    ensures 0 <= c <= 3 && 0 <= q <= 24 && 0 <= r <= 3 && 0 <= s <= 365
    ensures s == 365 ==> r == 3 && (q < 24 || c == 3)
    ensures c < 3 ==> day < 36524 * (c + 1)
  {
    c := if day == 146096 then 3 else day / 36524;
    var ofCentury := day - 36524 * c;
    q := if ofCentury == 36524 then 24 else ofCentury / 1461;
    var ofGroup := ofCentury - 1461 * q;
    r := if ofGroup == 1460 then 3 else ofGroup / 365;
    s := ofGroup - 365 * r;
  }

  function SourceYear(day: int): int {
    (day - day / 1460 + day / 36524 - day / 146096) / 365
  }

  lemma {:induction false} SplitYear(c: int, q: int, r: int)
    requires 0 <= c <= 3 && 0 <= q <= 24 && 0 <= r <= 3
    ensures YearStart(100 * c + 4 * q + r) == 36524 * c + 1461 * q + 365 * r
    ensures r == 3 && (q < 24 || c == 3) ==> IsLeap(100 * c + 4 * q + r + 1)
  {
    var y := 100 * c + 4 * q + r;
    assert y / 4 == 25 * c + q && y / 100 == c && y / 400 == 0;
    if r == 3 && q < 24 {
      assert (y + 1) % 4 == 0;
      assert (y + 1) == 100 * c + 4 * (q + 1);
      assert (y + 1) % 100 == 4 * (q + 1);
    }
  }

  lemma {:induction false} FewerLeapDays(day: int, c: int, q: int, t: int)
    requires 0 <= c <= 3 && 0 <= q <= 24 && 0 <= t <= 1556
    requires day == 1460 * (25 * c + q) + t
    ensures day / 1460 == 25 * c + q + if t >= 1460 then 1 else 0
  {
  }

  lemma {:induction false} Centuries(day: int, c: int)
    requires 0 <= c <= 3 && 36524 * c <= day < 146097 && (c < 3 ==> day < 36524 * (c + 1))
    ensures day / 36524 - day / 146096 == c
  {
  }

  /** The year the source divides out is the one whose days contain the day. */
  lemma {:induction false} YearOfDay(day: int)
    requires 0 <= day < 146097
    ensures 0 <= SourceYear(day) < 400
    ensures YearStart(SourceYear(day)) <= day < YearStart(SourceYear(day) + 1)
  {
    var c, q, r, s := SplitDay(day);
    var y := 100 * c + 4 * q + r;
    var t := 24 * c + q + 365 * r + s;
    FewerLeapDays(day, c, q, t);
    Centuries(day, c);
    var days := 365 * y + s - if t >= 1460 then 1 else 0;
    assert SourceYear(day) == days / 365;
    assert 365 * y <= days < 365 * y + 365;
    assert SourceYear(day) == y;
    SplitYear(c, q, r);
    YearsFollow(y);
  }

  lemma {:induction false} MonthOfDay(day: int)
    requires 0 <= day <= 365
    ensures 0 <= (5 * day + 2) / 153 <= 11
    ensures MonthStart((5 * day + 2) / 153) <= day < MonthStart((5 * day + 2) / 153 + 1)
  {
  }

  lemma {:induction false} MonthsFollow(y: int, m: int)
    requires 0 <= m <= 11
    ensures MonthStart(0) == 0 && MonthStart(11) == 337 && MonthStart(m) <= 337
    ensures MonthLength(y, m) == DaysInMonth(FromMarch(y, m, 0).year, FromMarch(y, m, 0).month)
    ensures 0 < MonthLength(y, m) <= 31
  {
    if m == 0 {} else if m == 1 {} else if m == 2 {} else if m == 3 {} else if m == 4 {} else if m == 5 {}
    else if m == 6 {} else if m == 7 {} else if m == 8 {} else if m == 9 {} else if m == 10 {} else {}
  }

  /** Where a day of an era lies, as the source's divisions find it. */
  lemma {:induction false} PositionInEra(era: int, day: int) returns (y: int, m: int, d: int)
    requires 0 <= day < 146097
    ensures CivilOfEra(era, day) == FromMarch(400 * era + y, m, d)
    ensures 0 <= y < 400 && day == YearStart(y) + MonthStart(m) + d
    ensures 0 <= m <= 11 && 0 <= d < MonthLength(y, m)
  {
    YearOfDay(day);
    y := SourceYear(day);
    YearsFollow(y);
    var dayOfYear := day - YearStart(y);
    assert y / 400 == 0;
    MonthOfDay(dayOfYear);
    m := (5 * dayOfYear + 2) / 153;
    d := dayOfYear - MonthStart(m);
    SameCivil(era, day, y, dayOfYear);
  }

  lemma {:induction false} SameCivil(era: int, day: int, y: int, dayOfYear: int)
    requires 0 <= day < 146097 && y == SourceYear(day) && 0 <= y < 400
    requires dayOfYear == day - (365 * y + y / 4 - y / 100) && 0 <= dayOfYear <= 365
    ensures var m := (5 * dayOfYear + 2) / 153;
            CivilOfEra(era, day) == FromMarch(400 * era + y, m, dayOfYear - MonthStart(m))
  {
    var gathered := day - TruncDiv(day, 1460) + TruncDiv(day, 36524) - TruncDiv(day, 146096);
    assert gathered >= 0 && TruncDiv(gathered, 365) == y;
    assert TruncDiv(y, 4) == y / 4 && TruncDiv(y, 100) == y / 100;
  }

  lemma {:induction false} SameLength(era: int, y: int, m: int)
    requires 0 <= m <= 11
    ensures MonthLength(400 * era + y, m) == MonthLength(y, m)
  {
    EraShift(era, y);
    EraShift(era, y + 1);
    YearsFollow(y);
    YearsFollow(400 * era + y);
  }

  lemma {:induction false} PositionOfEra(era: int, day: int) returns (y: int, m: int, d: int)
    requires 0 <= day < 146097
    ensures CivilOfEra(era, day) == FromMarch(y, m, d)
    ensures 146097 * era + day == YearStart(y) + MonthStart(m) + d
    ensures 0 <= m <= 11 && 0 <= d < MonthLength(y, m)
  {
    var yearOfEra: int;
    yearOfEra, m, d := PositionInEra(era, day);
    SameLength(era, yearOfEra, m);
    EraShift(era, yearOfEra);
    y := 400 * era + yearOfEra;
  }

  /** What `civil_from_days` computes: the month and day of the March year that contains the day. */
  lemma {:induction false} CivilPosition(days: int) returns (y: int, m: int, d: int)
    ensures CivilFromDays(days) == FromMarch(y, m, d)
    ensures days + 719468 == YearStart(y) + MonthStart(m) + d
    ensures 0 <= m <= 11 && 0 <= d < MonthLength(y, m)
  {
    var era := (days + 719468) / 146097;
    y, m, d := PositionOfEra(era, days + 719468 - era * 146097);
  }

  lemma {:induction false} YearWithinEra(y: int) returns (era: int, yearOfEra: int)
    ensures era == y / 400 && yearOfEra == y - era * 400 && 0 <= yearOfEra < 400
    ensures era * 146097 + yearOfEra * 365 + TruncDiv(yearOfEra, 4) - TruncDiv(yearOfEra, 100) == YearStart(y)
  {
    era, yearOfEra := y / 400, y % 400;
    EraShift(era, yearOfEra);
    assert yearOfEra / 400 == 0;
  }

  lemma {:induction false} DaysPosition(y: int, m: int, d: int)
    requires 0 <= m <= 11 && 0 <= d < 31
    ensures DaysFromCivil(FromMarch(y, m, d)) == Some(YearStart(y) + MonthStart(m) + d - 719468)
  {
    var era, yearOfEra := YearWithinEra(y);
    assert TruncDiv(153 * m + 2, 5) == MonthStart(m);
  }

  // ----- the calendar laws -----

  /** Every day number is a real calendar date, and converting that date back gives the number. */
  lemma {:induction false} CivilIsInverted(days: int)
    ensures IsDate(CivilFromDays(days))
    ensures DaysFromCivil(CivilFromDays(days)) == Some(days)
  {
    var y, m, d := CivilPosition(days);
    MonthsFollow(y, m);
    DaysPosition(y, m, d);
  }

  /** A date as a position in its March year. */
  lemma {:induction false} DatePosition(date: Date) returns (y: int, m: int, d: int)
    requires 1 <= date.month <= 12 && 1 <= date.day <= 31
    ensures date == FromMarch(y, m, d) && 0 <= m <= 11 && 0 <= d < 31
    ensures IsDate(date) <==> d < MonthLength(y, m)
    ensures DaysFromCivil(date) == Some(YearStart(y) + MonthStart(m) + d - 719468)
  {
    y := if date.month <= 2 then date.year - 1 else date.year;
    m := if date.month > 2 then date.month - 3 else date.month + 9;
    d := date.day - 1;
    MonthsFollow(y, m);
    DaysPosition(y, m, d);
  }

  lemma {:induction false} MonthsGrow(m: int, n: int)
    requires 0 <= m < n <= 11
    ensures MonthStart(m) + MonthLength(0, m) <= MonthStart(n)
    ensures m < 11 ==> forall y :: MonthLength(y, m) == MonthLength(0, m)
  {
  }

  /** Two positions of real dates that give the same day number are the same. */
  lemma {:induction false} PositionsAreUnique(y: int, m: int, d: int, y': int, m': int, d': int)
    requires 0 <= m <= 11 && 0 <= d < MonthLength(y, m) && 0 <= m' <= 11 && 0 <= d' < MonthLength(y', m')
    requires YearStart(y) + MonthStart(m) + d == YearStart(y') + MonthStart(m') + d'
    ensures y == y' && m == m' && d == d'
  {
    WithinYear(y, m, d);
    WithinYear(y', m', d');
    YearsFollow(y);
    YearsFollow(y');
    if y < y' && y + 1 != y' { YearsGrow(y + 1, y'); }
    if y' < y && y' + 1 != y { YearsGrow(y' + 1, y); }
    if m < m' { MonthsGrow(m, m'); }
    if m' < m { MonthsGrow(m', m); }
  }

  lemma {:induction false} WithinYear(y: int, m: int, d: int)
    requires 0 <= m <= 11 && 0 <= d < MonthLength(y, m)
    ensures 0 <= MonthStart(m) + d < YearLength(y)
  {
    MonthsFollow(y, m);
    if m < 11 { MonthsGrow(m, 11); }
  }

  /** `days_from_civil` accepts any month 1-12 and day 1-31; converting back returns the same date
      exactly when the date exists (31 February, say, comes back as 2 or 3 March). */
  lemma {:induction false} DaysAreInvertedOnRealDates(date: Date)
    ensures DaysFromCivil(date).Some? <==> 1 <= date.month <= 12 && 1 <= date.day <= 31
    ensures DaysFromCivil(date).Some? ==> (CivilFromDays(DaysFromCivil(date).value) == date <==> IsDate(date))
  {
    if DaysFromCivil(date).Some? {
      var days := DaysFromCivil(date).value;
      CivilIsInverted(days);
      if IsDate(date) {
        var y, m, d := DatePosition(date);
        var y', m', d' := CivilPosition(days);
        PositionsAreUnique(y, m, d, y', m', d');
      }
    }
  }

  lemma {:induction false} NextPosition(y: int, m: int, d: int)
    requires 0 <= m <= 11 && 0 <= d < MonthLength(y, m)
    ensures IsDate(FromMarch(y, m, d))
    ensures var next := NextDate(FromMarch(y, m, d));
            IsDate(next) && DaysFromCivil(next) == Some(YearStart(y) + MonthStart(m) + d + 1 - 719468)
  {
    MonthsFollow(y, m);
    if d + 1 < MonthLength(y, m) {
      DaysPosition(y, m, d + 1);
    } else if m < 11 {
      MonthsFollow(y, m + 1);
      DaysPosition(y, m + 1, 0);
    } else {
      MonthsFollow(y + 1, 0);
      YearsFollow(y);
      DaysPosition(y + 1, 0, 0);
    }
  }

  lemma {:induction false} FoundByDays(date: Date, days: int)
    requires IsDate(date) && DaysFromCivil(date) == Some(days)
    ensures CivilFromDays(days) == date
  {
    DaysAreInvertedOnRealDates(date);
  }

  /** Consecutive day numbers are consecutive dates. */
  lemma {:induction false} DaysAreConsecutive(days: int)
    ensures IsDate(CivilFromDays(days))
    ensures CivilFromDays(days + 1) == NextDate(CivilFromDays(days))
  {
    var y, m, d := CivilPosition(days);
    var date := FromMarch(y, m, d);
    NextPosition(y, m, d);
    FoundByDays(NextDate(date), days + 1);
  }

  /** Day 0 is 1 January 1970. */
  lemma {:induction false} EpochIsDayZero()
    ensures CivilFromDays(0) == Date(1970, 1, 1)
  {
    DaysPosition(1969, 10, 0);
    FoundByDays(Date(1970, 1, 1), 0);
  }

  /** The day number tells years apart, real date or not. */
  lemma {:induction false} OtherYearOtherDays(date: Date, year: int)
    requires 1 <= date.month <= 12 && 1 <= date.day <= 31 && year != date.year
    ensures DaysFromCivil(date.(year := year)) != DaysFromCivil(date)
  {
    var y, m, d := DatePosition(date);
    var y', m', d' := DatePosition(date.(year := year));
    if y < y' { YearsGrow(y, y'); } else { YearsGrow(y', y); }
  }

  lemma {:induction false} YearsAfter(days: int, year: int)
    requires YearStart(year) <= days + 719468
    ensures CivilFromDays(days).year >= year
  {
    var y, m, d := CivilPosition(days);
    if y < year {
      WithinYear(y, m, d);
      YearsFollow(y);
      if y + 1 < year { YearsGrow(y + 1, year); }
    }
  }
}
