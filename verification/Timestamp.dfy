/**
 RFC 3339 timestamps: the printer of src/event_store/mod.rs and the parser of
 src/security_summary/date.rs. Sections 5.6 and 5.7 of RFC 3339 give the format.
 Casts wrap as `as` does; arithmetic that could overflow wraps as in a release build.
 */
module Timestamp {
  import opened Wrappers
  import opened Text
  import opened Calendar

  const I32_MAX: int := 0x7FFF_FFFF
  const I64_MAX: int := 0x7FFF_FFFF_FFFF_FFFF

  function WrapI64(n: int): int { (n + 0x8000_0000_0000_0000) % 0x1_0000_0000_0000_0000 - 0x8000_0000_0000_0000 }

  function WrapI32(n: int): int { (n + 0x8000_0000) % 0x1_0000_0000 - 0x8000_0000 }

  predicate InI64(n: int) { -I64_MAX - 1 <= n <= I64_MAX }

  // ----- time zones -----

  datatype Zone = Zone(seconds: int, suffix: string)

  function ParseTimezoneOffset(timezone: string): Option<Zone> {
    var zone := Trim(timezone);
    if zone == "UTC" || zone == "Etc/UTC" || zone == "Z" then Some(Zone(0, "Z"))
    else if zone == "Africa/Nairobi" then Some(Zone(3 * 3600, "+03:00"))
    else
      var seconds := OffsetSeconds(zone);
      if seconds.Some? then Some(Zone(seconds.value, zone)) else None
  }

  /** `parse_fixed_offset` and `parse_offset_seconds` read an offset alike. */
  function OffsetSeconds(offset: string): Option<int> {
    if |offset| != 6 || (offset[0] != '+' && offset[0] != '-') || offset[3] != ':' then None
    else
      var hours := ParseI32(offset[1..3]);
      var minutes := ParseI32(offset[4..6]);
      if hours.None? || minutes.None? || hours.value > 23 || minutes.value > 59 then None
      else
        var magnitude := hours.value * 3600 + minutes.value * 60;
        Some(if offset[0] == '+' then magnitude else -magnitude)
  }

  function ZoneOf(timezone: string): Zone {
    var zone := ParseTimezoneOffset(timezone);
    if zone.Some? then zone.value else Zone(0, "Z")
  }

  // ----- printing -----

  function DateText(d: Date): string {
    PadSigned(d.year, 4) + "-" + (PadSigned(d.month, 2) + "-" + PadSigned(d.day, 2))
  }

  function TimeText(hour: nat, minute: nat, second: nat): string {
    Pad(hour, 2) + ":" + (Pad(minute, 2) + ":" + Pad(second, 2))
  }

  function TimeOfDay(secondsOfDay: nat): string {
    TimeText(secondsOfDay / 3600, secondsOfDay % 3600 / 60, secondsOfDay % 60)
  }

  function LocalSeconds(unixSeconds: nat, timezone: string): int {
    WrapI64(WrapI64(unixSeconds) + ZoneOf(timezone).seconds)
  }

  function LocalDate(unixSeconds: nat, timezone: string): Date {
    CivilFromDaysTruncating(LocalSeconds(unixSeconds, timezone) / 86400)
  }

  function UnixSecondsToRfc3339(unixSeconds: nat, timezone: string): string {
    var date := LocalDate(unixSeconds, timezone);
    DateText(date.(year := WrapI32(date.year)))
    + "T" + (TimeOfDay(LocalSeconds(unixSeconds, timezone) % 86400) + ZoneOf(timezone).suffix)
  }

  // ----- parsing -----

  function Rfc3339ToUnixSeconds(value: string): Option<nat> {
    var text := Trim(value);
    var t := Find(text, 'T');
    if t == |text| then None else UtcSeconds(ParseDate(text[..t]), SplitOffset(text[t + 1..]))
  }

  function UtcSeconds(days: Option<int>, clock: Option<(string, int)>): Option<nat> {
    if days.None? || clock.None? then None
    else
      var seconds := ParseTime(clock.value.0);
      if seconds.None? then None else Utc(days.value, seconds.value, clock.value.1)
  }

  /** The checked arithmetic: a step that leaves 64 bits, or a negative result, is no timestamp. */
  function Utc(days: int, seconds: nat, offset: int): Option<nat> {
    var local := days * 86400 + seconds;
    if InI64(days * 86400) && InI64(local) && InI64(local - offset) && local - offset >= 0 then Some(local - offset)
    else None
  }

  function ParseDate(text: string): Option<int> {
    var parts := Split(text, '-');
    if |parts| < 3 then None
    else
      var year, month, day := ParseI32(parts[0]), ParseU32(parts[1]), ParseU32(parts[2]);
      if year.None? || month.None? || day.None? then None
      else DaysFromCivil(Date(year.value, month.value, day.value))
  }

  /** The time, and the offset in seconds: `Z`, or what follows the last sign. */
  function SplitOffset(text: string): Option<(string, int)> {
    if text != [] && text[|text| - 1] == 'Z' then Some((text[..|text| - 1], 0))
    else
      var sign := LastSign(text);
      if sign.None? then None
      else
        var offset := OffsetSeconds(text[sign.value..]);
        if offset.None? then None else Some((text[..sign.value], offset.value))
  }

  predicate IsSign(c: char) { c == '+' || c == '-' }

  function LastSign(text: string): (r: Option<nat>)
    ensures r.Some? ==> r.value < |text| && IsSign(text[r.value])
  {
    if text == [] then None
    else if IsSign(text[|text| - 1]) then Some(|text| - 1)
    else LastSign(text[..|text| - 1])
  }

  function ParseTime(text: string): Option<nat> {
    var parts := Split(text, ':');
    if |parts| < 3 then None else TimeOf(ParseU32(parts[0]), ParseU32(parts[1]), ParseU32(parts[2]))
  }

  function TimeOf(hour: Option<nat>, minute: Option<nat>, second: Option<nat>): Option<nat> {
    if hour.None? || minute.None? || second.None? then None
    else Some((hour.value * 3600 + minute.value * 60 + second.value) % 0x1_0000_0000)
  }

  // ----- the parts read back -----

  lemma {:induction false} ClockAddsUp(secondsOfDay: nat)
    requires secondsOfDay < 86400
    ensures secondsOfDay / 3600 < 24 && secondsOfDay % 3600 / 60 < 60
    ensures secondsOfDay / 3600 * 3600 + secondsOfDay % 3600 / 60 * 60 + secondsOfDay % 60 == secondsOfDay
  {
    var ofHour := secondsOfDay % 3600;
    assert secondsOfDay == secondsOfDay / 3600 * 3600 + ofHour;
    assert ofHour % 60 == secondsOfDay % 60;
  }

  lemma {:induction false} ThreeNumbers(x: nat, y: nat, z: nat, width: nat, c: char) returns (parts: seq<string>)
    requires x < 0x1_0000_0000 && y < 0x1_0000_0000 && z < 0x1_0000_0000 && !IsDigit(c)
    ensures parts == Split(Pad(x, width) + [c] + (Pad(y, 2) + [c] + Pad(z, 2)), c) && |parts| == 3
    ensures ParseU32(parts[0]) == Some(x) && ParseU32(parts[1]) == Some(y) && ParseU32(parts[2]) == Some(z)
    ensures parts[0] == Pad(x, width)
  {
    SplitThree(Pad(x, width), Pad(y, 2), Pad(z, 2), c);
    ParsePadded(x, width);
    ParsePadded(y, 2);
    ParsePadded(z, 2);
    parts := [Pad(x, width), Pad(y, 2), Pad(z, 2)];
  }

  lemma {:induction false} TimeOfNumbers(hour: nat, minute: nat, second: nat)
    requires hour < 24 && minute < 60 && second < 60
    ensures TimeOf(Some(hour), Some(minute), Some(second)) == Some(hour * 3600 + minute * 60 + second)
  {
  }

  lemma {:induction false} TimeOfParts(text: string, parts: seq<string>, hour: nat, minute: nat, second: nat)
    requires parts == Split(text, ':') && |parts| == 3 && hour < 24 && minute < 60 && second < 60
    requires ParseU32(parts[0]) == Some(hour) && ParseU32(parts[1]) == Some(minute)
    requires ParseU32(parts[2]) == Some(second)
    ensures ParseTime(text) == Some(hour * 3600 + minute * 60 + second)
  {
    TimeOfNumbers(hour, minute, second);
  }

  lemma {:induction false} ClockReadsBack(hour: nat, minute: nat, second: nat) returns (seconds: nat)
    requires hour < 24 && minute < 60 && second < 60
    ensures seconds == hour * 3600 + minute * 60 + second && ParseTime(TimeText(hour, minute, second)) == Some(seconds)
  {
    var parts := ThreeNumbers(hour, minute, second, 2, ':');
    seconds := hour * 3600 + minute * 60 + second;
    TimeOfParts(TimeText(hour, minute, second), parts, hour, minute, second);
  }

  /** A printed date reads back as its day number, unless the year is negative. */
  lemma {:induction false} DateReadsBack(d: Date) returns (days: Option<int>)
    requires 1 <= d.month <= 12 && 1 <= d.day <= 31 && d.year <= I32_MAX
    ensures days == (if d.year >= 0 then DaysFromCivil(d) else None) && ParseDate(DateText(d)) == days
  {
    days := ParseDate(DateText(d));
    if d.year >= 0 {
      var parts := ThreeNumbers(d.year, d.month, d.day, 4, '-');
      ParsePadded(d.year, 4);
    } else {
      var text := DateText(d);
      assert text == [] + ['-'] + text[1..];
      SplitCons([], '-', text[1..]);
    }
  }

  // ----- the offset reads back -----

  /** Neither number of a fixed offset is written with a sign of its own. */
  predicate PlainOffset(offset: string) {
    |offset| == 6 && !IsSign(offset[1]) && !IsSign(offset[4])
  }

  /** What a caller can check of a time zone name: it is no fixed offset with signs inside. */
  predicate PlainZone(timezone: string) {
    var zone := Trim(timezone);
    zone == "Africa/Nairobi" || OffsetSeconds(zone).None? || PlainOffset(zone)
  }

  lemma {:induction false} LastSignAt(a: string, c: char, b: string)
    requires IsSign(c) && forall i :: 0 <= i < |b| ==> !IsSign(b[i])
    ensures LastSign(a + [c] + b) == Some(|a|)
  {
    var s := a + [c] + b;
    if b != [] {
      assert s[..|s| - 1] == a + [c] + b[..|b| - 1];
      LastSignAt(a, c, b[..|b| - 1]);
    }
  }

  lemma {:induction false} OffsetShape(offset: string)
    requires OffsetSeconds(offset).Some?
    ensures |offset| == 6 && IsSign(offset[0]) && IsDigit(offset[2]) && offset[3] == ':' && IsDigit(offset[5])
    ensures IsSign(offset[1]) || IsDigit(offset[1])
    ensures IsSign(offset[4]) || IsDigit(offset[4])
    ensures -86340 <= OffsetSeconds(offset).value <= 86340
  {
    TwoCharacters(offset[1..3]);
    TwoCharacters(offset[4..6]);
  }

  lemma {:induction false} TwoCharacters(s: string)
    requires |s| == 2 && ParseI32(s).Some?
    ensures (IsSign(s[0]) || IsDigit(s[0])) && IsDigit(s[1]) && ParseI32(s).value >= -9
  {
    if IsSign(s[0]) {
      assert s[1..] == [s[1]];
      assert Value([s[1]]) == DigitValue(s[1]);
    }
  }

  lemma {:induction false} OffsetReadsBack(time: string, offset: string)
    requires OffsetSeconds(offset).Some?
    ensures SplitOffset(time + offset)
         == if PlainOffset(offset) then Some((time, OffsetSeconds(offset).value)) else None
  {
    OffsetShape(offset);
    var text := time + offset;
    if PlainOffset(offset) {
      assert text == time + [offset[0]] + offset[1..];
      LastSignAt(time, offset[0], offset[1..]);
      assert text[|time|..] == offset && text[..|time|] == time;
    } else if IsSign(offset[4]) {
      assert text == (time + offset[..4]) + [offset[4]] + offset[5..];
      LastSignAt(time + offset[..4], offset[4], offset[5..]);
    } else {
      assert text == (time + offset[..1]) + [offset[1]] + offset[2..];
      LastSignAt(time + offset[..1], offset[1], offset[2..]);
    }
  }

  lemma {:induction false} TwoDigits(a: char, b: char)
    requires IsDigit(a) && IsDigit(b)
    ensures ParseI32([a, b]) == Some(10 * DigitValue(a) + DigitValue(b))
  {
    assert [a, b][..1] == [a] && [a][..0] == [];
    assert Value([a]) == DigitValue(a);
  }

  lemma {:induction false} NairobiOffset()
    ensures OffsetSeconds("+03:00") == Some(3 * 3600) && PlainOffset("+03:00")
  {
    TwoDigits('0', '3');
    TwoDigits('0', '0');
    assert "+03:00"[1..3] == ['0', '3'] && "+03:00"[4..6] == ['0', '0'];
  }

  lemma {:induction false} ZoneReadsBack(time: string, timezone: string) returns (offset: Option<int>)
    ensures offset == if PlainZone(timezone) then Some(ZoneOf(timezone).seconds) else None
    ensures SplitOffset(time + ZoneOf(timezone).suffix) == if offset.Some? then Some((time, offset.value)) else None
    ensures -86340 <= ZoneOf(timezone).seconds <= 86340
    ensures ZoneOf(timezone).suffix != [] && !IsSpace(ZoneOf(timezone).suffix[|ZoneOf(timezone).suffix| - 1])
  {
    var zone, name := ZoneOf(timezone), Trim(timezone);
    NairobiOffset();
    if zone.suffix == "Z" {
      assert (time + "Z")[..|time|] == time;
      assert OffsetSeconds(name).None?;
    } else {
      OffsetShape(zone.suffix);
      OffsetReadsBack(time, zone.suffix);
    }
    offset := if PlainZone(timezone) then Some(zone.seconds) else None;
  }

  // ----- the round trip -----

  lemma {:induction false} ReadsParts(date: string, rest: string)
    requires 'T' !in date && date != [] && !IsSpace(date[0]) && rest != [] && !IsSpace(rest[|rest| - 1])
    ensures Rfc3339ToUnixSeconds(date + "T" + rest) == UtcSeconds(ParseDate(date), SplitOffset(rest))
  {
    var text := date + "T" + rest;
    NothingToTrim(text);
    FindAfter(date, 'T', rest);
    assert text[..|date|] == date && text[|date| + 1..] == rest;
  }

  lemma {:induction false} DateShape(d: Date)
    ensures 'T' !in DateText(d) && DateText(d) != [] && !IsSpace(DateText(d)[0])
  {
  }

  /** What reading a timestamp computes from what its parts read as. */
  lemma {:induction false} ReadBack(
    date: string, time: string, suffix: string, days: Option<int>, seconds: nat, offset: Option<int>)
    returns (read: Option<nat>)
    requires 'T' !in date && date != [] && !IsSpace(date[0]) && suffix != [] && !IsSpace(suffix[|suffix| - 1])
    requires ParseDate(date) == days && ParseTime(time) == Some(seconds)
    requires SplitOffset(time + suffix) == if offset.Some? then Some((time, offset.value)) else None
    ensures read == Rfc3339ToUnixSeconds(date + "T" + (time + suffix))
    ensures read == if days.Some? && offset.Some? then Utc(days.value, seconds, offset.value) else None
  {
    ReadsParts(date, time + suffix);
    read := if days.Some? && offset.Some? then Utc(days.value, seconds, offset.value) else None;
  }

  /** The parts of a printed timestamp and what each of them reads as. */
  lemma {:induction false} PrintedParts(d: Date, hour: nat, minute: nat, second: nat, timezone: string)
    returns (date: string, time: string, suffix: string, days: Option<int>, seconds: nat, offset: Option<int>)
    requires 1 <= d.month <= 12 && 1 <= d.day <= 31 && d.year <= I32_MAX && hour < 24 && minute < 60 && second < 60
    ensures date == DateText(d) && time == TimeText(hour, minute, second) && suffix == ZoneOf(timezone).suffix
    ensures 'T' !in date && date != [] && !IsSpace(date[0]) && suffix != [] && !IsSpace(suffix[|suffix| - 1])
    ensures ParseDate(date) == days && ParseTime(time) == Some(seconds)
    ensures SplitOffset(time + suffix) == if offset.Some? then Some((time, offset.value)) else None
    ensures days == (if d.year >= 0 then DaysFromCivil(d) else None) && seconds == hour * 3600 + minute * 60 + second
    ensures offset == if PlainZone(timezone) then Some(ZoneOf(timezone).seconds) else None
  {
    date, time, suffix := DateText(d), TimeText(hour, minute, second), ZoneOf(timezone).suffix;
    DateShape(d);
    days := DateReadsBack(d);
    seconds := ClockReadsBack(hour, minute, second);
    offset := ZoneReadsBack(time, timezone);
  }

  lemma {:induction false} PrintedReadsBack(d: Date, hour: nat, minute: nat, second: nat, timezone: string)
    returns (read: Option<nat>, seconds: nat, offset: Option<int>)
    requires 1 <= d.month <= 12 && 1 <= d.day <= 31 && d.year <= I32_MAX && hour < 24 && minute < 60 && second < 60
    ensures read == Rfc3339ToUnixSeconds(DateText(d) + "T" + (TimeText(hour, minute, second) + ZoneOf(timezone).suffix))
    ensures seconds == hour * 3600 + minute * 60 + second
    ensures offset == if PlainZone(timezone) then Some(ZoneOf(timezone).seconds) else None
    ensures read == if d.year >= 0 && offset.Some? then Utc(DaysFromCivil(d).value, seconds, offset.value) else None
  {
    var date, time, suffix, days, s, o := PrintedParts(d, hour, minute, second, timezone);
    seconds, offset := s, o;
    read := ReadBack(date, time, suffix, days, seconds, offset);
  }

  lemma {:induction false} NoWrap(n: int)
    requires InI64(n)
    ensures WrapI64(n) == n
  {
  }

  /** The local second is the second shifted by the zone's offset, up to 64-bit wrap-around. */
  lemma {:induction false} LocalWraps(unixSeconds: nat, timezone: string) returns (turns: int)
    ensures LocalSeconds(unixSeconds, timezone)
      == unixSeconds + ZoneOf(timezone).seconds - 18446744073709551616 * turns
    ensures -9223372036854775808 <= LocalSeconds(unixSeconds, timezone) <= 9223372036854775807
  {
    var seconds := ZoneOf(timezone).seconds;
    turns := (unixSeconds + 9223372036854775808) / 18446744073709551616
      + (WrapI64(unixSeconds) + seconds + 9223372036854775808) / 18446744073709551616;
  }

  lemma {:induction false} LocalFacts(unixSeconds: nat, timezone: string) returns (local: int)
    requires unixSeconds + 86400 <= I64_MAX
    ensures local == LocalSeconds(unixSeconds, timezone) == unixSeconds + ZoneOf(timezone).seconds
    ensures local >= -86400 && LocalDate(unixSeconds, timezone) == CivilFromDays(local / 86400)
  {
    var offset := ZoneReadsBack([], timezone);
    NoWrap(unixSeconds);
    NoWrap(unixSeconds + ZoneOf(timezone).seconds);
    local := unixSeconds + ZoneOf(timezone).seconds;
    CivilVersionsAgree(local / 86400);
  }

  lemma {:induction false} UtcOfDays(unixSeconds: nat, offset: int, days: int)
    requires unixSeconds + 86400 <= I64_MAX && -86400 <= offset <= 86400
    ensures var local := unixSeconds + offset;
            Utc(days, local % 86400, offset) == Some(unixSeconds) <==> days == local / 86400
  {
  }

  lemma {:induction false} WrappedYear(d: Date)
    requires 1 <= d.month <= 12 && 1 <= d.day <= 31 && d.year >= 0
    ensures WrapI32(d.year) <= I32_MAX
    ensures d.year <= I32_MAX ==> WrapI32(d.year) == d.year
    ensures d.year > I32_MAX ==> DaysFromCivil(d.(year := WrapI32(d.year))) != DaysFromCivil(d)
  {
    if d.year > I32_MAX { OtherYearOtherDays(d, WrapI32(d.year)); }
  }

  /** The date that is printed, its day number, and whether its year survived the cast. */
  lemma {:induction false} PrintedDate(unixSeconds: nat, timezone: string) returns (d: Date, days: int, fits: bool)
    requires unixSeconds + 86400 <= I64_MAX
    ensures d == LocalDate(unixSeconds, timezone).(year := WrapI32(LocalDate(unixSeconds, timezone).year))
    ensures fits == (LocalDate(unixSeconds, timezone).year <= I32_MAX)
    ensures 1 <= d.month <= 12 && 1 <= d.day <= 31 && d.year <= I32_MAX && (fits ==> d.year >= 0)
    ensures DaysFromCivil(d) == Some(days) && (days == LocalSeconds(unixSeconds, timezone) / 86400 <==> fits)
  {
    var date := LocalDate(unixSeconds, timezone);
    var local := LocalFacts(unixSeconds, timezone);
    CivilIsInverted(local / 86400);
    YearsAfter(local / 86400, 1969);
    WrappedYear(date);
    d := date.(year := WrapI32(date.year));
    days := DaysFromCivil(d).value;
    fits := date.year <= I32_MAX;
  }

  lemma {:induction false} PrintedText(d: Date, days: int, fits: bool, unixSeconds: nat, local: int, timezone: string)
    returns (read: Option<nat>)
    requires unixSeconds + 86400 <= I64_MAX && local == unixSeconds + ZoneOf(timezone).seconds
    requires 1 <= d.month <= 12 && 1 <= d.day <= 31 && d.year <= I32_MAX && (fits ==> d.year >= 0)
    requires DaysFromCivil(d) == Some(days) && (days == local / 86400 <==> fits)
    ensures read == Rfc3339ToUnixSeconds(DateText(d) + "T" + (TimeOfDay(local % 86400) + ZoneOf(timezone).suffix))
    ensures read == Some(unixSeconds) <==> PlainZone(timezone) && fits
  {
    var offset := ZoneReadsBack([], timezone);
    var secondsOfDay := local % 86400;
    var hour, minute, second := secondsOfDay / 3600, secondsOfDay % 3600 / 60, secondsOfDay % 60;
    ClockAddsUp(secondsOfDay);
    var seconds: nat;
    read, seconds, offset := PrintedReadsBack(d, hour, minute, second, timezone);
    assert seconds == secondsOfDay && TimeOfDay(secondsOfDay) == TimeText(hour, minute, second);
    UtcOfDays(unixSeconds, ZoneOf(timezone).seconds, days);
  }

  /** Round trip. A timestamp printed for any time zone name and any second the clock arithmetic can
      hold reads back as that second exactly when the zone is no offset with signs inside ("++5:30",
      which configuration validation accepts) and the local year fits the 32 bits it is cast to. */
  lemma {:induction false} RoundTrip(unixSeconds: nat, timezone: string)
    requires unixSeconds + 86400 <= I64_MAX
    ensures Rfc3339ToUnixSeconds(UnixSecondsToRfc3339(unixSeconds, timezone)) == Some(unixSeconds)
       <==> PlainZone(timezone) && LocalDate(unixSeconds, timezone).year <= I32_MAX
  {
    var d, days, fits := PrintedDate(unixSeconds, timezone);
    var local := LocalFacts(unixSeconds, timezone);
    var read := PrintedText(d, days, fits, unixSeconds, local, timezone);
  }
}
