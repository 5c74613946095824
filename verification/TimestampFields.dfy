/**
 What printed timestamps show and what time zones are worth: the fields of a timestamp as numbers, and
 fixed offsets as shifts of the clock.
 */
module TimestampFields {
  import opened Wrappers
  import opened Text
  import opened Calendar
  import opened Timestamp

  // ----- what a fixed offset is worth -----

  function OffsetText(sign: char, hours: nat, minutes: nat): string {
    [sign] + Pad(hours, 2) + ":" + Pad(minutes, 2)
  }

  function Worth(sign: char, hours: nat, minutes: nat): int {
    if sign == '-' then -(3600 * hours + 60 * minutes) else 3600 * hours + 60 * minutes
  }

  lemma {:induction false} TwoPlaces(n: nat) returns (text: string)
    requires n < 100
    ensures text == Pad(n, 2) && |text| == 2 && AllDigits(text) && ParseI32(text) == Some(n)
  {
    text := Pad(n, 2);
    ParsePadded(n, 2);
    if n >= 10 { assert Decimal(n / 10) == [DigitOf(n / 10)]; }
  }

  lemma {:induction false} OffsetParts(sign: char, a: string, b: string) returns (text: string)
    requires |a| == |b| == 2 && AllDigits(a) && AllDigits(b) && (sign == '+' || sign == '-')
    ensures text == [sign] + a + ":" + b && |text| == 6 && text[0] == sign && text[3] == ':'
    ensures text[1..3] == a && text[4..6] == b && PlainOffset(text)
    ensures 'T' !in text && forall i :: 0 <= i < |text| ==> !IsSpace(text[i])
  {
    text := [sign] + a + ":" + b;
    assert text == [sign, a[0], a[1], ':', b[0], b[1]];
  }

  lemma {:induction false} OffsetOfNumbers(text: string, hours: nat, minutes: nat)
    requires |text| == 6 && (text[0] == '+' || text[0] == '-') && text[3] == ':'
    requires ParseI32(text[1..3]) == Some(hours) && ParseI32(text[4..6]) == Some(minutes)
    ensures OffsetSeconds(text)
         == if hours <= 23 && minutes <= 59 then Some(Worth(text[0], hours, minutes)) else None
  {
  }

  /** An offset of two plain two-digit numbers is accepted exactly up to 23 hours and 59 minutes, and is
      worth so many seconds. */
  lemma {:induction false} OffsetIsWorth(sign: char, hours: nat, minutes: nat) returns (text: string)
    requires (sign == '+' || sign == '-') && hours < 100 && minutes < 100
    ensures text == OffsetText(sign, hours, minutes) && text != "" && PlainOffset(text)
    ensures 'T' !in text && forall i :: 0 <= i < |text| ==> !IsSpace(text[i])
    ensures OffsetSeconds(text)
         == if hours <= 23 && minutes <= 59 then Some(Worth(sign, hours, minutes)) else None
  {
    var a := TwoPlaces(hours);
    var b := TwoPlaces(minutes);
    text := OffsetParts(sign, a, b);
    OffsetOfNumbers(text, hours, minutes);
  }

  // ----- what a zone name stands for -----

  predicate NamesUtc(name: string) { name in {"UTC", "Etc/UTC", "Z"} }

  /** A zone name, without the spaces around it, stands for UTC, for Nairobi or for a fixed offset; any
      other stands for UTC too. */
  lemma {:induction false} ZoneStandsFor(timezone: string) returns (name: string)
    ensures name == Trim(timezone)
    ensures ParseTimezoneOffset(timezone).Some?
       <==> NamesUtc(name) || name == "Africa/Nairobi" || OffsetSeconds(name).Some?
    ensures NamesUtc(name) ==> ZoneOf(timezone) == Zone(0, "Z")
    ensures name == "Africa/Nairobi" ==> ZoneOf(timezone) == Zone(10800, "+03:00")
    ensures forall sign, hours: nat, minutes: nat ::
      (sign == '+' || sign == '-') && hours <= 23 && minutes <= 59 && name == OffsetText(sign, hours, minutes) ==>
        ZoneOf(timezone) == Zone(Worth(sign, hours, minutes), name)
    ensures !NamesUtc(name) && name != "Africa/Nairobi" && OffsetSeconds(name).None? ==>
      ZoneOf(timezone) == Zone(0, "Z")
  {
    name := Trim(timezone);
    forall sign, hours: nat, minutes: nat
      | (sign == '+' || sign == '-') && hours <= 23 && minutes <= 59 && name == OffsetText(sign, hours, minutes)
      ensures ZoneOf(timezone) == Zone(Worth(sign, hours, minutes), name)
    {
      var text := OffsetIsWorth(sign, hours, minutes);
      assert name[0] == sign;
    }
  }

  lemma {:induction false} UtcZone()
    ensures ZoneOf("UTC") == Zone(0, "Z") && PlainZone("UTC")
  {
    NothingToTrim("UTC");
  }

  // ----- the fields of a printed timestamp -----

  function FieldsText(year: int, month: nat, day: nat, hour: nat, minute: nat, second: nat): string {
    PadSigned(year, 4) + "-" + (Pad(month, 2) + "-" + Pad(day, 2))
    + "T" + (Pad(hour, 2) + ":" + (Pad(minute, 2) + ":" + Pad(second, 2)))
  }

  /** A printed timestamp shows the date and the time of day of the local second, and the zone's suffix. */
  lemma {:induction false} PrintedFields(unixSeconds: nat, timezone: string)
    returns (d: Date, hour: nat, minute: nat, second: nat, days: int)
    requires unixSeconds + 86400 <= I64_MAX
    ensures IsDate(d) && DaysFromCivil(d) == Some(days) && hour < 24 && minute < 60 && second < 60
    ensures 86400 * days + 3600 * hour + 60 * minute + second == unixSeconds + ZoneOf(timezone).seconds
    ensures UnixSecondsToRfc3339(unixSeconds, timezone)
         == FieldsText(WrapI32(d.year), d.month, d.day, hour, minute, second) + ZoneOf(timezone).suffix
  {
    var local := LocalFacts(unixSeconds, timezone);
    d, days := LocalDate(unixSeconds, timezone), local / 86400;
    CivilIsInverted(days);
    var secondsOfDay := local % 86400;
    ClockAddsUp(secondsOfDay);
    hour, minute, second := secondsOfDay / 3600, secondsOfDay % 3600 / 60, secondsOfDay % 60;
    FieldsAppend(d.(year := WrapI32(d.year)), hour, minute, second, ZoneOf(timezone).suffix);
  }

  lemma {:induction false} FieldsAppend(d: Date, hour: nat, minute: nat, second: nat, suffix: string)
    requires d.month >= 0 && d.day >= 0
    ensures DateText(d) + "T" + (TimeText(hour, minute, second) + suffix)
         == FieldsText(d.year, d.month, d.day, hour, minute, second) + suffix
  {
    var time := TimeText(hour, minute, second);
    assert DateText(d) + "T" + (time + suffix) == DateText(d) + "T" + time + suffix;
  }

  /** A fixed offset shifts what is shown: a timestamp printed in it shows the date and the time that UTC
      shows for the second that is so much later. */
  lemma {:induction false} OffsetShiftsPrinting(unixSeconds: nat, sign: char, hours: nat, minutes: nat)
    returns (zone: string, shown: string, shifted: nat)
    requires (sign == '+' || sign == '-') && hours <= 23 && minutes <= 59
    requires unixSeconds + 2 * 86400 <= I64_MAX && unixSeconds + Worth(sign, hours, minutes) >= 0
    ensures zone == OffsetText(sign, hours, minutes) && shifted == unixSeconds + Worth(sign, hours, minutes)
    ensures UnixSecondsToRfc3339(unixSeconds, zone) == shown + zone
    ensures UnixSecondsToRfc3339(shifted, "UTC") == shown + "Z"
  {
    zone, shifted := OffsetText(sign, hours, minutes), unixSeconds + Worth(sign, hours, minutes);
    var text := OffsetIsWorth(sign, hours, minutes);
    NothingToTrim(zone);
    var name := ZoneStandsFor(zone);
    UtcZone();
    var local, same := LocalBoth(unixSeconds, zone, shifted);
    var d := LocalDate(shifted, "UTC");
    CivilIsInverted(local / 86400);
    CivilVersionsAgree(local / 86400);
    shown := DateText(d.(year := WrapI32(d.year))) + "T" + TimeOfDay(local % 86400);
    ShownBefore(DateText(d.(year := WrapI32(d.year))), TimeOfDay(local % 86400), zone);
    ShownBefore(DateText(d.(year := WrapI32(d.year))), TimeOfDay(local % 86400), "Z");
  }

  lemma {:induction false} ShownBefore(date: string, time: string, suffix: string)
    ensures date + "T" + (time + suffix) == date + "T" + time + suffix
  {
  }

  lemma {:induction false} LocalBoth(unixSeconds: nat, zone: string, shifted: nat) returns (local: int, same: int)
    requires unixSeconds + 2 * 86400 <= I64_MAX && ZoneOf("UTC").seconds == 0
    requires shifted == unixSeconds + ZoneOf(zone).seconds
    ensures local == LocalSeconds(unixSeconds, zone) == LocalSeconds(shifted, "UTC") == shifted && same == local
    ensures LocalDate(unixSeconds, zone) == LocalDate(shifted, "UTC") == CivilFromDays(local / 86400)
  {
    var offset := ZoneReadsBack([], zone);
    local := LocalFacts(unixSeconds, zone);
    same := LocalFacts(shifted, "UTC");
  }

  // ----- reading -----

  lemma {:induction false} TrimBefore(body: string, suffix: string) returns (kept: string)
    requires suffix != "" && (forall i :: 0 <= i < |suffix| ==> !IsSpace(suffix[i]))
    ensures kept == TrimStart(body) && Trim(body + suffix) == kept + suffix
    decreases |body|
  {
    kept := TrimStart(body);
    if body != "" && IsSpace(body[0]) {
      assert (body + suffix)[1..] == body[1..] + suffix;
      var rest := TrimBefore(body[1..], suffix);
    } else {
      assert TrimStart(body + suffix) == body + suffix;
      assert (body + suffix)[|body + suffix| - 1] == suffix[|suffix| - 1];
    }
  }

  lemma {:induction false} FindBefore(body: string, c: char, suffix: string)
    requires c !in suffix
    ensures Find(body + suffix, c) == if Find(body, c) < |body| then Find(body, c) else |body + suffix|
    decreases |body|
  {
    if body == "" {
      assert body + suffix == suffix;
      NoneFound(suffix, c);
    } else {
      assert (body + suffix)[1..] == body[1..] + suffix;
      FindBefore(body[1..], c, suffix);
    }
  }

  lemma {:induction false} NoneFound(s: string, c: char)
    requires c !in s
    ensures Find(s, c) == |s|
  {
    if s != "" {
      assert s[0] in s;
      NoneFound(s[1..], c);
    }
  }

  lemma {:induction false} ZuluSplits(time: string)
    ensures SplitOffset(time + "Z") == Some((time, 0))
  {
    assert (time + "Z")[..|time|] == time;
  }

  /** What the date and the time before the suffix read as. */
  function PartsBefore(body: string): (Option<int>, Option<nat>) {
    var kept := TrimStart(body);
    var t := Find(kept, 'T');
    if t == |kept| then (None, None) else (ParseDate(kept[..t]), ParseTime(kept[t + 1..]))
  }

  /** Reading a text that ends in a suffix reads the parts before it, and the suffix as an offset. */
  lemma {:induction false} ReadsBefore(body: string, suffix: string, offset: int)
    returns (read: Option<nat>, days: Option<int>, seconds: Option<nat>)
    requires suffix != "" && (forall i :: 0 <= i < |suffix| ==> !IsSpace(suffix[i])) && 'T' !in suffix
    requires (suffix == "Z" && offset == 0) || (PlainOffset(suffix) && OffsetSeconds(suffix) == Some(offset))
    ensures (days, seconds) == PartsBefore(body) && read == Rfc3339ToUnixSeconds(body + suffix)
    ensures read == if days.Some? && seconds.Some? then Utc(days.value, seconds.value, offset) else None
  {
    var kept := TrimBefore(body, suffix);
    var t := Find(kept, 'T');
    FindBefore(kept, 'T', suffix);
    if t == |kept| {
      days, seconds := None, None;
      read := ReadsUndated(body + suffix, kept + suffix);
    } else {
      assert (kept + suffix)[..t] == kept[..t] && (kept + suffix)[t + 1..] == kept[t + 1..] + suffix;
      ReadsDated(body + suffix, kept + suffix, t);
      read, days, seconds := ReadsParted(kept[..t], kept[t + 1..], suffix, offset);
    }
  }

  lemma {:induction false} ReadsUndated(value: string, text: string) returns (read: Option<nat>)
    requires text == Trim(value) && Find(text, 'T') == |text|
    ensures read == Rfc3339ToUnixSeconds(value) == None
  {
    read := None;
  }

  lemma {:induction false} ReadsDated(value: string, text: string, t: nat)
    requires text == Trim(value) && t == Find(text, 'T') < |text|
    ensures Rfc3339ToUnixSeconds(value) == UtcSeconds(ParseDate(text[..t]), SplitOffset(text[t + 1..]))
  {
  }

  lemma {:induction false} ReadsParted(date: string, time: string, suffix: string, offset: int)
    returns (read: Option<nat>, days: Option<int>, seconds: Option<nat>)
    requires (suffix == "Z" && offset == 0) || (PlainOffset(suffix) && OffsetSeconds(suffix) == Some(offset))
    ensures days == ParseDate(date) && seconds == ParseTime(time)
    ensures read == UtcSeconds(ParseDate(date), SplitOffset(time + suffix))
    ensures read == if days.Some? && seconds.Some? then Utc(days.value, seconds.value, offset) else None
  {
    days, seconds := ParseDate(date), ParseTime(time);
    if suffix == "Z" { ZuluSplits(time); } else { OffsetReadsBack(time, suffix); }
    read := if days.Some? && seconds.Some? then Utc(days.value, seconds.value, offset) else None;
  }

  lemma {:induction false} ReadsBoth(body: string, suffix: string, offset: int)
    returns (zulu: Option<nat>, read: Option<nat>, days: Option<int>, seconds: Option<nat>)
    requires suffix != "" && (forall i :: 0 <= i < |suffix| ==> !IsSpace(suffix[i])) && 'T' !in suffix
    requires PlainOffset(suffix) && OffsetSeconds(suffix) == Some(offset)
    ensures zulu == Rfc3339ToUnixSeconds(body + "Z") && read == Rfc3339ToUnixSeconds(body + suffix)
    ensures zulu == if days.Some? && seconds.Some? then Utc(days.value, seconds.value, 0) else None
    ensures read == if days.Some? && seconds.Some? then Utc(days.value, seconds.value, offset) else None
  {
    zulu, days, seconds := ReadsBefore(body, "Z", 0);
    var same, again;
    read, same, again := ReadsBefore(body, suffix, offset);
  }

  ghost predicate Shifts(zulu: Option<nat>, read: Option<nat>, offset: int) {
    zulu.Some? ==> read == if 0 <= zulu.value - offset <= 9223372036854775807 then Some(zulu.value - offset) else None
  }

  lemma {:induction false} UtcShifts(
    zulu: Option<nat>, read: Option<nat>, days: Option<int>, seconds: Option<nat>, offset: int)
    requires zulu == if days.Some? && seconds.Some? then Utc(days.value, seconds.value, 0) else None
    requires read == if days.Some? && seconds.Some? then Utc(days.value, seconds.value, offset) else None
    ensures Shifts(zulu, read, offset)
  {
  }

  lemma {:induction false} SuffixShiftsReading(body: string, zone: string, offset: int)
    returns (zulu: Option<nat>, read: Option<nat>)
    requires zone != "" && (forall i :: 0 <= i < |zone| ==> !IsSpace(zone[i])) && 'T' !in zone
    requires PlainOffset(zone) && OffsetSeconds(zone) == Some(offset)
    ensures zulu == Rfc3339ToUnixSeconds(body + "Z") && read == Rfc3339ToUnixSeconds(body + zone)
    ensures Shifts(zulu, read, offset)
  {
    var days, seconds;
    zulu, read, days, seconds := ReadsBoth(body, zone, offset);
    UtcShifts(zulu, read, days, seconds, offset);
  }

  /** A fixed offset shifts what is read: whatever reads as a second with a Z behind it reads as so many
      seconds earlier with the offset behind it, if that is no negative time and fits 64 bits. */
  lemma {:induction false} OffsetShiftsReading(body: string, sign: char, hours: nat, minutes: nat)
    returns (zulu: Option<nat>, read: Option<nat>)
    requires (sign == '+' || sign == '-') && hours <= 23 && minutes <= 59
    ensures zulu == Rfc3339ToUnixSeconds(body + "Z")
    ensures read == Rfc3339ToUnixSeconds(body + OffsetText(sign, hours, minutes))
    ensures Shifts(zulu, read, Worth(sign, hours, minutes))
  {
    var zone := OffsetIsWorth(sign, hours, minutes);
    zulu, read := SuffixShiftsReading(body, zone, Worth(sign, hours, minutes));
  }
}
