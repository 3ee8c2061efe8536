/**
 Instants as text: RFC 3339 for clients and SQLite's own form for the database,
 and the two normalisers of what the database holds
 (server/src/gojson.rs:95-206). An instant is a count of nanoseconds since 1970,
 negative before; texts are ASCII.
 */
module Timestamps {
  import opened Outcomes
  import opened Calendar
  import opened Texts

  const SECOND := 1000000000

  /** The standard library gives a duration since 1970, or before it. */
  function SplitTime(time: int): (int, int) {
    if time >= 0 then (time / SECOND, time % SECOND)
    else
      var before, nanos := -time / SECOND, -time % SECOND;
      if nanos == 0 then (-before, 0) else (-before - 1, SECOND - nanos)
  }

  /** Splitting rounds down on both sides of 1970. */
  lemma SplitTimeFloors(time: int)
    ensures var (seconds, nanos) := SplitTime(time);
            seconds * SECOND + nanos == time && 0 <= nanos < SECOND
  {
  }

  // Numbers.

  function Zeros(count: int): string {
    if count <= 0 then "" else "0" + Zeros(count - 1)
  }

  /** Zeros after the sign, up to the width. */
  function Padded(value: int, width: nat): string {
    if value < 0
    then "-" + Zeros(width - 1 - |Digits(-value)|) + Digits(-value)
    else Zeros(width - |Digits(value)|) + Digits(value)
  }

  function TrimZeros(text: string): string {
    if text != "" && text[|text| - 1] == '0' then TrimZeros(text[..|text| - 1]) else text
  }

  function Fraction(nanos: nat): string {
    if nanos == 0 then "" else TrimZeros("." + Padded(nanos, 9))
  }

  // Printers.

  function DateText(date: Date): string {
    Padded(date.year, 4) + "-" + Padded(date.month, 2) + "-" + Padded(date.day, 2)
  }

  function ClockText(time: DateTime): string {
    Padded(time.hour, 2) + ":" + Padded(time.minute, 2) + ":" + Padded(time.second, 2)
  }

  function PrintedAt(time: DateTime, nanos: nat, separator: string, zone: string): string {
    DateText(time.date) + separator + ClockText(time) + Fraction(nanos) + zone
  }

  function Printed(time: int, separator: string, zone: string): string {
    SplitTimeFloors(time);
    PrintedAt(Civil(SplitTime(time).0), SplitTime(time).1, separator, zone)
  }

  function Rfc3339Nano(time: int): string {
    Printed(time, "T", "Z")
  }

  function SqliteTime(time: int): string {
    Printed(time, " ", "+00:00")
  }

  // Normalisers.

  predicate IsSign(c: char) {
    c == '+' || c == '-'
  }

  /** The last sign, or the length. */
  function FindSign(text: string): (index: nat)
    ensures index <= |text|
    ensures index < |text| ==> IsSign(text[index])
  {
    if text == "" then 0
    else if IsSign(text[|text| - 1]) then |text| - 1
    else var index := FindSign(text[..|text| - 1]); if index == |text| - 1 then |text| else index
  }

  function ReplaceFirst(text: string, old_: char, new_: char): string {
    var index := Find(text, old_);
    if index == |text| then text else text[index := new_]
  }

  function OffsetZone(offset: string): string {
    var colon := if |offset| == 5 && ':' !in offset then offset[..3] + ":" + offset[3..] else offset;
    if colon == "+00:00" then "Z" else colon
  }

  /** The date and time, and the offset as RFC 3339 writes it, UTC as `Z`. */
  function SplitZone(value: string): (string, string) {
    if value != "" && value[|value| - 1] == 'Z' then (value[..|value| - 1], "Z")
    else
      var index := FindSign(value);
      if index < |value| && index > 10 then
        (TrimEnd(value[..index]), OffsetZone(value[index..]))
      else (value, "Z")
  }

  function WithoutTrailingZeros(dateTime: string): string {
    var index := Find(dateTime, '.');
    if index == |dateTime| then dateTime
    else
      var fraction := TrimZeros(dateTime[index + 1..]);
      if fraction == "" then dateTime[..index] else dateTime[..index] + "." + fraction
  }

  /** A stored time as clients see it. */
  function Time(stored: string): string {
    var (dateTime, zone) := SplitZone(Trim(stored));
    WithoutTrailingZeros(ReplaceFirst(dateTime, ' ', 'T')) + zone
  }

  /** A stored time as it is stored again. */
  function SqliteTimeFromStored(stored: string): string {
    var (dateTime, zone) := SplitZone(Trim(stored));
    ReplaceFirst(WithoutTrailingZeros(dateTime), 'T', ' ') + if zone == "Z" then "+00:00" else zone
  }

  // A parser of the grammar in section 5.6 of RFC 3339.

  function Pow10(exponent: nat): nat {
    if exponent == 0 then 1 else 10 * Pow10(exponent - 1)
  }

  /** full-date "T" partial-time without its fraction: always 19 characters. */
  predicate HasShape(text: string) {
    && |text| == 19 && text[4] == '-' && text[7] == '-' && text[10] == 'T' && text[13] == ':' && text[16] == ':'
    && AllDigits(text[..4]) && AllDigits(text[5..7]) && AllDigits(text[8..10])
    && AllDigits(text[11..13]) && AllDigits(text[14..16]) && AllDigits(text[17..])
  }

  function ParseDateTime(text: string): Option<DateTime> {
    if HasShape(text) then
      var time := DateTime(Date(Number(text[..4]), Number(text[5..7]), Number(text[8..10])),
                           Number(text[11..13]), Number(text[14..16]), Number(text[17..]));
      if IsDateTime(time) then Some(time) else None
    else None
  }

  /** time-secfrac, to the nanosecond. */
  function ParseFraction(text: string): Option<int> {
    if text == "" then Some(0)
    else if 2 <= |text| <= 10 && text[0] == '.' && AllDigits(text[1..])
    then Some(Number(text[1..]) * Pow10(10 - |text|))
    else None
  }

  /** time-offset, in seconds. */
  function ParseOffset(text: string): Option<int> {
    if text == "Z" then Some(0)
    else if |text| == 6 && IsSign(text[0]) && text[3] == ':' && AllDigits(text[1..3] + text[4..])
            && Number(text[1..3]) < 24 && Number(text[4..]) < 60
    then Some((if text[0] == '+' then 60 else -60) * (60 * Number(text[1..3]) + Number(text[4..])))
    else None
  }

  function OffsetStart(text: string): (index: nat)
    ensures index <= |text|
  {
    if text == "" || text[0] == 'Z' || IsSign(text[0]) then 0 else 1 + OffsetStart(text[1..])
  }

  /** date-time: the instant it names. */
  function Parse(text: string): Option<int> {
    if |text| < 19 then None else
    var rest := text[19..];
    var index := OffsetStart(rest);
    match (ParseDateTime(text[..19]), ParseFraction(rest[..index]), ParseOffset(rest[index..]))
    case (Some(time), Some(nanos), Some(offset)) => Some((SecondsUntil(time) - offset) * SECOND + nanos)
    case _ => None
  }
}
