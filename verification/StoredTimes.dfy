/**
 The two normalisers over everything the database may hold: either separator, any
 fraction, any zone the drivers wrote or none, and space around it.
 */
module StoredTimes {
  import opened Texts
  import opened Timestamps

  datatype Zone = NoZone | Utc | Offset(sign: char, hours: string, minutes: string, hasColon: bool)

  datatype Stored = Stored(date: string, separator: char, clock: string, fraction: string, gap: string, zone: Zone)

  function FractionText(fraction: string): string {
    if fraction == "" then "" else "." + fraction
  }

  function ZoneText(zone: Zone): string {
    match zone
    case NoZone => ""
    case Utc => "Z"
    case Offset(sign, hours, minutes, hasColon) => [sign] + hours + (if hasColon then ":" else "") + minutes
  }

  function Body(stored: Stored): string {
    stored.date + [stored.separator] + stored.clock + FractionText(stored.fraction)
  }

  function Text(stored: Stored): string {
    Body(stored) + stored.gap + ZoneText(stored.zone)
  }

  predicate AllDigitsOr(text: string, other: char) {
    forall i :: 0 <= i < |text| ==> IsDigit(text[i]) || text[i] == other
  }

  /** A date of at most eleven characters has no sign where a zone would be looked for. */
  predicate WellFormed(stored: Stored) {
    && stored.date != "" && AllDigitsOr(stored.date, '-')
    && stored.separator in {' ', 'T'}
    && stored.clock != "" && AllDigitsOr(stored.clock, ':')
    && AllDigits(stored.fraction) && AllSpace(stored.gap)
    && |stored.date| + |stored.clock| >= 10
    && match stored.zone
       case NoZone => |stored.date| <= 11 && stored.gap == ""
       case Utc => stored.gap == ""
       case Offset(sign, hours, minutes, _) =>
         IsSign(sign) && |hours| == |minutes| == 2 && AllDigits(hours) && AllDigits(minutes)
  }

  /** How clients see the zone: always one, UTC as `Z`. */
  function Canonical(zone: Zone): Zone {
    if zone.Offset? && (zone.sign != '+' || zone.hours != "00" || zone.minutes != "00") then zone.(hasColon := true)
        else Utc
  }

  function ForClients(stored: Stored): Stored {
    stored.(separator := 'T', fraction := TrimZeros(stored.fraction), gap := "", zone := Canonical(stored.zone))
  }

  function ForStorage(stored: Stored): Stored {
    ForClients(stored).(separator := ' ', zone := if Canonical(stored.zone).Utc? then Offset('+', "00", "00", true)
        else Canonical(stored.zone))
  }

  predicate NoSign(text: string) {
    forall i :: 0 <= i < |text| ==> !IsSign(text[i])
  }

  lemma {:induction false} FindLastSign(before: string, sign: char, after: string)
    requires IsSign(sign) && NoSign(after)
    ensures FindSign(before + [sign] + after) == |before|
  {
    var text := before + [sign] + after;
    if after != "" {
      assert text[..|text| - 1] == before + [sign] + after[..|after| - 1];
      FindLastSign(before, sign, after[..|after| - 1]);
    }
  }

  lemma {:induction false} TrimZerosKeepsDigits(text: string)
    requires AllDigits(text)
    ensures AllDigits(TrimZeros(text)) && TrimZeros(TrimZeros(text)) == TrimZeros(text)
  {
    if text != "" && text[|text| - 1] == '0' {
      TrimZerosKeepsDigits(text[..|text| - 1]);
    }
  }

  /** A character of a clock or a fraction. */
  predicate IsLate(c: char) {
    IsDigit(c) || c == ':' || c == '.'
  }

  lemma BodyShape(stored: Stored)
    requires WellFormed(stored)
    ensures |Body(stored)| >= 11
    ensures IsDigit(Body(stored)[0]) || Body(stored)[0] == '-'
    ensures forall i :: |stored.date| < i < |Body(stored)| ==> IsLate(Body(stored)[i])
    ensures Body(stored)[|stored.date|] == stored.separator
  {
    var fraction := FractionText(stored.fraction);
    assert forall i :: 0 <= i < |fraction| ==> IsLate(fraction[i]);
    assert IsLate(Body(stored)[|Body(stored)| - 1]);
  }

  lemma NoZoneSplits(stored: Stored)
    requires WellFormed(stored) && stored.zone == NoZone
    ensures SplitZone(Text(stored)) == (Body(stored), "Z")
  {
    assert Text(stored) == Body(stored);
    BodyShape(stored);
    var index := FindSign(Body(stored));
    assert index < |Body(stored)| ==> index < |stored.date|;
  }

  lemma OffsetText(zone: Zone)
    requires zone.Offset? && IsSign(zone.sign) && |zone.hours| == |zone.minutes| == 2
    requires AllDigits(zone.hours) && AllDigits(zone.minutes)
    ensures var text := ZoneText(zone);
            && |text| == (if zone.hasColon then 6 else 5) && (zone.hasColon <==> ':' in text)
            && NoSign(text[1..]) && IsSign(text[0]) && IsDigit(text[|text| - 1])
  {
    assert zone.hasColon ==> ZoneText(zone)[3] == ':';
  }

  lemma OffsetIsCanonical(zone: Zone)
    requires zone.Offset? && IsSign(zone.sign) && |zone.hours| == |zone.minutes| == 2
    requires AllDigits(zone.hours) && AllDigits(zone.minutes)
    ensures OffsetZone(ZoneText(zone)) == ZoneText(Canonical(zone))
  {
    OffsetText(zone);
    var text, full := ZoneText(zone), ZoneText(zone.(hasColon := true));
    assert !zone.hasColon ==> text[..3] + ":" + text[3..] == full;
    assert full[1..3] == zone.hours && full[4..6] == zone.minutes && full[0] == zone.sign;
    var utc := "+00:00";
    assert utc[1..3] == "00" && utc[4..6] == "00";
    if zone.sign == '+' && zone.hours == "00" && zone.minutes == "00" {
      assert full == utc;
    }
  }

  lemma HeadAndTail(front: string, offset: string)
    requires offset != ""
    ensures front + offset == front + [offset[0]] + offset[1..]
  {
  }

  lemma SplitAtSign(value: string, index: nat)
    requires index == FindSign(value) && 10 < index < |value| && value[|value| - 1] != 'Z'
    ensures SplitZone(value) == (TrimEnd(value[..index]), OffsetZone(value[index..]))
  {
    hide FindSign, TrimEnd, OffsetZone;
  }

  lemma OffsetFound(front: string, offset: string)
    requires offset != "" && IsSign(offset[0]) && NoSign(offset[1..]) && IsDigit(offset[|offset| - 1]) && |front| > 10
    ensures SplitZone(front + offset) == (TrimEnd(front), OffsetZone(offset))
  {
    hide FindSign, TrimEnd, OffsetZone, NoSign, SplitZone;
    var value := front + offset;
    HeadAndTail(front, offset);
    FindLastSign(front, offset[0], offset[1..]);
    SplitAtSign(value, |front|);
    assert value[|front|..] == offset && value[..|front|] == front;
  }

  lemma OffsetSplits(stored: Stored)
    requires WellFormed(stored) && stored.zone.Offset?
    ensures SplitZone(Text(stored)) == (Body(stored), ZoneText(Canonical(stored.zone)))
  {
    BodyShape(stored);
    OffsetText(stored.zone);
    OffsetFound(Body(stored) + stored.gap, ZoneText(stored.zone));
    OffsetIsCanonical(stored.zone);
    TrimEndDrops(Body(stored), stored.gap);
  }

  lemma ZoneSplits(stored: Stored)
    requires WellFormed(stored)
    ensures SplitZone(Text(stored)) == (Body(stored), ZoneText(Canonical(stored.zone)))
  {
    match stored.zone
    case NoZone => NoZoneSplits(stored);
    case Utc => assert Text(stored) == Body(stored) + "Z";
    case Offset(_, _, _, _) => OffsetSplits(stored);
  }

  /** Neither separator, nor a point, before the fraction's. */
  lemma ZerosGo(stored: Stored)
    requires WellFormed(stored)
    ensures WithoutTrailingZeros(Body(stored)) == Body(stored.(fraction := TrimZeros(stored.fraction)))
  {
    assert TrimZeros("") == "";
    hide Find, TrimZeros;
    var head := stored.date + [stored.separator] + stored.clock;
    assert '.' !in head;
    if stored.fraction == "" {
      assert Body(stored) == head;
      FindNone(head, '.');
    } else {
      assert Body(stored) == head + ['.'] + stored.fraction;
      FindFirst(head, '.', stored.fraction);
    }
    assert head + "" == head;
  }

  lemma ReplacedBetween(before: string, separator: char, after: string, from: char, to: char)
    requires from !in before && from !in after && separator in {from, to}
    ensures ReplaceFirst(before + [separator] + after, from, to) == before + [to] + after
  {
    if separator == from {
      FindFirst(before, from, after);
    } else {
      FindNone(before + [separator] + after, from);
    }
  }

  lemma SeparatorChanges(stored: Stored, from: char, to: char)
    requires WellFormed(stored) && from in {' ', 'T'} && to in {' ', 'T'} && from != to
    ensures ReplaceFirst(Body(stored), from, to) == Body(stored.(separator := to))
  {
    var rest := stored.clock + FractionText(stored.fraction);
    assert forall i :: 0 <= i < |rest| ==> IsLate(rest[i]);
    assert Body(stored) == stored.date + [stored.separator] + rest;
    assert Body(stored.(separator := to)) == stored.date + [to] + rest;
    ReplacedBetween(stored.date, stored.separator, rest, from, to);
  }

  lemma Trimmed(before: string, stored: Stored, after: string)
    requires WellFormed(stored) && AllSpace(before) && AllSpace(after)
    ensures Trim(before + Text(stored) + after) == Text(stored)
  {
    BodyShape(stored);
    if stored.zone.Offset? {
      OffsetText(stored.zone);
    }
    TrimmedBetween(before, Text(stored), after);
  }

  /** What clients are sent: one separator, no idle zeros, always a zone. */
  lemma TimeIsForClients(before: string, stored: Stored, after: string)
    requires WellFormed(stored) && AllSpace(before) && AllSpace(after)
    ensures Time(before + Text(stored) + after) == Text(ForClients(stored)) && WellFormed(ForClients(stored))
  {
    Trimmed(before, stored, after);
    ZoneSplits(stored);
    SeparatorChanges(stored, ' ', 'T');
    ZerosGo(stored.(separator := 'T'));
    TrimZerosKeepsDigits(stored.fraction);
    assert Body(ForClients(stored)) + "" == Body(ForClients(stored));
  }

  /** What is stored again: the same, in SQLite's form. */
  lemma StoredAgain(before: string, stored: Stored, after: string)
    requires WellFormed(stored) && AllSpace(before) && AllSpace(after)
    ensures SqliteTimeFromStored(before + Text(stored) + after) == Text(ForStorage(stored))
              && WellFormed(ForStorage(stored))
  {
    hide Body, Trim, SplitZone, WithoutTrailingZeros, ReplaceFirst, ZoneText;
    Trimmed(before, stored, after);
    ZoneSplits(stored);
    TrimZerosKeepsDigits(stored.fraction);
    var trimmed := stored.(fraction := TrimZeros(stored.fraction));
    ZerosGo(stored);
    SeparatorChanges(trimmed, 'T', ' ');
    SameBody(trimmed.(separator := ' '), ForStorage(stored));
    ZoneForStorage(stored.zone);
    assert Body(ForStorage(stored)) + "" == Body(ForStorage(stored));
  }

  lemma SameBody(one: Stored, other: Stored)
    requires one.date == other.date && one.separator == other.separator && one.clock == other.clock
               && one.fraction == other.fraction
    ensures Body(one) == Body(other)
  {
  }

  lemma ZoneForStorage(zone: Zone)
    requires zone.Offset? ==> IsSign(zone.sign)
    ensures ZoneText(Canonical(zone)) == "Z" <==> Canonical(zone).Utc?
    ensures ZoneText(Offset('+', "00", "00", true)) == "+00:00"
  {
    if Canonical(zone).Offset? {
      assert ZoneText(Canonical(zone))[0] == zone.sign;
    }
  }

  /**
   The normalisers agree: both are fixed points of themselves, and storing a time
   again does not change what clients see of it.
   */
  lemma NormalisersAgree(before: string, stored: Stored, after: string)
    requires WellFormed(stored) && AllSpace(before) && AllSpace(after)
    ensures var text := before + Text(stored) + after;
            && Time(Time(text)) == Time(text)
            && SqliteTimeFromStored(SqliteTimeFromStored(text)) == SqliteTimeFromStored(text)
            && Time(SqliteTimeFromStored(text)) == Time(text)
            && SqliteTimeFromStored(Time(text)) == SqliteTimeFromStored(text)
  {
    TimeIsForClients(before, stored, after);
    StoredAgain(before, stored, after);
    NormalisedAgain(ForClients(stored));
    NormalisedAgain(ForStorage(stored));
    FormsAgree(stored);
  }

  lemma NormalisedAgain(stored: Stored)
    requires WellFormed(stored)
    ensures Time(Text(stored)) == Text(ForClients(stored))
              && SqliteTimeFromStored(Text(stored)) == Text(ForStorage(stored))
  {
    assert "" + Text(stored) + "" == Text(stored);
    TimeIsForClients("", stored, "");
    StoredAgain("", stored, "");
  }

  lemma FormsAgree(stored: Stored)
    requires WellFormed(stored)
    ensures ForClients(ForClients(stored)) == ForClients(ForStorage(stored)) == ForClients(stored)
    ensures ForStorage(ForClients(stored)) == ForStorage(ForStorage(stored)) == ForStorage(stored)
  {
    TrimZerosKeepsDigits(stored.fraction);
  }
}
