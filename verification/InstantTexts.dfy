/**
 Printing an instant loses nothing: reading the text by the grammar of RFC 3339
 gives the instant back, and the stored form normalises to the printed one.
 */
module InstantTexts {
  import opened Outcomes
  import opened Calendar
  import opened Texts
  import opened Timestamps
  import opened StoredTimes

  lemma {:induction false} DigitsFit(value: nat, width: nat)
    requires value < Pow10(width) && width > 0
    ensures |Digits(value)| <= width
  {
    if value >= 10 {
      assert width > 1 by {
        assert Pow10(1) == 10 * Pow10(0);
      }
      DigitsFit(value / 10, width - 1);
    }
  }

  lemma {:induction false} LeadingZeros(count: nat, text: string)
    requires AllDigits(text)
    ensures |Zeros(count)| == count && AllDigits(Zeros(count) + text) && Number(Zeros(count) + text) == Number(text)
    decreases count, |text|
  {
    if text != "" {
      LeadingZeros(count, text[..|text| - 1]);
      assert (Zeros(count) + text)[..|Zeros(count) + text| - 1] == Zeros(count) + text[..|text| - 1];
    } else if count > 0 {
      LeadingZeros(count - 1, "");
      assert Zeros(count) == "0" + Zeros(count - 1) && Zeros(count) + text == Zeros(count);
      LeadingZeros(count - 1, "0");
      ZerosEitherEnd(count - 1);
    } else {
      assert Zeros(0) + text == text;
    }
  }

  lemma {:induction false} ZerosEitherEnd(count: nat)
    ensures "0" + Zeros(count) == Zeros(count) + "0"
  {
    if count > 0 {
      ZerosEitherEnd(count - 1);
      assert "0" + Zeros(count) == "0" + ("0" + Zeros(count - 1)) == "0" + (Zeros(count - 1) + "0")
          == Zeros(count) + "0";
    }
  }

  lemma PaddedIsNumber(value: nat, width: nat)
    requires value < Pow10(width) && width > 0
    ensures |Padded(value, width)| == width && AllDigits(Padded(value, width)) && Number(Padded(value, width)) == value
  {
    DigitsAreNumber(value);
    DigitsFit(value, width);
    LeadingZeros(width - |Digits(value)|, Digits(value));
  }

  lemma {:induction false} TrimmedNumber(text: string)
    requires AllDigits(text)
    ensures |TrimZeros(text)| <= |text|
    ensures Number(TrimZeros(text)) * Pow10(|text| - |TrimZeros(text)|) == Number(text)
  {
    if text != "" && text[|text| - 1] == '0' {
      var front := text[..|text| - 1];
      TrimmedNumber(front);
      assert Number(text) == 10 * Number(front);
    }
  }

  lemma Powers()
    ensures Pow10(1) == 10 && Pow10(2) == 100 && Pow10(4) == 10000 && Pow10(9) == SECOND
  {
    assert Pow10(3) == 1000 && Pow10(4) == 10000 && Pow10(5) == 100000;
    assert Pow10(6) == 1000000 && Pow10(7) == 10000000 && Pow10(8) == 100000000;
  }

  /** The digits a fraction is printed with. */
  function FractionDigits(nanos: nat): string {
    if nanos == 0 then "" else TrimZeros(Padded(nanos, 9))
  }

  lemma {:induction false} PointStays(text: string)
    requires AllDigits(text)
    ensures TrimZeros("." + text) == "." + TrimZeros(text)
  {
    if text != "" {
      assert ("." + text)[..|"." + text| - 1] == "." + text[..|text| - 1];
      PointStays(text[..|text| - 1]);
    }
  }

  lemma FractionPrinted(nanos: nat)
    requires nanos < SECOND
    ensures Fraction(nanos) == FractionText(FractionDigits(nanos))
    ensures AllDigits(FractionDigits(nanos)) && TrimZeros(FractionDigits(nanos)) == FractionDigits(nanos)
    ensures |FractionDigits(nanos)| <= 9 && Number(FractionDigits(nanos)) * Pow10(9 - |FractionDigits(nanos)|) == nanos
  {
    if nanos > 0 {
      Powers();
      var digits := Padded(nanos, 9);
      PaddedIsNumber(nanos, 9);
      PointStays(digits);
      TrimZerosKeepsDigits(digits);
      TrimmedNumber(digits);
      assert TrimZeros(digits) == "" ==> Number("") == 0;
    }
  }

  lemma FractionParses(nanos: nat)
    requires nanos < SECOND
    ensures ParseFraction(Fraction(nanos)) == Some(nanos)
  {
    FractionPrinted(nanos);
    if nanos > 0 {
      var digits := FractionDigits(nanos);
      assert Number("") == 0;
      assert Fraction(nanos)[1..] == digits;
    }
  }

  /** Two digits are the numbers to 99. */
  lemma TwoDigits(value: nat)
    requires value < 100
    ensures |Padded(value, 2)| == 2 && AllDigits(Padded(value, 2)) && Number(Padded(value, 2)) == value
  {
    Powers();
    PaddedIsNumber(value, 2);
  }

  lemma ClockTextFields(time: DateTime)
    requires IsDateTime(time)
    ensures var text := ClockText(time);
            && |text| == 8 && text[2] == ':' && text[5] == ':'
            && text[..2] == Padded(time.hour, 2) && text[3..5] == Padded(time.minute, 2)
            && text[6..] == Padded(time.second, 2)
            && AllDigitsOr(text, ':')
  {
    TwoDigits(time.hour);
    TwoDigits(time.minute);
    TwoDigits(time.second);
  }

  lemma DateTextFields(date: Date)
    requires IsDate(date) && 0 <= date.year <= 9999
    ensures var text := DateText(date);
            && |text| == 10 && text[4] == '-' && text[7] == '-'
            && text[..4] == Padded(date.year, 4) && text[5..7] == Padded(date.month, 2)
            && text[8..] == Padded(date.day, 2)
            && AllDigits(text[..4]) && Number(text[..4]) == date.year
  {
    Powers();
    PaddedIsNumber(date.year, 4);
    TwoDigits(date.month);
    TwoDigits(date.day);
  }

  lemma DateTimeParses(time: DateTime)
    requires IsDateTime(time) && 0 <= time.date.year <= 9999
    ensures |DateText(time.date) + "T" + ClockText(time)| == 19
    ensures ParseDateTime(DateText(time.date) + "T" + ClockText(time)) == Some(time)
  {
    DateTextFields(time.date);
    ClockTextFields(time);
    ShapeParses(DateText(time.date), ClockText(time), time);
  }

  lemma ShapeParses(date: string, clock: string, time: DateTime)
    requires IsDateTime(time) && |date| == 10 && |clock| == 8
    requires date[4] == '-' && date[7] == '-' && clock[2] == ':' && clock[5] == ':'
    requires AllDigits(date[..4]) && Number(date[..4]) == time.date.year
    requires date[5..7] == Padded(time.date.month, 2) && date[8..] == Padded(time.date.day, 2)
    requires clock[..2] == Padded(time.hour, 2) && clock[3..5] == Padded(time.minute, 2)
               && clock[6..] == Padded(time.second, 2)
    ensures ParseDateTime(date + "T" + clock) == Some(time)
  {
    FieldsOf(date, clock);
    TwoDigits(time.date.month);
    TwoDigits(time.date.day);
    TwoDigits(time.hour);
    TwoDigits(time.minute);
    TwoDigits(time.second);
  }

  lemma FieldsOf(date: string, clock: string)
    requires |date| == 10 && |clock| == 8
    ensures var text := date + "T" + clock;
            && text[..4] == date[..4] && text[5..7] == date[5..7] && text[8..10] == date[8..]
            && text[11..13] == clock[..2] && text[14..16] == clock[3..5] && text[17..] == clock[6..]
            && text[4] == date[4] && text[7] == date[7] && text[10] == 'T' && text[13] == clock[2]
            && text[16] == clock[5]
  {
    var text := date + "T" + clock;
    assert text[..10] == date && text[11..] == clock;
  }

  lemma {:induction false} OffsetStartsAt(fraction: string, zone: string)
    requires forall i :: 0 <= i < |fraction| ==> IsDigit(fraction[i]) || fraction[i] == '.'
    requires zone != "" && (zone[0] == 'Z' || IsSign(zone[0]))
    ensures OffsetStart(fraction + zone) == |fraction|
  {
    if fraction == "" {
      assert fraction + zone == zone;
    } else {
      assert (fraction + zone)[1..] == fraction[1..] + zone;
      OffsetStartsAt(fraction[1..], zone);
    }
  }

  lemma PartsParse(whole: string, fraction: string, time: DateTime, nanos: nat)
    requires |whole| == 19 && ParseDateTime(whole) == Some(time) && ParseFraction(fraction) == Some(nanos)
    requires forall i :: 0 <= i < |fraction| ==> IsDigit(fraction[i]) || fraction[i] == '.'
    ensures Parse(whole + fraction + "Z") == Some(SecondsUntil(time) * SECOND + nanos)
  {
    OffsetStartsAt(fraction, "Z");
    var text := whole + fraction + "Z";
    assert text[..19] == whole && text[19..] == fraction + "Z";
    assert (fraction + "Z")[..|fraction|] == fraction && (fraction + "Z")[|fraction|..] == "Z";
  }

  lemma PrintedParses(time: DateTime, nanos: nat)
    requires IsDateTime(time) && 0 <= time.date.year <= 9999 && nanos < SECOND
    ensures Parse(PrintedAt(time, nanos, "T", "Z")) == Some(SecondsUntil(time) * SECOND + nanos)
  {
    DateTimeParses(time);
    FractionParses(nanos);
    FractionPrinted(nanos);
    PartsParse(DateText(time.date) + "T" + ClockText(time), Fraction(nanos), time, nanos);
  }

  /**
   Every instant of the years 0 to 9999, before or after 1970, reads back to the
   nanosecond from the text clients get.
   */
  lemma Rfc3339RoundTrip(time: int)
    requires 0 <= Civil(SplitTime(time).0).date.year <= 9999
    ensures Parse(Rfc3339Nano(time)) == Some(time)
  {
    hide SplitTime, Civil, Parse, PrintedAt, SecondsUntil, IsDateTime;
    SplitTimeFloors(time);
    var (seconds, nanos) := SplitTime(time);
    CivilIsExact(seconds);
    PrintedParses(Civil(seconds), nanos);
  }

  lemma ZerosAndDigits(zeros: int, digits: string)
    requires AllDigits(digits)
    ensures AllDigits(Zeros(zeros) + digits) && |Zeros(zeros) + digits| >= zeros + |digits|
  {
    if zeros > 0 {
      LeadingZeros(zeros, digits);
    } else {
      assert Zeros(zeros) + digits == digits;
    }
  }

  lemma Signed(zeros: string, digits: string)
    requires AllDigits(zeros + digits)
    ensures AllDigitsOr("-" + zeros + digits, '-') && AllDigitsOr(zeros + digits, '-')
  {
    assert "-" + zeros + digits == "-" + (zeros + digits);
  }

  lemma PaddedDigits(value: int, width: nat)
    ensures AllDigitsOr(Padded(value, width), '-') && |Padded(value, width)| >= width
  {
    var magnitude: nat := if value < 0 then -value else value;
    var zeros := (if value < 0 then width - 1 else width) - |Digits(magnitude)|;
    DigitsAreNumber(magnitude);
    ZerosAndDigits(zeros, Digits(magnitude));
    Signed(Zeros(zeros), Digits(magnitude));
  }

  lemma DateTextIsDate(date: Date)
    ensures AllDigitsOr(DateText(date), '-') && |DateText(date)| >= 10
  {
    PaddedDigits(date.year, 4);
    PaddedDigits(date.month, 2);
    PaddedDigits(date.day, 2);
  }

  /** A time as what the database holds. */
  function StoredOf(time: DateTime, nanos: nat, separator: char, zone: Zone): Stored {
    Stored(DateText(time.date), separator, ClockText(time), FractionDigits(nanos), "", zone)
  }

  lemma PrintedIsStored(time: DateTime, nanos: nat, separator: char, zone: Zone)
    requires IsDateTime(time) && nanos < SECOND
    requires separator in {' ', 'T'} && (zone.Utc? || zone == Offset('+', "00", "00", true))
    ensures WellFormed(StoredOf(time, nanos, separator, zone))
    ensures PrintedAt(time, nanos, [separator], ZoneText(zone)) == Text(StoredOf(time, nanos, separator, zone))
    ensures TrimZeros(FractionDigits(nanos)) == FractionDigits(nanos)
  {
    FractionPrinted(nanos);
    ClockTextFields(time);
    DateTextIsDate(time.date);
    var stored := StoredOf(time, nanos, separator, zone);
    assert Body(stored) + "" == Body(stored);
  }

  /**
   What the server stores of an instant, for all time: clients see of it what is
   printed for the instant, and storing it again stores the same.
   */
  lemma StoredInstant(time: int)
    ensures Time(SqliteTime(time)) == Rfc3339Nano(time)
    ensures SqliteTimeFromStored(SqliteTime(time)) == SqliteTime(time)
  {
    hide SplitTime, Civil, IsDateTime, PrintedAt, WellFormed, Time, SqliteTimeFromStored;
    SplitTimeFloors(time);
    var (seconds, nanos) := SplitTime(time);
    CivilIsExact(seconds);
    var utc := Offset('+', "00", "00", true);
    ZoneForStorage(utc);
    PrintedIsStored(Civil(seconds), nanos, ' ', utc);
    PrintedIsStored(Civil(seconds), nanos, 'T', Utc);
    NormalisedAgain(StoredOf(Civil(seconds), nanos, ' ', utc));
  }
}
