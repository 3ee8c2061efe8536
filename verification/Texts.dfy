/** Searching, splitting, trimming and reading text, as the standard libraries do. */
module Texts {

  predicate IsDigit(c: char) {
    '0' <= c <= '9'
  }

  predicate AllDigits(text: string) {
    forall i :: 0 <= i < |text| ==> IsDigit(text[i])
  }

  /** The number decimal digits write. */
  function Number(text: string): int {
    if text == "" then 0 else 10 * Number(text[..|text| - 1]) + (text[|text| - 1] as int - '0' as int)
  }

  function Digit(value: int): (c: char)
    requires 0 <= value < 10
    ensures IsDigit(c)
  {
    ('0' as int + value) as char
  }

  /** The decimal text of a number. */
  function Digits(value: nat): string {
    if value < 10 then [Digit(value)] else Digits(value / 10) + [Digit(value % 10)]
  }

  lemma {:induction false} DigitsAreNumber(value: nat)
    ensures AllDigits(Digits(value)) && Number(Digits(value)) == value && Digits(value) != ""
  {
    if value < 10 {
      assert Digits(value)[..0] == "";
    } else {
      DigitsAreNumber(value / 10);
      assert Digits(value)[..|Digits(value)| - 1] == Digits(value / 10);
    }
  }

  /** Unicode white space. */
  predicate IsSpace(c: char) {
    var code := c as int;
    || code == 0x20 || 0x09 <= code <= 0x0D || code == 0x85 || code == 0xA0 || code == 0x1680
    || 0x2000 <= code <= 0x200A || code == 0x2028 || code == 0x2029 || code == 0x202F || code == 0x205F
    || code == 0x3000
  }

  function TrimStart(text: string): string {
    if text != "" && IsSpace(text[0]) then TrimStart(text[1..]) else text
  }

  function TrimEnd(text: string): string {
    if text != "" && IsSpace(text[|text| - 1]) then TrimEnd(text[..|text| - 1]) else text
  }

  function Trim(text: string): string {
    TrimEnd(TrimStart(text))
  }

  predicate AllSpace(text: string) {
    forall i :: 0 <= i < |text| ==> IsSpace(text[i])
  }

  lemma {:induction false} TrimStartDrops(space: string, text: string)
    requires AllSpace(space) && text != "" && !IsSpace(text[0])
    ensures TrimStart(space + text) == text
  {
    if space == "" {
      assert space + text == text;
    } else {
      assert (space + text)[1..] == space[1..] + text;
      TrimStartDrops(space[1..], text);
    }
  }

  lemma {:induction false} TrimEndDrops(text: string, space: string)
    requires AllSpace(space) && text != "" && !IsSpace(text[|text| - 1])
    ensures TrimEnd(text + space) == text
  {
    if space == "" {
      assert text + space == text;
    } else {
      assert (text + space)[..|text + space| - 1] == text + space[..|space| - 1];
      TrimEndDrops(text, space[..|space| - 1]);
    }
  }

  lemma TrimmedBetween(before: string, text: string, after: string)
    requires AllSpace(before) && AllSpace(after) && text != "" && !IsSpace(text[0]) && !IsSpace(text[|text| - 1])
    ensures Trim(before + text + after) == text
  {
    assert before + text + after == before + (text + after);
    TrimStartDrops(before, text + after);
    TrimEndDrops(text, after);
  }

  /** The first character of a kind, or the length. */
  function FindWhere(text: string, kind: char -> bool): (index: nat)
    ensures index <= |text| && (index < |text| ==> kind(text[index]))
    ensures forall i :: 0 <= i < index ==> !kind(text[i])
  {
    if text == "" || kind(text[0]) then 0 else
    var index := FindWhere(text[1..], kind);
    assert forall i :: 1 <= i < 1 + index ==> text[i] == text[1..][i - 1];
    1 + index
  }

  /** The first `c`, or the length. */
  function Find(text: string, c: char): (index: nat)
    ensures index <= |text|
    ensures c !in text[..index] && (index < |text| ==> text[index] == c)
  {
    if text == "" || text[0] == c then 0 else 1 + Find(text[1..], c)
  }

  lemma {:induction false} FindFirst(before: string, c: char, after: string)
    requires c !in before
    ensures Find(before + [c] + after, c) == |before|
  {
    if before != "" {
      assert (before + [c] + after)[1..] == before[1..] + [c] + after;
      FindFirst(before[1..], c, after);
    }
  }

  lemma {:induction false} FindNone(text: string, c: char)
    requires c !in text
    ensures Find(text, c) == |text|
  {
    if text != "" {
      FindNone(text[1..], c);
    }
  }

  predicate MatchesAt(text: string, pattern: string, index: nat) {
    index + |pattern| <= |text| && text[index..index + |pattern|] == pattern
  }

  /** The first match of the pattern from an index on, or the length. */
  function MatchFrom(text: string, pattern: string, from: nat): (index: nat)
    requires from <= |text| && pattern != ""
    ensures from <= index <= |text| && (index < |text| ==> MatchesAt(text, pattern, index))
    ensures forall earlier :: from <= earlier < index ==> !MatchesAt(text, pattern, earlier)
    decreases |text| - from
  {
    if from == |text| || MatchesAt(text, pattern, from) then from else MatchFrom(text, pattern, from + 1)
  }

  /** The first match of the pattern, or the length. */
  function FindText(text: string, pattern: string): nat
    requires pattern != ""
  {
    MatchFrom(text, pattern, 0)
  }

  /** A match depends only on the text up to its end. */
  lemma SameMatchAt(text: string, other: string, pattern: string, index: nat, end: nat)
    requires index + |pattern| <= end <= |text| && end <= |other| && text[..end] == other[..end]
    ensures MatchesAt(other, pattern, index) <==> MatchesAt(text, pattern, index)
  {
    assert text[index..index + |pattern|] == text[..end][index..index + |pattern|];
    assert other[index..index + |pattern|] == other[..end][index..index + |pattern|];
  }

  /** So does the first match. */
  lemma SameMatch(text: string, other: string, pattern: string)
    requires pattern != "" && FindText(text, pattern) < |text|
    requires FindText(text, pattern) + |pattern| <= |other|
    requires text[..FindText(text, pattern) + |pattern|] == other[..FindText(text, pattern) + |pattern|]
    ensures FindText(other, pattern) == FindText(text, pattern)
  {
    hide MatchesAt;
    var index, found := FindText(text, pattern), FindText(other, pattern);
    MatchEnds(text, pattern, index);
    SameMatchAt(text, other, pattern, index, index + |pattern|);
    assert found <= index;
    SameMatchAt(text, other, pattern, found, index + |pattern|);
  }

  lemma MatchEnds(text: string, pattern: string, index: nat)
    requires MatchesAt(text, pattern, index)
    ensures index + |pattern| <= |text|
  {
  }

  /** The parts between the separators: always at least one. */
  function Split(text: string, separator: char): (parts: seq<string>)
    ensures parts != []
    decreases |text|
  {
    var end := Find(text, separator);
    if end == |text| then [text] else [text[..end]] + Split(text[end + 1..], separator)
  }

  function Join(parts: seq<string>, separator: char): string {
    if parts == [] then "" else if |parts| == 1 then parts[0] else parts[0] + [separator] + Join(parts[1..], separator)
  }

  lemma NextPart(text: string, separator: char, end: nat)
    requires end == Find(text, separator) < |text|
    ensures Split(text, separator) == [text[..end]] + Split(text[end + 1..], separator)
    ensures text == text[..end] + [separator] + text[end + 1..]
  {
  }

  lemma JoinFirst(part: string, rest: seq<string>, separator: char)
    requires rest != []
    ensures Join([part] + rest, separator) == part + [separator] + Join(rest, separator)
  {
    assert ([part] + rest)[1..] == rest;
  }

  lemma {:induction false} JoinOfSplit(text: string, separator: char)
    ensures Join(Split(text, separator), separator) == text
    decreases |text|
  {
    var end := Find(text, separator);
    if end < |text| {
      hide Find, Split, Join;
      var rest := text[end + 1..];
      NextPart(text, separator, end);
      JoinFirst(text[..end], Split(rest, separator), separator);
      JoinOfSplit(rest, separator);
    }
  }

  lemma {:induction false} PartsAreWhole(text: string, separator: char)
    ensures forall part :: part in Split(text, separator) ==> separator !in part
    decreases |text|
  {
    var end := Find(text, separator);
    if end < |text| {
      hide Find, Split;
      NextPart(text, separator, end);
      PartsAreWhole(text[end + 1..], separator);
    }
  }

  lemma {:induction false} SplitOfJoin(parts: seq<string>, separator: char)
    requires parts != [] && forall part :: part in parts ==> separator !in part
    ensures Split(Join(parts, separator), separator) == parts
  {
    if |parts| == 1 {
      FindNone(parts[0], separator);
    } else {
      var rest := Join(parts[1..], separator);
      var text := parts[0] + [separator] + rest;
      FindFirst(parts[0], separator, rest);
      assert text[..|parts[0]|] == parts[0] && text[|parts[0]| + 1..] == rest;
      SplitOfJoin(parts[1..], separator);
    }
  }
}
