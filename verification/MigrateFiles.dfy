/**
 What a migration's file says, with its lines written out: the Up section runs,
 whatever goose's own lines look like (server/src/migrate.rs:34-74).
 */
module MigrateFiles {
  import opened Outcomes
  import opened Texts
  import opened Migrate

  /** The same letters, lower or upper case. */
  predicate SameLetters(text: string, upper: string) {
    |text| == |upper|
    && forall i :: 0 <= i < |text| ==>
      text[i] == upper[i] || ('a' <= text[i] <= 'z' && text[i] as int - 'a' as int == upper[i] as int - 'A' as int)
  }

  /** A line that says something to goose, in any letter case and with space around it. */
  ghost predicate Says(line: string, word: string) {
    exists before, between, text, after ::
      AllSpace(before) && AllSpace(between) && AllSpace(after) && SameLetters(text, word)
      && line == before + "-- +goose " + between + text + after
  }

  predicate IsCapital(c: char) {
    'A' <= c <= 'Z'
  }

  /** What goose is told: capitals, perhaps with spaces between. */
  predicate IsCommand(word: string) {
    && word != "" && IsCapital(word[0]) && IsCapital(word[|word| - 1])
    && forall i :: 0 <= i < |word| ==> IsCapital(word[i]) || word[i] == ' '
  }

  lemma LettersAreHeard(text: string, word: string)
    requires IsCommand(word) && SameLetters(text, word)
    ensures Upper(text) == word && text != "" && !IsSpace(text[0]) && !IsSpace(text[|text| - 1])
  {
    forall i | 0 <= i < |text|
      ensures Upper(text)[i] == word[i]
    {
      assert IsCapital(word[i]) || word[i] == ' ';
    }
  }

  lemma SaidIsHeard(line: string, word: string)
    requires IsCommand(word) && Says(line, word)
    ensures Annotation(line) == Some(word)
  {
    var before, between, text, after :|
      AllSpace(before) && AllSpace(between) && AllSpace(after) && SameLetters(text, word)
      && line == before + "-- +goose " + between + text + after;
    LettersAreHeard(text, word);
    var said := "-- +goose " + (between + text);
    assert said[0] == '-' && !IsSpace('-') && said[|said| - 1] == text[|text| - 1];
    hide IsSpace, Upper, TrimStart, TrimEnd, SameLetters, IsCommand;
    assert line == before + said + after;
    TrimmedBetween(before, said, after);
    assert said[10..] == between + text + "";
    TrimmedBetween(between, text, "");
  }

  lemma Commands()
    ensures IsCommand("UP") && IsCommand("DOWN") && IsCommand("NO TRANSACTION")
    ensures IsCommand("STATEMENTBEGIN") && IsCommand("STATEMENTEND")
  {
  }

  lemma MarksAreHeard(line: string)
    ensures Says(line, "UP") ==> MarkOf(line) == Up
    ensures Says(line, "DOWN") ==> MarkOf(line) == Down
    ensures Says(line, "NO TRANSACTION") ==> MarkOf(line) == NoTransaction
    ensures Says(line, "STATEMENTBEGIN") || Says(line, "STATEMENTEND") ==> MarkOf(line) == Other
    ensures MarkOf(line) == Plain <==> !IsForGoose(line)
  {
    hide Says, Trim, Upper, IsCommand;
    Commands();
    forall word | word in ["UP", "DOWN", "NO TRANSACTION", "STATEMENTBEGIN", "STATEMENTEND"] && Says(line, word)
      ensures Annotation(line) == Some(word)
    {
      SaidIsHeard(line, word);
    }
  }

  predicate IsForGoose(line: string) {
    "-- +goose " <= Trim(line)
  }

  /** A line that opens no section: plain, or one of goose's other annotations. */
  ghost predicate IsWithin(line: string) {
    !IsForGoose(line)
    || Says(line, "STATEMENTBEGIN") || Says(line, "STATEMENTEND") || Says(line, "NO TRANSACTION")
  }

  ghost predicate AllWithin(lines: seq<string>) {
    forall line :: line in lines ==> IsWithin(line)
  }

  /** The lines that are not for goose, each with its newline. */
  function PlainText(lines: seq<string>): string {
    if lines == [] then ""
    else
      var last := lines[|lines| - 1];
      PlainText(lines[..|lines| - 1]) + if IsForGoose(last) then "" else last + "\n"
  }

  lemma NextPlain(lines: seq<string>)
    requires lines != []
    ensures var last := lines[|lines| - 1];
            PlainText(lines) == PlainText(lines[..|lines| - 1]) + if IsForGoose(last) then "" else last + "\n"
  {
  }

  lemma OneWithin(front: seq<string>, line: string)
    requires IsWithin(line)
    ensures SectionOf(front + [line]) == SectionOf(front)
    ensures UpText(front + [line])
            == UpText(front) + if SectionOf(front) == Some(true) && !IsForGoose(line) then line + "\n" else ""
  {
    hide MarkOf, Says, IsForGoose, UpText, SectionOf;
    MarksAreHeard(line);
    OneMore(front, line);
  }

  /** Within a section the lines that are not for goose run, or none of them does. */
  lemma {:induction false} LinesWithin(front: seq<string>, lines: seq<string>)
    requires AllWithin(lines)
    ensures SectionOf(front + lines) == SectionOf(front)
    ensures UpText(front + lines) == UpText(front) + if SectionOf(front) == Some(true) then PlainText(lines) else ""
  {
    if lines == [] {
      assert front + lines == front && UpText(front) + "" == UpText(front);
    } else {
      hide IsWithin, IsForGoose, UpText, SectionOf, PlainText;
      var rest, last := lines[..|lines| - 1], lines[|lines| - 1];
      assert AllWithin(rest) && IsWithin(last);
      hide AllWithin;
      assert front + lines == front + rest + [last];
      LinesWithin(front, rest);
      OneWithin(front + rest, last);
      NextPlain(lines);
      AddedTwice(UpText(front), PlainText(rest), if IsForGoose(last) then "" else last + "\n");
    }
  }

  lemma UpRuns(before: seq<string>, up: string, body: seq<string>)
    requires MarkOf(up) == Up && AllWithin(before) && AllWithin(body)
    ensures var lines := before + [up] + body;
            UpText(lines) == PlainText(body) && SectionOf(lines) == Some(true)
  {
    assert [] + before == before && UpText([]) == "" && SectionOf([]) == None;
    hide MarkOf, IsWithin, UpText, SectionOf, PlainText;
    LinesWithin([], before);
    OneMore(before, up);
    LinesWithin(before + [up], body);
    assert UpText(before + [up]) == "" && "" + PlainText(body) == PlainText(body);
  }

  lemma DownDoesNot(front: seq<string>, down: string, after: seq<string>)
    requires MarkOf(down) == Down && AllWithin(after)
    ensures UpText(front + [down] + after) == UpText(front) && SectionOf(front + [down] + after) == Some(false)
  {
    hide MarkOf, IsWithin, UpText, SectionOf, PlainText;
    OneMore(front, down);
    LinesWithin(front + [down], after);
    assert UpText(front) + "" == UpText(front);
  }

  /** A line of a section, or one that opens one. */
  ghost predicate IsKnown(line: string) {
    IsWithin(line) || Says(line, "UP") || Says(line, "DOWN")
  }

  lemma NoTransactionIsHeard(lines: seq<string>)
    requires forall line :: line in lines ==> IsKnown(line)
    ensures (forall line :: line in lines ==> !MarkOf(line).NoTransaction?)
            <==> !exists line :: line in lines && Says(line, "NO TRANSACTION")
  {
    hide MarkOf, IsForGoose, Says;
    forall line | line in lines
      ensures MarkOf(line).NoTransaction? <==> Says(line, "NO TRANSACTION")
    {
      MarksAreHeard(line);
    }
  }

  /**
   A file with an Up section, and perhaps a Down section behind it: what runs is the
   text of the Up section, in a transaction unless a line says otherwise.
   */
  lemma UpSectionRuns(version: nat, title: string, before: seq<string>, up: string, body: seq<string>,
                      down: seq<string>, after: seq<string>)
    requires version < 0x8000_0000_0000_0000 && Says(up, "UP")
    requires |down| <= 1 && (forall line :: line in down ==> Says(line, "DOWN")) && (down == [] ==> after == [])
    requires AllWithin(before) && AllWithin(body) && AllWithin(after)
    ensures var name, lines := Digits(version) + "_" + title, before + [up] + body + down + after;
            ParseOf(name, lines)
            == Success(Migration(version, name, PlainText(body),
                       !exists line :: line in lines && Says(line, "NO TRANSACTION")))
  {
    hide MarkOf, IsWithin, UpText, SectionOf, Says, VersionOf, Digits, PlainText;
    var front := before + [up] + body;
    var lines := front + down + after;
    VersionIsRead(version, title);
    MarksAreHeard(up);
    UpRuns(before, up, body);
    if down == [] {
      assert lines == front;
    } else {
      assert down == [down[0]];
      MarksAreHeard(down[0]);
      DownDoesNot(front, down[0], after);
    }
    NoTransactionIsHeard(lines);
  }

  lemma VersionIsRead(version: nat, title: string)
    requires version < 0x8000_0000_0000_0000
    ensures VersionOf(Digits(version) + "_" + title) == Some(version)
  {
    hide VersionOf, Digits;
    VersionsAreI64("", version, title);
    assert "" + Digits(version) == Digits(version);
  }

  /** A version may have a sign, and is a 64-bit number. */
  lemma VersionsAreI64(sign: string, n: int, title: string)
    requires n >= 0 && sign in {"", "+", "-"}
    ensures var version := if sign == "-" then -n else n;
            VersionOf(sign + Digits(n) + "_" + title)
            == if -0x8000_0000_0000_0000 <= version < 0x8000_0000_0000_0000 then Some(version) else None
  {
    hide Number, Digits;
    var part := sign + Digits(n);
    DigitsAreNumber(n);
    assert forall i :: 0 <= i < |Digits(n)| ==> IsDigit(Digits(n)[i]);
    FindFirst(part, '_', title);
    assert (part + "_" + title)[..|part|] == part;
    assert sign != "" ==> part[0] == sign[0] && part[1..] == Digits(n);
    assert sign == "" ==> part == Digits(n);
  }

  /** A file without a section is no migration. */
  lemma NoSection(version: nat, title: string, lines: seq<string>)
    requires AllWithin(lines) && version < 0x8000_0000_0000_0000
    ensures var name := Digits(version) + "_" + title;
            ParseOf(name, lines) == Failure(NoUpSection(name))
  {
    assert [] + lines == lines && SectionOf([]) == None;
    hide UpText, SectionOf, IsWithin, VersionOf;
    VersionIsRead(version, title);
    LinesWithin([], lines);
  }

  /** Nor is one whose name does not begin with a number. */
  lemma NoNumber(part: string, title: string, lines: seq<string>)
    requires '_' !in part && (part == "" || !('0' <= part[|part| - 1] <= '9'))
    ensures ParseOf(part + "_" + title, lines) == Failure(NoVersion(part + "_" + title))
  {
    hide Number, UpText, SectionOf;
    FindFirst(part, '_', title);
    assert (part + "_" + title)[..|part|] == part;
    var digits := if part != "" && (part[0] == '+' || part[0] == '-') then part[1..] else part;
    assert digits != "" ==> digits[|digits| - 1] == part[|part| - 1];
  }
}
