/**
 The server's migrations: reading them from goose files, and bringing a database up
 to date through failures and kills (server/src/migrate.rs).
 */
module Migrate {
  import opened Outcomes
  import opened Texts

  datatype Migration = Migration(version: int, name: string, up: string, inTransaction: bool)

  datatype Error = NoVersion(name: string) | NoUpSection(name: string) | Duplicate(name: string) | Unreadable

  // One file.

  function Upper(text: string): (upper: string)
    ensures |upper| == |text|
  {
    seq(|text|, i requires 0 <= i < |text| => if 'a' <= text[i] <= 'z' then (text[i] as int - 32) as char else text[i])
  }

  /** A line for goose. */
  function Annotation(line: string): Option<string> {
    var text := Trim(line);
    if "-- +goose " <= text then Some(Upper(Trim(text[10..]))) else None
  }

  /** What a line is to the reader of a file. */
  datatype Mark = Plain | Up | Down | NoTransaction | Other

  function MarkOf(line: string): Mark {
    match Annotation(line)
    case None => Plain
    case Some(word) =>
      if word == "UP" then Up
      else if word == "DOWN" then Down
      else if word == "NO TRANSACTION" then NoTransaction
      else Other
  }

  /** The section a line is in: that of the last section annotation before it. */
  function SectionOf(lines: seq<string>): Option<bool> {
    if lines == [] then None
    else
      var mark := MarkOf(lines[|lines| - 1]);
      if mark.Up? || mark.Down? then Some(mark.Up?) else SectionOf(lines[..|lines| - 1])
  }

  /** What runs: every line of an Up section that is not for goose, in order. */
  function UpText(lines: seq<string>): string {
    if lines == [] then ""
    else
      var front, last := lines[..|lines| - 1], lines[|lines| - 1];
      UpText(front) + if SectionOf(front) == Some(true) && MarkOf(last).Plain? then last + "\n" else ""
  }

  predicate IsI64(value: int) {
    -0x8000_0000_0000_0000 <= value < 0x8000_0000_0000_0000
  }

  function ParseI64(text: string): Option<int> {
    var digits := if text != "" && (text[0] == '+' || text[0] == '-') then text[1..] else text;
    if digits == "" || !AllDigits(digits) then None
    else
      var value := if text[0] == '-' then -Number(digits) else Number(digits);
      if IsI64(value) then Some(value) else None
  }

  /** The number before the first underscore of a file name. */
  function VersionOf(name: string): Option<int> {
    ParseI64(Split(name, '_')[0])
  }

  /** What a file of these lines is. */
  function ParseOf(name: string, source: seq<string>): Result<Migration, Error> {
    if VersionOf(name).None? then Failure(NoVersion(name))
    else if SectionOf(source).None? then Failure(NoUpSection(name))
    else Success(Migration(VersionOf(name).value, name, UpText(source),
                           forall line :: line in source ==> !MarkOf(line).NoTransaction?))
  }

  lemma OneMore(front: seq<string>, line: string)
    ensures var mark := MarkOf(line);
            && SectionOf(front + [line]) == (if mark.Up? || mark.Down? then Some(mark.Up?) else SectionOf(front))
            && UpText(front + [line])
               == UpText(front) + if SectionOf(front) == Some(true) && mark.Plain? then line + "\n" else ""
  {
    hide MarkOf;
    assert (front + [line])[..|front|] == front;
  }

  lemma AddedTwice(text: string, more: string, last: string)
    ensures text + more + last == text + (more + last) && text + "" == text
  {
  }

  method Parse(name: string, source: seq<string>) returns (r: Result<Migration, Error>)
    ensures r == ParseOf(name, source)
  {
    assert UpText(source[..0]) == "" && SectionOf(source[..0]) == None;
    hide UpText, SectionOf, VersionOf, MarkOf;
    if VersionOf(name).None? {
      return Failure(NoVersion(name));
    }
    var up, section, inTransaction := "", None, true;
    for i := 0 to |source|
      invariant up == UpText(source[..i]) && section == SectionOf(source[..i])
      invariant inTransaction <==> forall line :: line in source[..i] ==> !MarkOf(line).NoTransaction?
    {
      OneMore(source[..i], source[i]);
      AddedTwice(up, source[i], "\n");
      assert source[..i + 1] == source[..i] + [source[i]];
      match MarkOf(source[i]) {
        case Up =>
          section := Some(true);
        case Down =>
          section := Some(false);
        case NoTransaction =>
          inTransaction := false;
        case Other =>
        case Plain =>
          if section == Some(true) {
            up := up + source[i] + "\n";
          }
      }
    }
    assert source[..|source|] == source;
    if section.None? {
      return Failure(NoUpSection(name));
    }
    r := Success(Migration(VersionOf(name).value, name, up, inTransaction));
  }

  // A directory.

  /** An entry of the directory: its name and, if it can be read, its lines. */
  datatype File = File(name: string, source: Option<seq<string>>)

  predicate IsSql(file: File) {
    |file.name| > 4 && file.name[|file.name| - 4..] == ".sql"
  }

  function Read(file: File): Result<Migration, Error> {
    if file.source.None? then Failure(Unreadable) else ParseOf(file.name, file.source.value)
  }

  /** Strictly ascending, so no version twice. */
  predicate Ascending(migrations: seq<Migration>) {
    forall i, j :: 0 <= i < j < |migrations| ==> migrations[i].version < migrations[j].version
  }

  predicate Sorted(migrations: seq<Migration>) {
    forall i, j :: 0 <= i < j < |migrations| ==> migrations[i].version <= migrations[j].version
  }

  /** Puts a migration behind those of its version or less, as a stable sort does. */
  function Inserted(migrations: seq<Migration>, migration: Migration): seq<Migration> {
    if migrations == [] || migrations[|migrations| - 1].version <= migration.version then migrations + [migration]
    else Inserted(migrations[..|migrations| - 1], migration) + [migrations[|migrations| - 1]]
  }

  function SortByVersion(migrations: seq<Migration>): seq<Migration> {
    if migrations == [] then []
    else Inserted(SortByVersion(migrations[..|migrations| - 1]), migrations[|migrations| - 1])
  }

  lemma {:induction false} InsertedIsThere(migrations: seq<Migration>, migration: Migration)
    ensures multiset(Inserted(migrations, migration)) == multiset(migrations) + multiset{migration}
  {
    if migrations != [] && migrations[|migrations| - 1].version > migration.version {
      var front, last := migrations[..|migrations| - 1], migrations[|migrations| - 1];
      assert migrations == front + [last];
      InsertedIsThere(front, migration);
    }
  }

  lemma {:induction false} InsertedIsSorted(migrations: seq<Migration>, migration: Migration)
    requires Sorted(migrations)
    ensures Sorted(Inserted(migrations, migration))
    ensures Inserted(migrations, migration) != []
    ensures var last := Inserted(migrations, migration)[|Inserted(migrations, migration)| - 1];
            last == migration || (migrations != [] && last == migrations[|migrations| - 1])
  {
    if migrations != [] && migrations[|migrations| - 1].version > migration.version {
      var front, last := migrations[..|migrations| - 1], migrations[|migrations| - 1];
      InsertedIsSorted(front, migration);
      var inserted := Inserted(front, migration);
      assert front != [] ==> front[|front| - 1].version <= last.version;
      assert inserted[|inserted| - 1].version <= last.version;
    }
  }

  lemma {:induction false} SortSorts(migrations: seq<Migration>)
    ensures Sorted(SortByVersion(migrations)) && multiset(SortByVersion(migrations)) == multiset(migrations)
  {
    if migrations != [] {
      var front, last := migrations[..|migrations| - 1], migrations[|migrations| - 1];
      assert migrations == front + [last];
      SortSorts(front);
      InsertedIsSorted(SortByVersion(front), last);
      InsertedIsThere(SortByVersion(front), last);
    }
  }

  /** The migrations of the readable files, in the directory's order. */
  function ReadAll(files: seq<File>): Result<seq<Migration>, Error> {
    if files == [] then Success([])
    else
      var front :- ReadAll(files[..|files| - 1]);
      if !IsSql(files[|files| - 1]) then Success(front)
      else
        var last :- Read(files[|files| - 1]);
        Success(front + [last])
  }

  lemma {:induction false} ReadAllFails(files: seq<File>, n: nat)
    requires n <= |files| && ReadAll(files[..n]).Failure?
    ensures ReadAll(files) == ReadAll(files[..n])
    decreases |files| - n
  {
    if n < |files| {
      assert files[..n + 1][..n] == files[..n];
      ReadAllFails(files, n + 1);
    } else {
      assert files[..n] == files;
    }
  }

  predicate DistinctVersions(migrations: seq<Migration>) {
    forall i, j :: 0 <= i < j < |migrations| ==> migrations[i].version != migrations[j].version
  }

  /** Every migration of the directory, by version; or the first file that is none, or a version that is there twice. */
  method Load(files: seq<File>) returns (r: Result<seq<Migration>, Error>)
    ensures ReadAll(files).Failure? ==> r == Failure(ReadAll(files).error)
    ensures r.Success? ==>
              ReadAll(files).Success? && Ascending(r.value) && multiset(r.value) == multiset(ReadAll(files).value)
    ensures ReadAll(files).Success? ==> (r.Success? <==> Ascending(SortByVersion(ReadAll(files).value)))
  {
    var migrations := [];
    for i := 0 to |files|
      invariant ReadAll(files[..i]) == Success(migrations)
    {
      assert files[..i + 1][..i] == files[..i];
      if IsSql(files[i]) {
        if files[i].source.None? {
          ReadAllFails(files, i + 1);
          return Failure(Unreadable);
        }
        var parsed := Parse(files[i].name, files[i].source.value);
        if parsed.Failure? {
          ReadAllFails(files, i + 1);
          return Failure(parsed.error);
        }
        migrations := migrations + [parsed.value];
      }
    }
    assert files[..|files|] == files;
    SortSorts(migrations);
    var sorted := SortByVersion(migrations);
    r := WithoutDuplicates(sorted);
  }

  method WithoutDuplicates(sorted: seq<Migration>) returns (r: Result<seq<Migration>, Error>)
    requires Sorted(sorted)
    ensures r.Success? <==> Ascending(sorted)
    ensures r.Success? ==> r.value == sorted
  {
    var i := 1;
    while i < |sorted|
      invariant 1 <= i
      invariant forall j :: 0 < j < i && j < |sorted| ==> sorted[j - 1].version < sorted[j].version
    {
      if sorted[i - 1].version == sorted[i].version {
        return Failure(Duplicate(sorted[i].name));
      }
      i := i + 1;
    }
    NeighboursAscend(sorted);
    r := Success(sorted);
  }

  lemma {:induction false} NeighboursAscend(migrations: seq<Migration>)
    requires forall j :: 0 < j < |migrations| ==> migrations[j - 1].version < migrations[j].version
    ensures Ascending(migrations)
  {
    if migrations != [] {
      var front := migrations[..|migrations| - 1];
      NeighboursAscend(front);
      forall i | 0 <= i < |front|
        ensures migrations[i].version < migrations[|migrations| - 1].version
      {
        assert i < |front| - 1 ==> front[i].version < front[|front| - 1].version;
      }
    }
  }

  /** Sorting ends strictly ascending exactly when no two migrations have one version. */
  lemma AscendingIffDistinct(migrations: seq<Migration>)
    ensures Ascending(SortByVersion(migrations)) <==> DistinctVersions(migrations)
  {
    SortSorts(migrations);
    var sorted := SortByVersion(migrations);
    if Ascending(sorted) {
      DistinctIsMultiset(sorted, migrations);
    }
    if DistinctVersions(migrations) {
      DistinctIsMultiset(migrations, sorted);
    }
  }

  lemma DistinctIsMultiset(one: seq<Migration>, other: seq<Migration>)
    requires DistinctVersions(one) && multiset(one) == multiset(other)
    ensures DistinctVersions(other)
  {
    forall i, j | 0 <= i < j < |other|
      ensures other[i].version != other[j].version
    {
      assert other[i] in multiset(one) && other[j] in multiset(one);
      var k :| 0 <= k < |one| && one[k] == other[i];
      var l :| 0 <= l < |one| && one[l] == other[j];
      if k == l {
        TwiceInMultiset(other, i, j);
        OnceInDistinct(one, k);
      }
    }
  }

  lemma TwiceInMultiset(migrations: seq<Migration>, i: nat, j: nat)
    requires i < j < |migrations| && migrations[i] == migrations[j]
    ensures multiset(migrations)[migrations[i]] >= 2
  {
    var front, back := migrations[..j], migrations[j..];
    assert migrations == front + back;
    assert front[i] in front && back[0] in back;
  }

  lemma OnceInDistinct(migrations: seq<Migration>, k: nat)
    requires DistinctVersions(migrations) && k < |migrations|
    ensures multiset(migrations)[migrations[k]] == 1
  {
    var front, back := migrations[..k], migrations[k + 1..];
    assert migrations == front + [migrations[k]] + back;
    assert migrations[k] !in front && migrations[k] !in back;
  }
}
