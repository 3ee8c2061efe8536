/**
 The scrubber of text on its way to the error tracker: URLs, file paths and the
 identifying segments of API routes do not leave the server
 (server/src/observability.rs:30-34, 471-648).
 */
module Scrubber {
  import opened Texts
  import opened RouteWords

  predicate IsSlash(c: char) {
    c == '/' || c == '\\'
  }

  predicate HasSlash(text: string) {
    exists i :: 0 <= i < |text| && IsSlash(text[i])
  }

  predicate IsOpening(c: char) {
    c in {'(', '[', '{', '<', '"', '\'', '`'}
  }

  predicate IsClosing(c: char) {
    c in {')', ']', '}', '>', '"', '\'', '`', ',', '.', ';', ':', '!'}
  }

  function Opening(word: string): (length: nat)
    ensures length <= |word|
  {
    FindWhere(word, c => !IsOpening(c))
  }

  function TrimClosing(text: string): (core: string)
    ensures core <= text
    ensures core != "" ==> !IsClosing(core[|core| - 1])
    ensures forall i :: |core| <= i < |text| ==> IsClosing(text[i])
  {
    if text != "" && IsClosing(text[|text| - 1]) then
      assert forall i :: 0 <= i < |text| - 1 ==> text[i] == text[..|text| - 1][i];
      TrimClosing(text[..|text| - 1])
    else text
  }

  /** A word's opening punctuation, what it encloses, and its closing punctuation. */
  function Prefix(word: string): string {
    word[..Opening(word)]
  }

  function Core(word: string): (core: string)
    ensures |Prefix(word)| + |core| <= |word|
  {
    TrimClosing(word[Opening(word)..])
  }

  function Suffix(word: string): string {
    word[|Prefix(word)| + |Core(word)|..]
  }

  /** How the scrubber reads a word. */
  datatype Word =
    | Plain
    | Url(prefix: string, before: string)
    | Api(prefix: string, lead: string, route: string)
    | Path(prefix: string, lead: string)

  predicate IsSchemeChar(c: char) {
    'a' <= c <= 'z' || 'A' <= c <= 'Z' || IsDigit(c) || c in {'+', '.', '-'}
  }

  /** Where the letters of a scheme that ends here begin. */
  function SchemeStart(core: string, end: nat): (start: nat)
    requires end <= |core|
    ensures start <= end
  {
    if end == 0 || !IsSchemeChar(core[end - 1]) then end else SchemeStart(core, end - 1)
  }

  predicate StartsPath(c: char) {
    IsSlash(c) || c == '~'
  }

  predicate StartsQuery(c: char) {
    c == '?' || c == '#'
  }

  /** Of the text in front of a path, a key with its separator survives. */
  function Lead(before: string): string {
    if before != "" && before[|before| - 1] == '=' then before else ""
  }

  /** Where a path starts in a core, if it has one. */
  function PathStart(core: string): (start: nat)
    ensures start <= |core|
  {
    var found := FindWhere(core, StartsPath);
    if found == |core| then 0 else found
  }

  /** A core that holds no URL. */
  function PathWord(prefix: string, core: string): Word {
    var start := PathStart(core);
    var lead, path := Lead(core[..start]), core[start..];
    if "/api/" <= path then
      var route := path[5..][..FindWhere(path[5..], StartsQuery)];
      if '\\' !in route then Api(prefix, lead, route) else Path(prefix, lead)
    else Path(prefix, lead)
  }

  function WordOf(word: string): Word {
    if !HasSlash(word) then Plain
    else
      var core := Core(word);
      var scheme := FindText(core, "://");
      if scheme < |core| then Url(Prefix(word), core[..SchemeStart(core, scheme)]) else PathWord(Prefix(word), core)
  }

  predicate IsNameChar(c: char) {
    'a' <= c <= 'z' || 'A' <= c <= 'Z' || c == '_'
  }

  predicate IsName(name: string) {
    name != "" && forall i :: 0 <= i < |name| ==> IsNameChar(name[i])
  }

  function Unclosed(name: string): string {
    if name != "" && name[|name| - 1] == '}' then name[..|name| - 1] else name
  }

  /** A route template's parameter; at the end of a word its `}` is trimmed. */
  predicate IsRouteParameter(segment: string) {
    segment != "" && segment[0] == '{' && IsName(Unclosed(segment[1..]))
  }

  /** A segment without an identifier in it. `<id` was `<id>` before the word lost its closing marks. */
  predicate IsKept(segment: string) {
    segment == "" || IsRouteWord(segment) || segment == "<id" || IsRouteParameter(segment)
  }

  function Clean(segment: string): string {
    if IsKept(segment) then segment else "<id>"
  }

  function CleanAll(segments: seq<string>): (cleaned: seq<string>)
    ensures |cleaned| == |segments|
  {
    seq(|segments|, i requires 0 <= i < |segments| => Clean(segments[i]))
  }

  function CleanRoute(route: string): string {
    Join(CleanAll(Split(route, '/')), '/')
  }

  /** A word scrubbed where it stands; a path's run ends with `last`. */
  function Scrubbed(kind: Word, word: string, last: string): string {
    match kind
    case Plain => word
    case Url(prefix, before) => prefix + before + "<url>" + Suffix(word)
    case Api(prefix, lead, route) => prefix + lead + "/api/" + CleanRoute(route) + Suffix(word)
    case Path(prefix, lead) => prefix + lead + "<path>" + Suffix(last)
  }

  /** A word and the space after it. */
  datatype Piece = Piece(word: string, space: string)

  /** The first word of a text and the space after it. */
  function FirstPiece(text: string): (piece: Piece)
    requires text != ""
    ensures 0 < |piece.word| + |piece.space| <= |text|
  {
    var wordEnd := FindWhere(text, IsSpace);
    var after := text[wordEnd..];
    Piece(text[..wordEnd], after[..FindWhere(after, c => !IsSpace(c))])
  }

  function Behind(text: string, piece: Piece): string
    requires |piece.word| + |piece.space| <= |text|
  {
    text[|piece.word| + |piece.space|..]
  }

  function Words(text: string): seq<Piece>
    decreases |text|
  {
    if text == "" then [] else [FirstPiece(text)] + Words(Behind(text, FirstPiece(text)))
  }

  function Text(pieces: seq<Piece>): string {
    if pieces == [] then "" else pieces[0].word + pieces[0].space + Text(pieces[1..])
  }

  /** How many words after a path are lost with it: those before the next URL or API path. */
  function Lost(pieces: seq<Piece>): (count: nat)
    ensures count <= |pieces|
    ensures forall i :: 0 <= i < count ==> WordOf(pieces[i].word).Plain? || WordOf(pieces[i].word).Path?
    ensures count < |pieces| ==> WordOf(pieces[count].word).Url? || WordOf(pieces[count].word).Api?
  {
    if pieces == [] || WordOf(pieces[0].word).Url? || WordOf(pieces[0].word).Api? then 0 else
    var count := Lost(pieces[1..]);
    assert forall i :: 1 <= i < 1 + count ==> pieces[i] == pieces[1..][i - 1];
    1 + count
  }

  function ScrubPieces(pieces: seq<Piece>): seq<Piece> {
    if pieces == [] then []
    else
      var kind := WordOf(pieces[0].word);
      var lost := if kind.Path? then Lost(pieces[1..]) else 0;
      [Piece(Scrubbed(kind, pieces[0].word, pieces[lost].word), pieces[lost].space)] + ScrubPieces(pieces[lost + 1..])
  }

  /** Text without a separator is left as it is. */
  function Scrub(text: string): string {
    if !HasSlash(text) then text
    else
      var rest := TrimStart(text);
      LeadingSpaceFits(text);
      text[..|text| - |rest|] + Text(ScrubPieces(Words(rest)))
  }

  lemma {:induction false} LeadingSpaceFits(text: string)
    ensures |TrimStart(text)| <= |text| && text[|text| - |TrimStart(text)|..] == TrimStart(text)
    ensures forall i :: 0 <= i < |text| - |TrimStart(text)| ==> IsSpace(text[i])
    ensures TrimStart(text) != "" ==> !IsSpace(TrimStart(text)[0])
  {
    if text != "" && IsSpace(text[0]) {
      LeadingSpaceFits(text[1..]);
      var cut := |text| - |TrimStart(text)|;
      assert text[cut..] == text[1..][cut - 1..];
      assert forall i :: 1 <= i < cut ==> text[i] == text[1..][i - 1];
    }
  }

  // The loops.

  lemma MoreWords(words: seq<Piece>, text: string)
    requires text != ""
    ensures words + Words(text) == words + [FirstPiece(text)] + Words(Behind(text, FirstPiece(text)))
  {
    hide FirstPiece;
  }

  method WordsOf(text: string) returns (words: seq<Piece>)
    ensures words == Words(text)
  {
    hide Words, FindWhere, IsSpace;
    words := [];
    var rest := text;
    assert words + Words(text) == Words(text);
    while rest != ""
      invariant Words(text) == words + Words(rest)
      decreases |rest|
    {
      MoreWords(words, rest);
      var wordEnd := FindWhere(rest, IsSpace);
      var after := rest[wordEnd..];
      var spaceEnd := FindWhere(after, c => !IsSpace(c));
      words := words + [Piece(rest[..wordEnd], after[..spaceEnd])];
      assert after[spaceEnd..] == rest[wordEnd + spaceEnd..];
      rest := after[spaceEnd..];
    }
    NoMoreWords();
    assert words + [] == words;
  }

  lemma NoMoreWords()
    ensures Words("") == []
  {
  }

  lemma NextScrubbed(words: seq<Piece>, index: nat, last: nat)
    requires index <= last < |words|
    requires last == index + if WordOf(words[index].word).Path? then Lost(words[index + 1..]) else 0
    ensures Text(ScrubPieces(words[index..]))
            == Scrubbed(WordOf(words[index].word), words[index].word, words[last].word) + words[last].space
               + Text(ScrubPieces(words[last + 1..]))
  {
    hide WordOf, Scrubbed, Lost;
    var rest := words[index..];
    assert rest[1..] == words[index + 1..] && rest[last - index] == words[last]
        && rest[last - index + 1..] == words[last + 1..];
    var first := Piece(Scrubbed(WordOf(words[index].word), words[index].word, words[last].word), words[last].space);
    assert ScrubPieces(rest) == [first] + ScrubPieces(words[last + 1..]);
    assert ScrubPieces(rest)[1..] == ScrubPieces(words[last + 1..]);
  }

  method ScrubText(text: string) returns (scrubbed: string)
    ensures scrubbed == Scrub(text)
  {
    hide WordOf, Scrubbed, Lost, ScrubPieces, Text, Words;
    if !HasSlash(text) {
      return text;
    }
    LeadingSpaceFits(text);
    var rest := TrimStart(text);
    scrubbed := text[..|text| - |rest|];
    ghost var lead := scrubbed;
    var words := WordsOf(rest);
    assert words[0..] == words;
    var index := 0;
    while index < |words|
      invariant index <= |words|
      invariant lead + Text(ScrubPieces(words)) == scrubbed + Text(ScrubPieces(words[index..]))
    {
      var word := words[index].word;
      var kind := WordOf(word);
      var last := index;
      if kind.Path? {
        last := LastLost(words, index);
      }
      NextScrubbed(words, index, last);
      ghost var next, more := Scrubbed(kind, word, words[last].word) + words[last].space,
              Text(ScrubPieces(words[last + 1..]));
      assert scrubbed + (next + more) == (scrubbed + next) + more;
      scrubbed := scrubbed + (Scrubbed(kind, word, words[last].word) + words[last].space);
      index := last + 1;
    }
    NothingScrubbed(words[index..]);
    assert scrubbed + "" == scrubbed;
  }

  lemma NothingScrubbed(words: seq<Piece>)
    requires words == []
    ensures Text(ScrubPieces(words)) == ""
  {
  }

  lemma NextLost(words: seq<Piece>, next: nat)
    requires next < |words|
    ensures var kind := WordOf(words[next].word);
            Lost(words[next..]) == if kind.Url? || kind.Api? then 0 else 1 + Lost(words[next + 1..])
  {
    hide WordOf;
    assert words[next..][1..] == words[next + 1..];
  }

  /** The words a path runs over. */
  method LastLost(words: seq<Piece>, index: nat) returns (last: nat)
    requires index < |words|
    ensures last == index + Lost(words[index + 1..]) && last < |words|
  {
    hide WordOf, Lost;
    last := index;
    var next := index + 1;
    while next < |words|
      invariant index < next <= |words| && last == next - 1
      invariant index + Lost(words[index + 1..]) == last + Lost(words[next..])
    {
      NextLost(words, next);
      var kind := WordOf(words[next].word);
      if kind.Url? || kind.Api? {
        return;
      }
      last := next;
      next := next + 1;
    }
  }
}
