/**
 Scrubbing whole texts: splitting into words loses nothing, scrubbed text holds
 separators only in API routes, and scrubbing it again changes nothing exactly when
 no URL had a separator before its scheme.
 */
module ScrubFixedPoint {
  import opened Texts
  import opened Scrubber
  import opened ScrubWords
  import opened ScrubKinds

  predicate IsWord(word: string) {
    word != "" && NoSpace(word)
  }

  /** Words with the space between them: only the last may have none. */
  predicate AreWords(pieces: seq<Piece>) {
    forall i :: 0 <= i < |pieces| ==>
      IsWord(pieces[i].word) && All(pieces[i].space, IsSpace) && (i < |pieces| - 1 ==> pieces[i].space != "")
  }

  lemma FirstWord(word: string, space: string, rest: string)
    requires IsWord(word) && All(space, IsSpace) && (rest != "" ==> space != "" && !IsSpace(rest[0]))
    ensures Words(word + space + rest) == [Piece(word, space)] + Words(rest)
  {
    hide IsSpace;
    var text := word + space + rest;
    assert text == word + (space + rest);
    FindWhereAt(word, space + rest, IsSpace);
    var after := text[|word|..];
    assert after == space + rest;
    FindWhereAt(space, rest, c => !IsSpace(c));
    assert text[..|word|] == word && after[..|space|] == space && after[|space|..] == rest;
  }

  /** Words with space between them are the words of their text. */
  lemma {:induction false} WordsOfText(pieces: seq<Piece>)
    requires AreWords(pieces)
    ensures Words(Text(pieces)) == pieces
    ensures pieces != [] ==> Text(pieces) != "" && !IsSpace(Text(pieces)[0])
  {
    hide IsSpace, Words;
    if pieces != [] {
      var rest := pieces[1..];
      assert AreWords(rest) by {
        assert forall i :: 0 <= i < |rest| ==> rest[i] == pieces[i + 1];
      }
      WordsOfText(rest);
      FirstWord(pieces[0].word, pieces[0].space, Text(rest));
      assert Text(pieces)[0] == pieces[0].word[0];
    } else {
      NoMoreWords();
    }
  }

  lemma CutTwice(text: string, wordEnd: nat, spaceEnd: nat)
    requires wordEnd + spaceEnd <= |text|
    ensures text[..wordEnd] + text[wordEnd..][..spaceEnd] + text[wordEnd + spaceEnd..] == text
    ensures text[wordEnd + spaceEnd..] == text[wordEnd..][spaceEnd..]
  {
  }

  lemma NextWord(text: string)
    requires text != "" && !IsSpace(text[0])
    ensures var first := FirstPiece(text);
            var rest := Behind(text, first);
            && first.word + first.space + rest == text && IsWord(first.word) && All(first.space, IsSpace)
            && (rest != "" ==> first.space != "" && !IsSpace(rest[0]))
  {
    hide IsSpace, FindWhere;
    var wordEnd := FindWhere(text, IsSpace);
    var word, after := text[..wordEnd], text[wordEnd..];
    var spaceEnd := FindWhere(after, c => !IsSpace(c));
    CutTwice(text, wordEnd, spaceEnd);
    assert FirstPiece(text) == Piece(word, after[..spaceEnd]);
    assert Behind(text, FirstPiece(text)) == after[spaceEnd..];
  }

  /** The words of a text are its words, and the text is theirs: nothing is lost. */
  lemma {:induction false} WordsAreLossless(text: string)
    requires text != "" ==> !IsSpace(text[0])
    ensures AreWords(Words(text)) && Text(Words(text)) == text
    decreases |text|
  {
    hide IsSpace, Words, FirstPiece, Behind;
    if text == "" {
      NoMoreWords();
    } else {
      NextWord(text);
      var first := FirstPiece(text);
      var rest := Behind(text, first);
      FirstWord(first.word, first.space, rest);
      assert |rest| < |text|;
      WordsAreLossless(rest);
      assert Words(text)[1..] == Words(rest);
      FirstOfWords(first, rest);
    }
  }

  lemma FirstOfWords(first: Piece, rest: string)
    requires IsWord(first.word) && All(first.space, IsSpace) && (rest != "" ==> first.space != "")
    requires AreWords(Words(rest))
    ensures AreWords([first] + Words(rest))
  {
    hide IsSpace, IsWord;
    var words := [first] + Words(rest);
    if rest == "" {
      NoMoreWords();
    }
    forall i | 0 <= i < |words|
      ensures IsWord(words[i].word) && All(words[i].space, IsSpace) && (i < |words| - 1 ==> words[i].space != "")
    {
      assert i > 0 ==> words[i] == Words(rest)[i - 1];
    }
  }

  // Scrubbed pieces.

  predicate NoneSlashed(pieces: seq<Piece>) {
    forall i :: 0 <= i < |pieces| ==> !SlashBeforeScheme(pieces[i].word)
  }

  predicate AllSettledWords(pieces: seq<Piece>) {
    forall i :: 0 <= i < |pieces| ==> IsSettledWord(pieces[i].word)
  }

  /** The words a first word and what it runs over leave. */
  function Step(pieces: seq<Piece>): nat
    requires pieces != []
    ensures Step(pieces) < |pieces|
  {
    if WordOf(pieces[0].word).Path? then Lost(pieces[1..]) else 0
  }

  function FirstScrubbed(pieces: seq<Piece>): Piece
    requires pieces != []
  {
    Piece(Scrubbed(WordOf(pieces[0].word), pieces[0].word, pieces[Step(pieces)].word), pieces[Step(pieces)].space)
  }

  lemma ScrubNext(pieces: seq<Piece>)
    requires pieces != []
    ensures ScrubPieces(pieces) == [FirstScrubbed(pieces)] + ScrubPieces(pieces[Step(pieces) + 1..])
  {
    hide WordOf, Scrubbed, Lost;
  }

  /** Any word but a URL behind a separator settles into one that stays. */
  lemma WordSettles(word: string, last: string)
    requires IsWord(word) && IsWord(last) && !SlashBeforeScheme(word) && (WordOf(word).Path? || last == word)
    ensures var out := Scrubbed(WordOf(word), word, last);
            IsWord(out) && IsStable(out) && IsSettledWord(out)
  {
    hide WordOf, IsStable, IsSettledWord, IsSpace, Suffix, CleanRoute;
    var kind, out := WordOf(word), Scrubbed(WordOf(word), word, last);
    match kind {
      case Plain =>
        PlainHasNoSlash(word);
        QuietIsStable(word);
      case Url(_, _) =>
        UrlSettles(word);
        QuietIsStable(out);
      case Api(_, _, _) =>
        ApiSettles(word);
      case Path(_, _) =>
        PathSettles(word, last);
        QuietIsStable(out);
    }
  }

  lemma PlainHasNoSlash(word: string)
    requires WordOf(word).Plain?
    ensures !HasSlash(word)
  {
    if HasSlash(word) {
      CoreHasIt(word);
      PathWordParts(Prefix(word), Core(word));
    }
  }

  /** A URL's word stays a word even behind a separator. */
  lemma UrlStaysWord(word: string)
    requires IsWord(word) && WordOf(word).Url?
    ensures IsWord(Scrubbed(WordOf(word), word, word))
  {
    hide Prefix, Suffix, Core, IsSpace, NoSpace;
    UrlParts(word);
    SpaceInParts(word);
    var kind := WordOf(word);
    assert Core(word) == kind.before + Core(word)[|kind.before|..];
    NoSpaceInBoth(kind.before, Core(word)[|kind.before|..]);
    QuietTags();
    NoSpaceInBoth(kind.prefix, kind.before);
    NoSpaceInBoth(kind.prefix + kind.before, "<url>");
    NoSpaceInBoth(kind.prefix + kind.before + "<url>", Suffix(word));
  }

  lemma FirstScrubbedIsWord(pieces: seq<Piece>)
    requires pieces != [] && AreWords(pieces)
    ensures IsWord(FirstScrubbed(pieces).word) && All(FirstScrubbed(pieces).space, IsSpace)
    ensures Step(pieces) < |pieces| - 1 ==> FirstScrubbed(pieces).space != ""
  {
    hide WordOf, Scrubbed, IsSpace, IsStable, IsSettledWord, NoSpace, Lost;
    var word, last := pieces[0].word, pieces[Step(pieces)].word;
    if SlashBeforeScheme(word) {
      UrlStaysWord(word);
    } else {
      WordSettles(word, last);
    }
  }

  lemma {:induction false} ScrubbedAreWords(pieces: seq<Piece>)
    requires AreWords(pieces)
    ensures AreWords(ScrubPieces(pieces)) && (pieces == [] <==> ScrubPieces(pieces) == [])
    decreases |pieces|
  {
    hide FirstScrubbed, Step, IsWord, IsSpace, ScrubPieces;
    if pieces == [] {
      NothingToScrub();
    } else {
      var rest := pieces[Step(pieces) + 1..];
      assert AreWords(rest) by {
        assert forall i :: 0 <= i < |rest| ==> rest[i] == pieces[i + Step(pieces) + 1];
      }
      ScrubbedAreWords(rest);
      ScrubNext(pieces);
      FirstScrubbedIsWord(pieces);
      var out := ScrubPieces(pieces);
      assert forall i :: 1 <= i < |out| ==> out[i] == ScrubPieces(rest)[i - 1];
    }
  }

  lemma NothingToScrub()
    ensures ScrubPieces([]) == []
  {
  }

  lemma SlashedFirst(pieces: seq<Piece>)
    requires pieces != []
    ensures NoneSlashed(pieces) <==> !SlashBeforeScheme(pieces[0].word) && NoneSlashed(pieces[Step(pieces) + 1..])
  {
    hide WordOf;
    var n := Step(pieces);
    var rest := pieces[n + 1..];
    assert forall i :: n < i < |pieces| ==> pieces[i] == rest[i - n - 1];
    assert forall i :: 0 <= i < |rest| ==> rest[i] == pieces[i + n + 1];
    assert forall i :: 0 < i <= n ==> pieces[i] == pieces[1..][i - 1] && !SlashBeforeScheme(pieces[1..][i - 1].word);
  }

  /** A stable first word is scrubbed alone. */
  lemma StableFirst(first: Piece, rest: seq<Piece>)
    requires IsStable(first.word)
    ensures ScrubPieces([first] + rest) == [first] + ScrubPieces(rest)
  {
    hide WordOf, Scrubbed, Lost, ScrubPieces;
    var pieces := [first] + rest;
    ScrubNext(pieces);
    assert pieces[1..] == rest;
  }

  lemma UnstableFirst(first: Piece, rest: seq<Piece>, word: string)
    requires SlashBeforeScheme(word) && first.word == Scrubbed(WordOf(word), word, word)
    ensures ScrubPieces([first] + rest) != [first] + ScrubPieces(rest)
    ensures ScrubPieces([first] + rest) != [first] + rest
  {
    hide WordOf, Scrubbed, Lost, ScrubPieces, SlashBeforeScheme;
    var pieces := [first] + rest;
    ScrubNext(pieces);
    SlashedUrlIsUnstable(word, pieces[Step(pieces)].word);
    assert ScrubPieces(pieces)[0].word != first.word;
  }

  /** Scrubbing the scrubbed pieces changes nothing exactly when no URL was behind a separator. */
  lemma {:induction false} PiecesFixedPoint(pieces: seq<Piece>)
    requires AreWords(pieces)
    ensures ScrubPieces(ScrubPieces(pieces)) == ScrubPieces(pieces) <==> NoneSlashed(pieces)
    ensures NoneSlashed(pieces) ==> AllSettledWords(ScrubPieces(pieces))
    decreases |pieces|
  {
    hide WordOf, Scrubbed, Lost, ScrubPieces, SlashBeforeScheme, IsStable, IsSettledWord, IsWord, IsSpace;
    if pieces == [] {
      NothingToScrub();
    } else {
      var n := Step(pieces);
      var word, rest := pieces[0].word, pieces[n + 1..];
      var first, out := FirstScrubbed(pieces), ScrubPieces(rest);
      assert AreWords(rest) by {
        assert forall i :: 0 <= i < |rest| ==> rest[i] == pieces[i + n + 1];
      }
      PiecesFixedPoint(rest);
      SlashedFirst(pieces);
      ScrubNext(pieces);
      assert ScrubPieces(pieces) == [first] + out;
      if SlashBeforeScheme(word) {
        SlashedIsUrl(word);
        UnstableFirst(first, out, word);
      } else {
        WordSettles(word, pieces[n].word);
        StableFirst(first, out);
        SameBehind(first, ScrubPieces(out), out);
        assert forall i :: 1 <= i < |[first] + out| ==> ([first] + out)[i] == out[i - 1];
      }
    }
  }

  lemma SlashedIsUrl(word: string)
    requires SlashBeforeScheme(word)
    ensures WordOf(word).Url?
  {
  }

  lemma SameBehind(first: Piece, one: seq<Piece>, two: seq<Piece>)
    ensures [first] + one == [first] + two <==> one == two
  {
    assert ([first] + one)[1..] == one && ([first] + two)[1..] == two;
  }

  // Texts.

  lemma {:induction false} SlashInText(pieces: seq<Piece>)
    requires AreWords(pieces) && !HasSlash(Text(pieces))
    ensures forall i :: 0 <= i < |pieces| ==> !HasSlash(pieces[i].word)
  {
    hide IsSpace, HasSlash, IsWord;
    if pieces != [] {
      var rest := pieces[1..];
      SlashInBoth(pieces[0].word + pieces[0].space, Text(rest));
      SlashInBoth(pieces[0].word, pieces[0].space);
      assert AreWords(rest) by {
        assert forall i :: 0 <= i < |rest| ==> rest[i] == pieces[i + 1];
      }
      SlashInText(rest);
      assert forall i :: 1 <= i < |pieces| ==> pieces[i] == rest[i - 1];
    }
  }

  lemma {:induction false} QuietPieces(pieces: seq<Piece>)
    requires AreWords(pieces) && forall i :: 0 <= i < |pieces| ==> !HasSlash(pieces[i].word)
    ensures ScrubPieces(pieces) == pieces
  {
    hide IsSpace, HasSlash, ScrubPieces, IsStable;
    if pieces == [] {
      NothingToScrub();
    } else {
      var rest := pieces[1..];
      assert AreWords(rest) by {
        assert forall i :: 0 <= i < |rest| ==> rest[i] == pieces[i + 1];
      }
      QuietPieces(rest);
      QuietIsStable(pieces[0].word);
      StableFirst(pieces[0], rest);
      assert pieces == [pieces[0]] + rest;
    }
  }

  lemma {:induction false} LeadDropped(lead: string, text: string)
    requires All(lead, IsSpace) && (text != "" ==> !IsSpace(text[0]))
    ensures TrimStart(lead + text) == text
  {
    hide IsSpace;
    if lead == "" {
      assert lead + text == text;
    } else {
      assert (lead + text)[1..] == lead[1..] + text;
      LeadDropped(lead[1..], text);
    }
  }

  /** Scrubbing a text scrubs its pieces, whether it has separators or not. */
  lemma ScrubOfPieces(lead: string, pieces: seq<Piece>)
    requires All(lead, IsSpace) && AreWords(pieces)
    ensures Scrub(lead + Text(pieces)) == lead + Text(ScrubPieces(pieces))
  {
    hide IsSpace, HasSlash, ScrubPieces, Words, Text, TrimStart;
    var text := lead + Text(pieces);
    WordsOfText(pieces);
    NoText();
    if HasSlash(text) {
      LeadDropped(lead, Text(pieces));
      assert text[..|text| - |Text(pieces)|] == lead;
    } else {
      SlashInBoth(lead, Text(pieces));
      SlashInText(pieces);
      QuietPieces(pieces);
    }
  }

  lemma NoText()
    ensures Text([]) == ""
  {
  }

  function WordsIn(text: string): seq<Piece> {
    Words(TrimStart(text))
  }

  function LeadOf(text: string): string {
    LeadingSpaceFits(text);
    text[..|text| - |TrimStart(text)|]
  }

  lemma TextIsItsWords(text: string)
    ensures All(LeadOf(text), IsSpace) && AreWords(WordsIn(text)) && text == LeadOf(text) + Text(WordsIn(text))
  {
    hide IsSpace, Words, Text, TrimStart;
    LeadingSpaceFits(text);
    WordsAreLossless(TrimStart(text));
    assert text == text[..|text| - |TrimStart(text)|] + text[|text| - |TrimStart(text)|..];
  }

  /** What `scrub_text` makes of a text, word by word. */
  lemma ScrubbedPieces(text: string)
    ensures AreWords(ScrubPieces(WordsIn(text)))
    ensures Scrub(text) == LeadOf(text) + Text(ScrubPieces(WordsIn(text)))
    ensures WordsIn(Scrub(text)) == ScrubPieces(WordsIn(text))
    ensures Scrub(Scrub(text)) == LeadOf(text) + Text(ScrubPieces(ScrubPieces(WordsIn(text))))
  {
    hide IsSpace, Scrub, ScrubPieces, Words, Text, TrimStart, LeadOf, AreWords;
    var lead, words := LeadOf(text), WordsIn(text);
    var out := ScrubPieces(words);
    TextIsItsWords(text);
    ScrubOfPieces(lead, words);
    ScrubbedAreWords(words);
    ScrubOfPieces(lead, out);
    WordsOfText(out);
    NoText();
    LeadDropped(lead, Text(out));
  }

  /**
   For every text: scrubbing it again changes nothing exactly when no URL in it has
   a `/` or `\` before its scheme.
   */
  lemma ScrubIsIdempotent(text: string)
    ensures Scrub(Scrub(text)) == Scrub(text) <==> NoneSlashed(WordsIn(text))
  {
    hide IsSpace, Scrub, ScrubPieces, Words, Text, TrimStart, LeadOf, AreWords, NoneSlashed, WordsIn;
    var words := WordsIn(text);
    var out := ScrubPieces(words);
    var again := ScrubPieces(out);
    ScrubbedPieces(text);
    TextIsItsWords(text);
    ScrubbedAreWords(out);
    WordsOfText(out);
    WordsOfText(again);
    PiecesFixedPoint(words);
    SameBehindLead(LeadOf(text), Text(out), Text(again));
  }

  lemma SameBehindLead(lead: string, one: string, two: string)
    ensures lead + one == lead + two <==> one == two
  {
    assert (lead + one)[|lead|..] == one && (lead + two)[|lead|..] == two;
  }

  /**
   Then only API routes still hold a separator, and between their slashes stands
   nothing but route words, route parameters and `<id>`.
   */
  lemma ScrubbedTextIsSettled(text: string)
    requires NoneSlashed(WordsIn(text))
    ensures AllSettledWords(WordsIn(Scrub(text)))
  {
    hide IsSpace, Scrub, ScrubPieces, Words, Text, TrimStart, LeadOf, AreWords, NoneSlashed, WordsIn, AllSettledWords;
    ScrubbedPieces(text);
    TextIsItsWords(text);
    PiecesFixedPoint(WordsIn(text));
  }

  /** Such a text: the slash stays with the masked URL, and then looks like a path. */
  lemma NotIdempotent()
    ensures Scrub(Scrub("/://")) != Scrub("/://")
  {
    hide Scrub, IsSpace, Words, Text, TrimStart, SlashBeforeScheme, ScrubPieces;
    var text := "/://";
    assert IsWord(text) by {
      PunctuationIsNoSpace(text);
    }
    FirstWord(text, "", "");
    NoMoreWords();
    assert text + "" + "" == text;
    LeadDropped("", text);
    assert "" + text == text;
    assert WordsIn(text) == [Piece(text, "")];
    SlashedExample();
    assert SlashBeforeScheme(WordsIn(text)[0].word);
    ScrubIsIdempotent(text);
  }

  lemma {:induction false} WordsFit(pieces: seq<Piece>)
    ensures forall i :: 0 <= i < |pieces| ==> |pieces[i].word| <= |Text(pieces)|
  {
    if pieces != [] {
      WordsFit(pieces[1..]);
      assert forall i :: 0 < i < |pieces| ==> pieces[i] == pieces[1..][i - 1];
    }
  }

  lemma ShortWordIsNotSlashed(word: string)
    requires |word| < 4
    ensures !SlashBeforeScheme(word)
  {
    if SlashBeforeScheme(word) {
      MatchEnds(Core(word), "://", FindText(Core(word), "://"));
    }
  }

  /** No shorter text is such a text. */
  lemma ShortTextsAreStable(text: string)
    requires |text| < 4
    ensures Scrub(Scrub(text)) == Scrub(text)
  {
    hide Scrub, IsSpace, Words, Text, TrimStart, SlashBeforeScheme, ScrubPieces;
    var words := WordsIn(text);
    TextIsItsWords(text);
    WordsFit(words);
    forall i | 0 <= i < |words|
      ensures !SlashBeforeScheme(words[i].word)
    {
      ShortWordIsNotSlashed(words[i].word);
    }
    ScrubIsIdempotent(text);
  }

  lemma PunctuationIsNoSpace(text: string)
    requires forall i :: 0 <= i < |text| ==> '!' <= text[i] <= '~'
    ensures NoSpace(text)
  {
  }

  lemma SlashedExample()
    ensures SlashBeforeScheme("/://")
  {
    var word := "/://";
    PartsOf("", word, "");
    assert "" + word + "" == word;
    assert IsSlash(word[0]);
    var found := FindText(word, "://");
    assert word == "/" + "://" && word[1..] == "://" && word[1..4] == word[1..];
    assert MatchesAt(word, "://", 1);
    assert found <= 1 && word[found..found + 3][0] == ':';
    assert word[..1] == "/" && IsSlash("/"[0]);
  }
}
