/**
 What scrubbing makes of each kind of word, with the text written out, and how far
 what is lost behind a path reaches.
 */
module ScrubMasks {
  import opened Texts
  import opened RouteWords
  import opened Scrubber
  import opened ScrubWords
  import opened ScrubKinds
  import opened ScrubFixedPoint

  predicate AllOf(text: string, kinds: string) {
    forall i :: 0 <= i < |text| ==> text[i] in kinds
  }

  /** Opening punctuation, what it encloses, and closing punctuation. Every word is made of such parts. */
  predicate IsAround(prefix: string, core: string, suffix: string) {
    && AllOf(prefix, "([{<\"'`") && AllOf(suffix, ")]}>\"'`,.;:!")
    && (core + suffix != "" ==> (core + suffix)[0] !in "([{<\"'`")
    && (core != "" ==> core[|core| - 1] !in ")]}>\"'`,.;:!")
  }

  /** They are what the scrubber takes for them. */
  lemma AroundParts(prefix: string, core: string, suffix: string)
    requires IsAround(prefix, core, suffix)
    ensures var word := prefix + core + suffix;
            Prefix(word) == prefix && Core(word) == core && Suffix(word) == suffix
  {
    var word := prefix + core + suffix;
    assert All(prefix, IsOpening) && All(suffix, IsClosing);
    assert word == prefix + (core + suffix);
    FindWhereAt(prefix, core + suffix, c => !IsOpening(c));
    assert word[|prefix|..] == core + suffix;
    TrimClosingDrops(core, suffix);
    assert word[|prefix| + |core|..] == suffix;
  }

  /** What is not punctuation stands where there is none. */
  lemma NotWithin(front: string, back: string, i: nat)
    requires i < |front + back|
    ensures All(front, IsOpening) && !IsOpening((front + back)[i]) ==> |front| <= i
    ensures All(back, IsClosing) && !IsClosing((front + back)[i]) ==> i < |front|
  {
    assert |front| <= i ==> (front + back)[i] == back[i - |front|];
  }

  // Which kind a word is.

  ghost predicate HasScheme(word: string) {
    exists i: nat :: MatchesAt(word, "://", i)
  }

  /** A scheme is never in the punctuation. */
  lemma SchemeWithin(prefix: string, core: string, suffix: string, i: nat)
    requires All(prefix, IsOpening) && All(suffix, IsClosing)
    requires MatchesAt(prefix + core + suffix, "://", i)
    ensures |prefix| <= i && MatchesAt(core, "://", i - |prefix|)
  {
    var word := prefix + core + suffix;
    var tag := word[i..i + 3];
    assert word[i] == tag[0] == ':' && word[i + 2] == tag[2] == '/';
    assert !IsOpening(':') && !IsClosing('/');
    hide IsOpening, IsClosing;
    assert word == prefix + (core + suffix);
    NotWithin(prefix, core + suffix, i);
    NotWithin(prefix + core, suffix, i + 2);
    assert core == word[|prefix|..|prefix| + |core|];
    assert core[i - |prefix|..i - |prefix| + 3] == tag;
  }

  lemma SchemeInCore(word: string)
    ensures HasScheme(word) <==> FindText(Core(word), "://") < |Core(word)|
  {
    hide Prefix, Core, Suffix, IsOpening, IsClosing;
    PartsAre(word);
    var prefix, core := Prefix(word), Core(word);
    var found := FindText(core, "://");
    if found < |core| {
      assert word[|prefix| + found..|prefix| + found + 3] == core[found..found + 3];
      assert MatchesAt(word, "://", |prefix| + found);
    }
    if HasScheme(word) {
      hide MatchesAt;
      var i: nat :| MatchesAt(word, "://", i);
      SchemeWithin(prefix, core, Suffix(word), i);
    }
  }

  /** A word with a scheme is a URL, and one without a separator is left alone. */
  lemma UrlIffScheme(word: string)
    ensures WordOf(word).Url? <==> HasScheme(word)
    ensures WordOf(word).Plain? <==> '/' !in word && '\\' !in word
  {
    hide Core, Prefix, FindText, PathWord;
    SchemeInCore(word);
    if HasSlash(word) {
      CoreHasIt(word);
      PathWordParts(Prefix(word), Core(word));
    }
    assert '/' in word || '\\' in word ==> HasSlash(word);
    if HasScheme(word) {
      var i: nat :| MatchesAt(word, "://", i);
      assert word[i + 2] == word[i..i + 3][2] == '/';
    }
  }

  predicate NoneOf(text: string, kinds: string) {
    forall i :: 0 <= i < |text| ==> text[i] !in kinds
  }

  /** A path of the API: behind `/api/` there is no `\` before the query. */
  ghost predicate IsApiPath(path: string) {
    && "/api/" <= path
    && exists end: nat :: 5 <= end <= |path| && RouteEnds(path, end)
  }

  predicate RouteEnds(path: string, end: nat)
    requires 5 <= end <= |path|
  {
    NoneOf(path[5..end], "?#\\") && (end < |path| ==> path[end] in "?#")
  }

  /** A key and its `=` stay in front of a path, and nothing else does. */
  function Kept(before: string): string {
    if before != "" && before[|before| - 1] == '=' then before else ""
  }

  /** Where a word's first separator or `~` stands, a path begins. */
  lemma PathIsFound(word: string, before: string, path: string)
    requires word == before + path && NoneOf(before, "/\\~") && path != "" && path[0] in "/\\~" && HasSlash(word)
    ensures |Prefix(word)| <= |before| && |Suffix(word)| < |path|
    ensures Core(word) == before[|Prefix(word)|..] + path[..|path| - |Suffix(word)|]
    ensures PathStart(Core(word)) == |before| - |Prefix(word)| && path[|path| - |Suffix(word)|..] == Suffix(word)
  {
    hide Prefix, Core, Suffix, FindWhere, IsOpening, IsClosing, StartsPath, NoneOf;
    FirstOfPath(path);
    PartsAre(word);
    var prefix, core, suffix := Prefix(word), Core(word), Suffix(word);
    assert word == prefix + (core + suffix) && word[|before|] == path[0];
    NotWithin(prefix, core + suffix, |before|);
    NotWithin(prefix + core, suffix, |before|);
    MiddleOf(before, path, prefix, core, suffix);
    NoneStartsPath(before, |prefix|);
    FindWhereAt(before[|prefix|..], path[..|path| - |suffix|], StartsPath);
  }

  lemma FirstOfPath(path: string)
    requires path != "" && path[0] in "/\\~"
    ensures !IsOpening(path[0]) && !IsClosing(path[0]) && StartsPath(path[0])
  {
  }

  lemma MiddleOf(before: string, path: string, prefix: string, core: string, suffix: string)
    requires before + path == prefix + core + suffix && |prefix| <= |before| && |suffix| <= |path|
    ensures core == before[|prefix|..] + path[..|path| - |suffix|] && path[|path| - |suffix|..] == suffix
  {
    var word := before + path;
    assert core == word[|prefix|..|word| - |suffix|] && suffix == word[|word| - |suffix|..];
  }

  lemma NoneStartsPath(before: string, from: nat)
    requires NoneOf(before, "/\\~") && from <= |before|
    ensures All(before[from..], c => !StartsPath(c))
  {
    var rest := before[from..];
    assert forall i :: 0 <= i < |rest| ==> rest[i] == before[from + i];
  }

  /** A word with a separator and no scheme is an API route or a file path by the text from there on. */
  lemma ApiIffRoute(word: string, before: string, path: string)
    requires word == before + path && NoneOf(before, "/\\~") && path != "" && path[0] in "/\\~" && HasSlash(word)
    requires !HasScheme(word)
    ensures WordOf(word).Api? <==> IsApiPath(path)
    ensures WordOf(word).Path? <==> !IsApiPath(path)
  {
    hide Prefix, Core, Suffix, HasScheme, HasSlash, IsApiPath, FindText, PathStart, FindWhere, StartsQuery, IsClosing;
    SchemeInCore(word);
    PathIsFound(word, before, path);
    PartsAre(word);
    var tail, suffix := path[..|path| - |Suffix(word)|], Suffix(word);
    assert Core(word)[PathStart(Core(word))..] == tail && path == tail + suffix;
    RouteReachesCore(path, tail, suffix);
    if "/api/" <= tail {
      RouteOfPath(path, tail, suffix);
    }
  }

  lemma RouteReachesCore(path: string, tail: string, suffix: string)
    requires path == tail + suffix && All(suffix, IsClosing)
    ensures IsApiPath(path) ==> "/api/" <= tail
  {
    if "/api/" <= path {
      NotWithin(tail, suffix, 4);
    }
  }

  lemma RouteOfPath(path: string, tail: string, suffix: string)
    requires path == tail + suffix && All(suffix, IsClosing) && "/api/" <= tail
    ensures IsApiPath(path) <==> '\\' !in tail[5..][..FindWhere(tail[5..], StartsQuery)]
  {
    hide FindWhere;
    var rest := tail[5..];
    var end := FindWhere(rest, StartsQuery);
    assert forall i :: 0 <= i < end ==> rest[i] == path[5 + i];
    assert forall i :: |tail| <= i < |path| ==> IsClosing(path[i]) by {
      assert forall i :: |tail| <= i < |path| ==> path[i] == suffix[i - |tail|];
    }
    if '\\' !in rest[..end] {
      var last := if end < |rest| then 5 + end else |path|;
      forall i | 0 <= i < |path[5..last]|
        ensures path[5..last][i] !in "?#\\"
      {
        assert i < end ==> rest[i] == rest[..end][i] == path[5 + i] && !StartsQuery(rest[i]);
      }
      assert RouteEnds(path, last);
    }
    if IsApiPath(path) {
      var last: nat :| 5 <= last <= |path| && RouteEnds(path, last);
      assert last < |tail| ==> rest[last - 5] == path[last] && StartsQuery(rest[last - 5]);
      assert end <= last - 5;
      forall i | 0 <= i < end
        ensures rest[..end][i] != '\\'
      {
        assert rest[i] == path[5..last][i];
      }
    }
  }

  // What is left of a word.

  predicate IsSchemeLetter(c: char) {
    c in "+.-" || 'a' <= c <= 'z' || 'A' <= c <= 'Z' || '0' <= c <= '9'
  }

  predicate IsScheme(text: string) {
    forall i :: 0 <= i < |text| ==> IsSchemeLetter(text[i])
  }

  lemma SchemeLetters()
    ensures forall c :: IsSchemeLetter(c) <==> IsSchemeChar(c)
  {
  }

  lemma {:induction false} SchemeIsFound(before: string, scheme: string, after: string)
    requires IsScheme(scheme) && (before != "" ==> !IsScheme(before[|before| - 1..]))
    ensures SchemeStart(before + scheme + after, |before + scheme|) == |before|
  {
    SchemeLetters();
    hide IsSchemeLetter, IsSchemeChar;
    var core := before + scheme + after;
    if scheme == "" {
      assert before != "" ==> core[|before| - 1] == before[|before| - 1..][0];
    } else {
      var n := |scheme| - 1;
      assert core == before + scheme[..n] + ([scheme[n]] + after);
      SchemeIsFound(before, scheme[..n], [scheme[n]] + after);
      assert core[|before| + n] == scheme[n];
    }
  }

  lemma FirstMatch(text: string, pattern: string, index: nat)
    requires pattern != "" && MatchesAt(text, pattern, index)
    requires forall i: nat :: i < index ==> !MatchesAt(text, pattern, i)
    ensures FindText(text, pattern) == index
  {
    MatchEnds(text, pattern, index);
  }

  /** The first scheme of a core, and what stands before its letters. */
  lemma SchemeOfCore(before: string, scheme: string, rest: string)
    requires IsScheme(scheme) && (before != "" ==> !IsScheme(before[|before| - 1..]))
    requires !HasScheme(before + scheme + ":/")
    ensures var core := before + scheme + "://" + rest;
            FindText(core, "://") == |before + scheme| && core[..SchemeStart(core, |before + scheme|)] == before
  {
    hide IsScheme, FindText, SchemeStart;
    var core, shorter := before + scheme + "://" + rest, before + scheme + ":/";
    assert core[|before + scheme|..|before + scheme| + 3] == "://" && core[..|shorter|] == shorter;
    forall i: nat | i < |before + scheme|
      ensures !MatchesAt(core, "://", i)
    {
      assert !MatchesAt(shorter, "://", i);
      SameMatchAt(core, shorter, "://", i, |shorter|);
    }
    FirstMatch(core, "://", |before + scheme|);
    assert core == before + scheme + ("://" + rest);
    SchemeIsFound(before, scheme, "://" + rest);
  }

  /** Of a URL's word, what stands before its scheme is left, and the punctuation around it. */
  lemma UrlLeaves(prefix: string, before: string, scheme: string, rest: string, suffix: string, last: string)
    requires IsAround(prefix, before + scheme + "://" + rest, suffix)
    requires IsScheme(scheme) && (before != "" ==> !IsScheme(before[|before| - 1..]))
    requires !HasScheme(before + scheme + ":/")
    ensures var word := prefix + (before + scheme + "://" + rest) + suffix;
            Scrubbed(WordOf(word), word, last) == prefix + before + "<url>" + suffix
  {
    hide IsAround, IsScheme, HasScheme, FindText, Prefix, Core, Suffix, HasSlash, SchemeStart;
    var core := before + scheme + "://" + rest;
    var word := prefix + core + suffix;
    AroundParts(prefix, core, suffix);
    SchemeOfCore(before, scheme, rest);
    SchemeInCore(word);
    UrlIffScheme(word);
  }

  /** Of a file path's word, a key in front of it is left, and the punctuation where its run ends. */
  lemma PathLeaves(prefix: string, before: string, path: string, suffix: string,
                   lastPrefix: string, lastCore: string, lastSuffix: string)
    requires IsAround(prefix, before + path, suffix) && IsAround(lastPrefix, lastCore, lastSuffix)
    requires NoneOf(before, "/\\~") && path != "" && path[0] in "/\\~"
    requires var word := prefix + (before + path) + suffix;
             ('/' in word || '\\' in word) && !HasScheme(word) && !IsApiPath(path + suffix)
    ensures var word, last := prefix + (before + path) + suffix, lastPrefix + lastCore + lastSuffix;
            WordOf(word).Path? && Scrubbed(WordOf(word), word, last) == prefix + Kept(before) + "<path>" + lastSuffix
  {
    hide HasScheme, IsApiPath, FindText, Core, FindWhere;
    var core := before + path;
    var word := prefix + core + suffix;
    AroundParts(prefix, core, suffix);
    AroundParts(lastPrefix, lastCore, lastSuffix);
    PathOfParts(prefix, before, path, suffix);
    PathAfter(before, path);
    ApiIffRoute(word, prefix + before, path + suffix);
    SchemeInCore(word);
  }

  lemma PathOfParts(prefix: string, before: string, path: string, suffix: string)
    requires IsAround(prefix, before + path, suffix)
    requires NoneOf(before, "/\\~") && path != "" && path[0] in "/\\~"
    ensures prefix + (before + path) + suffix == (prefix + before) + (path + suffix)
    ensures NoneOf(prefix + before, "/\\~")
  {
  }

  lemma PathAfter(before: string, path: string)
    requires NoneOf(before, "/\\~") && path != "" && path[0] in "/\\~"
    ensures PathStart(before + path) == |before| && (before + path)[|before|..] == path
    ensures Lead((before + path)[..|before|]) == Kept(before)
  {
    assert All(before, c => !StartsPath(c));
    FindWhereAt(before, path, StartsPath);
    assert (before + path)[..|before|] == before;
  }

  /** A segment as it stands between the slashes of a route. */
  predicate IsSegment(segment: string) {
    '/' !in segment && '?' !in segment && '#' !in segment && '\\' !in segment
  }

  lemma {:induction false} JoinLacks(segments: seq<string>, c: char)
    requires c != '/' && forall segment :: segment in segments ==> c !in segment
    ensures c !in Join(segments, '/')
  {
    if |segments| > 1 {
      JoinLacks(segments[1..], c);
    }
  }

  /** Of an API route's word, everything is left but its query, and its segments are cleaned one by one. */
  lemma ApiLeaves(prefix: string, before: string, segments: seq<string>, query: string, suffix: string, last: string)
    requires IsAround(prefix, before + "/api/" + Join(segments, '/') + query, suffix)
    requires NoneOf(before, "/\\~") && (query != "" ==> query[0] in "?#")
    requires segments != [] && forall segment :: segment in segments ==> IsSegment(segment)
    requires !HasScheme(prefix + (before + "/api/" + Join(segments, '/') + query) + suffix)
    ensures var word := prefix + (before + "/api/" + Join(segments, '/') + query) + suffix;
            WordOf(word).Api?
            && Scrubbed(WordOf(word), word, last)
               == prefix + Kept(before) + "/api/" + Join(CleanAll(segments), '/') + suffix
  {
    hide HasScheme, HasSlash, FindText, Core, PathWord, IsAround, Prefix, Suffix, Join, Split, CleanAll;
    var core := before + "/api/" + Join(segments, '/') + query;
    var word := prefix + core + suffix;
    AroundParts(prefix, core, suffix);
    SchemeInCore(word);
    assert IsSlash(word[|prefix + before|]);
    assert HasSlash(word) by {
      NoneMissed(word, |prefix + before|);
    }
    RouteOfWord(prefix, before, segments, query);
    RouteIsFound(segments, query);
    SplitOfJoin(segments, '/');
  }

  lemma NoneMissed(text: string, i: nat)
    requires i < |text| && IsSlash(text[i])
    ensures HasSlash(text)
  {
  }

  lemma RouteOfWord(prefix: string, before: string, segments: seq<string>, query: string)
    requires NoneOf(before, "/\\~") && (query != "" ==> query[0] in "?#")
    requires forall segment :: segment in segments ==> IsSegment(segment)
    ensures PathWord(prefix, before + "/api/" + Join(segments, '/') + query)
            == Api(prefix, Kept(before), Join(segments, '/'))
  {
    hide FindWhere, Join, NoneOf, StartsQuery;
    var rest := Join(segments, '/') + query;
    var path := "/api/" + rest;
    assert before + "/api/" + Join(segments, '/') + query == before + path;
    PathAfter(before, path);
    RouteIsFound(segments, query);
    assert path[5..] == rest;
  }

  lemma RouteIsFound(segments: seq<string>, query: string)
    requires query != "" ==> query[0] in "?#"
    requires forall segment :: segment in segments ==> IsSegment(segment)
    ensures var route := Join(segments, '/');
            var rest := route + query;
            rest[..FindWhere(rest, StartsQuery)] == route && '\\' !in route
  {
    hide Join;
    var route := Join(segments, '/');
    JoinLacks(segments, '?');
    JoinLacks(segments, '#');
    JoinLacks(segments, '\\');
    assert All(route, c => !StartsQuery(c));
    FindWhereAt(route, query, StartsQuery);
    assert (route + query)[..|route|] == route;
  }

  predicate IsNameText(text: string) {
    forall i :: 0 <= i < |text| ==> text[i] == '_' || 'a' <= text[i] <= 'z' || 'A' <= text[i] <= 'Z'
  }

  /** A template's parameter, with or without the brace that a word's end loses. */
  ghost predicate IsParameter(segment: string) {
    exists name :: name != "" && IsNameText(name) && (segment == "{" + name || segment == "{" + name + "}")
  }

  lemma ParameterIsFound(segment: string)
    ensures IsRouteParameter(segment) <==> IsParameter(segment)
  {
    if IsRouteParameter(segment) {
      var rest := segment[1..];
      var name := Unclosed(rest);
      assert segment == "{" + rest && (rest == name || rest == name + "}");
      assert IsNameText(name) by {
        assert forall i :: 0 <= i < |name| ==> IsNameChar(name[i]);
      }
      assert name != "" && (segment == "{" + name || segment == "{" + name + "}");
    }
    if IsParameter(segment) {
      var name :| name != "" && IsNameText(name) && (segment == "{" + name || segment == "{" + name + "}");
      NameIsFound(name);
    }
  }

  lemma NameIsFound(name: string)
    requires name != "" && IsNameText(name)
    ensures IsRouteParameter("{" + name) && IsRouteParameter("{" + name + "}")
  {
    var whole := "{" + name + "}";
    assert whole[1..] == name + "}" && Unclosed(name + "}") == name;
    assert ("{" + name)[1..] == name && name[|name| - 1] != '}';
  }

  /**
   A segment is left as it is if it identifies nothing and becomes `<id>` if not;
   what starts with a digit or a capital always does.
   */
  lemma SegmentLeaves(segment: string)
    ensures var identifiesNothing := segment in {"", "<id", "<id>"} || IsRouteWord(segment) || IsParameter(segment);
            Clean(segment) == if identifiesNothing then segment else "<id>"
    ensures segment != "" && ('0' <= segment[0] <= '9' || 'A' <= segment[0] <= 'Z') ==> Clean(segment) == "<id>"
  {
    hide IsRouteWord, IsRouteParameter, IsParameter;
    ParameterIsFound(segment);
    if IsRouteWord(segment) {
      RouteWordShape(segment);
    }
    if IsRouteParameter(segment) {
      ParameterStarts(segment);
    }
  }

  lemma ParameterStarts(segment: string)
    requires IsRouteParameter(segment)
    ensures segment[0] == '{'
  {
  }

  // How far a path's run reaches.

  /** A word that is neither a URL nor an API route. */
  predicate IsLostBehind(word: string) {
    WordOf(word).Plain? || WordOf(word).Path?
  }

  /** A path takes with it every word up to the next URL or API route, or to the end. */
  lemma PathTakesRun(pieces: seq<Piece>, n: nat)
    requires n < |pieces| && WordOf(pieces[0].word).Path?
    requires forall i :: 0 < i <= n ==> IsLostBehind(pieces[i].word)
    requires n + 1 == |pieces| || !IsLostBehind(pieces[n + 1].word)
    ensures ScrubPieces(pieces)
            == [Piece(Scrubbed(WordOf(pieces[0].word), pieces[0].word, pieces[n].word), pieces[n].space)]
               + ScrubPieces(pieces[n + 1..])
  {
    hide WordOf, Scrubbed, Lost;
    assert forall i :: 0 <= i < |pieces[1..]| ==> pieces[1..][i] == pieces[i + 1];
    assert Lost(pieces[1..]) == n;
  }

  /** Any other word is scrubbed alone. */
  lemma OthersStandAlone(pieces: seq<Piece>)
    requires pieces != [] && !WordOf(pieces[0].word).Path?
    ensures ScrubPieces(pieces)
            == [Piece(Scrubbed(WordOf(pieces[0].word), pieces[0].word, pieces[0].word), pieces[0].space)]
               + ScrubPieces(pieces[1..])
  {
    hide WordOf, Scrubbed;
  }

  lemma {:induction false} QuietInFront(quiet: seq<Piece>, rest: seq<Piece>)
    requires forall i :: 0 <= i < |quiet| ==> IsQuiet(quiet[i].word)
    ensures ScrubPieces(quiet + rest) == quiet + ScrubPieces(rest)
    ensures Text(quiet + ScrubPieces(rest)) == Text(quiet) + Text(ScrubPieces(rest))
  {
    hide IsQuiet, ScrubPieces, IsStable;
    if quiet == [] {
      NoText();
      assert quiet + rest == rest && quiet + ScrubPieces(rest) == ScrubPieces(rest);
    } else {
      var first, more := quiet[0], quiet[1..];
      QuietInFront(more, rest);
      QuietIsStable(first.word);
      StableFirst(first, more + rest);
      assert quiet + rest == [first] + (more + rest);
      assert quiet + ScrubPieces(rest) == [first] + (more + ScrubPieces(rest));
      assert (quiet + ScrubPieces(rest))[1..] == more + ScrubPieces(rest);
    }
  }

  /**
   Of a text whose first separator is in a file path with neither a URL nor an API
   route behind it, nothing is left from that path on but the mask and the space
   and punctuation the text ends in.
   */
  lemma NothingBehindPath(lead: string, quiet: seq<Piece>, run: seq<Piece>)
    requires All(lead, IsSpace) && AreWords(quiet + run) && forall i :: 0 <= i < |quiet| ==> IsQuiet(quiet[i].word)
    requires run != [] && WordOf(run[0].word).Path? && forall i :: 0 <= i < |run| ==> IsLostBehind(run[i].word)
    ensures var last := run[|run| - 1];
            Scrub(lead + Text(quiet + run))
            == lead + (Text(quiet) + Scrubbed(WordOf(run[0].word), run[0].word, last.word) + last.space)
  {
    hide IsSpace, IsQuiet, ScrubPieces, WordOf, Scrubbed, Scrub, AreWords, IsLostBehind;
    var n := |run| - 1;
    var left := Piece(Scrubbed(WordOf(run[0].word), run[0].word, run[n].word), run[n].space);
    ScrubOfPieces(lead, quiet + run);
    QuietInFront(quiet, run);
    PathTakesRun(run, n);
    NothingToScrub();
    assert run[n + 1..] == [] && [left] + [] == [left];
    NoText();
    assert Text([left]) == left.word + left.space;
  }
}
