/**
 What scrubbing one word leaves: a word without a separator, or an API route whose
 segments identify nothing, and in both cases a word that scrubs to itself.
 */
module ScrubWords {
  import opened Texts
  import opened RouteWords
  import opened Scrubber

  predicate All(text: string, kind: char -> bool) {
    forall i :: 0 <= i < |text| ==> kind(text[i])
  }

  lemma {:induction false} FindWhereAt(before: string, after: string, kind: char -> bool)
    requires All(before, c => !kind(c)) && (after != "" ==> kind(after[0]))
    ensures FindWhere(before + after, kind) == |before|
  {
    if before == "" {
      assert before + after == after;
    } else {
      assert (before + after)[1..] == before[1..] + after;
      FindWhereAt(before[1..], after, kind);
    }
  }

  lemma {:induction false} TrimClosingDrops(core: string, suffix: string)
    requires All(suffix, IsClosing) && (core != "" ==> !IsClosing(core[|core| - 1]))
    ensures TrimClosing(core + suffix) == core
  {
    if suffix == "" {
      assert core + suffix == core;
    } else {
      assert (core + suffix)[..|core + suffix| - 1] == core + suffix[..|suffix| - 1];
      TrimClosingDrops(core, suffix[..|suffix| - 1]);
    }
  }

  /** A core starts and ends with what is not trimmed. */
  predicate IsCore(core: string) {
    core != "" && !IsOpening(core[0]) && !IsClosing(core[|core| - 1])
  }

  /** The parts of a word are the only ones it has. */
  lemma PartsOf(prefix: string, core: string, suffix: string)
    requires All(prefix, IsOpening) && IsCore(core) && All(suffix, IsClosing)
    ensures var word := prefix + core + suffix;
            Prefix(word) == prefix && Core(word) == core && Suffix(word) == suffix
  {
    var word := prefix + core + suffix;
    assert word == prefix + (core + suffix);
    FindWhereAt(prefix, core + suffix, c => !IsOpening(c));
    assert word[|prefix|..] == core + suffix;
    TrimClosingDrops(core, suffix);
    assert word[|prefix| + |core|..] == suffix;
  }

  lemma PartsAre(word: string)
    ensures word == Prefix(word) + Core(word) + Suffix(word)
    ensures All(Prefix(word), IsOpening) && All(Suffix(word), IsClosing)
    ensures Core(word) != "" ==> IsCore(Core(word))
  {
    hide TrimClosing, FindWhere, IsOpening, IsClosing;
    var rest, core := word[Opening(word)..], Core(word);
    var tail := rest[|core|..];
    assert Suffix(word) == tail;
    forall i | 0 <= i < |tail|
      ensures IsClosing(tail[i])
    {
      assert tail[i] == rest[|core| + i];
    }
    assert core == rest[..|core|];
    assert core != "" ==> core[0] == rest[0] == word[Opening(word)];
    assert word == word[..Opening(word)] + rest && rest == core + tail;
  }

  lemma NoSlashInPunctuation(text: string)
    requires All(text, IsOpening) || All(text, IsClosing)
    ensures !HasSlash(text)
  {
    assert forall i :: 0 <= i < |text| ==> IsOpening(text[i]) || IsClosing(text[i]);
  }

  lemma SlashInBoth(one: string, two: string)
    ensures HasSlash(one + two) <==> HasSlash(one) || HasSlash(two)
  {
    var both := one + two;
    if HasSlash(one) {
      var i :| 0 <= i < |one| && IsSlash(one[i]);
      assert IsSlash(both[i]);
    }
    if HasSlash(two) {
      var i :| 0 <= i < |two| && IsSlash(two[i]);
      assert IsSlash(both[|one| + i]);
    }
  }

  /** Everything but the core is punctuation, so a word's separators are in its core. */
  lemma SlashInCore(word: string)
    ensures HasSlash(word) <==> HasSlash(Core(word))
  {
    PartsAre(word);
    NoSlashInPunctuation(Prefix(word));
    NoSlashInPunctuation(Suffix(word));
    SlashInBoth(Prefix(word) + Core(word), Suffix(word));
    SlashInBoth(Prefix(word), Core(word));
  }

  // Segments.

  /** What may stand between the slashes of a scrubbed route. */
  predicate IsSettled(segment: string) {
    IsKept(segment) || segment == "<id>"
  }

  predicate IsSegmentChar(c: char) {
    IsRouteChar(c) || 'A' <= c <= 'Z' || c in {'_', '<', '>', '{', '}'}
  }

  lemma SettledChars(segment: string)
    requires IsSettled(segment)
    ensures All(segment, IsSegmentChar)
  {
    hide IsRouteWord;
    if IsRouteWord(segment) {
      RouteWordShape(segment);
    } else if IsRouteParameter(segment) {
      var inner := Unclosed(segment[1..]);
      forall i | 0 <= i < |segment|
        ensures IsSegmentChar(segment[i])
      {
        assert 0 < i <= |inner| ==> segment[i] == inner[i - 1] && IsNameChar(inner[i - 1]);
      }
    }
  }

  /** The closing punctuation a scrubbed route may end in: that of `<id>` or of a parameter. */
  function Tail(segment: string): string {
    if segment != "" && (segment[|segment| - 1] == '>' || segment[|segment| - 1] == '}') then [segment[|segment| - 1]]
        else ""
  }

  function Trimmed(segment: string): string {
    segment[..|segment| - |Tail(segment)|]
  }

  lemma TrimmedParameter(segment: string)
    requires IsRouteParameter(segment)
    ensures IsRouteParameter(Trimmed(segment)) && All(Tail(segment), IsClosing)
    ensures !IsClosing(Trimmed(segment)[|Trimmed(segment)| - 1])
  {
    var name, inner := segment[1..], Unclosed(segment[1..]);
    assert IsNameChar(inner[|inner| - 1]) && segment[|segment| - 1] == name[|name| - 1];
    assert Trimmed(segment) == ['{'] + inner && Trimmed(segment)[1..] == inner;
  }

  lemma TrimmedSegment(segment: string)
    requires IsSettled(segment)
    ensures segment == Trimmed(segment) + Tail(segment) && IsKept(Trimmed(segment)) && All(Tail(segment), IsClosing)
    ensures Trimmed(segment) != "" ==> !IsClosing(Trimmed(segment)[|Trimmed(segment)| - 1])
  {
    hide IsRouteWord, IsRouteParameter;
    if IsRouteParameter(segment) {
      TrimmedParameter(segment);
    } else if IsRouteWord(segment) {
      RouteWordShape(segment);
      assert IsRouteChar(segment[|segment| - 1]) && Trimmed(segment) == segment;
    } else if segment == "<id>" {
      assert Trimmed(segment) == "<id";
    } else {
      assert Trimmed(segment) == segment;
    }
  }

  // Routes.

  predicate AllSettled(segments: seq<string>) {
    forall segment :: segment in segments ==> IsSettled(segment)
  }

  predicate IsRouteTextChar(c: char) {
    IsSegmentChar(c) || c == '/'
  }

  lemma {:induction false} JoinChars(segments: seq<string>)
    requires AllSettled(segments)
    ensures All(Join(segments, '/'), IsRouteTextChar)
  {
    hide IsSettled, IsSegmentChar;
    if segments != [] {
      SettledChars(segments[0]);
      JoinChars(segments[1..]);
    }
  }

  lemma CleanSettles(segments: seq<string>)
    ensures AllSettled(CleanAll(segments))
    ensures AllSettled(segments) ==> CleanAll(segments) == segments
  {
    hide IsKept;
    var cleaned := CleanAll(segments);
    forall segment | segment in cleaned
      ensures IsSettled(segment)
    {
      var i :| 0 <= i < |cleaned| && cleaned[i] == segment;
      assert cleaned[i] == Clean(segments[i]);
    }
    if AllSettled(segments) {
      forall i | 0 <= i < |segments|
        ensures cleaned[i] == segments[i]
      {
        assert segments[i] in segments;
      }
    }
  }

  /** A route as it stands once the word's closing punctuation is trimmed. */
  function TrimmedRoute(segments: seq<string>): seq<string>
    requires segments != []
  {
    segments[..|segments| - 1] + [Trimmed(segments[|segments| - 1])]
  }

  lemma TrimmedRouteSettles(segments: seq<string>)
    requires segments != [] && AllSettled(segments)
    ensures AllSettled(TrimmedRoute(segments)) && TrimmedRoute(segments) != []
  {
    hide IsKept, Trimmed, Tail;
    TrimmedSegment(segments[|segments| - 1]);
  }

  lemma {:induction false} TrimmedRouteEnds(segments: seq<string>)
    requires segments != [] && AllSettled(segments)
    ensures var route, tail := Join(TrimmedRoute(segments), '/'), Tail(segments[|segments| - 1]);
            && Join(segments, '/') == route + tail && All(tail, IsClosing)
            && (route != "" ==> !IsClosing(route[|route| - 1]))
            && (route == "" ==> |segments| == 1)
  {
    hide IsKept, Trimmed, Tail;
    var last := segments[|segments| - 1];
    TrimmedSegment(last);
    if |segments| == 1 {
      assert TrimmedRoute(segments) == [Trimmed(last)];
    } else {
      var rest := segments[1..];
      TrimmedRouteEnds(rest);
      assert TrimmedRoute(segments) == [segments[0]] + TrimmedRoute(rest);
      assert TrimmedRoute(segments)[1..] == TrimmedRoute(rest);
      var front, route := segments[0] + ['/'], Join(TrimmedRoute(rest), '/');
      assert front + (route + Tail(last)) == front + route + Tail(last);
    }
  }

  // API words.

  /** A key before a path, or nothing. */
  predicate IsLead(lead: string) {
    && (lead != "" ==> lead[|lead| - 1] == '=' && !IsOpening(lead[0]))
    && All(lead, c => !StartsPath(c))
  }

  function ApiCore(lead: string, route: string): string {
    lead + "/api/" + route
  }

  predicate NoScheme(core: string) {
    forall i :: 0 <= i < |core| - 1 ==> core[i] != ':' || core[i + 1] != '/'
  }

  lemma SchemeMatch(core: string, i: nat)
    requires MatchesAt(core, "://", i)
    ensures core[i] == ':' && core[i + 1] == '/'
  {
    assert core[i..i + 3][0] == ':' && core[i..i + 3][1] == '/';
  }

  lemma NoSchemeFound(core: string)
    requires NoScheme(core)
    ensures FindText(core, "://") == |core|
  {
    var found := FindText(core, "://");
    if found < |core| {
      SchemeMatch(core, found);
    }
  }

  lemma NoSchemeInRoute(lead: string, route: string)
    requires IsLead(lead) && All(route, IsRouteTextChar)
    ensures NoScheme(ApiCore(lead, route))
  {
    var core := ApiCore(lead, route);
    forall i | 0 <= i < |core| - 1
      ensures core[i] != ':' || core[i + 1] != '/'
    {
      assert i + 1 < |lead| ==> !StartsPath(lead[i + 1]);
      assert |lead| + 5 <= i ==> IsRouteTextChar(route[i - |lead| - 5]);
    }
  }

  lemma RouteHasNoQuery(route: string)
    requires All(route, IsRouteTextChar)
    ensures FindWhere(route, StartsQuery) == |route| && '\\' !in route
  {
    forall i | 0 <= i < |route|
      ensures !StartsQuery(route[i]) && route[i] != '\\'
    {
      assert IsRouteTextChar(route[i]);
    }
    FindWhereAt(route, "", StartsQuery);
    assert route + "" == route;
  }

  lemma RouteOfCore(prefix: string, lead: string, route: string)
    requires IsLead(lead) && All(route, IsRouteTextChar)
    ensures PathWord(prefix, ApiCore(lead, route)) == Api(prefix, lead, route)
  {
    hide FindWhere, IsRouteTextChar;
    var core, path := ApiCore(lead, route), "/api/" + route;
    assert core == lead + path;
    FindWhereAt(lead, path, StartsPath);
    assert core[..|lead|] == lead && core[|lead|..] == path && path[5..] == route;
    RouteHasNoQuery(route);
    assert route[..|route|] == route;
  }

  /** An API route with settled segments is found again in its word, and scrubs to itself. */
  lemma ApiWordIsStable(prefix: string, lead: string, segments: seq<string>, suffix: string)
    requires All(prefix, IsOpening) && All(suffix, IsClosing) && IsLead(lead) && segments != [] && AllSettled(segments)
    ensures var word := prefix + lead + "/api/" + Join(segments, '/') + suffix;
            && WordOf(word) == Api(prefix, lead, Join(TrimmedRoute(segments), '/'))
            && Scrubbed(WordOf(word), word, word) == word
  {
    hide IsSettled, FindText, PathWord, Prefix, Core, Suffix, TrimmedRoute, Tail, IsOpening, IsClosing, Join, Split;
    var word := prefix + lead + "/api/" + Join(segments, '/') + suffix;
    var trimmed := TrimmedRoute(segments);
    var route, tail := Join(trimmed, '/'), Tail(segments[|segments| - 1]);
    TrimmedRouteSettles(segments);
    TrimmedRouteEnds(segments);
    JoinChars(trimmed);
    var core := ApiCore(lead, route);
    assert word == prefix + core + (tail + suffix);
    CoreOfRoute(lead, route);
    assert All(tail + suffix, IsClosing);
    PartsOf(prefix, core, tail + suffix);
    assert IsSlash(word[|prefix| + |lead|]);
    NoSchemeInRoute(lead, route);
    NoSchemeFound(core);
    RouteOfCore(prefix, lead, route);
    CleanRouteAgain(trimmed);
    assert prefix + lead + "/api/" + route + (tail + suffix) == word;
  }

  lemma CoreOfRoute(lead: string, route: string)
    requires IsLead(lead) && (route != "" ==> !IsClosing(route[|route| - 1]))
    ensures IsCore(ApiCore(lead, route))
  {
  }

  lemma CleanRouteAgain(segments: seq<string>)
    requires segments != [] && AllSettled(segments)
    ensures CleanRoute(Join(segments, '/')) == Join(segments, '/')
  {
    hide IsSettled, Join, Split, CleanAll, IsSegmentChar;
    forall segment | segment in segments
      ensures '/' !in segment
    {
      SettledChars(segment);
      NoSlashChar(segment);
    }
    SplitOfJoin(segments, '/');
    CleanSettles(segments);
  }

  lemma NoSlashChar(segment: string)
    requires All(segment, IsSegmentChar)
    ensures '/' !in segment && !HasSlash(segment)
  {
    forall i | 0 <= i < |segment|
      ensures !IsSlash(segment[i])
    {
      assert IsSegmentChar(segment[i]);
    }
  }
}
