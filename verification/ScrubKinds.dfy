/**
 Which words scrubbing settles: all but a URL with a separator before its scheme,
 which never scrubs to itself.
 */
module ScrubKinds {
  import opened Texts
  import opened RouteWords
  import opened Scrubber
  import opened ScrubWords

  /** `before` keeps a separator, so the scrubbed word looks like a path. */
  predicate SlashBeforeScheme(word: string) {
    WordOf(word).Url? && HasSlash(WordOf(word).before)
  }

  predicate NoSpace(text: string) {
    forall i :: 0 <= i < |text| ==> !IsSpace(text[i])
  }

  lemma NoSpaceInBoth(one: string, two: string)
    ensures NoSpace(one + two) <==> NoSpace(one) && NoSpace(two)
  {
    hide IsSpace;
    var both := one + two;
    if NoSpace(both) {
      forall i | 0 <= i < |two|
        ensures !IsSpace(two[i])
      {
        assert both[|one| + i] == two[i];
      }
      forall i | 0 <= i < |one|
        ensures !IsSpace(one[i])
      {
        assert both[i] == one[i];
      }
    }
  }

  lemma CoreHasIt(word: string)
    requires HasSlash(word)
    ensures IsCore(Core(word)) && HasSlash(Core(word))
  {
    SlashInCore(word);
    PartsAre(word);
  }

  lemma LeadOfCore(core: string, start: nat)
    requires IsCore(core) && start <= |core| && All(core[..start], c => !StartsPath(c))
    ensures IsLead(Lead(core[..start])) && (NoSpace(core) ==> NoSpace(Lead(core[..start])))
  {
    hide IsOpening, IsClosing, StartsPath, IsSpace;
    var before := core[..start];
    assert before != "" ==> before[0] == core[0];
    assert core == before + core[start..];
    NoSpaceInBoth(before, core[start..]);
  }

  lemma PathWordParts(prefix: string, core: string)
    requires IsCore(core)
    ensures var kind := PathWord(prefix, core);
            (kind.Api? || kind.Path?) && kind.prefix == prefix && IsLead(kind.lead)
            && (NoSpace(core) ==> NoSpace(kind.lead))
  {
    var start := PathStart(core);
    assert PathWord(prefix, core).lead == Lead(core[..start]);
    assert All(core[..start], c => !StartsPath(c));
    LeadOfCore(core, start);
  }

  lemma SpaceInParts(word: string)
    ensures NoSpace(word) <==> NoSpace(Prefix(word)) && NoSpace(Core(word)) && NoSpace(Suffix(word))
  {
    hide Prefix, Core, Suffix, NoSpace;
    PartsAre(word);
    NoSpaceInBoth(Prefix(word) + Core(word), Suffix(word));
    NoSpaceInBoth(Prefix(word), Core(word));
  }

  /** A word without a separator and without space. */
  predicate IsQuiet(text: string) {
    !HasSlash(text) && NoSpace(text)
  }

  lemma QuietBoth(one: string, two: string)
    requires IsQuiet(one) && IsQuiet(two)
    ensures IsQuiet(one + two)
  {
    SlashInBoth(one, two);
    NoSpaceInBoth(one, two);
  }

  lemma QuietPunctuation(word: string)
    requires NoSpace(word)
    ensures IsQuiet(Prefix(word)) && IsQuiet(Suffix(word))
  {
    hide Prefix, Suffix, Core, IsOpening, IsClosing, IsSpace;
    PartsAre(word);
    NoSlashInPunctuation(Prefix(word));
    NoSlashInPunctuation(Suffix(word));
    SpaceInParts(word);
  }

  lemma QuietLead(lead: string)
    requires IsLead(lead) && NoSpace(lead)
    ensures IsQuiet(lead)
  {
    forall i | 0 <= i < |lead|
      ensures !IsSlash(lead[i])
    {
      assert !StartsPath(lead[i]);
    }
  }

  lemma QuietTags()
    ensures IsQuiet("<url>") && IsQuiet("<path>")
  {
  }

  lemma QuietAround(prefix: string, middle: string, tag: string, suffix: string)
    requires IsQuiet(prefix) && IsQuiet(middle) && IsQuiet(tag) && IsQuiet(suffix)
    ensures IsQuiet(prefix + middle + tag + suffix)
  {
    QuietBoth(prefix, middle);
    QuietBoth(prefix + middle, tag);
    QuietBoth(prefix + middle + tag, suffix);
  }

  /** What a settled word is: no separator at all, or an API route of settled segments. */
  predicate IsSettledWord(word: string) {
    || !HasSlash(word)
    || (WordOf(word).Api? && IsQuiet(WordOf(word).prefix) && IsQuiet(WordOf(word).lead)
        && AllSettled(Split(WordOf(word).route, '/'))
        && word == WordOf(word).prefix + WordOf(word).lead + "/api/" + WordOf(word).route + Suffix(word)
        && IsQuiet(Suffix(word)))
  }

  /** Scrubbing it leaves it as it is. */
  predicate IsStable(word: string) {
    && (WordOf(word).Plain? || WordOf(word).Api?)
    && Scrubbed(WordOf(word), word, word) == word
  }

  lemma QuietIsStable(word: string)
    requires IsQuiet(word)
    ensures IsStable(word) && IsSettledWord(word)
  {
  }

  lemma UrlSettles(word: string)
    requires NoSpace(word) && WordOf(word).Url? && !HasSlash(WordOf(word).before)
    ensures IsQuiet(Scrubbed(WordOf(word), word, word))
  {
    hide Prefix, Suffix, Core, IsSpace, PathWord;
    CoreHasIt(word);
    PathWordParts(Prefix(word), Core(word));
    var core, before := Core(word), WordOf(word).before;
    QuietPunctuation(word);
    SpaceInParts(word);
    assert core == before + core[|before|..];
    NoSpaceInBoth(before, core[|before|..]);
    QuietTags();
    QuietAround(Prefix(word), before, "<url>", Suffix(word));
  }

  lemma PathSettles(word: string, last: string)
    requires NoSpace(word) && NoSpace(last) && WordOf(word).Path?
    ensures IsQuiet(Scrubbed(WordOf(word), word, last))
  {
    hide Prefix, Suffix, Core, IsSpace, PathWord, FindText;
    CoreHasIt(word);
    PathWordParts(Prefix(word), Core(word));
    SpaceInParts(word);
    QuietPunctuation(word);
    QuietPunctuation(last);
    QuietLead(WordOf(word).lead);
    QuietTags();
    QuietAround(Prefix(word), WordOf(word).lead, "<path>", Suffix(last));
  }

  lemma NoSpaceInRoute(segments: seq<string>)
    requires AllSettled(segments)
    ensures NoSpace(Join(segments, '/'))
  {
    hide IsSettled, Join;
    JoinChars(segments);
    var route := Join(segments, '/');
    forall i | 0 <= i < |route|
      ensures !IsSpace(route[i])
    {
      assert IsRouteTextChar(route[i]);
    }
  }

  lemma NoSpaceAround(prefix: string, lead: string, route: string, suffix: string)
    requires NoSpace(prefix) && NoSpace(lead) && NoSpace(route) && NoSpace(suffix)
    ensures NoSpace(prefix + lead + "/api/" + route + suffix)
  {
    assert NoSpace("/api/");
    hide NoSpace;
    NoSpaceInBoth(prefix, lead);
    NoSpaceInBoth(prefix + lead, "/api/");
    NoSpaceInBoth(prefix + lead + "/api/", route);
    NoSpaceInBoth(prefix + lead + "/api/" + route, suffix);
  }

  /** The segments of a route read back from it. */
  lemma SegmentsOfRoute(segments: seq<string>)
    requires segments != [] && AllSettled(segments)
    ensures Split(Join(segments, '/'), '/') == segments
  {
    hide IsSettled, Join, Split, IsSegmentChar;
    forall segment | segment in segments
      ensures '/' !in segment
    {
      SettledChars(segment);
      NoSlashChar(segment);
    }
    SplitOfJoin(segments, '/');
  }

  lemma ApiSettles(word: string)
    requires NoSpace(word) && WordOf(word).Api?
    ensures var out := Scrubbed(WordOf(word), word, word);
            IsStable(out) && IsSettledWord(out) && NoSpace(out) && out != ""
  {
    hide Prefix, Suffix, Core, IsSpace, PathWord, FindText, Join, Split, CleanAll, IsSettled, TrimmedRoute;
    CoreHasIt(word);
    PathWordParts(Prefix(word), Core(word));
    SpaceInParts(word);
    PartsAre(word);
    QuietPunctuation(word);
    var kind := WordOf(word);
    var segments := CleanAll(Split(kind.route, '/'));
    CleanSettles(Split(kind.route, '/'));
    QuietLead(kind.lead);
    var out := Scrubbed(kind, word, word);
    ApiWordIsStable(kind.prefix, kind.lead, segments, Suffix(word));
    NoSpaceInRoute(segments);
    NoSpaceAround(kind.prefix, kind.lead, Join(segments, '/'), Suffix(word));
    var trimmed := TrimmedRoute(segments);
    TrimmedRouteSettles(segments);
    SegmentsOfRoute(trimmed);
    CleanRouteAgain(trimmed);
    QuietPunctuation(out);
  }

  // A URL behind a separator.

  predicate EndsWith(text: string, end: string) {
    |end| <= |text| && text[|text| - |end|..] == end
  }

  lemma {:induction false} JoinEndsIn(segments: seq<string>)
    requires segments != []
    ensures var last := segments[|segments| - 1];
            EndsWith("/" + Join(segments, '/'), "/" + last)
  {
    var last := segments[|segments| - 1];
    if |segments| > 1 {
      var rest := segments[1..];
      JoinEndsIn(rest);
      var whole, tail := "/" + Join(segments, '/'), "/" + Join(rest, '/');
      assert whole == "/" + segments[0] + tail;
      assert whole[|whole| - |"/" + last|..] == tail[|tail| - |"/" + last|..];
    }
  }

  /** A scrubbed route never ends in what is left of `<url>`. */
  lemma RouteEndsOtherwise(front: string, segments: seq<string>)
    requires segments != [] && AllSettled(segments)
    ensures !EndsWith(front + "/" + Join(segments, '/'), "<url")
  {
    hide IsSettled, Join, EndsWith;
    var last, tail := segments[|segments| - 1], "/" + Join(segments, '/');
    var whole := front + "/" + Join(segments, '/');
    JoinEndsIn(segments);
    assert whole == front + tail;
    EndsInTail(front, tail, "/" + last);
    EndsInSegment(whole, last);
  }

  lemma EndsInTail(front: string, tail: string, end: string)
    requires EndsWith(tail, end)
    ensures EndsWith(front + tail, end)
  {
    var whole := front + tail;
    assert whole[|whole| - |end|..] == tail[|tail| - |end|..];
  }

  lemma UrlEnd(whole: string)
    requires EndsWith(whole, "<url")
    ensures |whole| >= 4 && whole[|whole| - 4] == '<' && whole[|whole| - 3] == 'u' && whole[|whole| - 2] == 'r'
              && whole[|whole| - 1] == 'l'
  {
    var cut := whole[|whole| - 4..];
    assert cut[0] == '<' && cut[1] == 'u' && cut[2] == 'r' && cut[3] == 'l';
  }

  lemma EndsInSegment(whole: string, last: string)
    requires IsSettled(last) && EndsWith(whole, "/" + last)
    ensures !EndsWith(whole, "<url")
  {
    hide IsSettled;
    var end := whole[|whole| - 1 - |last|..];
    assert whole[|whole| - 1 - |last|] == end[0] == '/';
    if |last| >= 4 {
      NoUrlInSegment(last);
      assert whole[|whole| - 4] == end[|end| - 4] == last[|last| - 4];
      assert whole[|whole| - 1] == end[|end| - 1] == last[|last| - 1];
    }
    if EndsWith(whole, "<url") {
      UrlEnd(whole);
    }
  }

  lemma NoUrlInSegment(segment: string)
    requires IsSettled(segment) && |segment| >= 4
    ensures segment[|segment| - 4] != '<' || segment[|segment| - 1] != 'l'
  {
    hide IsRouteWord;
    if IsRouteWord(segment) {
      RouteWordShape(segment);
      assert IsRouteChar(segment[|segment| - 4]);
    } else if IsRouteParameter(segment) {
      var inner := Unclosed(segment[1..]);
      var i := |segment| - 4;
      assert 0 < i <= |inner| ==> segment[i] == inner[i - 1] && IsNameChar(inner[i - 1]);
    }
  }

  /** Cutting a URL off at its scheme leaves no other scheme before it. */
  lemma NoSchemeBefore(core: string, start: nat)
    requires start <= FindText(core, "://")
    ensures FindText(core[..start] + "<url", "://") == |core[..start] + "<url"|
  {
    var before := core[..start];
    var text := before + "<url";
    var found := FindText(text, "://");
    if found < |text| {
      SchemeMatch(text, found);
      assert text[found + 2] == '/' by {
        assert text[found..found + 3][2] == '/';
      }
      assert found + 3 <= |before|;
      assert core[found..found + 3] == text[found..found + 3];
      assert MatchesAt(core, "://", found);
    }
  }

  lemma UrlParts(word: string)
    requires WordOf(word).Url?
    ensures var kind := WordOf(word);
            && kind.prefix == Prefix(word) && HasSlash(word) && IsCore(Core(word))
            && kind.before <= Core(word) && |kind.before| <= FindText(Core(word), "://") < |Core(word)|
  {
    hide Prefix, Suffix, Core, PathWord, FindText;
    CoreHasIt(word);
    PathWordParts(Prefix(word), Core(word));
  }

  /** What is left of the word holds a separator, and no URL: a route, or a path. */
  lemma SlashedUrlKind(word: string)
    requires SlashBeforeScheme(word)
    ensures var kind, out := WordOf(word), Scrubbed(WordOf(word), word, word);
            && WordOf(out) == PathWord(kind.prefix, kind.before + "<url") && Suffix(out) == ">" + Suffix(word)
            && HasSlash(out) && IsCore(kind.before + "<url")
  {
    hide Prefix, Suffix, Core, PathWord, FindText, IsOpening;
    UrlParts(word);
    PartsAre(word);
    var kind := WordOf(word);
    var core, suffix := kind.before + "<url", ">" + Suffix(word);
    var out := Scrubbed(kind, word, word);
    assert kind.before[0] == Core(word)[0];
    assert out == kind.prefix + core + suffix;
    PartsOf(kind.prefix, core, suffix);
    SlashInBoth(kind.before, "<url");
    SlashInCore(out);
    NoSchemeBefore(Core(word), |kind.before|);
  }

  /** So it does not scrub to itself, wherever it stands. */
  lemma SlashedUrlIsUnstable(word: string, last: string)
    requires SlashBeforeScheme(word)
    ensures var out := Scrubbed(WordOf(word), word, word);
            (WordOf(out).Api? || WordOf(out).Path?)
            && Scrubbed(WordOf(out), out, if WordOf(out).Path? then last else out) != out
  {
    hide Prefix, Suffix, Core, PathWord, FindText, WordOf, Join, Split, CleanAll, IsSettled;
    var kind, out := WordOf(word), Scrubbed(WordOf(word), word, word);
    UrlParts(word);
    SlashedUrlKind(word);
    var core := kind.before + "<url";
    PathWordParts(kind.prefix, core);
    var again := WordOf(out);
    if again.Path? {
      PathHasNoSlash(kind.prefix, again.lead, word, last);
    } else {
      CleanSettles(Split(again.route, '/'));
      RouteIsNotUrl(kind.prefix, again.lead, CleanAll(Split(again.route, '/')), kind.before, ">" + Suffix(word));
      assert out == kind.prefix + (kind.before + "<url") + (">" + Suffix(word));
    }
  }

  lemma RouteIsNotUrl(prefix: string, lead: string, segments: seq<string>, before: string, suffix: string)
    requires segments != [] && AllSettled(segments)
    ensures prefix + lead + "/api/" + Join(segments, '/') + suffix != prefix + (before + "<url") + suffix
  {
    hide Join, AllSettled;
    var cleaned, core := lead + "/api/" + Join(segments, '/'), before + "<url";
    RouteEndsOtherwise(lead + "/api", segments);
    assert cleaned == lead + "/api" + "/" + Join(segments, '/');
    assert cleaned != core by {
      assert core[|core| - 4..] == "<url";
    }
    SameBetween(prefix, cleaned, core, suffix);
    assert prefix + lead + "/api/" + Join(segments, '/') + suffix == prefix + cleaned + suffix;
  }

  lemma PathHasNoSlash(prefix: string, lead: string, word: string, last: string)
    requires prefix == Prefix(word) && IsLead(lead)
    ensures !HasSlash(prefix + lead + "<path>" + Suffix(last))
  {
    hide Prefix, Suffix, Core, IsOpening, IsClosing;
    PartsAre(word);
    PartsAre(last);
    NoSlashInPunctuation(prefix);
    NoSlashInPunctuation(Suffix(last));
    assert !HasSlash(lead) by {
      forall i | 0 <= i < |lead|
        ensures !IsSlash(lead[i])
      {
        assert !StartsPath(lead[i]);
      }
    }
    SlashInBoth(prefix, lead);
    SlashInBoth(prefix + lead, "<path>");
    SlashInBoth(prefix + lead + "<path>", Suffix(last));
  }

  lemma SameBetween(prefix: string, one: string, two: string, suffix: string)
    ensures prefix + one + suffix == prefix + two + suffix <==> one == two
  {
    var left, right := prefix + one + suffix, prefix + two + suffix;
    if left == right {
      assert one == left[|prefix|..|left| - |suffix|] && two == right[|prefix|..|right| - |suffix|];
    }
  }
}
