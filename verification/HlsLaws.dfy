/**
 What the rewrite makes of a line, a tag and a URI, and which paths the proxy
 serves, with the text written out (desktop/core/src/media_proxy.rs:238-287,
 343-398).
 */
module HlsLaws {
  import opened Outcomes
  import opened Texts
  import opened HlsRewrite

  // Tags.

  /** The text holds no `URI="` from before an index. */
  predicate NoneBefore(text: string, index: nat) {
    forall i: nat :: i < index ==> !MatchesAt(text, "URI=\"", i)
  }

  /**
   The first attribute of a tag gets the token in front of its URI, or the tag fails
   as the URI does, and what is behind it is changed in turn.
   */
  lemma AttributeGetsToken(parse: string -> Option<Url>, token: string, before: string, uri: string, after: string)
    requires var tag := before + "URI=\"" + uri + "\"" + after;
             NoneBefore(tag, |before|) && '"' !in uri
    ensures var tag, add := before + "URI=\"" + uri + "\"" + after, Adding(parse, token);
            ChangeTag(tag, add)
            == if RewriteUri(parse, token, uri).Failure? then Failure(RewriteUri(parse, token, uri).error)
            else if ChangeTag(after, add).Failure? then ChangeTag(after, add)
            else Success(before + "URI=\"/" + token + uri + "\"" + ChangeTag(after, add).value)
  {
    hide ChangeTag, Find, RewriteUri, MatchesAt;
    var tag, add := before + "URI=\"" + uri + "\"" + after, Adding(parse, token);
    AddedUri(parse, token, uri);
    NextAttribute(tag, add);
    AttributeIsFound(before, uri + "\"" + after);
    assert tag == before + "URI=\"" + (uri + "\"" + after);
    var value := tag[|before| + 5..];
    assert value == uri + ['"'] + after;
    FindFirst(uri, '"', after);
    assert value[..|uri|] == uri && value[|uri| + 1..] == after;
    assert tag[..|before| + 5] == before + "URI=\"";
    if RewriteUri(parse, token, uri).Success? {
      TokenBehindQuote(before, token, uri);
      assert Attribute(tag, |before|, "/" + token + uri) == before + "URI=\"/" + token + uri + "\"";
    }
  }

  lemma TokenBehindQuote(before: string, token: string, uri: string)
    ensures before + "URI=\"" + ("/" + token + uri) + "\"" == before + "URI=\"/" + token + uri + "\""
  {
  }

  lemma AttributeIsFound(before: string, rest: string)
    requires NoneBefore(before + "URI=\"" + rest, |before|)
    ensures FindText(before + "URI=\"" + rest, ATTRIBUTE) == |before|
  {
    var tag := before + "URI=\"" + rest;
    assert tag[|before|..|before| + 5] == "URI=\"";
    assert MatchesAt(tag, "URI=\"", |before|);
  }

  /** A tag without an attribute stays, and one whose value does not end is refused. */
  lemma OtherTags(change: string -> Result<string, Error>, before: string, value: string)
    ensures NoneBefore(before, |before|) ==> ChangeTag(before, change) == Success(before)
    ensures NoneBefore(before + "URI=\"" + value, |before|) && '"' !in value ==>
              ChangeTag(before + "URI=\"" + value, change) == Failure(Unterminated)
  {
    hide ChangeTag, Find, MatchesAt;
    NextAttribute(before, change);
    var tag := before + "URI=\"" + value;
    NextAttribute(tag, change);
    if NoneBefore(tag, |before|) && '"' !in value {
      AttributeIsFound(before, value);
      assert tag[|before| + 5..] == value;
      FindNone(value, '"');
    }
  }

  // Lines.

  /** A line that is a URI gets the token in front, and keeps its carriage return. */
  lemma UriLine(parse: string -> Option<Url>, token: string, uri: string, end: string)
    requires uri != "" && uri[0] != '#' && uri[|uri| - 1] != '\r' && end in {"", "\r"}
    ensures ChangeLine(uri + end, Adding(parse, token))
            == if RewriteUri(parse, token, uri).Success? then Success("/" + token + uri + end)
            else Failure(RewriteUri(parse, token, uri).error)
    ensures ChangeLine(end, Adding(parse, token)) == Success(end)
  {
    var line := uri + end;
    assert Content(line) == uri && line[|uri|..] == end;
  }

  /** A line that starts with `#` is changed as a tag. */
  lemma TagLine(change: string -> Result<string, Error>, tag: string, end: string)
    requires tag != "" && tag[0] == '#' && tag[|tag| - 1] != '\r' && end in {"", "\r"}
    ensures ChangeLine(tag + end, change)
            == if ChangeTag(tag, change).Success? then Success(ChangeTag(tag, change).value + end)
            else Failure(ChangeTag(tag, change).error)
  {
    hide ChangeTag;
    var line := tag + end;
    assert Content(line) == tag && line[|tag|..] == end;
  }

  /** The lines of a playlist are changed one by one, and all of them or none. */
  lemma {:induction false} LinesOneByOne(lines: seq<string>, change: string -> Result<string, Error>)
    ensures ChangeLines(lines, change).Success? <==> forall k :: 0 <= k < |lines| ==>
              ChangeLine(lines[k], change).Success?
    ensures var changed := ChangeLines(lines, change);
            changed.Success? ==>
              |changed.value| == |lines|
              && forall k :: 0 <= k < |lines| ==> ChangeLine(lines[k], change) == Success(changed.value[k])
  {
    hide ChangeLine;
    if lines != [] {
      LinesOneByOne(lines[1..], change);
      assert forall k :: 0 < k < |lines| ==> lines[k] == lines[1..][k - 1];
      if ChangeLine(lines[0], change).Success? && ChangeLines(lines[1..], change).Success? {
        var changed := ChangeLines(lines, change).value;
        assert changed == [ChangeLine(lines[0], change).value] + ChangeLines(lines[1..], change).value;
      } else if ChangeLine(lines[0], change).Success? {
        var k :| 0 <= k < |lines[1..]| && ChangeLine(lines[1..][k], change).Failure?;
        assert ChangeLine(lines[k + 1], change).Failure?;
      }
    }
  }

  /** A playlist is rewritten if it has its header and every line can be, and then line by line. */
  lemma ManifestByLines(parse: string -> Option<Url>, token: string, lines: seq<string>)
    requires lines != [] && forall line :: line in lines ==> '\n' !in line
    ensures var manifest, add := Join(lines, '\n'), Adding(parse, token);
            var r, isChanged := RewriteManifest(parse, token, manifest),
                forall k :: 0 <= k < |lines| ==> ChangeLine(lines[k], add).Success?;
            && (r.Success? <==> "#EXTM3U" <= TrimStart(manifest) && isChanged)
            && (r.Success? ==>
                  exists changed :: |changed| == |lines| && r.value == Join(changed, '\n')
                    && forall k :: 0 <= k < |lines| ==> ChangeLine(lines[k], add) == Success(changed[k]))
  {
    hide ChangeLine, Join, Split, TrimStart;
    SplitOfJoin(lines, '\n');
    LinesOneByOne(lines, Adding(parse, token));
    if RewriteManifest(parse, token, Join(lines, '\n')).Success? {
      assert |ChangeLines(lines, Adding(parse, token)).value| == |lines|;
    }
  }

  // URIs and paths.

  /** A URI is taken that starts with a slash, parses, has no fragment and names a path that is served. */
  lemma UriIsTaken(parse: string -> Option<Url>, token: string, uri: string)
    ensures var r, url := RewriteUri(parse, token, uri), parse(uri);
            && (r.Success? <==>
                  uri != "" && uri[0] == '/' && url.Some? && !url.value.hasFragment && IsServed(url.value.path))
            && (r.Success? ==> r.value == "/" + token + uri)
            && (url.None? ==> r == Failure(BadUri))
            && (url.Some? && r.Failure? ==> r.error == Outside)
  {
    hide IsMediaPath, IsServed;
    if parse(uri).Some? {
      MediaPathsAreServed(parse(uri).value.path);
    }
  }

  predicate IsPart(part: string) {
    part != "" && '/' !in part
  }

  predicate EndsInStream(path: string) {
    |path| >= 7 && path[|path| - 7..] == "/stream"
  }

  /** The stream, the playlist and the artwork of a track from elsewhere, and the pictures of the library. */
  function Routes(id: string): seq<seq<string>> {
    [["", "api", "v1", "external", "tracks", id, "stream"],
     ["", "api", "v1", "external", "tracks", id, "playlist.m3u8"],
     ["", "api", "v1", "external", "tracks", id, "artwork"],
     ["", "api", "v1", "library", "albums", id, "cover"],
     ["", "api", "v1", "library", "artists", id, "photo"]]
  }

  /** The signed resources of a playlist, and the artwork of an import. */
  function NestedRoutes(id: string, part: string): seq<seq<string>> {
    [["", "api", "v1", "external", "tracks", id, "resources", part],
     ["", "api", "v1", "import-batches", id, "artwork", part]]
  }

  /** The paths that the proxy serves, by the text of their routes. */
  ghost predicate IsServed(path: string) {
    || (EndsInStream(path)
        && ("/api/v1/tracks/" <= path || "/api/v1/radio/stations/" <= path || "/api/v1/radio/preview/" <= path))
    || (exists id :: IsPart(id) && Split(path, '/') in Routes(id))
    || (exists id, part :: IsPart(id) && IsPart(part) && Split(path, '/') in NestedRoutes(id, part))
  }

  lemma MediaPathsAreServed(path: string)
    ensures IsMediaPath(path) <==> IsServed(path)
  {
    hide Split;
    var parts := Split(path, '/');
    if IsExternalTrackPath(path) || IsImagePath(path) {
      PartsAreWhole(path, '/');
      RouteOfParts(path);
    }
    if exists id :: IsPart(id) && parts in Routes(id) {
      var id :| IsPart(id) && parts in Routes(id);
      PartsOfRoute(path, id);
    }
    if exists id, part :: IsPart(id) && IsPart(part) && parts in NestedRoutes(id, part) {
      var id, part :| IsPart(id) && IsPart(part) && parts in NestedRoutes(id, part);
      PartsOfNestedRoute(path, id, part);
    }
  }

  lemma RouteOfParts(path: string)
    requires IsExternalTrackPath(path) || IsImagePath(path)
    requires forall part :: part in Split(path, '/') ==> '/' !in part
    ensures var parts := Split(path, '/');
            || (exists id :: IsPart(id) && parts in Routes(id))
            || (exists id, part :: IsPart(id) && IsPart(part) && parts in NestedRoutes(id, part))
  {
    hide Split;
    var parts := Split(path, '/');
    if |parts| == 8 {
      assert parts == parts[..5] + [parts[5], parts[6], parts[7]];
      assert IsPart(parts[5]) && IsPart(parts[7]) && parts == NestedRoutes(parts[5], parts[7])[0];
    } else if IsExternalTrackPath(path) {
      assert parts == parts[..5] + [parts[5], parts[6]];
      assert IsPart(parts[5]) && (parts == Routes(parts[5])[0] || parts == Routes(parts[5])[1]);
    } else if parts[3] == "import-batches" {
      assert parts == parts[..3] + [parts[3], parts[4], parts[5], parts[6]];
      assert IsPart(parts[4]) && IsPart(parts[6]) && parts == NestedRoutes(parts[4], parts[6])[1];
    } else {
      assert parts == parts[..3] + parts[3..5] + [parts[5], parts[6]];
      assert IsPart(parts[5])
          && (parts == Routes(parts[5])[2] || parts == Routes(parts[5])[3] || parts == Routes(parts[5])[4]);
    }
  }

  lemma PartsOfRoute(path: string, id: string)
    requires IsPart(id) && Split(path, '/') in Routes(id)
    ensures IsExternalTrackPath(path) || IsImagePath(path)
  {
    hide Split;
  }

  lemma PartsOfNestedRoute(path: string, id: string, part: string)
    requires IsPart(id) && IsPart(part) && Split(path, '/') in NestedRoutes(id, part)
    ensures IsExternalTrackPath(path) || IsImagePath(path)
  {
    hide Split;
  }
}
