/**
 The media proxy puts its token in front of every URI of an HLS playlist, and
 takes it off the requests that follow (desktop/core/src/media_proxy.rs:238-287,
 323-398). Playlists and their URIs are those of RFC 8216, sections 4.1 and 4.2.
 */
module HlsRewrite {
  import opened Outcomes
  import opened Texts

  datatype Error = NoHeader | Unterminated | BadUri | Outside

  /** The parts of a URL the proxy looks at. */
  datatype Url = Url(path: string, query: Option<string>, hasFragment: bool)

  const ATTRIBUTE := "URI=\""

  // The paths.

  predicate IsBetween(path: string, prefix: string, suffix: string) {
    prefix <= path && |suffix| <= |path| && path[|path| - |suffix|..] == suffix
  }

  predicate IsExternalTrackPath(path: string) {
    var parts := Split(path, '/');
    && |parts| >= 7 && parts[..5] == ["", "api", "v1", "external", "tracks"] && parts[5] != ""
    && ((|parts| == 7 && parts[6] in {"stream", "playlist.m3u8"})
        || (|parts| == 8 && parts[6] == "resources" && parts[7] != ""))
  }

  predicate IsImagePath(path: string) {
    var parts := Split(path, '/');
    && |parts| == 7 && parts[..3] == ["", "api", "v1"]
    && ((parts[3..5] == ["library", "albums"] && parts[5] != "" && parts[6] == "cover")
        || (parts[3..5] == ["library", "artists"] && parts[5] != "" && parts[6] == "photo")
        || (parts[3..5] == ["external", "tracks"] && parts[5] != "" && parts[6] == "artwork")
        || (parts[3] == "import-batches" && parts[4] != "" && parts[5] == "artwork" && parts[6] != ""))
  }

  predicate IsMediaPath(path: string) {
    || IsBetween(path, "/api/v1/tracks/", "/stream")
    || IsBetween(path, "/api/v1/radio/stations/", "/stream")
    || IsBetween(path, "/api/v1/radio/preview/", "/stream")
    || IsExternalTrackPath(path)
    || IsImagePath(path)
  }

  // The rewrite.

  /** `parse` reads the URI on the placeholder origin. */
  function RewriteUri(parse: string -> Option<Url>, token: string, uri: string): Result<string, Error> {
    if parse(uri).None? then Failure(BadUri)
    else if uri == "" || uri[0] != '/' || parse(uri).value.hasFragment || !IsMediaPath(parse(uri).value.path)
        then Failure(Outside)
    else Success("/" + token + uri)
  }

  function Adding(parse: string -> Option<Url>, token: string): string -> Result<string, Error> {
    uri => RewriteUri(parse, token, uri)
  }

  /** Every `URI="..."` of a tag, changed by `change`. */
  function ChangeTag(tag: string, change: string -> Result<string, Error>): Result<string, Error>
    decreases |tag|
  {
    var start := FindText(tag, ATTRIBUTE);
    if start == |tag| then Success(tag)
    else
      var value := tag[start + 5..];
      var end := Find(value, '"');
      if end == |value| then Failure(Unterminated)
      else
        var uri :- change(value[..end]);
        var rest :- ChangeTag(value[end + 1..], change);
        Success(tag[..start + 5] + uri + "\"" + rest)
  }

  function Content(line: string): string {
    if line != "" && line[|line| - 1] == '\r' then line[..|line| - 1] else line
  }

  function ChangeLine(line: string, change: string -> Result<string, Error>): Result<string, Error> {
    var content := Content(line);
    var suffix := line[|content|..];
    if content == "" then Success(suffix)
    else
      var changed :- if content[0] != '#' then change(content) else ChangeTag(content, change);
      Success(changed + suffix)
  }

  function ChangeLines(lines: seq<string>, change: string -> Result<string, Error>): Result<seq<string>, Error> {
    if lines == [] then Success([])
    else
      var line :- ChangeLine(lines[0], change);
      var rest :- ChangeLines(lines[1..], change);
      Success([line] + rest)
  }

  function ChangeManifest(manifest: string, change: string -> Result<string, Error>): Result<string, Error> {
    var lines :- ChangeLines(Split(manifest, '\n'), change);
    Success(Join(lines, '\n'))
  }

  function RewriteManifest(parse: string -> Option<Url>, token: string, manifest: string): Result<string, Error> {
    if "#EXTM3U" <= TrimStart(manifest) then ChangeManifest(manifest, Adding(parse, token)) else Failure(NoHeader)
  }

  function Behind(front: string, rest: Result<string, Error>): Result<string, Error> {
    if rest.Success? then Success(front + rest.value) else rest
  }

  lemma BehindNothing(rest: Result<string, Error>)
    ensures Behind("", rest) == rest
  {
    assert rest.Success? ==> "" + rest.value == rest.value;
  }

  lemma BehindBoth(first: string, second: string, rest: Result<string, Error>)
    ensures Behind(first, Behind(second, rest)) == Behind(first + second, rest)
  {
    assert rest.Success? ==> first + (second + rest.value) == first + second + rest.value;
  }

  /** One attribute of a tag, and what comes before it. */
  function Attribute(tag: string, start: nat, uri: string): string
    requires start + 5 <= |tag|
  {
    tag[..start + 5] + uri + "\""
  }

  lemma NextAttribute(tag: string, change: string -> Result<string, Error>)
    ensures var start := FindText(tag, ATTRIBUTE);
            if start == |tag| then ChangeTag(tag, change) == Success(tag)
            else
              var value := tag[start + 5..];
              var end := Find(value, '"');
              if end == |value| then ChangeTag(tag, change) == Failure(Unterminated)
              else if change(value[..end]).Failure? then ChangeTag(tag, change) == Failure(change(value[..end]).error)
              else
                var changed := Attribute(tag, start, change(value[..end]).value);
                ChangeTag(tag, change) == Behind(changed, ChangeTag(value[end + 1..], change))
  {
  }

  /** The loop of `rewrite_hls_line` over the attributes of a tag. */
  method RewriteTag(tag: string, change: string -> Result<string, Error>) returns (r: Result<string, Error>)
    ensures r == ChangeTag(tag, change)
  {
    hide ChangeTag, Find;
    var rewritten, remaining := "", tag;
    var start := FindText(remaining, ATTRIBUTE);
    BehindNothing(ChangeTag(tag, change));
    while start < |remaining|
      invariant start == FindText(remaining, ATTRIBUTE)
      invariant ChangeTag(tag, change) == Behind(rewritten, ChangeTag(remaining, change))
      decreases |remaining|
    {
      NextAttribute(remaining, change);
      var value := remaining[start + 5..];
      var end := Find(value, '"');
      if end == |value| {
        return Failure(Unterminated);
      }
      var uri := change(value[..end]);
      if uri.Failure? {
        return Failure(uri.error);
      }
      BehindBoth(rewritten, Attribute(remaining, start, uri.value), ChangeTag(value[end + 1..], change));
      rewritten := rewritten + Attribute(remaining, start, uri.value);
      remaining := value[end + 1..];
      start := FindText(remaining, ATTRIBUTE);
    }
    NextAttribute(remaining, change);
    r := Success(rewritten + remaining);
  }

  method RewriteHlsLine(line: string, change: string -> Result<string, Error>) returns (r: Result<string, Error>)
    ensures r == ChangeLine(line, change)
  {
    var content := Content(line);
    var suffix := line[|content|..];
    if content == "" {
      return Success(suffix);
    }
    var changed;
    if content[0] != '#' {
      changed := change(content);
    } else {
      changed := RewriteTag(content, change);
    }
    r := if changed.Success? then Success(changed.value + suffix) else changed;
  }

  // What the rewrite keeps.

  /** `back` takes off what the rewrite put on. */
  ghost predicate TakesOff(parse: string -> Option<Url>, token: string, back: string -> Result<string, Error>) {
    forall uri :: RewriteUri(parse, token, uri).Success? ==> back("/" + token + uri) == Success(uri)
  }

  lemma AddedUri(parse: string -> Option<Url>, token: string, uri: string)
    ensures Adding(parse, token)(uri) == RewriteUri(parse, token, uri)
    ensures RewriteUri(parse, token, uri).Success? ==>
              RewriteUri(parse, token, uri).value == "/" + token + uri && uri != "" && uri[0] == '/'
  {
  }

  lemma {:induction false} TagUndone(parse: string -> Option<Url>, token: string,
          back: string -> Result<string, Error>, tag: string)
    requires '"' !in token && TakesOff(parse, token, back) && ChangeTag(tag, Adding(parse, token)).Success?
    ensures ChangeTag(ChangeTag(tag, Adding(parse, token)).value, back) == Success(tag)
    decreases |tag|
  {
    hide ChangeTag, Adding, RewriteUri, Find;
    var add := Adding(parse, token);
    NextAttribute(tag, add);
    var start, out := FindText(tag, ATTRIBUTE), ChangeTag(tag, add).value;
    if start == |tag| {
      NextAttribute(out, back);
    } else {
      var value := tag[start + 5..];
      var end := Find(value, '"');
      var uri, rest := value[..end], value[end + 1..];
      AddedUri(parse, token, uri);
      TagUndone(parse, token, back, rest);
      assert value == uri + "\"" + rest;
      AttributeUndone(tag, start, uri, "/" + token + uri, rest, ChangeTag(rest, add).value, back);
    }
  }

  /** One attribute is found where it was, with the new value in it. */
  lemma AttributeUndone(tag: string, start: nat, uri: string, added: string, rest: string, more: string,
                        back: string -> Result<string, Error>)
    requires start == FindText(tag, ATTRIBUTE) < |tag| && tag[start + 5..] == uri + "\"" + rest && '"' !in added
    requires back(added) == Success(uri) && ChangeTag(more, back) == Success(rest)
    ensures ChangeTag(Attribute(tag, start, added) + more, back) == Success(tag)
  {
    hide ChangeTag, Find;
    var out := Attribute(tag, start, added) + more;
    assert out[..start + 5] == tag[..start + 5];
    SameMatch(tag, out, ATTRIBUTE);
    var value := out[start + 5..];
    assert value == added + ['"'] + more;
    FindFirst(added, '"', more);
    assert value[..|added|] == added && value[|added| + 1..] == more;
    NextAttribute(out, back);
    assert Attribute(out, start, uri) + rest == tag[..start + 5] + (uri + "\"" + rest) == tag;
  }

  /** A tag keeps its first and last characters. */
  lemma {:induction false} TagEnds(parse: string -> Option<Url>, token: string, tag: string)
    requires tag != "" && ChangeTag(tag, Adding(parse, token)).Success?
    ensures var out := ChangeTag(tag, Adding(parse, token)).value;
            out != "" && out[0] == tag[0] && out[|out| - 1] == tag[|tag| - 1]
    decreases |tag|
  {
    hide ChangeTag, Adding, RewriteUri, Find;
    var add := Adding(parse, token);
    NextAttribute(tag, add);
    var start := FindText(tag, ATTRIBUTE);
    if start < |tag| {
      var value := tag[start + 5..];
      var end := Find(value, '"');
      var rest := value[end + 1..];
      if rest == "" {
        NextAttribute(rest, add);
      } else {
        TagEnds(parse, token, rest);
      }
    }
  }

  /** A tag gains no newline. */
  lemma {:induction false} TagStaysOneLine(parse: string -> Option<Url>, token: string, tag: string)
    requires '\n' !in tag && '\n' !in token && ChangeTag(tag, Adding(parse, token)).Success?
    ensures '\n' !in ChangeTag(tag, Adding(parse, token)).value
    decreases |tag|
  {
    hide ChangeTag, Adding, RewriteUri, Find;
    var add := Adding(parse, token);
    NextAttribute(tag, add);
    var start := FindText(tag, ATTRIBUTE);
    if start < |tag| {
      var value := tag[start + 5..];
      var end := Find(value, '"');
      AddedUri(parse, token, value[..end]);
      TagStaysOneLine(parse, token, value[end + 1..]);
    }
  }

  lemma LineUndone(parse: string -> Option<Url>, token: string, back: string -> Result<string, Error>, line: string)
    requires '"' !in token && '\n' !in token && '\n' !in line
    requires TakesOff(parse, token, back) && ChangeLine(line, Adding(parse, token)).Success?
    ensures ChangeLine(ChangeLine(line, Adding(parse, token)).value, back) == Success(line)
    ensures '\n' !in ChangeLine(line, Adding(parse, token)).value
  {
    hide ChangeTag, Adding, RewriteUri;
    var add := Adding(parse, token);
    var content := Content(line);
    var suffix := line[|content|..];
    if content != "" {
      AddedUri(parse, token, content);
      var changed := if content[0] != '#' then add(content).value else ChangeTag(content, add).value;
      if content[0] == '#' {
        TagEnds(parse, token, content);
        TagStaysOneLine(parse, token, content);
        TagUndone(parse, token, back, content);
      }
      assert content + suffix == line && (suffix == "" || suffix == "\r");
      SuffixStays(content, suffix, changed, back);
    }
  }

  lemma SuffixStays(content: string, suffix: string, changed: string, back: string -> Result<string, Error>)
    requires content != "" && changed != "" && suffix in {"", "\r"}
    requires suffix == "" ==> changed[|changed| - 1] != '\r'
    requires (changed[0] == '#' <==> content[0] == '#')
    requires (if changed[0] != '#' then back(changed) else ChangeTag(changed, back)) == Success(content)
    ensures ChangeLine(changed + suffix, back) == Success(content + suffix)
  {
    hide ChangeTag;
    var line := changed + suffix;
    assert Content(line) == changed && line[|changed|..] == suffix;
  }

  lemma {:induction false} LinesUndone(parse: string -> Option<Url>, token: string,
          back: string -> Result<string, Error>, lines: seq<string>)
    requires '"' !in token && '\n' !in token && (forall line :: line in lines ==> '\n' !in line)
    requires TakesOff(parse, token, back) && ChangeLines(lines, Adding(parse, token)).Success?
    ensures var changed := ChangeLines(lines, Adding(parse, token)).value;
            && |changed| == |lines| && ChangeLines(changed, back) == Success(lines)
            && (forall line :: line in changed ==> '\n' !in line)
  {
    hide ChangeLine, Adding, TakesOff;
    if lines != [] {
      LineUndone(parse, token, back, lines[0]);
      LinesUndone(parse, token, back, lines[1..]);
      var line, rest := ChangeLine(lines[0], Adding(parse, token)).value,
          ChangeLines(lines[1..], Adding(parse, token)).value;
      assert ([line] + rest)[1..] == rest && ChangeLines(lines, Adding(parse, token)).value == [line] + rest;
      assert [lines[0]] + lines[1..] == lines;
    }
  }

  /**
   The rewrite is undone by the scanner that did it: with `back` taking off what
   was put on one URI, the whole manifest comes back byte for byte, carriage
   returns and every attribute of every tag included.
   */
  lemma ManifestUndone(parse: string -> Option<Url>, token: string, back: string -> Result<string, Error>,
          manifest: string)
    requires '"' !in token && '\n' !in token && TakesOff(parse, token, back)
    requires RewriteManifest(parse, token, manifest).Success?
    ensures ChangeManifest(RewriteManifest(parse, token, manifest).value, back) == Success(manifest)
  {
    hide ChangeLine, ChangeLines, Adding, TakesOff, Split, Join;
    var lines := Split(manifest, '\n');
    JoinOfSplit(manifest, '\n');
    PartsAreWhole(manifest, '\n');
    LinesUndone(parse, token, back, lines);
    SplitOfJoin(ChangeLines(lines, Adding(parse, token)).value, '\n');
  }

  /** Takes the token off one URI. */
  function Without(token: string, uri: string): Result<string, Error> {
    if "/" + token <= uri then Success(uri[|token| + 1..]) else Failure(Outside)
  }

  lemma RemovingTheToken(parse: string -> Option<Url>, token: string, manifest: string)
    requires '"' !in token && '\n' !in token && RewriteManifest(parse, token, manifest).Success?
    ensures ChangeManifest(RewriteManifest(parse, token, manifest).value, uri => Without(token, uri))
              == Success(manifest)
  {
    hide RewriteManifest, ChangeManifest, IsMediaPath;
    var back := uri => Without(token, uri);
    forall uri | RewriteUri(parse, token, uri).Success?
      ensures back("/" + token + uri) == Success(uri)
    {
      assert ("/" + token + uri)[..|token| + 1] == "/" + token && ("/" + token + uri)[|token| + 1..] == uri;
    }
    ManifestUndone(parse, token, back, manifest);
  }

  // The requests that follow.

  function PathEnd(text: string): (end: nat)
    ensures end <= |text| && '?' !in text[..end] && '#' !in text[..end]
  {
    if Find(text, '?') < Find(text, '#') then Find(text, '?') else Find(text, '#')
  }

  /** A URI whose path parsing leaves as it is: its parts are where they are written. */
  function Plain(text: string): Url {
    var end, fragment := PathEnd(text), Find(text, '#');
    Url(text[..end], if end < fragment then Some(text[end + 1..fragment]) else None, fragment < |text|)
  }

  lemma {:induction false} FindBehind(front: string, c: char, text: string)
    requires c !in front
    ensures Find(front + text, c) == |front| + Find(text, c)
  {
    if front == "" {
      assert front + text == text;
    } else {
      assert (front + text)[1..] == front[1..] + text;
      FindBehind(front[1..], c, text);
    }
  }

  /** A path, a query behind it and a fragment behind that are found as they are written. */
  lemma PlainParts(path: string, query: string, fragment: string)
    requires '?' !in path && '#' !in path && '#' !in query
    ensures Plain(path) == Url(path, None, false)
    ensures Plain(path + "?" + query) == Url(path, Some(query), false)
    ensures Plain(path + "?" + query + "#" + fragment) == Url(path, Some(query), true)
  {
    hide Find;
    FindNone(path, '?');
    FindNone(path, '#');
    FindFirst(path, '?', query);
    var text := path + "?" + query;
    FindNone(text, '#');
    assert text[..|path|] == path && text[|path| + 1..|text|] == query;
    var whole := path + "?" + query + "#" + fragment;
    assert whole == path + "?" + (query + "#" + fragment);
    FindFirst(path, '?', query + "#" + fragment);
    FindFirst(path + "?" + query, '#', fragment);
    assert whole[..|path|] == path && whole[|path| + 1..|path + "?" + query|] == query;
  }

  /** The URL to forward, for a request to the proxy. */
  function ProxyRelativeUrl(request: Url, token: string): Result<string, Error> {
    if !("/" + token <= request.path) then Failure(Outside)
    else
      var path := request.path[|token| + 1..];
      if !IsMediaPath(path) then Failure(Outside)
      else Success(if request.query.Some? then path + "?" + request.query.value else path)
  }

  lemma MediaPathStarts(path: string)
    requires IsMediaPath(path)
    ensures path != "" && path[0] == '/'
  {
    if IsExternalTrackPath(path) || IsImagePath(path) {
      var parts := Split(path, '/');
      assert parts[0] == "" by {
        assert IsExternalTrackPath(path) ==> parts[0] == parts[..5][0] == "";
        assert IsImagePath(path) ==> parts[0] == parts[..3][0] == "";
      }
      assert Find(path, '/') < |path|;
    }
  }

  lemma PlainBehind(front: string, text: string)
    requires '?' !in front && '#' !in front
    ensures Plain(front + text) == Plain(text).(path := front + Plain(text).path)
  {
    hide Find;
    FindBehind(front, '?', text);
    FindBehind(front, '#', text);
    var end := PathEnd(text);
    assert (front + text)[..|front| + end] == front + text[..end];
    assert end < Find(text, '#') ==>
        (front + text)[|front| + end + 1..|front| + Find(text, '#')] == text[end + 1..Find(text, '#')];
  }

  lemma PlainWhole(text: string)
    requires !Plain(text).hasFragment
    ensures text == if Plain(text).query.Some? then Plain(text).path + "?" + Plain(text).query.value
              else Plain(text).path
  {
    var end := PathEnd(text);
    if end < |text| {
      assert text == text[..end] + [text[end]] + text[end + 1..];
    } else {
      assert text == text[..end];
    }
  }

  /**
   The proxy and the rewrite are inverse: a plain URI is rewritten exactly when the
   request for what it becomes is forwarded to that URI, path and query.
   */
  lemma ProxyInvertsRewrite(parse: string -> Option<Url>, token: string, uri: string)
    requires parse(uri) == Some(Plain(uri)) && '?' !in token && '#' !in token
    ensures RewriteUri(parse, token, uri).Success?
            <==> ProxyRelativeUrl(Plain("/" + token + uri), token) == Success(uri) && !Plain(uri).hasFragment
  {
    hide IsMediaPath;
    var front, path := "/" + token, Plain(uri).path;
    PlainBehind(front, uri);
    assert front <= front + path && (front + path)[|token| + 1..] == path;
    if IsMediaPath(path) {
      MediaPathStarts(path);
    }
    if !Plain(uri).hasFragment {
      PlainWhole(uri);
    }
  }

  /** Every URI of the rewritten manifest is forwarded by the proxy to the URI it was. */
  lemma ProxyUndoesManifest(token: string, manifest: string)
    requires forall c :: c in token ==> c !in "\"\n?#"
    requires RewriteManifest(uri => Some(Plain(uri)), token, manifest).Success?
    ensures ChangeManifest(RewriteManifest(uri => Some(Plain(uri)), token, manifest).value,
              uri => ProxyRelativeUrl(Plain(uri), token))
            == Success(manifest)
  {
    hide RewriteManifest, ChangeManifest, RewriteUri, ProxyRelativeUrl, Plain;
    var parse: string -> Option<Url>, back := uri => Some(Plain(uri)), uri => ProxyRelativeUrl(Plain(uri), token);
    assert '"' !in token && '\n' !in token && '?' !in token && '#' !in token;
    forall uri | RewriteUri(parse, token, uri).Success?
      ensures back("/" + token + uri) == Success(uri)
    {
      ProxyInvertsRewrite(parse, token, uri);
    }
    ManifestUndone(parse, token, back, manifest);
  }
}
