/** The words of the API's paths that a scrubbed route keeps (server/src/observability.rs:36-91). */
module RouteWords {
  import opened Texts

  predicate IsRouteChar(c: char) {
    'a' <= c <= 'z' || IsDigit(c) || c == '-' || c == '.'
  }

  /** Lower-case letters, digits, `-` and `.`, from a letter to a letter or a digit. */
  predicate LooksLikeRouteWord(word: string) {
    && word != "" && 'a' <= word[0] <= 'z' && (forall i :: 0 <= i < |word| ==> IsRouteChar(word[i]))
    && word[|word| - 1] != '-' && word[|word| - 1] != '.'
  }

  // The words in alphabetical order, in groups small enough for the solver to look at each word.

  predicate InAlbums(segment: string)
    ensures InAlbums(segment) ==> LooksLikeRouteWord(segment)
  {
    segment in ["albums", "api", "artists", "artwork", "biography", "catalog", "client-metrics"]
  }

  predicate InClock(segment: string)
    ensures InClock(segment) ==> LooksLikeRouteWord(segment)
  {
    segment in ["clock", "commands", "confirm", "countries", "cover", "deletion", "events"]
  }

  predicate InExternal(segment: string)
    ensures InExternal(segment) ==> LooksLikeRouteWord(segment)
  {
    segment in ["external", "file", "health", "heartbeat", "import", "import-batches", "import-history"]
  }

  predicate InImports(segment: string)
    ensures InImports(segment) ==> LooksLikeRouteWord(segment)
  {
    segment in ["imports", "items", "join", "leave", "library", "listen-together", "lyrics"]
  }

  predicate InMe(segment: string)
    ensures InMe(segment) ==> LooksLikeRouteWord(segment)
  {
    segment in ["me", "now-playing", "online-genres", "photo", "play-counts", "playback", "playlist.m3u8"]
  }

  predicate InPlaylists(segment: string)
    ensures InPlaylists(segment) ==> LooksLikeRouteWord(segment)
  {
    segment in ["playlists", "popular-tracks", "preferences", "preview", "queue", "radio", "replacement"]
  }

  predicate InResources(segment: string)
    ensures InResources(segment) ==> LooksLikeRouteWord(segment)
  {
    segment in ["resources", "room", "search", "session", "stations", "stream", "tags"]
  }

  predicate InTracks(segment: string)
    ensures InTracks(segment) ==> LooksLikeRouteWord(segment)
  {
    segment in ["tracks", "v1", "waveform"]
  }

  predicate IsRouteWord(segment: string) {
    || InAlbums(segment)
    || InClock(segment)
    || InExternal(segment)
    || InImports(segment)
    || InMe(segment)
    || InPlaylists(segment)
    || InResources(segment)
    || InTracks(segment)
  }

  lemma RouteWordShape(segment: string)
    requires IsRouteWord(segment)
    ensures LooksLikeRouteWord(segment)
  {
    hide LooksLikeRouteWord;
  }
}
