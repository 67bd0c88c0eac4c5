/** The cache-first lyrics decision of `loadLyrics`. */
module LyricsLoading {
  import opened Domain

  /** What one call of `loadLyrics` does. */
  datatype LyricsStep =
    | Skip                              // no current track, or its lyrics are already shown
    | PublishCached(lyrics: Lyrics)     // cache hit: publish, no provider call
    | CannotSearch                      // cache miss, title or artist unknown: no provider call
    | FetchRemote(track: Track)         // cache miss: ask the lyrics provider for this track

  /** The current track's lyrics are the ones already shown. */
  predicate AlreadyLoaded(current: Track, loaded: Option<Lyrics>)
  {
    loaded.Some? && current.uri == loaded.value.uri
  }

  function LyricsDecision(current: Option<Track>, loaded: Option<Lyrics>, store: map<string, Lyrics>): LyricsStep
  {
    match current
    case None => Skip
    case Some(t) =>
      if AlreadyLoaded(t, loaded) then Skip
      else if t.uri in store then PublishCached(store[t.uri])
      else if t.title.None? || t.artist.None? then CannotSearch
      else FetchRemote(t)
  }

  /** The playback state after one `loadLyrics` decision. Every step but Skip
      first clears the shown lyrics and raises the loading flag; a cache hit
      then publishes and lowers it. A track without title or artist leaves the
      flag raised, since that path returns without lowering it. */
  function AfterLyricsStep(s: PlaybackState, step: LyricsStep): PlaybackState
  {
    match step
    case Skip => s
    case PublishCached(l) => s.(lyrics := Some(l), isLoadingLyrics := false)
    case CannotSearch => s.(lyrics := None, isLoadingLyrics := true)
    case FetchRemote(_) => s.(lyrics := None, isLoadingLyrics := true)
  }

  /** The provider is asked only for the current track, only on a cache miss,
      only when its lyrics are not already shown and only when both title and
      artist are known; and in all those cases it is asked. */
  lemma FetchExactlyOnTaggedMiss(current: Option<Track>, loaded: Option<Lyrics>, store: map<string, Lyrics>)
    ensures LyricsDecision(current, loaded, store).FetchRemote? <==>
      current.Some? && !AlreadyLoaded(current.value, loaded) && current.value.uri !in store
      && current.value.title.Some? && current.value.artist.Some?
    ensures LyricsDecision(current, loaded, store).FetchRemote? ==>
      LyricsDecision(current, loaded, store).track == current.value
  {
  }

  /** A cache hit publishes the stored lyrics and never reaches the provider. */
  lemma CacheHitNeverFetches(t: Track, loaded: Option<Lyrics>, store: map<string, Lyrics>)
    requires t.uri in store && !AlreadyLoaded(t, loaded)
    ensures LyricsDecision(Some(t), loaded, store) == PublishCached(store[t.uri])
  {
  }

  /** Lyrics fetched for a track and written through to the store are a cache
      hit the next time that track needs them. */
  lemma WriteThroughThenHit(t: Track, l: Lyrics, loaded: Option<Lyrics>, store: map<string, Lyrics>)
    requires l.uri == t.uri && !AlreadyLoaded(t, loaded)
    ensures LyricsDecision(Some(t), loaded, store[l.uri := l]) == PublishCached(l)
  {
  }

  /** Every stored lyrics entry sits under its own track URI. */
  predicate StoreKeyedByUri(store: map<string, Lyrics>)
  {
    forall u :: u in store ==> store[u].uri == u
  }

  /** Writing fetched lyrics through under their URI keeps the store keyed by URI. */
  lemma WriteThroughKeepsKeys(store: map<string, Lyrics>, l: Lyrics)
    requires StoreKeyedByUri(store)
    ensures StoreKeyedByUri(store[l.uri := l])
  {
  }

  /** After one decision with a track current, the sheet either shows that
      track's lyrics or shows none and is loading. */
  lemma LoadShowsCurrentOrLoads(s: PlaybackState, store: map<string, Lyrics>)
    requires StoreKeyedByUri(store) && s.currentTrack.Some?
    ensures var r := AfterLyricsStep(s, LyricsDecision(s.currentTrack, s.lyrics, store));
      (r.lyrics.Some? && r.lyrics.value.uri == s.currentTrack.value.uri)
      || (r.lyrics.None? && r.isLoadingLyrics)
  {
  }
}
