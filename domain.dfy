/** The value types of the player: tracks, playlists and the playback state the
    view model publishes. Every one is immutable; the view model replaces them
    wholesale (Kotlin `copy`). */
module Domain {

  datatype Option<+T> = None | Some(value: T)

  /** A Media3 media item. The catalog builds each one from the track's content URI. */
  datatype MediaItem = MediaItem(uri: string)

  /** A catalog entry. Only the fields the core reads are kept; equality is by all
      of them, as for the Kotlin data class. `data` is the absolute file path. */
  datatype Track = Track(
    uri: string,
    mediaItem: MediaItem,
    data: string,
    title: Option<string>,
    artist: Option<string>,
    album: Option<string>,
    genre: Option<string>)

  /** `name == None` marks an ad-hoc playlist; the order of `trackList` is the queue order. */
  datatype Playlist = Playlist(name: Option<string>, trackList: seq<Track>)

  /** Declaration order matters: mode cycling walks `PlaybackMode.entries`. */
  datatype PlaybackMode = Repeat | RepeatOne | Shuffle

  /** Lyrics are keyed by the string form of the track's URI. */
  datatype Lyrics = Lyrics(uri: string, text: string)

  /** The network error taxonomy of the remote providers. */
  datatype NetworkError =
    | BadRequest | NotFound | InternalServerError | ServiceUnavailable
    | ParseError | NoInternet | RequestTimeout | Unknown

  /** What the lyrics provider returns. */
  datatype LyricsResult = LyricsFound(lyrics: Lyrics) | LyricsFailed(error: NetworkError)

  datatype PlaybackState = PlaybackState(
    playlist: Option<Playlist>,
    currentTrack: Option<Track>,
    isPlaying: bool,
    position: int,
    playbackMode: PlaybackMode,
    isPlayerExpanded: bool,
    isLyricsSheetExpanded: bool,
    lyrics: Option<Lyrics>,
    isLoadingLyrics: bool)

  /** `PlaybackState()`: no queue, nothing playing, every flag off. */
  const DefaultPlaybackState: PlaybackState :=
    PlaybackState(None, None, false, 0, Repeat, false, false, None, false)

  /** The ad-hoc single-track playlist that play-next and add-to-queue open when no queue is loaded. */
  function AdHoc(track: Track): (p: Playlist)
    ensures p.name == None && p.trackList == [track]
  {
    Playlist(None, [track])
  }
}
