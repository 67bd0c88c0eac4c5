/** The player view model: the playback state cell, the catalog cell and the
    queue handlers of `onEvent`, the engine listener and the sync tick.
    The playback engine is foreign: its queue and repeat/shuffle settings are
    ghost fields, and what the handlers read from it (its current index,
    whether it has a previous or next item, whether it holds an item) comes in
    as parameters. */
module Player {
  import opened Domain
  import opened ListOps
  import opened PlaybackModes
  import opened Catalog
  import opened LyricsLoading
  import opened QueueRules
  import opened QueueEffects

  class PlayerViewModel {
    /** `_playbackState.value` */
    var playbackState: PlaybackState
    /** `_trackList.value`: the sorted catalog. */
    var trackList: seq<Track>
    /** The track the track-info sheet holds, if any; closing the sheet
        keeps it. */
    var infoSheetTrack: Option<Track>
    /** Whether the track-info sheet is shown. */
    var infoSheetShown: bool
    /** The lyrics store, keyed by track URI. */
    var lyricsStore: map<string, Lyrics>
    /** `player != null` */
    var hasPlayer: bool

    /** The engine's queue of media items, one per track. */
    ghost var engineQueue: seq<Track>
    /** The engine's repeat and shuffle settings. */
    ghost var engineConfig: EngineConfig

    /** The engine's queue and the mirrored playlist agree, entry for entry. */
    ghost predicate Aligned()
      reads this
    {
      InSync(Queue(playbackState, engineQueue), hasPlayer)
    }

    /** The engine plays under the settings of the mode the state shows. */
    ghost predicate ModeApplied()
      reads this
    {
      hasPlayer ==> engineConfig == ConfigFor(playbackState.playbackMode)
    }

    /** Start-up with an empty catalog: the saved playback mode is applied to
        the engine and shown in the state. */
    constructor (hasPlayer: bool, savedMode: PlaybackMode, lyricsStore: map<string, Lyrics>)
      ensures playbackState == DefaultPlaybackState.(playbackMode := savedMode)
      ensures trackList == [] && infoSheetTrack == None && !infoSheetShown
      ensures this.hasPlayer == hasPlayer && this.lyricsStore == lyricsStore
      ensures engineQueue == [] && engineConfig == ConfigFor(savedMode)
      ensures Aligned() && ModeApplied()
    {
      this.hasPlayer := hasPlayer;
      this.lyricsStore := lyricsStore;
      trackList := [];
      infoSheetTrack := None;
      infoSheetShown := false;
      engineQueue := [];
      engineConfig := ConfigFor(savedMode);
      playbackState := DefaultPlaybackState.(playbackMode := savedMode);
    }

    /** Track click: play `track` from `playlist`. The engine's queue is
        reloaded only when the playlist differs from the loaded one; either way
        playback restarts at the track's first index, from position 0. The
        engine refuses a negative index, so the track must be on the playlist. */
    method OnTrackClick(track: Track, playlist: Playlist) returns (seekIndex: int)
      requires hasPlayer ==> track in playlist.trackList
      modifies this`playbackState, this`engineQueue
      ensures Queue(playbackState, engineQueue) ==
        TrackClick(Queue(old(playbackState), old(engineQueue)), track, playlist, hasPlayer)
      ensures hasPlayer ==>
        0 <= seekIndex < |playlist.trackList| && playlist.trackList[seekIndex] == track
        && track !in playlist.trackList[..seekIndex]
      ensures old(Aligned()) || (hasPlayer && old(playbackState.playlist) != Some(playlist)) ==> Aligned()
    {
      TrackClickSyncs(Queue(playbackState, engineQueue), track, playlist, hasPlayer);
      seekIndex := -1;
      if hasPlayer {
        if playbackState.playlist != Some(playlist) {
          engineQueue := playlist.trackList;
        }
        seekIndex := IndexOf(playlist.trackList, track);
        playbackState := playbackState.(playlist := Some(playlist), currentTrack := Some(track), position := 0);
      }
    }

    /** Seek-previous: with no previous item the engine restarts the current
        one and the state position drops to 0 at once. */
    method OnSeekToPreviousClick(hasPrevious: bool) returns (restarted: bool)
      modifies this`playbackState
      ensures restarted <==> hasPlayer && !hasPrevious
      ensures playbackState == if restarted then old(playbackState).(position := 0) else old(playbackState)
    {
      restarted := hasPlayer && !hasPrevious;
      if restarted {
        playbackState := playbackState.(position := 0);
      }
    }

    /** Seek-to: ignored unless the engine holds an item; otherwise the state
        takes the new position at once. */
    method OnSeekTo(position: int, hasCurrentItem: bool)
      modifies this`playbackState
      ensures playbackState ==
        if hasPlayer && hasCurrentItem then old(playbackState).(position := position) else old(playbackState)
    {
      if hasPlayer && hasCurrentItem {
        playbackState := playbackState.(position := position);
      }
    }

    /** Playback-mode button: the mode advances along the cycle and the engine
        takes that mode's repeat/shuffle settings. */
    method OnPlaybackModeClick()
      modifies this`playbackState, this`engineConfig
      ensures playbackState == old(playbackState).(playbackMode := Cycle(old(playbackState.playbackMode)))
      ensures engineConfig == if hasPlayer then ConfigFor(playbackState.playbackMode) else old(engineConfig)
      ensures ModeApplied()
    {
      var next := NextMode(playbackState.playbackMode);
      if next.Some? {
        if hasPlayer {
          engineConfig := ConfigFor(next.value);
        }
        playbackState := playbackState.(playbackMode := next.value);
      }
    }

    /** Expanding or collapsing the player always closes the lyrics sheet. */
    method OnPlayerExpandedChange(isExpanded: bool)
      modifies this`playbackState
      ensures playbackState == old(playbackState).(isPlayerExpanded := isExpanded, isLyricsSheetExpanded := false)
    {
      playbackState := playbackState.(isPlayerExpanded := isExpanded, isLyricsSheetExpanded := false);
    }

    method OnLyricsSheetExpandedChange(isExpanded: bool)
      modifies this`playbackState
      ensures playbackState == old(playbackState).(isLyricsSheetExpanded := isExpanded)
    {
      playbackState := playbackState.(isLyricsSheetExpanded := isExpanded);
    }

    /** Engine listener: the playing flag follows the engine. */
    method OnIsPlayingChanged(isPlaying: bool)
      modifies this`playbackState
      ensures playbackState == old(playbackState).(isPlaying := isPlaying)
    {
      playbackState := playbackState.(isPlaying := isPlaying);
    }

    /** Remove-from-queue: when the entry is the engine's current one the
        engine first skips to the next item (if it has one); then the entry is
        removed from the engine and from the mirrored list at the same index.
        An emptied queue collapses the player and the lyrics sheet. The list
        removal throws outside the list, and the engine refuses a negative index. */
    method OnRemoveFromQueueClick(index: int, playerIndex: int, hasNext: bool) returns (advanced: bool)
      requires hasPlayer ==> 0 <= index
      requires hasPlayer && playbackState.playlist.Some? ==> index < |playbackState.playlist.value.trackList|
      modifies this`playbackState, this`engineQueue
      ensures advanced <==> hasPlayer && index == playerIndex && hasNext
      ensures Queue(playbackState, engineQueue) ==
        RemoveFromQueue(Queue(old(playbackState), old(engineQueue)), index, hasPlayer)
      ensures old(Aligned()) ==> Aligned()
    {
      RemoveFromQueueSpec(Queue(playbackState, engineQueue), index, hasPlayer);
      advanced := false;
      if hasPlayer {
        if index == playerIndex && hasNext {
          advanced := true;
        }
        engineQueue := EngineRemove(engineQueue, index);
        if playbackState.playlist.Some? {
          var p := playbackState.playlist.value;
          playbackState := playbackState.(playlist := Some(p.(trackList := RemoveAt(p.trackList, index))));
          if playbackState.playlist.value.trackList == [] {
            playbackState := playbackState.(isPlayerExpanded := false, isLyricsSheetExpanded := false);
          }
        }
      }
    }

    /** Reorder: the engine and the mirrored list both move the entry at
        `from` to `to`. The list throws outside its bounds, the engine on a
        negative index. */
    method OnReorderingQueue(from: int, to: int)
      requires hasPlayer ==> 0 <= from && 0 <= to
      requires hasPlayer && playbackState.playlist.Some? ==>
        from < |playbackState.playlist.value.trackList| && to < |playbackState.playlist.value.trackList|
      modifies this`playbackState, this`engineQueue
      ensures Queue(playbackState, engineQueue) ==
        Reorder(Queue(old(playbackState), old(engineQueue)), from, to, hasPlayer)
      ensures old(Aligned()) ==> Aligned()
    {
      ReorderSpec(Queue(playbackState, engineQueue), from, to, hasPlayer);
      if hasPlayer {
        engineQueue := EngineMove(engineQueue, from, to);
        if playbackState.playlist.Some? {
          var p := playbackState.playlist.value;
          playbackState := playbackState.(playlist := Some(p.(trackList := Move(p.trackList, from, to))));
        }
      }
    }

    /** Play-next. Nothing happens when the track is already current. With no
        queue it opens the ad-hoc playlist of just this track. A queued track is
        moved to the current index (capped at the last index); any other track
        is inserted at the current index + 1 in the list and at the engine's
        current index + 1 in the engine. */
    method OnPlayNextClick(track: Track, playerIndex: int)
      requires PlayNextDefined(playbackState, track, hasPlayer, playerIndex)
      modifies this`playbackState, this`engineQueue
      ensures Queue(playbackState, engineQueue) ==
        PlayNext(Queue(old(playbackState), old(engineQueue)), track, hasPlayer, playerIndex)
      ensures old(Aligned()) && (old(playbackState.playlist).None? || track in old(playbackState.playlist).value.trackList)
        ==> Aligned()
    {
      ghost var v := Queue(playbackState, engineQueue);
      PlayNextSpec(v, track, hasPlayer, playerIndex);
      if playbackState.currentTrack == Some(track) {
        return;
      }
      if playbackState.playlist.Some? {
        var p := playbackState.playlist.value;
        var trackIndex := IndexOf(p.trackList, track);
        if trackIndex >= 0 {
          var target := PlayNextMoveTarget(p.trackList, playbackState.currentTrack);
          assert PlayNext(v, track, hasPlayer, playerIndex) == Reorder(v, trackIndex, target, hasPlayer);
          OnReorderingQueue(trackIndex, target);
        } else if hasPlayer {
          var i := PlayNextInsertIndex(p.trackList, playbackState.currentTrack);
          engineQueue := EngineInsert(engineQueue, playerIndex + 1, track);
          playbackState := playbackState.(playlist := Some(p.(trackList := InsertAt(p.trackList, i, track))));
          assert Queue(playbackState, engineQueue) == PlayNext(v, track, hasPlayer, playerIndex);
        }
      } else {
        assert PlayNext(v, track, hasPlayer, playerIndex) == TrackClick(v, track, AdHoc(track), hasPlayer);
        var _ := OnTrackClick(track, AdHoc(track));
      }
    }

    /** Add-to-queue. Nothing happens when the track is already current. With
        no queue it opens the ad-hoc playlist of just this track. A queued
        track is moved to the last index; any other track is appended to both
        the engine and the list. */
    method OnAddToQueueClick(track: Track)
      modifies this`playbackState, this`engineQueue
      ensures Queue(playbackState, engineQueue) ==
        AddToQueue(Queue(old(playbackState), old(engineQueue)), track, hasPlayer)
      ensures old(Aligned()) ==> Aligned()
    {
      ghost var v := Queue(playbackState, engineQueue);
      if Aligned() {
        AddToQueueKeepsSync(v, track, hasPlayer);
      }
      if playbackState.currentTrack == Some(track) {
        return;
      }
      if playbackState.playlist.Some? {
        var p := playbackState.playlist.value;
        var trackIndex := IndexOf(p.trackList, track);
        if trackIndex >= 0 {
          OnReorderingQueue(trackIndex, |p.trackList| - 1);
        } else if hasPlayer {
          engineQueue := engineQueue + [track];
          playbackState := playbackState.(playlist := Some(p.(trackList := p.trackList + [track])));
          assert Queue(playbackState, engineQueue) == AddToQueue(v, track, hasPlayer);
        }
      } else {
        var _ := OnTrackClick(track, AdHoc(track));
      }
    }

    /** Lyrics loading, cache first. Returns the track the lyrics provider is
        asked about, if it is asked at all. */
    method LoadLyrics() returns (request: Option<Track>)
      modifies this`playbackState
      ensures var step := LyricsDecision(old(playbackState.currentTrack), old(playbackState.lyrics), lyricsStore);
        playbackState == AfterLyricsStep(old(playbackState), step)
        && request == if step.FetchRemote? then Some(step.track) else None
    {
      var step := LyricsDecision(playbackState.currentTrack, playbackState.lyrics, lyricsStore);
      playbackState := AfterLyricsStep(playbackState, step);
      request := if step.FetchRemote? then Some(step.track) else None;
    }

    /** The provider's answer: found lyrics are written through to the store
        and shown; on an error only the loading flag drops. The answer is
        applied whatever track is current by then. */
    method OnLyricsResult(result: LyricsResult)
      modifies this`playbackState, this`lyricsStore
      ensures result.LyricsFound? ==>
        lyricsStore == old(lyricsStore)[result.lyrics.uri := result.lyrics]
        && playbackState == old(playbackState).(lyrics := Some(result.lyrics), isLoadingLyrics := false)
      ensures result.LyricsFailed? ==>
        lyricsStore == old(lyricsStore) && playbackState == old(playbackState).(isLoadingLyrics := false)
      ensures old(StoreKeyedByUri(lyricsStore)) ==> StoreKeyedByUri(lyricsStore)
    {
      if result.LyricsFound? && StoreKeyedByUri(lyricsStore) {
        WriteThroughKeepsKeys(lyricsStore, result.lyrics);
      }
      match result
      case LyricsFound(l) =>
        lyricsStore := lyricsStore[l.uri := l];
        playbackState := playbackState.(lyrics := Some(l), isLoadingLyrics := false);
      case LyricsFailed(_) =>
        playbackState := playbackState.(isLoadingLyrics := false);
    }

    /** Engine listener, track transition: the current track becomes the
        queued track carrying the engine's new media item (none if there is no
        such track), the position drops to 0, and lyrics are loaded when the
        lyrics sheet is open. */
    method OnMediaItemTransition(item: Option<MediaItem>) returns (request: Option<Track>)
      modifies this`playbackState
      ensures var s := old(playbackState).(
          currentTrack := if old(playbackState.playlist).Some? && item.Some?
                          then FirstWithMediaItem(old(playbackState.playlist).value.trackList, item.value)
                          else None,
          position := 0);
        if s.isLyricsSheetExpanded then
          var step := LyricsDecision(s.currentTrack, s.lyrics, lyricsStore);
          playbackState == AfterLyricsStep(s, step) && request == if step.FetchRemote? then Some(step.track) else None
        else
          playbackState == s && request == None
      ensures Aligned() <==> old(Aligned())
    {
      var current := None;
      if playbackState.playlist.Some? && item.Some? {
        current := FirstWithMediaItem(playbackState.playlist.value.trackList, item.value);
      }
      playbackState := playbackState.(currentTrack := current, position := 0);
      request := None;
      if playbackState.isLyricsSheetExpanded {
        request := LoadLyrics();
      }
    }

    /** Viewing a track's info: the sheet is shown and holds `track`. */
    method OnViewTrackInfoClick(track: Track)
      modifies this`infoSheetTrack, this`infoSheetShown
      ensures infoSheetShown && infoSheetTrack == Some(track)
    {
      infoSheetShown := true;
      infoSheetTrack := Some(track);
    }

    /** Closing the info sheet hides it but keeps the track it holds, so a
        later catalog change still resets playback (see `SyncTick`). */
    method OnCloseTrackInfoSheetClick()
      modifies this`infoSheetShown
      ensures !infoSheetShown && infoSheetTrack == old(infoSheetTrack)
    {
      infoSheetShown := false;
    }

    /** One pass of the sync loop. `fetched` is the catalog as the track
        source lists it now and `sorted` is that list under the user's sort
        order. The catalog is replaced when the change test fires; if the
        track-info sheet then holds a track, the sheet's track is looked up
        again by URI and the whole playback state is reset, stopping and
        emptying the engine, whether or not that track vanished. */
    method SyncTick(fetched: seq<Track>, sorted: seq<Track>) returns (changed: bool)
      requires multiset(sorted) == multiset(fetched)
      modifies this`trackList, this`infoSheetTrack, this`playbackState, this`engineQueue
      ensures changed == CatalogChanged(old(trackList), fetched)
      ensures trackList == if changed then sorted else old(trackList)
      ensures multiset(trackList) == if changed then multiset(fetched) else multiset(old(trackList))
      ensures changed && old(infoSheetTrack).Some? ==>
        infoSheetTrack == FirstWithUri(sorted, old(infoSheetTrack).value.uri)
        && playbackState == DefaultPlaybackState
        && engineQueue == if hasPlayer then [] else old(engineQueue)
      ensures !changed || old(infoSheetTrack).None? ==>
        infoSheetTrack == old(infoSheetTrack) && playbackState == old(playbackState) && engineQueue == old(engineQueue)
      ensures old(Aligned()) ==> Aligned()
    {
      changed := |trackList| != |fetched| || !ContainsAll(trackList, fetched);
      if changed {
        trackList := sorted;
        if infoSheetTrack.Some? {
          infoSheetTrack := FirstWithUri(trackList, infoSheetTrack.value.uri);
          playbackState := DefaultPlaybackState;
          if hasPlayer {
            engineQueue := [];
          }
        }
      }
    }
  }
}
