/** What each queue handler does to the playback state and to the engine's
    queue, as functions of the two before the event. The view model's methods
    are proved to have exactly these effects; the lemmas here say what the
    effects mean: the queue stays a reordering of itself, the engine's copy
    stays in step with the mirrored list, the added track ends up queued. */
module QueueEffects {
  import opened Domain
  import opened ListOps
  import opened QueueRules

  /** The playback state together with the engine's queue. */
  datatype Queue = Queue(state: PlaybackState, engine: seq<Track>)

  /** With a player and a playlist, the engine queues exactly the playlist's tracks, in order. */
  predicate InSync(v: Queue, hasPlayer: bool)
  {
    hasPlayer && v.state.playlist.Some? ==> v.engine == v.state.playlist.value.trackList
  }

  function WithTrackList(s: PlaybackState, l: seq<Track>): (r: PlaybackState)
    requires s.playlist.Some?
    ensures r.playlist.Some? && r.playlist.value.trackList == l && r.playlist.value.name == s.playlist.value.name
  {
    s.(playlist := Some(s.playlist.value.(trackList := l)))
  }

  /** Track click: with a player, the playlist and track become current at
      position 0, and the engine is reloaded only when the playlist differs. */
  function TrackClick(v: Queue, track: Track, playlist: Playlist, hasPlayer: bool): Queue
  {
    if !hasPlayer then v
    else
      Queue(v.state.(playlist := Some(playlist), currentTrack := Some(track), position := 0),
            if v.state.playlist != Some(playlist) then playlist.trackList else v.engine)
  }

  /** Remove-from-queue. */
  function RemoveFromQueue(v: Queue, index: int, hasPlayer: bool): Queue
    requires hasPlayer ==> 0 <= index
    requires hasPlayer && v.state.playlist.Some? ==> index < |v.state.playlist.value.trackList|
  {
    if !hasPlayer then v
    else
      var e := EngineRemove(v.engine, index);
      if v.state.playlist.None? then Queue(v.state, e)
      else
        var l := RemoveAt(v.state.playlist.value.trackList, index);
        Queue(WithTrackList(v.state, l).(isPlayerExpanded := l != [] && v.state.isPlayerExpanded,
                                         isLyricsSheetExpanded := l != [] && v.state.isLyricsSheetExpanded),
              e)
  }

  /** Reorder: move the entry at `from` to `to`. */
  function Reorder(v: Queue, from: int, to: int, hasPlayer: bool): Queue
    requires hasPlayer ==> 0 <= from && 0 <= to
    requires hasPlayer && v.state.playlist.Some? ==>
      from < |v.state.playlist.value.trackList| && to < |v.state.playlist.value.trackList|
  {
    if !hasPlayer then v
    else
      var e := EngineMove(v.engine, from, to);
      if v.state.playlist.None? then Queue(v.state, e)
      else Queue(WithTrackList(v.state, Move(v.state.playlist.value.trackList, from, to)), e)
  }

  /** Play-next, as written. */
  function PlayNext(v: Queue, track: Track, hasPlayer: bool, playerIndex: int): Queue
    requires PlayNextDefined(v.state, track, hasPlayer, playerIndex)
  {
    if v.state.currentTrack == Some(track) then v
    else if v.state.playlist.None? then TrackClick(v, track, AdHoc(track), hasPlayer)
    else
      var l := v.state.playlist.value.trackList;
      var i := IndexOf(l, track);
      if i >= 0 then Reorder(v, i, PlayNextMoveTarget(l, v.state.currentTrack), hasPlayer)
      else if !hasPlayer then v
      else
        Queue(WithTrackList(v.state, InsertAt(l, PlayNextInsertIndex(l, v.state.currentTrack), track)),
              EngineInsert(v.engine, playerIndex + 1, track))
  }

  /** Add-to-queue. */
  function AddToQueue(v: Queue, track: Track, hasPlayer: bool): Queue
  {
    if v.state.currentTrack == Some(track) then v
    else if v.state.playlist.None? then TrackClick(v, track, AdHoc(track), hasPlayer)
    else
      var l := v.state.playlist.value.trackList;
      var i := IndexOf(l, track);
      if i >= 0 then Reorder(v, i, |l| - 1, hasPlayer)
      else if !hasPlayer then v
      else Queue(WithTrackList(v.state, l + [track]), v.engine + [track])
  }

  /** A track click keeps the engine in step, and a click that reloads the
      engine brings it back in step whatever it held before. */
  lemma TrackClickSyncs(v: Queue, track: Track, playlist: Playlist, hasPlayer: bool)
    ensures InSync(v, hasPlayer) ==> InSync(TrackClick(v, track, playlist, hasPlayer), hasPlayer)
    ensures v.state.playlist != Some(playlist) ==> InSync(TrackClick(v, track, playlist, hasPlayer), hasPlayer)
  {
  }

  /** Removing an entry drops exactly that entry from the queue, keeps the
      engine in step, and an emptied queue leaves no sheet expanded. */
  lemma RemoveFromQueueSpec(v: Queue, index: int, hasPlayer: bool)
    requires hasPlayer ==> 0 <= index
    requires hasPlayer && v.state.playlist.Some? ==> index < |v.state.playlist.value.trackList|
    ensures InSync(v, hasPlayer) ==> InSync(RemoveFromQueue(v, index, hasPlayer), hasPlayer)
    ensures hasPlayer && v.state.playlist.Some? ==>
      var l, r := v.state.playlist.value.trackList, RemoveFromQueue(v, index, hasPlayer).state;
      r.playlist.Some? && r.currentTrack == v.state.currentTrack
      && |r.playlist.value.trackList| == |l| - 1
      && (forall k :: 0 <= k < |r.playlist.value.trackList| ==>
            r.playlist.value.trackList[k] == l[if k < index then k else k + 1])
      && multiset(r.playlist.value.trackList) == multiset(l) - multiset{l[index]}
      && (r.playlist.value.trackList == [] ==> !r.isPlayerExpanded && !r.isLyricsSheetExpanded)
  {
    if hasPlayer && v.state.playlist.Some? {
      RemoveAtMultiset(v.state.playlist.value.trackList, index);
    }
  }

  /** A reorder is a permutation that puts the dragged entry at `to`, and it
      keeps the engine in step. */
  lemma ReorderSpec(v: Queue, from: int, to: int, hasPlayer: bool)
    requires hasPlayer ==> 0 <= from && 0 <= to
    requires hasPlayer && v.state.playlist.Some? ==>
      from < |v.state.playlist.value.trackList| && to < |v.state.playlist.value.trackList|
    ensures InSync(v, hasPlayer) ==> InSync(Reorder(v, from, to, hasPlayer), hasPlayer)
    ensures hasPlayer && v.state.playlist.Some? ==>
      var l, r := v.state.playlist.value.trackList, Reorder(v, from, to, hasPlayer).state;
      r.playlist.Some? && r.currentTrack == v.state.currentTrack
      && multiset(r.playlist.value.trackList) == multiset(l)
      && r.playlist.value.trackList[to] == l[from]
  {
    if hasPlayer && v.state.playlist.Some? {
      var l := v.state.playlist.value.trackList;
      MoveIsPermutation(l, from, to);
      if InSync(v, hasPlayer) {
        EngineAgreesInRange(l, from, from, to, l[from]);
      }
    }
  }

  /** Play-next puts the track on the queue without disturbing the rest: a
      queued track is only moved (to the current index, capped at the last),
      any other is added once, right after the current track's index. A
      queued track or an empty queue keeps the engine in step. */
  lemma PlayNextSpec(v: Queue, track: Track, hasPlayer: bool, playerIndex: int)
    requires PlayNextDefined(v.state, track, hasPlayer, playerIndex)
    ensures InSync(v, hasPlayer) && (v.state.playlist.None? || track in v.state.playlist.value.trackList) ==>
      InSync(PlayNext(v, track, hasPlayer, playerIndex), hasPlayer)
    ensures hasPlayer && v.state.currentTrack != Some(track) ==>
      var r := PlayNext(v, track, hasPlayer, playerIndex).state;
      r.playlist.Some? && track in r.playlist.value.trackList
      && multiset(r.playlist.value.trackList) ==
         if v.state.playlist.None? then multiset{track}
         else if track in v.state.playlist.value.trackList then multiset(v.state.playlist.value.trackList)
         else multiset(v.state.playlist.value.trackList) + multiset{track}
    ensures hasPlayer && v.state.currentTrack != Some(track) && v.state.playlist.Some? ==>
      var l, r := v.state.playlist.value.trackList, PlayNext(v, track, hasPlayer, playerIndex).state;
      var at := if track in l then PlayNextMoveTarget(l, v.state.currentTrack)
                else PlayNextInsertIndex(l, v.state.currentTrack);
      0 <= at < |r.playlist.value.trackList| && r.playlist.value.trackList[at] == track
  {
    if hasPlayer && v.state.currentTrack != Some(track) && v.state.playlist.Some? {
      var l := v.state.playlist.value.trackList;
      var i := IndexOf(l, track);
      if i >= 0 {
        var t := PlayNextMoveTarget(l, v.state.currentTrack);
        ReorderSpec(v, i, t, hasPlayer);
        assert PlayNext(v, track, hasPlayer, playerIndex).state.playlist.value.trackList[t] == track;
      } else {
        var j := PlayNextInsertIndex(l, v.state.currentTrack);
        InsertAtMultiset(l, j, track);
        assert InsertAt(l, j, track)[j] == track;
      }
    }
  }

  /** For a track not yet queued the engine inserts after ITS current index
      and the list after the current track's index: the two copies stay in
      step exactly when those positions agree. */
  lemma PlayNextInsertSyncIff(v: Queue, track: Track, hasPlayer: bool, playerIndex: int)
    requires PlayNextDefined(v.state, track, hasPlayer, playerIndex)
    requires hasPlayer && v.state.currentTrack != Some(track) && v.state.playlist.Some?
    requires track !in v.state.playlist.value.trackList && InSync(v, hasPlayer)
    ensures var l := v.state.playlist.value.trackList;
      InSync(PlayNext(v, track, hasPlayer, playerIndex), hasPlayer) <==>
      Min(playerIndex + 1, |l|) == PlayNextInsertIndex(l, v.state.currentTrack)
  {
    var l := v.state.playlist.value.trackList;
    InsertAlignment(l, playerIndex + 1, PlayNextInsertIndex(l, v.state.currentTrack), track);
  }

  /** The queue after add-to-queue of a track not current: a queued track is
      moved to the end, any other appended; either way it ends up last. */
  function AddedList(l: seq<Track>, track: Track): (r: seq<Track>)
    ensures |r| > 0 && r[|r| - 1] == track
    ensures multiset(r) == if track in l then multiset(l) else multiset(l) + multiset{track}
  {
    var i := IndexOf(l, track);
    if i >= 0 then
      MoveIsPermutation(l, i, |l| - 1);
      Move(l, i, |l| - 1)
    else
      assert multiset(l + [track]) == multiset(l) + multiset{track};
      l + [track]
  }

  /** Add-to-queue keeps the engine in step. */
  lemma AddToQueueKeepsSync(v: Queue, track: Track, hasPlayer: bool)
    requires InSync(v, hasPlayer)
    ensures InSync(AddToQueue(v, track, hasPlayer), hasPlayer)
  {
    if v.state.currentTrack != Some(track) && v.state.playlist.Some? {
      var l := v.state.playlist.value.trackList;
      var i := IndexOf(l, track);
      if i >= 0 {
        ReorderSpec(v, i, |l| - 1, hasPlayer);
      }
    }
  }

  /** Add-to-queue leaves the track last on the queue: a queued track is
      moved there, any other is appended once. */
  lemma AddToQueuePutsTrackLast(v: Queue, track: Track, hasPlayer: bool)
    requires hasPlayer && v.state.currentTrack != Some(track)
    ensures var r := AddToQueue(v, track, hasPlayer).state;
      r.playlist.Some? && |r.playlist.value.trackList| > 0
      && r.playlist.value.trackList[|r.playlist.value.trackList| - 1] == track
      && multiset(r.playlist.value.trackList) ==
         if v.state.playlist.None? then multiset{track}
         else if track in v.state.playlist.value.trackList then multiset(v.state.playlist.value.trackList)
         else multiset(v.state.playlist.value.trackList) + multiset{track}
  {
    if v.state.playlist.Some? {
      var l := v.state.playlist.value.trackList;
      var ql := AddedList(l, track);
      assert AddToQueue(v, track, hasPlayer).state == WithTrackList(v.state, ql) by {
        var i := IndexOf(l, track);
        if i >= 0 {
          MoveIsPermutation(l, i, |l| - 1);
        }
      }
    }
  }

  /** Play-next as evidently intended: a queued track is moved to just after
      the current track and a new track is inserted at an index clamped to
      the list, so an empty queue with nothing current no longer throws. */
  function PlayNextCorrected(v: Queue, track: Track, hasPlayer: bool, playerIndex: int): Queue
    requires (hasPlayer && v.state.currentTrack != Some(track) && v.state.playlist.Some?
              && track !in v.state.playlist.value.trackList) ==> 0 <= playerIndex
  {
    if v.state.currentTrack == Some(track) then v
    else if v.state.playlist.None? then TrackClick(v, track, AdHoc(track), hasPlayer)
    else
      var l := v.state.playlist.value.trackList;
      if track in l then Reorder(v, IndexOf(l, track), PlayNextIntendedMoveTarget(l, v.state.currentTrack, track), hasPlayer)
      else if !hasPlayer then v
      else
        Queue(WithTrackList(v.state, InsertAt(l, PlayNextIntendedInsertIndex(l, v.state.currentTrack), track)),
              EngineInsert(v.engine, playerIndex + 1, track))
  }

  /** With the correction, play-next of a queued track while another queued
      track is current moves it to directly after the current one; nothing
      else joins or leaves the queue. */
  lemma PlayNextCorrectedMovesAfterCurrent(v: Queue, track: Track, playerIndex: int)
    requires v.state.playlist.Some? && v.state.currentTrack.Some? && v.state.currentTrack.value != track
    requires v.state.currentTrack.value in v.state.playlist.value.trackList
    requires track in v.state.playlist.value.trackList
    ensures var l, r := v.state.playlist.value.trackList, PlayNextCorrected(v, track, true, playerIndex).state;
      var q, ct := r.playlist.value.trackList, v.state.currentTrack.value;
      r.playlist.Some? && r.currentTrack == Some(ct) && multiset(q) == multiset(l)
      && var k := PlayNextIntendedTarget(IndexOf(l, track), IndexOf(l, ct));
         0 < k < |q| && q[k - 1] == ct && q[k] == track
  {
    var l, ct := v.state.playlist.value.trackList, v.state.currentTrack.value;
    var i, t := IndexOf(l, track), PlayNextIntendedMoveTarget(l, v.state.currentTrack, track);
    PlayNextIntendedMoveFollowsCurrent(l, ct, track);
    ReorderSpec(v, i, t, true);
  }

  /** With the correction, play-next of a track not yet queued while a queued
      track is current inserts it directly after the current one. */
  lemma PlayNextCorrectedInsertsAfterCurrent(v: Queue, track: Track, playerIndex: int)
    requires v.state.playlist.Some? && v.state.currentTrack.Some?
    requires v.state.currentTrack.value in v.state.playlist.value.trackList
    requires track !in v.state.playlist.value.trackList && 0 <= playerIndex
    ensures var l, r := v.state.playlist.value.trackList, PlayNextCorrected(v, track, true, playerIndex).state;
      var q, c := r.playlist.value.trackList, IndexOf(l, v.state.currentTrack.value);
      r.playlist.Some? && r.currentTrack == v.state.currentTrack && multiset(q) == multiset(l) + multiset{track}
      && c + 1 < |q| && q[c] == v.state.currentTrack.value && q[c + 1] == track
  {
    var l := v.state.playlist.value.trackList;
    var c := IndexOf(l, v.state.currentTrack.value);
    assert PlayNextIntendedInsertIndex(l, v.state.currentTrack) == c + 1;
    var q := InsertAt(l, c + 1, track);
    assert PlayNextCorrected(v, track, true, playerIndex).state == WithTrackList(v.state, q);
    InsertAtMultiset(l, c + 1, track);
  }

  /** With no current track and an empty queue the corrected play-next inserts
      the track as the only entry, where the as-written one throws. */
  lemma PlayNextCorrectedOnEmptyQueue(v: Queue, track: Track, playerIndex: int)
    requires v.state.playlist.Some? && v.state.playlist.value.trackList == []
    requires v.state.currentTrack.None? && 0 <= playerIndex
    ensures !PlayNextDefined(v.state, track, true, playerIndex)
    ensures PlayNextCorrected(v, track, true, playerIndex).state.playlist.value.trackList == [track]
  {
  }
}
