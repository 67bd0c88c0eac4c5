/** The index arithmetic of the queue handlers, and how the playback engine
    (Media3) applies the same edits to its own copy of the queue. */
module QueueRules {
  import opened Domain
  import opened ListOps

  function Min(a: int, b: int): int { if a <= b then a else b }

  /** `removeMediaItem(i)`: an index past the end removes nothing. */
  function EngineRemove(q: seq<Track>, i: int): seq<Track>
    requires 0 <= i
  {
    if i < |q| then RemoveAt(q, i) else q
  }

  /** `moveMediaItem(from, to)`: nothing moves when `from` is past the end; a
      `to` past the end means the last position. */
  function EngineMove(q: seq<Track>, from: int, to: int): seq<Track>
    requires 0 <= from && 0 <= to
  {
    if from < |q| then Move(q, from, Min(to, |q| - 1)) else q
  }

  /** `addMediaItem(i, item)`: an index past the end appends. */
  function EngineInsert(q: seq<Track>, i: int, t: Track): seq<Track>
    requires 0 <= i
  {
    InsertAt(q, Min(i, |q|), t)
  }

  /** With indices inside the queue the engine and the mirrored list make the
      same edit, so a queue and a list that agree keep agreeing. */
  lemma EngineAgreesInRange(q: seq<Track>, i: int, from: int, to: int, t: Track)
    requires 0 <= i < |q| && 0 <= from < |q| && 0 <= to < |q|
    ensures EngineRemove(q, i) == RemoveAt(q, i)
    ensures EngineMove(q, from, to) == Move(q, from, to)
    ensures EngineInsert(q, |q|, t) == q + [t]
  {
  }

  /** `currentTrack?.let { indexOf(it) } ?: 0`: -1 when the current track is
      not in the list, 0 when there is no current track. */
  function CurrentIndexOrZero(l: seq<Track>, current: Option<Track>): (c: int)
    ensures -1 <= c < |l| || (c == 0 && |l| == 0)
    ensures c == -1 <==> current.Some? && current.value !in l
    ensures current.None? ==> c == 0
    ensures current.Some? && 0 <= c ==> l[c] == current.value && current.value !in l[..c]
  {
    if current.Some? then IndexOf(l, current.value) else 0
  }

  /** Where play-next moves a track that is already queued, as written:
      `currentTrackIndex.coerceAtMost(lastIndex)`. */
  function PlayNextMoveTarget(l: seq<Track>, current: Option<Track>): int
    requires |l| > 0
  {
    Min(CurrentIndexOrZero(l, current), |l| - 1)
  }

  /** As written, a queued track whose play-next comes while the current
      track is not queued gets the move target -1, where `add(-1, ..)` throws. */
  lemma PlayNextMoveTargetUnqueuedCurrent(l: seq<Track>, current: Track, track: Track)
    requires track in l && current !in l
    ensures PlayNextMoveTarget(l, Some(current)) == -1
  {
    assert CurrentIndexOrZero(l, Some(current)) == -1;
  }

  /** Where play-next inserts a track that is not queued, as written: `currentTrackIndex + 1`. */
  function PlayNextInsertIndex(l: seq<Track>, current: Option<Track>): int
  {
    CurrentIndexOrZero(l, current) + 1
  }

  /** The inputs on which play-next does not throw: the move target must not be
      -1 and the insertion index must lie inside the list. */
  predicate PlayNextDefined(s: PlaybackState, track: Track, hasPlayer: bool, playerIndex: int)
  {
    s.currentTrack == Some(track) || s.playlist.None? || !hasPlayer ||
    (var l := s.playlist.value.trackList;
     if track in l then s.currentTrack.Some? ==> s.currentTrack.value in l
     else 0 <= playerIndex && PlayNextInsertIndex(l, s.currentTrack) <= |l|)
  }

  /** Play-next of a queued track reorders without duplicating: same length,
      same tracks, and the track sits at the target. */
  lemma PlayNextMoveKeepsQueue(l: seq<Track>, current: Option<Track>, track: Track)
    requires track in l && (current.Some? ==> current.value in l)
    ensures 0 <= PlayNextMoveTarget(l, current) < |l|
    ensures |Move(l, IndexOf(l, track), PlayNextMoveTarget(l, current))| == |l|
    ensures multiset(Move(l, IndexOf(l, track), PlayNextMoveTarget(l, current))) == multiset(l)
    ensures Move(l, IndexOf(l, track), PlayNextMoveTarget(l, current))[PlayNextMoveTarget(l, current)] == track
  {
    MoveIsPermutation(l, IndexOf(l, track), PlayNextMoveTarget(l, current));
  }

  /** In a list without duplicates the index of the entry at `k` is `k`. */
  lemma DistinctIndexOf(l: seq<Track>, k: int)
    requires Distinct(l) && 0 <= k < |l|
    ensures IndexOf(l, l[k]) == k
  {
    var j := IndexOf(l, l[k]);
    assert l[k] in l;
    assert l[j] == l[k];
  }

  /** Finding, as written: a queued track that sits after the current one is
      moved to the current index, so it lands just BEFORE the current track
      and is not played next. */
  lemma PlayNextLandsBeforeCurrent(l: seq<Track>, c: int, i: int)
    requires Distinct(l) && 0 <= c < i < |l|
    ensures IndexOf(l, l[c]) == c && IndexOf(l, l[i]) == i
    ensures PlayNextMoveTarget(l, Some(l[c])) == c
    ensures Move(l, i, c)[c] == l[i] && Move(l, i, c)[c + 1] == l[c]
  {
    DistinctIndexOf(l, c);
    DistinctIndexOf(l, i);
  }

  /** Finding, concrete: queue [a, b, c] playing a, play-next c gives [c, a, b]. */
  lemma PlayNextCounterexample(a: Track, b: Track, c: Track)
    requires a != b && b != c && a != c
    ensures PlayNextMoveTarget([a, b, c], Some(a)) == 0
    ensures Move([a, b, c], IndexOf([a, b, c], c), PlayNextMoveTarget([a, b, c], Some(a))) == [c, a, b]
  {
    assert IndexOf([a, b, c], a) == 0;
    assert IndexOf([a, b, c], c) == 2;
  }

  /** Corrected target: the current index when the track comes from before the
      current one (its removal shifts the current track down), one past it otherwise. */
  function PlayNextIntendedTarget(i: int, c: int): int
  {
    if i < c then c else c + 1
  }

  /** With the corrected target the moved track always ends up directly after
      the current track; the as-written target agrees when the track came from
      before the current one. */
  lemma PlayNextIntendedFollowsCurrent(l: seq<Track>, i: int, c: int)
    requires 0 <= i < |l| && 0 <= c < |l| && i != c
    ensures 0 < PlayNextIntendedTarget(i, c) < |l|
    ensures Move(l, i, PlayNextIntendedTarget(i, c))[PlayNextIntendedTarget(i, c)] == l[i]
    ensures Move(l, i, PlayNextIntendedTarget(i, c))[PlayNextIntendedTarget(i, c) - 1] == l[c]
    ensures i < c ==> PlayNextIntendedTarget(i, c) == Min(c, |l| - 1)
  {
    var t := PlayNextIntendedTarget(i, c);
    var r := RemoveAt(l, i);
    if i < c {
      assert r[c - 1] == l[c];
    } else {
      assert r[c] == l[c];
    }
  }

  /** The corrected move target in a queue: always inside the queue, even
      when the current track is not queued. */
  function PlayNextIntendedMoveTarget(l: seq<Track>, current: Option<Track>, track: Track): (t: int)
    requires track in l
    ensures 0 <= t < |l|
  {
    Min(PlayNextIntendedTarget(IndexOf(l, track), CurrentIndexOrZero(l, current)), |l| - 1)
  }

  /** With a queued current track, the corrected move target puts the moved
      track directly after it. */
  lemma PlayNextIntendedMoveFollowsCurrent(l: seq<Track>, ct: Track, track: Track)
    requires ct in l && track in l && ct != track
    ensures var i, t := IndexOf(l, track), PlayNextIntendedMoveTarget(l, Some(ct), track);
      t == PlayNextIntendedTarget(i, IndexOf(l, ct)) && 0 < t
      && Move(l, i, t)[t - 1] == ct && Move(l, i, t)[t] == track
  {
    PlayNextIntendedFollowsCurrent(l, IndexOf(l, track), IndexOf(l, ct));
  }

  /** Finding, as written: the insertion index is outside the list exactly
      when nothing is current and the queue is empty, where `add(1, track)`
      throws. */
  lemma PlayNextInsertIndexRange(l: seq<Track>, current: Option<Track>)
    ensures 0 <= PlayNextInsertIndex(l, current)
    ensures PlayNextInsertIndex(l, current) <= |l| <==> !(current.None? && l == [])
    ensures current.None? && l == [] ==> PlayNextInsertIndex(l, current) == 1
  {
  }

  /** Corrected insertion index: clamped to the end of the list. It is always
      valid and agrees with the as-written index wherever that one is valid. */
  function PlayNextIntendedInsertIndex(l: seq<Track>, current: Option<Track>): (i: int)
    ensures 0 <= i <= |l|
    ensures PlayNextInsertIndex(l, current) <= |l| ==> i == PlayNextInsertIndex(l, current)
  {
    Min(PlayNextInsertIndex(l, current), |l|)
  }

  /** The engine inserts at `playerIndex + 1` while the list inserts at the
      current track's index + 1: for a track not yet queued, the two copies
      still agree afterwards exactly when those positions coincide. */
  lemma InsertAlignment(l: seq<Track>, playerIndex: int, listIndex: int, track: Track)
    requires track !in l && 0 <= playerIndex && 0 <= listIndex <= |l|
    ensures EngineInsert(l, playerIndex, track) == InsertAt(l, listIndex, track)
        <==> Min(playerIndex, |l|) == listIndex
  {
    InsertAtSameIff(l, Min(playerIndex, |l|), listIndex, track);
  }

  /** `fastFirstOrNull { it.mediaItem == item }` */
  function FirstWithMediaItem(l: seq<Track>, item: MediaItem): (r: Option<Track>)
    ensures r.None? <==> forall t :: t in l ==> t.mediaItem != item
    ensures r.Some? ==> r.value in l && r.value.mediaItem == item
    ensures r.Some? ==> forall q :: 0 <= q < IndexOf(l, r.value) ==> l[q].mediaItem != item
  {
    if |l| == 0 then None
    else if l[0].mediaItem == item then Some(l[0])
    else
      var r := FirstWithMediaItem(l[1..], item);
      assert r.Some? ==> IndexOf(l, r.value) == IndexOf(l[1..], r.value) + 1;
      assert forall q :: 1 <= q < |l| ==> l[q] == l[1..][q - 1];
      r
  }

  /** `fastFirstOrNull { it.uri == uri }` */
  function FirstWithUri(l: seq<Track>, uri: string): (r: Option<Track>)
    ensures r.None? <==> forall t :: t in l ==> t.uri != uri
    ensures r.Some? ==> r.value in l && r.value.uri == uri
    ensures r.Some? ==> forall q :: 0 <= q < IndexOf(l, r.value) ==> l[q].uri != uri
  {
    if |l| == 0 then None
    else if l[0].uri == uri then Some(l[0])
    else
      var r := FirstWithUri(l[1..], uri);
      assert r.Some? ==> IndexOf(l, r.value) == IndexOf(l[1..], r.value) + 1;
      assert forall q :: 1 <= q < |l| ==> l[q] == l[1..][q - 1];
      r
  }

  predicate DistinctMediaItems(l: seq<Track>)
  {
    forall i, j :: 0 <= i < j < |l| ==> l[i].mediaItem != l[j].mediaItem
  }

  /** When no two queued tracks share a media item, the transition handler
      resolves the item the engine reports at position `k` to exactly the
      track at position `k` of the mirrored list. */
  lemma {:induction false} TransitionFindsQueuedTrack(l: seq<Track>, k: int)
    requires DistinctMediaItems(l) && 0 <= k < |l|
    ensures FirstWithMediaItem(l, l[k].mediaItem) == Some(l[k])
    decreases |l|
  {
    if k > 0 {
      assert l[0].mediaItem != l[k].mediaItem;
      assert l[1..][k - 1] == l[k];
      assert DistinctMediaItems(l[1..]) by {
        forall i, j | 0 <= i < j < |l[1..]| ensures l[1..][i].mediaItem != l[1..][j].mediaItem {
          assert l[1..][i] == l[i + 1] && l[1..][j] == l[j + 1];
        }
      }
      TransitionFindsQueuedTrack(l[1..], k - 1);
    }
  }
}
