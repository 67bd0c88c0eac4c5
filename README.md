# Player view model: queue and playback state

This project models the core of a music player's view model: the playback state and the queue handlers of `PlayerViewModel.onEvent`, the engine listener, the catalog sync loop, the derived album, artist, genre and folder playlists, the cache-first lyrics loading and the duplicate guards on user playlists.

The view model keeps one playback-state value and replaces it with an edited copy on every event. It is modelled as the class `Player.PlayerViewModel`. Its fields are the playback state (a datatype), the catalog, the track-info sheet's track, the lyrics store and whether a player is attached. Its methods are the handlers, and each one states the whole new state.

The playback engine is foreign code. Its queue and its repeat/shuffle settings are ghost fields. What a handler reads from the engine comes in as a parameter: its current index, whether it has a previous or next item, and whether it holds an item. The engine's index handling is modelled as follows:
- an insert past the end appends;
- a removal past the end removes nothing;
- a move target past the end means the last position.

Each queue handler's effect on the state and on the engine's queue is a function in `QueueEffects`, and the matching method is proved to have exactly that effect. The lemmas beside those functions state what the effects mean:
- the queue is only reordered, or gains or loses exactly one entry;
- the engine's queue stays entry for entry equal to the mirrored playlist, and `Aligned` in the class is this invariant;
- the added track ends up where the handler puts it.

Modules:
- `Domain`: tracks, playlists, playback modes, lyrics and the playback state.
- `ListOps`: the mutable-list operations the handlers use (`indexOf`, `removeAt`, `add(i, x)`, the reorder step `add(to, removeAt(from))`, `remove(x)`).
- `PlaybackModes`: `nextAfterOrNull` with Kotlin's truncating `%`, the mode cycle, and the mode-to-engine-settings mapping.
- `Grouping`: `groupBy` in first-occurrence key order, the four derived playlist lists, and the folder key and folder name string split.
- `Catalog`: the sync loop's change test.
- `LyricsLoading`: the cache-first decision of `loadLyrics`.
- `UserPlaylists`: the create, rename, add, remove and reorder guards.
- `QueueRules`: the engine's index handling, the play-next index arithmetic and the two findings below.
- `QueueEffects`: the effect of each queue handler, with lemmas.
- `Player`: the view model class.

The two branches of the play-next handler place the track differently. A track that is not queued is inserted at the current index plus one (PlayerViewModel.kt:539), so it plays right after the current track, as "play next" says. A track that is already queued is moved to the current index itself, capped at the last index (PlayerViewModel.kt:524), so it lands before the current track. The class does what the code does. The move branch is taken to mean what the insert branch does, and that corrected placement is modelled separately (see "## Findings").

Two behaviours are modelled as written without being counted as findings:
- When the lyrics are missing from the cache and the track has no title or no artist, `loadLyrics` returns with `isLoadingLyrics` still true. `LyricsLoading.AfterLyricsStep` keeps that.
- The doc comment of `nextAfterOrNull` promises `null` for a negative index. Index -1 yields the first element (`PlaybackModes.NextAfterFromMinusOne`). Only an index below -1 yields `null` (`PlaybackModes.NextAfterBelowMinusOne`). The mode button only ever passes an ordinal, so this is never reached from the handlers.

## Model

| member | source | states |
|---|---|---|
| ListOps.IndexOf | app/src/main/java/com/dn0ne/player/app/presentation/PlayerViewModel.kt:515 | -1 exactly when the element is absent; otherwise an index holding it with no earlier copy |
| ListOps.RemoveAt | app/src/main/java/com/dn0ne/player/app/presentation/PlayerViewModel.kt:464-472 | one entry shorter; entries before the index stay, later ones shift left by one |
| ListOps.InsertAt | app/src/main/java/com/dn0ne/player/app/presentation/PlayerViewModel.kt:536-541 | one entry longer with the new entry at the index; earlier entries stay, later ones shift right |
| ListOps.RemoveAtMultiset | app/src/main/java/com/dn0ne/player/app/presentation/PlayerViewModel.kt:464-472 | removal takes away exactly one copy of the removed entry |
| ListOps.InsertAtMultiset | app/src/main/java/com/dn0ne/player/app/presentation/PlayerViewModel.kt:536-541 | insertion adds exactly one copy of the new entry |
| ListOps.RemoveInsertInverse | app/src/main/java/com/dn0ne/player/app/presentation/PlayerViewModel.kt:497-501 | removing at an index what was just inserted there gives the list back |
| ListOps.InsertRemoveInverse | app/src/main/java/com/dn0ne/player/app/presentation/PlayerViewModel.kt:497-501 | putting a removed entry back at its index gives the list back |
| ListOps.MoveIsPermutation | app/src/main/java/com/dn0ne/player/app/presentation/PlayerViewModel.kt:497-501 | a reorder keeps the length and the tracks and puts the dragged entry at the target |
| ListOps.MoveKeepsOthersInOrder | app/src/main/java/com/dn0ne/player/app/presentation/PlayerViewModel.kt:497-501 | apart from the dragged entry, a reorder keeps every entry in its relative order |
| ListOps.MoveUndo | app/src/main/java/com/dn0ne/player/app/presentation/PlayerViewModel.kt:491-509 | dragging the entry back to where it came from undoes a reorder |
| ListOps.InsertAtSameIff | app/src/main/java/com/dn0ne/player/app/presentation/PlayerViewModel.kt:529-541 | inserting an absent entry at two positions gives the same list exactly when the positions are equal |
| ListOps.RemoveFirstSpec | app/src/main/java/com/dn0ne/player/app/presentation/PlayerViewModel.kt:975-980 | `remove(x)` drops the first copy of x when there is one and keeps the rest in order; otherwise nothing changes |
| ListOps.RemoveFirstMultiset | app/src/main/java/com/dn0ne/player/app/presentation/PlayerViewModel.kt:975-980 | `remove(x)` takes away exactly one copy of x when there is one |
| ListOps.RemoveFirstDistinct | app/src/main/java/com/dn0ne/player/app/presentation/PlayerViewModel.kt:975-980 | in a list without duplicates, `remove(x)` leaves no copy of x and no duplicates |
| PlaybackModes.Ordinal | app/src/main/java/com/dn0ne/player/app/presentation/PlayerViewModel.kt:422-425 | a mode's ordinal is its position in the list of modes |
| PlaybackModes.KotlinRem | app/src/main/java/com/dn0ne/player/app/presentation/PlayerViewModel.kt:1200-1202 | the truncating remainder lies strictly between -b and b, equals Euclid's for a non-negative dividend and is not positive for a negative one |
| PlaybackModes.NextAfterFromMinusOne | app/src/main/java/com/dn0ne/player/app/presentation/PlayerViewModel.kt:1196-1202 | from index -1 or more the next element wraps around to the first; index -1 yields the first element despite the doc comment |
| PlaybackModes.NextAfterBelowMinusOne | app/src/main/java/com/dn0ne/player/app/presentation/PlayerViewModel.kt:1196-1202 | an index between -size-1 and -1 (exclusive) yields null |
| PlaybackModes.NextMode | app/src/main/java/com/dn0ne/player/app/presentation/PlayerViewModel.kt:422-426 | the mode button always finds a next mode, and it differs from the current one |
| PlaybackModes.CycleHasOrderThree | app/src/main/java/com/dn0ne/player/app/presentation/PlayerViewModel.kt:422-435 | three presses of the mode button return to the starting mode, and one or two do not |
| PlaybackModes.ConfigFor | app/src/main/java/com/dn0ne/player/app/presentation/PlayerViewModel.kt:1074-1091 | repeat is never off; shuffle is on exactly for Shuffle; repeat-one exactly for RepeatOne |
| PlaybackModes.ConfigForIsInvertible | app/src/main/java/com/dn0ne/player/app/presentation/PlayerViewModel.kt:1074-1091 | different modes give the engine different settings, so the mode can be read back from them |
| Grouping.Keys | app/src/main/java/com/dn0ne/player/app/presentation/PlayerViewModel.kt:112-113 | the group keys are exactly the keys occurring in the catalog, each once |
| Grouping.Group | app/src/main/java/com/dn0ne/player/app/presentation/PlayerViewModel.kt:112-113 | a group holds only tracks with its key, and is empty exactly when no track has that key |
| Grouping.FirstIndexOfKey | app/src/main/java/com/dn0ne/player/app/presentation/PlayerViewModel.kt:112-113 | the first catalog index whose track has the key, or -1 when none has |
| Grouping.GroupByIsPermutation | app/src/main/java/com/dn0ne/player/app/presentation/PlayerViewModel.kt:112-118 | concatenating the groups gives back exactly the catalog's tracks |
| Grouping.GroupByIsHomogeneous | app/src/main/java/com/dn0ne/player/app/presentation/PlayerViewModel.kt:112-118 | no group is empty, every track in a group has the group's key, and no key heads two groups |
| Grouping.GroupByFirstOccurrenceOrder | app/src/main/java/com/dn0ne/player/app/presentation/PlayerViewModel.kt:112-118 | groups come in the order in which their keys first occur in the catalog |
| Grouping.LastIndexOf | app/src/main/java/com/dn0ne/player/app/presentation/PlayerViewModel.kt:149-151 | the last index holding the character, or -1 when there is none |
| Grouping.SplitAtLast | app/src/main/java/com/dn0ne/player/app/presentation/PlayerViewModel.kt:149-151 | the part before the last '/', the '/', and the part after it rebuild the path; with no '/' both parts are the whole path |
| Grouping.FolderName | app/src/main/java/com/dn0ne/player/app/presentation/PlayerViewModel.kt:151 | a folder name has no '/' and is the part of the folder key after one of its '/' (or the whole key) |
| Grouping.AllTracksToPlaylists | app/src/main/java/com/dn0ne/player/app/presentation/PlayerViewModel.kt:113-118 | turning groups into playlists neither loses nor adds a track |
| Grouping.DerivedPlaylistsArePermutations | app/src/main/java/com/dn0ne/player/app/presentation/PlayerViewModel.kt:112-159 | the album, artist, genre and folder playlists each hold every catalog track exactly once |
| Grouping.DerivedPlaylistsAreHomogeneous | app/src/main/java/com/dn0ne/player/app/presentation/PlayerViewModel.kt:112-159 | every track of a derived playlist has that playlist's album, artist, genre or folder |
| Catalog.ChangeTestBasics | app/src/main/java/com/dn0ne/player/app/presentation/PlayerViewModel.kt:217 | an identical catalog is no change; a new track or a different size is a change |
| Catalog.UnchangedMeansSameTracks | app/src/main/java/com/dn0ne/player/app/presentation/PlayerViewModel.kt:217 | for catalogs without duplicates, passing the change test means exactly the same tracks |
| Catalog.DuplicatesCanHideAChange | app/src/main/java/com/dn0ne/player/app/presentation/PlayerViewModel.kt:217 | with duplicates, two catalogs holding different tracks can pass the change test |
| LyricsLoading.FetchExactlyOnTaggedMiss | app/src/main/java/com/dn0ne/player/app/presentation/PlayerViewModel.kt:1093-1119 | the provider is asked, for the current track, exactly when it is not already shown, misses the cache and has both a title and an artist |
| LyricsLoading.CacheHitNeverFetches | app/src/main/java/com/dn0ne/player/app/presentation/PlayerViewModel.kt:1104-1106 | a cache hit publishes the stored lyrics and does not ask the provider |
| LyricsLoading.WriteThroughThenHit | app/src/main/java/com/dn0ne/player/app/presentation/PlayerViewModel.kt:1122-1132 | lyrics written through to the store are a cache hit the next time they are needed |
| LyricsLoading.WriteThroughKeepsKeys | app/src/main/java/com/dn0ne/player/app/presentation/PlayerViewModel.kt:1125 | storing fetched lyrics under their URI keeps every entry under its own URI |
| LyricsLoading.LoadShowsCurrentOrLoads | app/src/main/java/com/dn0ne/player/app/presentation/PlayerViewModel.kt:1093-1192 | after a decision with a track current, the sheet shows that track's lyrics, or none while loading |
| UserPlaylists.CreatePlaylist | app/src/main/java/com/dn0ne/player/app/presentation/PlayerViewModel.kt:918-928 | creation succeeds exactly when no playlist has the name, and yields an empty playlist with it |
| UserPlaylists.RenamePlaylist | app/src/main/java/com/dn0ne/player/app/presentation/PlayerViewModel.kt:930-944 | a rename succeeds exactly when the new name is unused; it renames the target and nothing else |
| UserPlaylists.CreateKeepsNamesUnique | app/src/main/java/com/dn0ne/player/app/presentation/PlayerViewModel.kt:918-928 | creating a playlist keeps playlist names unique |
| UserPlaylists.RenameKeepsNamesUnique | app/src/main/java/com/dn0ne/player/app/presentation/PlayerViewModel.kt:930-944 | renaming a playlist keeps playlist names unique |
| UserPlaylists.AddToPlaylist | app/src/main/java/com/dn0ne/player/app/presentation/PlayerViewModel.kt:956-973 | adding is refused exactly when the track is already there; otherwise the track is appended |
| UserPlaylists.AddKeepsTracksDistinct | app/src/main/java/com/dn0ne/player/app/presentation/PlayerViewModel.kt:956-973 | adding keeps a playlist free of duplicates and puts the track on it |
| UserPlaylists.RemoveFromPlaylist | app/src/main/java/com/dn0ne/player/app/presentation/PlayerViewModel.kt:975-992 | removal drops one copy of the track; from a playlist without duplicates it drops the track entirely |
| UserPlaylists.ReorderPlaylist | app/src/main/java/com/dn0ne/player/app/presentation/PlayerViewModel.kt:994-1009 | the new order is saved exactly when it differs from the current one |
| QueueRules.EngineAgreesInRange | app/src/main/java/com/dn0ne/player/app/presentation/PlayerViewModel.kt:464-501 | with indices inside the queue, the engine's remove, move and append match the list operations |
| QueueRules.CurrentIndexOrZero | app/src/main/java/com/dn0ne/player/app/presentation/PlayerViewModel.kt:516-518 | 0 when nothing is current; -1 exactly when the current track is not queued; otherwise the index of the current track's first occurrence |
| QueueRules.PlayNextMoveKeepsQueue | app/src/main/java/com/dn0ne/player/app/presentation/PlayerViewModel.kt:520-527 | play-next of a queued track reorders without duplicating: same length, same tracks, the track at the target |
| QueueRules.PlayNextLandsBeforeCurrent | app/src/main/java/com/dn0ne/player/app/presentation/PlayerViewModel.kt:520-527 | as written, a queued track after the current one is moved to the current index, just before the current track |
| QueueRules.PlayNextMoveTargetUnqueuedCurrent | app/src/main/java/com/dn0ne/player/app/presentation/PlayerViewModel.kt:516-527 | a queued track while the current track is not queued gets move target -1 |
| QueueRules.PlayNextCounterexample | app/src/main/java/com/dn0ne/player/app/presentation/PlayerViewModel.kt:520-527 | queue [a, b, c] playing a: play-next of c gives [c, a, b], so b, not c, plays next |
| QueueRules.PlayNextIntendedFollowsCurrent | app/src/main/java/com/dn0ne/player/app/presentation/PlayerViewModel.kt:520-527 | with the corrected target the moved track lands directly after the current one |
| QueueRules.PlayNextIntendedMoveTarget | app/src/main/java/com/dn0ne/player/app/presentation/PlayerViewModel.kt:520-527 | the corrected move target always lies inside the queue, even when the current track is not queued |
| QueueRules.PlayNextIntendedMoveFollowsCurrent | app/src/main/java/com/dn0ne/player/app/presentation/PlayerViewModel.kt:520-527 | with a queued current track the corrected target puts the moved track directly after it |
| QueueRules.PlayNextInsertIndexRange | app/src/main/java/com/dn0ne/player/app/presentation/PlayerViewModel.kt:536-541 | the as-written insert index is out of range exactly when nothing is current and the queue is empty |
| QueueRules.PlayNextIntendedInsertIndex | app/src/main/java/com/dn0ne/player/app/presentation/PlayerViewModel.kt:536-541 | the corrected insert index is always in range and equals the as-written one wherever that is in range |
| QueueRules.InsertAlignment | app/src/main/java/com/dn0ne/player/app/presentation/PlayerViewModel.kt:529-541 | engine insert and list insert give the same queue exactly when their clamped indices agree |
| QueueRules.FirstWithMediaItem | app/src/main/java/com/dn0ne/player/app/presentation/PlayerViewModel.kt:292-297 | finds the first queued track carrying the item (no earlier entry carries it), and none exactly when no queued track does |
| QueueRules.FirstWithUri | app/src/main/java/com/dn0ne/player/app/presentation/PlayerViewModel.kt:222-227 | finds the first catalog track with the URI (no earlier entry has it), and none exactly when no track has it |
| QueueRules.TransitionFindsQueuedTrack | app/src/main/java/com/dn0ne/player/app/presentation/PlayerViewModel.kt:292-297 | when media items are distinct, the item at queue position k resolves to the track at position k |
| QueueEffects.TrackClickSyncs | app/src/main/java/com/dn0ne/player/app/presentation/PlayerViewModel.kt:343-369 | a track click keeps the engine in step, and a click that reloads it brings it back in step |
| QueueEffects.RemoveFromQueueSpec | app/src/main/java/com/dn0ne/player/app/presentation/PlayerViewModel.kt:458-489 | exactly the entry at the index leaves and the rest keep their order; the engine stays in step; an emptied queue collapses both sheets |
| QueueEffects.ReorderSpec | app/src/main/java/com/dn0ne/player/app/presentation/PlayerViewModel.kt:491-509 | a reorder is a permutation with the dragged entry at the target, and the engine stays in step |
| QueueEffects.PlayNextSpec | app/src/main/java/com/dn0ne/player/app/presentation/PlayerViewModel.kt:511-562 | play-next queues the track at the target or insert index; a queued track is only moved, a new one added once; a queued track or no queue keeps the engine in step |
| QueueEffects.PlayNextInsertSyncIff | app/src/main/java/com/dn0ne/player/app/presentation/PlayerViewModel.kt:529-541 | for a new track, engine and list stay in step exactly when the engine's index + 1 (clamped) equals the current track's index + 1 |
| QueueEffects.AddToQueueKeepsSync | app/src/main/java/com/dn0ne/player/app/presentation/PlayerViewModel.kt:564-609 | add-to-queue keeps the engine in step |
| QueueEffects.AddToQueuePutsTrackLast | app/src/main/java/com/dn0ne/player/app/presentation/PlayerViewModel.kt:564-609 | add-to-queue leaves the track last on the queue, moved if it was queued and appended once otherwise |
| QueueEffects.PlayNextCorrectedMovesAfterCurrent | app/src/main/java/com/dn0ne/player/app/presentation/PlayerViewModel.kt:520-527 | corrected play-next moves a queued track directly after the current one without changing the tracks |
| QueueEffects.PlayNextCorrectedInsertsAfterCurrent | app/src/main/java/com/dn0ne/player/app/presentation/PlayerViewModel.kt:529-541 | corrected play-next inserts a new track directly after the current one, adding it once |
| QueueEffects.PlayNextCorrectedOnEmptyQueue | app/src/main/java/com/dn0ne/player/app/presentation/PlayerViewModel.kt:536-541 | on an empty queue with nothing current, the as-written play-next is undefined and the corrected one queues just the track |
| Player.PlayerViewModel.constructor | app/src/main/java/com/dn0ne/player/app/presentation/PlayerViewModel.kt:265-271 | the saved mode is shown and applied to the engine; the engine is in step |
| Player.PlayerViewModel.OnTrackClick | app/src/main/java/com/dn0ne/player/app/presentation/PlayerViewModel.kt:343-369 | the state and engine take the track-click effect; the seek index is the track's first index; the engine stays or comes back in step |
| Player.PlayerViewModel.OnSeekToPreviousClick | app/src/main/java/com/dn0ne/player/app/presentation/PlayerViewModel.kt:394-407 | with no previous item the engine restarts and the position drops to 0; otherwise the state is unchanged |
| Player.PlayerViewModel.OnSeekTo | app/src/main/java/com/dn0ne/player/app/presentation/PlayerViewModel.kt:409-420 | the position changes only when a player holds an item |
| Player.PlayerViewModel.OnPlaybackModeClick | app/src/main/java/com/dn0ne/player/app/presentation/PlayerViewModel.kt:422-435 | the mode advances one step along the cycle and the engine plays under that mode's settings |
| Player.PlayerViewModel.OnPlayerExpandedChange | app/src/main/java/com/dn0ne/player/app/presentation/PlayerViewModel.kt:437-444 | the player's expansion follows the event and the lyrics sheet closes |
| Player.PlayerViewModel.OnLyricsSheetExpandedChange | app/src/main/java/com/dn0ne/player/app/presentation/PlayerViewModel.kt:446-452 | the lyrics sheet's expansion follows the event |
| Player.PlayerViewModel.OnIsPlayingChanged | app/src/main/java/com/dn0ne/player/app/presentation/PlayerViewModel.kt:275-286 | the playing flag follows the engine |
| Player.PlayerViewModel.OnRemoveFromQueueClick | app/src/main/java/com/dn0ne/player/app/presentation/PlayerViewModel.kt:458-489 | the engine skips ahead exactly when the removed entry is its current item and it has a next one; the remove effect applies; the engine stays in step |
| Player.PlayerViewModel.OnReorderingQueue | app/src/main/java/com/dn0ne/player/app/presentation/PlayerViewModel.kt:491-509 | the reorder effect applies and the engine stays in step |
| Player.PlayerViewModel.OnPlayNextClick | app/src/main/java/com/dn0ne/player/app/presentation/PlayerViewModel.kt:511-562 | the play-next effect applies; a queued track or no queue keeps the engine in step |
| Player.PlayerViewModel.OnAddToQueueClick | app/src/main/java/com/dn0ne/player/app/presentation/PlayerViewModel.kt:564-609 | the add-to-queue effect applies and the engine stays in step |
| Player.PlayerViewModel.LoadLyrics | app/src/main/java/com/dn0ne/player/app/presentation/PlayerViewModel.kt:1093-1194 | the state takes the cache-first decision's step, and the provider is asked exactly on a fetch step |
| Player.PlayerViewModel.OnLyricsResult | app/src/main/java/com/dn0ne/player/app/presentation/PlayerViewModel.kt:1118-1140 | found lyrics are stored under their URI and shown; on an error only loading stops; the store stays keyed by URI |
| Player.PlayerViewModel.OnMediaItemTransition | app/src/main/java/com/dn0ne/player/app/presentation/PlayerViewModel.kt:292-303 | the current track becomes the queued track with the new item, the position drops to 0, and lyrics load when the sheet is open |
| Player.PlayerViewModel.OnViewTrackInfoClick | app/src/main/java/com/dn0ne/player/app/presentation/PlayerViewModel.kt:611-625 | the info sheet is shown and holds the clicked track |
| Player.PlayerViewModel.OnCloseTrackInfoSheetClick | app/src/main/java/com/dn0ne/player/app/presentation/PlayerViewModel.kt:627-633 | the info sheet is hidden and keeps the track it held |
| Player.PlayerViewModel.SyncTick | app/src/main/java/com/dn0ne/player/app/presentation/PlayerViewModel.kt:212-242 | the catalog is replaced exactly when the change test fires; if the info sheet then holds a track (open or closed, since closing keeps it), that track is looked up again by URI, the playback state is reset and the engine is emptied |

## Left out

- Coroutine timing is not modelled: the 5-second sync delay, the 500 ms player-wait loops, the 50 ms position ticker and `collectLatest`. The sync loop is one call of `SyncTick`.
- Pause, play and seek-to-next are not modelled. They only call the engine and do not touch the modelled state.
- Restoring the saved session playlist at start-up (lines 247-262 of PlayerViewModel.kt) is not modelled. It reads the engine's current item and a stored value.
- Snackbar messages, logging, the metadata workflow, the URI-open channel and `Uri.decode` are not modelled. They are I/O or message passing.
- Persistence writes of the session playlist, the playback mode and user playlists are not modelled. They are external stores.
- The track sort (`sortedBy`) is not part of this model. `SyncTick` takes the sorted catalog as a parameter, required to hold the same tracks as the fetched one.
- The lyrics provider is not modelled. `LoadLyrics` returns the track the provider would be asked about, and `OnLyricsResult` applies its answer. The snackbar text chosen per network error is not modelled.
- The answer is applied whatever track is current when it arrives, as in the code. Interleavings of answers are not modelled.
- Lyrics text is kept opaque, and tracks carry only the fields the core reads.
- The default `PlaybackState()` is taken to have mode Repeat and every flag false. The playback state class is not part of this model.
- The selected-playlist view that rename, remove and reorder update is not modelled. Those handlers are modelled by the list each one saves.
- Player.PlayerViewModel.SyncTick: the reset does not re-apply repeat/shuffle settings to the engine, as in the code. `ModeApplied` is therefore not claimed after a reset.
- Player.PlayerViewModel.OnPlayNextClick: engine alignment is promised only for a queued track or no queue. For a new track it holds exactly when the engine's index and the current track's index agree (`QueueEffects.PlayNextInsertSyncIff`).
- Player.PlayerViewModel.OnPlayNextClick: the method requires `QueueRules.PlayNextDefined`, which excludes the inputs on which the code throws. One is a new track on an empty queue with no current track, where `add(1, ..)` is called on an empty list (PlayerViewModel.kt:539). The other is a queued track while the current track is not queued, where the move target is `min(-1, lastIndex) = -1` and `add(-1, ..)` throws (PlayerViewModel.kt:516-527, `QueueRules.PlayNextMoveTargetUnqueuedCurrent`). For a new track the engine's current index is also required to be non-negative, as the engine always reports it. The crash is not modelled.
- Player.PlayerViewModel.OnViewTrackInfoClick: the cover-art editability flag and the reset of the picked cover-art bytes are not modelled. They belong to the metadata workflow.
- Player.PlayerViewModel.OnTrackClick: the engine's `prepare` and `play` are not modelled. Only the reload and the seek index are.

## Findings

| source | as written | input that shows it | evidently intended | confidence | as-written member | corrected member |
|---|---|---|---|---|---|---|
| app/src/main/java/com/dn0ne/player/app/presentation/PlayerViewModel.kt:524 | a queued track is moved to `min(currentIndex, lastIndex)` | queue [a, b, c] playing a, play-next c: the queue becomes [c, a, b], and b plays next | the track moves to just after the current track | not executed | QueueRules.PlayNextLandsBeforeCurrent | QueueEffects.PlayNextCorrectedMovesAfterCurrent |
| app/src/main/java/com/dn0ne/player/app/presentation/PlayerViewModel.kt:539 | a new track is inserted at `currentTrackIndex + 1`, with the index defaulting to 0 when nothing is current | with a player attached, a loaded playlist emptied by remove-from-queue and no current track: `add(1, track)` on an empty list throws | the index is clamped to the list, so the track becomes the only entry | not executed | QueueRules.PlayNextInsertIndexRange | QueueEffects.PlayNextCorrectedOnEmptyQueue |

The corrected behaviour is the function `QueueEffects.PlayNextCorrected`. It builds on `QueueRules.PlayNextIntendedMoveTarget` and `QueueRules.PlayNextIntendedInsertIndex`. The view model class keeps the behaviour as written: its `OnPlayNextClick` requires the inputs on which the as-written code does not throw (`QueueRules.PlayNextDefined`).
