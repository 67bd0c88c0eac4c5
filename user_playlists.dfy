/** The guards on user-playlist edits. The playlist store is external; each
    operation here computes the write it asks the store for (or none). The
    store's contents are a list of playlists; creation adds at the end. */
module UserPlaylists {
  import opened Domain
  import opened ListOps

  /** `playlists.map { it.name }` */
  function Names(ps: seq<Playlist>): (ns: seq<Option<string>>)
    ensures |ns| == |ps|
    ensures forall i :: 0 <= i < |ps| ==> ns[i] == ps[i].name
  {
    seq(|ps|, i requires 0 <= i < |ps| => ps[i].name)
  }

  predicate NamesUnique(ps: seq<Playlist>)
  {
    forall i, j :: 0 <= i < j < |ps| ==> ps[i].name != ps[j].name
  }

  /** Create: refused when some playlist already has the name; otherwise a new
      empty playlist with that name. */
  function CreatePlaylist(ps: seq<Playlist>, name: string): (r: Option<Playlist>)
    ensures r.Some? <==> forall i :: 0 <= i < |ps| ==> ps[i].name != Some(name)
    ensures r.Some? ==> r.value.name == Some(name) && r.value.trackList == []
  {
    if Some(name) in Names(ps) then None else Some(Playlist(Some(name), []))
  }

  /** Rename: refused when some playlist already has the new name (including
      the playlist itself); otherwise `target` is renamed in the store. */
  function RenamePlaylist(ps: seq<Playlist>, target: Playlist, name: string): (r: Option<seq<Playlist>>)
    ensures r.Some? <==> forall i :: 0 <= i < |ps| ==> ps[i].name != Some(name)
    ensures r.Some? ==> |r.value| == |ps|
    ensures r.Some? ==> forall i :: 0 <= i < |ps| ==>
      r.value[i] == if ps[i] == target then ps[i].(name := Some(name)) else ps[i]
  {
    if Some(name) in Names(ps) then None
    else Some(seq(|ps|, i requires 0 <= i < |ps| => if ps[i] == target then ps[i].(name := Some(name)) else ps[i]))
  }

  /** Creating keeps playlist names unique. */
  lemma CreateKeepsNamesUnique(ps: seq<Playlist>, name: string)
    requires NamesUnique(ps) && CreatePlaylist(ps, name).Some?
    ensures NamesUnique(ps + [CreatePlaylist(ps, name).value])
  {
  }

  /** Renaming keeps playlist names unique. */
  lemma RenameKeepsNamesUnique(ps: seq<Playlist>, target: Playlist, name: string)
    requires NamesUnique(ps) && RenamePlaylist(ps, target, name).Some?
    ensures NamesUnique(RenamePlaylist(ps, target, name).value)
  {
    var r := RenamePlaylist(ps, target, name).value;
    forall i, j | 0 <= i < j < |r| ensures r[i].name != r[j].name {
      assert !(ps[i] == target && ps[j] == target);
    }
  }

  /** Add to playlist: refused when the track is already on it; otherwise the
      new track list is the old one with the track appended. */
  function AddToPlaylist(p: Playlist, track: Track): (r: Option<seq<Track>>)
    ensures r.None? <==> track in p.trackList
    ensures r.Some? ==> |r.value| == |p.trackList| + 1 && r.value[..|p.trackList|] == p.trackList
    ensures r.Some? ==> r.value[|p.trackList|] == track
  {
    if track in p.trackList then None else Some(p.trackList + [track])
  }

  /** A playlist edited only through add-to-playlist never holds a track twice. */
  lemma AddKeepsTracksDistinct(p: Playlist, track: Track)
    requires Distinct(p.trackList) && AddToPlaylist(p, track).Some?
    ensures Distinct(AddToPlaylist(p, track).value)
    ensures track in AddToPlaylist(p, track).value
  {
    var r := AddToPlaylist(p, track).value;
    assert r[|p.trackList|] == track;
  }

  /** Remove from playlist: Kotlin `remove(track)`, dropping its first occurrence. */
  function RemoveFromPlaylist(p: Playlist, track: Track): (r: seq<Track>)
    ensures track in p.trackList ==> |r| == |p.trackList| - 1
    ensures track !in p.trackList ==> r == p.trackList
    ensures multiset(r) == multiset(p.trackList) - multiset{track}
    ensures Distinct(p.trackList) ==> track !in r
  {
    RemoveFirstSpec(p.trackList, track);
    RemoveFirstMultiset(p.trackList, track);
    RemoveFirstDistinct(p.trackList, track);
    RemoveFirst(p.trackList, track)
  }

  /** Reorder: the store is written only when the new order differs. */
  function ReorderPlaylist(p: Playlist, trackList: seq<Track>): (r: Option<seq<Track>>)
    ensures r.Some? <==> trackList != p.trackList
    ensures r.Some? ==> r.value == trackList
  {
    if p.trackList != trackList then Some(trackList) else None
  }
}
