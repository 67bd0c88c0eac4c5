/** The derived playlists: the catalog grouped by album, artist, genre and
    containing folder with Kotlin's `groupBy`, each group becoming a playlist.
    `groupBy` collects into a LinkedHashMap, so groups come in order of the
    first track carrying their key and each group keeps catalog order. */
module Grouping {
  import opened Domain

  /** Some track of `s` carries key `k`. */
  predicate HasKey<K(==,!new)>(s: seq<Track>, key: Track -> K, k: K)
  {
    exists i :: 0 <= i < |s| && key(s[i]) == k
  }

  predicate DistinctKeys<K(==,!new)>(ks: seq<K>)
  {
    forall i, j :: 0 <= i < j < |ks| ==> ks[i] != ks[j]
  }

  lemma HasKeySnoc<K(!new)>(s: seq<Track>, key: Track -> K, k: K)
    requires |s| > 0
    ensures HasKey(s, key, k) <==> HasKey(s[..|s| - 1], key, k) || key(s[|s| - 1]) == k
  {
    var p := s[..|s| - 1];
    if HasKey(s, key, k) && key(s[|s| - 1]) != k {
      var i :| 0 <= i < |s| && key(s[i]) == k;
      assert p[i] == s[i];
    }
    if HasKey(p, key, k) {
      var i :| 0 <= i < |p| && key(p[i]) == k;
      assert s[i] == p[i];
    }
  }

  /** The keys of `s`, each once, in order of first occurrence. */
  function Keys<K(==,!new)>(s: seq<Track>, key: Track -> K): (ks: seq<K>)
    ensures forall k :: k in ks <==> HasKey(s, key, k)
    ensures DistinctKeys(ks)
    decreases |s|
  {
    if |s| == 0 then []
    else
      var ks := Keys(s[..|s| - 1], key);
      var k := key(s[|s| - 1]);
      HasKeySnoc(s, key, k);
      assert forall k' :: HasKey(s, key, k') <==> HasKey(s[..|s| - 1], key, k') || k == k' by {
        forall k' ensures HasKey(s, key, k') <==> HasKey(s[..|s| - 1], key, k') || k == k' {
          HasKeySnoc(s, key, k');
        }
      }
      if k in ks then ks else ks + [k]
  }

  /** The tracks of `s` carrying key `k`, in catalog order. */
  function Group<K(==,!new)>(s: seq<Track>, key: Track -> K, k: K): (g: seq<Track>)
    ensures forall t :: t in g ==> key(t) == k
    ensures g == [] <==> !HasKey(s, key, k)
    decreases |s|
  {
    if |s| == 0 then []
    else
      HasKeySnoc(s, key, k);
      Group(s[..|s| - 1], key, k) + (if key(s[|s| - 1]) == k then [s[|s| - 1]] else [])
  }

  /** The index of the first track of `s` carrying key `k`, or -1. */
  function FirstIndexOfKey<K(==,!new)>(s: seq<Track>, key: Track -> K, k: K): (i: int)
    ensures -1 <= i < |s|
    ensures i == -1 <==> !HasKey(s, key, k)
    ensures 0 <= i ==> key(s[i]) == k && forall q :: 0 <= q < i ==> key(s[q]) != k
    decreases |s|
  {
    if |s| == 0 then -1
    else
      HasKeySnoc(s, key, k);
      var p := FirstIndexOfKey(s[..|s| - 1], key, k);
      if p >= 0 then p
      else if key(s[|s| - 1]) == k then
        assert !HasKey(s[..|s| - 1], key, k);
        |s| - 1
      else -1
  }

  /** One (key, tracks) entry per key of `ks`. */
  function GroupsFor<K(==,!new)>(s: seq<Track>, key: Track -> K, ks: seq<K>): seq<(K, seq<Track>)>
  {
    seq(|ks|, i requires 0 <= i < |ks| => (ks[i], Group(s, key, ks[i])))
  }

  /** `groupBy(key).entries` */
  function GroupBy<K(==,!new)>(s: seq<Track>, key: Track -> K): seq<(K, seq<Track>)>
  {
    GroupsFor(s, key, Keys(s, key))
  }

  /** The groups' tracks laid end to end. */
  function Concat<K>(gs: seq<(K, seq<Track>)>): seq<Track>
  {
    if |gs| == 0 then [] else gs[0].1 + Concat(gs[1..])
  }

  lemma {:induction false} ConcatAppend<K(!new)>(a: seq<(K, seq<Track>)>, b: seq<(K, seq<Track>)>)
    ensures Concat(a + b) == Concat(a) + Concat(b)
    decreases |a|
  {
    if |a| == 0 {
      assert a + b == b;
    } else {
      assert (a + b)[0] == a[0];
      assert (a + b)[1..] == a[1..] + b;
      ConcatAppend(a[1..], b);
    }
  }

  /** The groups for `ks` laid end to end: the first key's group, then the rest. */
  lemma ConcatGroupsForCons<K(!new)>(s: seq<Track>, key: Track -> K, ks: seq<K>)
    requires |ks| > 0
    ensures Concat(GroupsFor(s, key, ks)) == Group(s, key, ks[0]) + Concat(GroupsFor(s, key, ks[1..]))
  {
    assert GroupsFor(s, key, ks)[1..] == GroupsFor(s, key, ks[1..]);
  }

  /** A track added at the end of the catalog joins the end of its key's group. */
  lemma GroupSnoc<K(!new)>(s: seq<Track>, x: Track, key: Track -> K, k: K)
    ensures Group(s + [x], key, k) == Group(s, key, k) + (if key(x) == k then [x] else [])
  {
    assert (s + [x])[..|s + [x]| - 1] == s;
  }

  /** Adding one track to the catalog adds it to exactly the group of its key. */
  lemma {:induction false} GroupsForSnoc<K(!new)>(s: seq<Track>, x: Track, key: Track -> K, ks: seq<K>)
    requires DistinctKeys(ks)
    ensures multiset(Concat(GroupsFor(s + [x], key, ks)))
         == multiset(Concat(GroupsFor(s, key, ks))) + (if key(x) in ks then multiset{x} else multiset{})
    decreases |ks|
  {
    if |ks| > 0 {
      var k, rest := ks[0], ks[1..];
      ConcatGroupsForCons(s + [x], key, ks);
      ConcatGroupsForCons(s, key, ks);
      GroupSnoc(s, x, key, k);
      assert DistinctKeys(rest);
      GroupsForSnoc(s, x, key, rest);
      assert key(x) in ks <==> key(x) == k || key(x) in rest;
      assert key(x) == k ==> key(x) !in rest;
      SnocStep(Group(s, key, k), Concat(GroupsFor(s, key, rest)),
               Group(s + [x], key, k), Concat(GroupsFor(s + [x], key, rest)), x, key(x) == k, key(x) in rest);
    }
  }

  /** One step of `GroupsForSnoc`: a head group and a tail that each gained
      at most one copy of `x`, and not both, gained it once between them. */
  lemma SnocStep(g: seq<Track>, t: seq<Track>, g': seq<Track>, t': seq<Track>, x: Track, here: bool, later: bool)
    requires g' == g + (if here then [x] else [])
    requires multiset(t') == multiset(t) + (if later then multiset{x} else multiset{})
    requires !(here && later)
    ensures multiset(g' + t') == multiset(g + t) + (if here || later then multiset{x} else multiset{})
  {
  }

  /** The groups together hold every catalog track exactly as often as the
      catalog does: grouping is a permutation of the catalog. */
  lemma {:induction false} GroupByIsPermutation<K(!new)>(s: seq<Track>, key: Track -> K)
    ensures multiset(Concat(GroupBy(s, key))) == multiset(s)
    decreases |s|
  {
    if |s| > 0 {
      var p, x := s[..|s| - 1], s[|s| - 1];
      assert s == p + [x];
      var ks := Keys(p, key);
      GroupByIsPermutation(p, key);
      GroupsForSnoc(p, x, key, ks);
      if key(x) !in ks {
        NewKeyGroup(p, x, key);
      } else {
        assert Keys(s, key) == ks;
      }
    } else {
      assert Keys(s, key) == [];
      assert GroupBy(s, key) == [];
    }
  }

  /** A track whose key is new opens a one-track group at the end. */
  lemma NewKeyGroup<K(!new)>(p: seq<Track>, x: Track, key: Track -> K)
    requires key(x) !in Keys(p, key)
    ensures Concat(GroupBy(p + [x], key)) == Concat(GroupsFor(p + [x], key, Keys(p, key))) + [x]
  {
    var s, k, ks := p + [x], key(x), Keys(p, key);
    assert s[..|s| - 1] == p;
    assert Keys(s, key) == ks + [k];
    assert GroupsFor(s, key, ks + [k]) == GroupsFor(s, key, ks) + [(k, Group(s, key, k))];
    ConcatAppend(GroupsFor(s, key, ks), [(k, Group(s, key, k))]);
    GroupSnoc(p, x, key, k);
    assert Group(p, key, k) == [];
    assert Concat([(k, Group(s, key, k))]) == [x];
  }

  /** Every group is non-empty, holds only tracks with its key, and no key
      names two groups. */
  lemma GroupByIsHomogeneous<K(!new)>(s: seq<Track>, key: Track -> K)
    ensures forall i :: 0 <= i < |GroupBy(s, key)| ==> GroupBy(s, key)[i].1 != []
    ensures forall i, t :: 0 <= i < |GroupBy(s, key)| && t in GroupBy(s, key)[i].1 ==> key(t) == GroupBy(s, key)[i].0
    ensures forall i, j :: 0 <= i < j < |GroupBy(s, key)| ==> GroupBy(s, key)[i].0 != GroupBy(s, key)[j].0
  {
  }

  /** Groups come in the order their keys first appear in the catalog. */
  lemma {:induction false} GroupByFirstOccurrenceOrder<K(!new)>(s: seq<Track>, key: Track -> K)
    ensures forall i, j :: 0 <= i < j < |Keys(s, key)| ==>
      0 <= FirstIndexOfKey(s, key, Keys(s, key)[i]) < FirstIndexOfKey(s, key, Keys(s, key)[j])
    decreases |s|
  {
    if |s| > 0 {
      var p, x := s[..|s| - 1], s[|s| - 1];
      var ks := Keys(p, key);
      GroupByFirstOccurrenceOrder(p, key);
      forall k | k in ks ensures 0 <= FirstIndexOfKey(s, key, k) == FirstIndexOfKey(p, key, k) < |p| {
        assert HasKey(p, key, k);
      }
      var ks' := Keys(s, key);
      if key(x) !in ks {
        assert !HasKey(p, key, key(x));
        assert FirstIndexOfKey(s, key, key(x)) == |p|;
        assert ks' == ks + [key(x)];
        forall i, j | 0 <= i < j < |ks'|
          ensures 0 <= FirstIndexOfKey(s, key, ks'[i]) < FirstIndexOfKey(s, key, ks'[j])
        {
          assert ks'[i] == ks[i] && ks[i] in ks;
          if j < |ks| { assert ks'[j] == ks[j] && ks[j] in ks; }
        }
      } else {
        assert ks' == ks;
        forall i, j | 0 <= i < j < |ks'|
          ensures 0 <= FirstIndexOfKey(s, key, ks'[i]) < FirstIndexOfKey(s, key, ks'[j])
        {
          assert ks[i] in ks && ks[j] in ks;
        }
      }
    } else {
      assert Keys(s, key) == [];
    }
  }

  /** Kotlin `lastIndexOf(c)` on a string. */
  function LastIndexOf(s: string, c: char): (i: int)
    ensures -1 <= i < |s|
    ensures i == -1 <==> c !in s
    ensures 0 <= i ==> s[i] == c && c !in s[i + 1..]
  {
    if |s| == 0 then -1
    else if s[|s| - 1] == c then |s| - 1
    else
      var p := s[..|s| - 1];
      var i := LastIndexOf(p, c);
      assert s == p + [s[|s| - 1]];
      if i < 0 then
        assert c !in p;
        i
      else
        assert s[i + 1..] == p[i + 1..] + [s[|s| - 1]];
        i
  }

  /** `substringBeforeLast(c)`: the whole string when `c` does not occur. */
  function SubstringBeforeLast(s: string, c: char): string
  {
    var i := LastIndexOf(s, c);
    if i < 0 then s else s[..i]
  }

  /** `substringAfterLast(c)`: the whole string when `c` does not occur. */
  function SubstringAfterLast(s: string, c: char): string
  {
    var i := LastIndexOf(s, c);
    if i < 0 then s else s[i + 1..]
  }

  /** The two substrings split the string at its last `c`. */
  lemma SplitAtLast(s: string, c: char)
    ensures c in s ==> SubstringBeforeLast(s, c) + [c] + SubstringAfterLast(s, c) == s
    ensures c in s ==> c !in SubstringAfterLast(s, c)
    ensures c !in s ==> SubstringBeforeLast(s, c) == s && SubstringAfterLast(s, c) == s
  {
    var i := LastIndexOf(s, c);
    if i >= 0 {
      assert s == s[..i] + [s[i]] + s[i + 1..];
    }
  }

  function AlbumKey(t: Track): Option<string> { t.album }
  function ArtistKey(t: Track): Option<string> { t.artist }
  function GenreKey(t: Track): Option<string> { t.genre }

  /** A folder track is grouped by the path up to its last '/'. */
  function FolderKey(t: Track): string { SubstringBeforeLast(t.data, '/') }

  /** A folder playlist is named by the last segment of its folder path. */
  function FolderName(folder: string): (name: string)
    ensures '/' !in name
    ensures '/' !in folder ==> name == folder
    ensures '/' in folder ==> exists i :: 0 <= i < |folder| && folder[i] == '/' && name == folder[i + 1..]
  {
    SplitAtLast(folder, '/');
    SubstringAfterLast(folder, '/')
  }

  function SameName(k: Option<string>): Option<string> { k }
  function FolderPlaylistName(k: string): Option<string> { Some(FolderName(k)) }

  /** Each group becomes a playlist named from its key. */
  function ToPlaylists<K>(gs: seq<(K, seq<Track>)>, name: K -> Option<string>): (ps: seq<Playlist>)
    ensures |ps| == |gs|
    ensures forall i :: 0 <= i < |gs| ==> ps[i] == Playlist(name(gs[i].0), gs[i].1)
  {
    seq(|gs|, i requires 0 <= i < |gs| => Playlist(name(gs[i].0), gs[i].1))
  }

  /** All the tracks of a list of playlists, end to end. */
  function AllTracks(ps: seq<Playlist>): seq<Track>
  {
    if |ps| == 0 then [] else ps[0].trackList + AllTracks(ps[1..])
  }

  lemma {:induction false} AllTracksToPlaylists<K(!new)>(gs: seq<(K, seq<Track>)>, name: K -> Option<string>)
    ensures AllTracks(ToPlaylists(gs, name)) == Concat(gs)
    decreases |gs|
  {
    if |gs| > 0 {
      assert ToPlaylists(gs, name)[1..] == ToPlaylists(gs[1..], name);
      AllTracksToPlaylists(gs[1..], name);
    }
  }

  function AlbumPlaylists(catalog: seq<Track>): seq<Playlist>
  {
    ToPlaylists(GroupBy(catalog, AlbumKey), SameName)
  }

  function ArtistPlaylists(catalog: seq<Track>): seq<Playlist>
  {
    ToPlaylists(GroupBy(catalog, ArtistKey), SameName)
  }

  function GenrePlaylists(catalog: seq<Track>): seq<Playlist>
  {
    ToPlaylists(GroupBy(catalog, GenreKey), SameName)
  }

  function FolderPlaylists(catalog: seq<Track>): seq<Playlist>
  {
    ToPlaylists(GroupBy(catalog, FolderKey), FolderPlaylistName)
  }

  /** Each family of derived playlists holds the catalog's tracks, each as often
      as the catalog does. */
  lemma DerivedPlaylistsArePermutations(catalog: seq<Track>)
    ensures multiset(AllTracks(AlbumPlaylists(catalog))) == multiset(catalog)
    ensures multiset(AllTracks(ArtistPlaylists(catalog))) == multiset(catalog)
    ensures multiset(AllTracks(GenrePlaylists(catalog))) == multiset(catalog)
    ensures multiset(AllTracks(FolderPlaylists(catalog))) == multiset(catalog)
  {
    GroupByIsPermutation(catalog, AlbumKey);
    AllTracksToPlaylists(GroupBy(catalog, AlbumKey), SameName);
    GroupByIsPermutation(catalog, ArtistKey);
    AllTracksToPlaylists(GroupBy(catalog, ArtistKey), SameName);
    GroupByIsPermutation(catalog, GenreKey);
    AllTracksToPlaylists(GroupBy(catalog, GenreKey), SameName);
    GroupByIsPermutation(catalog, FolderKey);
    AllTracksToPlaylists(GroupBy(catalog, FolderKey), FolderPlaylistName);
  }

  /** A derived playlist holds only tracks whose tag equals its name; a folder
      playlist holds only tracks whose folder's last segment is its name. */
  lemma DerivedPlaylistsAreHomogeneous(catalog: seq<Track>)
    ensures forall i, t :: 0 <= i < |AlbumPlaylists(catalog)| && t in AlbumPlaylists(catalog)[i].trackList ==>
      t.album == AlbumPlaylists(catalog)[i].name
    ensures forall i, t :: 0 <= i < |ArtistPlaylists(catalog)| && t in ArtistPlaylists(catalog)[i].trackList ==>
      t.artist == ArtistPlaylists(catalog)[i].name
    ensures forall i, t :: 0 <= i < |GenrePlaylists(catalog)| && t in GenrePlaylists(catalog)[i].trackList ==>
      t.genre == GenrePlaylists(catalog)[i].name
    ensures forall i, t :: 0 <= i < |FolderPlaylists(catalog)| && t in FolderPlaylists(catalog)[i].trackList ==>
      FolderPlaylists(catalog)[i].name == Some(FolderName(SubstringBeforeLast(t.data, '/')))
  {
    GroupByIsHomogeneous(catalog, AlbumKey);
    GroupByIsHomogeneous(catalog, ArtistKey);
    GroupByIsHomogeneous(catalog, GenreKey);
    GroupByIsHomogeneous(catalog, FolderKey);
  }
}
