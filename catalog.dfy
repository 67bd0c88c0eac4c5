/** The sync loop's change test: the catalog is replaced only when the freshly
    fetched track list differs in size from the current one or holds a track
    the current one lacks. */
module Catalog {
  import opened Domain
  import opened ListOps

  /** Kotlin `containsAll`: every entry of `other` occurs in `s`. */
  predicate ContainsAll(s: seq<Track>, other: seq<Track>)
  {
    forall t :: t in other ==> t in s
  }

  /** `size != tracks.size || !containsAll(tracks)` */
  predicate CatalogChanged(current: seq<Track>, fetched: seq<Track>)
  {
    |current| != |fetched| || !ContainsAll(current, fetched)
  }

  /** An identical fetch is never a change, and any unseen track is one. */
  lemma ChangeTestBasics(current: seq<Track>, fetched: seq<Track>)
    ensures !CatalogChanged(current, current)
    ensures (exists t :: t in fetched && t !in current) ==> CatalogChanged(current, fetched)
    ensures |current| != |fetched| ==> CatalogChanged(current, fetched)
  {
  }

  function TrackSet(s: seq<Track>): set<Track>
  {
    set t | t in s
  }

  lemma {:induction false} DistinctTrackSetSize(s: seq<Track>)
    requires Distinct(s)
    ensures |TrackSet(s)| == |s|
    decreases |s|
  {
    if |s| > 0 {
      assert Distinct(s[1..]);
      DistinctTrackSetSize(s[1..]);
      assert TrackSet(s) == {s[0]} + TrackSet(s[1..]);
      assert s[0] !in TrackSet(s[1..]);
    } else {
      assert TrackSet(s) == {};
    }
  }

  lemma {:induction false} DistinctMultiplicity(s: seq<Track>, t: Track)
    requires Distinct(s)
    ensures multiset(s)[t] == if t in s then 1 else 0
    decreases |s|
  {
    if |s| > 0 {
      assert s == [s[0]] + s[1..];
      assert Distinct(s[1..]);
      DistinctMultiplicity(s[1..], t);
      assert s[0] !in s[1..];
    }
  }

  lemma SubsetOfSameSize(a: set<Track>, b: set<Track>)
    requires a <= b && |a| == |b|
    ensures a == b
  {
    assert b == a + (b - a);
    assert |b| == |a| + |b - a|;
    assert b - a == {};
  }

  /** For catalogs without duplicate entries (every track has its own URI), a
      fetch that passes the test unchanged holds exactly the current tracks. */
  lemma UnchangedMeansSameTracks(current: seq<Track>, fetched: seq<Track>)
    requires Distinct(current) && Distinct(fetched)
    requires !CatalogChanged(current, fetched)
    ensures TrackSet(current) == TrackSet(fetched)
    ensures multiset(current) == multiset(fetched)
  {
    DistinctTrackSetSize(current);
    DistinctTrackSetSize(fetched);
    SubsetOfSameSize(TrackSet(fetched), TrackSet(current));
    forall t ensures multiset(current)[t] == multiset(fetched)[t] {
      DistinctMultiplicity(current, t);
      DistinctMultiplicity(fetched, t);
      assert t in current <==> t in TrackSet(current);
      assert t in fetched <==> t in TrackSet(fetched);
    }
  }

  /** With duplicate entries the test can miss a change: same size, every
      fetched track already present, yet different contents. */
  lemma DuplicatesCanHideAChange(a: Track, b: Track)
    requires a != b
    ensures !CatalogChanged([a, a, b], [a, b, b])
    ensures multiset([a, a, b]) != multiset([a, b, b])
  {
    assert multiset([a, a, b])[a] == 2;
    assert multiset([a, b, b])[a] == 1;
  }
}
