/** The Kotlin `MutableList` operations the queue handlers apply to a copy of
    the queue (`indexOf`, `removeAt`, `add(index, x)`, `add(removeAt(..))`,
    `remove(x)`), with the facts the handlers rely on. */
module ListOps {

  predicate Distinct<T(==)>(s: seq<T>) {
    forall i, j :: 0 <= i < j < |s| ==> s[i] != s[j]
  }

  /** `indexOf(x)`: the first index holding `x`, or -1 when there is none. */
  function IndexOf<T(==)>(s: seq<T>, x: T): (i: int)
    ensures -1 <= i < |s|
    ensures i == -1 <==> x !in s
    ensures 0 <= i ==> s[i] == x && x !in s[..i]
  {
    if |s| == 0 then -1
    else if s[0] == x then 0
    else
      var j := IndexOf(s[1..], x);
      if j == -1 then -1
      else
        assert s[..j + 1] == [s[0]] + s[1..][..j];
        j + 1
  }

  /** `removeAt(i)`: the list without position `i`. */
  function RemoveAt<T>(s: seq<T>, i: int): (r: seq<T>)
    requires 0 <= i < |s|
    ensures |r| == |s| - 1
    ensures forall k :: 0 <= k < i ==> r[k] == s[k]
    ensures forall k :: i <= k < |r| ==> r[k] == s[k + 1]
  {
    s[..i] + s[i + 1..]
  }

  /** `add(i, x)`: `x` lands at position `i`, later entries shift right by one. */
  function InsertAt<T>(s: seq<T>, i: int, x: T): (r: seq<T>)
    requires 0 <= i <= |s|
    ensures |r| == |s| + 1 && r[i] == x
    ensures forall k :: 0 <= k < i ==> r[k] == s[k]
    ensures forall k :: i < k < |r| ==> r[k] == s[k - 1]
  {
    s[..i] + [x] + s[i..]
  }

  /** `add(to, removeAt(from))`: the queue's reorder step. */
  function Move<T>(s: seq<T>, from: int, to: int): seq<T>
    requires 0 <= from < |s| && 0 <= to < |s|
  {
    InsertAt(RemoveAt(s, from), to, s[from])
  }

  /** `remove(x)`: drops the first occurrence of `x`, if there is one. */
  function RemoveFirst<T(==)>(s: seq<T>, x: T): seq<T>
  {
    var i := IndexOf(s, x);
    if i < 0 then s else RemoveAt(s, i)
  }

  lemma RemoveAtMultiset<T>(s: seq<T>, i: int)
    requires 0 <= i < |s|
    ensures multiset(RemoveAt(s, i)) == multiset(s) - multiset{s[i]}
  {
    assert s == s[..i] + [s[i]] + s[i + 1..];
    assert multiset(s) == multiset(s[..i]) + multiset{s[i]} + multiset(s[i + 1..]);
  }

  lemma InsertAtMultiset<T>(s: seq<T>, i: int, x: T)
    requires 0 <= i <= |s|
    ensures multiset(InsertAt(s, i, x)) == multiset(s) + multiset{x}
  {
    assert s == s[..i] + s[i..];
  }

  /** Removing what was just inserted gives the list back. */
  lemma RemoveInsertInverse<T>(s: seq<T>, i: int, x: T)
    requires 0 <= i <= |s|
    ensures RemoveAt(InsertAt(s, i, x), i) == s
  {
  }

  /** Inserting the removed entry where it was gives the list back. */
  lemma InsertRemoveInverse<T>(s: seq<T>, i: int)
    requires 0 <= i < |s|
    ensures InsertAt(RemoveAt(s, i), i, s[i]) == s
  {
  }

  /** A reorder is a permutation of the same length that puts the moved entry at `to`. */
  lemma MoveIsPermutation<T>(s: seq<T>, from: int, to: int)
    requires 0 <= from < |s| && 0 <= to < |s|
    ensures |Move(s, from, to)| == |s|
    ensures Move(s, from, to)[to] == s[from]
    ensures multiset(Move(s, from, to)) == multiset(s)
  {
    RemoveAtMultiset(s, from);
    InsertAtMultiset(RemoveAt(s, from), to, s[from]);
  }

  /** Every other entry keeps its relative order: dropping the moved entry from
      the result leaves exactly the list without position `from`. */
  lemma MoveKeepsOthersInOrder<T>(s: seq<T>, from: int, to: int)
    requires 0 <= from < |s| && 0 <= to < |s|
    ensures RemoveAt(Move(s, from, to), to) == RemoveAt(s, from)
  {
    RemoveInsertInverse(RemoveAt(s, from), to, s[from]);
  }

  /** Dragging an entry back where it came from undoes a reorder. */
  lemma MoveUndo<T>(s: seq<T>, from: int, to: int)
    requires 0 <= from < |s| && 0 <= to < |s|
    ensures Move(Move(s, from, to), to, from) == s
  {
    var m := Move(s, from, to);
    MoveIsPermutation(s, from, to);
    MoveKeepsOthersInOrder(s, from, to);
    assert Move(m, to, from) == InsertAt(RemoveAt(s, from), from, s[from]);
    InsertRemoveInverse(s, from);
  }

  /** Inserting an entry that is not in the list at two positions gives the
      same list exactly when the positions agree. */
  lemma InsertAtSameIff<T>(s: seq<T>, i: int, j: int, x: T)
    requires 0 <= i <= |s| && 0 <= j <= |s|
    requires x !in s
    ensures InsertAt(s, i, x) == InsertAt(s, j, x) <==> i == j
  {
    if i < j {
      assert InsertAt(s, j, x)[i] == s[i];
      assert s[i] in s;
    } else if j < i {
      assert InsertAt(s, i, x)[j] == s[j];
      assert s[j] in s;
    }
  }

  /** `remove(x)` drops the first `x` when there is one and keeps the rest
      in order; otherwise the list is unchanged. */
  lemma RemoveFirstSpec<T>(s: seq<T>, x: T)
    ensures x !in s ==> RemoveFirst(s, x) == s
    ensures x in s ==> |RemoveFirst(s, x)| == |s| - 1
    ensures x in s ==> var i := IndexOf(s, x);
      RemoveFirst(s, x)[..i] == s[..i] && RemoveFirst(s, x)[i..] == s[i + 1..]
  {
  }

  /** `remove(x)` takes away exactly one copy of `x`, if there is one. */
  lemma RemoveFirstMultiset<T>(s: seq<T>, x: T)
    ensures multiset(RemoveFirst(s, x)) == multiset(s) - multiset{x}
  {
    var i := IndexOf(s, x);
    if i >= 0 {
      RemoveAtMultiset(s, i);
    } else {
      assert multiset(s)[x] == 0;
    }
  }

  /** In a list without duplicates, `remove(x)` leaves no copy of `x`. */
  lemma RemoveFirstDistinct<T>(s: seq<T>, x: T)
    ensures Distinct(s) ==> x !in RemoveFirst(s, x)
    ensures Distinct(s) ==> Distinct(RemoveFirst(s, x))
  {
    var i := IndexOf(s, x);
    if i >= 0 && Distinct(s) {
      var r := RemoveAt(s, i);
      forall k | 0 <= k < |r| ensures r[k] != x {
        if k < i { assert r[k] == s[k]; } else { assert r[k] == s[k + 1]; }
      }
    }
  }
}
