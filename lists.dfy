/** Sequence operations with the meaning of java.util.List methods that the
    plugin relies on: indexOf, contains, remove(Object), and positional swaps.
    Equality is a parameter, because the element classes' equals methods are
    not part of this model. */
module Lists {

  datatype Option<+T> = None | Some(value: T)

  /** Index of the first element satisfying p, or -1 when there is none
      (the shape of a stream's filter(..).findFirst() and of List.indexOf). */
  function FirstWhere<T>(s: seq<T>, p: T -> bool): (k: int)
    ensures -1 <= k < |s|
    ensures k == -1 <==> forall i :: 0 <= i < |s| ==> !p(s[i])
    ensures 0 <= k ==> p(s[k]) && forall i :: 0 <= i < k ==> !p(s[i])
  {
    if s == [] then -1
    else if p(s[0]) then 0
    else
      var k := FirstWhere(s[1..], p);
      if k == -1 then -1 else k + 1
  }

  /** List.contains(x): some element e with x.equals(e). */
  predicate Contains<T>(s: seq<T>, x: T, eq: (T, T) -> bool)
  {
    exists i :: 0 <= i < |s| && eq(x, s[i])
  }

  /** List.indexOf(x): the first position whose element x equals, or -1. */
  function IndexOf<T>(s: seq<T>, x: T, eq: (T, T) -> bool): (k: int)
    ensures -1 <= k < |s|
    ensures k == -1 <==> !Contains(s, x, eq)
    ensures 0 <= k ==> eq(x, s[k]) && forall i :: 0 <= i < k ==> !eq(x, s[i])
  {
    FirstWhere(s, y => eq(x, y))
  }

  /** List.remove(Object x): drops the first element that x equals and keeps
      the order of the rest; no change when there is none. */
  function RemoveFirst<T>(s: seq<T>, x: T, eq: (T, T) -> bool): (r: seq<T>)
    ensures !Contains(s, x, eq) ==> r == s
    ensures Contains(s, x, eq) ==>
      var k := IndexOf(s, x, eq);
      && |r| == |s| - 1
      && multiset(r) + multiset{s[k]} == multiset(s)
      && (forall i :: 0 <= i < k ==> r[i] == s[i])
      && (forall i :: k <= i < |r| ==> r[i] == s[i + 1])
  {
    var k := IndexOf(s, x, eq);
    if k == -1 then s
    else
      assert s == s[..k] + [s[k]] + s[k + 1..];
      s[..k] + s[k + 1..]
  }

  /** The list after List.set(i, s[j]) and List.set(j, s[i]). */
  function Swapped<T>(s: seq<T>, i: nat, j: nat): (r: seq<T>)
    requires i < |s| && j < |s|
    ensures |r| == |s| && r[i] == s[j] && r[j] == s[i]
    ensures forall k :: 0 <= k < |s| && k != i && k != j ==> r[k] == s[k]
    ensures multiset(r) == multiset(s)
  {
    s[i := s[j]][j := s[i]]
  }

  /** No two positions hold elements that are equal under eq. */
  predicate NoDup<T>(s: seq<T>, eq: (T, T) -> bool)
  {
    forall i, j :: 0 <= i < |s| && 0 <= j < |s| && i != j ==> !eq(s[i], s[j])
  }

  ghost predicate Reflexive<T(!new)>(eq: (T, T) -> bool)
  {
    forall a :: eq(a, a)
  }

  ghost predicate Symmetric<T(!new)>(eq: (T, T) -> bool)
  {
    forall a, b :: eq(a, b) ==> eq(b, a)
  }

  /** With a reflexive equality and no duplicates, the element that
      remove(s[k]) drops is s[k] itself. */
  lemma IndexOfOwnElement<T(!new)>(s: seq<T>, k: nat, eq: (T, T) -> bool)
    requires Reflexive(eq) && NoDup(s, eq) && k < |s|
    ensures IndexOf(s, s[k], eq) == k
  {
    assert eq(s[k], s[k]);
    var j := IndexOf(s, s[k], eq);
    if j < k {
      assert eq(s[k], s[j]);
    }
  }

  /** Removing an element keeps a duplicate-free list duplicate-free. */
  lemma RemoveFirstKeepsNoDup<T>(s: seq<T>, x: T, eq: (T, T) -> bool)
    requires NoDup(s, eq)
    ensures NoDup(RemoveFirst(s, x, eq), eq)
  {
    var r := RemoveFirst(s, x, eq);
    if Contains(s, x, eq) {
      var k := IndexOf(s, x, eq);
      forall i, j | 0 <= i < |r| && 0 <= j < |r| && i != j
        ensures !eq(r[i], r[j])
      {
        var i' := if i < k then i else i + 1;
        var j' := if j < k then j else j + 1;
        assert r[i] == s[i'] && r[j] == s[j'];
      }
    }
  }

  /** A list that holds no more copies of anything than a duplicate-free
      list does is duplicate-free too: reordering, dropping or moving items
      between the store's lists cannot create a duplicate. */
  lemma NoDupOfSubMultiset<T>(a: seq<T>, b: seq<T>, eq: (T, T) -> bool)
    requires multiset(b) <= multiset(a) && NoDup(a, eq)
    ensures NoDup(b, eq)
  {
    forall i, j | 0 <= i < |b| && 0 <= j < |b| && i != j ensures !eq(b[i], b[j]) {
      if b[i] == b[j] {
        if i < j { RepeatCount(b, i, j); } else { RepeatCount(b, j, i); }
        assert multiset(a)[b[i]] >= 2;
        RepeatPositions(a, b[i]);
        var p, q :| 0 <= p < q < |a| && a[p] == b[i] && a[q] == b[i];
        assert !eq(a[p], a[q]);
      } else {
        assert b[i] in multiset(b) && b[j] in multiset(b);
        assert b[i] in multiset(a) && b[j] in multiset(a);
        var p :| 0 <= p < |a| && a[p] == b[i];
        var q :| 0 <= q < |a| && a[q] == b[j];
        assert !eq(a[p], a[q]);
      }
    }
  }

  /** A value at two positions occurs at least twice. */
  lemma RepeatCount<T>(s: seq<T>, i: nat, j: nat)
    requires i < j < |s| && s[i] == s[j]
    ensures multiset(s)[s[i]] >= 2
  {
    var front := s[..j];
    assert s == front + [s[j]] + s[j + 1..];
    assert front[i] == s[i];
    assert s[i] in multiset(front);
  }

  /** A value that occurs at least twice sits at two positions. */
  lemma {:induction false} RepeatPositions<T>(s: seq<T>, v: T)
    requires multiset(s)[v] >= 2
    ensures exists p, q :: 0 <= p < q < |s| && s[p] == v && s[q] == v
  {
    assert s == [s[0]] + s[1..];
    var rest := s[1..];
    if s[0] == v {
      assert v in multiset(rest);
      var q :| 0 <= q < |rest| && rest[q] == v;
      assert s[0] == v && s[q + 1] == v;
    } else {
      assert multiset(rest)[v] >= 2;
      RepeatPositions(rest, v);
      var p, q :| 0 <= p < q < |rest| && rest[p] == v && rest[q] == v;
      assert s[p + 1] == v && s[q + 1] == v;
    }
  }

  /** Swapping position i with its neighbour and back again restores the list
      (a shift up undone by a shift down). */
  lemma SwapTwiceRestores<T>(s: seq<T>, i: nat, j: nat)
    requires i < |s| && j < |s|
    ensures Swapped(Swapped(s, i, j), i, j) == s
  {
  }
}
