/** The stable sort performed by java.util.List.sort(Comparator): the result
    is a permutation of the input, ordered by the comparator, and elements the
    comparator ranks equal keep their relative order. The sort is specified
    by a functional insertion sort, which has exactly these three properties. */
module Sorting {

  /** The comparator's "at most" relation is a total preorder, which is what
      the Comparator contract demands of compare(a, b) <= 0. */
  ghost predicate TotalPreorder<T(!new)>(le: (T, T) -> bool)
  {
    && (forall a, b :: le(a, b) || le(b, a))
    && (forall a, b, c :: le(a, b) && le(b, c) ==> le(a, c))
  }

  predicate Sorted<T>(s: seq<T>, le: (T, T) -> bool)
  {
    forall i, j :: 0 <= i < j < |s| ==> le(s[i], s[j])
  }

  /** a and b are ranked equal. */
  predicate Tied<T>(le: (T, T) -> bool, a: T, b: T)
  {
    le(a, b) && le(b, a)
  }

  /** The elements of s ranked equal to x, in the order s holds them. */
  function TiedWith<T>(s: seq<T>, x: T, le: (T, T) -> bool): seq<T>
  {
    if s == [] then []
    else (if Tied(le, s[0], x) then [s[0]] else []) + TiedWith(s[1..], x, le)
  }

  /** Puts x in front of the first element it ranks at most. */
  function Insert<T>(x: T, s: seq<T>, le: (T, T) -> bool): seq<T>
  {
    if s == [] then [x]
    else if le(x, s[0]) then [x] + s
    else [s[0]] + Insert(x, s[1..], le)
  }

  function InsertionSort<T>(s: seq<T>, le: (T, T) -> bool): seq<T>
  {
    if s == [] then [] else Insert(s[0], InsertionSort(s[1..], le), le)
  }

  lemma {:induction false} InsertPermutes<T>(x: T, s: seq<T>, le: (T, T) -> bool)
    ensures multiset(Insert(x, s, le)) == multiset(s) + multiset{x}
  {
    if s != [] && !le(x, s[0]) {
      var tail := Insert(x, s[1..], le);
      InsertPermutes(x, s[1..], le);
      assert Insert(x, s, le) == [s[0]] + tail;
      assert s == [s[0]] + s[1..];
      assert multiset(s) == multiset{s[0]} + multiset(s[1..]);
      assert multiset(Insert(x, s, le)) == multiset{s[0]} + multiset(tail);
    }
  }

  lemma {:induction false} InsertKeepsSorted<T(!new)>(x: T, s: seq<T>, le: (T, T) -> bool)
    requires TotalPreorder(le) && Sorted(s, le)
    ensures Sorted(Insert(x, s, le), le)
  {
    if s == [] {
    } else if le(x, s[0]) {
      var r := [x] + s;
      forall i, j | 0 <= i < j < |r| ensures le(r[i], r[j]) {
        if i == 0 && j > 1 {
          assert le(s[0], s[j - 1]);
        }
      }
    } else {
      var tail := Insert(x, s[1..], le);
      InsertKeepsSorted(x, s[1..], le);
      assert le(s[0], x);
      InsertKeepsLowerBound(s[0], x, s[1..], le);
      var r := [s[0]] + tail;
      forall i, j | 0 <= i < j < |r| ensures le(r[i], r[j]) {
        if i > 0 {
          assert r[i] == tail[i - 1] && r[j] == tail[j - 1];
        } else {
          assert r[j] == tail[j - 1];
        }
      }
    }
  }

  /** What every element of s and x are ranked at least, every element of
      the insertion is. */
  lemma {:induction false} InsertKeepsLowerBound<T>(lo: T, x: T, s: seq<T>, le: (T, T) -> bool)
    requires le(lo, x) && forall k :: 0 <= k < |s| ==> le(lo, s[k])
    ensures forall k :: 0 <= k < |Insert(x, s, le)| ==> le(lo, Insert(x, s, le)[k])
  {
    if s != [] && !le(x, s[0]) {
      InsertKeepsLowerBound(lo, x, s[1..], le);
      var r := Insert(x, s, le);
      var tail := Insert(x, s[1..], le);
      assert r == [s[0]] + tail;
      forall k | 0 <= k < |r| ensures le(lo, r[k]) {
        if k > 0 { assert r[k] == tail[k - 1]; }
      }
    }
  }

  lemma TiedWithCons<T>(a: T, t: seq<T>, x: T, le: (T, T) -> bool)
    ensures TiedWith([a] + t, x, le) == (if Tied(le, a, x) then [a] else []) + TiedWith(t, x, le)
  {
    assert ([a] + t)[1..] == t;
  }

  /** Inserting y adds y to the elements tied with x exactly when y is tied
      with x, and puts it in front of them: they all come later in the input. */
  lemma {:induction false} InsertTied<T(!new)>(y: T, s: seq<T>, x: T, le: (T, T) -> bool)
    requires TotalPreorder(le)
    ensures TiedWith(Insert(y, s, le), x, le)
         == (if Tied(le, y, x) then [y] else []) + TiedWith(s, x, le)
  {
    if s == [] {
      TiedWithCons(y, [], x, le);
    } else if le(y, s[0]) {
      TiedWithCons(y, s, x, le);
    } else {
      var rest := Insert(y, s[1..], le);
      InsertTied(y, s[1..], x, le);
      TiedWithCons(s[0], rest, x, le);
      TiedWithCons(s[0], s[1..], x, le);
      assert [s[0]] + s[1..] == s;
      assert Tied(le, y, x) ==> !Tied(le, s[0], x);
    }
  }

  lemma {:induction false} SortPermutes<T>(s: seq<T>, le: (T, T) -> bool)
    ensures multiset(InsertionSort(s, le)) == multiset(s)
  {
    if s != [] {
      SortPermutes(s[1..], le);
      InsertPermutes(s[0], InsertionSort(s[1..], le), le);
      assert s == [s[0]] + s[1..];
    }
  }

  lemma {:induction false} SortSorts<T(!new)>(s: seq<T>, le: (T, T) -> bool)
    requires TotalPreorder(le)
    ensures Sorted(InsertionSort(s, le), le)
  {
    if s != [] {
      SortSorts(s[1..], le);
      InsertKeepsSorted(s[0], InsertionSort(s[1..], le), le);
    }
  }

  /** Stability: for every x, the elements tied with x appear in the sorted
      list in the same order as in the input. */
  lemma {:induction false} SortIsStable<T(!new)>(s: seq<T>, x: T, le: (T, T) -> bool)
    requires TotalPreorder(le)
    ensures TiedWith(InsertionSort(s, le), x, le) == TiedWith(s, x, le)
  {
    if s != [] {
      SortIsStable(s[1..], x, le);
      InsertTied(s[0], InsertionSort(s[1..], le), x, le);
    }
  }

  /** The sorted list is a sorted, stable permutation of the input. */
  lemma StableSort<T(!new)>(s: seq<T>, le: (T, T) -> bool)
    requires TotalPreorder(le)
    ensures multiset(InsertionSort(s, le)) == multiset(s)
    ensures Sorted(InsertionSort(s, le), le)
    ensures forall x :: TiedWith(InsertionSort(s, le), x, le) == TiedWith(s, x, le)
  {
    SortPermutes(s, le);
    SortSorts(s, le);
    forall x ensures TiedWith(InsertionSort(s, le), x, le) == TiedWith(s, x, le) {
      SortIsStable(s, x, le);
    }
  }

  /** Reversing a total preorder gives a total preorder
      (Comparator.reverseOrder of a valid natural order is valid). */
  lemma ReversedPreorder<T(!new)>(le: (T, T) -> bool, rev: (T, T) -> bool)
    requires TotalPreorder(le)
    requires forall a, b :: rev(a, b) == le(b, a)
    ensures TotalPreorder(rev)
  {
  }
}
