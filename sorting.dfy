/** Python's sorted(s, key=...): a stable sort by an integer key, written
    as an insertion sort. Elements with equal keys keep their input order,
    which is also what sorted(..., reverse=True) does (it is the same as
    sorting by the negated key). */
module Sorting {

  predicate SortedBy<T>(s: seq<T>, key: T -> int) {
    forall i, j :: 0 <= i < j < |s| ==> key(s[i]) <= key(s[j])
  }

  /** The elements of s whose key is k, in the order of s. */
  function Having<T>(s: seq<T>, key: T -> int, k: int): (r: seq<T>)
    ensures |r| <= |s|
  {
    if s == [] then []
    else (if key(s[0]) == k then [s[0]] else []) + Having(s[1..], key, k)
  }

  /** Places x after every element of the sorted s whose key is not greater
      than x's. */
  function InsertBy<T>(s: seq<T>, x: T, key: T -> int): (r: seq<T>)
    ensures |r| == |s| + 1
  {
    if s == [] then [x]
    else if key(x) < key(s[0]) then [x] + s
    else [s[0]] + InsertBy(s[1..], x, key)
  }

  /** sorted(s, key=key). */
  function SortBy<T>(s: seq<T>, key: T -> int): (r: seq<T>)
    ensures |r| == |s|
  {
    if s == [] then [] else InsertBy(SortBy(s[..|s| - 1], key), s[|s| - 1], key)
  }

  /** Every key InsertBy produces is a key of s or of x. */
  lemma {:induction false} InsertByLowerBound<T>(s: seq<T>, x: T, key: T -> int, lo: int)
    requires lo <= key(x) && forall i :: 0 <= i < |s| ==> lo <= key(s[i])
    ensures forall j :: 0 <= j < |s| + 1 ==> lo <= key(InsertBy(s, x, key)[j])
  {
    if s != [] && key(x) >= key(s[0]) {
      InsertByLowerBound(s[1..], x, key, lo);
    }
  }

  lemma {:induction false} InsertBySorted<T>(s: seq<T>, x: T, key: T -> int)
    requires SortedBy(s, key)
    ensures SortedBy(InsertBy(s, x, key), key)
  {
    if s != [] && key(x) >= key(s[0]) {
      InsertBySorted(s[1..], x, key);
      InsertByLowerBound(s[1..], x, key, key(s[0]));
    }
  }

  lemma {:induction false} InsertByElements<T>(s: seq<T>, x: T, key: T -> int)
    ensures multiset(InsertBy(s, x, key)) == multiset(s) + multiset{x}
  {
    if s != [] && key(x) >= key(s[0]) {
      InsertByElements(s[1..], x, key);
      assert s == [s[0]] + s[1..];
    }
  }

  lemma {:induction false} HavingAppend<T>(a: seq<T>, b: seq<T>, key: T -> int, k: int)
    ensures Having(a + b, key, k) == Having(a, key, k) + Having(b, key, k)
  {
    if a != [] {
      assert (a + b)[1..] == a[1..] + b;
      HavingAppend(a[1..], b, key, k);
    } else {
      assert a + b == b;
    }
  }

  lemma {:induction false} HavingNone<T>(s: seq<T>, key: T -> int, k: int)
    requires forall i :: 0 <= i < |s| ==> key(s[i]) != k
    ensures Having(s, key, k) == []
  {
    if s != [] {
      HavingNone(s[1..], key, k);
    }
  }

  lemma SortedTail<T>(s: seq<T>, key: T -> int)
    requires s != [] && SortedBy(s, key)
    ensures SortedBy(s[1..], key)
    ensures forall i :: 0 <= i < |s| ==> key(s[0]) <= key(s[i])
  {
    forall i, j | 0 <= i < j < |s| - 1
      ensures key(s[1..][i]) <= key(s[1..][j])
    {
      assert s[1..][i] == s[i + 1] && s[1..][j] == s[j + 1];
    }
    forall i | 0 < i < |s|
      ensures key(s[0]) <= key(s[i])
    {
    }
  }

  /** x goes in front of s: no element of s has x's key. */
  lemma InsertByFront<T>(s: seq<T>, x: T, key: T -> int, k: int)
    requires s != [] && SortedBy(s, key) && key(x) < key(s[0])
    ensures Having([x] + s, key, k) == Having(s, key, k) + (if key(x) == k then [x] else [])
  {
    var r := [x] + s;
    assert r[1..] == s;
    assert Having(r, key, k) == (if key(x) == k then [x] else []) + Having(s, key, k);
    if key(x) == k {
      SortedTail(s, key);
      HavingNone(s, key, k);
    }
  }

  lemma {:induction false} InsertByStable<T>(s: seq<T>, x: T, key: T -> int, k: int)
    requires SortedBy(s, key)
    ensures Having(InsertBy(s, x, key), key, k) == Having(s, key, k) + (if key(x) == k then [x] else [])
  {
    if s == [] {
    } else if key(x) < key(s[0]) {
      InsertByFront(s, x, key, k);
    } else {
      SortedTail(s, key);
      InsertByStable(s[1..], x, key, k);
      var rest := InsertBy(s[1..], x, key);
      var r := [s[0]] + rest;
      assert InsertBy(s, x, key) == r;
      assert r[1..] == rest;
      var h := if key(s[0]) == k then [s[0]] else [];
      assert Having(r, key, k) == h + Having(rest, key, k);
      assert Having(s, key, k) == h + Having(s[1..], key, k);
    }
  }

  /** sorted() returns its input in ascending key order, with the same
      elements. */
  lemma {:induction false} SortByCorrect<T>(s: seq<T>, key: T -> int)
    ensures SortedBy(SortBy(s, key), key)
    ensures multiset(SortBy(s, key)) == multiset(s)
  {
    if s != [] {
      var init := s[..|s| - 1];
      SortByCorrect(init, key);
      InsertBySorted(SortBy(init, key), s[|s| - 1], key);
      InsertByElements(SortBy(init, key), s[|s| - 1], key);
      assert s == init + [s[|s| - 1]];
    }
  }

  /** sorted() is stable: the elements with any one key come out in the
      order they went in. */
  lemma {:induction false} SortByStable<T>(s: seq<T>, key: T -> int, k: int)
    ensures Having(SortBy(s, key), key, k) == Having(s, key, k)
  {
    if s != [] {
      var init, x := s[..|s| - 1], s[|s| - 1];
      var sorted := SortBy(init, key);
      var own := if key(x) == k then [x] else [];
      assert SortBy(s, key) == InsertBy(sorted, x, key);
      assert SortedBy(sorted, key) by {
        SortByCorrect(init, key);
      }
      assert Having(SortBy(s, key), key, k) == Having(init, key, k) + own by {
        SortByStable(init, key, k);
        InsertByStable(sorted, x, key, k);
      }
      assert Having(s, key, k) == Having(init, key, k) + own by {
        assert s == init + [x];
        HavingAppend(init, [x], key, k);
        assert [x][1..] == [];
      }
    }
  }

  function Identity(x: int): int { x }

  predicate Ascending(s: seq<int>) {
    forall i, j :: 0 <= i < j < |s| ==> s[i] <= s[j]
  }

  lemma AscendingByIdentity(s: seq<int>)
    requires SortedBy(s, Identity)
    ensures Ascending(s)
  {
    forall i, j | 0 <= i < j < |s| ensures s[i] <= s[j] {
      assert Identity(s[i]) <= Identity(s[j]);
    }
  }

  /** The first element of a non-empty ascending sequence is its least. */
  lemma HeadIsLeast(a: seq<int>, x: int)
    requires Ascending(a) && x in multiset(a)
    ensures a[0] <= x
  {
    var i :| 0 <= i < |a| && a[i] == x;
  }

  /** Two ascending sequences of integers with the same elements are equal,
      so sorting forgets the order of its input. */
  lemma {:induction false} SortedUnique(a: seq<int>, b: seq<int>)
    requires Ascending(a) && Ascending(b)
    requires multiset(a) == multiset(b)
    ensures a == b
  {
    if a == [] {
      assert |multiset(b)| == 0;
    } else {
      assert b != [] by { assert |multiset(b)| == |a|; }
      HeadIsLeast(a, b[0]);
      HeadIsLeast(b, a[0]);
      assert a == [a[0]] + a[1..];
      assert b == [b[0]] + b[1..];
      assert a[0] == b[0];
      assert multiset(a[1..]) == multiset(a) - multiset{a[0]} by {
        assert multiset(a) == multiset{a[0]} + multiset(a[1..]);
      }
      assert multiset(b[1..]) == multiset(b) - multiset{b[0]} by {
        assert multiset(b) == multiset{b[0]} + multiset(b[1..]);
      }
      SortedUnique(a[1..], b[1..]);
    }
  }

  /** sorted(a) == sorted(b) whenever a and b hold the same integers. */
  lemma SortIgnoresOrder(a: seq<int>, b: seq<int>)
    requires multiset(a) == multiset(b)
    ensures SortBy(a, Identity) == SortBy(b, Identity)
  {
    SortByCorrect(a, Identity);
    SortByCorrect(b, Identity);
    AscendingByIdentity(SortBy(a, Identity));
    AscendingByIdentity(SortBy(b, Identity));
    SortedUnique(SortBy(a, Identity), SortBy(b, Identity));
  }

  /** Sorting an ascending sequence leaves it as it is. */
  lemma SortSorted(a: seq<int>)
    requires Ascending(a)
    ensures SortBy(a, Identity) == a
  {
    SortByCorrect(a, Identity);
    AscendingByIdentity(SortBy(a, Identity));
    SortedUnique(SortBy(a, Identity), a);
  }
}
