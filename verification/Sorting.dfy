/** The stable ascending sort that `Array.prototype.sort` performs with a numeric comparator. */
module Sorting {
  import opened OrderedMaps

  /** Puts `x` behind every element whose key is not greater. */
  function Insert<T>(xs: seq<T>, x: T, key: T -> int): (r: seq<T>)
    ensures |r| == |xs| + 1
  {
    if xs == [] || key(xs[|xs| - 1]) <= key(x) then xs + [x]
    else Insert(xs[..|xs| - 1], x, key) + [xs[|xs| - 1]]
  }

  function Sort<T>(xs: seq<T>, key: T -> int): (r: seq<T>)
    ensures |r| == |xs|
  {
    if xs == [] then [] else Insert(Sort(xs[..|xs| - 1], key), xs[|xs| - 1], key)
  }

  ghost predicate Ascending<T>(xs: seq<T>, key: T -> int) {
    forall i, j :: 0 <= i < j < |xs| ==> key(xs[i]) <= key(xs[j])
  }

  lemma {:induction false} InsertKeeps<T>(xs: seq<T>, x: T, key: T -> int)
    requires Ascending(xs, key)
    ensures Ascending(Insert(xs, x, key), key)
    ensures multiset(Insert(xs, x, key)) == multiset(xs) + multiset{x}
  {
    if xs == [] || key(xs[|xs| - 1]) <= key(x) {
    } else {
      var front, last := xs[..|xs| - 1], xs[|xs| - 1];
      assert xs == front + [last];
      InsertKeeps(front, x, key);
      forall y | y in Insert(front, x, key) ensures key(y) <= key(last) {
        assert y in multiset(Insert(front, x, key));
      }
    }
  }

  /** Sorting yields an ascending rearrangement. */
  lemma {:induction false} SortCorrect<T>(xs: seq<T>, key: T -> int)
    ensures Ascending(Sort(xs, key), key)
    ensures multiset(Sort(xs, key)) == multiset(xs)
  {
    if xs == [] {
    } else {
      var front, last := xs[..|xs| - 1], xs[|xs| - 1];
      assert xs == front + [last];
      SortCorrect(front, key);
      InsertKeeps(Sort(front, key), last, key);
    }
  }

  /** The same elements, and the first of them has a least key. */
  lemma SortedElements<T(!new)>(xs: seq<T>, key: T -> int)
    ensures forall x :: x in Sort(xs, key) <==> x in xs
    ensures xs != [] ==> forall x :: x in xs ==> key(Sort(xs, key)[0]) <= key(x)
  {
    SortCorrect(xs, key);
    var r := Sort(xs, key);
    forall x ensures x in r <==> x in xs {
      assert x in multiset(r) <==> x in multiset(xs);
    }
  }

  lemma {:induction false} InsertBehindHead<T>(xs: seq<T>, x: T, key: T -> int)
    requires xs != [] && key(xs[0]) <= key(x)
    ensures Insert(xs, x, key)[0] == xs[0]
  {
    if key(x) < key(xs[|xs| - 1]) {
      InsertBehindHead(xs[..|xs| - 1], x, key);
    }
  }

  lemma {:induction false} InsertAsHead<T>(xs: seq<T>, x: T, key: T -> int)
    requires forall y :: y in xs ==> key(x) < key(y)
    ensures Insert(xs, x, key)[0] == x
  {
    if xs == [] {
    } else {
      InsertAsHead(xs[..|xs| - 1], x, key);
    }
  }

  lemma {:induction false} HeadIsFirstLeast<T>(xs: seq<T>, key: T -> int, at: nat)
    requires at < |xs|
    requires forall j :: 0 <= j < |xs| ==> key(xs[at]) <= key(xs[j])
    requires forall j :: 0 <= j < at ==> key(xs[at]) < key(xs[j])
    ensures Sort(xs, key)[0] == xs[at]
  {
    var n := |xs| - 1;
    var front, last := xs[..n], xs[n];
    if at < n {
      HeadIsFirstLeast(front, key, at);
      InsertBehindHead(Sort(front, key), last, key);
    } else {
      SortCorrect(front, key);
      forall y | y in Sort(front, key) ensures key(last) < key(y) {
        assert y in multiset(front);
      }
      InsertAsHead(Sort(front, key), last, key);
    }
  }

  lemma {:induction false} InsertKeepsDistinct<T(!new)>(xs: seq<T>, x: T, key: T -> int)
    requires Distinct(xs) && x !in xs
    ensures Distinct(Insert(xs, x, key))
    ensures forall y :: y in Insert(xs, x, key) ==> y in xs || y == x
  {
    if xs == [] || key(xs[|xs| - 1]) <= key(x) {
    } else {
      var front, last := xs[..|xs| - 1], xs[|xs| - 1];
      assert last !in front;
      InsertKeepsDistinct(front, x, key);
      assert last !in Insert(front, x, key);
    }
  }

  lemma {:induction false} SortKeepsDistinct<T(!new)>(xs: seq<T>, key: T -> int)
    requires Distinct(xs)
    ensures Distinct(Sort(xs, key))
  {
    if xs == [] {
    } else {
      var front, last := xs[..|xs| - 1], xs[|xs| - 1];
      SortKeepsDistinct(front, key);
      SortedElements(front, key);
      InsertKeepsDistinct(Sort(front, key), last, key);
    }
  }

  /** Stability: elements with one key value keep their order. */
  function WithKey<T>(xs: seq<T>, key: T -> int, v: int): seq<T> {
    if xs == [] then []
    else WithKey(xs[..|xs| - 1], key, v) + if key(xs[|xs| - 1]) == v then [xs[|xs| - 1]] else []
  }

  lemma {:induction false} InsertStable<T>(xs: seq<T>, x: T, key: T -> int, v: int)
    requires Ascending(xs, key)
    ensures WithKey(Insert(xs, x, key), key, v) == WithKey(xs + [x], key, v)
  {
    assert (xs + [x])[..|xs|] == xs;
    if xs == [] || key(xs[|xs| - 1]) <= key(x) {
    } else {
      var front, last := xs[..|xs| - 1], xs[|xs| - 1];
      InsertStable(front, x, key, v);
      assert (front + [x])[..|front|] == front;
      var r := Insert(front, x, key);
      assert (r + [last])[..|r|] == r;
    }
  }

  lemma {:induction false} SortStable<T>(xs: seq<T>, key: T -> int, v: int)
    ensures WithKey(Sort(xs, key), key, v) == WithKey(xs, key, v)
  {
    if xs == [] {
    } else {
      var front, last := xs[..|xs| - 1], xs[|xs| - 1];
      SortStable(front, key, v);
      SortCorrect(front, key);
      InsertStable(Sort(front, key), last, key, v);
      var r := Sort(front, key);
      assert (r + [last])[..|r|] == r;
    }
  }
}
