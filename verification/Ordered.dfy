/**
 Insertion-ordered collections. A JavaScript `Set` or `Map` iterates in insertion order, so it is
 modelled as a sequence without repetitions; `Array.prototype.sort` is stable, so a descending sort
 is the one function `SortDesc`.
 */
module Ordered {

  datatype Option<+T> = None | Some(value: T)

  ghost predicate Distinct<T(!new)>(s: seq<T>) {
    forall i, j :: 0 <= i < j < |s| ==> s[i] != s[j]
  }

  /** `Set.add`. */
  function Insert<T(==,!new)>(s: seq<T>, x: T): (r: seq<T>)
    ensures forall y :: y in r <==> y in s || y == x
    ensures s <= r
  {
    if x in s then s else s + [x]
  }

  lemma InsertKeepsDistinct<T(!new)>(s: seq<T>, x: T)
    requires Distinct(s)
    ensures Distinct(Insert(s, x))
  {
  }

  /** `Set.delete`: the other elements keep their order. */
  function Without<T(==,!new)>(s: seq<T>, x: T): (r: seq<T>)
    ensures forall y :: y in r <==> y in s && y != x
    ensures |r| <= |s|
    ensures x !in s ==> r == s
  {
    if s == [] then []
    else
      assert s == s[..|s| - 1] + [s[|s| - 1]];
      if s[|s| - 1] == x then Without(s[..|s| - 1], x)
      else Without(s[..|s| - 1], x) + [s[|s| - 1]]
  }

  lemma {:induction false} WithoutKeepsDistinct<T(!new)>(s: seq<T>, x: T)
    requires Distinct(s)
    ensures Distinct(Without(s, x))
    ensures x in s ==> |Without(s, x)| == |s| - 1
  {
    if s != [] {
      var init, last := s[..|s| - 1], s[|s| - 1];
      WithoutKeepsDistinct(init, x);
      assert s == init + [last] && last !in init;
      assert last !in Without(init, x);
    }
  }

  lemma WithoutOfAppended<T(!new)>(s: seq<T>, y: T, x: T)
    ensures Without(s + [y], x) == Without(s, x) + if y == x then [] else [y]
  {
    assert (s + [y])[..|s|] == s;
  }

  /** Adding every element of `xs`, in order, to the set `s`. */
  function InsertAll<T(==,!new)>(s: seq<T>, xs: seq<T>): (r: seq<T>)
    ensures forall y :: y in r <==> y in s || y in xs
    ensures s <= r
    decreases |xs|
  {
    if xs == [] then s
    else
      assert xs == xs[..|xs| - 1] + [xs[|xs| - 1]];
      Insert(InsertAll(s, xs[..|xs| - 1]), xs[|xs| - 1])
  }

  lemma {:induction false} InsertAllKeepsDistinct<T(!new)>(s: seq<T>, xs: seq<T>)
    requires Distinct(s)
    ensures Distinct(InsertAll(s, xs))
    decreases |xs|
  {
    if xs != [] {
      InsertAllKeepsDistinct(s, xs[..|xs| - 1]);
      InsertKeepsDistinct(InsertAll(s, xs[..|xs| - 1]), xs[|xs| - 1]);
    }
  }

  // ----- Stable descending sort -----

  ghost predicate Descending<T(!new)>(s: seq<T>, key: T -> real) {
    forall i, j :: 0 <= i < j < |s| ==> key(s[i]) >= key(s[j])
  }

  /** Places `x` after the elements with a larger or equal key and before the smaller ones. */
  function Place<T>(s: seq<T>, x: T, key: T -> real): (r: seq<T>)
    ensures |r| == |s| + 1
  {
    if s == [] || key(s[|s| - 1]) >= key(x) then s + [x]
    else Place(s[..|s| - 1], x, key) + [s[|s| - 1]]
  }

  function SortDesc<T>(s: seq<T>, key: T -> real): (r: seq<T>)
    ensures |r| == |s|
  {
    if s == [] then [] else Place(SortDesc(s[..|s| - 1], key), s[|s| - 1], key)
  }

  lemma {:induction false} PlaceKeepsElements<T(!new)>(s: seq<T>, x: T, key: T -> real)
    ensures multiset(Place(s, x, key)) == multiset(s) + multiset{x}
    ensures forall y :: y in Place(s, x, key) <==> y in s || y == x
  {
    if s == [] || key(s[|s| - 1]) >= key(x) {
    } else {
      var init, last := s[..|s| - 1], s[|s| - 1];
      assert s == init + [last];
      PlaceKeepsElements(init, x, key);
    }
  }

  lemma AppendKeepsDescending<T(!new)>(s: seq<T>, x: T, key: T -> real)
    requires Descending(s, key)
    requires forall y :: y in s ==> key(y) >= key(x)
    ensures Descending(s + [x], key)
  {
  }

  lemma LastIsLeast<T(!new)>(s: seq<T>, key: T -> real)
    requires s != [] && Descending(s, key)
    ensures forall y :: y in s ==> key(y) >= key(s[|s| - 1])
  {
    forall y | y in s ensures key(y) >= key(s[|s| - 1]) {
      var i :| 0 <= i < |s| && s[i] == y;
    }
  }

  lemma {:induction false} PlaceIsSorted<T(!new)>(s: seq<T>, x: T, key: T -> real)
    requires Descending(s, key)
    ensures Descending(Place(s, x, key), key)
  {
    if s == [] {
    } else {
      var init, last := s[..|s| - 1], s[|s| - 1];
      LastIsLeast(s, key);
      if key(last) >= key(x) {
        AppendKeepsDescending(s, x, key);
      } else {
        PlaceIsSorted(init, x, key);
        PlaceKeepsElements(init, x, key);
        AppendKeepsDescending(Place(init, x, key), last, key);
      }
    }
  }

  /** The sort returns a descending permutation of its input. */
  lemma {:induction false} SortDescSorts<T(!new)>(s: seq<T>, key: T -> real)
    ensures Descending(SortDesc(s, key), key)
    ensures multiset(SortDesc(s, key)) == multiset(s)
  {
    if s != [] {
      var init, last := s[..|s| - 1], s[|s| - 1];
      SortDescSorts(init, key);
      PlaceIsSorted(SortDesc(init, key), last, key);
      PlaceKeepsElements(SortDesc(init, key), last, key);
      assert s == init + [last];
    }
  }

  /** The elements of `s` whose key is `k`, in order. */
  ghost function WithKey<T>(s: seq<T>, key: T -> real, k: real): seq<T> {
    if s == [] then []
    else if key(s[|s| - 1]) == k then WithKey(s[..|s| - 1], key, k) + [s[|s| - 1]]
    else WithKey(s[..|s| - 1], key, k)
  }

  lemma {:induction false} PlaceIsStable<T(!new)>(s: seq<T>, x: T, key: T -> real, k: real)
    requires Descending(s, key)
    ensures WithKey(Place(s, x, key), key, k) == WithKey(s + [x], key, k)
  {
    assert (s + [x])[..|s|] == s;
    if s == [] || key(s[|s| - 1]) >= key(x) {
    } else {
      var init, last := s[..|s| - 1], s[|s| - 1];
      PlaceIsStable(init, x, key, k);
      var r := Place(init, x, key);
      assert (r + [last])[..|r|] == r;
      assert (init + [x])[..|init|] == init;
    }
  }

  lemma {:induction false} WithKeyLast<T(!new)>(s: seq<T>, t: seq<T>, x: T, key: T -> real, k: real)
    requires WithKey(s, key, k) == WithKey(t, key, k)
    ensures WithKey(s + [x], key, k) == WithKey(t + [x], key, k)
  {
    assert (s + [x])[..|s|] == s;
    assert (t + [x])[..|t|] == t;
  }

  lemma SortOfAppended<T(!new)>(s: seq<T>, x: T, key: T -> real)
    ensures SortDesc(s + [x], key) == Place(SortDesc(s, key), x, key)
  {
    assert (s + [x])[..|s|] == s;
  }

  lemma AppendKeepsStable<T(!new)>(s: seq<T>, x: T, key: T -> real, k: real)
    requires WithKey(SortDesc(s, key), key, k) == WithKey(s, key, k)
    ensures WithKey(SortDesc(s + [x], key), key, k) == WithKey(s + [x], key, k)
  {
    SortOfAppended(s, x, key);
    SortDescSorts(s, key);
    PlaceIsStable(SortDesc(s, key), x, key, k);
    WithKeyLast(SortDesc(s, key), s, x, key, k);
  }

  /** Elements with equal keys keep their input order. */
  lemma {:induction false} SortDescIsStable<T(!new)>(s: seq<T>, key: T -> real, k: real)
    ensures WithKey(SortDesc(s, key), key, k) == WithKey(s, key, k)
  {
    if s == [] {
    } else {
      var init, last := s[..|s| - 1], s[|s| - 1];
      SortDescIsStable(init, key, k);
      AppendKeepsStable(init, last, key, k);
      assert s == init + [last];
    }
  }

  lemma {:induction false} PlaceKeepsDistinct<T(!new)>(s: seq<T>, x: T, key: T -> real)
    requires Distinct(s) && x !in s
    ensures Distinct(Place(s, x, key))
  {
    if s == [] || key(s[|s| - 1]) >= key(x) {
    } else {
      var init, last := s[..|s| - 1], s[|s| - 1];
      PlaceKeepsDistinct(init, x, key);
      PlaceKeepsElements(init, x, key);
      assert last !in Place(init, x, key);
    }
  }

  lemma {:induction false} SortKeepsDistinct<T(!new)>(s: seq<T>, key: T -> real)
    requires Distinct(s)
    ensures Distinct(SortDesc(s, key))
    ensures forall x :: x in SortDesc(s, key) <==> x in s
  {
    if s == [] {
    } else {
      var init, last := s[..|s| - 1], s[|s| - 1];
      assert s == init + [last];
      SortKeepsDistinct(init, key);
      PlaceKeepsDistinct(SortDesc(init, key), last, key);
      PlaceKeepsElements(SortDesc(init, key), last, key);
    }
  }

  lemma {:induction false} DistinctCount<T(!new)>(s: seq<T>)
    requires Distinct(s)
    ensures |set x | x in s| == |s|
  {
    if s == [] {
      assert (set x | x in s) == {};
    } else {
      var init, last := s[..|s| - 1], s[|s| - 1];
      DistinctCount(init);
      assert (set x | x in s) == (set x | x in init) + {last};
    }
  }

  // ----- Filtering loops -----

  /** The indices below `n` that satisfy `keep`: all of them, each once, ascending. */
  function Kept(n: nat, keep: nat -> bool): (r: seq<nat>)
    ensures forall i: int :: i in r <==> 0 <= i < n && keep(i)
    ensures forall k, l :: 0 <= k < l < |r| ==> r[k] < r[l]
  {
    if n == 0 then []
    else
      var before := Kept(n - 1, keep);
      assert forall k :: 0 <= k < |before| ==> before[k] in before;
      if keep(n - 1) then before + [n - 1] else before
  }

  lemma KeptNext(n: nat, keep: nat -> bool)
    ensures Kept(n + 1, keep) == if keep(n) then Kept(n, keep) + [n] else Kept(n, keep)
  {
  }

  lemma SuffixOfAppended<T>(s: seq<T>, from: nat, more: seq<T>)
    requires from <= |s|
    ensures (s + more)[from..] == s[from..] + more
  {
  }
}
