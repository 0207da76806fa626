/** Sums, filters and the stable sort shared by the other modules. */
module Basics {

  datatype Option<+T> = None | Some(value: T)

  datatype Result<+T, +E> = Ok(value: T) | Err(error: E)

  function Pos(x: real): real {
    if x > 0.0 then x else 0.0
  }

  function Min(x: real, y: real): real {
    if x < y then x else y
  }

  function Max(x: real, y: real): real {
    if x < y then y else x
  }

  // ----- sums -----

  /** The sum of f over s. */
  function SumBy<T>(s: seq<T>, f: T -> real): real {
    if s == [] then 0.0 else SumBy(s[..|s| - 1], f) + f(s[|s| - 1])
  }

  lemma {:induction false} SumSnoc<T>(s: seq<T>, x: T, f: T -> real)
    ensures SumBy(s + [x], f) == SumBy(s, f) + f(x)
  {
    assert (s + [x])[..|s|] == s;
  }

  lemma {:induction false} SumOne<T>(x: T, f: T -> real)
    ensures SumBy([x], f) == f(x)
  {
    assert [x] == [] + [x];
    SumSnoc([], x, f);
  }

  lemma {:induction false} SumStep<T>(s: seq<T>, i: nat, f: T -> real)
    requires i < |s|
    ensures SumBy(s[..i + 1], f) == SumBy(s[..i], f) + f(s[i])
  {
    assert s[..i + 1][..i] == s[..i];
  }

  lemma {:induction false} SumConcat<T>(s: seq<T>, t: seq<T>, f: T -> real)
    ensures SumBy(s + t, f) == SumBy(s, f) + SumBy(t, f)
  {
    if t == [] {
      assert s + t == s;
    } else {
      assert (s + t)[..|s + t| - 1] == s + t[..|t| - 1];
      SumConcat(s, t[..|t| - 1], f);
    }
  }

  lemma {:induction false} SumAgree<T>(s: seq<T>, f: T -> real, g: T -> real)
    requires forall x :: x in s ==> f(x) == g(x)
    ensures SumBy(s, f) == SumBy(s, g)
  {
    if s != [] {
      assert s[|s| - 1] in s;
      SumAgree(s[..|s| - 1], f, g);
    }
  }

  /** Sums are linear: the sum of f + g is the sum of f plus the sum of g. */
  lemma {:induction false} SumPlus<T>(s: seq<T>, f: T -> real, g: T -> real, h: T -> real)
    requires forall x :: x in s ==> h(x) == f(x) + g(x)
    ensures SumBy(s, h) == SumBy(s, f) + SumBy(s, g)
  {
    if s != [] {
      assert s[|s| - 1] in s;
      SumPlus(s[..|s| - 1], f, g, h);
    }
  }

  lemma {:induction false} SumNegated<T>(s: seq<T>, f: T -> real, g: T -> real)
    requires forall x :: x in s ==> g(x) == -f(x)
    ensures SumBy(s, g) == -SumBy(s, f)
  {
    if s != [] {
      assert s[|s| - 1] in s;
      SumNegated(s[..|s| - 1], f, g);
    }
  }

  lemma {:induction false} SumZero<T>(s: seq<T>, f: T -> real)
    requires forall x :: x in s ==> f(x) == 0.0
    ensures SumBy(s, f) == 0.0
  {
    if s != [] {
      assert s[|s| - 1] in s;
      SumZero(s[..|s| - 1], f);
    }
  }

  lemma {:induction false} SumNonNegative<T>(s: seq<T>, f: T -> real)
    requires forall x :: x in s ==> f(x) >= 0.0
    ensures SumBy(s, f) >= 0.0
  {
    if s != [] {
      assert s[|s| - 1] in s;
      SumNonNegative(s[..|s| - 1], f);
    }
  }

  /** Taking one element out of the middle takes its value out of the sum. */
  lemma {:induction false} SumWithout<T>(s: seq<T>, i: nat, f: T -> real)
    requires i < |s|
    ensures SumBy(s, f) == SumBy(s[..i] + s[i + 1..], f) + f(s[i])
  {
    assert s == s[..i] + ([s[i]] + s[i + 1..]);
    SumConcat(s[..i], [s[i]] + s[i + 1..], f);
    SumConcat([s[i]], s[i + 1..], f);
    SumSnoc([], s[i], f);
    assert [] + [s[i]] == [s[i]];
    SumConcat(s[..i], s[i + 1..], f);
  }

  lemma {:induction false} TakeOut<T>(s: seq<T>, t: seq<T>) returns (i: nat)
    requires s != [] && multiset(s) == multiset(t)
    ensures i < |t| && t[i] == s[|s| - 1]
    ensures multiset(s[..|s| - 1]) == multiset(t[..i] + t[i + 1..])
  {
    var x := s[|s| - 1];
    assert s == s[..|s| - 1] + [x];
    assert multiset(s[..|s| - 1]) == multiset(s) - multiset{x};
    assert x in multiset(t);
    i :| 0 <= i < |t| && t[i] == x;
    assert t == t[..i] + [t[i]] + t[i + 1..];
    assert multiset(t[..i] + t[i + 1..]) == multiset(t) - multiset{x};
  }

  /** A sum does not depend on the order of its terms. */
  lemma {:induction false} SumPermuted<T>(s: seq<T>, t: seq<T>, f: T -> real)
    requires multiset(s) == multiset(t)
    ensures SumBy(s, f) == SumBy(t, f)
    decreases |s|
  {
    if s == [] {
      assert |t| == |multiset(t)|;
    } else {
      var i := TakeOut(s, t);
      SumPermuted(s[..|s| - 1], t[..i] + t[i + 1..], f);
      SumWithout(t, i, f);
    }
  }

  // ----- filters -----

  /** The elements of s that satisfy p, in order. */
  function Filter<T(!new)>(s: seq<T>, p: T -> bool): (r: seq<T>)
    ensures |r| <= |s|
    ensures forall x :: x in r <==> x in s && p(x)
  {
    if s == [] then
      []
    else
      var rest := Filter(s[..|s| - 1], p);
      assert s == s[..|s| - 1] + [s[|s| - 1]];
      if p(s[|s| - 1]) then rest + [s[|s| - 1]] else rest
  }

  lemma {:induction false} FilterStep<T(!new)>(s: seq<T>, i: nat, p: T -> bool)
    requires i < |s|
    ensures Filter(s[..i + 1], p) == if p(s[i]) then Filter(s[..i], p) + [s[i]] else Filter(s[..i], p)
  {
    assert s[..i + 1][..i] == s[..i];
  }

  lemma {:induction false} FilterAll<T(!new)>(s: seq<T>, p: T -> bool)
    requires forall x :: x in s ==> p(x)
    ensures Filter(s, p) == s
  {
    if s != [] {
      assert s[|s| - 1] in s;
      FilterAll(s[..|s| - 1], p);
      assert s == s[..|s| - 1] + [s[|s| - 1]];
    }
  }

  lemma {:induction false} FilterNone<T(!new)>(s: seq<T>, p: T -> bool)
    requires forall x :: x in s ==> !p(x)
    ensures Filter(s, p) == []
  {
    if s != [] {
      assert s[|s| - 1] in s;
      FilterNone(s[..|s| - 1], p);
    }
  }

  lemma {:induction false} FilterConcat<T(!new)>(s: seq<T>, t: seq<T>, p: T -> bool)
    ensures Filter(s + t, p) == Filter(s, p) + Filter(t, p)
  {
    if t == [] {
      assert s + t == s;
    } else {
      assert (s + t)[..|s + t| - 1] == s + t[..|t| - 1];
      FilterConcat(s, t[..|t| - 1], p);
    }
  }

  /** A sum may drop the elements that contribute nothing. */
  lemma {:induction false} SumFiltered<T(!new)>(s: seq<T>, p: T -> bool, f: T -> real)
    requires forall x :: x in s && !p(x) ==> f(x) == 0.0
    ensures SumBy(Filter(s, p), f) == SumBy(s, f)
  {
    if s != [] {
      assert s[|s| - 1] in s;
      SumFiltered(s[..|s| - 1], p, f);
      SumSnoc(Filter(s[..|s| - 1], p), s[|s| - 1], f);
    }
  }

  // ----- the stable sort -----

  /** The keys of s never fall from one element to the next. */
  ghost predicate SortedBy<T>(s: seq<T>, key: T -> int) {
    |s| <= 1 || (SortedBy(s[..|s| - 1], key) && key(s[|s| - 2]) <= key(s[|s| - 1]))
  }

  lemma {:induction false} Adjacent<T>(s: seq<T>, key: T -> int)
    requires forall i {:trigger s[i]} :: 0 < i < |s| ==> key(s[i - 1]) <= key(s[i])
    ensures SortedBy(s, key)
  {
    if |s| > 1 {
      Adjacent(s[..|s| - 1], key);
    }
  }

  lemma {:induction false} InOrder<T>(s: seq<T>, key: T -> int, i: nat, j: nat)
    requires SortedBy(s, key) && i <= j < |s|
    ensures key(s[i]) <= key(s[j])
  {
    if i < j {
      if j < |s| - 1 {
        InOrder(s[..|s| - 1], key, i, j);
      } else {
        InOrder(s[..|s| - 1], key, i, j - 1);
      }
    }
  }

  /** Puts x behind the last element whose key is not above its own. */
  function InsertBehind<T>(s: seq<T>, x: T, key: T -> int): seq<T> {
    if s == [] || key(s[|s| - 1]) <= key(x) then
      s + [x]
    else
      InsertBehind(s[..|s| - 1], x, key) + [s[|s| - 1]]
  }

  /** The library's stable sort on an integer key. */
  function StableSort<T>(s: seq<T>, key: T -> int): seq<T> {
    if s == [] then [] else InsertBehind(StableSort(s[..|s| - 1], key), s[|s| - 1], key)
  }

  lemma {:induction false} InsertBehindHas<T>(s: seq<T>, x: T, key: T -> int)
    ensures multiset(InsertBehind(s, x, key)) == multiset(s) + multiset{x}
  {
    if s != [] && key(s[|s| - 1]) > key(x) {
      InsertBehindHas(s[..|s| - 1], x, key);
      assert s == s[..|s| - 1] + [s[|s| - 1]];
    }
  }

  lemma {:induction false} InsertBehindEnds<T>(s: seq<T>, x: T, key: T -> int)
    ensures var r := InsertBehind(s, x, key);
            r != [] && r[|r| - 1] == if s == [] || key(s[|s| - 1]) <= key(x) then x else s[|s| - 1]
  {
  }

  lemma {:induction false} SortedAppend<T>(s: seq<T>, x: T, key: T -> int)
    requires SortedBy(s, key) && (s != [] ==> key(s[|s| - 1]) <= key(x))
    ensures SortedBy(s + [x], key)
  {
    assert (s + [x])[..|s|] == s;
  }

  lemma {:induction false} InsertBehindSorts<T>(s: seq<T>, x: T, key: T -> int)
    requires SortedBy(s, key)
    ensures SortedBy(InsertBehind(s, x, key), key)
  {
    if s == [] || key(s[|s| - 1]) <= key(x) {
      SortedAppend(s, x, key);
    } else {
      var front, last := s[..|s| - 1], s[|s| - 1];
      InsertBehindSorts(front, x, key);
      InsertBehindEnds(front, x, key);
      SortedAppend(InsertBehind(front, x, key), last, key);
    }
  }

  /** StableSort sorts, and permutes. */
  lemma {:induction false} StableSortSorts<T>(s: seq<T>, key: T -> int)
    ensures SortedBy(StableSort(s, key), key)
    ensures multiset(StableSort(s, key)) == multiset(s)
  {
    if s != [] {
      StableSortSorts(s[..|s| - 1], key);
      assert s == s[..|s| - 1] + [s[|s| - 1]];
      InsertBehindSorts(StableSort(s[..|s| - 1], key), s[|s| - 1], key);
      InsertBehindHas(StableSort(s[..|s| - 1], key), s[|s| - 1], key);
    }
  }

  lemma {:induction false} StableSortHas<T(!new)>(s: seq<T>, key: T -> int)
    ensures forall x :: x in StableSort(s, key) <==> x in s
    ensures |StableSort(s, key)| == |s|
  {
    StableSortSorts(s, key);
    assert forall x :: x in StableSort(s, key) <==> x in multiset(StableSort(s, key));
    assert |StableSort(s, key)| == |multiset(StableSort(s, key))|;
  }

  lemma {:induction false} FilterSnoc<T(!new)>(s: seq<T>, x: T, p: T -> bool)
    ensures Filter(s + [x], p) == if p(x) then Filter(s, p) + [x] else Filter(s, p)
  {
    assert (s + [x])[..|s|] == s;
  }

  lemma {:induction false} FilterSorted<T(!new)>(s: seq<T>, p: T -> bool, key: T -> int)
    requires SortedBy(s, key)
    ensures SortedBy(Filter(s, p), key)
    ensures Filter(s, p) != [] ==> key(Filter(s, p)[|Filter(s, p)| - 1]) <= key(s[|s| - 1])
  {
    if s != [] {
      var front, last := s[..|s| - 1], s[|s| - 1];
      FilterSorted(front, p, key);
      var r := Filter(front, p);
      if r != [] {
        assert front[|front| - 1] == s[|s| - 2];
      }
      assert (r + [last])[..|r|] == r;
    }
  }

  lemma {:induction false} InsertBehindAppends<T>(s: seq<T>, last: T, x: T, key: T -> int)
    ensures InsertBehind(s + [last], x, key)
         == if key(last) <= key(x) then s + [last] + [x] else InsertBehind(s, x, key) + [last]
  {
    assert (s + [last])[..|s|] == s;
  }

  lemma {:induction false} InsertBehindFilter<T(!new)>(s: seq<T>, x: T, key: T -> int, p: T -> bool)
    requires SortedBy(s, key)
    ensures Filter(InsertBehind(s, x, key), p) == if p(x) then InsertBehind(Filter(s, p), x, key) else Filter(s, p)
  {
    if s == [] || key(s[|s| - 1]) <= key(x) {
      FilterSnoc(s, x, p);
      FilterSorted(s, p, key);
    } else {
      var front, last := s[..|s| - 1], s[|s| - 1];
      InsertBehindFilter(front, x, key, p);
      FilterSnoc(InsertBehind(front, x, key), last, p);
      InsertBehindAppends(Filter(front, p), last, x, key);
    }
  }

  /** Stability: what a property picks out of the sorted sequence is what it picks out, sorted. */
  lemma {:induction false} StableSortFilter<T(!new)>(s: seq<T>, key: T -> int, p: T -> bool)
    ensures Filter(StableSort(s, key), p) == StableSort(Filter(s, p), key)
  {
    if s != [] {
      var front, last := s[..|s| - 1], s[|s| - 1];
      StableSortFilter(front, key, p);
      StableSortSorts(front, key);
      InsertBehindFilter(StableSort(front, key), last, key, p);
      if p(last) {
        assert (Filter(front, p) + [last])[..|Filter(front, p)|] == Filter(front, p);
      }
    }
  }

  /** Sorting a sorted sequence changes nothing. */
  lemma {:induction false} StableSortSorted<T(!new)>(s: seq<T>, key: T -> int)
    requires SortedBy(s, key)
    ensures StableSort(s, key) == s
  {
    if s != [] {
      StableSortSorted(s[..|s| - 1], key);
      assert s == s[..|s| - 1] + [s[|s| - 1]];
    }
  }

  // ----- distinct elements -----

  ghost predicate Distinct<T>(s: seq<T>) {
    s == [] || (s[|s| - 1] !in s[..|s| - 1] && Distinct(s[..|s| - 1]))
  }

  lemma {:induction false} DistinctAppend<T>(s: seq<T>, x: T)
    requires Distinct(s) && x !in s
    ensures Distinct(s + [x])
  {
    assert (s + [x])[..|s|] == s;
  }

  lemma {:induction false} DistinctAt<T>(s: seq<T>, i: nat, j: nat)
    requires Distinct(s) && i < j < |s|
    ensures s[i] != s[j]
  {
    if j < |s| - 1 {
      DistinctAt(s[..|s| - 1], i, j);
    } else {
      assert s[i] in s[..j];
    }
  }

  lemma {:induction false} DistinctIndex<T>(s: seq<T>, k: nat, l: nat)
    requires Distinct(s) && k < |s| && l < |s|
    ensures s[k] == s[l] <==> k == l
  {
    if k < l {
      DistinctAt(s, k, l);
    } else if l < k {
      DistinctAt(s, l, k);
    }
  }

  lemma {:induction false} InsertBehindDistinct<T(!new)>(s: seq<T>, x: T, key: T -> int)
    requires Distinct(s) && x !in s
    ensures Distinct(InsertBehind(s, x, key))
    ensures forall y :: y in InsertBehind(s, x, key) <==> y in s || y == x
  {
    if s == [] || key(s[|s| - 1]) <= key(x) {
      assert (s + [x])[..|s|] == s;
    } else {
      var front, last := s[..|s| - 1], s[|s| - 1];
      InsertBehindDistinct(front, x, key);
      var r := InsertBehind(front, x, key);
      assert (r + [last])[..|r|] == r;
      assert s == front + [last];
    }
  }

  lemma {:induction false} StableSortDistinct<T(!new)>(s: seq<T>, key: T -> int)
    requires Distinct(s)
    ensures Distinct(StableSort(s, key))
  {
    if s != [] {
      StableSortDistinct(s[..|s| - 1], key);
      StableSortHas(s[..|s| - 1], key);
      InsertBehindDistinct(StableSort(s[..|s| - 1], key), s[|s| - 1], key);
    }
  }

  // ----- sorting by several keys -----

  /** Any earlier element stands in the relation to any later one. */
  ghost predicate Pairwise<T(!new)>(s: seq<T>, r: (T, T) -> bool) {
    s == [] || (Pairwise(s[..|s| - 1], r) && ToLast(s, r))
  }

  ghost predicate ToLast<T(!new)>(s: seq<T>, r: (T, T) -> bool)
    requires s != []
  {
    forall i {:trigger s[i]} :: 0 <= i < |s| - 1 ==> r(s[i], s[|s| - 1])
  }

  /** First by the key, then by the relation. */
  function By<T>(key: T -> int, r: (T, T) -> bool): (T, T) -> bool {
    (x: T, y: T) => key(x) < key(y) || (key(x) == key(y) && r(x, y))
  }

  function Always<T>(): (T, T) -> bool {
    (x: T, y: T) => true
  }

  lemma {:induction false} PairwiseAt<T(!new)>(s: seq<T>, r: (T, T) -> bool, i: nat, j: nat)
    requires Pairwise(s, r) && i < j < |s|
    ensures r(s[i], s[j])
  {
    if j < |s| - 1 {
      PairwiseAt(s[..|s| - 1], r, i, j);
    }
  }

  lemma {:induction false} PairwiseSnoc<T(!new)>(s: seq<T>, x: T, r: (T, T) -> bool)
    requires Pairwise(s, r) && forall i {:trigger s[i]} :: 0 <= i < |s| ==> r(s[i], x)
    ensures Pairwise(s + [x], r)
  {
    assert (s + [x])[..|s|] == s;
  }

  lemma {:induction false} AnyOrder<T(!new)>(s: seq<T>)
    ensures Pairwise(s, Always())
  {
    if s != [] {
      AnyOrder(s[..|s| - 1]);
    }
  }

  lemma {:induction false} InsertBehindPairwise<T(!new)>(s: seq<T>, x: T, key: T -> int, r: (T, T) -> bool)
    requires SortedBy(s, key) && Pairwise(s, By(key, r)) && forall i {:trigger s[i]} :: 0 <= i < |s| ==> r(s[i], x)
    ensures Pairwise(InsertBehind(s, x, key), By(key, r))
  {
    if s == [] || key(s[|s| - 1]) <= key(x) {
      forall i | 0 <= i < |s|
        ensures By(key, r)(s[i], x)
      {
        InOrder(s, key, i, |s| - 1);
      }
      PairwiseSnoc(s, x, By(key, r));
    } else {
      var front, last := s[..|s| - 1], s[|s| - 1];
      InsertBehindPairwise(front, x, key, r);
      var after := InsertBehind(front, x, key);
      InsertBehindHas(front, x, key);
      forall i | 0 <= i < |after|
        ensures By(key, r)(after[i], last)
      {
        assert after[i] in multiset(after);
        if after[i] != x {
          assert after[i] in front;
          var k :| 0 <= k < |front| && front[k] == after[i];
          PairwiseAt(s, By(key, r), k, |s| - 1);
        }
      }
      PairwiseSnoc(after, last, By(key, r));
    }
  }

  /** A stable sort by one key of what is ordered by a relation is ordered by the key, then the relation. */
  lemma {:induction false} StableSortPairwise<T(!new)>(s: seq<T>, key: T -> int, r: (T, T) -> bool)
    requires Pairwise(s, r)
    ensures Pairwise(StableSort(s, key), By(key, r))
  {
    if s != [] {
      var front, last := s[..|s| - 1], s[|s| - 1];
      StableSortPairwise(front, key, r);
      StableSortSorts(front, key);
      StableSortHas(front, key);
      var sorted := StableSort(front, key);
      forall i | 0 <= i < |sorted|
        ensures r(sorted[i], last)
      {
        assert sorted[i] in front;
        var k :| 0 <= k < |front| && front[k] == sorted[i];
        assert r(s[k], s[|s| - 1]);
      }
      InsertBehindPairwise(sorted, last, key, r);
    }
  }

  /** Elements that p picks out and that have one key keep their order. */
  lemma {:induction false} StableSortTies<T(!new)>(s: seq<T>, key: T -> int, p: T -> bool, k: int)
    requires forall x :: p(x) ==> key(x) == k
    ensures Filter(StableSort(s, key), p) == Filter(s, p)
  {
    StableSortFilter(s, key, p);
    OneKeySorted(Filter(s, p), key, k);
    StableSortSorted(Filter(s, p), key);
  }

  lemma {:induction false} OneKeySorted<T(!new)>(s: seq<T>, key: T -> int, k: int)
    requires forall x :: x in s ==> key(x) == k
    ensures SortedBy(s, key)
  {
    if |s| > 1 {
      assert s[|s| - 1] in s && s[|s| - 2] in s;
      OneKeySorted(s[..|s| - 1], key, k);
    }
  }

  /** The library's stable sort with a comparison of two keys, the second deciding ties of the first. */
  function SortBy2<T>(s: seq<T>, first: T -> int, second: T -> int): seq<T> {
    StableSort(StableSort(s, second), first)
  }

  /** The same with three keys. */
  function SortBy3<T>(s: seq<T>, first: T -> int, second: T -> int, third: T -> int): seq<T> {
    StableSort(SortBy2(s, second, third), first)
  }

  lemma {:induction false} SortBy2Sorts<T(!new)>(s: seq<T>, first: T -> int, second: T -> int)
    ensures Pairwise(SortBy2(s, first, second), By(first, By(second, Always())))
    ensures multiset(SortBy2(s, first, second)) == multiset(s)
  {
    AnyOrder(s);
    StableSortPairwise(s, second, Always());
    StableSortPairwise(StableSort(s, second), first, By(second, Always()));
    StableSortSorts(s, second);
    StableSortSorts(StableSort(s, second), first);
  }

  /** Sorted by three keys, a permutation, and elements alike in all three keep their order. */
  lemma {:induction false} SortBy3Sorts<T(!new)>(s: seq<T>, first: T -> int, second: T -> int, third: T -> int)
    ensures Pairwise(SortBy3(s, first, second, third), By(first, By(second, By(third, Always()))))
    ensures multiset(SortBy3(s, first, second, third)) == multiset(s)
  {
    SortBy2Sorts(s, second, third);
    StableSortPairwise(SortBy2(s, second, third), first, By(second, By(third, Always())));
    StableSortSorts(SortBy2(s, second, third), first);
  }

  function Alike<T>(first: T -> int, second: T -> int, third: T -> int, x: T): T -> bool {
    (y: T) => first(y) == first(x) && second(y) == second(x) && third(y) == third(x)
  }

  lemma {:induction false} SortBy3Stable<T(!new)>(s: seq<T>, first: T -> int, second: T -> int, third: T -> int, x: T)
    ensures Filter(SortBy3(s, first, second, third), Alike(first, second, third, x)) ==
            Filter(s, Alike(first, second, third, x))
  {
    var p := Alike(first, second, third, x);
    StableSortTies(s, third, p, third(x));
    StableSortTies(StableSort(s, third), second, p, second(x));
    StableSortTies(SortBy2(s, second, third), first, p, first(x));
  }

  // ----- maps over sequences -----

  function MapSeq<T, U>(s: seq<T>, f: T -> U): (r: seq<U>)
    ensures |r| == |s| && forall i :: 0 <= i < |s| ==> r[i] == f(s[i])
  {
    if s == [] then [] else MapSeq(s[..|s| - 1], f) + [f(s[|s| - 1])]
  }

  lemma {:induction false} InsertBehindMap<T>(s: seq<T>, x: T, key: T -> int, f: T -> T)
    requires forall y :: key(f(y)) == key(y)
    ensures InsertBehind(MapSeq(s, f), f(x), key) == MapSeq(InsertBehind(s, x, key), f)
  {
    if s == [] || key(s[|s| - 1]) <= key(x) {
      assert (s + [x])[..|s|] == s;
    } else {
      InsertBehindMap(s[..|s| - 1], x, key, f);
      var r := InsertBehind(s[..|s| - 1], x, key);
      assert (r + [s[|s| - 1]])[..|r|] == r;
      assert MapSeq(s, f)[..|s| - 1] == MapSeq(s[..|s| - 1], f);
    }
  }

  /** A stable sort commutes with a map that keeps the key. */
  lemma {:induction false} StableSortMap<T>(s: seq<T>, key: T -> int, f: T -> T)
    requires forall y :: key(f(y)) == key(y)
    ensures StableSort(MapSeq(s, f), key) == MapSeq(StableSort(s, key), f)
  {
    if s != [] {
      StableSortMap(s[..|s| - 1], key, f);
      InsertBehindMap(StableSort(s[..|s| - 1], key), s[|s| - 1], key, f);
      assert MapSeq(s, f)[..|s| - 1] == MapSeq(s[..|s| - 1], f);
    }
  }
}
