/** Options, list filters and the stable sort that stands for Ruby's `select` and `sort_by`. */
module Sorting {

  datatype Option<+T> = None | Some(value: T)

  function Filter<T(!new)>(xs: seq<T>, keep: T -> bool): (r: seq<T>)
    ensures forall x :: x in r <==> x in xs && keep(x)
    ensures |r| <= |xs|
  {
    if xs == [] then []
    else if keep(xs[0]) then [xs[0]] + Filter(xs[1..], keep)
    else Filter(xs[1..], keep)
  }

  /** A sort key of up to three components, compared lexicographically as Ruby compares arrays. */
  datatype Rank = Rank(first: int, second: int, third: int)

  predicate Le(a: Rank, b: Rank) {
    a.first < b.first || (a.first == b.first &&
                          (a.second < b.second || (a.second == b.second && a.third <= b.third)))
  }

  /** Puts `x` before the first element that is not ranked below it, so ties keep their order. */
  function Insert<T(!new)>(x: T, xs: seq<T>, key: T -> Rank): seq<T> {
    if xs == [] then [x]
    else if Le(key(x), key(xs[0])) then [x] + xs
    else [xs[0]] + Insert(x, xs[1..], key)
  }

  function SortBy<T(!new)>(xs: seq<T>, key: T -> Rank): seq<T> {
    if xs == [] then [] else Insert(xs[0], SortBy(xs[1..], key), key)
  }

  ghost predicate Sorted<T(!new)>(xs: seq<T>, key: T -> Rank) {
    forall i, j :: 0 <= i < j < |xs| ==> Le(key(xs[i]), key(xs[j]))
  }

  lemma {:induction false} InsertPermutes<T(!new)>(x: T, xs: seq<T>, key: T -> Rank)
    ensures multiset(Insert(x, xs, key)) == multiset(xs) + multiset{x}
  {
    if xs != [] {
      InsertPermutes(x, xs[1..], key);
      assert xs == [xs[0]] + xs[1..];
    }
  }

  lemma {:induction false} InsertSorts<T(!new)>(x: T, xs: seq<T>, key: T -> Rank)
    requires Sorted(xs, key)
    ensures Sorted(Insert(x, xs, key), key)
  {
    if xs != [] && !Le(key(x), key(xs[0])) {
      var tail := xs[1..];
      InsertSorts(x, tail, key);
      InsertPermutes(x, tail, key);
      var rest := Insert(x, tail, key);
      forall j | 0 <= j < |rest| ensures Le(key(xs[0]), key(rest[j])) {
        assert rest[j] in multiset(rest);
        assert rest[j] in multiset(tail) + multiset{x};
        assert rest[j] == x || rest[j] in tail;
      }
      SortedCons(xs[0], rest, key);
    } else if xs != [] {
      SortedCons(x, xs, key);
    }
  }

  lemma SortedCons<T(!new)>(x: T, xs: seq<T>, key: T -> Rank)
    requires Sorted(xs, key)
    requires forall j :: 0 <= j < |xs| ==> Le(key(x), key(xs[j])) || (j > 0 && Le(key(x), key(xs[0])))
    ensures Sorted([x] + xs, key)
  {
    var ys := [x] + xs;
    forall i, j | 0 <= i < j < |ys| ensures Le(key(ys[i]), key(ys[j])) {
      if i == 0 {
        assert ys[j] == xs[j - 1];
        assert Le(key(xs[0]), key(xs[j - 1]));
      } else {
        assert ys[i] == xs[i - 1] && ys[j] == xs[j - 1];
      }
    }
  }

  lemma {:induction false} SortPermutes<T(!new)>(xs: seq<T>, key: T -> Rank)
    ensures multiset(SortBy(xs, key)) == multiset(xs)
  {
    if xs != [] {
      SortPermutes(xs[1..], key);
      InsertPermutes(xs[0], SortBy(xs[1..], key), key);
      assert xs == [xs[0]] + xs[1..];
    }
  }

  lemma {:induction false} SortOrders<T(!new)>(xs: seq<T>, key: T -> Rank)
    ensures Sorted(SortBy(xs, key), key)
  {
    if xs != [] {
      SortOrders(xs[1..], key);
      InsertSorts(xs[0], SortBy(xs[1..], key), key);
    }
  }

  /** Sorting is a permutation that puts the keys in order. */
  lemma SortSorts<T(!new)>(xs: seq<T>, key: T -> Rank)
    ensures Sorted(SortBy(xs, key), key)
    ensures multiset(SortBy(xs, key)) == multiset(xs)
    ensures |SortBy(xs, key)| == |xs|
    ensures forall x :: x in SortBy(xs, key) <==> x in xs
  {
    SortPermutes(xs, key);
    SortOrders(xs, key);
    assert |multiset(SortBy(xs, key))| == |multiset(xs)|;
    forall x ensures x in SortBy(xs, key) <==> x in xs {
      assert x in multiset(SortBy(xs, key)) <==> x in multiset(xs);
    }
  }

  lemma {:induction false} FilterEmpty<T(!new)>(xs: seq<T>, keep: T -> bool)
    requires forall x :: x in xs ==> !keep(x)
    ensures Filter(xs, keep) == []
  {
    if xs != [] {
      FilterEmpty(xs[1..], keep);
    }
  }

  lemma {:induction false} FilterAppend<T(!new)>(xs: seq<T>, ys: seq<T>, keep: T -> bool)
    ensures Filter(xs + ys, keep) == Filter(xs, keep) + Filter(ys, keep)
  {
    if xs == [] {
      assert xs + ys == ys;
    } else {
      assert (xs + ys)[1..] == xs[1..] + ys;
      FilterAppend(xs[1..], ys, keep);
    }
  }

  lemma {:induction false} InsertFilter<T(!new)>(x: T, xs: seq<T>, key: T -> Rank, keep: T -> bool)
    requires Sorted(xs, key)
    ensures Filter(Insert(x, xs, key), keep) ==
            if keep(x) then Insert(x, Filter(xs, keep), key) else Filter(xs, keep)
  {
    if xs == [] {
    } else if Le(key(x), key(xs[0])) {
      var ys := Filter(xs, keep);
      assert ([x] + xs)[1..] == xs;
      if ys != [] {
        assert ys[0] in xs;
        assert Le(key(x), key(ys[0]));
      }
    } else {
      InsertFilter(x, xs[1..], key, keep);
      assert ([xs[0]] + Insert(x, xs[1..], key))[1..] == Insert(x, xs[1..], key);
    }
  }

  /** Dropping elements from a sorted list gives what sorting the survivors would give. */
  lemma {:induction false} SortFilter<T(!new)>(xs: seq<T>, key: T -> Rank, keep: T -> bool)
    ensures SortBy(Filter(xs, keep), key) == Filter(SortBy(xs, key), keep)
  {
    if xs != [] {
      SortFilter(xs[1..], key, keep);
      SortSorts(xs[1..], key);
      InsertFilter(xs[0], SortBy(xs[1..], key), key, keep);
    }
  }

  lemma {:induction false} FilterAll<T(!new)>(xs: seq<T>, keep: T -> bool)
    requires forall x :: x in xs ==> keep(x)
    ensures Filter(xs, keep) == xs
  {
    if xs != [] {
      FilterAll(xs[1..], keep);
    }
  }

  lemma {:induction false} FilterFuse<T(!new)>(xs: seq<T>, f: T -> bool, g: T -> bool, h: T -> bool)
    requires forall x :: x in xs ==> (h(x) <==> f(x) && g(x))
    ensures Filter(Filter(xs, f), g) == Filter(xs, h)
  {
    if xs != [] {
      FilterFuse(xs[1..], f, g, h);
    }
  }

  lemma {:induction false} FilterAgree<T(!new)>(xs: seq<T>, ys: seq<T>, keep: T -> bool)
    requires |xs| == |ys|
    requires forall i :: 0 <= i < |xs| ==> xs[i] == ys[i] || (!keep(xs[i]) && !keep(ys[i]))
    ensures Filter(xs, keep) == Filter(ys, keep)
  {
    if xs != [] {
      FilterAgree(xs[1..], ys[1..], keep);
    }
  }

  lemma {:induction false} FilterSorted<T(!new)>(xs: seq<T>, key: T -> Rank, keep: T -> bool)
    requires Sorted(xs, key)
    ensures Sorted(Filter(xs, keep), key)
  {
    if xs != [] {
      FilterSorted(xs[1..], key, keep);
      var rest := Filter(xs[1..], keep);
      forall j | 0 <= j < |rest| ensures Le(key(xs[0]), key(rest[j])) {
        assert rest[j] in xs[1..];
      }
      if keep(xs[0]) {
        SortedCons(xs[0], rest, key);
      }
    }
  }

  lemma {:induction false} SortedStays<T(!new)>(xs: seq<T>, key: T -> Rank)
    requires Sorted(xs, key)
    ensures SortBy(xs, key) == xs
  {
    if xs != [] {
      SortedStays(xs[1..], key);
      assert xs == [xs[0]] + xs[1..];
    }
  }

  /** The first element of a filtered list is the first that passes. */
  lemma {:induction false} FilterFirst<T(!new)>(xs: seq<T>, keep: T -> bool) returns (j: nat)
    requires Filter(xs, keep) != []
    ensures j < |xs| && xs[j] == Filter(xs, keep)[0] && keep(xs[j]) && forall k :: 0 <= k < j ==> !keep(xs[k])
  {
    if keep(xs[0]) {
      j := 0;
    } else {
      j := FilterFirst(xs[1..], keep);
      j := j + 1;
    }
  }
}
