/**
 * Filtering and a stable insertion sort over sequences, shared by the
 * reservation table (`ORDER BY`) and the "my reservations" screen
 * (`List.sort`, which is stable).
 */
module Seqs {

  /** The elements of `s` that satisfy `p`, in their original order. */
  function Filter<T(!new)>(s: seq<T>, p: T -> bool): (r: seq<T>)
    ensures |r| <= |s|
    decreases |s|
  {
    if |s| == 0 then [] else (if p(s[0]) then [s[0]] else []) + Filter(s[1..], p)
  }

  /** An element is kept exactly when it occurs and satisfies `p`. */
  lemma {:induction false} FilterMembership<T(!new)>(s: seq<T>, p: T -> bool, x: T)
    ensures x in Filter(s, p) <==> x in s && p(x)
    decreases |s|
  {
    if |s| > 0 {
      FilterMembership(s[1..], p, x);
      assert s == [s[0]] + s[1..];
    }
  }

  lemma {:induction false} FilterConcat<T(!new)>(a: seq<T>, b: seq<T>, p: T -> bool)
    ensures Filter(a + b, p) == Filter(a, p) + Filter(b, p)
    decreases |a|
  {
    if |a| == 0 {
      assert a + b == b;
    } else {
      var head := if p(a[0]) then [a[0]] else [];
      assert (a + b)[0] == a[0];
      assert (a + b)[1..] == a[1..] + b;
      assert Filter(a + b, p) == head + Filter(a[1..] + b, p);
      FilterConcat(a[1..], b, p);
      assert Filter(a, p) == head + Filter(a[1..], p);
    }
  }

  /** Filtering keeps every occurrence of an accepted element and drops all others. */
  lemma {:induction false} FilterMultiset<T(!new)>(s: seq<T>, p: T -> bool, x: T)
    ensures multiset(Filter(s, p))[x] == if p(x) then multiset(s)[x] else 0
    decreases |s|
  {
    if |s| > 0 {
      FilterMultiset(s[1..], p, x);
      assert s == [s[0]] + s[1..];
    }
  }

  /** Two predicates that agree on the elements of `s` select the same subsequence. */
  lemma {:induction false} FilterAgree<T(!new)>(s: seq<T>, p: T -> bool, q: T -> bool)
    requires forall x :: x in s ==> p(x) == q(x)
    ensures Filter(s, p) == Filter(s, q)
    decreases |s|
  {
    if |s| > 0 {
      FilterAgree(s[1..], p, q);
    }
  }

  /** Filtering shortens a sequence exactly when it holds an element the filter rejects. */
  lemma {:induction false} FilterShorter<T(!new)>(s: seq<T>, p: T -> bool)
    ensures |Filter(s, p)| < |s| <==> exists x :: x in s && !p(x)
    decreases |s|
  {
    if |s| > 0 {
      FilterShorter(s[1..], p);
      assert s == [s[0]] + s[1..];
      if !p(s[0]) {
        assert s[0] in s;
      } else {
        assert forall x :: x in s && !p(x) ==> x in s[1..];
      }
    }
  }

  // ------------------------------------------------------------- sorting

  /** Every element is related to every later one: sortedness when `rel` is an order. */
  ghost predicate Pairwise<T(!new)>(s: seq<T>, rel: (T, T) -> bool) {
    forall i, j :: 0 <= i < j < |s| ==> rel(s[i], s[j])
  }

  /** A relation that holds between all pairs still holds after filtering. */
  lemma {:induction false} PairwiseFilter<T(!new)>(s: seq<T>, rel: (T, T) -> bool, p: T -> bool)
    requires Pairwise(s, rel)
    ensures Pairwise(Filter(s, p), rel)
    decreases |s|
  {
    if |s| > 0 {
      var rest := Filter(s[1..], p);
      assert Pairwise(s[1..], rel) by {
        forall i, j | 0 <= i < j < |s[1..]| ensures rel(s[1..][i], s[1..][j]) {
          assert rel(s[i + 1], s[j + 1]);
        }
      }
      PairwiseFilter(s[1..], rel, p);
      if p(s[0]) {
        var r := [s[0]] + rest;
        forall j | 0 < j < |r| ensures rel(r[0], r[j]) {
          FilterMembership(s[1..], p, r[j]);
          assert r[j] in s[1..];
          var k :| 0 <= k < |s[1..]| && s[1..][k] == r[j];
          assert rel(s[0], s[k + 1]);
        }
      }
    }
  }

  /** `le` relates any two elements of `s` one way or the other. */
  ghost predicate TotalOn<T(!new)>(s: seq<T>, le: (T, T) -> bool) {
    forall a, b :: a in s && b in s ==> le(a, b) || le(b, a)
  }

  ghost predicate TransitiveOn<T(!new)>(s: seq<T>, le: (T, T) -> bool) {
    forall a, b, c :: a in s && b in s && c in s && le(a, b) && le(b, c) ==> le(a, c)
  }

  /** Puts `x` in front of the first element it is `le` to. */
  function InsertBy<T(!new)>(x: T, s: seq<T>, le: (T, T) -> bool): (r: seq<T>)
    ensures multiset(r) == multiset(s) + multiset{x}
    ensures |r| == |s| + 1
    decreases |s|
  {
    if |s| == 0 || le(x, s[0]) then [x] + s
    else
      var rest := InsertBy(x, s[1..], le);
      assert s == [s[0]] + s[1..];
      [s[0]] + rest
  }

  /** Insertion sort; an element ends up in front of the later elements it is equivalent to. */
  function SortBy<T(!new)>(s: seq<T>, le: (T, T) -> bool): (r: seq<T>)
    ensures multiset(r) == multiset(s)
    ensures |r| == |s|
    decreases |s|
  {
    if |s| == 0 then []
    else
      var r := InsertBy(s[0], SortBy(s[1..], le), le);
      assert s == [s[0]] + s[1..];
      r
  }

  lemma {:induction false} InsertBySorted<T(!new)>(x: T, s: seq<T>, le: (T, T) -> bool, universe: seq<T>)
    requires x in universe && forall y :: y in s ==> y in universe
    requires TotalOn(universe, le) && TransitiveOn(universe, le)
    requires Pairwise(s, le)
    ensures Pairwise(InsertBy(x, s, le), le)
    decreases |s|
  {
    if |s| == 0 || le(x, s[0]) {
      var r := [x] + s;
      forall i, j | 0 <= i < j < |r| ensures le(r[i], r[j]) {
        if i == 0 && j > 1 {
          assert le(x, s[0]) && le(s[0], s[j - 1]);
        }
      }
    } else {
      var rest := InsertBy(x, s[1..], le);
      InsertBySorted(x, s[1..], le, universe);
      assert le(s[0], x);
      var r := [s[0]] + rest;
      forall j | 0 < j < |r| ensures le(r[0], r[j]) {
        assert r[j] in multiset(rest);
        assert r[j] == x || r[j] in multiset(s[1..]);
        if r[j] != x {
          var k :| 0 <= k < |s[1..]| && s[1..][k] == r[j];
          assert le(s[0], s[k + 1]);
        }
      }
    }
  }

  lemma {:induction false} SortBySorted<T(!new)>(s: seq<T>, le: (T, T) -> bool, universe: seq<T>)
    requires forall y :: y in s ==> y in universe
    requires TotalOn(universe, le) && TransitiveOn(universe, le)
    ensures Pairwise(SortBy(s, le), le)
    decreases |s|
  {
    if |s| > 0 {
      SortBySorted(s[1..], le, universe);
      var t := SortBy(s[1..], le);
      forall y | y in t ensures y in universe {
        assert y in multiset(t);
      }
      InsertBySorted(s[0], t, le, universe);
    }
  }

  /** Inserting an element the filter rejects leaves the filtered subsequence alone. */
  lemma {:induction false} InsertByRejected<T(!new)>(x: T, s: seq<T>, le: (T, T) -> bool, p: T -> bool)
    requires !p(x)
    ensures Filter(InsertBy(x, s, le), p) == Filter(s, p)
    decreases |s|
  {
    if |s| > 0 && !le(x, s[0]) {
      InsertByRejected(x, s[1..], le, p);
      assert s == [s[0]] + s[1..];
      FilterConcat([s[0]], s[1..], p);
      FilterConcat([s[0]], InsertBy(x, s[1..], le), p);
    } else {
      FilterConcat([x], s, p);
    }
  }

  /**
   * Inserting an element that belongs to an equivalence class puts it in
   * front of every element of that class already present.
   */
  lemma {:induction false} InsertByEquivalent<T(!new)>(x: T, s: seq<T>, le: (T, T) -> bool,
                                                 same: T -> bool, key: T, universe: seq<T>)
    requires x in universe && key in universe && forall y :: y in s ==> y in universe
    requires TransitiveOn(universe, le)
    requires forall y :: y in universe ==> same(y) == (le(key, y) && le(y, key))
    requires same(x)
    ensures Filter(InsertBy(x, s, le), same) == [x] + Filter(s, same)
    decreases |s|
  {
    if |s| > 0 && !le(x, s[0]) {
      var rest := InsertBy(x, s[1..], le);
      InsertByEquivalent(x, s[1..], le, same, key, universe);
      var head := s[0];
      OutOfClass(x, head, le, same, key, universe);
      assert Filter([head], same) == [];
      calc {
        Filter(InsertBy(x, s, le), same);
        Filter([head] + rest, same);
        { FilterConcat([head], rest, same); }
        Filter(rest, same);
        [x] + Filter(s[1..], same);
        { FilterConcat([head], s[1..], same); }
        [x] + Filter(s, same);
      }
    } else {
      assert Filter([x], same) == [x];
      FilterConcat([x], s, same);
    }
  }

  /** An element that `x` does not precede is not equivalent to `x`. */
  lemma OutOfClass<T(!new)>(x: T, y: T, le: (T, T) -> bool, same: T -> bool, key: T, universe: seq<T>)
    requires x in universe && y in universe && key in universe
    requires TransitiveOn(universe, le)
    requires forall z :: z in universe ==> same(z) == (le(key, z) && le(z, key))
    requires same(x) && !le(x, y)
    ensures !same(y)
  {
    assert le(x, key) && le(key, y) ==> le(x, y);
  }

  /**
   * The sort is stable: the elements equivalent to `key` come out in the
   * order they went in.
   */
  lemma {:induction false} SortByStable<T(!new)>(s: seq<T>, le: (T, T) -> bool, same: T -> bool, key: T, universe: seq<T>)
    requires key in universe && forall y :: y in s ==> y in universe
    requires TransitiveOn(universe, le)
    requires forall y :: y in universe ==> same(y) == (le(key, y) && le(y, key))
    ensures Filter(SortBy(s, le), same) == Filter(s, same)
    decreases |s|
  {
    if |s| > 0 {
      var t := SortBy(s[1..], le);
      SortByStable(s[1..], le, same, key, universe);
      forall y | y in t ensures y in universe {
        assert y in multiset(t);
      }
      assert s == [s[0]] + s[1..];
      FilterConcat([s[0]], s[1..], same);
      if same(s[0]) {
        InsertByEquivalent(s[0], t, le, same, key, universe);
      } else {
        InsertByRejected(s[0], t, le, same);
      }
    }
  }
}
