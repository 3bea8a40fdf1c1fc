/**
 * Filtering and stable sorting of sequences. Querysets are filters over a
 * table followed by an ORDER BY; the bot sorts the task list with Python's
 * stable `list.sort`. Both are modelled by one insertion sort, which keeps
 * elements that compare equal in their original order.
 */
module Sorting {

  /** The elements of `s` that satisfy `p`, in their original order. */
  function Filter<T>(s: seq<T>, p: T -> bool): (r: seq<T>)
    ensures |r| <= |s|
    ensures forall i :: 0 <= i < |r| ==> r[i] in s && p(r[i])
    ensures forall i :: 0 <= i < |s| && p(s[i]) ==> s[i] in r
  {
    if s == [] then [] else (if p(s[0]) then [s[0]] else []) + Filter(s[1..], p)
  }

  lemma {:induction false} FilterAppend<T>(a: seq<T>, b: seq<T>, p: T -> bool)
    ensures Filter(a + b, p) == Filter(a, p) + Filter(b, p)
  {
    if a == [] {
      assert a + b == b;
    } else {
      assert (a + b)[1..] == a[1..] + b;
      FilterAppend(a[1..], b, p);
    }
  }

  /** `less(a, b)`: `a` must be placed before `b`. */
  ghost predicate StrictWeakOrder<T(!new)>(less: (T, T) -> bool) {
    && (forall a :: !less(a, a))
    && (forall a, b, c :: less(a, b) && less(b, c) ==> less(a, c))
    && (forall a, b, c :: !less(a, b) && !less(b, c) ==> !less(a, c))
  }

  /** No later element must be placed before an earlier one. */
  ghost predicate SortedBy<T>(s: seq<T>, less: (T, T) -> bool) {
    forall i, j :: 0 <= i < j < |s| ==> !less(s[j], s[i])
  }

  /** Put `x` in front of the first element it need not follow. */
  function Insert<T>(x: T, s: seq<T>, less: (T, T) -> bool): (r: seq<T>)
    ensures multiset(r) == multiset(s) + multiset{x}
    ensures |r| == |s| + 1
  {
    if s == [] then [x]
    else
      assert s == [s[0]] + s[1..];
      if less(s[0], x) then [s[0]] + Insert(x, s[1..], less)
      else [x] + s
  }

  /** Stable sort: the model of `list.sort` and of a queryset's ORDER BY. */
  function SortBy<T>(s: seq<T>, less: (T, T) -> bool): (r: seq<T>)
    ensures multiset(r) == multiset(s)
    ensures |r| == |s|
  {
    if s == [] then []
    else
      assert s == [s[0]] + s[1..];
      Insert(s[0], SortBy(s[1..], less), less)
  }

  lemma {:induction false} InsertSorted<T(!new)>(x: T, s: seq<T>, less: (T, T) -> bool)
    requires StrictWeakOrder(less) && SortedBy(s, less)
    ensures SortedBy(Insert(x, s, less), less)
  {
    if s != [] {
      var r := Insert(x, s, less);
      if less(s[0], x) {
        InsertSorted(x, s[1..], less);
        var tail := Insert(x, s[1..], less);
        forall j | 0 <= j < |tail| ensures !less(tail[j], s[0]) {
          assert tail[j] in multiset(s[1..]) + multiset{x};
          if tail[j] != x {
            assert tail[j] in s[1..];
          }
        }
      } else {
        forall j | 0 <= j < |s| ensures !less(s[j], x) {
          if j > 0 {
            assert !less(s[j], s[0]);
          }
        }
      }
    }
  }

  /** The sort puts every element after all those it need not precede. */
  lemma {:induction false} SortBySorted<T(!new)>(s: seq<T>, less: (T, T) -> bool)
    requires StrictWeakOrder(less)
    ensures SortedBy(SortBy(s, less), less)
  {
    if s != [] {
      SortBySorted(s[1..], less);
      InsertSorted(s[0], SortBy(s[1..], less), less);
    }
  }

  /**
   * Sorting by `major`, with ties broken by `minor`: what a stable sort by
   * `major` makes of a sequence already sorted by `minor`.
   */
  function ThenBy<T>(major: (T, T) -> bool, minor: (T, T) -> bool): (T, T) -> bool {
    (a, b) => major(a, b) || (!major(a, b) && !major(b, a) && minor(a, b))
  }

  lemma {:induction false} InsertThenBy<T(!new)>(x: T, s: seq<T>, major: (T, T) -> bool, minor: (T, T) -> bool)
    requires StrictWeakOrder(major) && SortedBy(s, ThenBy(major, minor))
    requires forall i :: 0 <= i < |s| ==> !minor(s[i], x)
    ensures SortedBy(Insert(x, s, major), ThenBy(major, minor))
  {
    var less := ThenBy(major, minor);
    if s != [] {
      if major(s[0], x) {
        InsertThenBy(x, s[1..], major, minor);
        var tail := Insert(x, s[1..], major);
        forall j | 0 <= j < |tail| ensures !less(tail[j], s[0]) {
          assert tail[j] in multiset(s[1..]) + multiset{x};
          if tail[j] != x {
            assert tail[j] in s[1..];
          } else {
            assert !major(x, s[0]);
          }
        }
      } else {
        forall j | 0 <= j < |s| ensures !less(s[j], x) {
          if j > 0 {
            assert !less(s[j], s[0]);
            assert !major(s[j], s[0]);
          }
        }
      }
    }
  }

  /** A stable sort by `major` of a sequence sorted by `minor` is sorted by `major`, then `minor`. */
  lemma {:induction false} SortByThenBy<T(!new)>(s: seq<T>, major: (T, T) -> bool, minor: (T, T) -> bool)
    requires StrictWeakOrder(major) && SortedBy(s, minor)
    ensures SortedBy(SortBy(s, major), ThenBy(major, minor))
  {
    if s != [] {
      var rest := SortBy(s[1..], major);
      SortByThenBy(s[1..], major, minor);
      forall i | 0 <= i < |rest| ensures !minor(rest[i], s[0]) {
        assert rest[i] in multiset(s[1..]);
        var k :| 0 <= k < |s[1..]| && s[1..][k] == rest[i];
        assert s[k + 1] == rest[i];
      }
      InsertThenBy(s[0], rest, major, minor);
    }
  }

  lemma {:induction false} InsertStable<T>(x: T, s: seq<T>, less: (T, T) -> bool, p: T -> bool)
    requires forall a, b :: p(a) && p(b) ==> !less(a, b)
    ensures Filter(Insert(x, s, less), p) == Filter([x], p) + Filter(s, p)
  {
    if s == [] {
      assert Insert(x, s, less) == [x];
    } else if less(s[0], x) {
      InsertStable(x, s[1..], less, p);
      assert !(p(s[0]) && p(x));
      SwapFiltered(x, s[0], s[1..], Insert(x, s[1..], less), p);
      assert s == [s[0]] + s[1..];
    } else {
      assert Insert(x, s, less) == [x] + s;
      FilterAppend([x], s, p);
    }
  }

  /** The step of `InsertStable` where `x` moves past the head of `s`. */
  lemma SwapFiltered<T>(x: T, y: T, rest: seq<T>, tail: seq<T>, p: T -> bool)
    requires !(p(y) && p(x))
    requires Filter(tail, p) == Filter([x], p) + Filter(rest, p)
    ensures Filter([y] + tail, p) == Filter([x], p) + Filter([y] + rest, p)
  {
    FilterAppend([y], tail, p);
    FilterAppend([y], rest, p);
    FilterSingleton(y, p);
    FilterSingleton(x, p);
    SwapAroundEmpty(Filter([x], p), Filter([y], p), Filter(rest, p));
  }

  lemma SwapAroundEmpty<T>(a: seq<T>, b: seq<T>, c: seq<T>)
    requires a == [] || b == []
    ensures b + (a + c) == a + (b + c)
  {
    if a == [] {
      assert a + c == c && a + (b + c) == b + c;
    } else {
      assert b + (a + c) == a + c && b + c == c;
    }
  }

  lemma FilterSingleton<T>(x: T, p: T -> bool)
    ensures Filter([x], p) == if p(x) then [x] else []
  {
    assert [x][1..] == [];
  }

  /**
   * Stability: among the elements of one class of equal ones (a class `p` in
   * which no element must precede another), the sort keeps the input order.
   */
  lemma {:induction false} SortByStable<T>(s: seq<T>, less: (T, T) -> bool, p: T -> bool)
    requires forall a, b :: p(a) && p(b) ==> !less(a, b)
    ensures Filter(SortBy(s, less), p) == Filter(s, p)
  {
    if s != [] {
      var sorted := SortBy(s[1..], less);
      SortByStable(s[1..], less, p);
      InsertStable(s[0], sorted, less, p);
      assert s == [s[0]] + s[1..];
      FilterAppend([s[0]], s[1..], p);
    }
  }

  lemma {:induction false} FilterSorted<T>(s: seq<T>, less: (T, T) -> bool, p: T -> bool)
    requires SortedBy(s, less)
    ensures SortedBy(Filter(s, p), less)
  {
    if s != [] {
      FilterSorted(s[1..], less, p);
      var rest := Filter(s[1..], p);
      forall j | 0 <= j < |rest| ensures !less(rest[j], s[0]) {
        assert rest[j] in s[1..];
      }
    }
  }

  /** Sorting does not change how many elements satisfy a predicate. */
  lemma {:induction false} SortByCount<T>(s: seq<T>, less: (T, T) -> bool, p: T -> bool)
    ensures |Filter(SortBy(s, less), p)| == |Filter(s, p)|
  {
    if s != [] {
      SortByCount(s[1..], less, p);
      InsertCount(s[0], SortBy(s[1..], less), less, p);
    }
  }

  lemma {:induction false} InsertCount<T>(x: T, s: seq<T>, less: (T, T) -> bool, p: T -> bool)
    ensures |Filter(Insert(x, s, less), p)| == |Filter([x], p)| + |Filter(s, p)|
  {
    if s != [] && less(s[0], x) {
      InsertCount(x, s[1..], less, p);
      assert ([s[0]] + Insert(x, s[1..], less))[1..] == Insert(x, s[1..], less);
    } else if s != [] {
      assert ([x] + s)[1..] == s;
    }
  }

  /** The complement of a filter. */
  function Not<T>(p: T -> bool): T -> bool {
    x => !p(x)
  }

  /** Every element failing `p` is followed only by elements failing `p`. */
  ghost predicate Partitioned<T>(s: seq<T>, p: T -> bool) {
    forall i, j :: 0 <= i < j < |s| && !p(s[i]) ==> !p(s[j])
  }

  /**
   * A sequence in which every `p` element comes before every other one is the
   * `p` elements followed by the rest.
   */
  lemma {:induction false} PartitionedSplits<T>(s: seq<T>, p: T -> bool)
    requires Partitioned(s, p)
    ensures s == Filter(s, p) + Filter(s, Not(p))
  {
    if s != [] {
      var t := s[1..];
      PartitionedTail(s, p);
      PartitionedSplits(t, p);
      assert s == [s[0]] + t;
      assert Not(p)(s[0]) == !p(s[0]);
      if !p(s[0]) {
        NoneAfterFailure(s, p);
        NoneSatisfy(t, p);
        assert Filter(s, p) == [];
        assert Filter(s, Not(p)) == [s[0]] + t;
      } else {
        assert Filter(s, p) == [s[0]] + Filter(t, p);
        assert Filter(s, Not(p)) == Filter(t, Not(p));
        ConsSplit(s[0], t, Filter(t, p), Filter(t, Not(p)));
      }
    }
  }

  lemma PartitionedTail<T>(s: seq<T>, p: T -> bool)
    requires s != [] && Partitioned(s, p)
    ensures Partitioned(s[1..], p)
  {
    var t := s[1..];
    forall i, j | 0 <= i < j < |t| && !p(t[i]) ensures !p(t[j]) {
      assert t[i] == s[i + 1] && t[j] == s[j + 1];
    }
  }

  lemma NoneAfterFailure<T>(s: seq<T>, p: T -> bool)
    requires s != [] && Partitioned(s, p) && !p(s[0])
    ensures forall i :: 0 <= i < |s[1..]| ==> !p(s[1..][i])
  {
    forall i | 0 <= i < |s[1..]| ensures !p(s[1..][i]) {
      assert s[1..][i] == s[i + 1];
    }
  }

  lemma ConsSplit<T>(x: T, t: seq<T>, a: seq<T>, b: seq<T>)
    requires t == a + b
    ensures [x] + t == ([x] + a) + b
  {
  }

  lemma {:induction false} NoneSatisfy<T>(s: seq<T>, p: T -> bool)
    requires forall i :: 0 <= i < |s| ==> !p(s[i])
    ensures Filter(s, p) == [] && Filter(s, Not(p)) == s
  {
    if s != [] {
      NoneSatisfy(s[1..], p);
      assert Not(p)(s[0]);
    }
  }

  /** The conjunction of two filters. */
  function Both<T>(p: T -> bool, q: T -> bool): T -> bool {
    x => p(x) && q(x)
  }

  lemma {:induction false} FilterFilter<T>(s: seq<T>, p: T -> bool, q: T -> bool)
    ensures Filter(Filter(s, p), q) == Filter(s, Both(p, q))
  {
    if s != [] {
      FilterFilter(s[1..], p, q);
      assert Both(p, q)(s[0]) == (p(s[0]) && q(s[0]));
      if !p(s[0]) {
        assert Filter(s, p) == Filter(s[1..], p);
        assert Filter(s, Both(p, q)) == Filter(s[1..], Both(p, q));
      }
      if p(s[0]) {
        assert Filter(s, p) == [s[0]] + Filter(s[1..], p);
        assert ([s[0]] + Filter(s[1..], p))[1..] == Filter(s[1..], p);
        assert Filter(Filter(s, p), q) == (if q(s[0]) then [s[0]] else []) + Filter(Filter(s[1..], p), q);
        assert Filter(s, Both(p, q)) == (if q(s[0]) then [s[0]] else []) + Filter(s[1..], Both(p, q));
      }
    }
  }

  /** `rel` holds between every element and every later one. */
  ghost predicate Pairwise<T>(s: seq<T>, rel: (T, T) -> bool) {
    forall i, j :: 0 <= i < j < |s| ==> rel(s[i], s[j])
  }

  /** A relation between every earlier and later element survives filtering. */
  lemma {:induction false} FilterPairwise<T>(s: seq<T>, p: T -> bool, rel: (T, T) -> bool)
    requires Pairwise(s, rel)
    ensures Pairwise(Filter(s, p), rel)
  {
    if s != [] {
      var tail := s[1..];
      var rest := Filter(tail, p);
      PairwiseTail(s, rel);
      FilterPairwise(tail, p, rel);
      if !p(s[0]) {
        assert Filter(s, p) == rest;
      } else {
        assert Filter(s, p) == [s[0]] + rest;
        HeadRelatesToFiltered(s, rest, rel);
        PairwiseCons(s[0], rest, rel);
      }
    }
  }

  lemma PairwiseTail<T>(s: seq<T>, rel: (T, T) -> bool)
    requires s != [] && Pairwise(s, rel)
    ensures Pairwise(s[1..], rel)
  {
    var tail := s[1..];
    forall i, j | 0 <= i < j < |tail| ensures rel(tail[i], tail[j]) {
      assert tail[i] == s[i + 1] && tail[j] == s[j + 1];
    }
  }

  lemma HeadRelatesToFiltered<T>(s: seq<T>, rest: seq<T>, rel: (T, T) -> bool)
    requires s != [] && Pairwise(s, rel)
    requires forall j :: 0 <= j < |rest| ==> rest[j] in s[1..]
    ensures forall j :: 0 <= j < |rest| ==> rel(s[0], rest[j])
  {
    forall j | 0 <= j < |rest| ensures rel(s[0], rest[j]) {
      var k :| 0 <= k < |s[1..]| && s[1..][k] == rest[j];
      assert s[k + 1] == rest[j];
    }
  }

  lemma PairwiseCons<T>(x: T, rest: seq<T>, rel: (T, T) -> bool)
    requires Pairwise(rest, rel)
    requires forall j :: 0 <= j < |rest| ==> rel(x, rest[j])
    ensures Pairwise([x] + rest, rel)
  {
    var r := [x] + rest;
    forall i, j | 0 <= i < j < |r| ensures rel(r[i], r[j]) {
      if i == 0 {
        assert r[j] == rest[j - 1];
      } else {
        assert r[i] == rest[i - 1] && r[j] == rest[j - 1];
      }
    }
  }

  /** Filters that agree on the elements of `s` select the same elements. */
  lemma {:induction false} FilterCongruent<T>(s: seq<T>, p: T -> bool, q: T -> bool)
    requires forall i :: 0 <= i < |s| ==> p(s[i]) == q(s[i])
    ensures Filter(s, p) == Filter(s, q)
  {
    if s != [] {
      FilterCongruent(s[1..], p, q);
    }
  }

  /** An element of a filter is an element of the input that passes. */
  lemma FilterMember<T>(s: seq<T>, p: T -> bool, x: T)
    requires x in Filter(s, p)
    ensures x in s && p(x)
  {
    var f := Filter(s, p);
    var j :| 0 <= j < |f| && f[j] == x;
  }

  /** Sequences with the same multiset have the same elements. */
  lemma SameElements<T>(a: seq<T>, b: seq<T>)
    requires multiset(a) == multiset(b)
    ensures forall i :: 0 <= i < |a| ==> a[i] in b
    ensures forall i :: 0 <= i < |b| ==> b[i] in a
  {
    forall i | 0 <= i < |a| ensures a[i] in b {
      assert a[i] in multiset(a);
    }
    forall i | 0 <= i < |b| ensures b[i] in a {
      assert b[i] in multiset(b);
    }
  }

  /** How many elements satisfy `p`, counted from the front. */
  function Count<T>(s: seq<T>, p: T -> bool): nat {
    if s == [] then 0 else Count(s[..|s| - 1], p) + (if p(s[|s| - 1]) then 1 else 0)
  }

  lemma {:induction false} CountIsFilterLength<T>(s: seq<T>, p: T -> bool)
    ensures Count(s, p) == |Filter(s, p)|
  {
    if s != [] {
      var init, last := s[..|s| - 1], s[|s| - 1];
      assert s == init + [last];
      CountIsFilterLength(init, p);
      FilterAppend(init, [last], p);
      FilterSingleton(last, p);
    }
  }

  /** One more element of the prefix: the count goes up exactly when it satisfies `p`. */
  lemma PrefixStep<T>(s: seq<T>, i: nat)
    requires i < |s|
    ensures s[..i] + [s[i]] == s[..i + 1]
  {
  }

  lemma CountStep<T>(s: seq<T>, i: nat, p: T -> bool, prev: nat)
    requires i < |s| && prev == Count(s[..i], p)
    ensures prev + (if p(s[i]) then 1 else 0) == Count(s[..i + 1], p)
  {
    assert s[..i + 1][..i] == s[..i];
  }
}
