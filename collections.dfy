/**
 * The Kotlin collection operations the core is written with: `filter`,
 * `sortedByDescending` and `count`, with the properties the callers rely on.
 */
module Collections {

  /** `List.filter(p)`: the elements satisfying `p`, in their original order. */
  function Filter<T>(s: seq<T>, p: T -> bool): (r: seq<T>)
    ensures |r| <= |s|
    ensures forall i :: 0 <= i < |r| ==> p(r[i])
    ensures forall x :: x in r ==> x in s && p(x)
    ensures multiset(r) <= multiset(s)
  {
    if s == [] then []
    else
      assert s == [s[0]] + s[1..];
      if p(s[0]) then [s[0]] + Filter(s[1..], p) else Filter(s[1..], p)
  }

  /** `a` is obtained from `b` by deleting elements: one of the ways to choose which. */
  predicate IsSubsequence<T(==)>(a: seq<T>, b: seq<T>)
    decreases |b|
  {
    if b == [] then a == []
    else (a != [] && a[0] == b[0] && IsSubsequence(a[1..], b[1..])) || IsSubsequence(a, b[1..])
  }

  lemma {:induction false} FilterIsSubsequence<T>(s: seq<T>, p: T -> bool)
    ensures IsSubsequence(Filter(s, p), s)
  {
    if s != [] {
      FilterIsSubsequence(s[1..], p);
      if p(s[0]) {
        assert Filter(s, p)[1..] == Filter(s[1..], p);
      }
    }
  }

  /** Every element of `s` that satisfies `p` is kept. */
  lemma {:induction false} FilterKeeps<T>(s: seq<T>, p: T -> bool, x: T)
    requires x in s && p(x)
    ensures x in Filter(s, p)
  {
    if s[0] != x {
      FilterKeeps(s[1..], p, x);
    }
  }

  /** Nothing satisfying `p` is dropped. */
  lemma FilterComplete<T>(s: seq<T>, p: T -> bool)
    ensures forall x :: x in s && p(x) ==> x in Filter(s, p)
  {
    forall x | x in s && p(x) ensures x in Filter(s, p) {
      FilterKeeps(s, p, x);
    }
  }

  /** Filtering twice is filtering once by the conjunction, in the same order. */
  lemma {:induction false} FilterFilter<T>(s: seq<T>, p: T -> bool, q: T -> bool, pq: T -> bool)
    requires forall x :: pq(x) == (p(x) && q(x))
    ensures Filter(Filter(s, p), q) == Filter(s, pq)
  {
    if s != [] {
      FilterFilter(s[1..], p, q, pq);
      if p(s[0]) {
        assert Filter(s, p) == [s[0]] + Filter(s[1..], p);
        assert Filter(s, p)[1..] == Filter(s[1..], p);
      }
    }
  }

  /** Filtering by two predicates that agree everywhere gives the same list. */
  lemma {:induction false} FilterCongruent<T>(s: seq<T>, p: T -> bool, q: T -> bool)
    requires forall x :: p(x) == q(x)
    ensures Filter(s, p) == Filter(s, q)
  {
    if s != [] {
      FilterCongruent(s[1..], p, q);
    }
  }

  /** Filtering by a predicate every element satisfies keeps the whole list. */
  lemma {:induction false} FilterAll<T>(s: seq<T>, p: T -> bool)
    requires forall x :: x in s ==> p(x)
    ensures Filter(s, p) == s
  {
    if s != [] {
      assert s == [s[0]] + s[1..];
      FilterAll(s[1..], p);
    }
  }

  /** Partitioning by a predicate and its negation loses and invents nothing. */
  lemma {:induction false} FilterPartition<T>(s: seq<T>, p: T -> bool, q: T -> bool)
    requires forall x :: q(x) == !p(x)
    ensures multiset(Filter(s, p)) + multiset(Filter(s, q)) == multiset(s)
    ensures |Filter(s, p)| + |Filter(s, q)| == |s|
  {
    if s != [] {
      FilterPartition(s[1..], p, q);
      assert s == [s[0]] + s[1..];
    }
  }

  /** `Iterable.count { it == c }`. */
  function Count<T(==)>(s: seq<T>, x: T): (n: nat)
    ensures n <= |s|
    ensures n == 0 <==> x !in s
  {
    if s == [] then 0 else (if s[0] == x then 1 else 0) + Count(s[1..], x)
  }

  /** Filtering keeps every occurrence of an element the predicate accepts, and none of one it rejects. */
  lemma {:induction false} FilterCount<T>(s: seq<T>, p: T -> bool, x: T)
    ensures Count(Filter(s, p), x) == if p(x) then Count(s, x) else 0
  {
    if s != [] {
      FilterCount(s[1..], p, x);
    }
  }

  /** Non-increasing under `rank`, as `sortedByDescending` leaves a list. */
  predicate SortedDesc<T>(s: seq<T>, rank: T -> real) {
    forall i, j :: 0 <= i < j < |s| ==> rank(s[i]) >= rank(s[j])
  }

  /** Inserts `x` before the first element whose rank is not above its own. */
  function InsertDesc<T>(x: T, s: seq<T>, rank: T -> real): seq<T>
  {
    if s == [] || rank(s[0]) <= rank(x) then [x] + s
    else [s[0]] + InsertDesc(x, s[1..], rank)
  }

  lemma {:induction false} InsertDescPerm<T>(x: T, s: seq<T>, rank: T -> real)
    ensures multiset(InsertDesc(x, s, rank)) == multiset(s) + multiset{x}
    ensures |InsertDesc(x, s, rank)| == |s| + 1
  {
    if s != [] && rank(s[0]) > rank(x) {
      InsertDescPerm(x, s[1..], rank);
      assert s == [s[0]] + s[1..];
    }
  }

  /** Inserting below a bound every element already respects keeps every element below it. */
  lemma {:induction false} InsertDescBounded<T>(x: T, s: seq<T>, rank: T -> real, bound: real)
    requires rank(x) <= bound
    requires forall i :: 0 <= i < |s| ==> rank(s[i]) <= bound
    ensures forall i :: 0 <= i < |InsertDesc(x, s, rank)| ==> rank(InsertDesc(x, s, rank)[i]) <= bound
  {
    if s != [] && rank(s[0]) > rank(x) {
      InsertDescBounded(x, s[1..], rank, bound);
      var r := InsertDesc(x, s, rank);
      assert r == [s[0]] + InsertDesc(x, s[1..], rank);
      forall i | 0 < i < |r| ensures rank(r[i]) <= bound {
        assert r[i] == InsertDesc(x, s[1..], rank)[i - 1];
      }
    }
  }

  lemma {:induction false} InsertDescSorted<T>(x: T, s: seq<T>, rank: T -> real)
    requires SortedDesc(s, rank)
    ensures SortedDesc(InsertDesc(x, s, rank), rank)
  {
    if s != [] && rank(s[0]) > rank(x) {
      var tail := InsertDesc(x, s[1..], rank);
      InsertDescSorted(x, s[1..], rank);
      InsertDescBounded(x, s[1..], rank, rank(s[0]));
      var r := [s[0]] + tail;
      assert r == InsertDesc(x, s, rank);
      forall i, j | 0 <= i < j < |r| ensures rank(r[i]) >= rank(r[j]) {
        assert r[j] == tail[j - 1];
        if i > 0 {
          assert r[i] == tail[i - 1];
        }
      }
    }
  }

  /** The elements of `s` whose rank is exactly `v`, in their order in `s`. */
  function Ties<T>(s: seq<T>, rank: T -> real, v: real): seq<T> {
    if s == [] then [] else (if rank(s[0]) == v then [s[0]] else []) + Ties(s[1..], rank, v)
  }

  /** Inserting `x` puts it ahead of the elements of its own rank and moves no other element of any rank. */
  lemma {:induction false} InsertDescTies<T>(x: T, s: seq<T>, rank: T -> real, v: real)
    ensures Ties(InsertDesc(x, s, rank), rank, v) == (if rank(x) == v then [x] else []) + Ties(s, rank, v)
  {
    if s == [] || rank(s[0]) <= rank(x) {
      assert ([x] + s)[1..] == s;
    } else {
      var rest := InsertDesc(x, s[1..], rank);
      InsertDescTies(x, s[1..], rank, v);
      assert ([s[0]] + rest)[1..] == rest;
      var tail := Ties(s[1..], rank, v);
      if rank(x) == v {
        assert Ties(InsertDesc(x, s, rank), rank, v) == Ties(rest, rank, v) == [x] + tail;
      } else {
        assert Ties(rest, rank, v) == tail;
      }
    }
  }

  /**
   * `sortedByDescending(rank)`: the same elements, highest rank first. Each
   * element is inserted before the equal-ranked elements that follow it in
   * the input, so ties keep their input order, as in Kotlin's stable sort
   * (`SortDescStable`).
   */
  function SortDesc<T>(s: seq<T>, rank: T -> real): (r: seq<T>)
    ensures multiset(r) == multiset(s)
    ensures |r| == |s|
    ensures SortedDesc(r, rank)
  {
    if s == [] then []
    else
      assert s == [s[0]] + s[1..];
      InsertDescPerm(s[0], SortDesc(s[1..], rank), rank);
      InsertDescSorted(s[0], SortDesc(s[1..], rank), rank);
      InsertDesc(s[0], SortDesc(s[1..], rank), rank)
  }

  /** The sort is stable: for every rank, the elements of that rank come out in their input order. */
  lemma {:induction false} SortDescStable<T>(s: seq<T>, rank: T -> real, v: real)
    ensures Ties(SortDesc(s, rank), rank, v) == Ties(s, rank, v)
  {
    if s != [] {
      SortDescStable(s[1..], rank, v);
      InsertDescTies(s[0], SortDesc(s[1..], rank), rank, v);
    }
  }
}
