/** Option and the array operations the pages and services lean on:
    `Array.prototype.filter` and the order-preserving subsequence it yields. */
module Seqs {

  /** `null`/`undefined` versus a present value. */
  datatype Option<+T> = None | Some(value: T)

  /** `a` can be obtained from `b` by deleting elements, keeping the order. */
  predicate IsSubsequence<T(==)>(a: seq<T>, b: seq<T>)
  {
    if a == [] then true
    else if b == [] then false
    else if a[0] == b[0] then IsSubsequence(a[1..], b[1..])
    else IsSubsequence(a, b[1..])
  }

  lemma {:induction false} SubsequenceDropHead<T>(a: seq<T>, b: seq<T>)
    requires a != [] && IsSubsequence(a, b)
    ensures IsSubsequence(a[1..], b)
    decreases |b|, 0
  {
    if a[0] == b[0] {
      SubsequenceCons(a[1..], b[1..], b[0]);
      assert [b[0]] + b[1..] == b;
    } else {
      SubsequenceDropHead(a, b[1..]);
      SubsequenceCons(a[1..], b[1..], b[0]);
      assert [b[0]] + b[1..] == b;
    }
  }

  lemma {:induction false} SubsequenceCons<T>(a: seq<T>, b: seq<T>, x: T)
    requires IsSubsequence(a, b)
    ensures IsSubsequence(a, [x] + b)
    decreases |b|, 1
  {
    var xb := [x] + b;
    assert xb[1..] == b;
    if a != [] && a[0] == x {
      SubsequenceDropHead(a, b);
    }
  }

  /** A subsequence of a subsequence of `c` is a subsequence of `c`. */
  lemma {:induction false} SubsequenceTransitive<T>(a: seq<T>, b: seq<T>, c: seq<T>)
    requires IsSubsequence(a, b) && IsSubsequence(b, c)
    ensures IsSubsequence(a, c)
    decreases |c|
  {
    if a != [] {
      if b[0] == c[0] {
        if a[0] == b[0] {
          SubsequenceTransitive(a[1..], b[1..], c[1..]);
        } else {
          SubsequenceTransitive(a, b[1..], c[1..]);
          SubsequenceCons(a, c[1..], c[0]);
          assert [c[0]] + c[1..] == c;
        }
      } else {
        SubsequenceTransitive(a, b, c[1..]);
        SubsequenceCons(a, c[1..], c[0]);
        assert [c[0]] + c[1..] == c;
      }
    }
  }

  /** `s.filter(p)`: the elements of `s` satisfying `p`, in their order. */
  function Filter<T(==)>(s: seq<T>, p: T -> bool): (r: seq<T>)
    ensures |r| <= |s|
    ensures forall i :: 0 <= i < |r| ==> p(r[i])
  {
    if s == [] then []
    else if p(s[0]) then [s[0]] + Filter(s[1..], p)
    else Filter(s[1..], p)
  }

  /** The filter keeps the order of `s`. */
  lemma {:induction false} FilterSubsequence<T>(s: seq<T>, p: T -> bool)
    ensures IsSubsequence(Filter(s, p), s)
  {
    if s != [] {
      var rest := Filter(s[1..], p);
      FilterSubsequence(s[1..], p);
      if p(s[0]) {
        assert ([s[0]] + rest)[1..] == rest;
      } else {
        SubsequenceCons(rest, s[1..], s[0]);
        assert [s[0]] + s[1..] == s;
      }
    }
  }

  /** The filter keeps exactly the elements of `s` that pass the test. */
  lemma {:induction false} FilterMembers<T>(s: seq<T>, p: T -> bool)
    ensures forall x :: x in Filter(s, p) <==> x in s && p(x)
  {
    if s != [] {
      FilterMembers(s[1..], p);
      assert s == [s[0]] + s[1..];
    }
  }

  lemma {:induction false} FilterAppend<T>(a: seq<T>, b: seq<T>, p: T -> bool)
    ensures Filter(a + b, p) == Filter(a, p) + Filter(b, p)
  {
    if a != [] {
      assert (a + b)[1..] == a[1..] + b;
      FilterAppend(a[1..], b, p);
    } else {
      assert a + b == b;
    }
  }

  lemma FilterSingleton<T>(x: T, p: T -> bool)
    ensures Filter([x], p) == if p(x) then [x] else []
  {
    assert [x][1..] == [];
  }

  /** Two elements that do not both pass the test can trade places under a filter. */
  lemma FilterSwapFront<T>(x: T, y: T, rest: seq<T>, t: seq<T>, p: T -> bool)
    requires !(p(x) && p(y))
    requires Filter(t, p) == Filter([x] + rest, p)
    ensures Filter([y] + t, p) == Filter([x] + ([y] + rest), p)
  {
    FilterSingleton(x, p);
    FilterSingleton(y, p);
    FilterAppend([y], t, p);
    FilterAppend([x], rest, p);
    FilterAppend([y], rest, p);
    FilterAppend([x], [y] + rest, p);
  }

  /** Putting the same element in front of two sequences that filter alike keeps
      them filtering alike. */
  lemma FilterSameFront<T>(x: T, t: seq<T>, u: seq<T>, p: T -> bool)
    requires Filter(t, p) == Filter(u, p)
    ensures Filter([x] + t, p) == Filter([x] + u, p)
  {
    FilterAppend([x], t, p);
    FilterAppend([x], u, p);
  }

  /** Whatever the test implies of the elements of `s` holds of every element kept. */
  lemma {:induction false} FilterImplies<T>(s: seq<T>, p: T -> bool, q: T -> bool)
    requires forall i :: 0 <= i < |s| && p(s[i]) ==> q(s[i])
    ensures forall i :: 0 <= i < |Filter(s, p)| ==> q(Filter(s, p)[i])
  {
    if s != [] {
      FilterImplies(s[1..], p, q);
    }
  }

  /** A filter whose test fails everywhere keeps nothing. */
  lemma {:induction false} FilterKeepsNone<T>(s: seq<T>, p: T -> bool)
    requires forall i :: 0 <= i < |s| ==> !p(s[i])
    ensures Filter(s, p) == []
  {
    if s != [] {
      FilterKeepsNone(s[1..], p);
    }
  }

  /** Filtering twice is filtering once by the conjunction. */
  lemma {:induction false} FilterTwice<T>(s: seq<T>, p: T -> bool, q: T -> bool)
    ensures Filter(Filter(s, p), q) == Filter(s, x => p(x) && q(x))
  {
    if s != [] {
      FilterTwice(s[1..], p, q);
      if p(s[0]) {
        assert ([s[0]] + Filter(s[1..], p))[1..] == Filter(s[1..], p);
      }
    }
  }

  /** Two tests that agree on every element of `s` filter it alike. */
  lemma {:induction false} FilterSameTest<T>(s: seq<T>, p: T -> bool, q: T -> bool)
    requires forall i :: 0 <= i < |s| ==> p(s[i]) == q(s[i])
    ensures Filter(s, p) == Filter(s, q)
  {
    if s != [] {
      FilterSameTest(s[1..], p, q);
    }
  }

  /** A filter whose test holds everywhere keeps the whole sequence. */
  lemma {:induction false} FilterKeepsAll<T>(s: seq<T>, p: T -> bool)
    requires forall i :: 0 <= i < |s| ==> p(s[i])
    ensures Filter(s, p) == s
  {
    if s != [] {
      FilterKeepsAll(s[1..], p);
    }
  }

  /** The first element of a filter is the first element of `s` passing the test. */
  lemma {:induction false} FilterFirst<T>(s: seq<T>, p: T -> bool)
    requires Filter(s, p) != []
    ensures exists i :: 0 <= i < |s| && s[i] == Filter(s, p)[0] && p(s[i]) &&
                        forall j :: 0 <= j < i ==> !p(s[j])
  {
    if !p(s[0]) {
      FilterFirst(s[1..], p);
      var i :| 0 <= i < |s[1..]| && s[1..][i] == Filter(s[1..], p)[0] && p(s[1..][i]) &&
               forall j :: 0 <= j < i ==> !p(s[1..][j]);
      assert s[i + 1] == s[1..][i];
      assert forall j :: 0 < j < i + 1 ==> s[j] == s[1..][j - 1];
    } else {
      assert s[0] == Filter(s, p)[0];
    }
  }

  /** Inserts `x` before the first element `y` of `s` with `le(x, y)`, or at the end. */
  function InsertBy<T>(x: T, s: seq<T>, le: (T, T) -> bool): (r: seq<T>)
    ensures multiset(r) == multiset([x] + s)
    ensures |r| == |s| + 1
  {
    if s == [] then [x]
    else if le(x, s[0]) then [x] + s
    else
      assert [x] + s == [x, s[0]] + s[1..];
      assert [s[0]] + ([x] + s[1..]) == [s[0], x] + s[1..];
      [s[0]] + InsertBy(x, s[1..], le)
  }

  /** Insertion sort by `le`: each element, from the last to the first, is inserted
      into the sorted rest. An element is placed before every later one it is `le`
      to, so elements that are `le` each other keep their order. */
  function SortBy<T>(s: seq<T>, le: (T, T) -> bool): (r: seq<T>)
    ensures multiset(r) == multiset(s)
    ensures |r| == |s|
  {
    if s == [] then []
    else
      assert s == [s[0]] + s[1..];
      InsertBy(s[0], SortBy(s[1..], le), le)
  }

  /** Inserting `x` keeps, among the elements passing `p`, the order of `[x] + s`
      when `x` is `le` to every passing element of `s` (if `x` passes). */
  lemma {:induction false} InsertByStable<T>(x: T, s: seq<T>, le: (T, T) -> bool, p: T -> bool)
    requires forall i :: 0 <= i < |s| && p(x) && p(s[i]) ==> le(x, s[i])
    ensures Filter(InsertBy(x, s, le), p) == Filter([x] + s, p)
  {
    if s != [] && !le(x, s[0]) {
      var s0, rest := s[0], s[1..];
      InsertByStable(x, rest, le, p);
      assert [s0] + rest == s;
      FilterSwapFront(x, s0, rest, InsertBy(x, rest, le), p);
    }
  }

  /** Sorting keeps the elements, so what holds of `x` against every element of `s`
      holds against every element of the sorted `s`. */
  lemma SortKeepsPrecedence<T>(x: T, s: seq<T>, le: (T, T) -> bool, p: T -> bool)
    requires forall i :: 0 <= i < |s| && p(x) && p(s[i]) ==> le(x, s[i])
    ensures var t := SortBy(s, le);
            forall i :: 0 <= i < |t| && p(x) && p(t[i]) ==> le(x, t[i])
  {
    var t := SortBy(s, le);
    forall i | 0 <= i < |t| && p(x) && p(t[i]) ensures le(x, t[i]) {
      assert t[i] in multiset(t);
      var k :| 0 <= k < |s| && s[k] == t[i];
    }
  }

  /** The pairwise precedence of `s` holds in its tail, and between its head and
      every element of its tail. */
  lemma PrecedenceOfTail<T>(s: seq<T>, le: (T, T) -> bool, p: T -> bool)
    requires s != []
    requires forall i, j :: 0 <= i < j < |s| && p(s[i]) && p(s[j]) ==> le(s[i], s[j])
    ensures var rest := s[1..];
            forall i, j :: 0 <= i < j < |rest| && p(rest[i]) && p(rest[j]) ==> le(rest[i], rest[j])
    ensures var rest := s[1..];
            forall i :: 0 <= i < |rest| && p(s[0]) && p(rest[i]) ==> le(s[0], rest[i])
  {
    var rest := s[1..];
    forall i, j | 0 <= i < j < |rest| && p(rest[i]) && p(rest[j]) ensures le(rest[i], rest[j]) {
      assert rest[i] == s[i + 1] && rest[j] == s[j + 1];
    }
    forall i | 0 <= i < |rest| && p(s[0]) && p(rest[i]) ensures le(s[0], rest[i]) {
      assert rest[i] == s[i + 1];
    }
  }

  /** The sort is stable on the elements passing `p` when those are all `le` each
      other in their original order. */
  lemma {:induction false} SortByStable<T>(s: seq<T>, le: (T, T) -> bool, p: T -> bool)
    requires forall i, j :: 0 <= i < j < |s| && p(s[i]) && p(s[j]) ==> le(s[i], s[j])
    ensures Filter(SortBy(s, le), p) == Filter(s, p)
  {
    if s != [] {
      var x, rest := s[0], s[1..];
      assert [x] + rest == s;
      var t := SortBy(rest, le);
      PrecedenceOfTail(s, le, p);
      SortByStable(rest, le, p);
      SortKeepsPrecedence(x, rest, le, p);
      InsertByStable(x, t, le, p);
      FilterSameFront(x, t, rest, p);
    }
  }
}
