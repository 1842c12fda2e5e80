/** Sequence operations shared by the models: `Array.prototype.filter`,
    sums in the style of `reduce((acc, x) => acc + f(x), 0)`, and the
    subsequence relation that filtering establishes. */
module Seqs {

  /** `r` is obtained from `s` by deleting elements, keeping the order of the rest. */
  ghost predicate IsSubsequence<T>(r: seq<T>, s: seq<T>)
    decreases |s|
  {
    r == [] || (s != [] && ((r[0] == s[0] && IsSubsequence(r[1..], s[1..])) || IsSubsequence(r, s[1..])))
  }

  /** How many times `x` occurs in `s`. */
  ghost function Occurrences<T>(s: seq<T>, x: T): nat {
    if s == [] then 0 else (if s[0] == x then 1 else 0) + Occurrences(s[1..], x)
  }

  /** `x` does not occur in a sequence that does not contain it. */
  lemma {:induction false} OccurrencesAbsent<T>(s: seq<T>, x: T)
    requires x !in s
    ensures Occurrences(s, x) == 0
  {
    if s != [] {
      OccurrencesAbsent(s[1..], x);
    }
  }

  /** `s.filter(p)`: the elements of `s` that satisfy `p`, in their original
      order, each as often as it occurs in `s`. */
  function Filter<T>(s: seq<T>, p: T -> bool): (r: seq<T>)
    ensures |r| <= |s|
    ensures forall i :: 0 <= i < |r| ==> r[i] in s && p(r[i])
    ensures forall i :: 0 <= i < |s| && p(s[i]) ==> s[i] in r
    ensures forall i :: 0 <= i < |s| && p(s[i]) ==> Occurrences(r, s[i]) == Occurrences(s, s[i])
    ensures IsSubsequence(r, s)
  {
    if s == [] then []
    else
      var rest := Filter(s[1..], p);
      var r := if p(s[0]) then [s[0]] + rest else rest;
      assert forall i :: 0 <= i < |s| && p(s[i]) ==> Occurrences(r, s[i]) == Occurrences(s, s[i]) by {
        forall i | 0 <= i < |s| && p(s[i])
          ensures Occurrences(r, s[i]) == Occurrences(s, s[i])
        {
          var x := s[i];
          if p(s[0]) {
            assert ([s[0]] + rest)[0] == s[0] && ([s[0]] + rest)[1..] == rest;
          }
          if x !in s[1..] {
            OccurrencesAbsent(s[1..], x);
            assert x !in rest;
            OccurrencesAbsent(rest, x);
          }
        }
      }
      r
  }

  /** The sum of `f` over `s`; zero for the empty sequence. */
  function SumBy<T>(s: seq<T>, f: T -> real): real {
    if s == [] then 0.0 else f(s[0]) + SumBy(s[1..], f)
  }

  /** The measure that counts elements. */
  function One<T>(x: T): real { 1.0 }

  /** Summing `One` counts the elements. */
  lemma {:induction false} SumOneIsLength<T>(s: seq<T>)
    ensures SumBy(s, One) == |s| as real
  {
    if s != [] {
      SumOneIsLength(s[1..]);
    }
  }

  /** Filtering distributes over concatenation. */
  lemma {:induction false} FilterConcat<T>(a: seq<T>, b: seq<T>, p: T -> bool)
    ensures Filter(a + b, p) == Filter(a, p) + Filter(b, p)
  {
    if a == [] {
      assert a + b == b;
    } else {
      assert (a + b)[0] == a[0];
      assert (a + b)[1..] == a[1..] + b;
      FilterConcat(a[1..], b, p);
    }
  }

  /** Filtering a sequence grown at its end: the old result, plus the new element if it passes. */
  lemma FilterAppend<T>(s: seq<T>, x: T, p: T -> bool)
    ensures Filter(s + [x], p) == Filter(s, p) + (if p(x) then [x] else [])
  {
    FilterConcat(s, [x], p);
    assert Filter([x], p) == (if p(x) then [x] else []) by {
      assert [x][1..] == [];
    }
  }

  /** A filter every element passes keeps the whole sequence. */
  lemma {:induction false} FilterKeepsAll<T>(s: seq<T>, p: T -> bool)
    requires forall i :: 0 <= i < |s| ==> p(s[i])
    ensures Filter(s, p) == s
  {
    if s != [] {
      FilterKeepsAll(s[1..], p);
    }
  }

  /** Filtering twice is filtering once by the conjunction. */
  lemma {:induction false} FilterFilter<T>(s: seq<T>, p: T -> bool, q: T -> bool)
    ensures Filter(Filter(s, p), q) == Filter(s, x => p(x) && q(x))
  {
    if s != [] {
      FilterFilter(s[1..], p, q);
    }
  }

  /** Filters by predicates that agree on every element of `s` are equal. */
  lemma {:induction false} FilterCongruent<T>(s: seq<T>, p: T -> bool, q: T -> bool)
    requires forall x :: x in s ==> (p(x) <==> q(x))
    ensures Filter(s, p) == Filter(s, q)
  {
    if s != [] {
      FilterCongruent(s[1..], p, q);
    }
  }

  /** Summing distributes over concatenation. */
  lemma {:induction false} SumConcat<T>(a: seq<T>, b: seq<T>, f: T -> real)
    ensures SumBy(a + b, f) == SumBy(a, f) + SumBy(b, f)
  {
    if a == [] {
      assert a + b == b;
    } else {
      assert (a + b)[0] == a[0];
      assert (a + b)[1..] == a[1..] + b;
      SumConcat(a[1..], b, f);
    }
  }

  /** The sum over a sequence grown at its end. */
  lemma SumAppend<T>(s: seq<T>, x: T, f: T -> real)
    ensures SumBy(s + [x], f) == SumBy(s, f) + f(x)
  {
    SumConcat(s, [x], f);
    assert [x][1..] == [];
  }

  /** A sum of non-negative terms is non-negative. */
  lemma {:induction false} SumNonNegative<T>(s: seq<T>, f: T -> real)
    requires forall x :: x in s ==> 0.0 <= f(x)
    ensures 0.0 <= SumBy(s, f)
  {
    if s != [] {
      SumNonNegative(s[1..], f);
    }
  }

  /** With non-negative terms, a weaker filter never yields a smaller sum. */
  lemma {:induction false} SumFilterMonotone<T>(s: seq<T>, p: T -> bool, q: T -> bool, f: T -> real)
    requires forall x :: x in s ==> 0.0 <= f(x)
    requires forall x :: x in s && p(x) ==> q(x)
    ensures SumBy(Filter(s, p), f) <= SumBy(Filter(s, q), f)
  {
    if s != [] {
      SumFilterMonotone(s[1..], p, q, f);
    }
  }

  /** Counting with a filter: one more when the appended element passes. */
  lemma CountAppend<T>(s: seq<T>, x: T, p: T -> bool)
    ensures |Filter(s + [x], p)| == |Filter(s, p)| + (if p(x) then 1 else 0)
  {
    FilterAppend(s, x, p);
  }
}
