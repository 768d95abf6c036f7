/** Sequence helpers standing in for the `filter`, `map` and `reduce` calls of
    the front end and for Python's substring test `needle in haystack`. */
module Seqs {

  /** The elements of `s` that satisfy `p`, in their original order (the
      front end's `Array.prototype.filter`).  Recursion peels the LAST element
      so that a left-to-right loop can follow it prefix by prefix. */
  function Filter<T>(s: seq<T>, p: T -> bool): (r: seq<T>)
    ensures |r| <= |s|
    ensures forall i :: 0 <= i < |r| ==> p(r[i])
    decreases |s|
  {
    if |s| == 0 then []
    else
      var init, last := s[..|s| - 1], s[|s| - 1];
      Filter(init, p) + (if p(last) then [last] else [])
  }

  /** Filtering keeps every occurrence of a satisfying element and drops every
      other one: as multisets, the result is the satisfying part of the input. */
  lemma {:induction false} FilterMultiset<T(!new)>(s: seq<T>, p: T -> bool)
    ensures forall x :: multiset(Filter(s, p))[x] == (if p(x) then multiset(s)[x] else 0)
    decreases |s|
  {
    if |s| > 0 {
      var init, last := s[..|s| - 1], s[|s| - 1];
      FilterMultiset(init, p);
      assert s == init + [last];
    }
  }

  /** Membership in a filtered sequence, in both directions. */
  lemma FilterMembership<T(!new)>(s: seq<T>, p: T -> bool, x: T)
    ensures x in Filter(s, p) <==> x in s && p(x)
  {
    FilterMultiset(s, p);
    assert x in Filter(s, p) <==> multiset(Filter(s, p))[x] > 0;
    assert x in s <==> multiset(s)[x] > 0;
  }

  /** Filtering distributes over appending one element. */
  lemma FilterSnoc<T>(s: seq<T>, x: T, p: T -> bool)
    ensures Filter(s + [x], p) == Filter(s, p) + (if p(x) then [x] else [])
  {
    assert (s + [x])[..|s + [x]| - 1] == s;
  }

  /** Positions below `n` whose element satisfies `p`. */
  function MatchingPositions<T>(s: seq<T>, p: T -> bool, n: nat): set<nat>
    requires n <= |s|
  {
    set i: nat | i < n && p(s[i])
  }

  /** The length of a filtered sequence is the number of positions whose
      element satisfies the predicate: `filter(...).length` counts matches. */
  lemma {:induction false} FilterLengthCountsPositions<T>(s: seq<T>, p: T -> bool)
    ensures |Filter(s, p)| == |MatchingPositions(s, p, |s|)|
    decreases |s|
  {
    if |s| == 0 {
      assert MatchingPositions(s, p, 0) == {};
    } else {
      var n := |s| - 1;
      var init := s[..n];
      FilterLengthCountsPositions(init, p);
      var before := MatchingPositions(s, p, n);
      assert MatchingPositions(init, p, n) == before by {
        forall i: nat | i < n ensures init[i] == s[i] { }
      }
      assert |Filter(s, p)| == |Filter(init, p)| + (if p(s[n]) then 1 else 0);
      if p(s[n]) {
        assert MatchingPositions(s, p, n + 1) == before + {n};
        assert n !in before;
      } else {
        assert MatchingPositions(s, p, n + 1) == before;
      }
    }
  }

  /** Applies `f` to every element (the front end's `Array.prototype.map`). */
  function Map<T, U>(s: seq<T>, f: T -> U): (r: seq<U>)
    ensures |r| == |s|
    ensures forall i :: 0 <= i < |s| ==> r[i] == f(s[i])
  {
    seq(|s|, i requires 0 <= i < |s| => f(s[i]))
  }

  /** Sum of a sequence of integers (a `reduce((sum, x) => sum + x, 0)`),
      peeling the last element like `Filter`. */
  function Sum(s: seq<int>): int
    decreases |s|
  {
    if |s| == 0 then 0 else Sum(s[..|s| - 1]) + s[|s| - 1]
  }

  /** Summing an appended sequence adds the two sums. */
  lemma {:induction false} SumAppend(a: seq<int>, b: seq<int>)
    ensures Sum(a + b) == Sum(a) + Sum(b)
    decreases |b|
  {
    if |b| == 0 {
      assert a + b == a;
    } else {
      var bi := b[..|b| - 1];
      assert (a + b)[..|a + b| - 1] == a + bi;
      SumAppend(a, bi);
    }
  }

  /** Replacing one element changes the sum by exactly the difference. */
  lemma {:induction false} SumUpdate(s: seq<int>, i: int, v: int)
    requires 0 <= i < |s|
    ensures Sum(s[i := v]) == Sum(s) - s[i] + v
  {
    var pre, post := s[..i], s[i + 1..];
    assert s == pre + [s[i]] + post;
    assert s[i := v] == pre + [v] + post;
    SumAppend(pre + [s[i]], post);
    SumAppend(pre + [v], post);
    SumAppend(pre, [s[i]]);
    SumAppend(pre, [v]);
    assert Sum([s[i]]) == s[i] by { assert [s[i]][..0] == []; }
    assert Sum([v]) == v by { assert [v][..0] == []; }
  }

  /** Substring test, Python's `needle in haystack` on strings. */
  predicate IsInfix<T(==)>(needle: seq<T>, haystack: seq<T>)
    decreases |haystack|
  {
    needle <= haystack || (|haystack| > 0 && IsInfix(needle, haystack[1..]))
  }

  /** The needle occurs in the haystack starting at offset `k`. */
  predicate OccursAt<T(==)>(needle: seq<T>, haystack: seq<T>, k: int)
  {
    0 <= k && k + |needle| <= |haystack| && haystack[k..k + |needle|] == needle
  }

  /** An infix found by `IsInfix` occurs at some offset. */
  lemma {:induction false} InfixOccurs<T>(needle: seq<T>, haystack: seq<T>) returns (k: int)
    requires IsInfix(needle, haystack)
    ensures OccursAt(needle, haystack, k)
    decreases |haystack|
  {
    if needle <= haystack {
      k := 0;
      assert haystack[0..|needle|] == needle;
    } else {
      var tail := haystack[1..];
      var j := InfixOccurs(needle, tail);
      assert tail[j..j + |needle|] == haystack[j + 1..j + 1 + |needle|];
      k := j + 1;
    }
  }

  /** An occurrence at any offset is found by `IsInfix`. */
  lemma {:induction false} OccursIsInfix<T>(needle: seq<T>, haystack: seq<T>, k: int)
    requires OccursAt(needle, haystack, k)
    ensures IsInfix(needle, haystack)
    decreases k
  {
    if k == 0 {
      assert haystack[..|needle|] == needle;
    } else {
      var tail := haystack[1..];
      assert tail[k - 1..k - 1 + |needle|] == haystack[k..k + |needle|];
      OccursIsInfix(needle, tail, k - 1);
    }
  }

  /** `IsInfix` holds exactly when the needle occurs at some offset. */
  lemma IsInfixIffOccurs<T>(needle: seq<T>, haystack: seq<T>)
    ensures IsInfix(needle, haystack) <==> exists k :: OccursAt(needle, haystack, k)
  {
    if IsInfix(needle, haystack) {
      var k := InfixOccurs(needle, haystack);
    }
    forall k | OccursAt(needle, haystack, k) ensures IsInfix(needle, haystack) {
      OccursIsInfix(needle, haystack, k);
    }
  }

  /** A needle whose first element never occurs in the haystack is not an
      infix of it. */
  lemma {:induction false} NotInfixWithoutHead<T>(needle: seq<T>, haystack: seq<T>)
    requires |needle| > 0 && needle[0] !in haystack
    ensures !IsInfix(needle, haystack)
    decreases |haystack|
  {
    if |haystack| > 0 {
      assert haystack[0] in haystack;
      assert !(needle <= haystack);
      assert forall x :: x in haystack[1..] ==> x in haystack;
      NotInfixWithoutHead(needle, haystack[1..]);
    }
  }

}
