/**
 * Generic list helpers: the `reduce`, `filter`, `Math.max` and descending
 * `sort` expressions the portfolio code applies to its arrays.
 */
module Seqs {

  /** `s.reduce((sum, x) => sum + f(x), 0)`, folded from the left. */
  function SumOf<T>(s: seq<T>, f: T -> real): real
    decreases |s|
  {
    if s == [] then 0.0 else SumOf(s[..|s| - 1], f) + f(s[|s| - 1])
  }

  lemma SumOfSnoc<T>(s: seq<T>, x: T, f: T -> real)
    ensures SumOf(s + [x], f) == SumOf(s, f) + f(x)
  {
    assert (s + [x])[..|s|] == s;
  }

  lemma {:induction false} SumOfConcat<T>(a: seq<T>, b: seq<T>, f: T -> real)
    ensures SumOf(a + b, f) == SumOf(a, f) + SumOf(b, f)
    decreases |b|
  {
    if b == [] {
      assert a + b == a;
    } else {
      var b' := b[..|b| - 1];
      var x := b[|b| - 1];
      assert a + b == (a + b') + [x];
      assert b == b' + [x];
      SumOfSnoc(a + b', x, f);
      SumOfSnoc(b', x, f);
      SumOfConcat(a, b', f);
    }
  }

  lemma SumOfCons<T>(x: T, s: seq<T>, f: T -> real)
    ensures SumOf([x] + s, f) == f(x) + SumOf(s, f)
  {
    SumOfConcat([x], s, f);
    assert [x] == [] + [x];
    SumOfSnoc([], x, f);
  }

  /** A sum of non-negative terms is non-negative, and no smaller than any prefix of it. */
  lemma {:induction false} SumOfPrefixBound<T>(s: seq<T>, k: nat, f: T -> real)
    requires k <= |s|
    requires forall i :: 0 <= i < |s| ==> f(s[i]) >= 0.0
    ensures 0.0 <= SumOf(s[..k], f) <= SumOf(s, f)
    decreases |s|
  {
    if k < |s| {
      var s' := s[..|s| - 1];
      assert s'[..k] == s[..k];
      assert forall i :: 0 <= i < |s'| ==> s'[i] == s[i];
      SumOfPrefixBound(s', k, f);
    } else {
      assert s[..k] == s;
      if s != [] {
        var s' := s[..|s| - 1];
        assert forall i :: 0 <= i < |s'| ==> s'[i] == s[i];
        SumOfPrefixBound(s', |s'|, f);
        assert s'[..|s'|] == s';
      }
    }
  }

  /** `s.filter(p)`: the elements satisfying `p`, in their original order. */
  function Filter<T>(s: seq<T>, p: T -> bool): (r: seq<T>)
    ensures |r| <= |s|
    ensures forall x :: x in r ==> x in s && p(x)
    ensures forall i :: 0 <= i < |s| && p(s[i]) ==> s[i] in r
    decreases |s|
  {
    if s == [] then []
    else
      var rest := Filter(s[..|s| - 1], p);
      assert forall i :: 0 <= i < |s| - 1 ==> s[..|s| - 1][i] == s[i];
      if p(s[|s| - 1]) then rest + [s[|s| - 1]] else rest
  }

  /** Filtering distributes over concatenation, so the kept elements stay in order. */
  lemma {:induction false} FilterConcat<T>(a: seq<T>, b: seq<T>, p: T -> bool)
    ensures Filter(a + b, p) == Filter(a, p) + Filter(b, p)
    decreases |b|
  {
    if b == [] {
      assert a + b == a;
    } else {
      var b' := b[..|b| - 1];
      assert (a + b)[..|a + b| - 1] == a + b';
      assert (a + b)[|a + b| - 1] == b[|b| - 1];
      FilterConcat(a, b', p);
    }
  }

  /** Filtering twice by the same predicate keeps what filtering once kept. */
  lemma {:induction false} FilterIdempotent<T>(s: seq<T>, p: T -> bool)
    ensures Filter(Filter(s, p), p) == Filter(s, p)
    decreases |s|
  {
    if s != [] {
      var s' := s[..|s| - 1];
      var x := s[|s| - 1];
      FilterIdempotent(s', p);
      if p(x) {
        FilterConcat(Filter(s', p), [x], p);
        assert Filter([x], p) == [x] by {
          assert [x][..0] == [];
        }
      }
    }
  }

  /** `s.filter(p).length`. */
  function Count<T>(s: seq<T>, p: T -> bool): nat
  {
    |Filter(s, p)|
  }

  lemma {:induction false} CountZero<T>(s: seq<T>, p: T -> bool)
    ensures Count(s, p) == 0 <==> forall i :: 0 <= i < |s| ==> !p(s[i])
  {
    if Count(s, p) == 0 {
      assert Filter(s, p) == [];
    } else {
      var x := Filter(s, p)[0];
      assert x in Filter(s, p);
      var i :| 0 <= i < |s| && s[i] == x;
      assert p(s[i]);
    }
  }

  /** Three predicates that split every element count the list between them. */
  lemma {:induction false} CountPartition<T>(s: seq<T>, p: T -> bool, q: T -> bool, r: T -> bool)
    requires forall x :: (p(x) && !q(x) && !r(x)) || (!p(x) && q(x) && !r(x)) || (!p(x) && !q(x) && r(x))
    ensures Count(s, p) + Count(s, q) + Count(s, r) == |s|
    decreases |s|
  {
    if s != [] {
      CountPartition(s[..|s| - 1], p, q, r);
    }
  }

  /** Lists that agree element by element under `f` have the same sum. */
  lemma {:induction false} SumOfPointwise<T>(a: seq<T>, b: seq<T>, f: T -> real)
    requires |a| == |b|
    requires forall i :: 0 <= i < |a| ==> f(a[i]) == f(b[i])
    ensures SumOf(a, f) == SumOf(b, f)
    decreases |a|
  {
    if a != [] {
      SumOfPointwise(a[..|a| - 1], b[..|b| - 1], f);
    }
  }

  /** With non-negative terms, each term is at most the sum. */
  lemma {:induction false} TermBelowSum<T>(s: seq<T>, i: nat, f: T -> real)
    requires i < |s|
    requires forall j :: 0 <= j < |s| ==> f(s[j]) >= 0.0
    ensures f(s[i]) <= SumOf(s, f)
    decreases |s|
  {
    var s' := s[..|s| - 1];
    SumOfPrefixBound(s, |s'|, f);
    if i < |s'| {
      assert s'[i] == s[i];
      TermBelowSum(s', i, f);
    }
  }

  /** Dropping elements from a sum of non-negative terms can only lower it. */
  lemma {:induction false} SumOfFilterBound<T>(s: seq<T>, p: T -> bool, f: T -> real)
    requires forall j :: 0 <= j < |s| ==> f(s[j]) >= 0.0
    ensures SumOf(Filter(s, p), f) <= SumOf(s, f)
    decreases |s|
  {
    if s != [] {
      var s' := s[..|s| - 1];
      var x := s[|s| - 1];
      assert forall j :: 0 <= j < |s'| ==> s'[j] == s[j];
      SumOfFilterBound(s', p, f);
      if p(x) {
        SumOfSnoc(Filter(s', p), x, f);
      }
    }
  }

  /** Filtering by a predicate every element satisfies keeps the whole list. */
  lemma {:induction false} FilterAll<T>(s: seq<T>, p: T -> bool)
    requires forall i :: 0 <= i < |s| ==> p(s[i])
    ensures Filter(s, p) == s
    decreases |s|
  {
    if s != [] {
      var s' := s[..|s| - 1];
      assert forall i :: 0 <= i < |s'| ==> s'[i] == s[i];
      FilterAll(s', p);
      assert s == s' + [s[|s| - 1]];
    }
  }

  /** Lists that agree element by element on `p` keep the same number of elements. */
  lemma {:induction false} CountPointwise<T>(a: seq<T>, b: seq<T>, p: T -> bool)
    requires |a| == |b|
    requires forall i :: 0 <= i < |a| ==> p(a[i]) == p(b[i])
    ensures Count(a, p) == Count(b, p)
    decreases |a|
  {
    if a != [] {
      CountPointwise(a[..|a| - 1], b[..|b| - 1], p);
    }
  }

  /** `Math.max(...s.map(key), 0)`: the largest key, 0 for an empty list. */
  function MaxKey<T>(s: seq<T>, key: T -> nat): (m: nat)
    ensures forall i :: 0 <= i < |s| ==> key(s[i]) <= m
    ensures m == 0 || exists i :: 0 <= i < |s| && key(s[i]) == m
    decreases |s|
  {
    if s == [] then 0
    else
      var m' := MaxKey(s[..|s| - 1], key);
      assert forall i :: 0 <= i < |s| - 1 ==> s[..|s| - 1][i] == s[i];
      if key(s[|s| - 1]) > m' then key(s[|s| - 1]) else m'
  }

  /** `Math.max(...keys, 0) + 1`: a positive key no element carries. */
  function NextKey<T>(s: seq<T>, key: T -> nat): (k: nat)
    ensures k >= 1
    ensures forall i :: 0 <= i < |s| ==> key(s[i]) < k
  {
    MaxKey(s, key) + 1
  }

  /** `Math.max(...xs)` on a non-empty list. */
  function MaxOf(xs: seq<real>): (m: real)
    requires |xs| > 0
    ensures m in xs
    ensures forall i :: 0 <= i < |xs| ==> xs[i] <= m
    decreases |xs|
  {
    if |xs| == 1 then xs[0]
    else
      var m' := MaxOf(xs[..|xs| - 1]);
      assert forall i :: 0 <= i < |xs| - 1 ==> xs[..|xs| - 1][i] == xs[i];
      if xs[|xs| - 1] > m' then xs[|xs| - 1] else m'
  }

  predicate Descending(xs: seq<real>)
  {
    forall i, j :: 0 <= i < j < |xs| ==> xs[i] >= xs[j]
  }

  function Id(x: real): real { x }

  /** `xs.reduce((sum, x) => sum + x, 0)`. */
  function Sum(xs: seq<real>): real
  {
    SumOf(xs, Id)
  }

  /** Dividing by a non-zero factor undoes multiplying by it. */
  lemma CancelFactor(f: real, x: real)
    requires f != 0.0
    ensures (f * x) / f == x
  {
  }

  /** Puts `x` in front of the first element it is not smaller than. */
  function InsertDescending(x: real, s: seq<real>): (r: seq<real>)
    requires Descending(s)
    ensures |r| == |s| + 1
    ensures forall k :: 0 <= k < |r| ==> r[k] == x || r[k] in s
    ensures Descending(r)
    decreases |s|
  {
    if s == [] || x >= s[0] then [x] + s
    else
      var t := InsertDescending(x, s[1..]);
      InsertedBelowHead(x, s, t);
      [s[0]] + t
  }

  lemma {:induction false} InsertDescendingPermutes(x: real, s: seq<real>)
    requires Descending(s)
    ensures multiset(InsertDescending(x, s)) == multiset(s) + multiset{x}
    ensures Sum(InsertDescending(x, s)) == x + Sum(s)
    decreases |s|
  {
    if s == [] || x >= s[0] {
      SumOfCons(x, s, Id);
    } else {
      var t := InsertDescending(x, s[1..]);
      InsertDescendingPermutes(x, s[1..]);
      assert s == [s[0]] + s[1..];
      SumOfCons(s[0], t, Id);
      SumOfCons(s[0], s[1..], Id);
    }
  }

  lemma InsertedBelowHead(x: real, s: seq<real>, t: seq<real>)
    requires Descending(s) && s != [] && x < s[0]
    requires Descending(t)
    requires forall k :: 0 <= k < |t| ==> t[k] == x || t[k] in s[1..]
    ensures Descending([s[0]] + t)
  {
    forall k | 0 <= k < |t| ensures t[k] <= s[0] {
      if t[k] != x {
        var j :| 0 <= j < |s[1..]| && s[1..][j] == t[k];
        assert s[j + 1] == t[k];
      }
    }
  }

  /** `[...xs].sort((a, b) => b - a)`: a descending permutation of `xs` with the same sum. */
  function SortDescending(xs: seq<real>): (r: seq<real>)
    ensures |r| == |xs|
    ensures Descending(r)
    ensures multiset(r) == multiset(xs)
    ensures Sum(r) == Sum(xs)
    decreases |xs|
  {
    if xs == [] then []
    else
      var sortedRest := SortDescending(xs[1..]);
      assert xs == [xs[0]] + xs[1..];
      SortStep(xs[0], xs[1..], sortedRest);
      InsertDescending(xs[0], sortedRest)
  }

  /** Inserting the head into the sorted tail sorts the whole list. */
  lemma SortStep(x: real, rest: seq<real>, sortedRest: seq<real>)
    requires Descending(sortedRest)
    requires multiset(sortedRest) == multiset(rest) && Sum(sortedRest) == Sum(rest)
    ensures var r := InsertDescending(x, sortedRest);
            && |r| == |[x] + rest|
            && multiset(r) == multiset([x] + rest)
            && Sum(r) == Sum([x] + rest)
  {
    var r := InsertDescending(x, sortedRest);
    InsertDescendingPermutes(x, sortedRest);
    SumOfCons(x, rest, Id);
    assert |r| == |multiset(r)| == |multiset([x] + rest)| == |[x] + rest|;
  }
}
