/** Order-preserving filtering of sequences, the shape of every `Array.prototype.filter` in the storefront. */
module Seqs {

  /** `a` can be obtained from `b` by deleting elements, without reordering the rest. */
  predicate IsSubsequence<T(==)>(a: seq<T>, b: seq<T>)
    decreases |b|
  {
    if |a| == 0 then true
    else if |b| == 0 then false
    else (a[0] == b[0] && IsSubsequence(a[1..], b[1..])) || IsSubsequence(a, b[1..])
  }

  /** The elements of `s` that satisfy `keep`, in their original order and with their multiplicity. */
  function Filter<T(==,!new)>(keep: T -> bool, s: seq<T>): (r: seq<T>)
    ensures |r| <= |s|
    ensures forall x :: x in r <==> x in s && keep(x)
    ensures IsSubsequence(r, s)
  {
    if |s| == 0 then []
    else
      var rest := Filter(keep, s[1..]);
      assert s == [s[0]] + s[1..];
      if keep(s[0]) then [s[0]] + rest else rest
  }

  /** Filtering keeps every occurrence of a kept value and no occurrence of a dropped one. */
  lemma {:induction false} FilterMultiplicity<T(!new)>(keep: T -> bool, s: seq<T>, x: T)
    ensures multiset(Filter(keep, s))[x] == if keep(x) then multiset(s)[x] else 0
    decreases |s|
  {
    if |s| > 0 {
      FilterMultiplicity(keep, s[1..], x);
      assert s == [s[0]] + s[1..];
      assert multiset(s) == multiset{s[0]} + multiset(s[1..]);
    }
  }

  /** A sequence is a subsequence of itself. */
  lemma {:induction false} SubsequenceReflexive<T>(s: seq<T>)
    ensures IsSubsequence(s, s)
    decreases |s|
  {
    if |s| > 0 {
      SubsequenceReflexive(s[1..]);
    }
  }

  /** Filtering distributes over concatenation. */
  lemma {:induction false} FilterAppend<T(!new)>(keep: T -> bool, a: seq<T>, b: seq<T>)
    ensures Filter(keep, a + b) == Filter(keep, a) + Filter(keep, b)
    decreases |a|
  {
    if |a| == 0 {
      assert a + b == b;
    } else {
      assert (a + b)[0] == a[0];
      assert (a + b)[1..] == a[1..] + b;
      FilterAppend(keep, a[1..], b);
    }
  }

  /** A filter that keeps every element is the identity. */
  lemma {:induction false} FilterKeepsAll<T(!new)>(keep: T -> bool, s: seq<T>)
    requires forall x :: x in s ==> keep(x)
    ensures Filter(keep, s) == s
    decreases |s|
  {
    if |s| > 0 {
      FilterKeepsAll(keep, s[1..]);
    }
  }

  /** A filter that loses nothing kept everything. */
  lemma {:induction false} FilterFullLength<T(!new)>(keep: T -> bool, s: seq<T>)
    ensures |Filter(keep, s)| == |s| <==> forall x :: x in s ==> keep(x)
    decreases |s|
  {
    if |s| > 0 {
      FilterFullLength(keep, s[1..]);
      assert s == [s[0]] + s[1..];
      if forall x :: x in s ==> keep(x) {
        FilterKeepsAll(keep, s);
      }
    }
  }

  /** Two filters in a row keep what satisfies both. */
  lemma {:induction false} FilterFilter<T(!new)>(outer: T -> bool, inner: T -> bool, both: T -> bool, s: seq<T>)
    requires forall x :: both(x) == (inner(x) && outer(x))
    ensures Filter(outer, Filter(inner, s)) == Filter(both, s)
    decreases |s|
  {
    if |s| > 0 {
      FilterFilter(outer, inner, both, s[1..]);
    }
  }

  /** Filters by pointwise-equal tests give equal results. */
  lemma {:induction false} FilterExtensional<T(!new)>(a: T -> bool, b: T -> bool, s: seq<T>)
    requires forall x :: a(x) == b(x)
    ensures Filter(a, s) == Filter(b, s)
    decreases |s|
  {
    if |s| > 0 {
      FilterExtensional(a, b, s[1..]);
    }
  }

  /** `s` holds no value twice. */
  predicate NoDuplicates<T(==)>(s: seq<T>)
  {
    forall i, j :: 0 <= i < j < |s| ==> s[i] != s[j]
  }

  /**
   * `r` lists values in the order they are first seen in `s`: every value
   * before another in `r` occurs in `s` before the later one first does.
   */
  predicate InFirstSeenOrder<T(==)>(r: seq<T>, s: seq<T>)
  {
    forall i, j :: 0 <= i < j < |r| ==> SeenBefore(s, r[i], r[j])
  }

  /** `a` occurs in `s` before `b` first does. */
  predicate SeenBefore<T(==)>(s: seq<T>, a: T, b: T)
  {
    exists k :: 0 <= k < |s| && s[k] == a && b !in s[..k]
  }

  /** `Array.from(new Set(s))`: the distinct values of `s`, each at the place it first occurs. */
  function Distinct<T(==,!new)>(s: seq<T>): (r: seq<T>)
    ensures NoDuplicates(r)
    ensures forall x :: x in r <==> x in s
    ensures IsSubsequence(r, s)
    ensures InFirstSeenOrder(r, s)
    decreases |s|
  {
    if |s| == 0 then []
    else
      var rest := Distinct(s[..|s| - 1]);
      assert s == s[..|s| - 1] + [s[|s| - 1]];
      SubsequenceExtend(rest, s[..|s| - 1], s[|s| - 1]);
      FirstSeenExtend(rest, s[..|s| - 1], s[|s| - 1]);
      if s[|s| - 1] in rest then rest
      else
        SubsequenceAppend(rest, s[..|s| - 1], s[|s| - 1]);
        rest + [s[|s| - 1]]
  }

  /**
   * Seeing one more value keeps the first-seen order, and a value not seen
   * before goes last in it.
   */
  lemma FirstSeenExtend<T>(r: seq<T>, p: seq<T>, x: T)
    requires InFirstSeenOrder(r, p)
    requires forall y :: y in r <==> y in p
    ensures InFirstSeenOrder(r, p + [x])
    ensures x !in p ==> InFirstSeenOrder(r + [x], p + [x])
  {
    var q := p + [x];
    forall i, j | 0 <= i < j < |r|
      ensures SeenBefore(q, r[i], r[j])
    {
      var k :| 0 <= k < |p| && p[k] == r[i] && r[j] !in p[..k];
      assert q[k] == p[k] && q[..k] == p[..k];
      assert r[j] !in q[..k];
    }
    assert InFirstSeenOrder(r, q);
    if x !in p {
      var r' := r + [x];
      forall i, j | 0 <= i < j < |r'|
        ensures SeenBefore(q, r'[i], r'[j])
      {
        if j < |r| {
          var k :| 0 <= k < |q| && q[k] == r[i] && r[j] !in q[..k];
          assert r'[i] == r[i] && r'[j] == r[j];
        } else {
          assert r'[i] == r[i] && r[i] in p;
          var k :| 0 <= k < |p| && p[k] == r[i];
          assert forall y :: y in p[..k] ==> y in p;
          assert q[k] == p[k] && q[..k] == p[..k];
          assert x !in q[..k];
        }
      }
      assert InFirstSeenOrder(r', q);
    }
  }

  /** A subsequence of `b` is a subsequence of `b` extended at the end. */
  lemma {:induction false} SubsequenceExtend<T>(a: seq<T>, b: seq<T>, x: T)
    requires IsSubsequence(a, b)
    ensures IsSubsequence(a, b + [x])
    decreases |b|
  {
    if |a| > 0 && |b| > 0 {
      assert (b + [x])[1..] == b[1..] + [x];
      if a[0] == b[0] && IsSubsequence(a[1..], b[1..]) {
        SubsequenceExtend(a[1..], b[1..], x);
      } else {
        SubsequenceExtend(a, b[1..], x);
      }
    }
  }

  /** Extending both sides by the same element keeps the subsequence relation. */
  lemma {:induction false} SubsequenceAppend<T>(a: seq<T>, b: seq<T>, x: T)
    requires IsSubsequence(a, b)
    ensures IsSubsequence(a + [x], b + [x])
    decreases |b|
  {
    if |a| == 0 {
      assert a + [x] == [x];
      SubsequenceReflexive([x]);
      SubsequenceTail([x], b);
    } else {
      assert (b + [x])[1..] == b[1..] + [x];
      assert (a + [x])[1..] == a[1..] + [x];
      if a[0] == b[0] && IsSubsequence(a[1..], b[1..]) {
        SubsequenceAppend(a[1..], b[1..], x);
      } else {
        SubsequenceAppend(a, b[1..], x);
      }
    }
  }

  /** Anything before a subsequence may be skipped. */
  lemma {:induction false} SubsequenceTail<T>(a: seq<T>, b: seq<T>)
    requires IsSubsequence(a, a)
    ensures IsSubsequence(a, b + a)
    decreases |b|
  {
    if |b| == 0 {
      assert b + a == a;
    } else {
      assert (b + a)[1..] == b[1..] + a;
      SubsequenceTail(a, b[1..]);
    }
  }

  /** Two positions of a subsequence come from two positions of the whole, in the same order. */
  lemma {:induction false} SubsequenceKeepsOrder<T>(a: seq<T>, b: seq<T>, i: int, j: int)
    requires IsSubsequence(a, b) && 0 <= i < j < |a|
    ensures exists i', j' :: 0 <= i' < j' < |b| && b[i'] == a[i] && b[j'] == a[j]
    decreases |b|
  {
    if a[0] == b[0] && IsSubsequence(a[1..], b[1..]) {
      if i == 0 {
        SubsequenceHas(a[1..], b[1..], j - 1);
        var j' :| 0 <= j' < |b[1..]| && b[1..][j'] == a[1..][j - 1];
        assert b[0] == a[i] && b[j' + 1] == a[j];
      } else {
        SubsequenceKeepsOrder(a[1..], b[1..], i - 1, j - 1);
        var i', j' :| 0 <= i' < j' < |b[1..]| && b[1..][i'] == a[1..][i - 1] && b[1..][j'] == a[1..][j - 1];
        assert b[i' + 1] == a[i] && b[j' + 1] == a[j];
      }
    } else {
      SubsequenceKeepsOrder(a, b[1..], i, j);
      var i', j' :| 0 <= i' < j' < |b[1..]| && b[1..][i'] == a[i] && b[1..][j'] == a[j];
      assert b[i' + 1] == a[i] && b[j' + 1] == a[j];
    }
  }

  lemma {:induction false} SubsequenceHas<T>(a: seq<T>, b: seq<T>, k: int)
    requires IsSubsequence(a, b) && 0 <= k < |a|
    ensures exists k' :: 0 <= k' < |b| && b[k'] == a[k]
    decreases |b|
  {
    if a[0] == b[0] && IsSubsequence(a[1..], b[1..]) {
      if k > 0 {
        SubsequenceHas(a[1..], b[1..], k - 1);
        var k' :| 0 <= k' < |b[1..]| && b[1..][k'] == a[1..][k - 1];
        assert b[k' + 1] == a[k];
      }
    } else {
      SubsequenceHas(a, b[1..], k);
      var k' :| 0 <= k' < |b[1..]| && b[1..][k'] == a[k];
      assert b[k' + 1] == a[k];
    }
  }

  /** `Math.max` and `Math.min` on integers. */
  function Max(a: int, b: int): int { if a >= b then a else b }
  function Min(a: int, b: int): int { if a <= b then a else b }

  /** How `Array.prototype.slice` turns an argument into a position: negatives count from the end, and both are clamped. */
  function SliceIndex(i: int, len: nat): (k: nat)
    ensures k <= len
  {
    if i < 0 then Max(len + i, 0) else Min(i, len)
  }

  /** `Array.prototype.slice(a, b)`. */
  function JsSlice<T>(s: seq<T>, a: int, b: int): (r: seq<T>)
    ensures |r| <= |s|
    ensures 0 <= a <= b ==> r == s[Min(a, |s|)..Min(b, |s|)]
  {
    var lo := SliceIndex(a, |s|);
    var hi := SliceIndex(b, |s|);
    if lo < hi then s[lo..hi] else []
  }
}
