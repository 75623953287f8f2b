/**
 * The two array methods the dashboard leans on, `Array.prototype.filter`
 * and `Array.prototype.findIndex`, over immutable sequences.
 */
module Seqs {

  /**
   * `r` can be obtained from `s` by deleting elements: what is kept stays
   * in its original order.
   */
  predicate IsSubsequence<T(==)>(r: seq<T>, s: seq<T>)
    decreases |s|
  {
    r == [] ||
    (s != [] && ((r[0] == s[0] && IsSubsequence(r[1..], s[1..])) || IsSubsequence(r, s[1..])))
  }

  /**
   * `r` is the order-preserving selection of exactly those elements of `s`
   * that satisfy `p`, each as often as it occurs in `s`.
   */
  ghost predicate Selects<T(!new)>(r: seq<T>, s: seq<T>, p: T -> bool) {
    IsSubsequence(r, s) &&
    forall x :: multiset(r)[x] == if p(x) then multiset(s)[x] else 0
  }

  /** `s.filter(p)`. */
  function Filter<T(!new)>(s: seq<T>, p: T -> bool): (r: seq<T>)
    ensures |r| <= |s|
    ensures forall k :: 0 <= k < |r| ==> p(r[k])
    ensures Selects(r, s, p)
  {
    if s == [] then []
    else
      var rest := Filter(s[1..], p);
      assert s == [s[0]] + s[1..];
      if p(s[0]) then
        var r := [s[0]] + rest;
        assert r[1..] == rest;
        r
      else rest
  }

  /** `s.findIndex(p)`: the first index whose element satisfies `p`, or -1. */
  function FindIndex<T>(s: seq<T>, p: T -> bool): (k: int)
    ensures -1 <= k < |s|
    ensures k == -1 <==> forall i :: 0 <= i < |s| ==> !p(s[i])
    ensures k >= 0 ==> p(s[k]) && forall i :: 0 <= i < k ==> !p(s[i])
  {
    if s == [] then -1
    else if p(s[0]) then 0
    else
      var k := FindIndex(s[1..], p);
      if k == -1 then -1 else k + 1
  }

  /** A prefix of a subsequence is still a subsequence. */
  lemma {:induction false} SubsequencePrefix<T>(r: seq<T>, s: seq<T>, n: nat)
    requires IsSubsequence(r, s) && n <= |r|
    ensures IsSubsequence(r[..n], s)
    decreases |s|
  {
    if n > 0 {
      assert s != [];
      if r[0] == s[0] && IsSubsequence(r[1..], s[1..]) {
        SubsequencePrefix(r[1..], s[1..], n - 1);
        assert r[..n][1..] == r[1..][..n - 1];
      } else {
        SubsequencePrefix(r, s[1..], n);
      }
    }
  }

  /** The first `n` elements a filter keeps pass it and still form a subsequence. */
  lemma FilterPrefix<T(!new)>(s: seq<T>, p: T -> bool, n: nat)
    requires n <= |Filter(s, p)|
    ensures IsSubsequence(Filter(s, p)[..n], s)
    ensures forall k :: 0 <= k < n ==> p(Filter(s, p)[k])
  {
    SubsequencePrefix(Filter(s, p), s, n);
  }

  /** The first `n` elements of `s` that satisfy `p` (fewer when there are not that many). */
  function FirstMatches<T(!new)>(s: seq<T>, p: T -> bool, n: nat): (r: seq<T>)
    ensures |r| == if n <= |Filter(s, p)| then n else |Filter(s, p)|
    ensures IsSubsequence(r, s)
    ensures forall k :: 0 <= k < |r| ==> p(r[k]) && r[k] == Filter(s, p)[k]
  {
    var matches := Filter(s, p);
    var m := if n <= |matches| then n else |matches|;
    FilterPrefix(s, p, m);
    matches[..m]
  }

  /** Filtering by `p` and by its negation splits `s` in two. */
  lemma {:induction false} FilterPartition<T(!new)>(s: seq<T>, p: T -> bool, q: T -> bool)
    requires forall x :: q(x) == !p(x)
    ensures |Filter(s, p)| + |Filter(s, q)| == |s|
  {
    if s != [] {
      FilterPartition(s[1..], p, q);
    }
  }

  /** Filtering distributes over concatenation. */
  lemma {:induction false} FilterAppend<T(!new)>(s: seq<T>, t: seq<T>, p: T -> bool)
    ensures Filter(s + t, p) == Filter(s, p) + Filter(t, p)
  {
    if s == [] {
      assert s + t == t;
    } else {
      assert (s + t)[1..] == s[1..] + t;
      FilterAppend(s[1..], t, p);
    }
  }

  /** A filter that every element passes keeps the whole sequence. */
  lemma {:induction false} FilterKeepsAll<T(!new)>(s: seq<T>, p: T -> bool)
    requires forall k :: 0 <= k < |s| ==> p(s[k])
    ensures Filter(s, p) == s
  {
    if s != [] {
      FilterKeepsAll(s[1..], p);
    }
  }

  /** The size of a filter over a non-empty sequence, one element at a time. */
  lemma FilterSizeUnfold<T(!new)>(s: seq<T>, p: T -> bool)
    requires s != []
    ensures |Filter(s, p)| == (if p(s[0]) then 1 else 0) + |Filter(s[1..], p)|
  {
  }

  /** Replacing one element changes a filter's size only by what that element contributes. */
  lemma {:induction false} FilterSizeAfterReplace<T(!new)>(s: seq<T>, k: nat, y: T, p: T -> bool)
    requires k < |s|
    ensures |Filter(s[k := y], p)| ==
            |Filter(s, p)| - (if p(s[k]) then 1 else 0) + (if p(y) then 1 else 0)
  {
    var u := s[k := y];
    FilterSizeUnfold(u, p);
    FilterSizeUnfold(s, p);
    if k == 0 {
      assert u[1..] == s[1..];
    } else {
      assert u[1..] == s[1..][k - 1 := y];
      FilterSizeAfterReplace(s[1..], k - 1, y, p);
    }
  }
}
