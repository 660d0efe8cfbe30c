/** The array primitives the application leans on (`slice`, `filter`, `find`,
    `some`), stated over Dafny sequences. */
module Seqs {
  import opened Wrappers

  function Min(a: int, b: int): int {
    if a <= b then a else b
  }

  /** `r` is `xs` with some elements left out and the rest kept in order. */
  ghost predicate SubsequenceOf<T>(r: seq<T>, xs: seq<T>)
    decreases |xs|
  {
    if |r| == 0 then true
    else if |xs| == 0 then false
    else (r[0] == xs[0] && SubsequenceOf(r[1..], xs[1..])) || SubsequenceOf(r, xs[1..])
  }

  /** `xs.slice(0, n)`: the first `n` elements, or all of them when there are fewer. */
  function Take<T>(xs: seq<T>, n: nat): (r: seq<T>)
    ensures |r| == Min(|xs|, n)
    ensures r <= xs
  {
    if |xs| <= n then xs else xs[..n]
  }

  /** `xs.some(p)`. */
  predicate Any<T>(p: T -> bool, xs: seq<T>) {
    exists i | 0 <= i < |xs| :: p(xs[i])
  }

  /** `xs.filter(p)`: the elements satisfying `p`, in their original order. */
  function Filter<T(!new)>(p: T -> bool, xs: seq<T>): (r: seq<T>)
    ensures |r| <= |xs|
    ensures forall i :: 0 <= i < |r| ==> p(r[i])
    ensures forall x :: x in r <==> x in xs && p(x)
    ensures SubsequenceOf(r, xs)
  {
    if |xs| == 0 then []
    else
      var rest := Filter(p, xs[1..]);
      assert xs == [xs[0]] + xs[1..];
      if p(xs[0]) then
        assert ([xs[0]] + rest)[1..] == rest;
        [xs[0]] + rest
      else
        rest
  }

  /** Filtering keeps every element satisfying `p` as often as `xs` holds it,
      and no other. */
  lemma {:induction false} FilterCounts<T(!new)>(p: T -> bool, xs: seq<T>)
    ensures forall x :: multiset(Filter(p, xs))[x] == if p(x) then multiset(xs)[x] else 0
    decreases |xs|
  {
    if |xs| > 0 {
      FilterCounts(p, xs[1..]);
      assert xs == [xs[0]] + xs[1..];
      assert multiset(xs) == multiset{xs[0]} + multiset(xs[1..]);
      if p(xs[0]) {
        assert Filter(p, xs) == [xs[0]] + Filter(p, xs[1..]);
      }
    }
  }

  /** The index of the first element satisfying `p` (`xs.findIndex(p)`), or
      None when no element does. */
  function FindIndex<T>(p: T -> bool, xs: seq<T>): (r: Option<nat>)
    ensures r.Some? ==> r.value < |xs| && p(xs[r.value])
    ensures r.Some? ==> forall j :: 0 <= j < r.value ==> !p(xs[j])
    ensures r.None? <==> !Any(p, xs)
  {
    if |xs| == 0 then None
    else if p(xs[0]) then Some(0)
    else
      match FindIndex(p, xs[1..])
      case None => None
      case Some(k) => Some(k + 1)
  }

  /** `xs.find(p)`: the first element satisfying `p`, or None. */
  function Find<T>(p: T -> bool, xs: seq<T>): (r: Option<T>)
    ensures r.None? <==> !Any(p, xs)
    ensures r.Some? ==> r.value in xs && p(r.value)
  {
    match FindIndex(p, xs)
    case None => None
    case Some(k) => Some(xs[k])
  }

  /** A prefix of a subsequence of `xs` is again a subsequence of `xs`. */
  lemma {:induction false} PrefixOfSubsequence<T>(q: seq<T>, r: seq<T>, xs: seq<T>)
    requires q <= r
    requires SubsequenceOf(r, xs)
    ensures SubsequenceOf(q, xs)
    decreases |xs|
  {
    if |q| == 0 {
    } else if r[0] == xs[0] && SubsequenceOf(r[1..], xs[1..]) {
      assert q[1..] <= r[1..];
      PrefixOfSubsequence(q[1..], r[1..], xs[1..]);
    } else {
      PrefixOfSubsequence(q, r, xs[1..]);
    }
  }

  /** Filtering distributes over concatenation: the elements of `a` and of `b`
      are judged independently of each other. */
  lemma {:induction false} FilterConcat<T(!new)>(p: T -> bool, a: seq<T>, b: seq<T>)
    ensures Filter(p, a + b) == Filter(p, a) + Filter(p, b)
    decreases |a|
  {
    if |a| == 0 {
      assert a + b == b;
    } else {
      assert (a + b)[1..] == a[1..] + b;
      FilterConcat(p, a[1..], b);
    }
  }

  /** Filtering with a test every element passes changes nothing. */
  lemma {:induction false} FilterKeepsAll<T(!new)>(p: T -> bool, xs: seq<T>)
    requires forall i :: 0 <= i < |xs| ==> p(xs[i])
    ensures Filter(p, xs) == xs
    decreases |xs|
  {
    if |xs| > 0 {
      FilterKeepsAll(p, xs[1..]);
    }
  }
}
