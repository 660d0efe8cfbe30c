/** The orderings the pages sort by, and the stable sort they use. JavaScript's
    `Array.prototype.sort` is stable, and so is the insertion sort below. */
module Ranking {
  import opened Types
  import opened Seqs

  /** The comparators handed to `sort` in the source:
      `a.price - b.price`, `b.price - a.price`, `b.changePercent - a.changePercent`
      and `a.changePercent - b.changePercent`. */
  datatype Order = PriceAscending | PriceDescending | ChangeDescending | ChangeAscending

  /** `a` may stand before `b`: the comparator is not positive on (a, b). */
  predicate Precedes(o: Order, a: Stock, b: Stock) {
    match o
    case PriceAscending => a.price <= b.price
    case PriceDescending => a.price >= b.price
    case ChangeDescending => a.changePercent >= b.changePercent
    case ChangeAscending => a.changePercent <= b.changePercent
  }

  ghost predicate Sorted(o: Order, xs: seq<Stock>) {
    forall i, j :: 0 <= i < j < |xs| ==> Precedes(o, xs[i], xs[j])
  }

  /** Places `x` in front of the first element it may precede. */
  function Insert(o: Order, x: Stock, xs: seq<Stock>): (r: seq<Stock>)
    requires Sorted(o, xs)
    ensures Sorted(o, r)
    ensures multiset(r) == multiset(xs) + multiset{x}
    ensures forall y :: y in r ==> y == x || y in xs
  {
    if |xs| == 0 then [x]
    else if Precedes(o, x, xs[0]) then [x] + xs
    else
      var rest := Insert(o, x, xs[1..]);
      assert xs == [xs[0]] + xs[1..];
      forall y | y in rest ensures Precedes(o, xs[0], y) {
        if y != x {
          var m :| 0 <= m < |xs[1..]| && xs[1..][m] == y;
          assert xs[m + 1] == y;
        }
      }
      SortedCons(o, xs[0], rest);
      [xs[0]] + rest
  }

  /** An element that may precede every element of a sorted list may head it. */
  lemma SortedCons(o: Order, a: Stock, ys: seq<Stock>)
    requires Sorted(o, ys)
    requires forall y :: y in ys ==> Precedes(o, a, y)
    ensures Sorted(o, [a] + ys)
  {
    var zs := [a] + ys;
    forall i, j | 0 <= i < j < |zs| ensures Precedes(o, zs[i], zs[j]) {
      assert zs[j] == ys[j - 1];
      if i > 0 { assert zs[i] == ys[i - 1]; }
    }
  }

  /** `[...xs].sort(comparator)`: a sorted rearrangement of `xs`. */
  function SortBy(o: Order, xs: seq<Stock>): (r: seq<Stock>)
    ensures Sorted(o, r)
    ensures multiset(r) == multiset(xs)
    ensures |r| == |xs|
  {
    if |xs| == 0 then []
    else
      assert xs == [xs[0]] + xs[1..];
      Insert(o, xs[0], SortBy(o, xs[1..]))
  }

  /** The figure an order compares: the price or the percent change. */
  function Key(o: Order, s: Stock): real {
    match o
    case PriceAscending => s.price
    case PriceDescending => s.price
    case ChangeDescending => s.changePercent
    case ChangeAscending => s.changePercent
  }

  /** Inserting `x` puts it in front of every entry with the same figure:
      among the entries whose figure is `k`, `x` comes first if it is one
      of them, and the others keep their order. */
  lemma {:induction false} InsertStable(o: Order, x: Stock, ys: seq<Stock>, k: real, same: Stock -> bool)
    requires Sorted(o, ys)
    requires forall s :: same(s) <==> Key(o, s) == k
    ensures Filter(same, Insert(o, x, ys)) == (if same(x) then [x] else []) + Filter(same, ys)
    decreases |ys|
  {
    if |ys| == 0 {
      assert Insert(o, x, ys) == [x];
      assert [x][1..] == [];
    } else if Precedes(o, x, ys[0]) {
      assert Insert(o, x, ys) == [x] + ys;
      assert ([x] + ys)[1..] == ys;
    } else {
      var rest := Insert(o, x, ys[1..]);
      assert Sorted(o, ys[1..]);
      InsertStable(o, x, ys[1..], k, same);
      assert Key(o, x) != Key(o, ys[0]);
      assert Insert(o, x, ys) == [ys[0]] + rest;
      assert ([ys[0]] + rest)[1..] == rest;
    }
  }

  /** The sort is stable: the entries with any one figure appear in the
      sorted list in the order the input lists them. */
  lemma {:induction false} SortByStable(o: Order, xs: seq<Stock>, k: real, same: Stock -> bool)
    requires forall s :: same(s) <==> Key(o, s) == k
    ensures Filter(same, SortBy(o, xs)) == Filter(same, xs)
    decreases |xs|
  {
    if |xs| > 0 {
      SortByStable(o, xs[1..], k, same);
      InsertStable(o, xs[0], SortBy(o, xs[1..]), k, same);
      assert SortBy(o, xs) == Insert(o, xs[0], SortBy(o, xs[1..]));
      if !same(xs[0]) {
        assert Filter(same, xs) == Filter(same, xs[1..]);
        assert [] + Filter(same, xs[1..]) == Filter(same, xs[1..]);
      }
    }
  }

  /** `[...xs].sort(comparator).slice(0, n)`: the `n` best entries under `o`.
      Every entry left out ranks no higher than any entry kept. */
  function Top(o: Order, xs: seq<Stock>, n: nat): (r: seq<Stock>)
    ensures |r| == Min(|xs|, n)
    ensures Sorted(o, r)
    ensures multiset(r) <= multiset(xs)
    ensures forall y :: y in r ==> y in xs
    ensures forall x, i :: x in xs && x !in r && 0 <= i < |r| ==> Precedes(o, r[i], x)
  {
    var sorted := SortBy(o, xs);
    PrefixOfSorted(o, sorted, xs, n);
    Take(sorted, n)
  }

  lemma PrefixOfSorted(o: Order, sorted: seq<Stock>, xs: seq<Stock>, n: nat)
    requires Sorted(o, sorted) && multiset(sorted) == multiset(xs)
    ensures multiset(Take(sorted, n)) <= multiset(xs)
    ensures forall y :: y in Take(sorted, n) ==> y in xs
    ensures forall x, i :: x in xs && x !in Take(sorted, n) && 0 <= i < |Take(sorted, n)| ==>
              Precedes(o, Take(sorted, n)[i], x)
  {
    var r := Take(sorted, n);
    assert sorted == r + sorted[|r|..];
    assert multiset(sorted) == multiset(r) + multiset(sorted[|r|..]);
    forall y | y in r ensures y in xs {
      assert y in multiset(r);
      assert y in multiset(sorted);
      assert y in multiset(xs);
    }
    forall x, i | x in xs && x !in r && 0 <= i < |r|
      ensures Precedes(o, r[i], x)
    {
      assert x in multiset(sorted);
      var m :| 0 <= m < |sorted| && sorted[m] == x;
    }
  }
}
