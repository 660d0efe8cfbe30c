/** The market page (`src/app/market/page.tsx`): the whole catalogue filtered
    by a search box, and the ten strongest gainers and losers. */
module MarketPage {
  import opened Types
  import opened Seqs
  import opened Text
  import opened Ranking

  /** How many stocks the gainers and losers tabs list. */
  const TabSize: nat := 10

  /** The stock's name or symbol, lower-cased, contains the lower-cased search. */
  predicate NameOrSymbolMatches(search: string, s: Stock) {
    Includes(Lower(s.name), Lower(search)) || Includes(Lower(s.symbol), Lower(search))
  }

  /** `filteredStocks`: the catalogue entries matching the search, in
      catalogue order. Unlike the header box, the sector is not searched and a
      blank search is not special. */
  function Listed(catalogue: seq<Stock>, search: string): (r: seq<Stock>)
    ensures forall s :: s in r <==> s in catalogue && NameOrSymbolMatches(search, s)
    ensures SubsequenceOf(r, catalogue)
    ensures forall s :: multiset(r)[s] == if NameOrSymbolMatches(search, s) then multiset(catalogue)[s] else 0
  {
    FilterCounts(s => NameOrSymbolMatches(search, s), catalogue);
    Filter(s => NameOrSymbolMatches(search, s), catalogue)
  }

  /** An empty search lists the whole catalogue, in order. */
  lemma EmptySearchListsAll(catalogue: seq<Stock>)
    ensures Listed(catalogue, "") == catalogue
  {
    forall i | 0 <= i < |catalogue| ensures NameOrSymbolMatches("", catalogue[i]) {
      IncludesEmpty(Lower(catalogue[i].name));
    }
    FilterKeepsAll(s => NameOrSymbolMatches("", s), catalogue);
  }

  /** The gainers tab: the ten largest changes, largest first; no stock left
      out changed more than one listed. */
  function Gainers(catalogue: seq<Stock>): (r: seq<Stock>)
    ensures |r| == Min(|catalogue|, TabSize)
    ensures forall i, j :: 0 <= i < j < |r| ==> r[i].changePercent >= r[j].changePercent
    ensures multiset(r) <= multiset(catalogue)
    ensures forall x, i :: x in catalogue && x !in r && 0 <= i < |r| ==> r[i].changePercent >= x.changePercent
  {
    var r := Top(ChangeDescending, catalogue, TabSize);
    assert forall i, j :: 0 <= i < j < |r| ==> Precedes(ChangeDescending, r[i], r[j]);
    r
  }

  /** The losers tab: the ten smallest changes, smallest first; no stock left
      out changed less than one listed. */
  function Losers(catalogue: seq<Stock>): (r: seq<Stock>)
    ensures |r| == Min(|catalogue|, TabSize)
    ensures forall i, j :: 0 <= i < j < |r| ==> r[i].changePercent <= r[j].changePercent
    ensures multiset(r) <= multiset(catalogue)
    ensures forall x, i :: x in catalogue && x !in r && 0 <= i < |r| ==> r[i].changePercent <= x.changePercent
  {
    var r := Top(ChangeAscending, catalogue, TabSize);
    assert forall i, j :: 0 <= i < j < |r| ==> Precedes(ChangeAscending, r[i], r[j]);
    r
  }

  /** A catalogue of at most ten stocks appears in full on both tabs. */
  lemma SmallCatalogueInFull(catalogue: seq<Stock>)
    requires |catalogue| <= TabSize
    ensures multiset(Gainers(catalogue)) == multiset(catalogue)
    ensures multiset(Losers(catalogue)) == multiset(catalogue)
  {
    assert Take(SortBy(ChangeDescending, catalogue), TabSize) == SortBy(ChangeDescending, catalogue);
    assert Take(SortBy(ChangeAscending, catalogue), TabSize) == SortBy(ChangeAscending, catalogue);
  }

  /** The colour a market card's change is shown in. */
  datatype Tone = Green | Red

  /** `isPositive ? "text-green-500" : "text-red-500"`. */
  function CardTone(s: Stock): (t: Tone)
    ensures t == Green <==> s.changePercent >= 0.0
  {
    if IsPositive(s) then Green else Red
  }
}
