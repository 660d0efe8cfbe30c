/** The home page's four carousels (`src/app/page.tsx`), each a view of the
    catalogue. */
module HomePage {
  import opened Types
  import opened Seqs
  import opened Ranking

  const CarouselSize: nat := 10

  /** The first ten catalogue stocks. */
  function Trending(catalogue: seq<Stock>): (r: seq<Stock>)
    ensures |r| == Min(|catalogue|, CarouselSize) && r <= catalogue
  {
    Take(catalogue, CarouselSize)
  }

  /** The ten largest changes, largest first (the market page's gainers). */
  function TopGainers(catalogue: seq<Stock>): (r: seq<Stock>)
    ensures |r| == Min(|catalogue|, CarouselSize)
    ensures Sorted(ChangeDescending, r)
    ensures multiset(r) <= multiset(catalogue)
    ensures forall x, i :: x in catalogue && x !in r && 0 <= i < |r| ==> r[i].changePercent >= x.changePercent
  {
    Top(ChangeDescending, catalogue, CarouselSize)
  }

  predicate IsBanking(s: Stock) {
    s.sector == "Banking" || s.sector == "Finance"
  }

  predicate IsIt(s: Stock) {
    s.sector == "IT Services"
  }

  /** The banking and finance stocks, in catalogue order. */
  function BankingStocks(catalogue: seq<Stock>): (r: seq<Stock>)
    ensures forall s :: s in r <==> s in catalogue && (s.sector == "Banking" || s.sector == "Finance")
    ensures SubsequenceOf(r, catalogue)
  {
    Filter(IsBanking, catalogue)
  }

  /** The IT services stocks, in catalogue order. */
  function ItStocks(catalogue: seq<Stock>): (r: seq<Stock>)
    ensures forall s :: s in r <==> s in catalogue && s.sector == "IT Services"
    ensures SubsequenceOf(r, catalogue)
  {
    Filter(IsIt, catalogue)
  }

  /** The banking and IT carousels never share a stock, and together hold
      each of their stocks exactly as often as the catalogue does. */
  lemma SectorCarouselsDisjoint(catalogue: seq<Stock>)
    ensures forall s :: !(s in BankingStocks(catalogue) && s in ItStocks(catalogue))
    ensures multiset(BankingStocks(catalogue)) + multiset(ItStocks(catalogue))
         == multiset(Filter(s => IsBanking(s) || IsIt(s), catalogue))
  {
    var banking, it := BankingStocks(catalogue), ItStocks(catalogue);
    var both := Filter(s => IsBanking(s) || IsIt(s), catalogue);
    FilterCounts(IsBanking, catalogue);
    FilterCounts(IsIt, catalogue);
    FilterCounts(s => IsBanking(s) || IsIt(s), catalogue);
    forall x ensures (multiset(banking) + multiset(it))[x] == multiset(both)[x] {
      assert multiset(banking)[x] == if IsBanking(x) then multiset(catalogue)[x] else 0;
      assert multiset(it)[x] == if IsIt(x) then multiset(catalogue)[x] else 0;
    }
  }
}
