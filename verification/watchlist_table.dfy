/** The watchlist table (`src/components/feature/WatchlistTable.tsx`): one
    row per stock, in the order given, or a single empty-state row. */
module WatchlistTable {
  import opened Types

  /** The currency sign in front of a price. */
  datatype Currency = Dollar | Rupee

  /** Stocks listed in New York are priced in dollars, all others in rupees. */
  function CurrencyOf(exchange: string): (c: Currency)
    ensures c == Dollar <==> exchange in {"NASDAQ", "NYSE"}
  {
    if exchange == "NASDAQ" || exchange == "NYSE" then Dollar else Rupee
  }

  /** A rendered row: what it shows and the id its link and remove button carry. */
  datatype Row = Row(id: int, symbol: string, name: string, currency: Currency, price: real,
                     changePercent: real, rising: bool)

  /** The table body: the stock rows, or the single empty-state row. */
  datatype Body = Rows(rows: seq<Row>) | EmptyState

  function RowOf(s: Stock): (r: Row)
    ensures r.id == s.id && r.symbol == s.symbol && r.name == s.name
    ensures r.price == s.price && r.changePercent == s.changePercent
    ensures r.rising <==> s.changePercent >= 0.0
    ensures r.currency == CurrencyOf(s.exchange)
  {
    Row(s.id, s.symbol, s.name, CurrencyOf(s.exchange), s.price, s.changePercent, IsPositive(s))
  }

  function RowsOf(stocks: seq<Stock>): (r: seq<Row>)
    ensures |r| == |stocks|
    ensures forall i :: 0 <= i < |r| ==> r[i] == RowOf(stocks[i])
  {
    if |stocks| == 0 then [] else [RowOf(stocks[0])] + RowsOf(stocks[1..])
  }

  /** The table for `stocks`: the empty-state row exactly when there is no stock. */
  function Render(stocks: seq<Stock>): (b: Body)
    ensures b.EmptyState? <==> |stocks| == 0
    ensures b.Rows? ==> |b.rows| == |stocks| && forall i :: 0 <= i < |stocks| ==> b.rows[i] == RowOf(stocks[i])
  {
    if |stocks| == 0 then EmptyState else Rows(RowsOf(stocks))
  }

  /** The remove button of a row hands the row's stock id to `onRemove`. */
  function RemoveClicked(stocks: seq<Stock>, i: nat): (id: int)
    requires i < |stocks|
    ensures Render(stocks).Rows? && id == Render(stocks).rows[i].id && id == stocks[i].id
  {
    stocks[i].id
  }

  /** The ids the table shows are the ids of the stocks, one row each, so
      unique ids make every remove button name a single row. */
  lemma RowIdsUnique(stocks: seq<Stock>)
    requires UniqueIds(stocks) && |stocks| > 0
    ensures forall i, j :: 0 <= i < j < |stocks| ==> Render(stocks).rows[i].id != Render(stocks).rows[j].id
  {
  }
}
