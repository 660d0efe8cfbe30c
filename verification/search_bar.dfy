/** The header search box (`src/components/feature/SearchBar.tsx`): up to
    five catalogue stocks whose symbol, name or sector contains the typed
    text, ignoring case, and the box's small state machine. */
module SearchBar {
  import opened Types
  import opened Seqs
  import opened Text

  /** How many suggestions the box lists at most. */
  const MaxResults: nat := 5

  /** The stock's symbol, name or sector, lower-cased, contains `lowerQuery`. */
  predicate Matches(lowerQuery: string, s: Stock) {
    Includes(Lower(s.symbol), lowerQuery) || Includes(Lower(s.name), lowerQuery) || Includes(Lower(s.sector), lowerQuery)
  }

  /** The first five catalogue stocks matching `lowerQuery`, in catalogue order. */
  function FirstMatches(catalogue: seq<Stock>, lowerQuery: string): (r: seq<Stock>)
    ensures |r| == Min(|Filter(s => Matches(lowerQuery, s), catalogue)|, MaxResults)
    ensures forall i :: 0 <= i < |r| ==> Matches(lowerQuery, r[i])
    ensures SubsequenceOf(r, catalogue)
    ensures r <= Filter(s => Matches(lowerQuery, s), catalogue)
    ensures |Filter(s => Matches(lowerQuery, s), catalogue)| <= MaxResults ==>
      forall s :: s in catalogue && Matches(lowerQuery, s) ==> s in r
  {
    var matching := Filter(s => Matches(lowerQuery, s), catalogue);
    var r := Take(matching, MaxResults);
    PrefixOfSubsequence(r, matching, catalogue);
    r
  }

  /** `filteredStocks`: nothing for a blank query (`!query.trim()`); otherwise
      the first five matches of the lower-cased query. The query is not
      trimmed for the match itself. */
  function Results(catalogue: seq<Stock>, query: string): (r: seq<Stock>)
    ensures Blank(query) ==> r == []
    ensures !Blank(query) ==> r == FirstMatches(catalogue, Lower(query))
  {
    TrimEmptyIffBlank(query);
    if Trim(query) == "" then [] else FirstMatches(catalogue, Lower(query))
  }

  /** Lower-casing keeps a character's whitespace-ness. */
  lemma {:induction false} BlankLower(s: string)
    ensures Blank(Lower(s)) <==> Blank(s)
  {
    forall i | 0 <= i < |s| ensures IsJsSpace(Lower(s)[i]) <==> IsJsSpace(s[i]) {
      if IsUpper(s[i]) {
        assert !IsJsSpace(s[i]) && !IsJsSpace(Lower(s)[i]);
      }
    }
  }

  /** The suggestions do not depend on the case of the query. */
  lemma ResultsIgnoreCase(catalogue: seq<Stock>, query: string)
    ensures Results(catalogue, Lower(query)) == Results(catalogue, query)
  {
    BlankLower(query);
    LowerIdempotent(query);
  }

  /** What the box shows: the text typed and whether it has focus. */
  datatype SearchState = SearchState(query: string, focused: bool)

  /** The events the box reacts to; `Blur` is the delayed loss of focus. */
  datatype SearchEvent = Type(text: string) | Focus | Blur | Select(stockId: int) | Clear

  /** Where a selection sends the user: the stock's detail page. */
  datatype Navigation = Stay | StockPage(id: int)

  /** The suggestion list is open while the box has focus and text. */
  predicate DropdownOpen(st: SearchState) {
    st.focused && st.query != ""
  }

  /** One event: typing sets the text; selecting a suggestion opens its page,
      empties the box and drops focus; the clear button empties the box and
      keeps focus. */
  function Step(st: SearchState, e: SearchEvent): (r: (SearchState, Navigation))
    ensures e.Select? ==> r.1 == StockPage(e.stockId) && !DropdownOpen(r.0) && !r.0.focused
    ensures !e.Select? ==> r.1 == Stay
    ensures e.Clear? ==> r.0 == SearchState("", true) && !DropdownOpen(r.0)
    ensures e.Type? ==> r.0.query == e.text && r.0.focused == st.focused
    ensures e.Focus? || e.Blur? ==> r.0.query == st.query && r.0.focused == e.Focus?
  {
    match e
    case Type(text) => (st.(query := text), Stay)
    case Focus => (st.(focused := true), Stay)
    case Blur => (st.(focused := false), Stay)
    case Select(id) => (SearchState("", false), StockPage(id))
    case Clear => (SearchState("", true), Stay)
  }

  /** After a selection or a clear the box lists nothing, whatever the catalogue. */
  lemma NothingListedAfterReset(catalogue: seq<Stock>, st: SearchState, e: SearchEvent)
    requires e.Select? || e.Clear?
    ensures Results(catalogue, Step(st, e).0.query) == []
  {
  }
}
