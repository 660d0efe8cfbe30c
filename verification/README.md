# Stockify in Dafny

Stockify is a small stock-market web application for the Indian and US
markets. It has a static catalogue of stocks, live quotes fetched through its
own proxy route, and a per-user watchlist kept in a document store. Its pages
are: a home page of carousels, a market page with search and
gainers/losers tabs, a Tinder-like "discover" deck, the watchlist, sign-up
and a profile page.

This project models the logic of those pages and services as pure functions
over immutable data, and proves what they promise:

- `WatchlistStore` (`firestore.dfy`): the watchlist service. The document
  store is a map from user id to document. Each call's read and write may
  fail. `arrayUnion`/`arrayRemove` compare whole elements.
- `Api`, `PriceRoute`, `Query`, `QuotePipeline`, `Json`: the live-quote path.
  - `fetchStockPrice` builds the proxy URL as the code writes it, with the
    symbol and exchange put in unencoded.
  - `GET /api/price` parses the query the way `URLSearchParams` does, picks
    the data provider's key, requests the provider's URL (again unencoded)
    and passes the provider's JSON on.
  - The client turns the answer into figures or "no data".
  - `QuotePipeline` composes the client and the proxy end to end.
  - Both URLs lose a symbol containing `&` (see "## Findings"). The members
    `FetchStockPriceEncoded`, `GetEncoded` and `EndToEndEncoded` model the
    corrected code, which encodes each value, next to the code as written.
- `WatchlistPage`, `DiscoverPage`, `SwipeableCard`, `AddButton`,
  `SearchBar`, `MarketPage`, `HomePage`, `WatchlistTable`, `Signup`,
  `ProfilePage`, `Auth`: one module per page, component or context.
  - Effects and event handlers are functions from the state before to the
    state after.
  - Toasts are returned as notice values.
- `Types`, `Ranking`, `Seqs`, `Text`, `Wrappers`: the shared pieces.
  - `Types` holds the `Stock` record, and `Ranking` the four sort orders and
    the sort.
  - `Seqs`, `Text` and `Wrappers` hold sequence helpers, JavaScript string
    operations and `Option`, with JavaScript's `a || b` on optional strings.

Everything outside the program is a parameter:

- the network: `http`, `provider`;
- `parseFloat`: `readNumber`;
- the document store's failures: `StoreIo`, `writeOk`;
- the authentication service: the user, notifications, `Creation`, `Step`;
- the clock: `now`;
- `Math.random`: `draws`.

The stock catalogue is a parameter too: the data file that defines it is not
part of this model.

Two behaviours of the code are easy to overlook, and the model keeps them:

- A quote whose `close` is truthy but parses to `NaN` still comes back as a
  quote (src/lib/api.ts:25-34). Only a failed response, an error status or a
  falsy `close` count as missing data; the parsed figures are not checked.
- `logout` signs out and then navigates, but does not clear the user itself
  (src/context/AuthContext.tsx:40-47). The authentication service's next
  notification does.

## Model

| member | source | states |
|---|---|---|
| WatchlistStore.Get | src/lib/firestore.ts:11-24 | The saved list is the document's `stocks` array. A missing array reads as empty. A missing document or a failed read gives the empty list, never an error. |
| WatchlistStore.Add | src/lib/firestore.ts:27-56 | Resolves to true exactly when the read and write succeed and no saved entry has the stock's id. On true, a user without a document gets exactly `[stock]`. Otherwise the stock is appended behind the earlier entries, which are unchanged. On false nothing is written. No other user's document changes. Unique ids stay unique. |
| WatchlistStore.ArrayRemove | src/lib/firestore.ts:67-71 | `arrayRemove` drops every element equal to the given one and keeps the others in order. |
| WatchlistStore.RemoveEntry | src/lib/firestore.ts:63-71 | There is nothing to write exactly when no entry has the id. Otherwise the list written is the old one without the first entry with that id and without all copies of it. Unique ids stay unique. |
| WatchlistStore.Remove | src/lib/firestore.ts:58-79 | Resolves to true exactly when the read and write succeed, the document exists and an entry has the id. On true, the stored list loses the first matching entry and its copies. On false nothing is written. No other user's document changes. Unique ids stay unique. |
| WatchlistStore.AddKeepsIds | src/lib/firestore.ts:42-51 | An add never loses a saved id. After an add whose read and write succeed, the stock's id is saved, whether it was added now or was there before. |
| WatchlistStore.AddTwice | src/lib/firestore.ts:42-49 | The duplicate guard works. After a first add resolves true, a second add of the same stock resolves false. The id is saved at most once, and exactly once when the first call's read and write succeeded. |
| WatchlistStore.RemoveUnderUniqueIds | src/lib/firestore.ts:65-70 | When ids are unique, removing the element found by id is the same as dropping every entry with that id. |
| WatchlistStore.RemoveLeavesNoEntry | src/lib/firestore.ts:58-74 | When ids are unique, a remove that resolves true leaves exactly the entries with other ids, in order. |
| WatchlistStore.AddThenRemoveRestores | src/lib/firestore.ts:27-79 | Adding a stock and then removing its id restores what `getWatchlist` reads. |
| WatchlistStore.RemoveNeedsUniqueIds | src/lib/firestore.ts:65-70 | The unique-id invariant is needed. Without it, a remove resolves true and still leaves a second, different entry with the same id. |
| Types.SameIdsAgree | src/lib/types.ts:1-18 | Two lists with the same ids at the same positions hold the same ids and are equally free of duplicates. A stock's identity is its id. |
| WatchlistPage.QuerySymbol | src/app/watchlist/page.tsx:30-34 | An NSE stock's quote symbol always ends in `.NS`. Other exchanges, and symbols that already end in `.NS`, are asked for as they are. |
| WatchlistPage.QuerySymbolStable | src/app/watchlist/page.tsx:30-34 | The suffix is never added twice. |
| WatchlistPage.Refresh | src/app/watchlist/page.tsx:40-50 | A quote replaces only the price and percent change. Without a quote the stored entry is shown as it is. |
| WatchlistPage.Enrich | src/app/watchlist/page.tsx:29-53 | The list keeps its length and order. Each position is its own entry, refreshed by the lookup of its own quote symbol. |
| WatchlistPage.EnrichKeepsIds | src/app/watchlist/page.tsx:29-53 | Refreshing keeps every id in place. The set of ids, and whether they are unique, do not change. |
| WatchlistPage.EnrichTwice | src/app/watchlist/page.tsx:29-53 | Refreshing twice with the same quotes is the same as refreshing once. |
| WatchlistPage.EnrichConcat | src/app/watchlist/page.tsx:29-53 | Entries are refreshed independently of each other. |
| WatchlistPage.EnrichFilter | src/app/watchlist/page.tsx:29-63 | Dropping the entries with one id commutes with refreshing. |
| WatchlistPage.LoadWatchlist | src/app/watchlist/page.tsx:19-57 | Nothing is loaded while authentication is pending or without a user. Otherwise the page shows the saved entries, each refreshed with its own quote (price and change replaced when one arrived, the entry as saved otherwise), same ids in the same order, and they are unique when the store's are. |
| WatchlistPage.HandleRemove | src/app/watchlist/page.tsx:59-68 | Without a user nothing happens. Otherwise no entry with the id is shown any more and every other entry stays, in order and with as many copies as before. The store is asked to remove the id, and "Stock removed" is shown. |
| WatchlistPage.RemoveKeepsPageInStep | src/app/watchlist/page.tsx:59-68 | When the store's remove succeeds, the page again shows exactly the refreshed stored list. |
| WatchlistPage.FailedRemoveDiverges | src/app/watchlist/page.tsx:61-67 | The removal is optimistic. When the write fails, the entry is gone from the page but still saved, and "Stock removed" is still shown. |
| WatchlistPage.SortOrderOf | src/app/watchlist/page.tsx:72-79 | Exactly the three menu values select an order: `price-asc` ascending price, `price-desc` descending price, `change-desc` descending change. Any other value keeps the list. |
| WatchlistPage.SortedStocks | src/app/watchlist/page.tsx:70-82 | The displayed list is a rearrangement of the shown one, sorted under the chosen order, or the list itself for the default choice. |
| Api.ExchangeOrDefault | src/lib/api.ts:10 | The exchange defaults to NSE only when none is passed. An explicit empty string is kept. |
| Api.ReadQuote | src/lib/api.ts:17-39 | A quote comes back exactly when the status is 2xx, the body is JSON, is not `null`, is not an error status and has a truthy `close`. Its figures are read from `close`, `change` and `percent_change`. Every other outcome, a network failure included, is "no data". |
| Api.FetchStockPrice | src/lib/api.ts:10-39 | `fetchStockPrice` requests the unencoded proxy URL. A quote comes back exactly when the answer is an ok response whose JSON body is usable, and its figures are that body's. |
| Api.FetchStockPriceEncoded | src/lib/api.ts:10-39 | The corrected client: the same, for the encoded proxy URL. |
| Api.RequestUrlOnPlainInput | src/lib/api.ts:10-15 | On a symbol and exchange of unreserved characters, the unencoded and encoded request URLs are equal, and the proxy reads back the symbol and the exchange (NSE when none is passed). |
| PriceRoute.Route | src/app/api/price/route.ts:3-28 | The status is 400 exactly when the query lacks a symbol. An outbound request is made exactly when there is a symbol and a key, with the query's symbol, its exchange or NSE when that is empty or missing, and the key. The answer is 200 with the provider's JSON exactly when the provider answered. Otherwise it is 500 with the missing-key or fetch-failure message. |
| PriceRoute.Get | src/app/api/price/route.ts:3-28 | The route as written: the same statuses and outbound request, with the provider asked at the URL whose symbol, exchange and key are put in unencoded. |
| PriceRoute.GetEncoded | src/app/api/price/route.ts:3-28 | The corrected route settles on the same outbound request as the route as written and answers the same way, but asks the provider at the encoded URL. |
| PriceRoute.SymbolCheckedFirst | src/app/api/price/route.ts:8-17 | A request without a symbol gets the same answer whatever the environment holds. |
| PriceRoute.ServerKeyPreferred | src/app/api/price/route.ts:13 | The server-side key wins when set. The public key is used only in its absence. A key exists when either is set. |
| PriceRoute.GetNamed | src/app/api/price/route.ts:4-24 | For a query naming a symbol and an exchange, the outbound request carries exactly those, with NSE for an empty exchange. The provider's answer at the URL as written is passed on; for the corrected route, its answer at the encoded URL. |
| PriceRoute.ProviderAsWrittenOnPlainInput | src/app/api/price/route.ts:20 | When symbol, exchange and key consist of unreserved characters, the URL as written is the encoded URL, and the provider reads back all three. |
| PriceRoute.ProviderUrlRoundTrip | src/app/api/price/route.ts:20 | With encoded values, the provider reads back exactly the symbol, exchange and key the proxy meant, whatever characters they contain. |
| PriceRoute.ProviderAsWrittenSplitsAmpersand | src/app/api/price/route.ts:20 | As written, a symbol `M&M.NS` that the proxy read correctly reaches the provider as `M`, whatever plain key is used. |
| Query.DecodeEncode | src/app/api/price/route.ts:5-6 | Decoding a query value undoes encoding it. |
| Query.ClientUrlRoundTrip | src/app/api/price/route.ts:4-6 | With encoded values, the proxy reads back exactly the symbol and exchange the client put in the URL, whatever characters they contain. |
| Query.AsWrittenAgreesOnPlainInput | src/lib/api.ts:15 | For symbols and exchanges made only of unreserved characters, the URL as written equals the encoded URL, so the proxy reads the right symbol and exchange. |
| Query.AsWrittenSplitsAmpersand | src/lib/api.ts:15 | As written, the quote symbol `M&M.NS` reaches the proxy as `M`. |
| QuotePipeline.Answer | src/app/api/price/route.ts:20-27 | The client always receives a JSON response from the proxy, and it is `ok` exactly when the proxy answered 200. |
| QuotePipeline.AnswerEncoded | src/app/api/price/route.ts:20-27 | The same for the corrected proxy. |
| QuotePipeline.ServedQuote | src/app/api/price/route.ts:4-24 | For any request URL, the client gets a quote from the proxy as written exactly when the proxy reads a non-empty symbol there, a key is set, and the provider's answer at the unencoded URL for the symbol and exchange the proxy read is usable. The figures come from that answer. |
| QuotePipeline.ServedQuoteEncoded | src/app/api/price/route.ts:4-24 | For a URL naming a symbol and an exchange, the client gets a quote from the corrected proxy exactly when the symbol is non-empty, a key is set and the provider's answer at the encoded URL for that symbol and exchange is usable. The figures come from that answer. |
| QuotePipeline.EndToEnd | src/lib/api.ts:10-39 | End to end as written, `fetchStockPrice` gives a quote exactly when the proxy reads a non-empty symbol from the unencoded URL, a key is set, and the provider's answer at the proxy's unencoded URL is usable. The figures come from that answer. When the symbol and exchange consist of unreserved characters, the proxy reads exactly what the caller passed; when the key does too, so does the provider. |
| QuotePipeline.EndToEndEncoded | src/lib/api.ts:10-39 | With both URLs encoded, a quote comes exactly when the symbol is non-empty, a key is set and the provider's answer for the very symbol and exchange the caller asked for is usable, whatever characters they contain. The figures come from that answer, and the provider's URL names exactly that symbol and exchange. |
| QuotePipeline.AsWrittenAsksForWrongSymbol | src/lib/api.ts:15 | With a key set, `fetchStockPrice("M&M.NS")` makes the proxy ask the provider for `M`. |
| Signup.ContainsAny | src/app/signup/page.tsx:33-34 | A character-class test holds exactly when some character of the string is in the class. |
| Signup.ValidatePassword | src/app/signup/page.tsx:31-36 | A password passes exactly when it has 8 to 20 characters, a digit and one of `!@#$%^&*`. Otherwise the message names the first rule broken, in the order length, digit, symbol. |
| Signup.DisplayNameFor | src/app/signup/page.tsx:62-64 | The display name is the part of the email before its first `@`, or the whole address when there is none. |
| Signup.DisplayNameIsLocalPart | src/app/signup/page.tsx:62-64 | For `local@domain` with no `@` in `local`, the display name is `local`. |
| Signup.ErrorMessage | src/app/signup/page.tsx:84-87 | The two known failure codes map to their own messages. Every other code gives "Registration failed". |
| Signup.HandleSubmit | src/app/signup/page.tsx:38-91 | Password rules and then the confirmation are checked before anything is sent. Success, with the onboarding redirect, needs a valid form and all three remote steps. A refused creation shows its code's message and creates nothing. When the account is created but the profile update or the document write fails, that step's message is shown and the account stays behind. A new account's display name and document carry the email's local part, the time of creation and an empty bio and image. |
| Signup.OrphanedAccount | src/app/signup/page.tsx:56-88 | An account is left without its profile document exactly when the form passed, the account was created and the profile update or the document write failed. No account means no display name and no document. |
| SearchBar.FirstMatches | src/components/feature/SearchBar.tsx:18-23 | Exactly the first five matches in catalogue order, or all of them when fewer match: a prefix of all matches whose length is the smaller of five and the number of matches. |
| SearchBar.Results | src/components/feature/SearchBar.tsx:16-24 | A blank query lists nothing. Any other query lists the first matches of its lower-cased, untrimmed text. |
| SearchBar.ResultsIgnoreCase | src/components/feature/SearchBar.tsx:17-19 | The suggestions do not depend on the case of the query. |
| SearchBar.Step | src/components/feature/SearchBar.tsx:26-49 | Selecting a suggestion goes to that stock's page, empties the box and drops focus. Clearing empties the box and keeps focus. Typing and focus changes touch only their own field. |
| SearchBar.NothingListedAfterReset | src/components/feature/SearchBar.tsx:26-49 | After a selection or a clear, no suggestion is listed. |
| MarketPage.Listed | src/app/market/page.tsx:15-18 | The market lists exactly the catalogue stocks whose lower-cased name or symbol contains the lower-cased search, in catalogue order, each as many times as the catalogue holds it. |
| MarketPage.EmptySearchListsAll | src/app/market/page.tsx:15-18 | An empty search lists the whole catalogue, in order. |
| MarketPage.Gainers | src/app/market/page.tsx:20 | Lists the ten stocks with the largest change, or all when there are fewer, largest first. No stock left out changed more than one listed. |
| MarketPage.Losers | src/app/market/page.tsx:21 | Lists the ten stocks with the smallest change, or all when there are fewer, smallest first. No stock left out changed less than one listed. |
| MarketPage.SmallCatalogueInFull | src/app/market/page.tsx:20-21 | A catalogue of at most ten stocks appears in full on both tabs. |
| MarketPage.CardTone | src/app/market/page.tsx:72 | A card is green exactly when its change is not negative. |
| Ranking.SortBy | src/app/watchlist/page.tsx:72-79 | Sorting gives a rearrangement of the list that is sorted under the chosen comparator. |
| Ranking.SortByStable | src/app/watchlist/page.tsx:72-78 | The sort is stable, as `Array.prototype.sort` is: stocks with the same price, or the same change, keep their relative order. |
| Ranking.Top | src/app/market/page.tsx:20-21 | The first `n` after sorting are sorted and drawn from the list, and no entry left out ranks above one kept. |
| HomePage.Trending | src/app/page.tsx:9 | The trending carousel is the first ten catalogue stocks. |
| HomePage.TopGainers | src/app/page.tsx:10 | The top-gainers carousel holds the ten largest changes, sorted, drawn from the catalogue with no stock repeated more often than there. No stock left out changed more. |
| HomePage.BankingStocks | src/app/page.tsx:11 | Exactly the Banking and Finance stocks, in catalogue order. |
| HomePage.ItStocks | src/app/page.tsx:12 | Exactly the IT Services stocks, in catalogue order. |
| HomePage.SectorCarouselsDisjoint | src/app/page.tsx:11-12 | The two sector carousels share no stock. Together they hold each of their stocks as often as the catalogue does. |
| DiscoverPage.Shuffle | src/app/discover/page.tsx:25 | The deck is a permutation of the catalogue, whatever the random draws. |
| DiscoverPage.ViewOf | src/app/discover/page.tsx:66-68 | An empty deck shows the loader. An index past the last card shows the end screen. Otherwise the card at the index is shown. |
| DiscoverPage.Restart | src/app/discover/page.tsx:61-64 | "Start Over" deals a fresh permutation of the catalogue from its top, showing a card when the catalogue is not empty. |
| DiscoverPage.HandleSwipe | src/app/discover/page.tsx:28-59 | Every swipe moves to the next card. A left swipe saves nothing. A right swipe without a user asks for a login. With a user, it asks the store to add the card's stock and reports whether that resolved to true. |
| DiscoverPage.Swipes | src/app/discover/page.tsx:28-59 | A run of swipes moves the index by its length, keeps saved ids unique, and never writes without a user. |
| DiscoverPage.SwipesKeepIds | src/app/discover/page.tsx:36-37 | Swipes never lose a saved stock. |
| DiscoverPage.LikedStocksSaved | src/app/discover/page.tsx:33-44 | With a signed-in user and a store that answers, every stock swiped right is in the watchlist afterwards. |
| DiscoverPage.PassEndsFinished | src/app/discover/page.tsx:31-68 | One swipe per card reaches the end screen. |
| SwipeableCard.ClassifyDrag | src/components/feature/SwipeableCard.tsx:26-38 | A drag is a right swipe exactly when it goes more than 100 px or 500 px/s right. Otherwise it is a left swipe exactly when it goes that far or fast left. Otherwise it snaps back. |
| SwipeableCard.ClassifyDragSymmetric | src/components/feature/SwipeableCard.tsx:30-35 | Mirroring a drag mirrors its outcome, except for drags that point both ways. |
| SwipeableCard.ConflictingDragGoesRight | src/components/feature/SwipeableCard.tsx:30-33 | A drag far to one side and fast to the other is a right swipe, mirrored or not. |
| SwipeableCard.DragEnd | src/components/feature/SwipeableCard.tsx:26-39 | A swipe flies off on its own side, fading out, and is reported once. A snap-back returns the card and reports nothing. |
| SwipeableCard.ButtonSwipe | src/components/feature/SwipeableCard.tsx:41-48 | A button swipe flies off on its side, tilted towards it, fading out, and is reported once. |
| WatchlistTable.CurrencyOf | src/components/feature/WatchlistTable.tsx:40 | Prices are in dollars exactly for NASDAQ and NYSE stocks, in rupees otherwise. |
| WatchlistTable.RowOf | src/components/feature/WatchlistTable.tsx:29-48 | A row shows its stock's id, symbol, name, price and change. It is marked rising exactly when the change is not negative. |
| WatchlistTable.Render | src/components/feature/WatchlistTable.tsx:29-61 | The empty-state row appears exactly when there are no stocks. Otherwise there is one row per stock, in order. |
| WatchlistTable.RemoveClicked | src/components/feature/WatchlistTable.tsx:48 | A row's remove button hands over that row's stock id. |
| WatchlistTable.RowIdsUnique | src/components/feature/WatchlistTable.tsx:29-48 | With unique ids, no two rows carry the same id, so each remove button names one row. |
| AddButton.Sync | src/components/feature/AddToWatchlistButton.tsx:23-33 | Without a user the button shows "not saved". With one it shows "saved" when it already did or the stored list holds the stock. |
| AddButton.HandleAdd | src/components/feature/AddToWatchlistButton.tsx:35-62 | Without a user it asks for a login. An id missing from the catalogue does nothing. Otherwise the first catalogue stock with the id is added. The flag is raised on true and never lowered. The success notice shows exactly when the flag is set and the store changed. |
| AddButton.AddChangesStore | src/lib/firestore.ts:27-56 | An add that resolves true changes the store, and one that resolves false does not. |
| AddButton.Press | src/components/feature/AddToWatchlistButton.tsx:64-68 | While the stock is marked as saved the button is disabled and a click does nothing. |
| AddButton.SecondPressIgnored | src/components/feature/AddToWatchlistButton.tsx:45-68 | After a click saves the stock, a second click changes nothing. |
| AddButton.SavedStockFoundAgain | src/components/feature/AddToWatchlistButton.tsx:23-57 | After a click reports success, the effect run again on the new store finds the stock whenever its read succeeds. |
| Auth.Notify | src/context/AuthContext.tsx:31-38 | A notification sets the user to the notified one and ends loading. |
| Auth.ReplayLast | src/context/AuthContext.tsx:27-38 | Only the latest notification counts. Before the first one the start state is kept. |
| Auth.ReplayConcat | src/context/AuthContext.tsx:31-38 | Handling two runs of notifications in turn is handling them joined. |
| Auth.LoadingNeverReturns | src/context/AuthContext.tsx:27-38 | Loading, once over, never returns. From the start it is over exactly when a notification arrived. |
| Auth.DefaultIsStartup | src/context/AuthContext.tsx:18-28 | A consumer outside the provider sees what one inside sees before the first notification. |
| Auth.NoLoadWithoutUser | src/app/watchlist/page.tsx:19-21 | Before any notification, or after a sign-out, the watchlist page loads nothing. |
| Auth.Logout | src/context/AuthContext.tsx:40-47 | Logout goes to `/login` exactly when signing out succeeds. A failure is logged and swallowed. |
| ProfilePage.FirstGiven | src/app/profile/page.tsx:53-59 | `a \|\| b \|\| ""` is the first non-empty of the two, else the empty string. |
| ProfilePage.FetchProfile | src/app/profile/page.tsx:44-72 | Without a user, or when the read fails, nothing changes. With a document, every form field and the avatar are replaced, with the profile or the empty string as fallback. Without one, only name, email and avatar are set and the rest of the form is kept. |
| ProfilePage.FetchProfileIdempotent | src/app/profile/page.tsx:44-72 | Loading twice from the same answer is loading once. |
| ProfilePage.DocumentWins | src/app/profile/page.tsx:53-57 | A document's non-empty field always wins over the authentication profile. A missing bio, birth date or gender shows as empty. |
| ProfilePage.HandleSave | src/app/profile/page.tsx:123-148 | Only name, birth date and bio are written, and only when the write succeeds on an existing document. The display name is sent only after that write, and only when it differs. Success needs both steps. A failure shows the error, and a write made before the failure stays. |
| ProfilePage.SaveIgnoresEmailAndGender | src/app/profile/page.tsx:128-134 | The form's email and gender play no part in saving. |
| ProfilePage.SaveThenFetch | src/app/profile/page.tsx:50-139 | After a successful save, loading again shows the saved name, birth date and bio, with email, gender and avatar as before. |
| ProfilePage.HandleCropSave | src/app/profile/page.tsx:92-117 | A cropped image becomes the avatar at once, even when the write fails. It is written to the `image` field only, and the dialog closes only when the write succeeds. A failed write or a failed crop shows the error, and a failed write leaves the dialog and the document as they were. |
| ProfilePage.CroppedAvatarLoads | src/app/profile/page.tsx:92-111 | After a successful crop save, the next load shows the cropped image. |

## Left out

- Floating point: prices and changes are reals. `parseFloat` is a parameter, and `NaN` (an unparseable `close` or `change`) is not modelled.
- Concurrency: `Promise.all`, effects racing each other, and a fetch answering after the component unmounts. The model runs every step to completion, one after the other.
- Text is sequences of characters. Lengths are not UTF-16 code units, `toLowerCase` lower-cases ASCII letters only, and `trim` knows the ASCII and common Unicode spaces.
- Query: encoding characters beyond ASCII is modelled as passing them through, because their UTF-8 escapes and the decoding of those cancel out. Escapes of bytes above 0x7F are left as text when decoded.
- The data provider is a parameter that answers a URL. How it parses the query is assumed to follow the same form-urlencoded rules as the proxy's.
- The request origin of the proxy URL is not modelled. The unencoded URLs are read as the strings they are: the percent-encoding `fetch` applies to spaces, quotes and angle brackets is undone by the reading side, so it is left out.
- Number formatting (`toFixed`, `toLocaleString`), class names, icons, layout and animation timing are not modelled.
- Toasts are notice values. Loading spinners (`isLoading`, `isSaving`) are not modelled.
- ProfilePage: the file input, `FileReader`, the cropper and `getCroppedImg` are left out; the crop is a parameter. Form editing (`handleChange`) is plain field assignment and is not modelled.
- ProfilePage.HandleSave: the document update is assumed to fail on a missing document, as the document store's update does. Document fields are strings; other field types are not modelled.
- DiscoverPage.HandleSwipe: past the end of the deck the source throws a TypeError after moving the index. The model keeps only the moved index and raises no notice.
- DiscoverPage.Shuffle: `sort` with a random comparator is modelled by a sequence of draws. Only the permutation is claimed, not the distribution.
- AddButton.HandleAdd: the catch branch (src/components/feature/AddToWatchlistButton.tsx:59-61) is not modelled, because `addToWatchlist` catches its own failures and never throws.
- The watchlist page's requests use the default exchange. Network errors of the dynamic import are the `Failed` lookup outcome.
- The stock catalogue (the data file) and the onboarding, settings, stock detail, chart, navigation and user-menu pages are not part of this model.

## Findings

| source | as written | input that shows it | evidently intended | confidence | as-written member | corrected member |
|---|---|---|---|---|---|---|
| src/lib/api.ts:15 | the symbol and exchange are put into the query string without `encodeURIComponent` | an NSE symbol containing `&`, such as `M&M` with quote symbol `M&M.NS`: the proxy reads the symbol `M` and quotes another stock | the proxy reads back exactly the symbol and exchange the client asked for (Query.ClientUrlRoundTrip) | high, not executed | Query.AsWrittenSplitsAmpersand | Api.FetchStockPriceEncoded |
| src/app/api/price/route.ts:20 | the symbol, exchange and key are put into the provider's query string without `encodeURIComponent` | a symbol containing `&` that reaches the proxy intact, such as `M&M.NS` from an encoding client: the provider reads the symbol `M` | the provider receives exactly the symbol, exchange and key the proxy read (PriceRoute.ProviderUrlRoundTrip) | high, not executed | PriceRoute.ProviderAsWrittenSplitsAmpersand | PriceRoute.GetEncoded |
