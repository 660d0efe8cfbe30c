/** The client side of a live quote: `fetchStockPrice` asks the quote proxy
    for a symbol and turns its answer into a price, a change and a percent
    change, or into "no data" (null) on any failure. */
module Api {
  import opened Wrappers
  import opened Json
  import opened Query

  /** The three live figures a quote yields. */
  datatype RealStockData = RealStockData(price: real, change: real, changePercent: real)

  /** What `response.json()` makes of a body: a JSON value, or a rejection. */
  datatype BodyRead = Parsed(value: Json) | NotJson

  /** The outcome of `fetch`: a rejection (network failure) or a response. */
  datatype HttpOutcome = NetworkError | Response(status: int, body: BodyRead)

  /** `response.ok`: the status is in the range 200-299. */
  predicate IsOk(status: int) {
    200 <= status <= 299
  }

  /** The exchange assumed when the caller passes none. */
  const DefaultExchange: string := "NSE"

  /** A default parameter applies only when the argument is `undefined`;
      an explicit empty string is passed on. */
  function ExchangeOrDefault(exchange: Option<string>): (r: string)
    ensures exchange.Some? ==> r == exchange.value
    ensures exchange.None? ==> r == DefaultExchange
  {
    exchange.GetOr(DefaultExchange)
  }

  /** A quote body the client accepts: it is not `null` (reading a field of
      `null` throws), its `status` is not the string "error", and its `close`
      is truthy. */
  predicate Usable(data: Json) {
    data != JNull
    && Member(data, "status") != Some(JStr("error"))
    && Truthy(Member(data, "close"))
  }

  /** The URL `fetchStockPrice` requests: the proxy path with the symbol and
      the exchange put into the query as they are, without encoding. */
  function RequestUrl(symbol: string, exchange: Option<string>): string {
    ClientUrlAsWritten(symbol, ExchangeOrDefault(exchange))
  }

  /** The same request with both values passed through `encodeURIComponent`. */
  function EncodedRequestUrl(symbol: string, exchange: Option<string>): string {
    ClientUrl(symbol, ExchangeOrDefault(exchange))
  }

  /** What `fetchStockPrice` makes of the outcome of its request. */
  function ReadQuote(outcome: HttpOutcome, readNumber: Option<Json> -> real): (r: Option<RealStockData>)
    ensures r.Some? <==> outcome.Response? && IsOk(outcome.status) && outcome.body.Parsed? && Usable(outcome.body.value)
    ensures r.Some? ==>
      && r.value.price == readNumber(Member(outcome.body.value, "close"))
      && r.value.change == readNumber(Member(outcome.body.value, "change"))
      && r.value.changePercent == readNumber(Member(outcome.body.value, "percent_change"))
  {
    match outcome
    case NetworkError => None
    case Response(status, body) =>
      if !IsOk(status) then None
      else
        match body
        case NotJson => None
        case Parsed(data) =>
          if data == JNull then None
          else if Member(data, "status") == Some(JStr("error")) || !Truthy(Member(data, "close")) then None
          else Some(RealStockData(readNumber(Member(data, "close")),
                                  readNumber(Member(data, "change")),
                                  readNumber(Member(data, "percent_change"))))
  }

  /** `fetchStockPrice(symbol, exchange)`. The network is the parameter
      `http`, which answers a URL; `parseFloat` is the parameter `readNumber`.
      A quote comes back exactly when the answer to the request is an ok
      response whose JSON body is usable, and its figures are that body's. */
  function FetchStockPrice(symbol: string, exchange: Option<string>,
                           http: string -> HttpOutcome,
                           readNumber: Option<Json> -> real): (r: Option<RealStockData>)
    ensures var o := http(RequestUrl(symbol, exchange));
      r.Some? <==> o.Response? && IsOk(o.status) && o.body.Parsed? && Usable(o.body.value)
    ensures var o := http(RequestUrl(symbol, exchange));
      r.Some? ==>
        && r.value.price == readNumber(Member(o.body.value, "close"))
        && r.value.change == readNumber(Member(o.body.value, "change"))
        && r.value.changePercent == readNumber(Member(o.body.value, "percent_change"))
  {
    ReadQuote(http(RequestUrl(symbol, exchange)), readNumber)
  }

  /** `fetchStockPrice` with the request URL encoded: the corrected client. */
  function FetchStockPriceEncoded(symbol: string, exchange: Option<string>,
                                  http: string -> HttpOutcome,
                                  readNumber: Option<Json> -> real): (r: Option<RealStockData>)
    ensures var o := http(EncodedRequestUrl(symbol, exchange));
      r.Some? <==> o.Response? && IsOk(o.status) && o.body.Parsed? && Usable(o.body.value)
    ensures var o := http(EncodedRequestUrl(symbol, exchange));
      r.Some? ==>
        && r.value.price == readNumber(Member(o.body.value, "close"))
        && r.value.change == readNumber(Member(o.body.value, "change"))
        && r.value.changePercent == readNumber(Member(o.body.value, "percent_change"))
  {
    ReadQuote(http(EncodedRequestUrl(symbol, exchange)), readNumber)
  }

  /** The two requests agree on symbols and exchanges of unreserved
      characters, and there the proxy reads back exactly the symbol and the
      exchange (after the default) the caller passed. */
  lemma RequestUrlOnPlainInput(symbol: string, exchange: Option<string>)
    requires AllUnreserved(symbol) && AllUnreserved(ExchangeOrDefault(exchange))
    ensures RequestUrl(symbol, exchange) == EncodedRequestUrl(symbol, exchange)
    ensures SearchParam(RequestUrl(symbol, exchange), "symbol") == Some(symbol)
    ensures SearchParam(RequestUrl(symbol, exchange), "exchange") == Some(ExchangeOrDefault(exchange))
  {
    AsWrittenAgreesOnPlainInput(symbol, ExchangeOrDefault(exchange));
  }
}
