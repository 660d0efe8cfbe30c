/** The client and the proxy together: `fetchStockPrice` talking to
    `GET /api/price`, which talks to the data provider. */
module QuotePipeline {
  import opened Wrappers
  import opened Json
  import opened Query
  import opened Api
  import opened PriceRoute

  /** What the client's `fetch` yields when the proxy serves `url`: the
      proxy's status and its JSON body. */
  function Answer(url: string, env: Env, provider: string -> UpstreamOutcome): (o: HttpOutcome)
    ensures o.Response? && o.body.Parsed?
    ensures IsOk(o.status) <==> Get(url, env, provider).response.status == 200
  {
    var r := Get(url, env, provider).response;
    Response(r.status, Parsed(r.body))
  }

  /** The same for the corrected proxy. */
  function AnswerEncoded(url: string, env: Env, provider: string -> UpstreamOutcome): (o: HttpOutcome)
    ensures o.Response? && o.body.Parsed?
    ensures IsOk(o.status) <==> GetEncoded(url, env, provider).response.status == 200
  {
    var r := GetEncoded(url, env, provider).response;
    Response(r.status, Parsed(r.body))
  }

  /** The exchange the provider is asked for when the client names `exchange`. */
  function AskedExchange(exchange: Option<string>): string {
    var e := ExchangeOrDefault(exchange);
    if e != "" then e else "NSE"
  }

  /** The outbound request the proxy settles on for a request `url`: the
      symbol and exchange it reads there, the exchange defaulting to NSE. */
  function AskedFor(url: string, env: Env): Outbound {
    var e := SearchParam(url, "exchange");
    Outbound(SearchParam(url, "symbol").GetOr(""), if Given(e) then e.value else "NSE", ApiKey(env).GetOr(""))
  }

  /** End to end, as written: a quote arrives exactly when the proxy reads a
      symbol from the client's URL, has a key, and the provider answers the
      proxy's URL with a usable body; the figures come from that body. When
      the symbol and exchange consist of unreserved characters, the proxy
      reads exactly what the client passed; when the key does too, so does
      the provider. */
  lemma EndToEnd(symbol: string, exchange: Option<string>, env: Env,
                 provider: string -> UpstreamOutcome, http: string -> HttpOutcome,
                 readNumber: Option<Json> -> real)
    requires forall url :: http(url) == Answer(url, env, provider)
    ensures var r := FetchStockPrice(symbol, exchange, http, readNumber);
      var url := RequestUrl(symbol, exchange);
      var reply := provider(ProviderUrlAsWritten(AskedFor(url, env)));
      && (r.Some? <==> Given(SearchParam(url, "symbol")) && Given(ApiKey(env)) && reply.UpstreamJson? && Usable(reply.data))
      && (r.Some? ==>
           && r.value.price == readNumber(Member(reply.data, "close"))
           && r.value.change == readNumber(Member(reply.data, "change"))
           && r.value.changePercent == readNumber(Member(reply.data, "percent_change")))
    ensures AllUnreserved(symbol) && AllUnreserved(ExchangeOrDefault(exchange)) ==>
      AskedFor(RequestUrl(symbol, exchange), env) == Outbound(symbol, AskedExchange(exchange), ApiKey(env).GetOr(""))
    ensures var asked := Outbound(symbol, AskedExchange(exchange), ApiKey(env).GetOr(""));
      AllUnreserved(symbol) && AllUnreserved(AskedExchange(exchange)) && AllUnreserved(asked.apiKey) ==>
        && SearchParam(ProviderUrlAsWritten(asked), "symbol") == Some(symbol)
        && SearchParam(ProviderUrlAsWritten(asked), "exchange") == Some(AskedExchange(exchange))
  {
    var url := RequestUrl(symbol, exchange);
    assert http(url) == Answer(url, env, provider);
    ServedQuote(url, env, provider, readNumber);
    if AllUnreserved(symbol) && AllUnreserved(ExchangeOrDefault(exchange)) {
      RequestUrlOnPlainInput(symbol, exchange);
    }
    var asked := Outbound(symbol, AskedExchange(exchange), ApiKey(env).GetOr(""));
    if AllUnreserved(symbol) && AllUnreserved(AskedExchange(exchange)) && AllUnreserved(asked.apiKey) {
      ProviderAsWrittenOnPlainInput(asked);
    }
  }

  /** End to end with both URLs encoded: a quote arrives exactly when the
      client has a symbol, the proxy has a key, and the provider answers the
      very symbol and exchange the client asked for with a usable body; the
      figures are read from that body, and the provider's URL names exactly
      that symbol and exchange, whatever characters they contain. */
  lemma EndToEndEncoded(symbol: string, exchange: Option<string>, env: Env,
                        provider: string -> UpstreamOutcome, http: string -> HttpOutcome,
                        readNumber: Option<Json> -> real)
    requires forall url :: http(url) == AnswerEncoded(url, env, provider)
    ensures var r := FetchStockPriceEncoded(symbol, exchange, http, readNumber);
      var asked := Outbound(symbol, AskedExchange(exchange), ApiKey(env).GetOr(""));
      r.Some? <==>
        symbol != "" && Given(ApiKey(env)) && provider(ProviderUrl(asked)).UpstreamJson? && Usable(provider(ProviderUrl(asked)).data)
    ensures var r := FetchStockPriceEncoded(symbol, exchange, http, readNumber);
      var asked := Outbound(symbol, AskedExchange(exchange), ApiKey(env).GetOr(""));
      r.Some? ==>
        && r.value.price == readNumber(Member(provider(ProviderUrl(asked)).data, "close"))
        && r.value.change == readNumber(Member(provider(ProviderUrl(asked)).data, "change"))
        && r.value.changePercent == readNumber(Member(provider(ProviderUrl(asked)).data, "percent_change"))
    ensures var asked := Outbound(symbol, AskedExchange(exchange), ApiKey(env).GetOr(""));
      && SearchParam(ProviderUrl(asked), "symbol") == Some(symbol)
      && SearchParam(ProviderUrl(asked), "exchange") == Some(AskedExchange(exchange))
  {
    ProviderUrlRoundTrip(Outbound(symbol, AskedExchange(exchange), ApiKey(env).GetOr("")));
    var url := EncodedRequestUrl(symbol, exchange);
    assert http(url) == AnswerEncoded(url, env, provider);
    ClientUrlRoundTrip(symbol, ExchangeOrDefault(exchange));
    ServedQuoteEncoded(url, env, provider, readNumber, symbol, ExchangeOrDefault(exchange));
  }

  /** The quote the client reads from the proxy as written, for any request
      URL: it is decided by the provider's answer at the URL as written for
      the outbound request the proxy settles on. */
  lemma ServedQuote(url: string, env: Env, provider: string -> UpstreamOutcome, readNumber: Option<Json> -> real)
    ensures var r := ReadQuote(Answer(url, env, provider), readNumber);
      var reply := provider(ProviderUrlAsWritten(AskedFor(url, env)));
      && (r.Some? <==> Given(SearchParam(url, "symbol")) && Given(ApiKey(env)) && reply.UpstreamJson? && Usable(reply.data))
      && (r.Some? ==>
           && r.value.price == readNumber(Member(reply.data, "close"))
           && r.value.change == readNumber(Member(reply.data, "change"))
           && r.value.changePercent == readNumber(Member(reply.data, "percent_change")))
  {
    var g := Get(url, env, provider);
    assert g.asked.Some? ==> g.asked.value == AskedFor(url, env);
  }

  /** The quote the client reads from the corrected proxy for a URL whose
      query names `symbol` and `exchange`. */
  lemma ServedQuoteEncoded(url: string, env: Env, provider: string -> UpstreamOutcome, readNumber: Option<Json> -> real,
                           symbol: string, exchange: string)
    requires SearchParam(url, "symbol") == Some(symbol)
    requires SearchParam(url, "exchange") == Some(exchange)
    ensures var r := ReadQuote(AnswerEncoded(url, env, provider), readNumber);
      var asked := Outbound(symbol, if exchange != "" then exchange else "NSE", ApiKey(env).GetOr(""));
      && (r.Some? <==> symbol != "" && Given(ApiKey(env)) && provider(ProviderUrl(asked)).UpstreamJson? && Usable(provider(ProviderUrl(asked)).data))
      && (r.Some? ==>
           && r.value.price == readNumber(Member(provider(ProviderUrl(asked)).data, "close"))
           && r.value.change == readNumber(Member(provider(ProviderUrl(asked)).data, "change"))
           && r.value.changePercent == readNumber(Member(provider(ProviderUrl(asked)).data, "percent_change")))
  {
    GetNamed(url, env, provider, symbol, exchange);
  }

  /** As written, `fetchStockPrice("M&M.NS")` makes the proxy ask the
      provider about `M`. */
  lemma AsWrittenAsksForWrongSymbol(env: Env, provider: string -> UpstreamOutcome)
    requires Given(ApiKey(env))
    ensures var r := Get(RequestUrl("M&M.NS", None), env, provider);
      r.asked.Some? && r.asked.value.symbol == "M"
  {
    AsWrittenSplitsAmpersand();
  }
}
