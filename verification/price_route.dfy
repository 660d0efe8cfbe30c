/** The quote proxy `GET /api/price`: it reads `symbol` and `exchange` from
    the request's query, picks the data provider's key from the environment,
    asks the provider for a quote and passes its JSON on unchanged. */
module PriceRoute {
  import opened Wrappers
  import opened Json
  import opened Query

  /** The two environment variables the key may come from: the server-side
      one and the public one. */
  datatype Env = Env(serverKey: Option<string>, publicKey: Option<string>)

  /** The request the proxy makes to the data provider. */
  datatype Outbound = Outbound(symbol: string, exchange: string, apiKey: string)

  /** The provider's answer: its JSON body, or a failure of `fetch` or of
      `res.json()`. */
  datatype UpstreamOutcome = UpstreamThrew | UpstreamJson(data: Json)

  /** The data provider's quote endpoint. */
  const ProviderPath: string := "https://api.twelvedata.com/quote"

  /** The provider URL as the route writes it: symbol, exchange and key are
      put into the query as they are. */
  function ProviderUrlAsWritten(o: Outbound): string {
    ProviderPath + "?" + "symbol" + "=" + o.symbol + "&" + "exchange" + "=" + o.exchange + "&" + "apikey" + "=" + o.apiKey
  }

  /** The provider URL with each value passed through `encodeURIComponent`:
      the URL the corrected proxy requests. */
  function ProviderUrl(o: Outbound): string {
    ProviderPath + "?" + "symbol" + "=" + EncodeComponent(o.symbol)
      + "&" + "exchange" + "=" + EncodeComponent(o.exchange)
      + "&" + "apikey" + "=" + EncodeComponent(o.apiKey)
  }

  /** The proxy's answer. */
  datatype ProxyResponse = ProxyResponse(status: int, body: Json)

  /** The answer together with the provider request made on the way, if any. */
  datatype RouteResult = RouteResult(response: ProxyResponse, asked: Option<Outbound>)

  const MissingSymbol: string := "Symbol is required"
  const MissingKey: string := "Server configuration error: API Key missing"
  const UpstreamFailed: string := "Failed to fetch data"

  /** The key the proxy uses: the server-side key, else the public one. */
  function ApiKey(env: Env): Option<string> {
    Or(env.serverKey, env.publicKey)
  }

  /** The logic of `GET(request)`, with the data provider reached through
      `ask`, which answers the outbound request the route has settled on. */
  function Route(url: string, env: Env, ask: Outbound -> UpstreamOutcome): (r: RouteResult)
    ensures r.response.status in {200, 400, 500}
    ensures r.response.status == 400 <==> !Given(SearchParam(url, "symbol"))
    ensures r.response.status == 400 ==> r.response.body == ErrorBody(MissingSymbol)
    ensures r.asked.Some? <==> Given(SearchParam(url, "symbol")) && Given(ApiKey(env))
    ensures r.asked.Some? ==>
      && r.asked.value.symbol == SearchParam(url, "symbol").value
      && r.asked.value.apiKey == ApiKey(env).value
      && r.asked.value.exchange == (if Given(SearchParam(url, "exchange")) then SearchParam(url, "exchange").value else "NSE")
    ensures r.response.status == 200 <==> r.asked.Some? && ask(r.asked.value).UpstreamJson?
    ensures r.response.status == 200 ==> r.response.body == ask(r.asked.value).data
    ensures r.response.status == 500 ==>
      r.response.body == ErrorBody(if r.asked.None? then MissingKey else UpstreamFailed)
  {
    var symbol := SearchParam(url, "symbol");
    var exchange := SearchParam(url, "exchange");
    if !Given(symbol) then
      RouteResult(ProxyResponse(400, ErrorBody(MissingSymbol)), None)
    else
      var apiKey := ApiKey(env);
      if !Given(apiKey) then
        RouteResult(ProxyResponse(500, ErrorBody(MissingKey)), None)
      else
        var outbound := Outbound(symbol.value, Or(exchange, Some("NSE")).value, apiKey.value);
        match ask(outbound)
        case UpstreamThrew => RouteResult(ProxyResponse(500, ErrorBody(UpstreamFailed)), Some(outbound))
        case UpstreamJson(data) => RouteResult(ProxyResponse(200, data), Some(outbound))
  }

  /** `GET(request)` as written: the provider, the parameter `provider`, is
      asked at the URL with the values put in as they are. */
  function Get(url: string, env: Env, provider: string -> UpstreamOutcome): (r: RouteResult)
    ensures r.response.status in {200, 400, 500}
    ensures r.response.status == 400 <==> !Given(SearchParam(url, "symbol"))
    ensures r.response.status == 400 ==> r.response.body == ErrorBody(MissingSymbol)
    ensures r.asked.Some? <==> Given(SearchParam(url, "symbol")) && Given(ApiKey(env))
    ensures r.asked.Some? ==>
      && r.asked.value.symbol == SearchParam(url, "symbol").value
      && r.asked.value.apiKey == ApiKey(env).value
      && r.asked.value.exchange == (if Given(SearchParam(url, "exchange")) then SearchParam(url, "exchange").value else "NSE")
    ensures r.response.status == 200 <==> r.asked.Some? && provider(ProviderUrlAsWritten(r.asked.value)).UpstreamJson?
    ensures r.response.status == 200 ==> r.response.body == provider(ProviderUrlAsWritten(r.asked.value)).data
    ensures r.response.status == 500 ==>
      r.response.body == ErrorBody(if r.asked.None? then MissingKey else UpstreamFailed)
  {
    Route(url, env, o => provider(ProviderUrlAsWritten(o)))
  }

  /** `GET(request)` with the provider URL encoded: the corrected proxy. It
      settles on the same outbound request and answers the same way, only at
      the encoded URL. */
  function GetEncoded(url: string, env: Env, provider: string -> UpstreamOutcome): (r: RouteResult)
    ensures r.asked == Get(url, env, provider).asked
    ensures r.response.status in {200, 400, 500}
    ensures r.response.status == 400 <==> !Given(SearchParam(url, "symbol"))
    ensures r.response.status == 400 ==> r.response.body == ErrorBody(MissingSymbol)
    ensures r.response.status == 200 <==> r.asked.Some? && provider(ProviderUrl(r.asked.value)).UpstreamJson?
    ensures r.response.status == 200 ==> r.response.body == provider(ProviderUrl(r.asked.value)).data
    ensures r.response.status == 500 ==>
      r.response.body == ErrorBody(if r.asked.None? then MissingKey else UpstreamFailed)
  {
    Route(url, env, o => provider(ProviderUrl(o)))
  }

  /** The symbol is checked before the key: a request without a symbol is
      refused with 400 whatever the environment holds. */
  lemma SymbolCheckedFirst(url: string, env1: Env, env2: Env, provider: string -> UpstreamOutcome)
    requires !Given(SearchParam(url, "symbol"))
    ensures Get(url, env1, provider) == Get(url, env2, provider)
  {
  }

  /** The server-side key wins whenever it is set; the public key is used
      only in its absence. */
  lemma ServerKeyPreferred(env: Env)
    ensures Given(env.serverKey) ==> ApiKey(env) == env.serverKey
    ensures !Given(env.serverKey) ==> ApiKey(env) == env.publicKey
    ensures Given(ApiKey(env)) <==> Given(env.serverKey) || Given(env.publicKey)
  {
  }

  /** The proxy's answer for a request whose query names `symbol` and
      `exchange`: the outbound request it settles on, and the provider's
      answer at the URL as written (and, for the corrected proxy, at the
      encoded URL). */
  lemma GetNamed(url: string, env: Env, provider: string -> UpstreamOutcome, symbol: string, exchange: string)
    requires SearchParam(url, "symbol") == Some(symbol)
    requires SearchParam(url, "exchange") == Some(exchange)
    ensures var r := Get(url, env, provider);
      var asked := Outbound(symbol, if exchange != "" then exchange else "NSE", ApiKey(env).GetOr(""));
      && r.response.status in {200, 400, 500}
      && (r.asked.Some? <==> symbol != "" && Given(ApiKey(env)))
      && (r.asked.Some? ==> r.asked.value == asked)
      && (r.response.status == 200 <==> r.asked.Some? && provider(ProviderUrlAsWritten(asked)).UpstreamJson?)
      && (r.response.status == 200 ==> r.response.body == provider(ProviderUrlAsWritten(asked)).data)
    ensures var r := GetEncoded(url, env, provider);
      var asked := Outbound(symbol, if exchange != "" then exchange else "NSE", ApiKey(env).GetOr(""));
      && (r.asked.Some? <==> symbol != "" && Given(ApiKey(env)))
      && (r.asked.Some? ==> r.asked.value == asked)
      && (r.response.status == 200 <==> r.asked.Some? && provider(ProviderUrl(asked)).UpstreamJson?)
      && (r.response.status == 200 ==> r.response.body == provider(ProviderUrl(asked)).data)
  {
  }

  /** On values of unreserved characters the URL as written is the encoded
      URL, so the provider reads back exactly the symbol, exchange and key. */
  lemma ProviderAsWrittenOnPlainInput(o: Outbound)
    requires AllUnreserved(o.symbol) && AllUnreserved(o.exchange) && AllUnreserved(o.apiKey)
    ensures ProviderUrlAsWritten(o) == ProviderUrl(o)
    ensures SearchParam(ProviderUrlAsWritten(o), "symbol") == Some(o.symbol)
    ensures SearchParam(ProviderUrlAsWritten(o), "exchange") == Some(o.exchange)
    ensures SearchParam(ProviderUrlAsWritten(o), "apikey") == Some(o.apiKey)
  {
    EncodePlain(o.symbol);
    EncodePlain(o.exchange);
    EncodePlain(o.apiKey);
    ProviderUrlRoundTrip(o);
  }

  /** The provider reads back from the encoded URL exactly the symbol,
      exchange and key the proxy meant, whatever characters they contain. */
  lemma ProviderUrlRoundTrip(o: Outbound)
    ensures SearchParam(ProviderUrl(o), "symbol") == Some(o.symbol)
    ensures SearchParam(ProviderUrl(o), "exchange") == Some(o.exchange)
    ensures SearchParam(ProviderUrl(o), "apikey") == Some(o.apiKey)
  {
    var s, e, k := EncodeComponent(o.symbol), EncodeComponent(o.exchange), EncodeComponent(o.apiKey);
    SafeIsPlain(s);
    SafeIsPlain(e);
    SafeIsPlain(k);
    ProviderNamesArePlain();
    ReadBackThree(ProviderPath, "symbol", s, "exchange", e, "apikey", k);
    DecodeEncode(o.symbol);
    DecodeEncode(o.exchange);
    DecodeEncode(o.apiKey);
  }

  lemma ProviderNamesArePlain()
    ensures PlainPath(ProviderPath)
    ensures PlainName("symbol") && PlainName("exchange") && PlainName("apikey")
  {
    ProviderPathIsPlain();
    ParameterNamesArePlain();
    assert PlainName("apikey");
  }

  lemma ProviderPathIsPlain()
    ensures PlainPath(ProviderPath)
  {
    assert Visible(ProviderPath);
    assert '#' !in ProviderPath;
  }

  /** With the URL as written, a symbol the proxy read correctly is lost on
      the way to the provider: for `M&M.NS` the provider reads the symbol `M`,
      whatever plain key is used. */
  lemma ProviderAsWrittenSplitsAmpersand(key: string)
    requires PlainValue(key)
    ensures SearchParam(ProviderUrlAsWritten(Outbound("M&M.NS", "NSE", key)), "symbol") == Some("M")
  {
    var rest := "M.NS" + "&" + "exchange" + "=" + "NSE" + "&" + "apikey" + "=" + key;
    AsWrittenProviderUrlShape(key);
    ProviderNamesArePlain();
    VisibleAppend("M.NS" + "&" + "exchange" + "=" + "NSE" + "&" + "apikey" + "=", key);
    NamedFirstAt(ProviderPath, "symbol", "M", rest);
    DecodePlain("M");
  }

  /** The URL as written for `M&M.NS`: its query starts with the piece `symbol=M`. */
  lemma AsWrittenProviderUrlShape(key: string)
    ensures ProviderUrlAsWritten(Outbound("M&M.NS", "NSE", key))
         == ProviderPath + ['?'] + (("symbol" + "=" + "M") + ['&']
              + ("M.NS" + "&" + "exchange" + "=" + "NSE" + "&" + "apikey" + "=" + key))
  {
    assert "M&M.NS" == "M" + ['&'] + "M.NS";
  }
}
