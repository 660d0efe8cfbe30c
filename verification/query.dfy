/** How the quote request travels from the client to the proxy: the client
    writes the symbol and exchange into the query of `/api/price?...`, and the
    proxy reads them back with `new URL(request.url).searchParams.get(...)`.

    The reading side follows the WHATWG URL standard: the URL parser removes
    leading and trailing C0 controls and spaces and every ASCII tab or newline,
    the query is what follows the first `?` before the first `#`, and the
    `application/x-www-form-urlencoded` parser splits it on `&`, splits each
    non-empty piece at its first `=`, turns `+` into a space and decodes
    percent escapes. The data provider is assumed to read the proxy's request
    to it by the same rules. */
module Query {
  import opened Wrappers
  import opened Seqs
  import opened Text

  /** The path of the quote proxy, in front of the query. */
  const ProxyPath: string := "/api/price?"

  // ---------------------------------------------------------------- reading

  function TrimLeadingControls(s: string): (r: string)
    ensures |r| <= |s|
  {
    if |s| > 0 && s[0] <= ' ' then TrimLeadingControls(s[1..]) else s
  }

  function TrimTrailingControls(s: string): (r: string)
    ensures |r| <= |s|
  {
    if |s| > 0 && s[|s| - 1] <= ' ' then TrimTrailingControls(s[..|s| - 1]) else s
  }

  predicate IsTabOrNewline(c: char) {
    c == '\t' || c == '\n' || c == '\r'
  }

  /** The clean-up the URL parser applies to its input before anything else. */
  function CleanUrl(url: string): string {
    Filter((c: char) => !IsTabOrNewline(c), TrimTrailingControls(TrimLeadingControls(url)))
  }

  /** The text after the first `c`, or None when `c` does not occur. */
  function AfterFirst(s: string, c: char): (r: Option<string>)
    ensures r.None? <==> c !in s
    ensures r.Some? ==> s == BeforeFirst(s, c) + [c] + r.value
  {
    if |s| == 0 then None
    else if s[0] == c then Some(s[1..])
    else
      match AfterFirst(s[1..], c)
      case None => None
      case Some(rest) => Some(rest)
  }

  /** The query component of a URL: after the first `?`, before the first `#`. */
  function QueryOf(url: string): string {
    var beforeFragment := BeforeFirst(CleanUrl(url), '#');
    AfterFirst(beforeFragment, '?').GetOr("")
  }

  /** `s.split(sep)`: the pieces between the separators; never empty. */
  function Split(s: string, sep: char): (r: seq<string>)
    ensures |r| >= 1
  {
    if |s| == 0 then [""]
    else if s[0] == sep then [""] + Split(s[1..], sep)
    else
      var rest := Split(s[1..], sep);
      [[s[0]] + rest[0]] + rest[1..]
  }

  predicate IsHexDigit(c: char) {
    ('0' <= c <= '9') || ('A' <= c <= 'F') || ('a' <= c <= 'f')
  }

  function HexValue(c: char): (v: nat)
    requires IsHexDigit(c)
    ensures v < 16
  {
    if '0' <= c <= '9' then c as int - '0' as int
    else if 'A' <= c <= 'F' then c as int - 'A' as int + 10
    else c as int - 'a' as int + 10
  }

  /** A percent escape `%HH` of an ASCII character starts `s`. */
  predicate StartsWithAsciiEscape(s: string) {
    |s| >= 3 && s[0] == '%' && IsHexDigit(s[1]) && IsHexDigit(s[2])
    && HexValue(s[1]) * 16 + HexValue(s[2]) < 128
  }

  /** Form-urlencoded decoding of a name or a value: `+` is a space and `%HH`
      is the character with code HH. */
  function Decode(s: string): string
    decreases |s|
  {
    if |s| == 0 then ""
    else if s[0] == '+' then " " + Decode(s[1..])
    else if StartsWithAsciiEscape(s) then
      [(HexValue(s[1]) * 16 + HexValue(s[2])) as char] + Decode(s[3..])
    else [s[0]] + Decode(s[1..])
  }

  /** One `name=value` piece; a piece without `=` has the empty value. */
  function ParsePair(piece: string): (string, string) {
    (Decode(BeforeFirst(piece, '=')), Decode(AfterFirst(piece, '=').GetOr("")))
  }

  /** The name-value list of a query; empty pieces are skipped. */
  function ParsePieces(pieces: seq<string>): seq<(string, string)> {
    if |pieces| == 0 then []
    else if pieces[0] == "" then ParsePieces(pieces[1..])
    else [ParsePair(pieces[0])] + ParsePieces(pieces[1..])
  }

  /** `URLSearchParams.get(name)`: the value of the first pair with that name. */
  function Lookup(pairs: seq<(string, string)>, name: string): (r: Option<string>)
    ensures r.Some? ==> exists i :: 0 <= i < |pairs| && pairs[i] == (name, r.value)
  {
    if |pairs| == 0 then None
    else if pairs[0].0 == name then Some(pairs[0].1)
    else Lookup(pairs[1..], name)
  }

  /** `new URL(url).searchParams.get(name)`. */
  function SearchParam(url: string, name: string): Option<string> {
    Lookup(ParsePieces(Split(QueryOf(url), '&')), name)
  }

  // ---------------------------------------------------------------- writing

  /** The characters `encodeURIComponent` leaves alone. */
  predicate Unreserved(c: char) {
    || ('A' <= c <= 'Z') || ('a' <= c <= 'z') || ('0' <= c <= '9')
    || c == '-' || c == '_' || c == '.' || c == '!' || c == '~' || c == '*'
    || c == '\'' || c == '(' || c == ')'
  }

  /** Every character of `s` is one `encodeURIComponent` leaves alone. */
  predicate AllUnreserved(s: string) {
    forall i :: 0 <= i < |s| ==> Unreserved(s[i])
  }

  function HexDigit(n: nat): (c: char)
    requires n < 16
    ensures IsHexDigit(c) && Unreserved(c) && HexValue(c) == n
  {
    if n < 10 then (n + '0' as int) as char else (n - 10 + 'A' as int) as char
  }

  /** The characters an encoded component may consist of. */
  predicate Safe(c: char) {
    Unreserved(c) || c == '%' || c as int >= 128
  }

  /** `encodeURIComponent` on one character: ASCII characters outside the
      unreserved set become `%HH`. Characters beyond ASCII are passed on as
      they are: their UTF-8 escapes and the decoding of those cancel out. */
  function EncodeChar(c: char): (r: string)
    ensures forall i :: 0 <= i < |r| ==> Safe(r[i])
    ensures |r| > 0
  {
    if Unreserved(c) || c as int >= 128 then [c]
    else ['%', HexDigit(c as int / 16), HexDigit(c as int % 16)]
  }

  function EncodeComponent(s: string): (r: string)
    ensures forall i :: 0 <= i < |r| ==> Safe(r[i])
  {
    if |s| == 0 then ""
    else
      var head := EncodeChar(s[0]);
      var rest := EncodeComponent(s[1..]);
      assert forall i :: |head| <= i < |head + rest| ==> (head + rest)[i] == rest[i - |head|];
      head + rest
  }

  /** The URL `src/lib/api.ts` fetches, as written: symbol and exchange are
      interpolated into the query without encoding. */
  function ClientUrlAsWritten(symbol: string, exchange: string): string {
    ProxyPath + "symbol=" + symbol + "&exchange=" + exchange
  }

  /** The URL with both values passed through `encodeURIComponent`. */
  function ClientUrl(symbol: string, exchange: string): string {
    ProxyPath + "symbol=" + EncodeComponent(symbol) + "&exchange=" + EncodeComponent(exchange)
  }

  // ---------------------------------------------------------------- round trip

  /** Decoding an encoded component gives the component back. */
  lemma {:induction false} DecodeEncode(s: string)
    ensures Decode(EncodeComponent(s)) == s
    decreases |s|
  {
    if |s| > 0 {
      DecodeEncode(s[1..]);
      DecodeEncodedChar(s[0], EncodeComponent(s[1..]));
    }
  }

  lemma DecodeEncodedChar(c: char, rest: string)
    ensures Decode(EncodeChar(c) + rest) == [c] + Decode(rest)
  {
    var e := EncodeChar(c) + rest;
    if Unreserved(c) || c as int >= 128 {
      assert e[1..] == rest;
      assert !StartsWithAsciiEscape(e);
    } else {
      var hi, lo := c as int / 16, c as int % 16;
      assert e[0] == '%' && e[1] == HexDigit(hi) && e[2] == HexDigit(lo);
      assert e[3..] == rest;
      assert HexValue(e[1]) * 16 + HexValue(e[2]) == c as int;
    }
  }

  /** No character of `s` is a space or a control character. */
  predicate Visible(s: string) {
    forall i | 0 <= i < |s| :: s[i] > ' '
  }

  lemma VisibleAppend(a: string, b: string)
    ensures Visible(a + b) <==> Visible(a) && Visible(b)
  {
    if Visible(a) && Visible(b) {
      forall i | 0 <= i < |a + b| ensures (a + b)[i] > ' ' {
        if i >= |a| { assert (a + b)[i] == b[i - |a|]; }
      }
    }
    if Visible(a + b) {
      forall i | 0 <= i < |b| ensures b[i] > ' ' {
        assert b[i] == (a + b)[|a| + i];
      }
      forall i | 0 <= i < |a| ensures a[i] > ' ' {
        assert a[i] == (a + b)[i];
      }
    }
  }

  /** A string of safe characters survives the URL clean-up and contains none
      of the characters the query syntax gives a meaning to. */
  lemma SafeIsPlain(s: string)
    requires forall i :: 0 <= i < |s| ==> Safe(s[i])
    ensures '&' !in s && '#' !in s && '+' !in s
    ensures Visible(s)
  {
  }

  /** Splitting at the first separator. */
  lemma {:induction false} SplitAt(a: string, sep: char, b: string)
    requires sep !in a
    ensures Split(a + [sep] + b, sep) == [a] + Split(b, sep)
    decreases |a|
  {
    var s := a + [sep] + b;
    if |a| == 0 {
      assert s == [sep] + b;
      assert s[1..] == b;
    } else {
      assert s[0] == a[0] && s[0] != sep;
      assert s[1..] == a[1..] + [sep] + b;
      SplitAt(a[1..], sep, b);
      assert [a[0]] + a[1..] == a;
    }
  }

  lemma {:induction false} SplitNone(b: string, sep: char)
    requires sep !in b
    ensures Split(b, sep) == [b]
    decreases |b|
  {
    if |b| > 0 {
      assert b[0] != sep;
      SplitNone(b[1..], sep);
      assert [b[0]] + b[1..] == b;
    }
  }

  lemma {:induction false} BeforeFirstAbsent(s: string, c: char)
    requires c !in s
    ensures BeforeFirst(s, c) == s
    decreases |s|
  {
    if |s| > 0 {
      BeforeFirstAbsent(s[1..], c);
      assert [s[0]] + s[1..] == s;
    }
  }

  lemma {:induction false} BeforeFirstAt(a: string, c: char, b: string)
    requires c !in a
    ensures BeforeFirst(a + [c] + b, c) == a
    ensures AfterFirst(a + [c] + b, c) == Some(b)
    decreases |a|
  {
    var s := a + [c] + b;
    if |a| == 0 {
      assert s == [c] + b;
      assert s[1..] == b;
    } else {
      assert s[0] == a[0] && s[0] != c;
      assert s[1..] == a[1..] + [c] + b;
      BeforeFirstAt(a[1..], c, b);
      assert [a[0]] + a[1..] == a;
    }
  }

  /** A `name=value` piece whose name has no `=`. */
  lemma ParseNamedPair(name: string, value: string)
    requires '=' !in name
    ensures ParsePair(name + "=" + value) == (Decode(name), Decode(value))
  {
    assert name + "=" + value == name + ['='] + value;
    BeforeFirstAt(name, '=', value);
  }

  /** A URL whose characters are all above the space survives the clean-up. */
  lemma CleanUrlKeepsVisible(url: string)
    requires |url| > 0 && Visible(url)
    ensures CleanUrl(url) == url
  {
    assert TrimLeadingControls(url) == url;
    assert TrimTrailingControls(url) == url;
    FilterKeepsAll((c: char) => !IsTabOrNewline(c), url);
  }

  /** The query of a URL built from the proxy path and a plain query. */
  lemma QueryOfProxyUrl(q: string)
    requires Visible(q) && '#' !in q
    ensures QueryOf(ProxyPath + q) == q
  {
    ProxyPathFacts();
    assert ProxyPath + q == "/api/price" + ['?'] + q;
    QueryOfUrl("/api/price", q);
  }

  /** A URL up to its query: no space, control character, `#` or `?`. */
  predicate PlainPath(path: string) {
    Visible(path) && '#' !in path && '?' !in path
  }

  /** The query of a plain path followed by `?` and a plain query. */
  lemma QueryOfUrl(path: string, q: string)
    requires PlainPath(path) && Visible(q) && '#' !in q
    ensures QueryOf(path + ['?'] + q) == q
  {
    var url := path + ['?'] + q;
    VisibleAppend(path, ['?']);
    VisibleAppend(path + ['?'], q);
    CleanUrlKeepsVisible(url);
    BeforeFirstAbsent(url, '#');
    BeforeFirstAt(path, '?', q);
    QueryOfCleanUrl(url);
  }

  lemma ProxyPathFacts()
    ensures ProxyPath == "/api/price" + ['?']
    ensures Visible(ProxyPath)
    ensures '#' !in ProxyPath && '?' !in "/api/price"
  {
  }

  lemma QueryOfCleanUrl(url: string)
    requires CleanUrl(url) == url && BeforeFirst(url, '#') == url
    ensures QueryOf(url) == AfterFirst(url, '?').GetOr("")
  {
  }

  /** What the proxy reads from the proxy path followed by a plain query. */
  lemma SearchParamOfProxyUrl(q: string, name: string)
    requires Visible(q) && '#' !in q
    ensures SearchParam(ProxyPath + q, name) == Lookup(ParsePieces(Split(q, '&')), name)
  {
    QueryOfProxyUrl(q);
  }

  /** Decoding leaves a string without `+` and `%` as it is. */
  lemma {:induction false} DecodePlain(s: string)
    requires '+' !in s && '%' !in s
    ensures Decode(s) == s
    decreases |s|
  {
    if |s| > 0 {
      assert s[0] != '+' && s[0] != '%';
      DecodePlain(s[1..]);
      assert [s[0]] + s[1..] == s;
    }
  }

  /** A plain query made of two parts joined by `&`. */
  lemma JoinedQuery(first: string, rest: string)
    requires Visible(first) && Visible(rest) && '#' !in first && '#' !in rest
    ensures Visible(first + ['&'] + rest) && '#' !in first + ['&'] + rest
  {
    VisibleAppend(first, ['&']);
    VisibleAppend(first + ['&'], rest);
  }

  /** A parameter name the query syntax leaves alone. */
  predicate PlainName(name: string) {
    Visible(name) && '=' !in name && '&' !in name && '#' !in name && '+' !in name && '%' !in name
  }

  /** The piece `name=v`, for a plain name and a value without `&` and `#`. */
  lemma NamedPiece(name: string, v: string)
    requires PlainName(name) && Visible(v) && '&' !in v && '#' !in v
    ensures var piece := name + "=" + v;
      Visible(piece) && '&' !in piece && '#' !in piece && piece != ""
      && ParsePair(piece) == (name, Decode(v))
  {
    var piece := name + "=" + v;
    VisibleAppend(name, "=");
    VisibleAppend(name + "=", v);
    ParseNamedPair(name, v);
    DecodePlain(name);
    assert |piece| > |name|;
  }

  /** When the query starts with `name=v&`, the proxy reads `v` for that name,
      whatever follows. */
  lemma NamedFirst(name: string, v: string, rest: string)
    requires PlainName(name) && Visible(v) && Visible(rest)
    requires '&' !in v && '#' !in v && '#' !in rest
    ensures SearchParam(ProxyPath + name + "=" + v + "&" + rest, name) == Some(Decode(v))
  {
    var first := name + "=" + v;
    NamedPiece(name, v);
    JoinedQuery(first, rest);
    var q := first + ['&'] + rest;
    Regroup(ProxyPath, name, "=", v, "&", rest);
    SearchParamOfProxyUrl(q, name);
    assert SearchParam(ProxyPath + q, name) == Lookup(ParsePieces(Split(q, '&')), name);
    SplitAt(first, '&', rest);
    var pieces := [first] + Split(rest, '&');
    assert Split(q, '&') == pieces;
    assert pieces[0] == first;
    assert ParsePieces(pieces) == [(name, Decode(v))] + ParsePieces(pieces[1..]);
    assert Lookup(ParsePieces(pieces), name) == Some(Decode(v));
  }

  /** After a first piece naming another parameter, `name=v` is read. */
  lemma NamedSecond(first: string, name: string, v: string)
    requires PlainName(name) && Visible(v) && '&' !in v && '#' !in v
    requires Visible(first) && '&' !in first && '#' !in first
    requires first != "" && ParsePair(first).0 != name
    ensures SearchParam(ProxyPath + first + "&" + name + "=" + v, name) == Some(Decode(v))
  {
    var second := name + "=" + v;
    NamedPiece(name, v);
    Regroup(ProxyPath, first, "&", name, "=", v);
    RegroupTail(first, "&", name, "=", v);
    assert ProxyPath + first + "&" + name + "=" + v == ProxyPath + (first + ['&'] + second);
    SecondPiece(first, second, name);
  }

  lemma SecondPiece(first: string, second: string, name: string)
    requires Visible(first) && '&' !in first && '#' !in first && first != ""
    requires Visible(second) && '&' !in second && '#' !in second && second != ""
    requires ParsePair(first).0 != name && ParsePair(second).0 == name
    ensures SearchParam(ProxyPath + (first + ['&'] + second), name) == Some(ParsePair(second).1)
  {
    var q := first + ['&'] + second;
    JoinedQuery(first, second);
    SearchParamOfProxyUrl(q, name);
    SplitAt(first, '&', second);
    SplitNone(second, '&');
    TwoPieces(first, second);
  }

  lemma TwoPieces(first: string, second: string)
    requires first != "" && second != ""
    ensures ParsePieces([first, second]) == [ParsePair(first), ParsePair(second)]
  {
    var pieces := [first, second];
    assert pieces[1..] == [second];
    assert ParsePieces([second]) == [ParsePair(second)] + ParsePieces([]);
  }

  /** Concatenation is associative, stated for the shape of a URL. */
  lemma Regroup(p: string, a: string, b: string, c: string, d: string, e: string)
    ensures p + a + b + c + d + e == p + (a + b + c + d + e)
  {
  }

  lemma RegroupTail(a: string, b: string, c: string, d: string, e: string)
    ensures a + b + c + d + e == (a + b) + (c + d + e)
  {
  }

  lemma ParameterNamesArePlain()
    ensures PlainName("symbol") && PlainName("exchange")
  {
  }

  /** The two ways of reading `p + n1=v1&n2=v2` as one piece followed by the rest. */
  lemma RegroupPair(p: string, n1: string, v1: string, n2: string, v2: string)
    ensures p + (n1 + "=") + v1 + ("&" + n2 + "=") + v2 == p + n1 + "=" + v1 + "&" + (n2 + "=" + v2)
    ensures p + (n1 + "=") + v1 + ("&" + n2 + "=") + v2 == p + (n1 + "=" + v1) + "&" + n2 + "=" + v2
  {
  }

  lemma ParameterLiterals()
    ensures "symbol=" == "symbol" + "=" && "&exchange=" == "&" + "exchange" + "="
  {
  }

  /** The two-parameter query `symbol=…&exchange=…` read back by the proxy,
      for any pieces `s` and `e` that avoid the query syntax. */
  lemma ReadBack(s: string, e: string)
    requires Visible(s) && Visible(e)
    requires '&' !in s && '&' !in e && '#' !in s && '#' !in e
    ensures SearchParam(ProxyPath + "symbol=" + s + "&exchange=" + e, "symbol") == Some(Decode(s))
    ensures SearchParam(ProxyPath + "symbol=" + s + "&exchange=" + e, "exchange") == Some(Decode(e))
  {
    ParameterNamesArePlain();
    ParameterLiterals();
    RegroupPair(ProxyPath, "symbol", s, "exchange", e);
    NamedPiece("exchange", e);
    NamedFirst("symbol", s, "exchange" + "=" + e);
    NamedPiece("symbol", s);
    NamedSecond("symbol" + "=" + s, "exchange", e);
  }

  /** With encoding, the proxy reads exactly the symbol and exchange the
      client meant, whatever characters they contain. */
  lemma ClientUrlRoundTrip(symbol: string, exchange: string)
    ensures SearchParam(ClientUrl(symbol, exchange), "symbol") == Some(symbol)
    ensures SearchParam(ClientUrl(symbol, exchange), "exchange") == Some(exchange)
  {
    var s, e := EncodeComponent(symbol), EncodeComponent(exchange);
    SafeIsPlain(s);
    SafeIsPlain(e);
    ReadBack(s, e);
    DecodeEncode(symbol);
    DecodeEncode(exchange);
  }

  /** Encoding leaves a string of unreserved characters as it is. */
  lemma {:induction false} EncodePlain(s: string)
    requires AllUnreserved(s)
    ensures EncodeComponent(s) == s
    decreases |s|
  {
    if |s| > 0 {
      EncodePlain(s[1..]);
    }
  }

  /** For symbols and exchanges made of unreserved characters (letters,
      digits and `-_.!~*'()`), the URL as written is the encoded URL, so the
      omission only shows on other characters. */
  lemma AsWrittenAgreesOnPlainInput(symbol: string, exchange: string)
    requires AllUnreserved(symbol) && AllUnreserved(exchange)
    ensures ClientUrlAsWritten(symbol, exchange) == ClientUrl(symbol, exchange)
    ensures SearchParam(ClientUrlAsWritten(symbol, exchange), "symbol") == Some(symbol)
    ensures SearchParam(ClientUrlAsWritten(symbol, exchange), "exchange") == Some(exchange)
  {
    EncodePlain(symbol);
    EncodePlain(exchange);
    ClientUrlRoundTrip(symbol, exchange);
  }

  /** The URL as written loses a symbol containing `&`: for an NSE symbol
      such as `M&M`, whose quote symbol is `M&M.NS`, the proxy reads `M`. */
  lemma AsWrittenSplitsAmpersand()
    ensures SearchParam(ClientUrlAsWritten("M&M.NS", "NSE"), "symbol") == Some("M")
  {
    var rest := "M.NS&exchange=NSE";
    ParameterNamesArePlain();
    assert ClientUrlAsWritten("M&M.NS", "NSE") == ProxyPath + "symbol" + "=" + "M" + "&" + rest;
    assert Visible(rest) && '#' !in rest;
    NamedFirst("symbol", "M", rest);
    DecodePlain("M");
  }

  /** A parameter value the query syntax leaves alone. */
  predicate PlainValue(v: string) {
    Visible(v) && '&' !in v && '#' !in v
  }

  /** The query `n1=v1&n2=v2&n3=v3` behind a plain path: each of three
      distinct plain names reads back its own decoded value. */
  lemma ReadBackThree(path: string, n1: string, v1: string, n2: string, v2: string, n3: string, v3: string)
    requires PlainPath(path) && PlainName(n1) && PlainName(n2) && PlainName(n3)
    requires n1 != n2 && n1 != n3 && n2 != n3
    requires PlainValue(v1) && PlainValue(v2) && PlainValue(v3)
    ensures var url := path + "?" + n1 + "=" + v1 + "&" + n2 + "=" + v2 + "&" + n3 + "=" + v3;
      && SearchParam(url, n1) == Some(Decode(v1))
      && SearchParam(url, n2) == Some(Decode(v2))
      && SearchParam(url, n3) == Some(Decode(v3))
  {
    var q := (n1 + "=" + v1) + ['&'] + ((n2 + "=" + v2) + ['&'] + (n3 + "=" + v3));
    RegroupThree(path, n1, v1, n2, v2, n3, v3);
    PiecesThree(n1, v1, n2, v2, n3, v3);
    QueryOfUrl(path, q);
    LookupThree(ParsePieces(Split(q, '&')));
  }

  /** The three pieces of `n1=v1&n2=v2&n3=v3` and the pairs they parse to. */
  lemma PiecesThree(n1: string, v1: string, n2: string, v2: string, n3: string, v3: string)
    requires PlainName(n1) && PlainName(n2) && PlainName(n3)
    requires PlainValue(v1) && PlainValue(v2) && PlainValue(v3)
    ensures var q := (n1 + "=" + v1) + ['&'] + ((n2 + "=" + v2) + ['&'] + (n3 + "=" + v3));
      && Visible(q) && '#' !in q
      && ParsePieces(Split(q, '&')) == [(n1, Decode(v1)), (n2, Decode(v2)), (n3, Decode(v3))]
  {
    var p1, p2, p3 := n1 + "=" + v1, n2 + "=" + v2, n3 + "=" + v3;
    NamedPiece(n1, v1);
    NamedPiece(n2, v2);
    NamedPiece(n3, v3);
    var tail := p2 + ['&'] + p3;
    JoinedQuery(p2, p3);
    JoinedQuery(p1, tail);
    SplitAt(p1, '&', tail);
    SplitAt(p2, '&', p3);
    SplitNone(p3, '&');
    ThreePieces(p1, p2, p3);
  }

  /** The URL of three parameters, seen as the path, `?` and three pieces. */
  lemma RegroupThree(path: string, n1: string, v1: string, n2: string, v2: string, n3: string, v3: string)
    ensures path + "?" + n1 + "=" + v1 + "&" + n2 + "=" + v2 + "&" + n3 + "=" + v3
         == path + ['?'] + ((n1 + "=" + v1) + ['&'] + ((n2 + "=" + v2) + ['&'] + (n3 + "=" + v3)))
  {
    var p1, p2, p3 := n1 + "=" + v1, n2 + "=" + v2, n3 + "=" + v3;
    assert path + "?" + n1 + "=" + v1 == path + ['?'] + p1;
    assert path + ['?'] + p1 + "&" + n2 + "=" + v2 == path + ['?'] + p1 + ['&'] + p2;
    assert path + ['?'] + p1 + ['&'] + p2 + "&" + n3 + "=" + v3 == path + ['?'] + p1 + ['&'] + p2 + ['&'] + p3;
  }

  lemma LookupThree(pairs: seq<(string, string)>)
    requires |pairs| == 3 && pairs[0].0 != pairs[1].0 && pairs[0].0 != pairs[2].0 && pairs[1].0 != pairs[2].0
    ensures Lookup(pairs, pairs[0].0) == Some(pairs[0].1)
    ensures Lookup(pairs, pairs[1].0) == Some(pairs[1].1)
    ensures Lookup(pairs, pairs[2].0) == Some(pairs[2].1)
  {
    var k := pairs[2].0;
    assert Lookup(pairs, k) == Lookup(pairs[1..], k);
    assert pairs[1..][0] == pairs[1] && pairs[1..][1..] == [pairs[2]];
    assert Lookup(pairs[1..], k) == Lookup([pairs[2]], k);
  }

  lemma ThreePieces(p1: string, p2: string, p3: string)
    requires p1 != "" && p2 != "" && p3 != ""
    ensures ParsePieces([p1, p2, p3]) == [ParsePair(p1), ParsePair(p2), ParsePair(p3)]
  {
    assert [p1, p2, p3][1..] == [p2, p3];
    TwoPieces(p2, p3);
  }

  /** When the query behind a plain path starts with `name=v&`, that name
      reads `v`, whatever follows. */
  lemma NamedFirstAt(path: string, name: string, v: string, rest: string)
    requires PlainPath(path) && PlainName(name) && PlainValue(v)
    requires Visible(rest) && '#' !in rest
    ensures SearchParam(path + ['?'] + ((name + "=" + v) + ['&'] + rest), name) == Some(Decode(v))
  {
    var first := name + "=" + v;
    var q := first + ['&'] + rest;
    NamedPiece(name, v);
    JoinedQuery(first, rest);
    QueryOfUrl(path, q);
    SplitAt(first, '&', rest);
    assert ParsePieces(Split(q, '&')) == [(name, Decode(v))] + ParsePieces(Split(rest, '&'));
  }
}
