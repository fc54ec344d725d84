/**
 * The upstream requests of the four market routes: each handler builds a
 * CoinGecko URL by template-literal concatenation of fixed text and the
 * route parameters, which are inserted as they are (no escaping). Each
 * query is written here as its list of `key=value` parameters, turned into
 * text by `QueryString.Encode`; the result spells the handler's template
 * literal character for character.
 */
module CoinGecko {
  import opened JsString
  import opened QueryString

  /** The common prefix of every upstream URL. */
  const CoinsApi := "https://api.coingecko.com" + "/api/v3/coins/"

  /** `no || 6`: an empty route parameter is falsy and gives way to 6. */
  function PerPage(no: string): (r: string)
    ensures r != []
    ensures no != [] ==> r == no
    ensures no == [] ==> r == "6"
  {
    if no == "" then "6" else no
  }

  /** The query of `GET /coins/:no/:pageNumber`. */
  function MarketsQuery(no: string, pageNumber: string): seq<(string, string)> {
    [("vs_currency", "usd"), ("order", "market_cap_desc"), ("per_page", PerPage(no)),
     ("page", pageNumber), ("sparkline", "false"), ("price_change_percentage", "24h")]
  }

  /** `GET /coins/:no/:pageNumber` */
  function MarketsUrl(no: string, pageNumber: string): string {
    CoinsApi + "markets" + "?" + Encode(MarketsQuery(no, pageNumber))
  }

  /** `GET /singlecoin/:id`: the id is not lower-cased. */
  function SingleCoinUrl(id: string): string {
    CoinsApi + id
  }

  /** The fixed query of `GET /coin/:id`. */
  const CoinQuery: seq<(string, string)> := [
    ("localization", "false"), ("tickers", "true"), ("market_data", "true"),
    ("community_data", "false"), ("developer_data", "false"), ("sparkline", "false")]

  /** `GET /coin/:id` */
  function CoinUrl(id: string): string {
    CoinsApi + ToLowerAscii(id) + "?" + Encode(CoinQuery)
  }

  /** The query of `GET /coinmarketchart/:id/:range`: `range` is the
      number of days. */
  function ChartQuery(range: string): seq<(string, string)> {
    [("vs_currency", "usd"), ("days", range), ("interval", "hourly")]
  }

  /** `GET /coinmarketchart/:id/:range` */
  function MarketChartUrl(id: string, range: string): string {
    CoinsApi + ToLowerAscii(id) + "/market_chart" + "?" + Encode(ChartQuery(range))
  }

  // The fixed keys and values hold no separator; one small lemma per group
  // keeps each check of literal text short.

  lemma MarketsKeysArePlain()
    ensures PlainKey("vs_currency") && PlainKey("order") && PlainKey("per_page")
  {
  }

  lemma PageKeysArePlain()
    ensures PlainKey("page") && PlainKey("sparkline")
  {
  }

  lemma PercentageKeyIsPlain()
    ensures PlainKey("price_change_percentage")
  {
  }

  lemma MarketsValuesArePlain()
    ensures PlainValue("usd") && PlainValue("market_cap_desc") && PlainValue("6")
    ensures PlainValue("false") && PlainValue("24h")
  {
  }

  lemma CoinKeysArePlain()
    ensures PlainKey("localization") && PlainKey("tickers") && PlainKey("market_data")
  {
  }

  lemma CoinMoreKeysArePlain()
    ensures PlainKey("community_data") && PlainKey("sparkline")
  {
  }

  lemma DeveloperKeyIsPlain()
    ensures PlainKey("developer_data")
  {
  }

  lemma ChartWordsArePlain()
    ensures PlainKey("vs_currency") && PlainKey("days") && PlainKey("interval")
  {
  }

  lemma ShortValuesArePlain()
    ensures PlainValue("usd") && PlainValue("hourly") && PlainValue("true") && PlainValue("false")
  {
  }

  lemma MarketsQueryIsPlain(no: string, pageNumber: string)
    requires PlainValue(no) && PlainValue(pageNumber)
    ensures PlainPairs(MarketsQuery(no, pageNumber))
  {
    MarketsKeysArePlain();
    PageKeysArePlain();
    PercentageKeyIsPlain();
    MarketsValuesArePlain();
  }

  lemma CoinQueryIsPlain()
    ensures PlainPairs(CoinQuery)
  {
    CoinKeysArePlain();
    CoinMoreKeysArePlain();
    DeveloperKeyIsPlain();
    ShortValuesArePlain();
  }

  lemma ChartQueryIsPlain(range: string)
    requires PlainValue(range)
    ensures PlainPairs(ChartQuery(range))
  {
    ChartWordsArePlain();
    ShortValuesArePlain();
  }

  lemma CoinsApiIsPlain()
    ensures '?' !in CoinsApi && '#' !in CoinsApi
  {
    assert '?' !in "https://api.coingecko.com";
    assert '#' !in "https://api.coingecko.com";
  }

  /** Lower-casing keeps a character other than a letter out of a string. */
  lemma LowerKeepsOut(id: string, c: char)
    requires c !in id && !('a' <= c <= 'z') && !('A' <= c <= 'Z')
    ensures c !in ToLowerAscii(id)
  {
    assert forall i :: 0 <= i < |id| ==> ToLowerAscii(id)[i] != c;
  }

  lemma ChartSuffixIsPlain()
    ensures '?' !in "/market_chart" && '#' !in "/market_chart"
  {
  }

  /** A coin path built from an id without `?` or `#` has neither. */
  lemma CoinPathIsPlain(id: string, rest: string)
    requires '?' !in id && '#' !in id && '?' !in rest && '#' !in rest
    ensures '?' !in CoinsApi + ToLowerAscii(id) + rest
    ensures '#' !in CoinsApi + ToLowerAscii(id) + rest
  {
    CoinsApiIsPlain();
    LowerKeepsOut(id, '?');
    LowerKeepsOut(id, '#');
  }

  /** The `/coins` URL reads back as the markets endpoint with six
      parameters: `per_page` is `no` (or 6), `page` is `pageNumber` as given,
      the others are fixed. */
  lemma MarketsUrlReadsBack(no: string, pageNumber: string)
    requires PlainValue(no) && PlainValue(pageNumber)
    ensures Path(MarketsUrl(no, pageNumber)) == CoinsApi + "markets"
    ensures Parameters(MarketsUrl(no, pageNumber)) == [
      ("vs_currency", "usd"), ("order", "market_cap_desc"), ("per_page", PerPage(no)),
      ("page", pageNumber), ("sparkline", "false"), ("price_change_percentage", "24h")]
  {
    CoinsApiIsPlain();
    var path := CoinsApi + "markets";
    assert '?' !in path && '#' !in path;
    MarketsQueryIsPlain(no, pageNumber);
    UrlReadsBack(path, MarketsQuery(no, pageNumber));
  }

  // The fixed `/coin` and chart queries read back on any plain path.

  lemma CoinQueryReadsBack(path: string)
    requires '?' !in path && '#' !in path
    ensures Path(path + "?" + Encode(CoinQuery)) == path
    ensures Parameters(path + "?" + Encode(CoinQuery)) == CoinQuery
  {
    CoinQueryIsPlain();
    UrlReadsBack(path, CoinQuery);
  }

  lemma MarketChartQueryReadsBack(path: string, range: string)
    requires '?' !in path && '#' !in path && PlainValue(range)
    ensures Path(path + "?" + Encode(ChartQuery(range))) == path
    ensures Parameters(path + "?" + Encode(ChartQuery(range))) == ChartQuery(range)
  {
    ChartQueryIsPlain(range);
    UrlReadsBack(path, ChartQuery(range));
  }

  /** The `/coin` URL reads back as the coin's path with the lower-cased id
      and the six fixed parameters. */
  lemma CoinUrlReadsBack(id: string)
    requires '?' !in id && '#' !in id
    ensures Path(CoinUrl(id)) == CoinsApi + ToLowerAscii(id)
    ensures Parameters(CoinUrl(id)) == CoinQuery
  {
    CoinPathIsPlain(id, "");
    var path := CoinsApi + ToLowerAscii(id);
    assert path + "" == path;
    CoinQueryReadsBack(path);
  }

  /** The chart URL reads back as the coin's `market_chart` path with
      `days` equal to `range` and an hourly interval. */
  lemma MarketChartUrlReadsBack(id: string, range: string)
    requires '?' !in id && '#' !in id && PlainValue(range)
    ensures Path(MarketChartUrl(id, range)) == CoinsApi + ToLowerAscii(id) + "/market_chart"
    ensures Parameters(MarketChartUrl(id, range)) == [
      ("vs_currency", "usd"), ("days", range), ("interval", "hourly")]
  {
    ChartSuffixIsPlain();
    CoinPathIsPlain(id, "/market_chart");
    var path := CoinsApi + ToLowerAscii(id) + "/market_chart";
    assert MarketChartUrl(id, range) == path + "?" + Encode(ChartQuery(range));
    MarketChartQueryReadsBack(path, range);
  }

  /** The `/singlecoin` URL is the coin's path with the id as given and no
      query. */
  lemma SingleCoinUrlReadsBack(id: string)
    requires '?' !in id && '#' !in id
    ensures Path(SingleCoinUrl(id)) == CoinsApi + id
    ensures Parameters(SingleCoinUrl(id)) == []
  {
    CoinsApiIsPlain();
    BareUrl(SingleCoinUrl(id));
  }

  /** Equal text around two strings is equal exactly when they are. */
  lemma Cancel(p: string, x: string, y: string, q: string)
    ensures p + x + q == p + y + q <==> x == y
  {
    if p + x + q == p + y + q {
      assert |x| == |y|;
      assert x == (p + x + q)[|p|..|p| + |x|];
      assert y == (p + y + q)[|p|..|p| + |y|];
    }
  }

  /** Two ids give the same `/coin` request exactly when they differ in
      ASCII case only. */
  lemma CoinUrlIgnoresCase(a: string, b: string)
    ensures CoinUrl(a) == CoinUrl(b) <==> SameIgnoringAsciiCase(a, b)
  {
    var q := "?" + Encode(CoinQuery);
    assert CoinUrl(a) == CoinsApi + ToLowerAscii(a) + q;
    assert CoinUrl(b) == CoinsApi + ToLowerAscii(b) + q;
    Cancel(CoinsApi, ToLowerAscii(a), ToLowerAscii(b), q);
    LowerEqualIff(a, b);
  }

  /** Two ids give the same chart request for a range exactly when they
      differ in ASCII case only. */
  lemma MarketChartUrlIgnoresCase(a: string, b: string, range: string)
    ensures MarketChartUrl(a, range) == MarketChartUrl(b, range) <==> SameIgnoringAsciiCase(a, b)
  {
    var q := "/market_chart" + "?" + Encode(ChartQuery(range));
    assert MarketChartUrl(a, range) == CoinsApi + ToLowerAscii(a) + q;
    assert MarketChartUrl(b, range) == CoinsApi + ToLowerAscii(b) + q;
    Cancel(CoinsApi, ToLowerAscii(a), ToLowerAscii(b), q);
    LowerEqualIff(a, b);
  }

  /** Distinct ids give distinct `/singlecoin` requests, case included. */
  lemma SingleCoinUrlKeepsCase(a: string, b: string)
    ensures SingleCoinUrl(a) == SingleCoinUrl(b) <==> a == b
  {
    Cancel(CoinsApi, a, b, "");
  }

  /** `BTC` and `btc` name the same coin for `/coin` and `/coinmarketchart`
      but not for `/singlecoin`. */
  lemma BtcExample(upper: string, lower: string, range: string)
    requires upper == "BTC" && lower == "btc"
    ensures CoinUrl(upper) == CoinUrl(lower)
    ensures MarketChartUrl(upper, range) == MarketChartUrl(lower, range)
    ensures SingleCoinUrl(upper) != SingleCoinUrl(lower)
  {
    assert SameIgnoringAsciiCase(upper, lower);
    CoinUrlIgnoresCase(upper, lower);
    MarketChartUrlIgnoresCase(upper, lower, range);
    SingleCoinUrlKeepsCase(upper, lower);
  }
}
