/** Parameter normalisation, cursor handling and the mapping of raw ticker
    rows to display items, with the deterministic synthetic metrics. */
module Transformers {
  import opened JsValues
  import opened JsStrings
  import opened Urls
  import opened Schemas

  // ---------------------------------------------------------------------
  // Search text and cursors

  /** `normalizeSearch`: the trimmed text, or absent when nothing but white
      space (or nothing at all) was given. */
  function NormalizeSearch(search: Option<string>): (r: Option<string>)
    ensures search.None? ==> r.None?
    ensures search.Some? ==> (r.None? <==> AllWhite(search.value))
    ensures r.Some? ==> r.value == Trim(search.value) && r.value != []
  {
    TrimEmptyIffAllWhite(search.GetOr(""));
    if search.None? then None
    else
      var trimmed := Trim(search.value);
      if trimmed == "" then None else Some(trimmed)
  }

  /** A normalised search has nothing left to trim. */
  lemma NormalizeSearchIdempotent(search: Option<string>)
    ensures NormalizeSearch(NormalizeSearch(search)) == NormalizeSearch(search)
  {
    if search.Some? {
      TrimIdempotent(search.value);
    }
  }

  /** `extractCursor`: the `cursor` query value of a parseable URL; absent
      for a missing or empty input, a string that is not a URL, or a URL
      without that parameter. */
  function ExtractCursor(nextUrl: Option<string>): (r: Option<string>)
    ensures nextUrl.None? || nextUrl.value == "" ==> r.None?
    ensures nextUrl.Some? && !HasScheme(nextUrl.value) ==> r.None?
    ensures nextUrl.Some? && HasScheme(nextUrl.value) ==>
              r == Get(Parse(nextUrl.value).value.query, "cursor")
  {
    if nextUrl.None? || nextUrl.value == "" then None
    else
      match Parse(nextUrl.value)
      case None => None
      case Some(url) => Get(url.query, "cursor")
  }

  /** The cursor read back from a well-formed next-page URL is the one it
      was built with. */
  lemma ExtractCursorOfToString(u: Url)
    requires WellFormed(u)
    ensures ExtractCursor(Some(ToString(u))) == Get(u.query, "cursor")
  {
    ParseToString(u);
  }

  /** `/https?:\/\//i.test(s)`. */
  predicate LooksLikeUrl(s: string) {
    var lower := ToLowerAscii(s);
    Contains(lower, "http://") || Contains(lower, "https://")
  }

  /** `safeCursor`: a plain non-empty token is passed on unchanged; a string
      that looks like a URL is replaced by its `cursor` parameter (absent
      when it has none or does not parse); an empty or missing cursor is
      absent. */
  function SafeCursor(cursor: Option<string>): (r: Option<string>)
    ensures cursor.None? || cursor.value == "" ==> r.None?
    ensures cursor.Some? && cursor.value != "" && !LooksLikeUrl(cursor.value) ==> r == cursor
    ensures cursor.Some? && LooksLikeUrl(cursor.value) ==> r == ExtractCursor(cursor)
  {
    if cursor.None? || cursor.value == "" then None
    else if LooksLikeUrl(cursor.value) then ExtractCursor(cursor)
    else cursor
  }

  /** A next-page URL threaded back in as a cursor yields its token. */
  lemma SafeCursorOfNextUrl(u: Url)
    requires WellFormed(u) && |u.base| >= 8 && u.base[..8] == "https://"
    ensures SafeCursor(Some(ToString(u))) == Get(u.query, "cursor")
  {
    var s := ToString(u);
    assert s[..8] == "https://";
    assert ToLowerAscii(s)[..8] == "https://";
    assert OccursAt(ToLowerAscii(s), "https://", 0);
    ExtractCursorOfToString(u);
  }

  // ---------------------------------------------------------------------
  // Deterministic metrics

  /** One step of the rolling hash over UTF-16 code units. */
  function HashStep(hash: int, unit: int): int {
    (hash * 31 + unit) % 100000
  }

  /** The rolling hash of a sequence of code units, folded from the left. */
  function Hash(units: seq<int>): (h: int)
    ensures 0 <= h < 100000
  {
    if units == [] then 0 else HashStep(Hash(units[..|units| - 1]), units[|units| - 1])
  }

  /** The synthetic quote: `changeTenths` is `changePercent` in tenths of a
      percent; `change` is `price * changePercent / 100`. */
  datatype Metrics = Metrics(price: int, changeTenths: int, change: real)

  function MetricsOfHash(hash: int): (m: Metrics)
    requires 0 <= hash < 100000
    ensures 50 <= m.price <= 999
    ensures -100 <= m.changeTenths <= 99
    ensures m.change == (m.price * m.changeTenths) as real / 1000.0
    ensures (m.change < 0.0 <==> m.changeTenths < 0) && (m.change == 0.0 <==> m.changeTenths == 0)
  {
    var price := 50 + hash % 950;
    var tenths := (hash / 13) % 200 - 100;
    Metrics(price, tenths, (price * tenths) as real / 1000.0)
  }

  /** The metrics of a ticker: a function of the ticker symbol alone. */
  function TickerMetrics(ticker: string): Metrics {
    MetricsOfHash(Hash(Utf16(ticker)))
  }

  /** `deriveMetrics`: the hash loop over the code units, then the
      arithmetic on the hash. */
  method DeriveMetrics(ticker: string) returns (m: Metrics)
    ensures m == TickerMetrics(ticker)
    ensures 50 <= m.price <= 999 && -100 <= m.changeTenths <= 99
  {
    var units := Utf16(ticker);
    var hash := 0;
    for index := 0 to |units|
      invariant 0 <= hash < 100000
      invariant hash == Hash(units[..index])
    {
      assert units[..index + 1][..index] == units[..index];
      hash := (hash * 31 + units[index]) % 100000;
    }
    assert units[..|units|] == units;
    assert hash == Hash(units);
    var price := 50 + hash % 950;
    var changeTenths := (hash / 13) % 200 - 100;
    var change := (price * changeTenths) as real / 1000.0;
    m := Metrics(price, changeTenths, change);
    assert m == MetricsOfHash(hash);
  }

  /** Two calls on the same ticker agree. */
  method DeriveMetricsTwice(ticker: string) returns (first: Metrics, second: Metrics)
    ensures first == second
  {
    first := DeriveMetrics(ticker);
    second := DeriveMetrics(ticker);
  }

  /** A worked value: "AAPL" hashes to 1436, so it is priced at 536 with a
      change of +1.0 %, that is 5.36. */
  lemma AaplMetrics()
    ensures TickerMetrics("AAPL") == Metrics(536, 10, 5.36)
  {
    AaplUnits();
    AaplHash();
    MetricsOf1436();
  }

  lemma MetricsOf1436()
    ensures MetricsOfHash(1436) == Metrics(536, 10, 5.36)
  {
    assert 1436 % 950 == 486;
    assert 1436 / 13 == 110;
    assert 110 % 200 == 110;
    assert (536 * 10) as real / 1000.0 == 5.36;
  }

  lemma AaplUnits()
    ensures Utf16("AAPL") == [65, 65, 80, 76]
  {
    var s := "AAPL";
    assert s[1..][1..][1..][1..] == [];
    assert Utf16(s[1..][1..][1..]) == [76];
    assert Utf16(s[1..][1..]) == [80, 76];
    assert Utf16(s[1..]) == [65, 80, 76];
  }

  lemma AaplHash()
    ensures Hash([65, 65, 80, 76]) == 1436
  {
    assert Hash([65]) == 65 by { assert [65][..0] == []; }
    assert Hash([65, 65]) == 2080 by { assert [65, 65][..1] == [65]; }
    assert Hash([65, 65, 80]) == 64560 by { assert [65, 65, 80][..2] == [65, 65]; }
    assert [65, 65, 80, 76][..3] == [65, 65, 80];
  }

  // ---------------------------------------------------------------------
  // Display items

  datatype StockItem = StockItem(ticker: string, name: string, price: int, changeTenths: int, change: real)

  /** `transformToStockItem`: the ticker is kept, the name is `name ?? ticker`
      (so `null` and a missing name fall back but an empty name is kept),
      and the metrics are derived from the ticker. */
  function TransformToStockItem(t: PolygonTicker): (item: StockItem)
    ensures item.ticker == t.ticker
    ensures item.name == if t.name.Present? then t.name.value else t.ticker
    ensures Metrics(item.price, item.changeTenths, item.change) == TickerMetrics(t.ticker)
  {
    var m := TickerMetrics(t.ticker);
    StockItem(t.ticker, if t.name.Present? then t.name.value else t.ticker, m.price, m.changeTenths, m.change)
  }

  /** `transformToStockItems`: one item per row, in the same order. */
  function TransformToStockItems(ts: seq<PolygonTicker>): (items: seq<StockItem>)
    ensures |items| == |ts|
    ensures forall i :: 0 <= i < |ts| ==> items[i] == TransformToStockItem(ts[i])
  {
    if ts == [] then []
    else [TransformToStockItem(ts[0])] + TransformToStockItems(ts[1..])
  }

  /** Transforming two pages one after the other is transforming their
      concatenation, so merged pages keep the upstream order. */
  lemma TransformConcat(a: seq<PolygonTicker>, b: seq<PolygonTicker>)
    ensures TransformToStockItems(a + b) == TransformToStockItems(a) + TransformToStockItems(b)
  {
    var l, r := TransformToStockItems(a + b), TransformToStockItems(a) + TransformToStockItems(b);
    assert |l| == |r|;
    forall i | 0 <= i < |l| ensures l[i] == r[i] {
      if i < |a| {
        assert (a + b)[i] == a[i];
      } else {
        assert (a + b)[i] == b[i - |a|];
      }
    }
  }
}
