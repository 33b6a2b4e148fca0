/**
 * The WatchCharts client: resolving a watch brand name to the provider's
 * brand code, building the request URL for the brand or market-index chart,
 * and turning the HTTP response into a table of chart points.
 *
 * The HTTP round trip is a parameter `server` from URL to response, so every
 * property below holds whatever the remote service answers.
 */
module WatchesModel {
  import opened Wrappers
  import opened PyFormat

  /** A decoded JSON value: one field of a chart point. */
  datatype Value =
    | Null
    | Bool(b: bool)
    | Number(x: real)
    | Text(s: string)
    | Array(items: seq<Value>)
    | Object(fields: map<string, Value>)

  /** One decoded JSON object of the response array. */
  type ChartPoint = map<string, Value>

  /** A DataFrame of chart points: one row per record, in order; `[]` is `pd.DataFrame()`. */
  type Table = seq<ChartPoint>

  /** What the transport returns: the status code and the decoded JSON array. */
  datatype Response = Response(status: int, body: seq<ChartPoint>)

  /** The remote service, as a function of the requested URL. */
  type Server = string -> Response

  const OkStatus: int := 200

  /** `WatchChartsAPI.APIs`: the two URL templates. */
  const APIs: map<string, string> := map[
    "market_index" := "https://watchcharts.com/watches/brand_chart.json?&_={0}",
    "brand" := "https://watchcharts.com/watches/brand_chart/{0}.json?&_={1}"
  ]

  /** `WatchChartsAPI.BRAND_CODES`: brand name to provider brand code. */
  const BrandCodes: map<string, string> := map[
    "rolex" := "24",
    "patek_philippe" := "219",
    "audemars_piguet" := "50",
    "vacheron_constantin" := "220",
    "hublot" := "259",
    "omega" := "12",
    "tag_heuer" := "34",
    "seiko" := "3",
    "cartier" := "52"
  ]

  // The literal pieces of the two templates around their fields.
  const MarketIndexPrefix: string := "https://watchcharts.com/watches/brand_chart.json?&_="
  const BrandPrefix: string := "https://watchcharts.com/watches/brand_chart/"
  const BrandSuffix: string := ".json?&_="

  // ---------------------------------------------------------------------
  // Brand resolution (`BRAND_CODES.get(brand)`)
  // ---------------------------------------------------------------------

  /**
   * The code for a brand name; no code for a name outside the catalogue or
   * for no name at all. Every code found is a non-empty string of digits.
   */
  function Resolve(brand: Option<string>): (code: Option<string>)
    ensures code.Some? <==> brand.Some? && brand.value in BrandCodes
    ensures code.Some? ==> |code.value| > 0 && AllDigits(code.value)
  {
    if brand.Some? && brand.value in BrandCodes then Some(BrandCodes[brand.value]) else None
  }

  /** Each of the nine catalogue names resolves to exactly its listed code. */
  lemma ResolveCatalogue()
    ensures Resolve(Some("rolex")) == Some("24")
    ensures Resolve(Some("patek_philippe")) == Some("219")
    ensures Resolve(Some("audemars_piguet")) == Some("50")
    ensures Resolve(Some("vacheron_constantin")) == Some("220")
    ensures Resolve(Some("hublot")) == Some("259")
    ensures Resolve(Some("omega")) == Some("12")
    ensures Resolve(Some("tag_heuer")) == Some("34")
    ensures Resolve(Some("seiko")) == Some("3")
    ensures Resolve(Some("cartier")) == Some("52")
    ensures |BrandCodes| == 9
  {
  }

  /** Distinct catalogue names have distinct codes. */
  lemma ResolveInjective(a: Option<string>, b: Option<string>)
    requires Resolve(a).Some?
    ensures Resolve(a) == Resolve(b) <==> a == b
  {
  }

  // ---------------------------------------------------------------------
  // URL construction (`get_data_by_code`, lines 56-61)
  // ---------------------------------------------------------------------

  /** Python truthiness of the optional code: `None` and `""` are false. */
  predicate Truthy(code: Option<string>) { code.Some? && code.value != "" }

  /** `str(brand)` for the optional code, as the second `.format` sees it. */
  function PyStr(code: Option<string>): string { if code.None? then "None" else code.value }

  /** The URL chosen and filled in by the conditional expression. */
  function BuildUrl(code: Option<string>, ms: int): string
  {
    if Truthy(code) then BrandPrefix + code.value + BrandSuffix + IntToDecimal(ms)
    else MarketIndexPrefix + IntToDecimal(ms)
  }

  /** `BuildUrl` is what Python's `str.format` makes of the selected template. */
  lemma BuildUrlMatchesTemplates(code: Option<string>, ms: int)
    ensures Truthy(code) ==> Format(APIs["brand"], [code.value, IntToDecimal(ms)]) == Success(BuildUrl(code, ms))
    ensures !Truthy(code) ==> Format(APIs["market_index"], [IntToDecimal(ms)]) == Success(BuildUrl(code, ms))
  {
    if Truthy(code) {
      FormatBrandTemplate(code.value, IntToDecimal(ms), APIs["brand"]);
    } else {
      FormatMarketIndexTemplate(IntToDecimal(ms), APIs["market_index"]);
    }
  }

  /** The literal text around the template fields holds no brace. */
  lemma LiteralsBraceFree()
    ensures BraceFree(BrandPrefix) && BraceFree(BrandSuffix) && BraceFree(MarketIndexPrefix)
  {
  }

  // The template is a parameter so that the solver does not unfold `Format`
  // on the literal string itself.
  lemma FormatBrandTemplate(c: string, d: string, t: string)
    requires t == BrandPrefix + ("{0}" + (BrandSuffix + "{1}"))
    ensures Format(t, [c, d]) == Success(BrandPrefix + c + BrandSuffix + d)
  {
    var args := [c, d];
    LiteralsBraceFree();
    assert NatToDecimal(0) == "0" && NatToDecimal(1) == "1";
    assert "{1}" + "" == "{" + NatToDecimal(1) + "}" + "";
    FormatBraceFree("", args);
    FormatPositionalField(1, "", args);
    assert d + "" == d;
    FormatLiteralPrefix(BrandSuffix, "{1}", args);
    var rest := BrandSuffix + "{1}";
    assert "{0}" + rest == "{" + NatToDecimal(0) + "}" + rest;
    FormatPositionalField(0, rest, args);
    FormatLiteralPrefix(BrandPrefix, "{0}" + rest, args);
    assert BrandPrefix + (c + (BrandSuffix + d)) == BrandPrefix + c + BrandSuffix + d;
  }

  lemma FormatMarketIndexTemplate(d: string, t: string)
    requires t == MarketIndexPrefix + "{0}"
    ensures Format(t, [d]) == Success(MarketIndexPrefix + d)
  {
    var args := [d];
    LiteralsBraceFree();
    assert NatToDecimal(0) == "0";
    assert "{0}" + "" == "{" + NatToDecimal(0) + "}" + "";
    FormatBraceFree("", args);
    FormatPositionalField(0, "", args);
    assert d + "" == d;
    FormatLiteralPrefix(MarketIndexPrefix, "{0}", args);
  }

  /** With no code, or an empty one, the market-index URL: no brand segment. */
  lemma MarketIndexUrl(code: Option<string>, ms: int)
    requires code.None? || code.value == ""
    ensures BuildUrl(code, ms) == "https://watchcharts.com/watches/brand_chart.json?&_=" + IntToDecimal(ms)
  {
  }

  /** `sub` occurs in `s` starting at index `i`. */
  predicate OccursAt(s: string, sub: string, i: int)
  {
    0 <= i <= |s| - |sub| && s[i..i + |sub|] == sub
  }

  /** With a non-empty code, the brand URL, whose path ends in `/<code>.json`. */
  lemma BrandUrl(code: string, ms: int)
    requires code != ""
    ensures BuildUrl(Some(code), ms)
         == "https://watchcharts.com/watches/brand_chart/" + code + ".json?&_=" + IntToDecimal(ms)
    ensures OccursAt(BuildUrl(Some(code), ms), "/" + code + ".json", |BrandPrefix| - 1)
  {
    var url := BuildUrl(Some(code), ms);
    var i := |BrandPrefix| - 1;
    assert url[i..i + |code| + 6] == "/" + code + ".json";
  }

  /** Two sides of one URL agree on the text after a common prefix. */
  lemma DropPrefix(p: string, x: string, y: string)
    requires p + x == p + y
    ensures x == y
  {
    assert x == (p + x)[|p|..];
    assert y == (p + y)[|p|..];
  }

  /** Two requests go to the same endpoint: both market index, or the same brand code. */
  predicate SameEndpoint(c1: Option<string>, c2: Option<string>)
  {
    Truthy(c1) == Truthy(c2) && (Truthy(c1) ==> c1.value == c2.value)
  }

  /** The character after `.../brand_chart` tells the two endpoints apart. */
  lemma EndpointMark(code: Option<string>, ms: int)
    ensures |BuildUrl(code, ms)| > 43 && BuildUrl(code, ms)[43] == (if Truthy(code) then '/' else '.')
  {
  }

  /**
   * In `x + BrandSuffix + d` with a dot-free `d`, the '.' that opens the
   * suffix comes right after `x` and is the last '.'.
   */
  lemma LastDotAfterCode(x: string, d: string, i: int)
    ensures |x + BrandSuffix + d| > |x| && (x + BrandSuffix + d)[|x|] == '.'
    ensures '.' !in d && |x| < i < |x + BrandSuffix + d| ==> (x + BrandSuffix + d)[i] != '.'
  {
    var r := x + BrandSuffix + d;
    if '.' !in d && |x| < i < |r| {
      if i < |x| + |BrandSuffix| {
        assert BrandSuffix[1..] == "json?&_=";
        assert r[i] == BrandSuffix[1..][i - |x| - 1];
      } else {
        assert r[i] == d[i - |x| - |BrandSuffix|];
      }
    }
  }

  /** The code is the text before the last '.' after the brand prefix. */
  lemma SplitAtSuffix(x: string, y: string, d1: string, d2: string)
    requires '.' !in d1 && '.' !in d2
    requires x + BrandSuffix + d1 == y + BrandSuffix + d2
    ensures x == y && d1 == d2
  {
    var r1, r2 := x + BrandSuffix + d1, y + BrandSuffix + d2;
    if |x| < |y| {
      LastDotAfterCode(y, d2, 0);
      LastDotAfterCode(x, d1, |y|);
      assert false;
    } else if |y| < |x| {
      LastDotAfterCode(x, d1, 0);
      LastDotAfterCode(y, d2, |x|);
      assert false;
    } else {
      assert x == r1[..|x|] && y == r2[..|y|];
      assert d1 == r1[|x| + |BrandSuffix|..] && d2 == r2[|y| + |BrandSuffix|..];
    }
  }

  /**
   * Identical inputs give identical URLs, and the URL tells apart the
   * endpoint and the timestamp.
   */
  lemma BuildUrlInjective(c1: Option<string>, m1: int, c2: Option<string>, m2: int)
    ensures BuildUrl(c1, m1) == BuildUrl(c2, m2) <==> SameEndpoint(c1, c2) && m1 == m2
  {
    var u1, u2 := BuildUrl(c1, m1), BuildUrl(c2, m2);
    var d1, d2 := IntToDecimal(m1), IntToDecimal(m2);
    IntToDecimalInjective(m1, m2);
    EndpointMark(c1, m1);
    EndpointMark(c2, m2);
    if u1 == u2 {
      if Truthy(c1) && Truthy(c2) {
        var x, y := c1.value, c2.value;
        assert u1 == BrandPrefix + (x + BrandSuffix + d1);
        assert u2 == BrandPrefix + (y + BrandSuffix + d2);
        DropPrefix(BrandPrefix, x + BrandSuffix + d1, y + BrandSuffix + d2);
        SplitAtSuffix(x, y, d1, d2);
      } else if !Truthy(c1) && !Truthy(c2) {
        DropPrefix(MarketIndexPrefix, d1, d2);
      }
    }
  }

  /**
   * Line 61 as written: the already-built URL goes through `.format` a second
   * time with `(brand, ms)`, which may rewrite or reject braces in the code.
   * When the code holds no brace the second `.format` is the identity.
   */
  function RequestedUrlAsWritten(code: Option<string>, ms: int): (r: Result<string, FormatError>)
    ensures (code.None? || BraceFree(code.value)) ==> r == Success(BuildUrl(code, ms))
  {
    var url, args := BuildUrl(code, ms), [PyStr(code), IntToDecimal(ms)];
    // Both branches make the same call; the first also shows why it is the identity.
    if code.None? || BraceFree(code.value) then
      LiteralsBraceFree();
      FormatBraceFree(url, args);
      Format(url, args)
    else Format(url, args)
  }

  /** As written, the second `.format` reads the brand code as template text. */
  lemma SecondFormatReadsCode(c: string, ms: int)
    requires c != ""
    ensures RequestedUrlAsWritten(Some(c), ms)
         == Prefixed(BrandPrefix, Format(c + BrandSuffix + IntToDecimal(ms), [c, IntToDecimal(ms)]))
  {
    var d := IntToDecimal(ms);
    LiteralsBraceFree();
    assert BuildUrl(Some(c), ms) == BrandPrefix + (c + BrandSuffix + d);
    FormatLiteralPrefix(BrandPrefix, c + BrandSuffix + d, [c, d]);
  }

  // The code is a parameter so that the solver does not unfold `Format` on
  // the literal string itself.
  lemma FieldOneFormats(c: string, d: string)
    requires c == "{1}" && BraceFree(d)
    ensures Format(c + BrandSuffix + d, [c, d]) == Success(d + BrandSuffix + d)
  {
    var tail := BrandSuffix + d;
    LiteralsBraceFree();
    assert NatToDecimal(1) == "1";
    assert c + BrandSuffix + d == "{" + NatToDecimal(1) + "}" + tail;
    FormatPositionalField(1, tail, [c, d]);
    FormatBraceFree(tail, [c, d]);
    assert d + tail == d + BrandSuffix + d;
  }

  /** As written, a code holding a field `{1}` is replaced by the timestamp. */
  lemma SecondFormatRewritesField(ms: int)
    ensures BuildUrl(Some("{1}"), ms) == "https://watchcharts.com/watches/brand_chart/{1}.json?&_=" + IntToDecimal(ms)
    ensures RequestedUrlAsWritten(Some("{1}"), ms)
         == Success("https://watchcharts.com/watches/brand_chart/" + IntToDecimal(ms) + ".json?&_=" + IntToDecimal(ms))
    ensures RequestedUrlAsWritten(Some("{1}"), ms) != Success(BuildUrl(Some("{1}"), ms))
  {
    var d := IntToDecimal(ms);
    var tail := BrandSuffix + d;
    assert RequestedUrlAsWritten(Some("{1}"), ms) == Success(BrandPrefix + (d + tail)) by {
      SecondFormatReadsCode("{1}", ms);
      FieldOneFormats("{1}", d);
      assert d + BrandSuffix + d == d + tail;
    }
    assert BrandPrefix + (d + tail) == BrandPrefix + d + BrandSuffix + d;
    assert (BrandPrefix + (d + tail))[|BrandPrefix|] == d[0] != '{';
    assert BuildUrl(Some("{1}"), ms)[|BrandPrefix|] == '{';
  }

  /** As written, a code holding an unclosed '{' makes the request raise. */
  lemma SecondFormatRejectsBrace(ms: int)
    ensures RequestedUrlAsWritten(Some("{"), ms) == Failure(UnmatchedOpen)
  {
    var d := IntToDecimal(ms);
    var tail := BrandSuffix + d;
    LiteralsBraceFree();
    SecondFormatReadsCode("{", ms);
    var t := "{" + BrandSuffix + d;
    forall k | 1 <= k < |t| ensures t[k] != '{' && t[k] != '}' {
      assert t[k] == tail[k - 1];
    }
    UnclosedField(t, 1, 1);
  }

  /** Scanning brace-free text never finds the closing '}'. */
  lemma {:induction false} UnclosedField(t: string, i: nat, depth: nat)
    requires i <= |t| && depth >= 1
    requires forall k :: i <= k < |t| ==> t[k] != '{' && t[k] != '}'
    ensures MatchingClose(t, i, depth) == |t|
    decreases |t| - i
  {
    if i < |t| {
      UnclosedField(t, i + 1, depth);
    }
  }

  // ---------------------------------------------------------------------
  // Fetching (`get_data_by_code`, `get_data`)
  // ---------------------------------------------------------------------

  /** The status policy of lines 62-67 applied to one response. */
  function TableOf(resp: Response): Table
  {
    if resp.status != OkStatus then [] else resp.body
  }

  /**
   * `get_data_by_code`, corrected to request the URL built on lines 56-60:
   * any status but 200 gives the empty table whatever the body, and 200 gives
   * exactly one row per element of the response array, in order.
   */
  function FetchByCode(code: Option<string>, ms: int, server: Server): (t: Table)
    ensures server(BuildUrl(code, ms)).status != OkStatus ==> t == []
    ensures server(BuildUrl(code, ms)).status == OkStatus ==>
      |t| == |server(BuildUrl(code, ms)).body|
      && forall i :: 0 <= i < |t| ==> t[i] == server(BuildUrl(code, ms)).body[i]
  {
    TableOf(server(BuildUrl(code, ms)))
  }

  /**
   * `get_data_by_code` as written, formatting the URL twice (line 61): it
   * raises exactly when the second `.format` does, otherwise applies the
   * status policy to the response for the URL actually requested, and for a
   * code without braces it is the corrected request.
   */
  function FetchByCodeAsWritten(code: Option<string>, ms: int, server: Server): (r: Result<Table, FormatError>)
    ensures r.Failure? <==> RequestedUrlAsWritten(code, ms).Failure?
    ensures r.Success? && server(RequestedUrlAsWritten(code, ms).value).status != OkStatus ==> r.value == []
    ensures r.Success? && server(RequestedUrlAsWritten(code, ms).value).status == OkStatus ==>
      r.value == server(RequestedUrlAsWritten(code, ms).value).body
    ensures (code.None? || BraceFree(code.value)) ==> r == Success(FetchByCode(code, ms, server))
  {
    match RequestedUrlAsWritten(code, ms)
    case Success(url) => Success(TableOf(server(url)))
    case Failure(e) => Failure(e)
  }

  /**
   * `get_data`: a catalogue name fetches what its code fetches; an unknown or
   * absent name fetches with no code, that is, the market index.
   */
  function FetchByName(brand: Option<string>, ms: int, server: Server): (t: Table)
    ensures brand.Some? && brand.value in BrandCodes ==> t == FetchByCode(Some(BrandCodes[brand.value]), ms, server)
    ensures (brand.None? || brand.value !in BrandCodes) ==> t == FetchByCode(None, ms, server)
  {
    FetchByCode(Resolve(brand), ms, server)
  }

  /** The response consulted is the one for exactly `BuildUrl(code, ms)`. */
  lemma FetchByCodeReadsBuiltUrl(code: Option<string>, ms: int, s1: Server, s2: Server)
    ensures s1(BuildUrl(code, ms)) == s2(BuildUrl(code, ms)) ==> FetchByCode(code, ms, s1) == FetchByCode(code, ms, s2)
  {
  }

  /** The column names of a table: every key of every row. */
  function Columns(t: Table): set<string>
    decreases |t|
  {
    if t == [] then {} else t[0].Keys + Columns(t[1..])
  }

  /** A name is a column exactly when some row has that key. */
  lemma {:induction false} ColumnsAreRowKeys(t: Table, k: string)
    ensures k in Columns(t) <==> exists i :: 0 <= i < |t| && k in t[i]
  {
    if t != [] {
      ColumnsAreRowKeys(t[1..], k);
      if k in Columns(t[1..]) {
        var i :| 0 <= i < |t[1..]| && k in t[1..][i];
        assert k in t[i + 1];
      }
      if exists i :: 0 <= i < |t| && k in t[i] {
        var i :| 0 <= i < |t| && k in t[i];
        if i > 0 {
          assert k in t[1..][i - 1];
        }
      }
    }
  }

  /** A 200 response `[{"price": 100, "date": "2023-01-01"}]` gives one row with those two columns. */
  lemma SinglePointResponse(code: Option<string>, ms: int, server: Server)
    requires server(BuildUrl(code, ms)) == Response(200, [map["price" := Number(100.0), "date" := Text("2023-01-01")]])
    ensures |FetchByCode(code, ms, server)| == 1
    ensures Columns(FetchByCode(code, ms, server)) == {"price", "date"}
  {
    var t := FetchByCode(code, ms, server);
    assert t[1..] == [];
  }

  /** "rolex" behaves as code "24" and "cartier" as code "52". */
  lemma FetchByNameCatalogue(ms: int, server: Server)
    ensures FetchByName(Some("rolex"), ms, server) == FetchByCode(Some("24"), ms, server)
    ensures FetchByName(Some("cartier"), ms, server) == FetchByCode(Some("52"), ms, server)
  {
  }

  /** An unknown or absent name reads the market-index response, like no name at all. */
  lemma FetchByNameUnknown(brand: Option<string>, ms: int, server: Server)
    requires brand.None? || brand.value !in BrandCodes
    ensures FetchByName(brand, ms, server) == FetchByName(None, ms, server)
    ensures FetchByName(brand, ms, server) == TableOf(server(MarketIndexPrefix + IntToDecimal(ms)))
  {
  }

  /**
   * Through `get_data` the double formatting of line 61 is harmless: resolved
   * codes are digits, so the as-written request is the corrected one.
   */
  lemma FetchByNameAsWrittenAgrees(brand: Option<string>, ms: int, server: Server)
    ensures FetchByCodeAsWritten(Resolve(brand), ms, server) == Success(FetchByName(brand, ms, server))
  {
    var code := Resolve(brand);
    if code.Some? {
      assert BraceFree(code.value) by {
        forall i | 0 <= i < |code.value| ensures code.value[i] != '{' && code.value[i] != '}' {
          assert IsDigit(code.value[i]);
        }
      }
    }
  }
}
