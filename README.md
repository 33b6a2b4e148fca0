# WatchCharts watch-price client, modelled in Dafny

This project models the client in `openbb_terminal/alternative/watches/watches_model.py`.
`WatchChartsAPI` fetches price-chart data for luxury watch brands from the WatchCharts web
service. The model covers four pieces:

- `BRAND_CODES.get(brand)`: a brand name resolves to the provider's brand code
  (`WatchesModel.Resolve`).
- `get_data_by_code` picks one of the two `APIs` templates by the truthiness of the code and fills
  it in (`WatchesModel.BuildUrl`). With a code it uses the brand chart; with none, or an empty one,
  it uses the market index.
- `get_data_by_code` then requests a URL and applies the status policy: any status but 200 gives
  an empty table, and status 200 gives one row per element of the JSON array. As written, line 61
  passes the built URL through `.format` a second time before the request; this is
  `WatchesModel.FetchByCodeAsWritten`. The corrected request of the URL built on lines 56-60 is
  `WatchesModel.FetchByCode`. The two agree for every code without braces, so for every code
  `get_data` produces (see "## Findings").
- `get_data` resolves the name and then delegates (`WatchesModel.FetchByName`).

The HTTP round trip is a parameter `server: string -> Response`. So every fact about a fetch holds
whatever the service answers, and each one names the exact URL whose response it reads. A response
is a status code plus the already-decoded JSON array of chart points. A `DataFrame` is a sequence
of chart points, and `pd.DataFrame()` is the empty sequence.

The millisecond timestamp is an `int`. Python renders it with `str()`, modelled as
`PyFormat.IntToDecimal`. The model covers the part of Python's `str.format` that the two templates
use: literal text, `{{`/`}}` escapes and positional fields `{k}`. This is `PyFormat.Format`, with
Python's error cases as `Failure` results. That lets the model state, rather than assume, that
`BuildUrl` is what `.format` makes of the templates. It also lets the model treat the second
`.format` on line 61 as written.

Modules: `Wrappers` (Option, Result), `PyFormat` (Python `str()` of an int, `str.format`) and
`WatchesModel` (the client).

## Model

| member | source | states |
|---|---|---|
| `WatchesModel.Resolve` | openbb_terminal/alternative/watches/watches_model.py:78 | a code is found exactly when a name is given and it is in the catalogue; every code found is a non-empty string of digits |
| `WatchesModel.ResolveCatalogue` | openbb_terminal/alternative/watches/watches_model.py:31-41 | each of the nine catalogue names resolves to exactly its listed code ("rolex" to "24", …, "cartier" to "52"), and the catalogue has nine entries |
| `WatchesModel.ResolveInjective` | openbb_terminal/alternative/watches/watches_model.py:31-41 | two names that resolve give the same code only when they are the same name |
| `WatchesModel.BuildUrlMatchesTemplates` | openbb_terminal/alternative/watches/watches_model.py:56-60 | the URL built equals Python's `APIs["brand"].format(code, ms)` when the code is truthy, and `APIs["market_index"].format(ms)` otherwise |
| `WatchesModel.FormatBrandTemplate` | openbb_terminal/alternative/watches/watches_model.py:29 | formatting the brand template with (code, ms) gives the brand prefix, the code, `.json?&_=` and the timestamp |
| `WatchesModel.FormatMarketIndexTemplate` | openbb_terminal/alternative/watches/watches_model.py:28 | formatting the market-index template with (ms) gives the market-index prefix followed by the timestamp |
| `WatchesModel.MarketIndexUrl` | openbb_terminal/alternative/watches/watches_model.py:56-60 | with no code, or an empty one, the URL is `https://watchcharts.com/watches/brand_chart.json?&_=` followed by the timestamp, with no brand segment |
| `WatchesModel.BrandUrl` | openbb_terminal/alternative/watches/watches_model.py:56-58 | with a non-empty code, the URL is `https://watchcharts.com/watches/brand_chart/` + code + `.json?&_=` + timestamp, and it contains `/` + code + `.json` |
| `WatchesModel.BuildUrlInjective` | openbb_terminal/alternative/watches/watches_model.py:56-60 | for any codes, two URLs are equal exactly when the requests go to the same endpoint (both market index, or the same code) with the same timestamp |
| `WatchesModel.RequestedUrlAsWritten` | openbb_terminal/alternative/watches/watches_model.py:61 | the URL requested as written is the built URL passed through `.format(brand, ms)` again; when the code is absent or holds no brace, that second `.format` succeeds and leaves the built URL unchanged |
| `WatchesModel.SecondFormatReadsCode` | openbb_terminal/alternative/watches/watches_model.py:61 | for a non-empty code, the second `.format` treats the code and the rest of the URL as template text |
| `WatchesModel.SecondFormatRewritesField` | openbb_terminal/alternative/watches/watches_model.py:61 | for the code `{1}`, the URL requested as written has the timestamp in place of the code, so it differs from the URL built |
| `WatchesModel.SecondFormatRejectsBrace` | openbb_terminal/alternative/watches/watches_model.py:61 | for the code `{`, the second `.format` raises (an unclosed field) |
| `WatchesModel.FetchByCode` | openbb_terminal/alternative/watches/watches_model.py:61-67 | the corrected `get_data_by_code`, requesting the URL built on lines 56-60 once: any status other than 200 gives the empty table whatever the body, and status 200 gives exactly one row per element of the response array, in order |
| `WatchesModel.FetchByCodeAsWritten` | openbb_terminal/alternative/watches/watches_model.py:61-67 | `get_data_by_code` as written: it raises exactly when the second `.format` on line 61 raises; otherwise, for the URL actually requested, a response other than 200 gives the empty table and a 200 response gives exactly its body's records, in order; for a code that is absent or holds no brace it returns exactly what the corrected request returns |
| `WatchesModel.FetchByCodeReadsBuiltUrl` | openbb_terminal/alternative/watches/watches_model.py:61 | the corrected fetch depends only on the response for exactly the built URL |
| `WatchesModel.ColumnsAreRowKeys` | openbb_terminal/alternative/watches/watches_model.py:66 | a name is a column of the table exactly when some row has that key |
| `WatchesModel.SinglePointResponse` | openbb_terminal/alternative/watches/watches_model.py:65-67 | a 200 response `[{"price": 100, "date": "2023-01-01"}]` gives a one-row table whose columns are `price` and `date` |
| `WatchesModel.FetchByName` | openbb_terminal/alternative/watches/watches_model.py:78-80 | `get_data`: fetching by a catalogue name is fetching by its listed code; fetching by an unknown or absent name is fetching with no code |
| `WatchesModel.FetchByNameCatalogue` | openbb_terminal/alternative/watches/watches_model.py:31-41 | "rolex" fetches what code "24" fetches, and "cartier" what code "52" fetches |
| `WatchesModel.FetchByNameUnknown` | openbb_terminal/alternative/watches/watches_model.py:78-80 | an unknown or absent name fetches what no name fetches, and that is the response for the market-index URL |
| `WatchesModel.FetchByNameAsWrittenAgrees` | openbb_terminal/alternative/watches/watches_model.py:61-80 | through `get_data`, the request as written (formatted twice) succeeds and returns the same table as the corrected single-format request |
| `PyFormat.NatToDecimal` | openbb_terminal/alternative/watches/watches_model.py:57-59 | `str()` of a non-negative int is a non-empty string of digits with no leading zero |
| `PyFormat.IntToDecimal` | openbb_terminal/alternative/watches/watches_model.py:57-59 | `str()` of an int is non-empty and brace-free, digits for a non-negative one and a minus sign before digits for a negative one |
| `PyFormat.DecimalValueOfNat` | openbb_terminal/alternative/watches/watches_model.py:57-59 | reading back the digits of `str(n)` gives `n` |
| `PyFormat.IntToDecimalInjective` | openbb_terminal/alternative/watches/watches_model.py:57-59 | two timestamps print the same exactly when they are equal |
| `PyFormat.FormatBraceFree` | openbb_terminal/alternative/watches/watches_model.py:61 | a string without braces formats to itself, whatever the arguments |
| `PyFormat.FormatLiteralPrefix` | openbb_terminal/alternative/watches/watches_model.py:57-59 | brace-free text in front of a template is copied unchanged before the rest is formatted |
| `PyFormat.FormatPositionalField` | openbb_terminal/alternative/watches/watches_model.py:57-59 | a positional field `{k}`, with `k` in decimal and any `k` below the number of arguments, is replaced by the k-th argument and the rest is formatted after it |

## Left out

- The network transport (`requests.get`) and its failures. The response is the value `server(url)`.
- JSON decoding (`res.json()`) and a malformed body, which raises in the source. The body is an already-decoded array of records. JSON numbers are modelled as exact reals, not as Python floats or ints.
- pandas `DataFrame` semantics beyond "one row per record, in order": column order and dtypes are not modelled, and columns are a set.
- `pd.Timestamp.now()`, the once-evaluated default argument (line 44) and the float conversion `int(current_time.timestamp() * 1000)` (line 52). The model takes integer milliseconds.
- The logging calls (lines 53-55, 63, 79): the info message for a falsy code, the error for a failed request, and the warning for a name that is absent or not in the catalogue. They are side effects with no bearing on any returned value.
- The `log_start_end` decorator: its source is not part of this model, and the model takes each decorated method to return what its body returns.
- The `APIs` and `BRAND_CODES` tables are constants. Their contents are stated by `WatchesModel.FormatBrandTemplate`, `WatchesModel.FormatMarketIndexTemplate` and `WatchesModel.ResolveCatalogue`.
- The abstract base class `WatchDataAPI` (lines 13-19). It is plumbing only, and the one provider is modelled directly.
- The `**kwargs` pass-through of `get_data` beyond the timestamp (line 80).
- Non-string brand values, which Python's duck typing would accept.
- PyFormat.Format: this covers only the part of `str.format` the templates use. Auto-numbered `{}`, named fields, attribute or index access, `!r` conversions and `:` format specs come back as `UnsupportedField`, even where Python would accept them. The model accepts only ASCII digits as a field index, while Python also accepts other Unicode decimal digits. This matters only for a brand code that holds braces.

## Findings

| source | as written | input that shows it | evidently intended | confidence | as-written member | corrected member |
|---|---|---|---|---|---|---|
| openbb_terminal/alternative/watches/watches_model.py:61 | the URL already built on lines 56-60 is passed through `.format(brand, current_time_milli)` a second time before the request | `get_data_by_code(brand="{1}")` at 5 ms requests `https://watchcharts.com/watches/brand_chart/5.json?&_=5` instead of `.../brand_chart/{1}.json?&_=5`; `brand="{"` raises `ValueError` | request the URL built on lines 56-60 as it is | medium; not executed | `WatchesModel.SecondFormatRewritesField` (on `WatchesModel.FetchByCodeAsWritten`) | `WatchesModel.FetchByCode` (with `WatchesModel.FetchByCodeReadsBuiltUrl`) |

Through `get_data` the defect cannot show, because catalogue codes are digits
(`WatchesModel.FetchByNameAsWrittenAgrees`). It shows only when `get_data_by_code` is called
directly with a code that holds braces. The model's `FetchByName` uses the corrected
`FetchByCode`.
