# places — a Dafny model

The places tool turns a HERE places API search into a CSV file of points of
interest. It first resolves the search coordinates, either from an explicit
"lat,long" option or by geocoding a location. It then composes the first
request URL and follows `api_calls` result pages, keeping every raw page and
every item. Last, it flattens each place to one comma-separated line. The
line holds name, street, city, state, zip code, latitude, longitude and
category id. The street, city, state and zip code come from the place's
`vicinity` text, which has the form "street<br/>city, state zip".

This project models that pipeline (`src/places.py`) and the older
single-page script `here.py`, and proves what each step produces and when it
fails:

- `results.dfy` (module `Results`) holds `Option`, `Result` and the errors
  the tool raises. It also models Python's two-way tuple unpacking, which
  raises unless the count is exact.
- `pytext.dfy` (module `PyText`) models Python's `str.split(sep)`, which
  keeps empty pieces, and `sep.join`. It also models `str.split()`, which
  splits on runs of whitespace as `str.isspace` defines it. It proves the
  round trips between splitting and joining.
- `records.dfy` (module `Records`) holds places, categories, addresses and
  coordinates. A coordinate is the text `str()` gives a float.
- `csv.dfy` (module `Csv`) holds the loop both `write_csv` functions run. It
  writes one rendered line plus "\n" per item. A failure mid-loop leaves the
  lines written so far in the file.
- `places.dfy` (module `Places`) models `src/places.py`. It covers coordinate
  precedence, the first URL, the address parser, the record flattener, the
  CSV text, the pagination loop and `execute`.
- `here.py` is modelled in `here.dfy` (module `Here`). It covers the request
  URL, `get_fields` and the CSV text. It also proves that, given a line
  break, its address fields agree with `parse_address`.

The network, the geocoder and Python's `float()` are parameters of the
model: `fetch`, `geocode` and `parseFloat`. A response arrives already
decoded from JSON. Only the page-level keys (`results`, `next`, `items`)
may be absent, as `Option`s, so only their `KeyError`s are modelled. An absent string option is the empty string. Python
treats `None` and `""` alike in every test the code makes.

The model follows the code in these respects:

- The pagination loop never stops early. A page without `next` raises
  `KeyError` (`MissingKey("next")`), even on the last page.
- The CSV header is defined but never written, so zero places give an empty
  file.
- Bad input fails with Python's own exceptions from unpacking and `float()`,
  not with named parse errors.

## Model

| member | source | states |
|---|---|---|
| Results.Unpack2 | src/places.py:45 | unpacking into two names succeeds exactly when there are two items, which it returns in order; otherwise it fails with the expected and actual counts |
| PyText.FindFrom | src/places.py:42 | the index found is an occurrence of the separator, with none before it; None means there is no occurrence |
| PyText.Split | src/places.py:42 | `str.split(sep)` always yields at least one piece |
| PyText.SplitPiecesClean | src/places.py:42 | no piece of a split contains the separator |
| PyText.JoinSplit | src/places.py:65-66 | joining the pieces of a split with the same separator gives back the original string |
| PyText.SplitCons | src/places.py:42 | if occurrences of the separator cannot overlap, a split of `a + sep + b` with separator-free `a` yields `a` first, then the split of `b` |
| PyText.SplitJoin | src/places.py:65-66 | joining separator-free pieces and splitting again gives back the pieces |
| PyText.ContainsChar | src/places.py:45 | `[c] in s` holds exactly when the character c occurs in s |
| PyText.SplitCount | src/places.py:45 | splitting on one character yields one more piece than the character has occurrences |
| PyText.Fields | src/places.py:46 | every piece of `str.split()` is non-empty and free of whitespace |
| PyText.FieldsSkipSpace | src/places.py:46 | leading whitespace does not change `str.split()` |
| PyText.FieldsToken | src/places.py:46 | a token followed by whitespace or by nothing is the first piece of `str.split()` |
| PyText.FieldsJoin | src/places.py:53 | tokens joined by single spaces split back into the same tokens |
| Csv.WriteLines | src/places.py:83-85 | the writing loop leaves the file text and the failure that `Emit` specifies; no items means an empty file and no failure |
| Csv.EmitCompleteIff | src/places.py:83-85 | the loop completes exactly when every item renders |
| Csv.EmitFirstFailure | src/places.py:83-85 | the first item that fails to render stops the loop; the file keeps the lines of the items before it, and that item's error is raised |
| Csv.EmitSplitLines | src/places.py:83-85 | if every line is free of "\n", splitting the file on "\n" gives the lines in input order, then a final empty piece |
| Places.GetLatLong | src/places.py:16-24 | a non-empty lat_long must split on "," into exactly two parts, each parsed as a float; otherwise a location is geocoded, and a failed lookup is an error; with neither input the call fails |
| Places.ExplicitCoordinatesWin | src/places.py:18-20 | with lat_long given, neither the location nor the geocoder affects the result |
| Places.LatLongRoundTrip | src/places.py:19-20 | "lat,long" built from two comma-free numbers resolves to those two numbers |
| Places.LocationIgnoresParser | src/places.py:21-22 | without lat_long, the float parser plays no part |
| Places.StartUrl | src/places.py:26-34 | the URL starts with the base; `&q=<search>` follows exactly when search is non-empty; `&at=<lat>,<lon>` follows exactly when both coordinates are non-zero; the credentials come last; its length is the sum of those parts, so nothing else is in it |
| Places.BuildStartUrl | src/places.py:26-34 | building the URL by successive appends gives `StartUrl` |
| Places.UrlQuery | src/places.py:28-30 | in `base + query + at + credentials`, the URL starts with the base, and `&q=` follows it exactly when the query part is present |
| Places.UrlAt | src/places.py:31-32 | `&at=` follows the query part exactly when the coordinate part is present |
| Places.UrlCredentials | src/places.py:33 | the credentials always end the URL |
| Places.LeadingPart | src/places.py:29-32 | an optional part is detected by its opening marker exactly when it is present, since the text after it never opens with that marker |
| Places.ParseAddress | src/places.py:40-57 | a failure is always a two-way unpacking mismatch; on success, state and zip code are both empty or both single tokens |
| Places.SplitBrIff | src/places.py:42-43 | the split on "<br/>" has more than one segment exactly when "<br/>" occurs |
| Places.ParseAddressWithBreak | src/places.py:42-47 | with a line break, parsing succeeds exactly when segment 1 has one comma and the text after it holds two tokens; the street is the text before the first "<br/>", the city is the text before the comma, and state and zip are the two tokens |
| Places.ParseAddressCityOnly | src/places.py:49-54 | without a line break but with a comma, the street is empty, the city is the text before the first comma, and parsing succeeds exactly when the second comma part holds two tokens, state and zip |
| Places.ParseAddressStreetOnly | src/places.py:55-57 | without a line break or a comma, the whole vicinity is the street and the other parts are empty |
| Places.ParseAddressFailsIff | src/places.py:45-53 | parsing fails exactly when segment 1 of a line-broken vicinity has other than two comma parts, or when the state/zip text does not hold exactly two tokens |
| Places.ParseAddressRoundTrip | src/places.py:42-47 | "street<br/>city, state zip" parses back to the same address when the parts hold no separators |
| Places.ParseAddressIgnoresTail | src/places.py:42-47 | for every vicinity, whatever follows a second "<br/>" leaves the result unchanged, whether parsing succeeds or fails |
| Places.ParseCityLineRoundTrip | src/places.py:49-54 | "city, state zip" with no line break parses to the same city, state and zip and an empty street |
| Places.AddressExampleFull | src/places.py:42-47 | "123 Main St<br/>San Diego, CA 92109" parses to "123 Main St", "San Diego", "CA", "92109" |
| Places.AddressExampleCity | src/places.py:49-54 | "San Diego, CA 92109" parses to an empty street, "San Diego", "CA", "92109" |
| Places.AddressExampleStreet | src/places.py:55-57 | "123 Main St" parses to that street with empty city, state and zip |
| Places.GetFields | src/places.py:59-66 | flattening succeeds exactly when the address parses and the position holds two values; an address error takes precedence |
| Places.GetFieldsRoundTrip | src/places.py:59-66 | when no field holds a comma, splitting the line on "," gives name, street, city, state, zip, lat, lon and category id, in that order |
| Places.WriteCsv | src/places.py:79-85 | the CSV text is one line per place, in order, with no header; zero places give an empty file |
| Places.CsvReadBack | src/places.py:79-85 | the CSV of places whose fields hold no comma or newline reads back line by line and field by field into each place's eight fields, in input order |
| Places.ReadPage | src/places.py:106-111 | page 1 yields the `next` and `items` of `results`, later pages those at the top level; reading succeeds exactly when these keys are present, and otherwise reports the first missing key in the order `results`, `next`, `items` |
| Places.Paginate | src/places.py:96-111 | the loop's result is exactly `Crawl` from the start URL over `api_calls` pages, none when `api_calls` is not positive |
| Places.CrawlShape | src/places.py:101-111 | a completed crawl made exactly `api_calls` fetches, the first at the start URL and each later one at the previous page's `next`; it kept one raw page per fetch, in order, and gathered all pages' items concatenated in order |
| Places.CrawlPrefix | src/places.py:101 | asking for more pages only extends the URLs, raw pages and places that fewer pages gather |
| Places.CrawlFirstFailure | src/places.py:101-111 | when the page of fetch number `k` is reached and cannot be read, the crawl of `k + 1` or more pages fails with that page's own error, unchanged, however many more pages were asked for |
| Places.CrawlFailsIff | src/places.py:101-111 | a crawl fails only with a missing key, and it fails exactly when one of the `api_calls` pages it reaches cannot be read |
| Places.LastPageNeedsNext | src/places.py:106-108 | a first page whose `results` carry items but no `next` fails with the missing key `next`, even when only one page is asked for, because the next URL is read before the items |
| Places.JsonTextIsEmit | src/places.py:73-77 | the JSON file's text is what the line-writing loop produces over the raw pages, each written as it is, and writing it never fails |
| Places.JsonReadBack | src/places.py:73-77 | splitting the JSON file on "\n" gives back the raw pages in arrival order, then the empty piece after the final "\n", when no page holds a "\n" |
| Places.Execute | src/places.py:90-119 | a coordinate failure writes nothing; with the API disabled, no place is gathered and the CSV is empty; with it enabled, the JSON file holds the raw pages one per line and the CSV holds the flattened places, or the crawl's error ends the run first |
| Here.ApiUrl | here.py:7-12 | the URL starts with the base; `&q=<query>` follows exactly when query is non-empty; `&at=<lat_long>` follows verbatim exactly when lat_long is non-empty; the credentials come last; its length is the sum of those parts, so nothing else is in it |
| Here.BuildApiUrl | here.py:7-12 | building the URL by successive appends gives `ApiUrl` |
| Here.ApiUrlMatchesStartUrl | here.py:10-11 | given "lat,long" from two non-zero coordinates, here.py requests the same URL as `get_here_start_url` |
| Here.GetFields | here.py:20-30 | a vicinity without "<br/>" fails on indexing segment 1 |
| Here.AgreesWithParseAddress | here.py:24-27 | given "<br/>", here.py flattens exactly when src/places.py does, with the same street, city, state and zip, and with the category title second |
| Here.GetFieldsRoundTrip | here.py:29-30 | when no field holds a comma, splitting the line on "," gives title, category title, street, city, state, zip, lat and lon, in that order |
| Here.WriteCsv | here.py:42-47 | the CSV text is one line per poi, in order, with no header; no pois give an empty file |
| Here.CsvReadBack | here.py:42-47 | the CSV of pois whose fields hold no comma or newline reads back into each poi's eight fields, in input order |

## Left out

- HTTP requests (`requests.get`) are the `fetch` parameter. Transport errors are not modelled.
- JSON decoding (`json.loads`) is not modelled. A response is the raw text plus a decoded `Document` whose keys may be absent. Values of the wrong JSON type are not modelled.
- `next` present but JSON `null` is not distinguished from a string URL.
- The Nominatim geocoder is the `geocode` parameter. Its coordinates, and the example coordinates the tests expect from the live service, are not modelled.
- Float parsing and formatting are not modelled. `float()` is the `parseFloat` parameter, and a coordinate is the text `str()` gives it. A zero coordinate is taken to print as "0.0" or "-0.0".
- File I/O (`open`, `read_json`, `write_json`, and the file names built from search and coordinates) is not modelled. Only the text written to each file is. The text `read_json` reads is discarded by `execute`, so the cached path contributes no places. Whether the cached file can be opened is the `cacheReadable` parameter.
- Command-line and configuration-file parsing and the printing of the configuration are not modelled. `save_json` and `save_csv` are booleans here, although a value from a configuration file arrives as a non-empty string and is therefore always true.
- `here.py`'s `get_pois` only indexes decoded JSON, which is not modelled.
- `here.py`'s `execute` is not modelled. It refers to an undefined name, `configs`, on the API path.
- The fields of a place (`title`, `category` with its `id` or `title`, `vicinity`, `position`) are always present in the model. The `KeyError`s that `get_fields` raises for a missing one are not modelled (src/places.py:61-64, here.py:22-28).
- Each fetch is a function of its URL: the model assumes that requesting the same URL twice returns the same page.
