/** The search-to-CSV pipeline of src/places.py: resolving the search
    coordinates, composing the first request URL, following result pages,
    parsing the `vicinity` address of each place and flattening each place
    to one CSV line. */
module Places {
  import opened Results
  import opened PyText
  import opened Records
  import Csv

  const BaseUrl: string := "https://places.cit.api.here.com/places/v1/browse?"

  // ---------------------------------------------------------------------
  // Coordinates

  /** `get_lat_long(lat_long, location)`: an explicit "lat,long" string wins;
      otherwise the location is geocoded; with neither the call fails.
      `parseFloat` stands for Python's `float()` (None where it raises) and
      `geocode` for the OpenStreetMap geocoder (None where it finds nothing).
      An absent option is the empty string, which Python treats as false
      just like None. */
  function GetLatLong(latLong: string, location: string,
                      parseFloat: string -> Option<Coord>,
                      geocode: string -> Option<(Coord, Coord)>): (r: Result<(Coord, Coord)>)
    ensures latLong != "" && r.Success? ==>
              var parts := Split(latLong, ",");
              |parts| == 2 && parseFloat(parts[0]) == Some(r.value.0) && parseFloat(parts[1]) == Some(r.value.1)
    ensures latLong != "" && |Split(latLong, ",")| != 2 ==> r == Failure(UnpackMismatch(2, |Split(latLong, ",")|))
    ensures latLong == "" && location != "" ==>
              (r.Success? <==> geocode(location).Some?) &&
              (r.Success? ==> r.value == geocode(location).value) &&
              (r.Failure? ==> r.error == GeocodingFailed)
    ensures latLong == "" && location == "" ==> r == Failure(MissingLocationInput)
  {
    if latLong != "" then
      var pair :- Unpack2(Split(latLong, ","));
      var latitude :- AsFloat(pair.0, parseFloat);
      var longitude :- AsFloat(pair.1, parseFloat);
      Success((latitude, longitude))
    else if location != "" then
      match geocode(location)
      case Some(position) => Success(position)
      case None => Failure(GeocodingFailed)
    else
      Failure(MissingLocationInput)
  }

  /** Python's `float(text)`, raising ValueError when `text` is not a number. */
  function AsFloat(text: string, parseFloat: string -> Option<Coord>): (r: Result<Coord>)
    ensures r.Success? <==> parseFloat(text).Some?
    ensures r.Success? ==> r.value == parseFloat(text).value
  {
    match parseFloat(text)
    case Some(c) => Success(c)
    case None => Failure(NotAFloat(text))
  }

  /** Explicit coordinates win: the location and the geocoder play no part. */
  lemma ExplicitCoordinatesWin(latLong: string, location1: string, location2: string,
                               parseFloat: string -> Option<Coord>,
                               geocode1: string -> Option<(Coord, Coord)>,
                               geocode2: string -> Option<(Coord, Coord)>)
    requires latLong != ""
    ensures GetLatLong(latLong, location1, parseFloat, geocode1) == GetLatLong(latLong, location2, parseFloat, geocode2)
  {
  }

  /** "lat,long" built from two comma-free numbers resolves to those numbers. */
  lemma LatLongRoundTrip(latText: string, longText: string, location: string,
                         parseFloat: string -> Option<Coord>,
                         geocode: string -> Option<(Coord, Coord)>)
    requires ',' !in latText && ',' !in longText
    requires parseFloat(latText).Some? && parseFloat(longText).Some?
    ensures GetLatLong(latText + "," + longText, location, parseFloat, geocode)
            == Success((parseFloat(latText).value, parseFloat(longText).value))
  {
    ContainsChar(latText, ',');
    ContainsChar(longText, ',');
    SingleCharUnbordered(',');
    SplitCons(latText, ",", longText);
    assert Split(longText, ",") == [longText];
  }

  /** Without explicit coordinates the float parser plays no part. */
  lemma LocationIgnoresParser(location: string,
                              parseFloat1: string -> Option<Coord>,
                              parseFloat2: string -> Option<Coord>,
                              geocode: string -> Option<(Coord, Coord)>)
    ensures GetLatLong("", location, parseFloat1, geocode) == GetLatLong("", location, parseFloat2, geocode)
  {
  }

  // ---------------------------------------------------------------------
  // The first request URL

  /** `get_here_start_url`: the base URL, then `&q=<search>` when a search
      term is given, then `&at=<lat>,<lon>` when both coordinates are
      non-zero, then the credentials, always last. */
  function StartUrl(appId: string, appCode: string, search: string, latitude: Coord, longitude: Coord): (url: string)
    ensures BaseUrl <= url
    ensures "&q=" <= url[|BaseUrl|..] <==> search != ""
    ensures search != "" ==> "&q=" + search <= url[|BaseUrl|..]
    ensures var afterQuery := |BaseUrl| + (if search != "" then |"&q=" + search| else 0);
            afterQuery <= |url| &&
            ("&at=" <= url[afterQuery..] <==> Truthy(latitude) && Truthy(longitude)) &&
            (Truthy(latitude) && Truthy(longitude) ==> "&at=" + latitude + "," + longitude <= url[afterQuery..])
    ensures var credentials := "&app_id=" + appId + "&app_code=" + appCode;
            |credentials| <= |url| && url[|url| - |credentials|..] == credentials
    ensures |url| == |BaseUrl| + (if search != "" then |"&q=" + search| else 0)
                     + (if Truthy(latitude) && Truthy(longitude) then |"&at=" + latitude + "," + longitude| else 0)
                     + |"&app_id=" + appId + "&app_code=" + appCode|
  {
    var query, at, credentials := QueryPart(search), AtPart(latitude, longitude), Credentials(appId, appCode);
    UrlQuery(BaseUrl, query, at, credentials);
    UrlAt(BaseUrl, query, at, credentials);
    UrlCredentials(BaseUrl, query, at, credentials);
    BaseUrl + query + at + credentials
  }

  /** `get_here_start_url` as written: `url` starts at the base and each
      present part is appended in turn. */
  method BuildStartUrl(appId: string, appCode: string, search: string, latitude: Coord, longitude: Coord)
    returns (url: string)
    ensures url == StartUrl(appId, appCode, search, latitude, longitude)
  {
    url := BaseUrl;
    if search != "" {
      url := url + ("&q=" + search);
    }
    assert url == BaseUrl + QueryPart(search);
    if Truthy(latitude) && Truthy(longitude) {
      url := url + ("&at=" + latitude + "," + longitude);
    }
    assert url == BaseUrl + QueryPart(search) + AtPart(latitude, longitude);
    url := url + ("&app_id=" + appId + "&app_code=" + appCode);
  }

  /** What `url += "&q={}".format(search)` appends: nothing without a search term. */
  function QueryPart(search: string): string {
    if search != "" then "&q=" + search else ""
  }

  /** What `url += "&at={},{}".format(latitude, longitude)` appends: nothing
      unless both coordinates are non-zero. */
  function AtPart(latitude: Coord, longitude: Coord): string {
    if Truthy(latitude) && Truthy(longitude) then "&at=" + latitude + "," + longitude else ""
  }

  /** What `url += "&app_id={}&app_code={}".format(app_id, app_code)` appends. */
  function Credentials(appId: string, appCode: string): string {
    "&app_id=" + appId + "&app_code=" + appCode
  }

  /** The query part of `base + query + at + credentials`. */
  lemma UrlQuery(base: string, query: string, at: string, credentials: string)
    requires query == "" || "&q=" <= query
    requires at == "" || "&at=" <= at
    requires "&app_id=" <= credentials
    ensures var url := base + query + at + credentials;
            base <= url &&
            ("&q=" <= url[|base|..] <==> query != "") &&
            query <= url[|base|..]
  {
    var tail := at + credentials;
    TailOpens(at, credentials);
    assert base + query + at + credentials == base + (query + tail);
    Concat(base, query + tail);
    LeadingPart(query, tail, "&q=", 1);
  }

  /** Whatever follows the query opens with "&a". */
  lemma TailOpens(at: string, credentials: string)
    requires at == "" || "&at=" <= at
    requires "&app_id=" <= credentials
    ensures 1 < |at + credentials| && (at + credentials)[1] == 'a'
  {
    if at == "" {
      assert at + credentials == credentials;
    } else {
      assert at[1] == 'a';
    }
  }

  /** The `&at=` part of `base + query + at + credentials`. */
  lemma UrlAt(base: string, query: string, at: string, credentials: string)
    requires at == "" || "&at=" <= at
    requires "&app_id=" <= credentials
    ensures var url := base + query + at + credentials;
            |base| + |query| <= |url| &&
            ("&at=" <= url[|base| + |query|..] <==> at != "") &&
            at <= url[|base| + |query|..]
  {
    var url := base + query + at + credentials;
    assert url == (base + query) + (at + credentials);
    Concat(base + query, at + credentials);
    assert credentials[2] == 'p';
    LeadingPart(at, credentials, "&at=", 2);
  }

  /** The credentials end `base + query + at + credentials`. */
  lemma UrlCredentials(base: string, query: string, at: string, credentials: string)
    ensures var url := base + query + at + credentials;
            |credentials| <= |url| && url[|url| - |credentials|..] == credentials
  {
    Concat(base + query + at, credentials);
  }

  /** The two halves of a concatenation. */
  lemma Concat(a: string, b: string)
    ensures (a + b)[..|a|] == a && (a + b)[|a|..] == b
  {
  }

  lemma PrefixConcat(p: string, a: string, b: string)
    requires p <= a
    ensures p <= a + b
  {
    assert (a + b)[..|p|] == a[..|p|];
  }

  /** An optional part that, when present, opens with `marker`, placed before
      text that does not open with it: the marker opens the whole exactly when
      the part is present. */
  lemma LeadingPart(part: string, rest: string, marker: string, i: nat)
    requires part == "" || marker <= part
    requires i < |marker| && i < |rest| && marker[i] != rest[i]
    ensures marker <= part + rest <==> part != ""
    ensures part <= part + rest
  {
    if part != "" {
      PrefixConcat(marker, part, rest);
    } else {
      assert part + rest == rest;
    }
  }

  // ---------------------------------------------------------------------
  // The address parser

  /** `parse_address`: split `vicinity` on "<br/>"; with a line break, the
      first segment is the street and the second must be "city,state zip";
      without one, "city,state zip" gives an empty street and a string with
      no comma is all street. Unpacking the wrong number of pieces raises. */
  function ParseAddress(vicinity: string): (r: Result<Address>)
    ensures r.Failure? ==> r.error.UnpackMismatch? && r.error.expected == 2
    ensures r.Success? && r.value.state != "" ==> IsToken(r.value.state) && IsToken(r.value.zipcode)
    ensures r.Success? ==> (r.value.state == "" <==> r.value.zipcode == "")
  {
    var address := Split(vicinity, Br);
    if |address| > 1 then
      var street := address[0];
      var cityStateZip :- Unpack2(Split(address[1], ","));
      var stateZip :- Unpack2(Fields(cityStateZip.1));
      Success(Address(street, cityStateZip.0, stateZip.0, stateZip.1))
    else
      var parts := Split(address[0], ",");
      if |parts| > 1 then
        var stateZip :- Unpack2(Fields(parts[1]));
        Success(Address("", parts[0], stateZip.0, stateZip.1))
      else
        Success(Address(parts[0], "", "", ""))
  }

  /** A line break is present exactly when the split has more than one segment. */
  lemma SplitBrIff(vicinity: string)
    ensures |Split(vicinity, Br)| > 1 <==> Contains(vicinity, Br)
    ensures !Contains(vicinity, Br) ==> Split(vicinity, Br) == [vicinity]
  {
  }

  /** With a line break: the street is the text before the first "<br/>";
      the second segment must hold exactly one comma, the city is the text
      before it, and the text after it must hold exactly two whitespace-
      separated tokens, the state and the zip code. Later segments are ignored. */
  lemma {:induction false} ParseAddressWithBreak(vicinity: string)
    requires Contains(vicinity, Br)
    ensures var segment := Split(vicinity, Br)[1];
            var r := ParseAddress(vicinity);
            (|Split(segment, ",")| == 2 <==> CountChar(segment, ',') == 1) &&
            (r.Success? <==> |Split(segment, ",")| == 2 && |Fields(Split(segment, ",")[1])| == 2) &&
            (r.Success? ==>
               r.value.street == vicinity[..Find(vicinity, Br).value] &&
               !Contains(r.value.street, Br) &&
               r.value.city + "," <= segment && ',' !in r.value.city &&
               Fields(segment[|r.value.city| + 1..]) == [r.value.state, r.value.zipcode])
  {
    var address := Split(vicinity, Br);
    var segment := address[1];
    SplitBrIff(vicinity);
    SplitCount(segment, ',');
    SplitPiecesClean(vicinity, Br);
    var pieces := Split(segment, ",");
    if |pieces| == 2 {
      JoinSplit(segment, ",");
      SplitPiecesClean(segment, ",");
      ContainsChar(pieces[0], ',');
      assert segment == pieces[0] + "," + pieces[1];
      assert segment[|pieces[0]| + 1..] == pieces[1];
    }
  }

  /** Without a line break but with a comma: the street is empty, the city is
      the text before the first comma, and the text between the first and the
      second comma (if any) must hold exactly two tokens, state and zip code. */
  lemma {:induction false} ParseAddressCityOnly(vicinity: string)
    requires !Contains(vicinity, Br) && ',' in vicinity
    ensures var parts := Split(vicinity, ",");
            var r := ParseAddress(vicinity);
            |parts| >= 2 &&
            (r.Success? <==> |Fields(parts[1])| == 2) &&
            (r.Success? ==>
               r.value.street == "" &&
               r.value.city + "," <= vicinity && ',' !in r.value.city &&
               Fields(parts[1]) == [r.value.state, r.value.zipcode])
  {
    SplitBrIff(vicinity);
    var parts := Split(vicinity, ",");
    SplitCount(vicinity, ',');
    ContainsChar(vicinity, ',');
    assert CountChar(vicinity, ',') >= 1 by {
      if CountChar(vicinity, ',') == 0 {
        CountCharZero(vicinity, ',');
        assert false;
      }
    }
    JoinSplit(vicinity, ",");
    SplitPiecesClean(vicinity, ",");
    ContainsChar(parts[0], ',');
    assert Join(parts, ",") == parts[0] + "," + Join(parts[1..], ",");
  }

  /** Without a line break or a comma, the whole vicinity is the street. */
  lemma ParseAddressStreetOnly(vicinity: string)
    requires !Contains(vicinity, Br) && ',' !in vicinity
    ensures ParseAddress(vicinity) == Success(Address(vicinity, "", "", ""))
  {
    SplitBrIff(vicinity);
    ContainsChar(vicinity, ',');
    assert Split(vicinity, ",") == [vicinity];
  }

  /** Parsing fails exactly in the two unpacking cases. */
  lemma ParseAddressFailsIff(vicinity: string)
    ensures ParseAddress(vicinity).Failure? <==>
            if Contains(vicinity, Br) then
              var segment := Split(vicinity, Br)[1];
              |Split(segment, ",")| != 2 || |Fields(Split(segment, ",")[1])| != 2
            else
              |Split(vicinity, ",")| > 1 && |Fields(Split(vicinity, ",")[1])| != 2
  {
    if Contains(vicinity, Br) {
      ParseAddressWithBreak(vicinity);
    } else if ',' in vicinity {
      ParseAddressCityOnly(vicinity);
    } else {
      ParseAddressStreetOnly(vicinity);
      ContainsChar(vicinity, ',');
    }
  }

  lemma {:induction false} CountCharZero(s: string, c: char)
    requires CountChar(s, c) == 0
    ensures c !in s
  {
    if s != [] {
      CountCharZero(s[1..], c);
      assert s == [s[0]] + s[1..];
    }
  }

  /** An address whose parts hold no separators the parser looks for. */
  predicate Separable(a: Address) {
    && !Contains(a.street, Br)
    && ',' !in a.city && '<' !in a.city
    && IsToken(a.state) && ',' !in a.state && '<' !in a.state
    && IsToken(a.zipcode) && ',' !in a.zipcode && '<' !in a.zipcode
  }

  /** The "city, state zip" line the API writes after the line break. */
  function CityLine(a: Address): string {
    a.city + ", " + a.state + " " + a.zipcode
  }

  lemma CityLineSplit(a: Address)
    requires Separable(a)
    ensures !Contains(CityLine(a), Br)
    ensures Split(CityLine(a), ",") == [a.city, " " + a.state + " " + a.zipcode]
  {
    var rest := " " + a.state + " " + a.zipcode;
    assert CityLine(a) == a.city + "," + rest;
    assert '<' !in rest;
    NoLtNoBr(CityLine(a));
    ContainsChar(a.city, ',');
    ContainsChar(rest, ',');
    SingleCharUnbordered(',');
    SplitCons(a.city, ",", rest);
  }

  lemma StateZipFields(state: string, zipcode: string)
    requires IsToken(state) && IsToken(zipcode)
    ensures Fields(" " + state + " " + zipcode) == [state, zipcode]
  {
    assert " " + state + " " + zipcode == " " + (state + " " + zipcode);
    FieldsSkipSpace(" ", state + " " + zipcode);
    assert Join([state, zipcode], " ") == state + " " + zipcode by {
      assert [state, zipcode][1..] == [zipcode];
    }
    FieldsJoin([state, zipcode]);
  }

  lemma CityLineClean(a: Address)
    requires Separable(a)
    ensures !Contains(CityLine(a), Br)
    ensures Split(CityLine(a), ",") == [a.city, " " + a.state + " " + a.zipcode]
    ensures Fields(" " + a.state + " " + a.zipcode) == [a.state, a.zipcode]
  {
    CityLineSplit(a);
    StateZipFields(a.state, a.zipcode);
  }

  /** Street, line break, "city, state zip" parses back to the same address. */
  lemma ParseAddressRoundTrip(a: Address)
    requires Separable(a)
    ensures ParseAddress(a.street + Br + CityLine(a)) == Success(a)
  {
    BrUnbordered();
    CityLineClean(a);
    SplitCons(a.street, Br, CityLine(a));
    assert Split(CityLine(a), Br) == [CityLine(a)];
  }

  /** Segments after the second are ignored: whatever follows a second
      "<br/>" cannot change the result, success or failure. */
  lemma ParseAddressIgnoresTail(street: string, cityLine: string, tail: string)
    requires !Contains(street, Br) && !Contains(cityLine, Br)
    ensures ParseAddress(street + Br + cityLine + Br + tail) == ParseAddress(street + Br + cityLine)
  {
    BrUnbordered();
    assert street + Br + cityLine + Br + tail == street + Br + (cityLine + Br + tail);
    SplitCons(street, Br, cityLine + Br + tail);
    SplitCons(cityLine, Br, tail);
    SplitCons(street, Br, cityLine);
    SplitBrIff(cityLine);
  }

  /** "city, state zip" with no line break parses to an empty street. */
  lemma ParseCityLineRoundTrip(a: Address)
    requires Separable(a) && a.street == ""
    ensures ParseAddress(CityLine(a)) == Success(a)
  {
    CityLineClean(a);
    SplitBrIff(CityLine(a));
  }

  /** The three shapes on three literal addresses. */
  lemma AddressExampleFull(v: string)
    requires v == "123 Main St<br/>San Diego, CA 92109"
    ensures ParseAddress(v) == Success(Address("123 Main St", "San Diego", "CA", "92109"))
  {
    var a := Address("123 Main St", "San Diego", "CA", "92109");
    ExampleSeparable(a);
    ExampleLayout(v, a);
    ParseAddressRoundTrip(a);
  }

  lemma ExampleLayout(v: string, a: Address)
    requires v == "123 Main St<br/>San Diego, CA 92109"
    requires a == Address("123 Main St", "San Diego", "CA", "92109")
    ensures v == a.street + Br + CityLine(a)
  {
  }

  lemma AddressExampleCity(v: string)
    requires v == "San Diego, CA 92109"
    ensures ParseAddress(v) == Success(Address("", "San Diego", "CA", "92109"))
  {
    var a := Address("", "San Diego", "CA", "92109");
    ExampleSeparable(a);
    ParseCityLineRoundTrip(a);
    assert CityLine(a) == v;
  }

  lemma AddressExampleStreet(v: string)
    requires v == "123 Main St"
    ensures ParseAddress(v) == Success(Address("123 Main St", "", "", ""))
  {
    NoLtNoBr(v);
    ParseAddressStreetOnly(v);
  }

  lemma ExampleSeparable(a: Address)
    requires a.street in {"", "123 Main St"} && a.city == "San Diego" && a.state == "CA" && a.zipcode == "92109"
    ensures Separable(a)
  {
    NoLtNoBr(a.street);
  }

  // ---------------------------------------------------------------------
  // Flattening a place to a CSV line

  /** The eight output fields of a place in column order. */
  function Record(p: Place, a: Address, lat: Coord, lon: Coord): seq<string> {
    [p.title, a.street, a.city, a.state, a.zipcode, lat, lon, p.category.id]
  }

  /** The eight output fields of a place that flattens. */
  function Columns(p: Place): (fields: seq<string>)
    requires GetFields(p).Success?
    ensures |fields| == 8 && Join(fields, ",") == GetFields(p).value
  {
    Record(p, ParseAddress(p.vicinity).value, p.position[0], p.position[1])
  }

  /** `get_fields`: name, street, city, state, zip code, latitude, longitude
      and category id joined by commas. The address is parsed before the
      position is unpacked, so an address error is the one raised. */
  function GetFields(p: Place): (r: Result<string>)
    ensures r.Success? <==> ParseAddress(p.vicinity).Success? && |p.position| == 2
    ensures ParseAddress(p.vicinity).Failure? ==> r == Failure(ParseAddress(p.vicinity).error)
  {
    var a :- ParseAddress(p.vicinity);
    var position :- Unpack2(p.position);
    Success(Join(Record(p, a, position.0, position.1), ","))
  }

  /** When no field holds a comma, splitting the line on commas gives back
      exactly the eight fields, in column order. */
  lemma GetFieldsRoundTrip(p: Place)
    requires GetFields(p).Success?
    requires var a := ParseAddress(p.vicinity).value;
             forall field | field in [p.title, a.street, a.city, a.state, a.zipcode, p.position[0], p.position[1], p.category.id] ::
               ',' !in field
    ensures var a := ParseAddress(p.vicinity).value;
            Split(GetFields(p).value, ",") == [p.title, a.street, a.city, a.state, a.zipcode, p.position[0], p.position[1], p.category.id]
            == Columns(p)
  {
    var a := ParseAddress(p.vicinity).value;
    var fields := Record(p, a, p.position[0], p.position[1]);
    forall k | 0 <= k < |fields| ensures !Contains(fields[k], ",") {
      ContainsChar(fields[k], ',');
    }
    SingleCharUnbordered(',');
    SplitJoin(fields, ",");
  }

  // ---------------------------------------------------------------------
  // Writing the CSV

  /** `write_csv`: one `get_fields(place)` line per place, in input order,
      without a header. A place that cannot be flattened stops the loop. */
  method WriteCsv(places: seq<Place>) returns (text: string, failure: Option<Error>)
    ensures Csv.Written(text, failure) == Csv.Emit(places, GetFields)
    ensures places == [] ==> text == "" && failure == None
  {
    text, failure := Csv.WriteLines(places, GetFields);
  }

  /** Read back line by line and field by field, the CSV of places whose
      fields hold no comma or newline gives each place's eight fields, in
      input order. */
  lemma CsvReadBack(places: seq<Place>)
    requires forall k | 0 <= k < |places| :: PlainFields(places[k])
    ensures Csv.Emit(places, GetFields).failure == None
    ensures var lines := Split(Csv.Emit(places, GetFields).text, "\n");
            |lines| == |places| + 1 && lines[|places|] == "" &&
            forall k | 0 <= k < |places| ::
              GetFields(places[k]).Success? && Split(lines[k], ",") == Columns(places[k])
  {
    forall k | 0 <= k < |places|
      ensures '\n' !in GetFields(places[k]).value
      ensures Split(GetFields(places[k]).value, ",") == Columns(places[k])
    {
      var p := places[k];
      var fields := Record(p, ParseAddress(p.vicinity).value, p.position[0], p.position[1]);
      GetFieldsRoundTrip(p);
      NoNewlineInJoin(fields);
    }
    Csv.EmitSplitLines(places, GetFields);
  }

  /** The place flattens, and none of its eight fields holds a comma or a newline. */
  predicate PlainFields(p: Place) {
    && GetFields(p).Success?
    && forall field | field in Columns(p) :: ',' !in field && '\n' !in field
  }

  lemma {:induction false} NoNewlineInJoin(fields: seq<string>)
    requires forall k | 0 <= k < |fields| :: '\n' !in fields[k]
    ensures '\n' !in Join(fields, ",")
  {
    if |fields| > 1 {
      NoNewlineInJoin(fields[1..]);
    }
  }

  // ---------------------------------------------------------------------
  // Following result pages

  /** A JSON object holding a page's `items` and `next`; a missing key is None. */
  datatype Listing = Listing(items: Option<seq<Place>>, next: Option<string>)

  /** A decoded response: the first page nests its listing under `results`,
      later pages carry `items` and `next` at the top level. */
  datatype Document = Document(results: Option<Listing>, top: Listing)

  /** What one fetch returns: the raw JSON text and its decoding. */
  datatype Response = Response(raw: string, doc: Document)

  /** The items of one page and the URL of the next. */
  datatype Page = Page(next: string, items: seq<Place>)

  /** Reading page number `page`: `results.next` then `results.items` on the
      first page, `next` then `items` on later ones; a missing key raises. */
  function ReadPage(page: nat, doc: Document): (r: Result<Page>)
    ensures r.Failure? ==> r.error.MissingKey?
    ensures r.Success? <==> if page == 1 then doc.results.Some? && doc.results.value.next.Some? && doc.results.value.items.Some?
                            else doc.top.next.Some? && doc.top.items.Some?
    ensures r.Success? ==> var listing := if page == 1 then doc.results.value else doc.top;
                           r.value == Page(listing.next.value, listing.items.value)
    ensures page == 1 && doc.results.None? ==> r == Failure(MissingKey("results"))
    ensures var listing := if page == 1 then doc.results else Some(doc.top);
            listing.Some? ==>
              (listing.value.next.None? ==> r == Failure(MissingKey("next"))) &&
              (listing.value.next.Some? && listing.value.items.None? ==> r == Failure(MissingKey("items")))
  {
    var listing :- if page != 1 then Success(doc.top)
                   else if doc.results.Some? then Success(doc.results.value)
                   else Failure(MissingKey("results"));
    if listing.next.None? then Failure(MissingKey("next"))
    else if listing.items.None? then Failure(MissingKey("items"))
    else Success(Page(listing.next.value, listing.items.value))
  }

  /** The URLs fetched, the raw page texts and the places gathered, in order. */
  datatype Harvest = Harvest(requested: seq<string>, pages: seq<string>, places: seq<Place>)

  /** `harvest` gathered before `r`. */
  function Then(harvest: Harvest, r: Result<Harvest>): Result<Harvest> {
    match r
    case Failure(e) => Failure(e)
    case Success(h) => Success(Harvest(harvest.requested + h.requested, harvest.pages + h.pages, harvest.places + h.places))
  }

  lemma ThenEmpty(r: Result<Harvest>)
    ensures Then(Harvest([], [], []), r) == r
  {
    if r.Success? {
      assert [] + r.value.requested == r.value.requested;
      assert [] + r.value.pages == r.value.pages;
      assert [] + r.value.places == r.value.places;
    }
  }

  lemma ThenThen(a: Harvest, b: Harvest, r: Result<Harvest>)
    ensures Then(a, Then(b, r)) == Then(Harvest(a.requested + b.requested, a.pages + b.pages, a.places + b.places), r)
  {
    if r.Success? {
      var h := r.value;
      assert a.requested + (b.requested + h.requested) == a.requested + b.requested + h.requested;
      assert a.pages + (b.pages + h.pages) == a.pages + b.pages + h.pages;
      assert a.places + (b.places + h.places) == a.places + b.places + h.places;
    }
  }

  /** Fetching `count` pages starting at `url`, the first of them numbered `page`. */
  function Crawl(url: string, page: nat, count: nat, fetch: string -> Response): Result<Harvest>
    decreases count
  {
    if count == 0 then Success(Harvest([], [], []))
    else
      var response := fetch(url);
      match ReadPage(page, response.doc)
      case Failure(e) => Failure(e)
      case Success(p) => Then(Harvest([url], [response.raw], p.items), Crawl(p.next, page + 1, count - 1, fetch))
  }

  /** How many times `for page in range(1, api_calls + 1)` runs. */
  function Rounds(apiCalls: int): nat {
    if apiCalls > 0 then apiCalls else 0
  }

  /** The pagination loop of `execute`: fetch, keep the raw page, read the
      next URL and the page's items, repeat `api_calls` times. */
  method Paginate(start: string, apiCalls: int, fetch: string -> Response) returns (r: Result<Harvest>)
    ensures r == Crawl(start, 1, Rounds(apiCalls), fetch)
  {
    var url := start;
    var requested: seq<string>, allJson: seq<string>, allPlaces: seq<Place> := [], [], [];
    var page := 1;
    ThenEmpty(Crawl(start, 1, Rounds(apiCalls), fetch));
    while page <= apiCalls
      invariant 1 <= page <= Rounds(apiCalls) + 1
      invariant Crawl(start, 1, Rounds(apiCalls), fetch)
                == Then(Harvest(requested, allJson, allPlaces), Crawl(url, page, Rounds(apiCalls) - (page - 1), fetch))
    {
      var response := fetch(url);
      ghost var before := Harvest(requested, allJson, allPlaces);
      requested := requested + [url];
      allJson := allJson + [response.raw];
      match ReadPage(page, response.doc) {
        case Failure(e) =>
          return Failure(e);
        case Success(p) =>
          ThenThen(before, Harvest([url], [response.raw], p.items), Crawl(p.next, page + 1, Rounds(apiCalls) - page, fetch));
          url := p.next;
          allPlaces := allPlaces + p.items;
      }
      page := page + 1;
    }
    assert requested + [] == requested && allJson + [] == allJson && allPlaces + [] == allPlaces;
    r := Success(Harvest(requested, allJson, allPlaces));
  }

  /** The items of successive pages numbered from `page`, concatenated. */
  function ItemsOf(page: nat, docs: seq<Document>): seq<Place>
    requires forall k | 0 <= k < |docs| :: ReadPage(page + k, docs[k]).Success?
    decreases |docs|
  {
    if docs == [] then []
    else ReadPage(page, docs[0]).value.items + ItemsOf(page + 1, docs[1..])
  }

  /** A completed crawl made exactly `count` fetches, the first at `url` and
      each later one at the `next` URL of the page before; it kept one raw
      page per fetch, in order, and its places are all the pages' items
      concatenated in order. */
  lemma {:induction false} CrawlShape(url: string, page: nat, count: nat, fetch: string -> Response)
    requires Crawl(url, page, count, fetch).Success?
    ensures var h := Crawl(url, page, count, fetch).value;
            |h.requested| == count && |h.pages| == count &&
            (count > 0 ==> h.requested[0] == url) &&
            (forall k | 0 <= k < count ::
               h.pages[k] == fetch(h.requested[k]).raw &&
               ReadPage(page + k, fetch(h.requested[k]).doc).Success?) &&
            (forall k | 0 <= k < count - 1 ::
               h.requested[k + 1] == ReadPage(page + k, fetch(h.requested[k]).doc).value.next) &&
            h.places == ItemsOf(page, seq(count, k requires 0 <= k < count => fetch(h.requested[k]).doc))
    decreases count
  {
    if count > 0 {
      var response := fetch(url);
      var p := ReadPage(page, response.doc).value;
      CrawlShape(p.next, page + 1, count - 1, fetch);
      var h := Crawl(url, page, count, fetch).value;
      var t := Crawl(p.next, page + 1, count - 1, fetch).value;
      assert h.requested == [url] + t.requested;
      var docs := seq(count, k requires 0 <= k < count => fetch(h.requested[k]).doc);
      var tailDocs := seq(count - 1, k requires 0 <= k < count - 1 => fetch(t.requested[k]).doc);
      assert docs[1..] == tailDocs;
    }
  }

  /** The URL fetch number `k` of a crawl from `url` requests, or None when
      one of the pages before it cannot be read. */
  function Cursor(url: string, page: nat, k: nat, fetch: string -> Response): Option<string>
    decreases k
  {
    if k == 0 then Some(url)
    else match ReadPage(page, fetch(url).doc)
      case Failure(_) => None
      case Success(p) => Cursor(p.next, page + 1, k - 1, fetch)
  }

  /** Fetch number `k` of a crawl from `url` is reached and its page cannot be read. */
  predicate Unreadable(url: string, page: nat, k: nat, fetch: string -> Response) {
    && Cursor(url, page, k, fetch).Some?
    && ReadPage(page + k, fetch(Cursor(url, page, k, fetch).value).doc).Failure?
  }

  /** The first page that cannot be read ends the crawl with its own error,
      unchanged, however many more pages were asked for. */
  lemma {:induction false} CrawlFirstFailure(url: string, page: nat, k: nat, more: nat, fetch: string -> Response)
    requires Unreadable(url, page, k, fetch)
    ensures Crawl(url, page, k + 1 + more, fetch)
            == Failure(ReadPage(page + k, fetch(Cursor(url, page, k, fetch).value).doc).error)
    decreases k
  {
    if k > 0 {
      var next := ReadPage(page, fetch(url).doc).value.next;
      assert page + 1 + (k - 1) == page + k;
      CrawlFirstFailure(next, page + 1, k - 1, more, fetch);
    }
  }

  /** A crawl fails only with a missing key, and exactly when one of the
      pages it reaches cannot be read. */
  lemma {:induction false} CrawlFailsIff(url: string, page: nat, count: nat, fetch: string -> Response)
    ensures Crawl(url, page, count, fetch).Failure? ==> Crawl(url, page, count, fetch).error.MissingKey?
    ensures Crawl(url, page, count, fetch).Failure? <==>
            exists k | 0 <= k < count :: Unreadable(url, page, k, fetch)
    decreases count
  {
    if count > 0 {
      match ReadPage(page, fetch(url).doc)
      case Failure(_) =>
        assert Unreadable(url, page, 0, fetch);
      case Success(p) =>
        CrawlFailsIff(p.next, page + 1, count - 1, fetch);
        var tail := Crawl(p.next, page + 1, count - 1, fetch);
        assert Crawl(url, page, count, fetch) == Then(Harvest([url], [fetch(url).raw], p.items), tail);
        if tail.Failure? {
          var j :| 0 <= j < count - 1 && Unreadable(p.next, page + 1, j, fetch);
          assert Cursor(url, page, j + 1, fetch) == Cursor(p.next, page + 1, j, fetch);
          assert page + 1 + j == page + (j + 1);
          assert Unreadable(url, page, j + 1, fetch);
        } else {
          forall k | 0 <= k < count
            ensures !Unreadable(url, page, k, fetch)
          {
            if k > 0 {
              assert Cursor(url, page, k, fetch) == Cursor(p.next, page + 1, k - 1, fetch);
              assert page + 1 + (k - 1) == page + k;
              assert !Unreadable(p.next, page + 1, k - 1, fetch);
            }
          }
        }
    }
  }

  /** With one page asked for, a first page without `next` still fails. */
  lemma LastPageNeedsNext(url: string, items: seq<Place>, fetch: string -> Response)
    requires fetch(url).doc.results == Some(Listing(Some(items), None))
    ensures Crawl(url, 1, 1, fetch) == Failure(MissingKey("next"))
  {
  }

  /** Asking for more pages only extends what fewer pages gather. */
  lemma {:induction false} CrawlPrefix(url: string, page: nat, count: nat, more: nat, fetch: string -> Response)
    requires Crawl(url, page, count + more, fetch).Success?
    ensures Crawl(url, page, count, fetch).Success?
    ensures var short := Crawl(url, page, count, fetch).value;
            var long := Crawl(url, page, count + more, fetch).value;
            short.requested <= long.requested && short.pages <= long.pages && short.places <= long.places
    decreases count
  {
    if count > 0 {
      var p := ReadPage(page, fetch(url).doc).value;
      CrawlPrefix(p.next, page + 1, count - 1, more, fetch);
    }
  }

  // ---------------------------------------------------------------------
  // The whole run

  /** `write_json`: each raw page followed by "\n", in arrival order. */
  function JsonText(pages: seq<string>): string {
    if pages == [] then "" else pages[0] + "\n" + JsonText(pages[1..])
  }

  /** `write_json` is the line-writing loop over raw pages, each of which is
      written as it is and so never fails. */
  lemma {:induction false} JsonTextIsEmit(pages: seq<string>)
    ensures Csv.Emit(pages, (page: string) => Success(page)) == Csv.Written(JsonText(pages), None)
  {
    if pages != [] {
      JsonTextIsEmit(pages[1..]);
    }
  }

  /** Read back line by line, the JSON file of pages free of "\n" gives the
      raw pages in arrival order, then the empty piece after the final "\n". */
  lemma {:induction false} JsonReadBack(pages: seq<string>)
    requires forall k | 0 <= k < |pages| :: '\n' !in pages[k]
    ensures Split(JsonText(pages), "\n") == pages + [""]
  {
    if pages == [] {
      assert Find("", "\n") == None;
    } else {
      JsonReadBack(pages[1..]);
      ContainsChar(pages[0], '\n');
      SingleCharUnbordered('\n');
      SplitCons(pages[0], "\n", JsonText(pages[1..]));
      assert pages + [""] == [pages[0]] + (pages[1..] + [""]);
    }
  }

  /** The options `execute` reads; an absent string option is "". */
  datatype Config = Config(appId: string, appCode: string, search: string,
                           latLong: string, location: string,
                           apiEnabled: bool, apiCalls: int, saveJson: bool, saveCsv: bool)

  /** The contents left in the JSON and CSV files (None: not written) and the
      exception that ended the run, if any. */
  datatype Run = Run(jsonFile: Option<string>, csvFile: Option<string>, failure: Option<Error>)

  /** `execute`: resolve coordinates, then either follow `api_calls` pages
      (writing every raw page to the JSON file when enabled) or read the
      cached JSON file, whose contents are then discarded, so that no place is
      gathered; finally write the CSV of the places gathered when enabled.
      `cacheReadable` says whether the cached file can be opened. */
  method Execute(config: Config, parseFloat: string -> Option<Coord>,
                 geocode: string -> Option<(Coord, Coord)>,
                 fetch: string -> Response, cacheReadable: bool) returns (run: Run)
    ensures var coords := GetLatLong(config.latLong, config.location, parseFloat, geocode);
            coords.Failure? ==> run == Run(None, None, Some(coords.error))
    ensures var coords := GetLatLong(config.latLong, config.location, parseFloat, geocode);
            coords.Success? && !config.apiEnabled ==>
              run == if !cacheReadable then Run(None, None, Some(CacheUnreadable))
                     else Run(None, if config.saveCsv then Some("") else None, None)
    ensures var coords := GetLatLong(config.latLong, config.location, parseFloat, geocode);
            coords.Success? && config.apiEnabled ==>
              var url := StartUrl(config.appId, config.appCode, config.search, coords.value.0, coords.value.1);
              var crawl := Crawl(url, 1, Rounds(config.apiCalls), fetch);
              if crawl.Failure? then run == Run(None, None, Some(crawl.error))
              else
                && run.jsonFile == (if config.saveJson then Some(JsonText(crawl.value.pages)) else None)
                && (config.saveCsv ==>
                      var written := Csv.Emit(crawl.value.places, GetFields);
                      run.csvFile == Some(written.text) && run.failure == written.failure)
                && (!config.saveCsv ==> run.csvFile == None && run.failure == None)
  {
    var coords := GetLatLong(config.latLong, config.location, parseFloat, geocode);
    if coords.Failure? {
      return Run(None, None, Some(coords.error));
    }
    var (latitude, longitude) := coords.value;
    var jsonFile: Option<string> := None;
    var allPlaces: seq<Place> := [];
    if config.apiEnabled {
      var url := BuildStartUrl(config.appId, config.appCode, config.search, latitude, longitude);
      var harvest := Paginate(url, config.apiCalls, fetch);
      if harvest.Failure? {
        return Run(None, None, Some(harvest.error));
      }
      allPlaces := harvest.value.places;
      if config.saveJson {
        jsonFile := Some(JsonText(harvest.value.pages));
      }
    } else if !cacheReadable {
      return Run(None, None, Some(CacheUnreadable));
    }
    if config.saveCsv {
      var text, failure := WriteCsv(allPlaces);
      run := Run(jsonFile, Some(text), failure);
    } else {
      run := Run(jsonFile, None, None);
    }
  }
}
