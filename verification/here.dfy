/** The older single-page variant, here.py: it builds the request URL from
    a raw "lat,long" string, always expects a line break in `vicinity`, and
    writes the category title (not its id) second on each CSV line. */
module Here {
  import opened Results
  import opened PyText
  import opened Records
  import Places
  import Csv

  /** What `url += "&at={}".format(config.lat_long)` appends: the raw
      "lat,long" text, or nothing when it is absent. */
  function AtPart(latLong: string): string {
    if latLong != "" then "&at=" + latLong else ""
  }

  /** The URL `get_here_api_data` requests: the base URL, `&q=<query>` when
      a query is given, `&at=<lat_long>` verbatim when given, then the
      credentials, always last. */
  function ApiUrl(query: string, latLong: string, appId: string, appCode: string): (url: string)
    ensures Places.BaseUrl <= url
    ensures "&q=" <= url[|Places.BaseUrl|..] <==> query != ""
    ensures query != "" ==> "&q=" + query <= url[|Places.BaseUrl|..]
    ensures var afterQuery := |Places.BaseUrl| + (if query != "" then |"&q=" + query| else 0);
            afterQuery <= |url| &&
            ("&at=" <= url[afterQuery..] <==> latLong != "") &&
            (latLong != "" ==> "&at=" + latLong <= url[afterQuery..])
    ensures var credentials := "&app_id=" + appId + "&app_code=" + appCode;
            |credentials| <= |url| && url[|url| - |credentials|..] == credentials
    ensures |url| == |Places.BaseUrl| + (if query != "" then |"&q=" + query| else 0)
                     + (if latLong != "" then |"&at=" + latLong| else 0)
                     + |"&app_id=" + appId + "&app_code=" + appCode|
  {
    var q, at, credentials := Places.QueryPart(query), AtPart(latLong), Places.Credentials(appId, appCode);
    Places.UrlQuery(Places.BaseUrl, q, at, credentials);
    Places.UrlAt(Places.BaseUrl, q, at, credentials);
    Places.UrlCredentials(Places.BaseUrl, q, at, credentials);
    Places.BaseUrl + q + at + credentials
  }

  /** The URL-building part of `get_here_api_data` as written: `url` starts
      at the base and each present part is appended in turn. */
  method BuildApiUrl(query: string, latLong: string, appId: string, appCode: string) returns (url: string)
    ensures url == ApiUrl(query, latLong, appId, appCode)
  {
    url := Places.BaseUrl;
    if query != "" {
      url := url + ("&q=" + query);
    }
    assert url == Places.BaseUrl + Places.QueryPart(query);
    if latLong != "" {
      url := url + ("&at=" + latLong);
    }
    assert url == Places.BaseUrl + Places.QueryPart(query) + AtPart(latLong);
    url := url + ("&app_id=" + appId + "&app_code=" + appCode);
  }

  /** Given the "lat,long" text of two non-zero coordinates, here.py requests
      the same URL as `get_here_start_url` of src/places.py. */
  lemma ApiUrlMatchesStartUrl(query: string, latitude: Coord, longitude: Coord, appId: string, appCode: string)
    requires Truthy(latitude) && Truthy(longitude)
    ensures ApiUrl(query, latitude + "," + longitude, appId, appCode)
            == Places.StartUrl(appId, appCode, query, latitude, longitude)
  {
    assert AtPart(latitude + "," + longitude) == Places.AtPart(latitude, longitude);
  }

  /** The eight output fields of a poi in here.py's column order. */
  function Record(poi: Place, a: Address, lat: Coord, lon: Coord): seq<string> {
    [poi.title, poi.category.title, a.street, a.city, a.state, a.zipcode, lat, lon]
  }

  /** The eight output fields of a poi that flattens: its address parts are
      the ones `parse_address` of src/places.py extracts. */
  function Columns(poi: Place): (fields: seq<string>)
    requires GetFields(poi).Success?
    ensures |fields| == 8 && Join(fields, ",") == GetFields(poi).value
  {
    AgreesWithParseAddress(poi);
    Record(poi, Places.ParseAddress(poi.vicinity).value, poi.position[0], poi.position[1])
  }

  /** `get_fields`: title, category title, street, city, state, zip code,
      latitude and longitude joined by commas. The second "<br/>" segment is
      indexed unconditionally, so a vicinity without a line break raises. */
  function GetFields(poi: Place): (r: Result<string>)
    ensures !Contains(poi.vicinity, Br) ==> r == Failure(SegmentMissing(1))
  {
    var address := Split(poi.vicinity, Br);
    if |address| < 2 then Failure(SegmentMissing(1))
    else
      var street := address[0];
      var cityStateZip :- Unpack2(Split(address[1], ","));
      var stateZip :- Unpack2(Fields(cityStateZip.1));
      var position :- Unpack2(poi.position);
      Success(Join(Record(poi, Address(street, cityStateZip.0, stateZip.0, stateZip.1), position.0, position.1), ","))
  }

  /** With a line break, here.py extracts the same street, city, state and
      zip code as `parse_address` of src/places.py, fails exactly when that
      version does (or the position does not unpack), and lays the fields out
      in its own order. */
  lemma AgreesWithParseAddress(poi: Place)
    requires Contains(poi.vicinity, Br)
    ensures GetFields(poi).Success? <==> Places.GetFields(poi).Success?
    ensures Places.ParseAddress(poi.vicinity).Failure? ==> GetFields(poi) == Places.GetFields(poi)
    ensures GetFields(poi).Success? ==>
              var a := Places.ParseAddress(poi.vicinity).value;
              GetFields(poi).value == Join([poi.title, poi.category.title, a.street, a.city, a.state, a.zipcode, poi.position[0], poi.position[1]], ",")
  {
    Places.SplitBrIff(poi.vicinity);
  }

  /** When no field holds a comma, splitting the line on commas gives back
      exactly the eight fields, in here.py's column order. */
  lemma GetFieldsRoundTrip(poi: Place)
    requires GetFields(poi).Success?
    requires forall field | field in Columns(poi) :: ',' !in field
    ensures var a := Places.ParseAddress(poi.vicinity).value;
            Split(GetFields(poi).value, ",") == [poi.title, poi.category.title, a.street, a.city, a.state, a.zipcode, poi.position[0], poi.position[1]]
            == Columns(poi)
  {
    AgreesWithParseAddress(poi);
    var fields := Columns(poi);
    forall k | 0 <= k < |fields| ensures !Contains(fields[k], ",") {
      ContainsChar(fields[k], ',');
    }
    SingleCharUnbordered(',');
    SplitJoin(fields, ",");
  }

  /** `write_csv`: one `get_fields(poi)` line per poi, in input order, with
      no header. A poi that cannot be flattened stops the loop. */
  method WriteCsv(pois: seq<Place>) returns (text: string, failure: Option<Error>)
    ensures Csv.Written(text, failure) == Csv.Emit(pois, GetFields)
    ensures pois == [] ==> text == "" && failure == None
  {
    text, failure := Csv.WriteLines(pois, GetFields);
  }

  /** The poi flattens, and none of its eight fields holds a comma or a newline. */
  predicate PlainFields(poi: Place) {
    && GetFields(poi).Success?
    && forall field | field in Columns(poi) :: ',' !in field && '\n' !in field
  }

  /** A plain poi renders to one newline-free line that splits back into its fields. */
  lemma PlainLine(poi: Place)
    requires PlainFields(poi)
    ensures '\n' !in GetFields(poi).value
    ensures Split(GetFields(poi).value, ",") == Columns(poi)
  {
    GetFieldsRoundTrip(poi);
    Places.NoNewlineInJoin(Columns(poi));
  }

  /** Read back line by line and field by field, the CSV of pois whose fields
      hold no comma or newline gives each poi's eight fields, in input order. */
  lemma CsvReadBack(pois: seq<Place>)
    requires forall k | 0 <= k < |pois| :: PlainFields(pois[k])
    ensures Csv.Emit(pois, GetFields).failure == None
    ensures var lines := Split(Csv.Emit(pois, GetFields).text, "\n");
            |lines| == |pois| + 1 && lines[|pois|] == "" &&
            forall k | 0 <= k < |pois| ::
              GetFields(pois[k]).Success? && Split(lines[k], ",") == Columns(pois[k])
  {
    forall k | 0 <= k < |pois|
      ensures '\n' !in GetFields(pois[k]).value
      ensures Split(GetFields(pois[k]).value, ",") == Columns(pois[k])
    {
      PlainLine(pois[k]);
    }
    Csv.EmitSplitLines(pois, GetFields);
  }
}
