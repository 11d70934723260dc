/**
 * The location resolver (`fetchUserLocation` and `getCoordinates`). Every
 * HTTP exchange is an input: a response that failed (a thrown error, an
 * abort on timeout or a body that is not valid JSON), a response that is not
 * ok, or the decoded body. `GetCoordinates` and `FetchUserLocation` also
 * return the requests they made, in order, so the fallback order can be
 * stated.
 */
module LocationResolver {
  import opened Wrappers
  import opened Text

  /** A point as `parseFloat` gives it; the values themselves are opaque to the model. */
  datatype Coordinates = Coordinates(latitude: real, longitude: real)

  /**
   * `data.location` of the primary lookup. The three names use "" for any
   * falsy value (`x || ''`). `latitude` and `longitude` are `None` for a
   * falsy field and otherwise hold the value `parseFloat` gives.
   */
  datatype PrimaryLocation = PrimaryLocation(
    province: string,
    city: string,
    countryName: string,
    latitude: Option<real>,
    longitude: Option<real>)

  /** The primary (JSON) IP lookup; `location` is `None` when the body has no `location`. */
  datatype PrimaryResponse = PrimaryFailed | PrimaryNotOk | PrimaryBody(location: Option<PrimaryLocation>)

  /** The secondary, plain-text IP lookup. */
  datatype SecondaryResponse = SecondaryFailed | SecondaryNotOk | SecondaryBody(text: string)

  /** One geocoding query: the candidates in the order the service lists them. */
  datatype GeocodeResponse = GeocodeFailed | GeocodeNotOk | GeocodeBody(candidates: seq<Coordinates>)

  /** The outgoing requests of one refresh cycle. */
  datatype Request =
    | PrimaryLookup
    | SecondaryLookup
    | GeocodeLookup(query: string)
    | WeatherLookup(at: Coordinates)
    | AirQualityLookup(at: Coordinates)

  /** A result together with the requests made to obtain it. */
  datatype Traced<T> = Traced(value: T, requests: seq<Request>)

  /** `{ location, coordinates }` as `fetchUserLocation` returns it. */
  datatype ResolvedLocation = ResolvedLocation(name: string, coordinates: Option<Coordinates>)

  /** The marker after which the secondary lookup's sentence names the location. */
  const SecondaryMarker := "来自于："

  // ---------------------------------------------------------------- primary lookup

  /**
   * `province.replace('省', '').replace('市', '').replace('都', '')`: a
   * province without the particles is unchanged, and at most three
   * characters, all from the province, are removed. The next two lemmas say
   * which characters go and that the rest keep their order.
   */
  function StripProvinceSuffixes(province: string): (r: string)
    ensures '省' !in province && '市' !in province && '都' !in province ==> r == province
    ensures |province| - 3 <= |r| <= |province|
    ensures multiset(r) <= multiset(province)
  {
    var a := RemoveFirst(province, '省');
    var b := RemoveFirst(a, '市');
    var c := RemoveFirst(b, '都');
    RemoveFirstShrinks(province, '省');
    RemoveFirstShrinks(a, '市');
    RemoveFirstShrinks(b, '都');
    c
  }

  /** Exactly one copy of each of 省, 市 and 都 is removed when the province has one, and nothing else. */
  lemma StripProvinceSuffixesRemoves(province: string)
    ensures multiset(StripProvinceSuffixes(province)) == multiset(province) - multiset{'省', '市', '都'}
  {
    forall x
      ensures multiset(StripProvinceSuffixes(province))[x] == (multiset(province) - multiset{'省', '市', '都'})[x]
    {
      StripProvinceCount(province, x);
      ParticleDifferenceCount(province, x);
    }
  }

  /** Taking one copy of each particle away, counted for one character. */
  lemma ParticleDifferenceCount(province: string, x: char)
    ensures (multiset(province) - multiset{'省', '市', '都'})[x] ==
      if x in {'省', '市', '都'} && x in province then multiset(province)[x] - 1 else multiset(province)[x]
  {
  }

  /** The count of one character after the stripping: one less for a particle that occurs, else unchanged. */
  lemma StripProvinceCount(province: string, x: char)
    ensures multiset(StripProvinceSuffixes(province))[x] ==
      if x in {'省', '市', '都'} && x in province then multiset(province)[x] - 1 else multiset(province)[x]
  {
    var a := RemoveFirst(province, '省');
    var b := RemoveFirst(a, '市');
    RemoveFirstCount(province, '省', x);
    RemoveFirstCount(a, '市', x);
    RemoveFirstCount(b, '都', x);
    if x == '市' {
      RemoveFirstCount(province, '省', '市');
    } else if x == '都' {
      RemoveFirstCount(province, '省', '都');
      RemoveFirstCount(a, '市', '都');
    }
  }

  /** The characters the stripping keeps appear in the province in the same order. */
  lemma StripProvinceSuffixesKeepsOrder(province: string)
    ensures Subsequence(StripProvinceSuffixes(province), province)
  {
    var a := RemoveFirst(province, '省');
    var b := RemoveFirst(a, '市');
    var c := RemoveFirst(b, '都');
    RemoveFirstSubsequence(province, '省');
    RemoveFirstSubsequence(a, '市');
    RemoveFirstSubsequence(b, '都');
    SubsequenceTransitive(b, a, province);
    SubsequenceTransitive(c, b, province);
  }

  /**
   * The display name from the primary lookup. With both province and city:
   * the city alone when it contains the stripped province, else province
   * followed by city. Otherwise the first non-empty of province, city and
   * country name, or "". The name is empty only when all three are.
   */
  function LocationName(province: string, city: string, countryName: string): (name: string)
    ensures province != "" && city != "" ==>
      (name == city <==> Includes(city, StripProvinceSuffixes(province)))
    ensures province != "" && city != "" && name != city ==> name == province + city
    ensures province == "" || city == "" ==>
      name == if province != "" then province else if city != "" then city else countryName
    ensures name == "" <==> province == "" && city == "" && countryName == ""
  {
    if province != "" && city != "" then
      if Includes(city, StripProvinceSuffixes(province)) then city
      else
        assert |province + city| > |city|;
        province + city
    else if province != "" then province
    else if city != "" then city
    else countryName
  }

  /**
   * What the primary step leaves in `location` and `coordinates`. Coordinates
   * are set only when both latitude and longitude are truthy; the name is the
   * derived one, or "" when the lookup failed, was not ok or had no location.
   */
  function PrimaryResult(primary: PrimaryResponse): (r: ResolvedLocation)
    ensures r.coordinates.Some? <==>
      primary.PrimaryBody? && primary.location.Some?
      && primary.location.value.latitude.Some? && primary.location.value.longitude.Some?
    ensures r.coordinates.Some? ==>
      r.coordinates.value == Coordinates(primary.location.value.latitude.value, primary.location.value.longitude.value)
    ensures !(primary.PrimaryBody? && primary.location.Some?) ==> r.name == ""
    ensures primary.PrimaryBody? && primary.location.Some? ==>
      var loc := primary.location.value;
      r.name == LocationName(loc.province, loc.city, loc.countryName)
  {
    match primary
    case PrimaryBody(Some(loc)) =>
      var coordinates :=
        if loc.latitude.Some? && loc.longitude.Some? then Some(Coordinates(loc.latitude.value, loc.longitude.value))
        else None;
      ResolvedLocation(LocationName(loc.province, loc.city, loc.countryName), coordinates)
    case _ =>
      ResolvedLocation("", None)
  }

  /** "广东省" loses its "省" and nothing else. */
  lemma StripProvinceExample()
    ensures StripProvinceSuffixes("广东省") == "广东"
  {
    var p := "广东省";
    assert p[2] == '省' && '省' !in p[..2];
    RemoveFirstCutsFirst(p, '省', 2);
    var a := RemoveFirst(p, '省');
    assert a == "广东" by {
      assert p[..2] == "广东" && p[3..] == [];
    }
    assert '市' !in a && '都' !in a;
  }

  /** The example of the de-duplication rule: "广东省" with "广东广州市" gives the city alone. */
  lemma ProvinceInCityExample()
    ensures LocationName("广东省", "广东广州市", "") == "广东广州市"
  {
    StripProvinceExample();
    assert OccursAt("广东广州市", "广东", 0);
    IncludesIffOccurs("广东广州市", "广东");
  }

  // ---------------------------------------------------------------- secondary lookup

  /** A first occurrence found by its first character: nothing before `i` starts like `sep`. */
  lemma IndexOfByFirstChar(s: string, sep: string, i: nat)
    requires |sep| > 0 && OccursAt(s, sep, i) && sep[0] !in s[..i]
    ensures IndexOf(s, sep) == Some(i)
  {
  }

  /** A string whose characters exclude the separator's first one does not include it. */
  lemma ExcludesByFirstChar(s: string, sep: string)
    requires |sep| > 0 && sep[0] !in s
    ensures !Includes(s, sep)
  {
  }

  /**
   * The token the secondary sentence yields: the segment of `text` after the
   * first marker (up to a second marker, as `split` cuts it), then the part
   * of that segment before its first space.
   */
  function MarkedToken(text: string): (token: string)
    requires Includes(text, SecondaryMarker)
    ensures ' ' !in token
  {
    var token := Split(Split(text, SecondaryMarker)[1], " ")[0];
    IncludesChar(token, ' ');
    token
  }

  /**
   * Lines 250-262 as written: the segment after the marker, its first
   * space-separated token, then that token trimmed and split on spaces again,
   * with a branch for three or more parts, one for two and one for one.
   */
  function ParseSecondaryText(text: string): (r: Option<string>)
    ensures r.Some? ==> Includes(text, SecondaryMarker) && MarkedToken(text) != ""
  {
    if !Includes(text, SecondaryMarker) then None
    else
      var locationPart := Split(text, SecondaryMarker)[1];
      if locationPart == "" then None
      else
        var locationInfo := Split(locationPart, " ")[0];
        if locationInfo == "" then None
        else
          var parts := Split(Trim(locationInfo), " ");
          Some(if |parts| >= 3 then parts[1] + parts[2] else if |parts| == 2 then parts[1] else parts[0])
  }

  /**
   * The location is set only when the text contains the marker and the
   * marked token is non-empty, and it is then that token trimmed: never a
   * concatenation of parts, and never holding a space.
   */
  lemma ParseSecondaryTextIsTrimmedToken(text: string)
    ensures ParseSecondaryText(text).Some? <==> Includes(text, SecondaryMarker) && MarkedToken(text) != ""
    ensures ParseSecondaryText(text).Some? ==>
      ParseSecondaryText(text).value == Trim(MarkedToken(text)) && ' ' !in ParseSecondaryText(text).value
  {
    if Includes(text, SecondaryMarker) {
      var locationPart := Split(text, SecondaryMarker)[1];
      if locationPart == "" {
        assert Split(locationPart, " ") == [""];
      } else {
        var locationInfo := Split(locationPart, " ")[0];
        if locationInfo != "" {
          SecondaryPartsSingle(locationInfo);
        }
      }
    }
  }

  /**
   * After `split(' ')[0]` there is no space left, so the second split always
   * yields one part: the branches for two and three parts never run.
   */
  lemma SecondaryPartsSingle(locationInfo: string)
    requires !Includes(locationInfo, " ")
    ensures Split(Trim(locationInfo), " ") == [Trim(locationInfo)]
    ensures ' ' !in Trim(locationInfo)
  {
    IncludesChar(locationInfo, ' ');
    var t := Trim(locationInfo);
    IncludesChar(t, ' ');
    SplitWithoutSeparator(t, " ");
  }

  /** The segment after the marker in the three-name sentence. */
  lemma SecondarySegmentExample()
    ensures Includes("来自于：广东 广州 天河区", SecondaryMarker)
    ensures Split("来自于：广东 广州 天河区", SecondaryMarker)[1] == "广东 广州 天河区"
  {
    var text := "来自于：广东 广州 天河区";
    var rest := "广东 广州 天河区";
    assert text[..4] == SecondaryMarker && text[4..] == rest;
    assert OccursAt(text, SecondaryMarker, 0);
    IndexOfByFirstChar(text, SecondaryMarker, 0);
    ExcludesByFirstChar(rest, SecondaryMarker);
  }

  /** The first space-separated token of the three names. */
  lemma FirstTokenExample()
    ensures Split("广东 广州 天河区", " ")[0] == "广东"
  {
    var rest := "广东 广州 天河区";
    assert OccursAt(rest, " ", 2);
    IndexOfByFirstChar(rest, " ", 2);
    assert rest[..2] == [rest[0], rest[1]];
  }

  /** The sentence with a marker and three place names yields only the first: "广东". */
  lemma SecondaryTextExample()
    ensures ParseSecondaryText("来自于：广东 广州 天河区") == Some("广东")
  {
    var text := "来自于：广东 广州 天河区";
    SecondarySegmentExample();
    FirstTokenExample();
    assert MarkedToken(text) == "广东";
    TrimUnpadded("广东");
    ParseSecondaryTextIsTrimmedToken(text);
  }

  /** A marker followed by a space yields no location at all. */
  lemma SecondaryLeadingSpaceExample()
    ensures ParseSecondaryText("来自于： 广东") == None
  {
    var text := "来自于： 广东";
    var rest := " 广东";
    assert text[..4] == SecondaryMarker && text[4..] == rest;
    assert OccursAt(text, SecondaryMarker, 0);
    IndexOfByFirstChar(text, SecondaryMarker, 0);
    ExcludesByFirstChar(rest, SecondaryMarker);
    assert Split(text, SecondaryMarker)[1] == rest;
    assert OccursAt(rest, " ", 0);
    IndexOfByFirstChar(rest, " ", 0);
    assert MarkedToken(text) == "";
    ParseSecondaryTextIsTrimmedToken(text);
  }

  /** The location the secondary step parses, when its response is an ok text body. */
  function SecondaryName(secondary: SecondaryResponse): (r: Option<string>)
    ensures !secondary.SecondaryBody? ==> r.None?
    ensures secondary.SecondaryBody? ==> r == ParseSecondaryText(secondary.text)
  {
    if secondary.SecondaryBody? then ParseSecondaryText(secondary.text) else None
  }

  // ---------------------------------------------------------------- geocoding

  /** `data && data.length > 0 ? data[0] : (none)` for one geocoding response. */
  function FirstCandidate(response: GeocodeResponse): (r: Option<Coordinates>)
    ensures r.Some? <==> response.GeocodeBody? && |response.candidates| > 0
    ensures r.Some? ==> r.value == response.candidates[0]
  {
    if response.GeocodeBody? && |response.candidates| > 0 then Some(response.candidates[0]) else None
  }

  /** The first query came back ok but empty and the name is long enough for the two-character retry. */
  predicate RetriesWithPrefix(cityName: string, geocode: string -> GeocodeResponse) {
    cityName != "" && geocode(cityName) == GeocodeBody([]) && |cityName| > 2
  }

  /**
   * `getCoordinates(cityName)`. No query for an empty name. Otherwise the
   * first candidate of the query for the whole name is returned when there is
   * one; a failed or not-ok answer gives none with no retry; an ok, empty
   * answer is retried with the first two characters only when the name is
   * longer than two, and that retry's first candidate is the result.
   */
  function GetCoordinates(cityName: string, geocode: string -> GeocodeResponse): (r: Traced<Option<Coordinates>>)
    ensures cityName == "" ==> r == Traced(None, [])
    ensures forall req :: req in r.requests ==>
      req == GeocodeLookup(cityName) || (|cityName| > 2 && req == GeocodeLookup(cityName[..2]))
    ensures cityName != "" && FirstCandidate(geocode(cityName)).Some? ==>
      r == Traced(FirstCandidate(geocode(cityName)), [GeocodeLookup(cityName)])
    ensures RetriesWithPrefix(cityName, geocode) ==>
      r == Traced(FirstCandidate(geocode(cityName[..2])), [GeocodeLookup(cityName), GeocodeLookup(cityName[..2])])
    ensures cityName != "" && FirstCandidate(geocode(cityName)).None? && !RetriesWithPrefix(cityName, geocode) ==>
      r == Traced(None, [GeocodeLookup(cityName)])
  {
    if cityName == "" then Traced(None, [])
    else
      match geocode(cityName)
      case GeocodeFailed => Traced(None, [GeocodeLookup(cityName)])
      case GeocodeNotOk => Traced(None, [GeocodeLookup(cityName)])
      case GeocodeBody(candidates) =>
        if |candidates| > 0 then Traced(Some(candidates[0]), [GeocodeLookup(cityName)])
        else if |cityName| > 2 then
          var province := cityName[..2];
          var retry := match geocode(province)
            case GeocodeBody(more) => if |more| > 0 then Some(more[0]) else None
            case _ => None;
          Traced(retry, [GeocodeLookup(cityName), GeocodeLookup(province)])
        else Traced(None, [GeocodeLookup(cityName)])
  }

  // ---------------------------------------------------------------- the whole chain

  /**
   * `fetchUserLocation()`: the primary lookup always runs; the secondary one
   * only when the primary produced no name, and geocoding only on that path,
   * for the parsed name. An empty name always comes with no coordinates.
   */
  function FetchUserLocation(primary: PrimaryResponse, secondary: SecondaryResponse, geocode: string -> GeocodeResponse)
    : (r: Traced<ResolvedLocation>)
    ensures |r.requests| >= 1 && r.requests[0] == PrimaryLookup
    ensures r.value.name == "" ==> r.value.coordinates.None?
    ensures PrimaryResult(primary).name != "" ==> r == Traced(PrimaryResult(primary), [PrimaryLookup])
  {
    var first := PrimaryResult(primary);
    if first.name != "" then Traced(first, [PrimaryLookup])
    else
      var requests := [PrimaryLookup, SecondaryLookup];
      match SecondaryName(secondary)
      case None => Traced(ResolvedLocation("", None), requests)
      case Some(name) =>
        var coordinates := GetCoordinates(name, geocode);
        var location := if name == "" then ResolvedLocation("", None) else ResolvedLocation(name, coordinates.value);
        Traced(location, requests + coordinates.requests)
  }

  /**
   * The requests of the chain: the primary lookup alone after a primary
   * name; otherwise both lookups, then the geocoding queries for the parsed
   * name when there is one.
   */
  lemma FetchUserLocationRequests(primary: PrimaryResponse, secondary: SecondaryResponse, geocode: string -> GeocodeResponse)
    ensures var r := FetchUserLocation(primary, secondary, geocode);
      r.requests ==
        if PrimaryResult(primary).name != "" then [PrimaryLookup]
        else if SecondaryName(secondary).None? then [PrimaryLookup, SecondaryLookup]
        else [PrimaryLookup, SecondaryLookup] + GetCoordinates(SecondaryName(secondary).value, geocode).requests
  {
  }

  /** The secondary lookup is made exactly when the primary produced no name. */
  lemma SecondaryOnlyAfterEmptyPrimary(primary: PrimaryResponse, secondary: SecondaryResponse, geocode: string -> GeocodeResponse)
    ensures SecondaryLookup in FetchUserLocation(primary, secondary, geocode).requests <==> PrimaryResult(primary).name == ""
  {
    var r := FetchUserLocation(primary, secondary, geocode);
    if PrimaryResult(primary).name == "" {
      assert r.requests[1] == SecondaryLookup;
    } else {
      assert r.requests == [PrimaryLookup];
    }
  }

  /**
   * Every geocoding query is made on the secondary path, for the name the
   * secondary sentence gave or its first two characters.
   */
  lemma GeocodeOnlyForParsedName(primary: PrimaryResponse, secondary: SecondaryResponse, geocode: string -> GeocodeResponse)
    ensures forall q :: GeocodeLookup(q) in FetchUserLocation(primary, secondary, geocode).requests ==>
      && PrimaryResult(primary).name == ""
      && SecondaryName(secondary).Some?
      && (q == SecondaryName(secondary).value
          || (|SecondaryName(secondary).value| > 2 && q == SecondaryName(secondary).value[..2]))
  {
    FetchUserLocationRequests(primary, secondary, geocode);
    var requests := FetchUserLocation(primary, secondary, geocode).requests;
    var parsed := SecondaryName(secondary);
    if PrimaryResult(primary).name != "" {
      assert requests == [PrimaryLookup];
    } else if parsed.None? {
      assert requests == [PrimaryLookup, SecondaryLookup];
    } else {
      var g := GetCoordinates(parsed.value, geocode);
      assert requests == [PrimaryLookup, SecondaryLookup] + g.requests;
      forall q | GeocodeLookup(q) in requests
        ensures q == parsed.value || (|parsed.value| > 2 && q == parsed.value[..2])
      {
        assert GeocodeLookup(q) in g.requests;
      }
    }
  }

  /**
   * On the secondary path the coordinates are exactly what geocoding the
   * parsed name gives, whatever the primary lookup had found; with no parsed
   * name, or an empty one, the result is empty.
   */
  lemma SecondaryPathResult(primary: PrimaryResponse, secondary: SecondaryResponse, geocode: string -> GeocodeResponse)
    requires PrimaryResult(primary).name == ""
    ensures var r := FetchUserLocation(primary, secondary, geocode);
      if SecondaryName(secondary).Some? && SecondaryName(secondary).value != "" then
        var name := SecondaryName(secondary).value;
        r == Traced(ResolvedLocation(name, GetCoordinates(name, geocode).value),
                    [PrimaryLookup, SecondaryLookup] + GetCoordinates(name, geocode).requests)
      else r.value == ResolvedLocation("", None)
  {
  }

  /**
   * End to end: the primary lookup fails, the secondary sentence names
   * "广东 广州 天河区", and geocoding "广东" succeeds; the resolved name is
   * "广东" with the geocoded point.
   */
  lemma SecondaryPathExample(secondary: SecondaryResponse, geocode: string -> GeocodeResponse, at: Coordinates)
    requires secondary == SecondaryBody("来自于：广东 广州 天河区")
    requires geocode("广东") == GeocodeBody([at])
    ensures FetchUserLocation(PrimaryFailed, secondary, geocode).value == ResolvedLocation("广东", Some(at))
  {
    SecondaryTextExample();
  }
}
