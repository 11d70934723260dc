/**
 * The widget object: its refresh interval, the expand/collapse flag, and the
 * single cache slot it reads and overwrites (`loadWeatherData`,
 * `toggleDetails`). The browser store is modelled as the field `cache`;
 * clock readings and every network answer are parameters.
 */
module WeatherWidget {
  import opened Wrappers
  import opened Text
  import opened WeatherNormalizer
  import opened LocationResolver

  /** `{ data, lastUpdated }` as stored under the one cache key. */
  datatype CacheEntry = CacheEntry(data: DisplayRecord, lastUpdated: int)

  /** The forecast request: thrown (also a body that is not JSON), not ok with its status, or the body. */
  datatype WeatherResponse =
    | WeatherFailed(message: string)
    | WeatherNotOk(status: int, statusText: string)
    | WeatherBody(body: Payload)

  /**
   * The air-quality request. An ok body carries `current?.european_aqi`:
   * `None` when `current` is absent, else that field.
   */
  datatype AirQualityResponse =
    | AirQualityFailed
    | AirQualityNotOk
    | AirQualityBody(current: Option<Field<int>>)

  /** Every answer the outside world gives during one cycle. */
  datatype Network = Network(
    primary: PrimaryResponse,
    secondary: SecondaryResponse,
    geocode: string -> GeocodeResponse,
    weather: WeatherResponse,
    airQuality: AirQualityResponse)

  const DefaultRefreshInterval := 3600000
  const LocationFailureReason := "无法获取位置信息"
  const WeatherFailurePrefix := "获取天气信息失败: "

  /** An entry is fresh while less than `interval` has passed since it was written. */
  predicate IsFresh(entry: CacheEntry, now: int, interval: int) {
    now - entry.lastUpdated < interval
  }

  /** The cached record is served one millisecond before the interval ends and not at its end. */
  lemma FreshnessBoundary(entry: CacheEntry, interval: int)
    ensures IsFresh(entry, entry.lastUpdated + interval - 1, interval)
    ensures !IsFresh(entry, entry.lastUpdated + interval, interval)
  {
  }

  /** The error marker `{ error: true, reason }` the cycle hands to the normaliser. */
  function ErrorMarker(reason: string): Payload {
    Payload(true, reason, None, None)
  }

  /**
   * `error.message` of the exception a failed forecast request raises: the
   * transport's own message, or for a response that is not ok a non-empty
   * message that starts with the fixed prefix, whose first word after it
   * reads back as the status, and which ends with a space and the status
   * text.
   */
  function WeatherFailureReason(weather: WeatherResponse): (reason: string)
    requires !weather.WeatherBody?
    ensures weather.WeatherFailed? ==> reason == weather.message
    ensures weather.WeatherNotOk? ==>
      && |reason| > |WeatherFailurePrefix|
      && reason[..|WeatherFailurePrefix|] == WeatherFailurePrefix
      && ParseInt(Split(reason[|WeatherFailurePrefix|..], " ")[0]) == Some(weather.status)
    ensures weather.WeatherNotOk? ==>
      var afterStatus := |WeatherFailurePrefix| + |IntToString(weather.status)|;
      && |reason| == afterStatus + 1 + |weather.statusText|
      && reason[afterStatus] == ' '
      && reason[afterStatus + 1..] == weather.statusText
  {
    match weather
    case WeatherFailed(message) => message
    case WeatherNotOk(status, statusText) =>
      var code := IntToString(status);
      var reason := WeatherFailurePrefix + code + " " + statusText;
      assert reason == WeatherFailurePrefix + (code + " " + statusText);
      assert reason[|WeatherFailurePrefix|..] == code + " " + statusText;
      SplitAtFirstSpace(code, statusText);
      IntToStringRoundTrip(status);
      reason
  }

  /** `airQualityData.current?.european_aqi`, where a failed or not-ok request leaves `null`. */
  function CombinedAqi(air: AirQualityResponse): (aqi: Field<int>)
    ensures !air.AirQualityBody? ==> aqi == Null
    ensures air.AirQualityBody? && air.current.None? ==> aqi == Undefined
    ensures air.AirQualityBody? && air.current.Some? ==> aqi == air.current.value
  {
    match air
    case AirQualityBody(current) => if current.Some? then current.value else Undefined
    case _ => Null
  }

  /**
   * `{ ...weatherData, current: { ...weatherData.current, european_aqi } }`:
   * `current` is always present afterwards, holds the air-quality index, and
   * otherwise keeps the forecast's fields (all undefined when the forecast
   * had none); everything else of the forecast is unchanged.
   */
  function Combine(body: Payload, air: AirQualityResponse): (p: Payload)
    ensures p.error == body.error && p.reason == body.reason && p.daily == body.daily
    ensures p.current.Some? && p.current.value.europeanAqi == CombinedAqi(air)
    ensures var before := body.current.GetOr(EmptyCurrent);
      && p.current.value.temperature2m == before.temperature2m
      && p.current.value.weatherCode == before.weatherCode
      && p.current.value.relativeHumidity2m == before.relativeHumidity2m
      && p.current.value.windSpeed10m == before.windSpeed10m
  {
    body.(current := Some(body.current.GetOr(EmptyCurrent).(europeanAqi := CombinedAqi(air))))
  }

  /** The record, the requests, and whether the slot is overwritten, of a cycle that misses the cache. */
  datatype Cycle = Cycle(data: DisplayRecord, requests: seq<Request>, stores: bool)

  /** Location resolution produced both a name and coordinates. */
  predicate Located(r: ResolvedLocation) {
    r.name != "" && r.coordinates.Some?
  }

  /**
   * One fetch cycle after a cache miss (lines 114-185), as a value: the
   * location step, then the forecast and air-quality requests, then the
   * normaliser. Only the path on which the forecast arrives stores.
   */
  function FetchCycle(now: int, catchNow: int, net: Network): (c: Cycle)
    ensures c.stores <==> Located(FetchUserLocation(net.primary, net.secondary, net.geocode).value) && net.weather.WeatherBody?
    ensures IsComplete(c.data)
  {
    var located := FetchUserLocation(net.primary, net.secondary, net.geocode);
    var loc := located.value;
    if !Located(loc) then
      Cycle(ProcessWeatherData(Some(ErrorMarker(LocationFailureReason)), now, UnknownLocation), located.requests, false)
    else
      var at := loc.coordinates.value;
      match net.weather
      case WeatherBody(body) =>
        var data := ProcessWeatherData(Some(Combine(body, net.airQuality)), now, loc.name);
        Cycle(data, located.requests + [WeatherLookup(at), AirQualityLookup(at)], true)
      case _ =>
        var data := ProcessWeatherData(Some(ErrorMarker(WeatherFailureReason(net.weather))), catchNow, UnknownLocation);
        Cycle(data, located.requests + [WeatherLookup(at)], false)
  }

  /**
   * No name or no coordinates: the placeholder record with reason
   * "无法获取位置信息" at "未知位置", stamped `now`, nothing stored, and no
   * forecast or air-quality request.
   */
  lemma LocationFailureCycle(now: int, catchNow: int, net: Network)
    requires !Located(FetchUserLocation(net.primary, net.secondary, net.geocode).value)
    ensures var c := FetchCycle(now, catchNow, net);
      && c.data.condition == LocationFailureReason
      && c.data.location == UnknownLocation
      && c.data.timestamp == now
      && IsPlaceholder(c.data)
      && !c.stores
      && forall at :: WeatherLookup(at) !in c.requests && AirQualityLookup(at) !in c.requests
  {
    var c := FetchCycle(now, catchNow, net);
    assert c.requests == FetchUserLocation(net.primary, net.secondary, net.geocode).requests;
    LocationMakesNoForecastRequest(net.primary, net.secondary, net.geocode);
  }

  /** Location resolution requests neither a forecast nor air quality. */
  lemma LocationMakesNoForecastRequest(primary: PrimaryResponse, secondary: SecondaryResponse, geocode: string -> GeocodeResponse)
    ensures var requests := FetchUserLocation(primary, secondary, geocode).requests;
      forall k :: 0 <= k < |requests| ==> !requests[k].WeatherLookup? && !requests[k].AirQualityLookup?
  {
    FetchUserLocationRequests(primary, secondary, geocode);
    var parsed := SecondaryName(secondary);
    if PrimaryResult(primary).name == "" && parsed.Some? {
      LookupsOnly(GetCoordinates(parsed.value, geocode).requests);
    }
  }

  /** Both IP lookups followed by geocoding queries hold no forecast or air-quality request. */
  lemma LookupsOnly(queries: seq<Request>)
    requires forall req :: req in queries ==> req.GeocodeLookup?
    ensures var requests := [PrimaryLookup, SecondaryLookup] + queries;
      forall k :: 0 <= k < |requests| ==> !requests[k].WeatherLookup? && !requests[k].AirQualityLookup?
  {
    var requests := [PrimaryLookup, SecondaryLookup] + queries;
    forall k | 2 <= k < |requests|
      ensures requests[k].GeocodeLookup?
    {
      assert requests[k] == queries[k - 2];
    }
  }

  /**
   * A forecast request that throws or is not ok: the placeholder record with
   * the exception's message (or "该位置暂不支持" for an empty one) at
   * "未知位置", stamped with the second clock reading, and nothing stored.
   */
  lemma WeatherFailureCycle(now: int, catchNow: int, net: Network)
    requires Located(FetchUserLocation(net.primary, net.secondary, net.geocode).value)
    requires !net.weather.WeatherBody?
    ensures var c := FetchCycle(now, catchNow, net);
      var reason := WeatherFailureReason(net.weather);
      && c.data.condition == (if reason != "" then reason else UnsupportedReason)
      && c.data.location == UnknownLocation
      && c.data.timestamp == catchNow
      && IsPlaceholder(c.data)
      && !c.stores
  {
  }

  /**
   * A forecast that arrives is stored, stamped `now`, at the resolved name;
   * unless its body is itself an error marker, the condition comes from the
   * code table and a failed air-quality request shows as "优 (null)".
   */
  lemma SuccessCycle(now: int, catchNow: int, net: Network)
    requires Located(FetchUserLocation(net.primary, net.secondary, net.geocode).value)
    requires net.weather.WeatherBody?
    ensures var c := FetchCycle(now, catchNow, net);
      && c.stores
      && c.data.timestamp == now
      && c.data.location == FetchUserLocation(net.primary, net.secondary, net.geocode).value.name
    ensures var c := FetchCycle(now, catchNow, net);
      !net.weather.body.error ==>
        && c.data.condition != UnknownCondition
        && Condition(c.data.condition, c.data.icon) == TableClassify(EffectiveCode(net.weather.body.current))
    ensures var c := FetchCycle(now, catchNow, net);
      !net.weather.body.error && (net.airQuality.AirQualityFailed? || net.airQuality.AirQualityNotOk?) ==>
        c.data.airQuality == "优 (null)"
  {
  }

  /**
   * End to end: the primary lookup fails, the secondary sentence names
   * "广东 广州 天河区", geocoding "广东" succeeds and so does the forecast
   * with a temperature. The record is stored under the name "广东" and shows
   * a temperature.
   */
  lemma EndToEndExample(now: int, catchNow: int, net: Network, at: Coordinates)
    requires net.primary == PrimaryFailed
    requires net.secondary == SecondaryBody("来自于：广东 广州 天河区")
    requires net.geocode("广东") == GeocodeBody([at])
    requires net.weather.WeatherBody? && !net.weather.body.error
    requires net.weather.body.current.Some? && net.weather.body.current.value.temperature2m.Num?
    ensures var c := FetchCycle(now, catchNow, net);
      c.stores && c.data.location == "广东" && c.data.temperature != NotAvailable
  {
    SecondaryPathExample(net.secondary, net.geocode, at);
    var loc := FetchUserLocation(net.primary, net.secondary, net.geocode).value;
    assert Located(loc);
    var combined := Combine(net.weather.body, net.airQuality);
    assert combined.current.value.temperature2m.Num?;
    var c := FetchCycle(now, catchNow, net);
    assert c.data == ProcessWeatherData(Some(combined), now, "广东");
    assert c.data.temperature == TemperatureText(combined.current);
  }

  /** The widget: options, the expand flag, and the cache slot. */
  class Widget {
    var refreshInterval: int
    var isExpanded: bool
    var cache: Option<CacheEntry>

    /**
     * `new UnifiedWeatherWidget(options)` with the store's current entry. The
     * spread of `options` comes after the defaulted interval, so a given
     * interval is kept as it is, 0 included; only an absent one defaults.
     */
    constructor (refreshOption: Option<int>, stored: Option<CacheEntry>)
      ensures refreshInterval == refreshOption.GetOr(DefaultRefreshInterval)
      ensures !isExpanded && cache == stored
    {
      refreshInterval := refreshOption.GetOr(DefaultRefreshInterval);
      isExpanded := false;
      cache := stored;
    }

    /** The slot holds an entry still fresh at `now`. */
    predicate HasFreshEntry(now: int)
      reads this
    {
      cache.Some? && IsFresh(cache.value, now, refreshInterval)
    }

    /**
     * `loadWeatherData()`. A fresh entry is returned unchanged with no
     * request made. Otherwise the cycle runs; the slot is overwritten with
     * `{ data, lastUpdated: now }` on the path where the forecast arrives and
     * left as it was on both error paths.
     */
    method LoadWeatherData(now: int, catchNow: int, net: Network) returns (data: DisplayRecord, requests: seq<Request>)
      modifies this`cache
      ensures old(HasFreshEntry(now)) ==> data == old(cache).value.data && requests == [] && cache == old(cache)
      ensures !old(HasFreshEntry(now)) ==>
        var c := FetchCycle(now, catchNow, net);
        && data == c.data && requests == c.requests
        && cache == if c.stores then Some(CacheEntry(c.data, now)) else old(cache)
    {
      if cache.Some? {
        var entry := cache.value;
        if now - entry.lastUpdated < refreshInterval {
          return entry.data, [];
        }
      }
      var located := FetchUserLocation(net.primary, net.secondary, net.geocode);
      requests := located.requests;
      var location, coordinates := located.value.name, located.value.coordinates;
      if location == "" || coordinates.None? {
        data := ProcessWeatherData(Some(ErrorMarker(LocationFailureReason)), now, UnknownLocation);
        return;
      }
      requests := requests + [WeatherLookup(coordinates.value)];
      if !net.weather.WeatherBody? {
        data := ProcessWeatherData(Some(ErrorMarker(WeatherFailureReason(net.weather))), catchNow, UnknownLocation);
        return;
      }
      requests := requests + [AirQualityLookup(coordinates.value)];
      var combined := Combine(net.weather.body, net.airQuality);
      data := ProcessWeatherData(Some(combined), now, location);
      cache := Some(CacheEntry(data, now));
      assert requests == located.requests + [WeatherLookup(coordinates.value), AirQualityLookup(coordinates.value)];
    }

    /** `toggleDetails()`: the flag flips when the panel's elements are present, else nothing changes. */
    method ToggleDetails(panelPresent: bool)
      modifies this`isExpanded
      ensures isExpanded == if panelPresent then !old(isExpanded) else old(isExpanded)
    {
      if panelPresent {
        isExpanded := !isExpanded;
      }
    }
  }

  /**
   * Two loads: a first one whose forecast arrives, then a second one less
   * than an interval after it (or any time before it, the comparison being
   * on the difference alone). The second returns the first one's record and
   * makes no request.
   */
  method ReloadWithinInterval(w: Widget, now: int, catchNow: int, net: Network, later: int, laterCatch: int, laterNet: Network)
    returns (first: DisplayRecord, second: DisplayRecord, secondRequests: seq<Request>)
    requires !w.HasFreshEntry(now) && FetchCycle(now, catchNow, net).stores
    requires later < now + w.refreshInterval
    modifies w
    ensures second == first && secondRequests == []
  {
    var firstRequests;
    first, firstRequests := w.LoadWeatherData(now, catchNow, net);
    assert w.cache == Some(CacheEntry(first, now));
    assert w.HasFreshEntry(later);
    second, secondRequests := w.LoadWeatherData(later, laterCatch, laterNet);
  }

  /**
   * A load exactly an interval after the slot was written no longer serves
   * the stored record: it runs the whole cycle again, as if nothing were
   * cached. With `ReloadWithinInterval` at `later == now + w.refreshInterval - 1`
   * this places the end of freshness exactly.
   */
  method LoadAtIntervalEnd(w: Widget, stored: CacheEntry, catchNow: int, net: Network)
    returns (data: DisplayRecord, requests: seq<Request>)
    requires w.cache == Some(stored)
    modifies w
    ensures var c := FetchCycle(stored.lastUpdated + w.refreshInterval, catchNow, net);
      data == c.data && requests == c.requests
  {
    var end := stored.lastUpdated + w.refreshInterval;
    FreshnessBoundary(stored, w.refreshInterval);
    data, requests := w.LoadWeatherData(end, catchNow, net);
  }
}
