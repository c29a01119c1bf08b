/**
 * The `/api/weather` route: current San Francisco weather from Open-Meteo,
 * kept in a module-level cache for fifteen minutes and served stale when the
 * upstream call fails.
 *
 * The request itself is not modelled: what the network gives back (an
 * exception, a response that is not ok, or the decoded `current` block) is
 * the parameter `fetch`, consulted only when the cache cannot answer.
 * `Date.now()` is the parameter `now`; JSON encoding of the bodies is left
 * to the datatype `Body`.
 */
module WeatherApi {
  import opened Wrappers
  import opened JsNumber
  import WeatherIcon

  const CACHE_TTL: int := 900000

  /** WMO weather interpretation codes, as `WEATHER_CODES` describes them. */
  const WEATHER_CODES: map<int, string> := map[
    0 := "Clear sky", 1 := "Mainly clear", 2 := "Partly cloudy", 3 := "Overcast",
    45 := "Fog", 48 := "Depositing rime fog",
    51 := "Light drizzle", 53 := "Moderate drizzle", 55 := "Dense drizzle",
    61 := "Slight rain", 63 := "Moderate rain", 65 := "Heavy rain",
    71 := "Slight snow", 73 := "Moderate snow", 75 := "Heavy snow",
    80 := "Slight rain showers", 81 := "Moderate rain showers", 82 := "Violent rain showers",
    95 := "Thunderstorm"]

  datatype WeatherResponse = WeatherResponse(temperature: int, weatherCode: int, isDay: bool, description: string)
  datatype WeatherCache = WeatherCache(data: WeatherResponse, timestamp: int)

  /** The `current` block of an Open-Meteo forecast. */
  datatype Current = Current(temperature2m: real, weatherCode: int, isDayFlag: real)

  /** What `fetch` and `response.json()` come back with. */
  datatype FetchOutcome = Threw | NotOk(status: int) | Fetched(current: Current)

  datatype Body = Weather(data: WeatherResponse) | Failure(error: string)
  datatype Response = Response(status: int, body: Body, cacheControl: Option<string>)

  /** The answer to one request, the cache left for the next, and whether the upstream API was asked. */
  datatype Outcome = Outcome(response: Response, cache: Option<WeatherCache>, fetched: bool)

  /** `WEATHER_CODES[code] || 'Unknown'` (every listed description is non-empty). */
  function Describe(code: int): (d: string)
    ensures code in WEATHER_CODES ==> d == WEATHER_CODES[code]
    ensures code !in WEATHER_CODES ==> d == "Unknown"
  {
    if code in WEATHER_CODES && WEATHER_CODES[code] != "" then WEATHER_CODES[code] else "Unknown"
  }

  /** The `weatherResponse` built from a successful fetch. */
  function ToWeatherResponse(current: Current): (w: WeatherResponse)
    ensures w.isDay <==> current.isDayFlag == 1.0
    ensures w.weatherCode == current.weatherCode
    ensures current.temperature2m - 1.0 / 2.0 < w.temperature as real <= current.temperature2m + 1.0 / 2.0
    ensures w.description == if current.weatherCode in WEATHER_CODES then WEATHER_CODES[current.weatherCode] else "Unknown"
  {
    WeatherResponse(Round(current.temperature2m), current.weatherCode, current.isDayFlag == 1.0,
                    Describe(current.weatherCode))
  }

  predicate Fresh(cache: Option<WeatherCache>, now: int)
  {
    cache.Some? && now - cache.value.timestamp < CACHE_TTL
  }

  /** `GET`: one request against the cache `cache` at time `now`. */
  function Get(cache: Option<WeatherCache>, now: int, fetch: FetchOutcome): (o: Outcome)
  {
    if Fresh(cache, now) then
      Outcome(Response(200, Weather(cache.value.data), Some("public, max-age=900")), cache, false)
    else
      match fetch
      case Fetched(current) =>
        var data := ToWeatherResponse(current);
        Outcome(Response(200, Weather(data), Some("public, max-age=900")), Some(WeatherCache(data, now)), true)
      case _ =>
        // A response that is not ok is thrown as an error and lands in the same handler.
        if cache.Some? then
          Outcome(Response(200, Weather(cache.value.data), Some("public, max-age=60")), cache, true)
        else
          Outcome(Response(500, Failure("Failed to fetch weather"), None), cache, true)
  }

  /** A cache younger than the TTL answers by itself: no fetch, the same data, the long max-age, cache untouched. */
  lemma FreshCacheServed(cache: Option<WeatherCache>, now: int, fetch: FetchOutcome)
    requires cache.Some? && now - cache.value.timestamp < CACHE_TTL
    ensures Get(cache, now, fetch) == Outcome(Response(200, Weather(cache.value.data), Some("public, max-age=900")), cache, false)
  {
  }

  /** The upstream API is asked exactly when there is no cache or it has reached the TTL. */
  lemma FetchesIffStale(cache: Option<WeatherCache>, now: int, fetch: FetchOutcome)
    ensures Get(cache, now, fetch).fetched <==> !Fresh(cache, now)
    ensures Fresh(cache, now) ==> forall other :: Get(cache, now, other) == Get(cache, now, fetch)
  {
  }

  /** A response that is not ok is handled exactly like a thrown error. */
  lemma NotOkLikeThrown(cache: Option<WeatherCache>, now: int, status: int)
    ensures Get(cache, now, NotOk(status)) == Get(cache, now, Threw)
  {
  }

  /** A successful fetch replaces the cache with its own data stamped `now`, and returns that data. */
  lemma SuccessReplacesCache(cache: Option<WeatherCache>, now: int, current: Current)
    requires !Fresh(cache, now)
    ensures var o := Get(cache, now, Fetched(current));
      o.cache == Some(WeatherCache(ToWeatherResponse(current), now)) &&
      o.response == Response(200, Weather(ToWeatherResponse(current)), Some("public, max-age=900"))
  {
  }

  /** On a failure any cache, however old, is served with a one-minute max-age; without one the answer is a 500. */
  lemma FailureFallsBack(cache: Option<WeatherCache>, now: int, fetch: FetchOutcome)
    requires !Fresh(cache, now) && !fetch.Fetched?
    ensures var o := Get(cache, now, fetch);
      o.cache == cache &&
      (cache.Some? ==> o.response == Response(200, Weather(cache.value.data), Some("public, max-age=60"))) &&
      (cache.None? ==> o.response == Response(500, Failure("Failed to fetch weather"), None))
  {
  }

  /** Whatever happens, a request that finds a cache leaves one, and a 500 is only ever sent without one. */
  lemma CacheNeverLost(cache: Option<WeatherCache>, now: int, fetch: FetchOutcome)
    ensures cache.Some? ==> Get(cache, now, fetch).cache.Some?
    ensures Get(cache, now, fetch).response.status == 500 ==> cache.None? && Get(cache, now, fetch).cache.None?
    ensures Get(cache, now, fetch).response.status in {200, 500}
  {
  }

  /** Once a fetch succeeds at `t`, every request before `t + CACHE_TTL` is answered from that cache. */
  lemma CacheLastsTtl(cache: Option<WeatherCache>, t: int, current: Current, later: int, fetch: FetchOutcome)
    requires !Fresh(cache, t) && t <= later < t + CACHE_TTL
    ensures var c := Get(cache, t, Fetched(current)).cache;
      Get(c, later, fetch) == Outcome(Response(200, Weather(ToWeatherResponse(current)), Some("public, max-age=900")), c, false)
  {
  }

  /** The status widget has an icon for every code the route can describe, and only for those. */
  lemma TablesAgree()
    ensures WEATHER_CODES.Keys == WeatherIcon.WEATHER_ICONS.Keys
  {
  }

  /**
   * The route's module-level `cache` variable, which outlives each request,
   * and the `GET` handler that reads and reassigns it.
   */
  class WeatherRoute {
    var cache: Option<WeatherCache>

    constructor ()
      ensures cache.None?
    {
      cache := None;
    }

    method HandleGet(now: int, fetch: FetchOutcome) returns (response: Response, fetched: bool)
      modifies this
      ensures var o := Get(old(cache), now, fetch);
        response == o.response && cache == o.cache && fetched == o.fetched
    {
      if cache.Some? && now - cache.value.timestamp < CACHE_TTL {
        return Response(200, Weather(cache.value.data), Some("public, max-age=900")), false;
      }
      fetched := true;
      if fetch.Fetched? {
        var data := ToWeatherResponse(fetch.current);
        cache := Some(WeatherCache(data, now));
        return Response(200, Weather(data), Some("public, max-age=900")), fetched;
      }
      if cache.Some? {
        return Response(200, Weather(cache.value.data), Some("public, max-age=60")), fetched;
      }
      response := Response(500, Failure("Failed to fetch weather"), None);
    }
  }
}
