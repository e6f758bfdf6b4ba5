/** The weather view model as a state record and transitions: the guarded
    load with its single fallback fetch, and the city search. The repository
    calls arrive as their outcomes; scheduling, debouncing and cancellation
    are not modelled. */
module WeatherViewModel {
  import opened Wrappers
  import opened WeatherRepository
  import opened RadarScreen

  /** The three observable flows. */
  datatype ViewState = ViewState(weatherData: Option<WeatherData>, isRefreshing: bool,
                                 citySearchResults: seq<CitySearchResult>)

  const Initial := ViewState(None, false, [])

  /** A load that ran: the state while it is in flight, the state after it,
      and the locations fetched, in order. */
  datatype LoadRun = LoadRun(during: ViewState, after: ViewState, requests: seq<LatLon>)

  /** `loadWeather`: ignored while a load is in flight unless forced;
      otherwise the requested location is fetched (outcome `primary`), then
      on failure the fallback location once (outcome `fallback`). */
  function LoadWeather(s: ViewState, at: LatLon, forceRefresh: bool,
                       primary: Result<WeatherData>, fallback: Result<WeatherData>): (r: Option<LoadRun>)
    ensures r.None? <==> s.isRefreshing && !forceRefresh
    ensures r.Some? ==> r.value.during.isRefreshing && !r.value.after.isRefreshing
    ensures r.Some? ==> r.value.during.weatherData == s.weatherData
    ensures r.Some? ==> r.value.after.citySearchResults == s.citySearchResults
    ensures r.Some? ==> 1 <= |r.value.requests| <= 2 && r.value.requests[0] == at
    ensures r.Some? && |r.value.requests| == 2 ==> r.value.requests[1] == FallbackLocation && primary.Failure?
    ensures r.Some? && primary.Success? ==> r.value.after.weatherData == Some(primary.value)
    ensures r.Some? && primary.Failure? && fallback.Success? ==> r.value.after.weatherData == Some(fallback.value)
    ensures r.Some? && primary.Failure? && fallback.Failure? ==> r.value.after.weatherData == s.weatherData
  {
    if s.isRefreshing && !forceRefresh then None
    else
      var during := s.(isRefreshing := true);
      match primary
      case Success(data) =>
        Some(LoadRun(during, during.(weatherData := Some(data), isRefreshing := false), [at]))
      case Failure(_) =>
        var data := match fallback case Success(d) => Some(d) case Failure(_) => s.weatherData;
        Some(LoadRun(during, during.(weatherData := data, isRefreshing := false), [at, FallbackLocation]))
  }

  /** While a load is in flight, an unforced load does nothing and a forced
      one starts; loads never overlap unless a refresh forces it. */
  lemma LoadsDoNotOverlap(s: ViewState, at: LatLon, at2: LatLon, force2: bool,
                          p: Result<WeatherData>, f: Result<WeatherData>,
                          p2: Result<WeatherData>, f2: Result<WeatherData>)
    requires LoadWeather(s, at, false, p, f).Some?
    ensures var during := LoadWeather(s, at, false, p, f).value.during;
      LoadWeather(during, at2, force2, p2, f2).Some? <==> force2
  {
  }

  /** The data shown after a load is what the last request returned, when
      that succeeded; it is never lost: a failed load keeps the old data. */
  lemma LoadKeepsOrReplacesData(s: ViewState, at: LatLon, force: bool, p: Result<WeatherData>, f: Result<WeatherData>)
    requires LoadWeather(s, at, force, p, f).Some?
    ensures var run := LoadWeather(s, at, force, p, f).value;
      var last := if |run.requests| == 1 then p else f;
      && (last.Success? ==> run.after.weatherData == Some(last.value))
      && (last.Failure? ==> run.after.weatherData == s.weatherData)
      && (s.weatherData.Some? ==> run.after.weatherData.Some?)
  {
  }

  /** The start-up and refresh choices feed the load: a refresh always runs. */
  lemma RefreshAlwaysLoads(s: ViewState, prefs: Prefs, p: Result<WeatherData>, f: Result<WeatherData>)
    requires ChooseLocation(prefs, true).Load?
    ensures LoadWeather(s, ChooseLocation(prefs, true).at, ChooseLocation(prefs, true).forceRefresh, p, f).Some?
  {
  }

  /** The minimum query length that reaches the repository, exclusive. */
  const MinQueryLength := 2

  /** `searchCities` once its debounce has elapsed: short queries clear the
      results, longer ones show what `search` (the repository search, which
      already turns failures into an empty list) returns. */
  function SearchCities(s: ViewState, query: string, search: string -> seq<CitySearchResult>): (r: ViewState)
    ensures |query| <= MinQueryLength ==> r.citySearchResults == []
    ensures |query| > MinQueryLength ==> r.citySearchResults == search(query)
    ensures r.weatherData == s.weatherData && r.isRefreshing == s.isRefreshing
  {
    if |query| > MinQueryLength then s.(citySearchResults := search(query))
    else s.(citySearchResults := [])
  }

  /** `clearSearchResults`. */
  function ClearSearchResults(s: ViewState): (r: ViewState)
    ensures r.citySearchResults == []
    ensures r.weatherData == s.weatherData && r.isRefreshing == s.isRefreshing
  {
    s.(citySearchResults := [])
  }

  /** A query of at most two characters acts exactly like clearing, and
      clearing twice is clearing once. */
  lemma ShortQueryClears(s: ViewState, query: string, search: string -> seq<CitySearchResult>)
    requires |query| <= MinQueryLength
    ensures SearchCities(s, query, search) == ClearSearchResults(s)
    ensures ClearSearchResults(ClearSearchResults(s)) == ClearSearchResults(s)
  {
  }

  /** Searches do not touch the weather state, so a search between two
      states of a load leaves the load's outcome in place. */
  lemma SearchCommutesWithLoad(s: ViewState, at: LatLon, force: bool, p: Result<WeatherData>, f: Result<WeatherData>,
                               query: string, search: string -> seq<CitySearchResult>)
    requires LoadWeather(s, at, force, p, f).Some?
    ensures var after := LoadWeather(s, at, force, p, f).value.after;
      SearchCities(after, query, search).weatherData == after.weatherData
      && LoadWeather(SearchCities(s, query, search), at, force, p, f).value.after
         == SearchCities(after, query, search)
  {
  }
}
