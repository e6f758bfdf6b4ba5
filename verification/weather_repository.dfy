/** The mapping rules of the weather repository: how a parsed JSON response
    becomes the weather record and the city-search results. Both network
    calls are left out; their responses arrive as an already parsed JSON
    value, or `None` when the request or the JSON syntax failed. */
module WeatherRepository {
  import opened Wrappers
  import opened KotlinText

  /** A parsed JSON value. A number keeps the text `String.valueOf` gives it. */
  datatype Json =
    | JObject(fields: map<string, Json>)
    | JArray(items: seq<Json>)
    | JString(s: string)
    | JNumber(value: real, text: string)
    | JBool(b: bool)
    | JNull

  // ---------------------------------------------------------------------------
  // The org.json accessors used

  /** `getString`: a missing key fails; strings come back as they are,
      numbers, booleans and null as their text. A nested object or array would
      come back serialised, which is not modelled: it fails here. */
  function GetString(o: Json, key: string): (r: Result<string>)
    ensures r.Success? ==> o.JObject? && key in o.fields
    ensures o.JObject? && key in o.fields && o.fields[key].JString? ==> r == Success(o.fields[key].s)
  {
    if !o.JObject? || key !in o.fields then Failure("No value for " + key)
    else match o.fields[key]
      case JString(s) => Success(s)
      case JNumber(_, text) => Success(text)
      case JBool(b) => Success(if b then "true" else "false")
      case JNull => Success("null")
      case _ => Failure("serialised container")
  }

  /** `getJSONObject`: the value must be an object. */
  function GetObject(o: Json, key: string): (r: Result<Json>)
    ensures r.Success? <==> o.JObject? && key in o.fields && o.fields[key].JObject?
    ensures r.Success? ==> r.value == o.fields[key]
  {
    if o.JObject? && key in o.fields && o.fields[key].JObject? then Success(o.fields[key])
    else Failure("not an object: " + key)
  }

  /** `optJSONObject`: the object, or null for a missing key or another kind
      of value. */
  function OptObject(o: Json, key: string): (r: Option<Json>)
    ensures r.Some? <==> o.JObject? && key in o.fields && o.fields[key].JObject?
    ensures r.Some? ==> r.value == o.fields[key]
  {
    if o.JObject? && key in o.fields && o.fields[key].JObject? then Some(o.fields[key]) else None
  }

  /** `getJSONArray`: the value must be an array. */
  function GetArray(o: Json, key: string): (r: Result<seq<Json>>)
    ensures r.Success? <==> o.JObject? && key in o.fields && o.fields[key].JArray?
    ensures r.Success? ==> r.value == o.fields[key].items
  {
    if o.JObject? && key in o.fields && o.fields[key].JArray? then Success(o.fields[key].items)
    else Failure("not an array: " + key)
  }

  /** `getDouble`: a number, or a string `toDouble` accepts. */
  function GetDouble(o: Json, key: string, toDouble: string -> Option<real>): (r: Result<real>)
    ensures o.JObject? && key in o.fields && o.fields[key].JNumber? ==> r == Success(o.fields[key].value)
    ensures r.Success? ==> o.JObject? && key in o.fields && (o.fields[key].JNumber? || o.fields[key].JString?)
  {
    if !o.JObject? || key !in o.fields then Failure("No value for " + key)
    else match o.fields[key]
      case JNumber(v, _) => Success(v)
      case JString(s) => (match toDouble(s) case Some(v) => Success(v) case None => Failure("not a number: " + key))
      case _ => Failure("not a number: " + key)
  }

  /** `getJSONObject(key).getString("metric")`. */
  function Metric(o: Json, key: string): Result<string> {
    var inner :- GetObject(o, key);
    GetString(inner, "metric")
  }

  /** `optJSONObject(key)?.getString("metric")`: null without the object, a
      failure when the object lacks its metric. */
  function OptMetric(o: Json, key: string): (r: Result<Option<string>>)
    ensures OptObject(o, key).None? ==> r == Success(None)
    ensures OptObject(o, key).Some? ==> r.Success? == GetString(OptObject(o, key).value, "metric").Success?
    ensures OptObject(o, key).Some? && r.Success? ==> r.value == Some(GetString(OptObject(o, key).value, "metric").value)
  {
    match OptObject(o, key)
    case None => Success(None)
    case Some(inner) =>
      var s :- GetString(inner, "metric");
      Success(Some(s))
  }

  // ---------------------------------------------------------------------------
  // The records built

  datatype DailyForecast = DailyForecast(date: string, summary: string, temperature: string, iconCode: string,
                                         iconUrl: string, feelsLike: Option<string>, precip: string)

  datatype HourlyForecast = HourlyForecast(time: string, condition: string, temperature: string, iconCode: string,
                                           iconUrl: string, feelsLike: Option<string>, precip: string)

  datatype WeatherData = WeatherData(
    location: string, latitude: real, longitude: real,
    currentCondition: string, currentTemperature: string, wind: string, currentIconUrl: string,
    currentFeelsLike: Option<string>, observationTime: string,
    dailyForecasts: seq<DailyForecast>, hourlyForecasts: seq<HourlyForecast>)

  datatype CitySearchResult = CitySearchResult(displayName: string, lat: real, lon: real)

  const IconBase := "https://meteo.gc.ca/weathericons/"

  /** The icon image of a weather icon code. */
  function IconUrl(code: string): (r: string)
    ensures |r| == |IconBase| + |code| + 4
    ensures r[..|IconBase|] == IconBase && r[|IconBase|..|IconBase| + |code|] == code
    ensures r[|IconBase| + |code|..] == ".gif"
  {
    IconBase + code + ".gif"
  }

  /** Different codes give different icon URLs. */
  lemma IconUrlInjective(a: string, b: string)
    requires IconUrl(a) == IconBase + b + ".gif"
    ensures a == b
  {
    assert |a| == |b|;
    assert a == IconUrl(a)[|IconBase|..|IconBase| + |a|];
  }

  /** Wind text: direction, space, speed, " km/h". */
  function WindText(direction: string, speed: string): (r: string)
    ensures |r| == |direction| + |speed| + 6
    ensures r[..|direction|] == direction && r[|direction|] == ' '
    ensures r[|direction| + 1..|direction| + 1 + |speed|] == speed
    ensures r[|direction| + 1 + |speed|..] == " km/h"
  {
    direction + " " + speed + " km/h"
  }

  /** A direction without spaces can be read back from the wind text, and so
      can the speed: different readings never show the same text. */
  lemma WindTextInjective(d1: string, s1: string, d2: string, s2: string)
    requires ' ' !in d1 && ' ' !in d2
    requires WindText(d1, s1) == WindText(d2, s2)
    ensures d1 == d2 && s1 == s2
  {
    assert WindText(d1, s1) == d1 + [' '] + (s1 + " km/h");
    assert WindText(d2, s2) == d2 + [' '] + (s2 + " km/h");
    SplitAtSeparator(d1, s1 + " km/h", d2, s2 + " km/h", ' ');
    assert s1 == (s1 + " km/h")[..|s1|];
    assert s2 == (s2 + " km/h")[..|s2|];
  }

  /** The feels-like rule of this revision: kept only when present, not
      blank, and different from the temperature. */
  function KeepFeelsLike(feelsLike: Option<string>, temperature: string): (r: Option<string>)
    ensures r.Some? <==> feelsLike.Some? && !IsBlank(feelsLike.value) && feelsLike.value != temperature
    ensures r.Some? ==> r == feelsLike
  {
    if feelsLike != Some(temperature) && feelsLike.Some? && !IsBlank(feelsLike.value) then feelsLike else None
  }

  /** A shown feels-like value is never blank and never repeats the
      temperature. */
  predicate FeelsLikeShown(feelsLike: Option<string>, temperature: string) {
    feelsLike.Some? ==> !IsBlank(feelsLike.value) && feelsLike.value != temperature
  }

  // ---------------------------------------------------------------------------
  // Parsing

  /** `f` applied to every element in order; the first failure fails it all. */
  function MapAll<T>(items: seq<Json>, f: Json -> Result<T>): (r: Result<seq<T>>)
    ensures r.Success? <==> forall i :: 0 <= i < |items| ==> f(items[i]).Success?
    ensures r.Success? ==> |r.value| == |items| && forall i :: 0 <= i < |items| ==> f(items[i]) == Success(r.value[i])
    decreases |items|
  {
    if |items| == 0 then Success([])
    else
      match f(items[0])
      case Failure(e) => Failure(e)
      case Success(x) =>
        match MapAll(items[1..], f)
        case Failure(e) => Failure(e)
        case Success(xs) =>
          assert forall i :: 1 <= i < |items| ==> items[i] == items[1..][i - 1];
          Success([x] + xs)
  }

  function ParseDaily(d: Json): (r: Result<DailyForecast>)
    ensures r.Success? <==>
      && d.JObject?
      && Metric(d, "temperature").Success?
      && OptMetric(d, "feelsLike").Success?
      && GetString(d, "date").Success?
      && GetString(d, "summary").Success?
      && GetString(d, "iconCode").Success?
      && GetString(d, "precip").Success?
    ensures r.Success? ==>
      && Metric(d, "temperature") == Success(r.value.temperature)
      && GetString(d, "date") == Success(r.value.date)
      && GetString(d, "summary") == Success(r.value.summary)
      && GetString(d, "iconCode") == Success(r.value.iconCode)
      && GetString(d, "precip") == Success(r.value.precip)
      && OptMetric(d, "feelsLike").Success?
      && r.value.feelsLike == KeepFeelsLike(OptMetric(d, "feelsLike").value, r.value.temperature)
    ensures r.Success? ==> r.value.iconUrl == IconUrl(r.value.iconCode)
    ensures r.Success? ==> FeelsLikeShown(r.value.feelsLike, r.value.temperature)
  {
    if !d.JObject? then Failure("not an object")
    else
      var temperature :- Metric(d, "temperature");
      var feelsLike :- OptMetric(d, "feelsLike");
      var date :- GetString(d, "date");
      var summary :- GetString(d, "summary");
      var iconCode :- GetString(d, "iconCode");
      var precip :- GetString(d, "precip");
      Success(DailyForecast(date, summary, temperature, iconCode, IconUrl(iconCode),
                            KeepFeelsLike(feelsLike, temperature), precip))
  }

  function ParseHourly(h: Json): (r: Result<HourlyForecast>)
    ensures r.Success? <==>
      && h.JObject?
      && Metric(h, "temperature").Success?
      && OptMetric(h, "feelsLike").Success?
      && GetString(h, "time").Success?
      && GetString(h, "condition").Success?
      && GetString(h, "iconCode").Success?
      && GetString(h, "precip").Success?
    ensures r.Success? ==>
      && Metric(h, "temperature") == Success(r.value.temperature)
      && GetString(h, "time") == Success(r.value.time)
      && GetString(h, "condition") == Success(r.value.condition)
      && GetString(h, "iconCode") == Success(r.value.iconCode)
      && GetString(h, "precip") == Success(r.value.precip)
      && OptMetric(h, "feelsLike").Success?
      && r.value.feelsLike == KeepFeelsLike(OptMetric(h, "feelsLike").value, r.value.temperature)
    ensures r.Success? ==> r.value.iconUrl == IconUrl(r.value.iconCode)
    ensures r.Success? ==> FeelsLikeShown(r.value.feelsLike, r.value.temperature)
  {
    if !h.JObject? then Failure("not an object")
    else
      var temperature :- Metric(h, "temperature");
      var feelsLike :- OptMetric(h, "feelsLike");
      var time :- GetString(h, "time");
      var condition :- GetString(h, "condition");
      var iconCode :- GetString(h, "iconCode");
      var precip :- GetString(h, "precip");
      Success(HourlyForecast(time, condition, temperature, iconCode, IconUrl(iconCode),
                             KeepFeelsLike(feelsLike, temperature), precip))
  }

  /** Every current-conditions field `parseWeatherData` reads is present
      with the expected kind, and the time stamp parses. */
  predicate ObservationReadable<D>(obs: Json, parseTime: string -> Option<D>) {
    && GetString(obs, "condition").Success?
    && Metric(obs, "temperature").Success?
    && OptMetric(obs, "feelsLike").Success?
    && GetString(obs, "windDirection").Success?
    && Metric(obs, "windSpeed").Success?
    && GetString(obs, "iconCode").Success?
    && GetString(obs, "timeStamp").Success?
    && parseTime(GetString(obs, "timeStamp").value).Some?
  }

  /** Both forecast arrays are present and every entry of each parses. */
  predicate ForecastsReadable(o: Json) {
    && GetObject(o, "dailyFcst").Success? && GetArray(GetObject(o, "dailyFcst").value, "daily").Success?
    && MapAll(GetArray(GetObject(o, "dailyFcst").value, "daily").value, ParseDaily).Success?
    && GetObject(o, "hourlyFcst").Success? && GetArray(GetObject(o, "hourlyFcst").value, "hourly").Success?
    && MapAll(GetArray(GetObject(o, "hourlyFcst").value, "hourly").value, ParseHourly).Success?
  }

  /** The current-conditions part, read from element 0 of the response.
      `parseTime` stands for the UTC `yyyy-MM-dd'T'HH:mm:ss.SSS'Z'` parser
      (`None` where it throws), `formatTime` for the short local time
      format. */
  function ParseWeatherObject<D>(o: Json, latitude: real, longitude: real,
                                 parseTime: string -> Option<D>, formatTime: D -> string): (r: Result<WeatherData>)
    ensures r.Success? <==>
      && GetString(o, "displayName").Success? && GetObject(o, "observation").Success?
      && ObservationReadable(GetObject(o, "observation").value, parseTime)
      && ForecastsReadable(o)
    ensures r.Success? ==> r.value.latitude == latitude && r.value.longitude == longitude
    ensures r.Success? ==> GetString(o, "displayName") == Success(r.value.location)
    ensures r.Success? ==> GetObject(o, "observation").Success?
    ensures r.Success? ==>
      var obs := GetObject(o, "observation").value;
      && GetString(obs, "condition") == Success(r.value.currentCondition)
      && Metric(obs, "temperature") == Success(r.value.currentTemperature)
      && OptMetric(obs, "feelsLike").Success?
      && r.value.currentFeelsLike == KeepFeelsLike(OptMetric(obs, "feelsLike").value, r.value.currentTemperature)
      && GetString(obs, "windDirection").Success? && Metric(obs, "windSpeed").Success?
      && r.value.wind == WindText(GetString(obs, "windDirection").value, Metric(obs, "windSpeed").value)
      && GetString(obs, "iconCode").Success?
      && r.value.currentIconUrl == IconUrl(GetString(obs, "iconCode").value)
      && GetString(obs, "timeStamp").Success? && parseTime(GetString(obs, "timeStamp").value).Some?
      && r.value.observationTime == formatTime(parseTime(GetString(obs, "timeStamp").value).value)
    ensures r.Success? ==> FeelsLikeShown(r.value.currentFeelsLike, r.value.currentTemperature)
    ensures r.Success? ==> (
      && GetObject(o, "dailyFcst").Success? && GetArray(GetObject(o, "dailyFcst").value, "daily").Success?
      && MapAll(GetArray(GetObject(o, "dailyFcst").value, "daily").value, ParseDaily) == Success(r.value.dailyForecasts))
    ensures r.Success? ==> (
      && GetObject(o, "hourlyFcst").Success? && GetArray(GetObject(o, "hourlyFcst").value, "hourly").Success?
      && MapAll(GetArray(GetObject(o, "hourlyFcst").value, "hourly").value, ParseHourly) == Success(r.value.hourlyForecasts))
  {
    var location :- GetString(o, "displayName");
    var observation :- GetObject(o, "observation");
    var currentCondition :- GetString(observation, "condition");
    var currentTemperature :- Metric(observation, "temperature");
    var currentFeelsLike :- OptMetric(observation, "feelsLike");
    var windDirection :- GetString(observation, "windDirection");
    var windSpeed :- Metric(observation, "windSpeed");
    var iconCode :- GetString(observation, "iconCode");
    var timestamp :- GetString(observation, "timeStamp");
    var date :- (match parseTime(timestamp) case Some(d) => Success(d) case None => Failure("Unparseable date"));
    var dailyFcst :- GetObject(o, "dailyFcst");
    var dailyArray :- GetArray(dailyFcst, "daily");
    var daily :- MapAll(dailyArray, ParseDaily);
    var hourlyFcst :- GetObject(o, "hourlyFcst");
    var hourlyArray :- GetArray(hourlyFcst, "hourly");
    var hourly :- MapAll(hourlyArray, ParseHourly);
    Success(WeatherData(location, latitude, longitude, currentCondition, currentTemperature,
                        WindText(windDirection, windSpeed), IconUrl(iconCode),
                        KeepFeelsLike(currentFeelsLike, currentTemperature), formatTime(date), daily, hourly))
  }

  /** `fetchWeather` after the download: the response must be an array whose
      element 0 is an object; every failure propagates. */
  function ParseWeatherData<D>(response: Option<Json>, latitude: real, longitude: real,
                               parseTime: string -> Option<D>, formatTime: D -> string): (r: Result<WeatherData>)
    ensures response.None? ==> r.Failure?
    ensures response.Some? && !(response.value.JArray? && |response.value.items| > 0) ==> r.Failure?
    ensures r.Success? ==> r == ParseWeatherObject(response.value.items[0], latitude, longitude, parseTime, formatTime)
    ensures response.Some? && response.value.JArray? && |response.value.items| > 0 && response.value.items[0].JObject?
      ==> r == ParseWeatherObject(response.value.items[0], latitude, longitude, parseTime, formatTime)
  {
    match response
    case None => Failure("request failed")
    case Some(j) =>
      if !j.JArray? || |j.items| == 0 then Failure("no element 0")
      else if !j.items[0].JObject? then Failure("element 0 is not an object")
      else ParseWeatherObject(j.items[0], latitude, longitude, parseTime, formatTime)
  }

  /** Only element 0 of the response is read: whatever follows it does not
      change the outcome. */
  lemma OnlyFirstElementRead<D>(first: Json, rest: seq<Json>, latitude: real, longitude: real,
                                parseTime: string -> Option<D>, formatTime: D -> string)
    ensures ParseWeatherData(Some(JArray([first] + rest)), latitude, longitude, parseTime, formatTime)
         == ParseWeatherData(Some(JArray([first])), latitude, longitude, parseTime, formatTime)
  {
  }

  /** Every forecast entry of a parsed response keeps its array's order and
      length, carries the icon URL of its code, and obeys the feels-like rule. */
  lemma ForecastsFollowArrays<D>(response: Option<Json>, latitude: real, longitude: real,
                                 parseTime: string -> Option<D>, formatTime: D -> string)
    requires ParseWeatherData(response, latitude, longitude, parseTime, formatTime).Success?
    ensures var w := ParseWeatherData(response, latitude, longitude, parseTime, formatTime).value;
      var o := response.value.items[0];
      var daily := o.fields["dailyFcst"].fields["daily"].items;
      var hourly := o.fields["hourlyFcst"].fields["hourly"].items;
      && |w.dailyForecasts| == |daily| && |w.hourlyForecasts| == |hourly|
      && (forall i :: 0 <= i < |daily| ==> ParseDaily(daily[i]) == Success(w.dailyForecasts[i]))
      && (forall i :: 0 <= i < |hourly| ==> ParseHourly(hourly[i]) == Success(w.hourlyForecasts[i]))
      && (forall i :: 0 <= i < |daily| ==>
            w.dailyForecasts[i].iconUrl == IconUrl(w.dailyForecasts[i].iconCode)
            && FeelsLikeShown(w.dailyForecasts[i].feelsLike, w.dailyForecasts[i].temperature))
      && (forall i :: 0 <= i < |hourly| ==>
            w.hourlyForecasts[i].iconUrl == IconUrl(w.hourlyForecasts[i].iconCode)
            && FeelsLikeShown(w.hourlyForecasts[i].feelsLike, w.hourlyForecasts[i].temperature))
  {
    var w := ParseWeatherData(response, latitude, longitude, parseTime, formatTime).value;
    var o := response.value.items[0];
    var daily := o.fields["dailyFcst"].fields["daily"].items;
    var hourly := o.fields["hourlyFcst"].fields["hourly"].items;
    forall i | 0 <= i < |daily|
      ensures w.dailyForecasts[i].iconUrl == IconUrl(w.dailyForecasts[i].iconCode)
      ensures FeelsLikeShown(w.dailyForecasts[i].feelsLike, w.dailyForecasts[i].temperature)
    {
      assert ParseDaily(daily[i]) == Success(w.dailyForecasts[i]);
    }
    forall i | 0 <= i < |hourly|
      ensures w.hourlyForecasts[i].iconUrl == IconUrl(w.hourlyForecasts[i].iconCode)
      ensures FeelsLikeShown(w.hourlyForecasts[i].feelsLike, w.hourlyForecasts[i].temperature)
    {
      assert ParseHourly(hourly[i]) == Success(w.hourlyForecasts[i]);
    }
  }

  /** One element of the city-search response: an object with a display name
      and a latitude and longitude `getDouble` accepts. */
  function ParseCity(c: Json, toDouble: string -> Option<real>): (r: Result<CitySearchResult>)
    ensures r.Success? <==>
      && c.JObject? && GetString(c, "display_name").Success?
      && GetDouble(c, "lat", toDouble).Success? && GetDouble(c, "lon", toDouble).Success?
    ensures r.Success? ==>
      && GetString(c, "display_name") == Success(r.value.displayName)
      && GetDouble(c, "lat", toDouble) == Success(r.value.lat)
      && GetDouble(c, "lon", toDouble) == Success(r.value.lon)
  {
    if !c.JObject? then Failure("not an object")
    else
      var name :- GetString(c, "display_name");
      var lat :- GetDouble(c, "lat", toDouble);
      var lon :- GetDouble(c, "lon", toDouble);
      Success(CitySearchResult(name, lat, lon))
  }

  /** `searchCities` after the download: one result per array element, in
      order; any failure (request, syntax, shape of an element) gives the
      empty list. */
  function SearchCities(response: Option<Json>, toDouble: string -> Option<real>): (r: seq<CitySearchResult>)
    ensures response.None? || !response.value.JArray? ==> r == []
    ensures response.Some? && response.value.JArray? && r != [] ==>
      var items := response.value.items;
      && |r| == |items|
      && forall i :: 0 <= i < |items| ==> ParseCity(items[i], toDouble) == Success(r[i])
    ensures response.Some? && response.value.JArray?
      && (forall i :: 0 <= i < |response.value.items| ==> ParseCity(response.value.items[i], toDouble).Success?)
      ==> |r| == |response.value.items|
  {
    match response
    case None => []
    case Some(j) =>
      if !j.JArray? then []
      else
        match MapAll(j.items, c => ParseCity(c, toDouble))
        case Failure(_) => []
        case Success(cities) => cities
  }

  /** One malformed element empties the whole search result. */
  lemma OneBadCityEmptiesSearch(items: seq<Json>, toDouble: string -> Option<real>, k: int)
    requires 0 <= k < |items| && ParseCity(items[k], toDouble).Failure?
    ensures SearchCities(Some(JArray(items)), toDouble) == []
  {
    var f := c => ParseCity(c, toDouble);
    assert f(items[k]).Failure?;
  }
}
