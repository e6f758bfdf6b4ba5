/** The first revision's activity: its two-tier image cache, its
    fetch-with-one-retry, and its parse of the weather response, which keeps
    a blank feels-like value. */
module LegacyActivity {
  import opened Wrappers
  import opened KotlinNum
  import opened KotlinText
  import opened WeatherRepository
  import opened RadarScreen

  // ---------------------------------------------------------------------------
  // String.hashCode

  const TwoTo31: int := 0x8000_0000
  const TwoTo32: int := 0x1_0000_0000

  /** Reduction to a signed 32-bit value, as Int arithmetic wraps. */
  function Wrap32(x: int): (r: int)
    ensures InIntRange(r)
    ensures InIntRange(x) ==> r == x
  {
    (x + TwoTo31) % TwoTo32 - TwoTo31
  }

  /** Adding multiples of 2^32 does not change the wrapped value. */
  lemma Wrap32Shift(x: int, n: int)
    ensures Wrap32(x + n * TwoTo32) == Wrap32(x)
  {
    ModShift(x + TwoTo31, n, TwoTo32);
    assert x + n * TwoTo32 + TwoTo31 == (x + TwoTo31) + n * TwoTo32;
  }

  /** Wrapping an intermediate result does not change the final wrap. */
  lemma Wrap32Absorb(x: int, k: int, c: int)
    ensures Wrap32(k * Wrap32(x) + c) == Wrap32(k * x + c)
  {
    var n := (x + TwoTo31) / TwoTo32;
    assert Wrap32(x) == x - n * TwoTo32;
    assert k * Wrap32(x) + c == (k * x + c) + (-(k * n)) * TwoTo32;
    Wrap32Shift(k * x + c, -(k * n));
  }

  /** Java's `String.hashCode` loop `h = 31 * h + c`, continued from `h`. */
  function HashFrom(h: int, s: string): (r: int)
    ensures InIntRange(h) ==> InIntRange(r)
    decreases |s|
  {
    if |s| == 0 then h else HashFrom(Wrap32(31 * h + s[0] as int), s[1..])
  }

  /** `String.hashCode`: the documented polynomial
      `s[0]*31^(n-1) + ... + s[n-1]`, wrapped to a signed 32-bit value. */
  function HashCode(s: string): (r: int)
    ensures InIntRange(r)
    ensures r == Wrap32(Polynomial(s))
  {
    HashFromIsPolynomial(0, s);
    HashFrom(0, s)
  }

  lemma {:induction false} HashFromAppend(h: int, a: string, b: string)
    ensures HashFrom(h, a + b) == HashFrom(HashFrom(h, a), b)
    decreases |a|
  {
    if |a| > 0 {
      assert (a + b)[0] == a[0];
      assert (a + b)[1..] == a[1..] + b;
      HashFromAppend(Wrap32(31 * h + a[0] as int), a[1..], b);
    } else {
      assert a + b == b;
    }
  }

  function Pow31(n: nat): (r: int)
    ensures r > 0
  {
    if n == 0 then 1 else 31 * Pow31(n - 1)
  }

  /** The documented value `s[0]*31^(n-1) + ... + s[n-1]` before wrapping. */
  function Polynomial(s: string): int
    decreases |s|
  {
    if |s| == 0 then 0 else 31 * Polynomial(s[..|s| - 1]) + s[|s| - 1] as int
  }

  lemma PolynomialSnoc(a: string, c: char)
    ensures Polynomial(a + [c]) == 31 * Polynomial(a) + c as int
  {
    assert (a + [c])[..|a|] == a;
  }

  lemma PolynomialStep(h: int, a: string, c: char)
    ensures 31 * (h * Pow31(|a|) + Polynomial(a)) + c as int == h * Pow31(|a| + 1) + Polynomial(a + [c])
  {
    PolynomialSnoc(a, c);
    var p, q := Pow31(|a|), Polynomial(a);
    assert Pow31(|a| + 1) == 31 * p;
    MulAssoc31(h, p);
    assert 31 * (h * p + q) == 31 * (h * p) + 31 * q;
  }

  /** Kept apart: in the context of `PolynomialStep` the solver does not find
      this regrouping of a product on its own. */
  lemma MulAssoc31(h: int, p: int)
    ensures h * (31 * p) == 31 * (h * p)
  {
  }

  /** The loop computes the documented polynomial modulo 2^32. */
  lemma {:induction false} HashFromIsPolynomial(h: int, s: string)
    requires InIntRange(h)
    ensures HashFrom(h, s) == Wrap32(h * Pow31(|s|) + Polynomial(s))
    decreases |s|
  {
    if |s| > 0 {
      var a := s[..|s| - 1];
      var c := s[|s| - 1];
      assert s == a + [c];
      HashFromAppend(h, a, [c]);
      HashFromIsPolynomial(h, a);
      var x := h * Pow31(|a|) + Polynomial(a);
      assert HashFrom(HashFrom(h, a), [c]) == Wrap32(31 * Wrap32(x) + c as int);
      Wrap32Absorb(x, 31, c as int);
      PolynomialStep(h, a, c);
    }
  }

  /** "Aa" and "BB" hash alike from any starting value. */
  lemma AaCollidesWithBB(h: int)
    ensures HashFrom(h, "Aa") == HashFrom(h, "BB")
  {
    Wrap32Absorb(31 * h + 'A' as int, 31, 'a' as int);
    Wrap32Absorb(31 * h + 'B' as int, 31, 'B' as int);
    assert 31 * (31 * h + 'A' as int) + 'a' as int == 31 * (31 * h + 'B' as int) + 'B' as int;
  }

  /** So any two strings that differ only by "Aa" against "BB" share a hash. */
  lemma HashCollision(p: string, q: string)
    ensures HashCode(p + "Aa" + q) == HashCode(p + "BB" + q)
  {
    HashFromAppend(0, p + "Aa", q);
    HashFromAppend(0, p, "Aa");
    HashFromAppend(0, p + "BB", q);
    HashFromAppend(0, p, "BB");
    AaCollidesWithBB(HashFrom(0, p));
  }

  // ---------------------------------------------------------------------------
  // ImageCache

  /** A decoded image. */
  datatype Bitmap = Bitmap(pixels: seq<int>)

  /** A file of the disk cache: a lossless PNG of a bitmap, or a file the
      decoder rejects (for instance one truncated by a failed write). */
  datatype DiskFile = Png(image: Bitmap) | Unreadable

  /** The two tiers; `K` names a disk file. */
  datatype ImageCache<K> = ImageCache(memory: map<string, Bitmap>, disk: map<K, DiskFile>)

  /** How the disk write of `put` ended: the file written, the file never
      opened, or the file opened and the write failed part-way. */
  datatype WriteOutcome = Written | NotOpened | Truncated

  function Decode(f: DiskFile): Option<Bitmap> {
    match f
    case Png(b) => Some(b)
    case Unreadable => None
  }

  /** `get`: the memory entry when there is one; otherwise a decodable disk
      file under the URL's key, which is promoted into memory; otherwise
      nothing. `key` names the disk file of a URL. */
  function Get<K>(c: ImageCache<K>, url: string, key: string -> K): (r: (Option<Bitmap>, ImageCache<K>))
    ensures url in c.memory ==> r == (Some(c.memory[url]), c)
    ensures url !in c.memory && key(url) in c.disk && Decode(c.disk[key(url)]).Some? ==>
      r.0 == Decode(c.disk[key(url)]) && r.1.memory == c.memory[url := r.0.value]
    ensures url !in c.memory && !(key(url) in c.disk && Decode(c.disk[key(url)]).Some?) ==> r == (None, c)
    ensures r.1.disk == c.disk
  {
    if url in c.memory then (Some(c.memory[url]), c)
    else if key(url) in c.disk && Decode(c.disk[key(url)]).Some? then
      var b := Decode(c.disk[key(url)]).value;
      (Some(b), c.(memory := c.memory[url := b]))
    else (None, c)
  }

  /** `put`: the memory entry is set first; the disk write's failure is
      swallowed. */
  function Put<K>(c: ImageCache<K>, url: string, b: Bitmap, key: string -> K, outcome: WriteOutcome): (r: ImageCache<K>)
    ensures r.memory == c.memory[url := b]
    ensures outcome == Written ==> r.disk == c.disk[key(url) := Png(b)]
    ensures outcome == NotOpened ==> r.disk == c.disk
    ensures outcome == Truncated ==> r.disk == c.disk[key(url) := Unreadable]
  {
    var disk := match outcome
      case Written => c.disk[key(url) := Png(b)]
      case NotOpened => c.disk
      case Truncated => c.disk[key(url) := Unreadable];
    ImageCache(c.memory[url := b], disk)
  }

  /** A new process: the memory tier is empty, the disk tier survives. */
  function Restart<K>(c: ImageCache<K>): ImageCache<K> {
    c.(memory := map[])
  }

  /** After `put(u, b)`, `get(u)` returns `b`, whatever the disk write did. */
  lemma GetAfterPut<K>(c: ImageCache<K>, url: string, b: Bitmap, key: string -> K, outcome: WriteOutcome)
    ensures Get(Put(c, url, b, key, outcome), url, key).0 == Some(b)
  {
  }

  /** A successful write survives a restart. */
  lemma PutSurvivesRestart<K>(c: ImageCache<K>, url: string, b: Bitmap, key: string -> K)
    ensures Get(Restart(Put(c, url, b, key, Written)), url, key).0 == Some(b)
  {
  }

  /** A second `get` answers the same, from memory. */
  lemma GetPromotes<K>(c: ImageCache<K>, url: string, key: string -> K)
    ensures var (r1, c1) := Get(c, url, key);
      Get(c1, url, key) == (r1, c1) && (r1.Some? ==> url in c1.memory)
  {
  }

  /** The source's disk key: `url.hashCode()` (its decimal text is the file
      name, and decimal text is injective). */
  function HashKey(url: string): int {
    HashCode(url)
  }

  /** Two icon URLs whose codes are "Aa" and "BB" share a disk slot: after
      storing the first and restarting, asking for the second returns the
      first one's image. */
  lemma HashCollisionServesWrongImage(b: Bitmap)
    ensures var c := Restart(Put(ImageCache(map[], map[]), IconUrl("Aa"), b, HashKey, Written));
      Get(c, IconUrl("BB"), HashKey).0 == Some(b)
  {
    HashCollision(IconBase, ".gif");
    assert IconUrl("Aa") == IconBase + "Aa" + ".gif";
    assert IconUrl("BB") == IconBase + "BB" + ".gif";
  }

  /** A disk key that names each URL apart, such as the URL itself. */
  function UrlKey(url: string): string {
    url
  }

  /** With URL keys, storing one URL never changes what another URL gets,
      before or after a restart. */
  lemma DistinctUrlsDoNotInterfere(c: ImageCache<string>, u1: string, u2: string, b: Bitmap, outcome: WriteOutcome)
    requires u1 != u2
    ensures Get(Put(c, u1, b, UrlKey, outcome), u2, UrlKey).0 == Get(c, u2, UrlKey).0
    ensures Get(Restart(Put(c, u1, b, UrlKey, outcome)), u2, UrlKey).0 == Get(Restart(c), u2, UrlKey).0
  {
    assert UrlKey(u1) != UrlKey(u2);
  }

  // ---------------------------------------------------------------------------
  // The weather response, first revision

  datatype LegacyDaily = LegacyDaily(date: string, summary: string, temperature: string, iconCode: string,
                                     iconUrl: string, feelsLike: Option<string>)

  datatype LegacyHourly = LegacyHourly(time: string, condition: string, temperature: string, iconCode: string,
                                       iconUrl: string, feelsLike: Option<string>)

  datatype LegacyWeatherData = LegacyWeatherData(
    location: string, latitude: real, longitude: real,
    currentCondition: string, currentTemperature: string, wind: string, currentIconUrl: string,
    currentFeelsLike: Option<string>, dailyForecasts: seq<LegacyDaily>, hourlyForecasts: seq<LegacyHourly>)

  /** This revision's rule: feels-like is dropped only when it equals the
      temperature; a blank value is kept. */
  function LegacyKeepFeelsLike(feelsLike: Option<string>, temperature: string): (r: Option<string>)
    ensures r.Some? <==> feelsLike.Some? && feelsLike.value != temperature
    ensures r.Some? ==> r == feelsLike
  {
    if feelsLike != Some(temperature) then feelsLike else None
  }

  /** The two revisions disagree exactly on a blank feels-like that differs
      from the temperature, which only the first revision shows. */
  lemma FeelsLikeRulesDiffer(feelsLike: Option<string>, temperature: string)
    ensures KeepFeelsLike(feelsLike, temperature) != LegacyKeepFeelsLike(feelsLike, temperature)
      <==> feelsLike.Some? && IsBlank(feelsLike.value) && feelsLike.value != temperature
    ensures KeepFeelsLike(feelsLike, temperature).Some? ==> LegacyKeepFeelsLike(feelsLike, temperature) == feelsLike
  {
  }

  /** A blank feels-like next to a temperature: shown by this revision only. */
  lemma BlankFeelsLikeShown()
    ensures LegacyKeepFeelsLike(Some(" "), "5") == Some(" ")
    ensures KeepFeelsLike(Some(" "), "5") == None
  {
    assert IsWhitespace(' ');
  }

  function ParseLegacyDaily(d: Json): (r: Result<LegacyDaily>)
    ensures r.Success? <==>
      && d.JObject?
      && Metric(d, "temperature").Success?
      && OptMetric(d, "feelsLike").Success?
      && GetString(d, "date").Success?
      && GetString(d, "summary").Success?
      && GetString(d, "iconCode").Success?
    ensures r.Success? ==>
      && Metric(d, "temperature") == Success(r.value.temperature)
      && GetString(d, "date") == Success(r.value.date)
      && GetString(d, "summary") == Success(r.value.summary)
      && GetString(d, "iconCode") == Success(r.value.iconCode)
      && OptMetric(d, "feelsLike").Success?
      && r.value.feelsLike == LegacyKeepFeelsLike(OptMetric(d, "feelsLike").value, r.value.temperature)
    ensures r.Success? ==> r.value.iconUrl == IconUrl(r.value.iconCode)
    ensures r.Success? ==> (r.value.feelsLike.Some? ==> r.value.feelsLike.value != r.value.temperature)
  {
    if !d.JObject? then Failure("not an object")
    else
      var temperature :- Metric(d, "temperature");
      var feelsLike :- OptMetric(d, "feelsLike");
      var date :- GetString(d, "date");
      var summary :- GetString(d, "summary");
      var iconCode :- GetString(d, "iconCode");
      Success(LegacyDaily(date, summary, temperature, iconCode, IconUrl(iconCode),
                          LegacyKeepFeelsLike(feelsLike, temperature)))
  }

  function ParseLegacyHourly(h: Json): (r: Result<LegacyHourly>)
    ensures r.Success? <==>
      && h.JObject?
      && Metric(h, "temperature").Success?
      && OptMetric(h, "feelsLike").Success?
      && GetString(h, "time").Success?
      && GetString(h, "condition").Success?
      && GetString(h, "iconCode").Success?
    ensures r.Success? ==>
      && Metric(h, "temperature") == Success(r.value.temperature)
      && GetString(h, "time") == Success(r.value.time)
      && GetString(h, "condition") == Success(r.value.condition)
      && GetString(h, "iconCode") == Success(r.value.iconCode)
      && OptMetric(h, "feelsLike").Success?
      && r.value.feelsLike == LegacyKeepFeelsLike(OptMetric(h, "feelsLike").value, r.value.temperature)
    ensures r.Success? ==> r.value.iconUrl == IconUrl(r.value.iconCode)
    ensures r.Success? ==> (r.value.feelsLike.Some? ==> r.value.feelsLike.value != r.value.temperature)
  {
    if !h.JObject? then Failure("not an object")
    else
      var temperature :- Metric(h, "temperature");
      var feelsLike :- OptMetric(h, "feelsLike");
      var time :- GetString(h, "time");
      var condition :- GetString(h, "condition");
      var iconCode :- GetString(h, "iconCode");
      Success(LegacyHourly(time, condition, temperature, iconCode, IconUrl(iconCode),
                           LegacyKeepFeelsLike(feelsLike, temperature)))
  }

  /** This revision's `parseWeatherData`: the same fields as the second
      revision's, without observation time and precipitation. */
  function ParseLegacyWeather(response: Option<Json>, latitude: real, longitude: real): (r: Result<LegacyWeatherData>)
    ensures r.Success? ==> response.Some? && response.value.JArray? && |response.value.items| > 0
    ensures r.Success? ==> r.value.latitude == latitude && r.value.longitude == longitude
    ensures r.Success? ==> LegacyKeepFeelsLike(r.value.currentFeelsLike, r.value.currentTemperature) == r.value.currentFeelsLike
  {
    if response.None? || !response.value.JArray? || |response.value.items| == 0 then Failure("no element 0")
    else
      var o := response.value.items[0];
      if !o.JObject? then Failure("element 0 is not an object")
      else
        var location :- GetString(o, "displayName");
        var observation :- GetObject(o, "observation");
        var currentCondition :- GetString(observation, "condition");
        var currentTemperature :- Metric(observation, "temperature");
        var currentFeelsLike :- OptMetric(observation, "feelsLike");
        var windDirection :- GetString(observation, "windDirection");
        var windSpeed :- Metric(observation, "windSpeed");
        var iconCode :- GetString(observation, "iconCode");
        var dailyFcst :- GetObject(o, "dailyFcst");
        var dailyArray :- GetArray(dailyFcst, "daily");
        var daily :- MapAll(dailyArray, ParseLegacyDaily);
        var hourlyFcst :- GetObject(o, "hourlyFcst");
        var hourlyArray :- GetArray(hourlyFcst, "hourly");
        var hourly :- MapAll(hourlyArray, ParseLegacyHourly);
        Success(LegacyWeatherData(location, latitude, longitude, currentCondition, currentTemperature,
                                  WindText(windDirection, windSpeed), IconUrl(iconCode),
                                  LegacyKeepFeelsLike(currentFeelsLike, currentTemperature), daily, hourly))
  }

  // ---------------------------------------------------------------------------
  // fetchWeather

  /** `fetchWeather(latitude, longitude, isRetry)`: `download(attempt, at)` is
      the response of the `attempt`-th request (`None` for a network
      failure). On any failure of a first attempt the fallback point is
      fetched once with `isRetry` set; a failed retry stops. Returns the shown
      data and the points requested. */
  function FetchWeather(shown: Option<LegacyWeatherData>, at: LatLon, isRetry: bool,
                        download: (nat, LatLon) -> Option<Json>, attempt: nat): (r: (Option<LegacyWeatherData>, seq<LatLon>))
    ensures 1 <= |r.1| <= (if isRetry then 1 else 2)
    ensures r.1[0] == at
    ensures |r.1| == 2 ==> r.1[1] == FallbackLocation
    ensures var last := r.1[|r.1| - 1];
      var parsed := ParseLegacyWeather(download(attempt + |r.1| - 1, last), last.lat, last.lon);
      (parsed.Success? ==> r.0 == Some(parsed.value)) && (parsed.Failure? ==> r.0 == shown)
    decreases if isRetry then 0 else 1
  {
    match ParseLegacyWeather(download(attempt, at), at.lat, at.lon)
    case Success(data) => (Some(data), [at])
    case Failure(_) =>
      if isRetry then (shown, [at])
      else
        var (data, requests) := FetchWeather(shown, FallbackLocation, true, download, attempt + 1);
        (data, [at] + requests)
  }

  /** The retry happens exactly when the first attempt fails, and a retry
      never retries again. */
  lemma FetchRetriesOnlyOnFailure(shown: Option<LegacyWeatherData>, at: LatLon, isRetry: bool,
                                  download: (nat, LatLon) -> Option<Json>, attempt: nat)
    ensures var r := FetchWeather(shown, at, isRetry, download, attempt);
      |r.1| == 2 <==> !isRetry && ParseLegacyWeather(download(attempt, at), at.lat, at.lon).Failure?
  {
  }
}
