/** The diary service: weather extraction from the provider's payload, the cache-or-fetch
    policy, the daily refresh and the diary operations over the two tables. */
module Service {
  import opened Domain
  import opened Json
  import opened Repository

  /** What one call to the weather provider yields: a connection failure, or a body that the
      JSON parser turned into a tree (None when the body is not JSON text). */
  datatype Fetched = ConnectionFailed | Body(document: Option<Json>)

  /** The three raw values `parseWeather` collects: `main.temp`, `weather[0].main` and
      `weather[0].icon` (null when a key is missing). */
  datatype ParsedWeather = ParsedWeather(temp: Json, main: Json, icon: Json)

  const TempPath: seq<Step> := [Key("main"), Key("temp")]
  const ConditionPath: seq<Step> := [Key("weather"), Index(0), Key("main")]
  const IconPath: seq<Step> := [Key("weather"), Index(0), Key("icon")]

  /** The shape the payload must have: an object whose `main` is an object and whose `weather`
      is an array with an object first. */
  predicate WeatherShaped(j: Json) {
    && At(j, [Key("main")]).JObject?
    && At(j, [Key("weather")]).JArray?
    && At(j, [Key("weather"), Index(0)]).JObject?
  }

  /** The exception thrown once a value of the wrong kind has been cast: null passes the cast
      and fails at the next dereference; any other value fails the cast itself. */
  function CastError(j: Json): Error {
    if j.JNull? then NullValue else WrongType
  }

  /** `parseWeather` over the parsed tree: the three raw values, or the exception the first
      bad step throws. */
  function ParseWeather(document: Option<Json>): (r: Result<ParsedWeather>)
    ensures r.Ok? <==> document.Some? && WeatherShaped(document.value)
    ensures document.None? ==> r == Err(MalformedPayload)
    ensures r.Ok? ==> r.value == ParsedWeather(At(document.value, TempPath),
                                               At(document.value, ConditionPath),
                                               At(document.value, IconPath))
  {
    match document
    case None => Err(MalformedPayload)
    case Some(root) =>
      if !root.JObject? then Err(CastError(root))
      else
        var mainData := Get(root.fields, "main");
        if !mainData.JObject? then Err(CastError(mainData))
        else
          var weatherArray := Get(root.fields, "weather");
          if !weatherArray.JArray? then Err(CastError(weatherArray))
          else if |weatherArray.items| == 0 then Err(EmptyWeatherArray)
          else
            var weatherData := weatherArray.items[0];
            if !weatherData.JObject? then Err(CastError(weatherData))
            else Ok(ParsedWeather(Get(mainData.fields, "temp"),
                                  Get(weatherData.fields, "main"),
                                  Get(weatherData.fields, "icon")))
  }

  /** The decimal text of a natural number. */
  function NatText(n: nat): string
    decreases n
  {
    var digit := ['0', '1', '2', '3', '4', '5', '6', '7', '8', '9'][n % 10];
    if n < 10 then [digit] else NatText(n / 10) + [digit]
  }

  /** `toString` of a raw value: the text of a string, boolean or long; NullPointerException
      on null. */
  function ToText(j: Json): Result<string> {
    match j
    case JNull => Err(NullValue)
    case JString(s) => Ok(s)
    case JBool(b) => Ok(if b then "true" else "false")
    case JLong(n) => Ok(if n < 0 then "-" + NatText(-n) else NatText(n))
    case _ => Err(Unrendered)
  }

  /** `(Double)` cast and unboxing of `temp`: only a double passes; a long fails the cast. */
  function ToDouble(j: Json): Result<Float64> {
    if j.JDouble? then Ok(j.bits) else Err(CastError(j))
  }

  /** `getWeatherFromApi`: one fetch, the extraction, and a snapshot stamped with `today`. */
  function GetWeatherFromApi(today: Date, fetched: Fetched): (r: Result<DateWeather>)
    ensures fetched.ConnectionFailed? ==> r == Err(NetworkFailure)
    ensures r.Ok? ==> r.value.date == today
    ensures r.Ok? <==> && fetched.Body? && fetched.document.Some?
                       && WeatherShaped(fetched.document.value)
                       && ToText(At(fetched.document.value, ConditionPath)).Ok?
                       && ToText(At(fetched.document.value, IconPath)).Ok?
                       && At(fetched.document.value, TempPath).JDouble?
    ensures r.Ok? ==> && ToText(At(fetched.document.value, ConditionPath)) == Ok(r.value.weather)
                      && ToText(At(fetched.document.value, IconPath)) == Ok(r.value.icon)
                      && At(fetched.document.value, TempPath) == JDouble(r.value.temperature)
  {
    match fetched
    case ConnectionFailed => Err(NetworkFailure)
    case Body(document) =>
      var parsed :- ParseWeather(document);
      var weather :- ToText(parsed.main);
      var icon :- ToText(parsed.icon);
      var temperature :- ToDouble(parsed.temp);
      Ok(DateWeather(today, weather, icon, temperature))
  }

  /** `getDateWeather`: the cached snapshot for `date` when there is one, otherwise a live
      fetch stamped with `today`. */
  function GetDateWeather(cache: map<Date, DateWeather>, date: Date, today: Date, fetched: Fetched)
    : (r: Result<DateWeather>)
    ensures date in cache ==> r == Ok(cache[date])
    ensures date !in cache && r.Ok? ==> r.value.date == today
    ensures date !in cache && fetched.ConnectionFailed? ==> r == Err(NetworkFailure)
  {
    if date in cache then Ok(cache[date]) else GetWeatherFromApi(today, fetched)
  }

  /** Every snapshot in the cache is stored under its own date, its primary key. */
  ghost predicate KeyedByDate(cache: map<Date, DateWeather>) {
    forall d :: d in cache ==> cache[d].date == d
  }

  /** The service over its two tables: the weather cache and the diary table. */
  class DiaryService {
    var cache: map<Date, DateWeather>
    var diaries: seq<Diary>

    ghost predicate Valid()
      reads this
    {
      KeyedByDate(cache)
    }

    constructor (cache0: map<Date, DateWeather>, diaries0: seq<Diary>)
      requires KeyedByDate(cache0)
      ensures Valid()
      ensures cache == cache0 && diaries == diaries0
    {
      cache := cache0;
      diaries := diaries0;
    }

    /** `saveWeatherDate`: fetch today's weather and store it under today; on failure
        nothing is written. The diary table is never touched. */
    method SaveWeatherDate(today: Date, fetched: Fetched) returns (outcome: Outcome)
      requires Valid()
      modifies this
      ensures Valid()
      ensures diaries == old(diaries)
      ensures match GetWeatherFromApi(today, fetched)
              case Ok(w) => outcome == Done && cache == old(cache)[today := w]
              case Err(e) => outcome == Failed(e) && cache == old(cache)
    {
      var r := GetWeatherFromApi(today, fetched);
      match r
      case Ok(w) =>
        cache := cache[today := w];
        outcome := Done;
      case Err(e) =>
        outcome := Failed(e);
    }

    /** `createDiary`: resolve the weather for `date` and append one entry holding it and
        `text`; when resolution throws, nothing is written. The cache is never touched. */
    method CreateDiary(date: Date, text: string, today: Date, fetched: Fetched) returns (outcome: Outcome)
      requires Valid()
      modifies this
      ensures Valid()
      ensures cache == old(cache)
      ensures match GetDateWeather(old(cache), date, today, fetched)
              case Ok(w) => outcome == Done && diaries == old(diaries) + [Diary(text, w)]
              case Err(e) => outcome == Failed(e) && diaries == old(diaries)
    {
      var r := GetDateWeather(cache, date, today, fetched);
      match r
      case Ok(w) =>
        diaries := diaries + [Diary(text, w)];
        outcome := Done;
      case Err(e) =>
        outcome := Failed(e);
    }

    /** `readDiary`: every entry filed under `date`. */
    function ReadDiary(date: Date): (r: seq<Diary>)
      reads this
      ensures forall e :: e in r <==> e in diaries && e.EntryDate() == date
    {
      FindAllByDate(diaries, date)
    }

    /** `readDiaries`: every entry filed under a date in `[startDate, endDate]`. */
    function ReadDiaries(startDate: Date, endDate: Date): (r: seq<Diary>)
      reads this
      ensures forall e :: e in r <==> e in diaries && startDate <= e.EntryDate() <= endDate
    {
      FindAllByDateBetween(diaries, startDate, endDate)
    }

    /** `updateDiary`: give the first entry filed under `date` the new text; with no such
        entry it fails and nothing is written. The cache is never touched. */
    method UpdateDiary(date: Date, text: string) returns (outcome: Outcome)
      requires Valid()
      modifies this
      ensures Valid()
      ensures cache == old(cache)
      ensures match SetTextOfFirst(old(diaries), date, text)
              case Ok(s) => outcome == Done && diaries == s
              case Err(e) => outcome == Failed(e) && diaries == old(diaries)
    {
      var r := SetTextOfFirst(diaries, date, text);
      match r
      case Ok(s) =>
        diaries := s;
        outcome := Done;
      case Err(e) =>
        outcome := Failed(e);
    }

    /** `deleteDiary`: remove every entry filed under `date`. The cache is never touched. */
    method DeleteDiary(date: Date)
      requires Valid()
      modifies this
      ensures Valid()
      ensures cache == old(cache)
      ensures diaries == DeleteAllByDate(old(diaries), date)
      ensures ReadDiary(date) == []
    {
      diaries := DeleteAllByDate(diaries, date);
    }
  }

  /** A cache hit returns the stored snapshot whatever the provider would have answered: no
      fetch takes place. */
  lemma CacheHitIgnoresFetch(cache: map<Date, DateWeather>, date: Date, today: Date,
                             fetched: Fetched, other: Fetched)
    requires date in cache
    ensures GetDateWeather(cache, date, today, fetched) == GetDateWeather(cache, date, today, other)
    ensures GetDateWeather(cache, date, today, fetched) == Ok(cache[date])
  {
  }

  /** On a cache miss the outcome is today's live weather: it does not depend on which date
      was asked for, and a snapshot it yields is dated today. */
  lemma CacheMissIsTodaysWeather(cache: map<Date, DateWeather>, date: Date, asked: Date,
                                 today: Date, fetched: Fetched)
    requires date !in cache && asked !in cache
    ensures GetDateWeather(cache, date, today, fetched) == GetDateWeather(cache, asked, today, fetched)
    ensures GetDateWeather(cache, date, today, fetched) == GetWeatherFromApi(today, fetched)
  {
  }

  /** The sample payload shape with temperature `t`, condition `c` and icon `i`. */
  function WeatherPayload(t: Float64, c: string, i: string): Json {
    JObject(map[
      "main" := JObject(map["temp" := JDouble(t)]),
      "weather" := JArray([JObject(map["main" := JString(c), "icon" := JString(i)])])
    ])
  }

  /** Extraction recovers exactly the temperature, condition and icon of the payload. */
  lemma PayloadRoundTrip(today: Date, t: Float64, c: string, i: string)
    ensures GetWeatherFromApi(today, Body(Some(WeatherPayload(t, c, i))))
         == Ok(DateWeather(today, c, i, t))
  {
  }

  /** The payload of 280.5 (IEEE-754 bits 0x4071880000000000), "Clouds" and "04d". */
  lemma SamplePayload(today: Date)
    ensures GetWeatherFromApi(today, Body(Some(WeatherPayload(0x4071_8800_0000_0000, "Clouds", "04d"))))
         == Ok(DateWeather(today, "Clouds", "04d", 0x4071_8800_0000_0000))
  {
  }

  /** An empty `weather` array is rejected once `main` is an object, whatever else the payload holds. */
  lemma EmptyWeatherArrayFails(today: Date, fields: map<string, Json>)
    requires "main" in fields && fields["main"].JObject?
    requires "weather" in fields && fields["weather"] == JArray([])
    ensures ParseWeather(Some(JObject(fields))) == Err(EmptyWeatherArray)
    ensures GetWeatherFromApi(today, Body(Some(JObject(fields)))) == Err(EmptyWeatherArray)
  {
  }

  /** A whole-number temperature arrives as a long, and the `(Double)` cast rejects it. */
  lemma WholeTemperatureRejected(today: Date, n: int, c: string, i: string)
    ensures var p := JObject(WeatherPayload(0, c, i).fields["main" := JObject(map["temp" := JLong(n)])]);
            GetWeatherFromApi(today, Body(Some(p))) == Err(WrongType)
  {
  }

  /** Keys other than `main` and `weather` do not change the extraction. */
  lemma ExtraKeysIgnored(today: Date, fields: map<string, Json>, key: string, v: Json)
    requires key != "main" && key != "weather"
    ensures GetWeatherFromApi(today, Body(Some(JObject(fields[key := v]))))
         == GetWeatherFromApi(today, Body(Some(JObject(fields))))
  {
  }

  /** The daily refresh writes a snapshot that a later lookup of today hits, and it keeps
      every snapshot under its own date. */
  lemma RefreshThenHit(cache: map<Date, DateWeather>, today: Date, fetched: Fetched, f2: Fetched)
    requires KeyedByDate(cache)
    requires GetWeatherFromApi(today, fetched).Ok?
    ensures var c := cache[today := GetWeatherFromApi(today, fetched).value];
            && KeyedByDate(c)
            && GetDateWeather(c, today, today, f2) == GetWeatherFromApi(today, fetched)
  {
  }

  /** After a creation that succeeds, the new entry is filed under the asked date on a cache
      hit and under today on a miss, and it is added at the end of that date's query and of no
      other: the asked date's query returns it exactly when the date was cached or is today. */
  lemma CreateThenRead(cache: map<Date, DateWeather>, s: seq<Diary>, date: Date, text: string,
                       today: Date, fetched: Fetched)
    requires KeyedByDate(cache)
    requires GetDateWeather(cache, date, today, fetched).Ok?
    ensures var e := Diary(text, GetDateWeather(cache, date, today, fetched).value);
            && e.EntryDate() == (if date in cache then date else today)
            && (forall d :: FindAllByDate(s + [e], d)
                            == FindAllByDate(s, d) + (if d == e.EntryDate() then [e] else []))
            && FindAllByDate(s + [e], date)
               == FindAllByDate(s, date) + (if date in cache || date == today then [e] else [])
  {
    var e := Diary(text, GetDateWeather(cache, date, today, fetched).value);
    forall d
      ensures FindAllByDate(s + [e], d) == FindAllByDate(s, d) + (if d == e.EntryDate() then [e] else [])
    {
      FindAllByDateAppend(s, e, d);
    }
  }
}
