# Weather diary: the diary service

A model of `DiaryService` of the weather-diary application. The service keeps two tables:

- a **weather cache** (`date_weather`), one snapshot per calendar date, the date being the
  primary key; modelled as `map<Date, DateWeather>` whose every value is stored under its
  own date (`KeyedByDate`);
- a **diary table**, entries holding a text and the weather snapshot attached at creation;
  modelled as `seq<Diary>` in store order.

`Service.DiaryService` is a class over those two tables. Its methods are the service's
state-changing operations (`saveWeatherDate`, `createDiary`, `updateDiary`, `deleteDiary`);
`readDiary` and `readDiaries` are functions of its state. Each method's postcondition gives
its whole new state through a pure function of the old state: the queries and updates of the
diary table live in module `Repository`, the weather extraction and the cache-or-fetch policy
in module `Service`. The lemmas beside them state what the service promises: a cache hit
never fetches, a miss is the current weather stamped with *today*, creation appends exactly
one entry and never writes the cache, a failing fetch writes nothing, an update changes only
the text of the first entry for its date, a deletion removes exactly one date's entries and
keeps every other entry in order, and a range query is inclusive.

The environment enters as parameters: `today` stands for `LocalDate.now()`, and the answer of
the weather provider is a `Fetched` value: a connection failure (`IOException`), or a body as
the JSON parser delivered it (`None` when the body is not JSON text, i.e. `ParseException`).
The JSON tree is a small datatype (`Json.Json`); a missing key reads as null, as
`JSONObject.get` does. Each Java exception the code can throw on the way is a distinct
`Domain.Error`, raised at the same step and in the same order as in the source: a null that
is cast and then dereferenced is `NullValue`, a value of the wrong kind is `WrongType`, an
empty `weather` array is `EmptyWeatherArray`. `NotFound` names the one dereference kept apart: `updateDiary` on a date with no entry gets null from `getFirstByDate`, and the `setText` call on it throws a NullPointerException (`DiaryService.java:101-102`).

Points where the model settles what the text around the code leaves open:

- **Entry date.** `createDiary` never gives the new entry the requested date: it only attaches
  the snapshot and the text (`DiaryService.java:56-58`). The class `Diary` is not part of this
  model, so the model takes an entry's date from its attached snapshot (`Diary.EntryDate`). This
  rests on the assumption that `Diary.setDateWeather` also sets the entry's date. Its
  consequence is proved in `CreateThenRead`: on a cache miss for a date other than today, the
  new entry is filed under today, and `readDiary(date)` for the asked date does not return it.
- **Daily refresh on a day already cached.** The repository's `save` on an entity whose
  primary key is already assigned merges it into the existing row, so `SaveWeatherDate`
  overwrites today's snapshot rather than raising a duplicate-key error.
- **No write-through.** A snapshot fetched while creating a diary is attached to the entry and
  never stored in the cache (`CreateDiary` ensures `cache == old(cache)`).
- **Whole-number temperatures.** The parser delivers a whole number such as `280` as a long,
  and the `(Double)` cast rejects it (`WholeTemperatureRejected`); only a payload whose
  temperature has a fraction or exponent is accepted.

## Model

| member | source | states |
|---|---|---|
| `Repository.FindAllByDate` | weather/src/main/java/com/example/weather/service/DiaryService.java:89-93 | the result holds exactly the stored entries filed under the date, and is no longer than the table |
| `Repository.FindAllByDateCounts` | weather/src/main/java/com/example/weather/service/DiaryService.java:89-93 | each entry of that date appears in the result as often as in the table; entries of other dates never |
| `Repository.FindAllByDateBetween` | weather/src/main/java/com/example/weather/service/DiaryService.java:95-98 | the result holds exactly the stored entries with `start <= date <= end`, both ends included |
| `Repository.FindAllByDateBetweenCounts` | weather/src/main/java/com/example/weather/service/DiaryService.java:95-98 | each entry in the range appears as often as in the table; entries outside the range never |
| `Repository.BetweenSingleDay` | weather/src/main/java/com/example/weather/service/DiaryService.java:95-98 | the range `[d, d]` returns exactly the single-date query for `d`, in the same order |
| `Repository.DeleteAllByDate` | weather/src/main/java/com/example/weather/service/DiaryService.java:106-108 | what remains is exactly the entries of other dates, and the query for the deleted date is then empty |
| `Repository.DeleteKeepsOtherDates` | weather/src/main/java/com/example/weather/service/DiaryService.java:106-108 | for every other date, its entries survive the deletion unchanged and in their order |
| `Repository.DeleteCommutesWithRange` | weather/src/main/java/com/example/weather/service/DiaryService.java:106-108 | for every range, the range query after deleting a date is the range query before it with that date's entries removed |
| `Repository.DeleteConcat` | weather/src/main/java/com/example/weather/service/DiaryService.java:106-108 | deleting a date from two tables laid end to end is deleting it from each and laying the results end to end; with the one-entry case this fixes the result, so all survivors keep their relative order |
| `Repository.DeleteAbsentDate` | weather/src/main/java/com/example/weather/service/DiaryService.java:106-108 | deleting a date with no entries leaves the table unchanged |
| `Repository.DeletePartitions` | weather/src/main/java/com/example/weather/service/DiaryService.java:106-108 | the entries of the date and the entries left after deleting it together make up the table, as a multiset |
| `Repository.FirstIndexByDate` | weather/src/main/java/com/example/weather/service/DiaryService.java:100-101 | none when no entry has the date; otherwise the position of an entry with the date before which no entry has it |
| `Repository.SetTextOfFirst` | weather/src/main/java/com/example/weather/service/DiaryService.java:100-104 | fails with NotFound exactly when no entry has the date; on success the table keeps its length and every entry keeps its weather |
| `Repository.SetTextOfFirstChangesOnlyFirst` | weather/src/main/java/com/example/weather/service/DiaryService.java:100-104 | a successful update puts the new text on the first entry of the date and leaves every other entry as it was |
| `Repository.FindAllByDateReplaceOther` | weather/src/main/java/com/example/weather/service/DiaryService.java:100-104 | replacing an entry of another date by one of another date leaves a date's query unchanged |
| `Repository.SetTextOfFirstThenRead` | weather/src/main/java/com/example/weather/service/DiaryService.java:100-104 | after a successful update the query for its date shows an entry with the new text, and every other date's query is as before |
| `Repository.FindAllByDateAppend` | weather/src/main/java/com/example/weather/service/DiaryService.java:56-59 | appending an entry adds it at the end of its own date's query and changes no other date's query |
| `Service.ParseWeather` | weather/src/main/java/com/example/weather/service/DiaryService.java:134-152 | succeeds exactly when the body is JSON, `main` is an object and `weather` is an array starting with an object; then yields the values at `main.temp`, `weather[0].main`, `weather[0].icon`; a non-JSON body is MalformedPayload |
| `Service.GetWeatherFromApi` | weather/src/main/java/com/example/weather/service/DiaryService.java:63-75 | a connection failure is NetworkFailure; success exactly when the payload has the shape, condition and icon convert to text and the temperature is a double; the snapshot is dated today and carries those three values |
| `Service.GetDateWeather` | weather/src/main/java/com/example/weather/service/DiaryService.java:77-86 | a cached date yields its stored snapshot; a missed date yields a snapshot dated today or the fetch's error |
| `Service.CacheHitIgnoresFetch` | weather/src/main/java/com/example/weather/service/DiaryService.java:77-86 | on a hit the result is the stored snapshot whatever the provider would answer, so no fetch takes place |
| `Service.CacheMissIsTodaysWeather` | weather/src/main/java/com/example/weather/service/DiaryService.java:77-82 | on a miss the result is the live fetch for today and does not depend on the date asked for |
| `Service.PayloadRoundTrip` | weather/src/main/java/com/example/weather/service/DiaryService.java:63-75 | a payload `{"main":{"temp":t},"weather":[{"main":c,"icon":i}]}` yields exactly the snapshot `(today, c, i, t)` |
| `Service.SamplePayload` | weather/src/main/java/com/example/weather/service/DiaryService.java:134-152 | the sample payload with 280.5, "Clouds", "04d" yields those three values |
| `Service.EmptyWeatherArrayFails` | weather/src/main/java/com/example/weather/service/DiaryService.java:146-147 | an empty `weather` array fails with EmptyWeatherArray, in extraction and in the fetch |
| `Service.WholeTemperatureRejected` | weather/src/main/java/com/example/weather/service/DiaryService.java:73 | a temperature that arrives as a long fails the `(Double)` cast |
| `Service.ExtraKeysIgnored` | weather/src/main/java/com/example/weather/service/DiaryService.java:144-149 | keys other than `main` and `weather` at the top of the payload do not change the outcome |
| `Service.RefreshThenHit` | weather/src/main/java/com/example/weather/service/DiaryService.java:44-49 | after a successful refresh the cache still keys every snapshot by its date, and looking up today hits the refreshed snapshot |
| `Service.CreateThenRead` | weather/src/main/java/com/example/weather/service/DiaryService.java:50-61 | after a successful creation the new entry is filed under the asked date on a hit and under today on a miss; every date's query gains it at the end exactly when it is that entry's date, so the asked date's query gains it exactly when the date was cached or is today |
| `Service.DiaryService.constructor` | weather/src/main/java/com/example/weather/service/DiaryService.java:39-42 | the service starts over the given tables, with the cache keyed by date |
| `Service.DiaryService.SaveWeatherDate` | weather/src/main/java/com/example/weather/service/DiaryService.java:44-49 | on success stores the fetched snapshot under today; on failure writes nothing; the diary table is unchanged; the cache stays keyed by date |
| `Service.DiaryService.CreateDiary` | weather/src/main/java/com/example/weather/service/DiaryService.java:50-61 | on success appends exactly one entry with the text and the resolved snapshot; on failure writes nothing; the cache is unchanged |
| `Service.DiaryService.ReadDiary` | weather/src/main/java/com/example/weather/service/DiaryService.java:89-93 | returns exactly the stored entries of the date |
| `Service.DiaryService.ReadDiaries` | weather/src/main/java/com/example/weather/service/DiaryService.java:95-98 | returns exactly the stored entries dated within the inclusive range |
| `Service.DiaryService.UpdateDiary` | weather/src/main/java/com/example/weather/service/DiaryService.java:100-104 | the table becomes the text update of its first entry for the date, or stays as it was with NotFound; the cache is unchanged |
| `Service.DiaryService.DeleteDiary` | weather/src/main/java/com/example/weather/service/DiaryService.java:106-108 | the table loses exactly the date's entries, a read of that date is then empty, the cache is unchanged |

## Left out

- `getWeatherString` (`DiaryService.java:110-132`): the HTTP request, the API key in the URL and the reading of the response stream are network I/O; the provider's answer is the `Fetched` parameter. That the error stream is read on a non-200 status is folded into "a body".
- The JSON text parser (`org.json.simple`): a foreign library; the model starts from the tree it produces, or from its failure.
- `Service.ToText`: `toString` of a condition or icon that is a double, an array or an object is not modelled; such a value yields `Unrendered`, where the source would store the library's text of it. Strings, booleans, longs and null are modelled exactly.
- Transactions, isolation levels and the cron schedule of `saveWeatherDate`: framework and concurrency behaviour. Each operation is one atomic method call; the rollback of a failed operation holds because every model operation writes only after everything that can fail. `updateDiary` and `deleteDiary` carry no annotation of their own and so run under the class-level read-only transaction (`DiaryService.java:31`); whether their writes are flushed depends on the persistence setup, which is not part of this model. The model assumes they reach the table.
- Logging and console output.
- Diary identifiers: entries carry no surrogate id; "first" is the first entry in store order and an update rewrites the entry at that position.
- Date as a day number and temperature as the bit pattern of a double: no calendar arithmetic and no floating point are modelled.
- `DiaryController.java` (HTTP routing and binding only) and `JDBCMemoRepository.java` (an unrelated memo table) are not part of this model.
