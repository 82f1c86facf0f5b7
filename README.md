# WeatherApp core, modelled in Dafny

This project models the core of the WeatherApp Android assignment. A user types a location
and presses "Look Up Sync" or "Look Up Async". The `MainActivity` first looks in its
`CacheImpl`, which keeps each record for 10 seconds (the activity only ever caches a
name it does not hold, so no older timer cuts a record's life short; see
`Cache.ReleasedLivesFullDelay`). On a miss it asks the retained
`WeatherOpsImpl`. That object talks to a synchronous or an asynchronous bound service. Both
services call `WeatherUtils.getResults`, which sends an HTTP request to openweathermap and
parses the JSON answer with `WeatherJSONParser`.

The modules follow the program's packages:

- `Wrappers` (`wrappers.dfy`): `Option` for Java's null, and `Result` for an exception that escapes.
- `WeatherRecords` (`weather_data.dfy`): the `WeatherData` record that the services return.
  Numbers are kept as their literal text, because nothing computes with them.
- `Cache` (`cache.dfy`): `CacheImpl` is a class over its map, its pending timer tasks and a
  clock. `Elapse(ms)` runs the timer tasks that fall due. Pure functions over `CacheState`
  (`Released`, `Deleted`, `Elapsed`, `Acquired`) specify each method. Lemmas show that the
  consistency invariant is preserved and that eviction goes by key.
- `WeatherJsonParser` (`json_parser.dfy`): each `while (reader.hasNext())` loop is a method
  proved equal to a left fold over the members of a pre-tokenised JSON value. Lemmas state
  what the folds promise.
- `WeatherUtils` (`weather_utils.dfy`): the request URL and `getResults`. The HTTP exchange
  is a function parameter.
- `Operations` (`weather_ops.dfy`): `WeatherOpsImpl` as a class.
  - A service connection is a flag that says whether its interface is non-null.
  - Pending AsyncTasks, pending one-way calls and posted Runnables are queues.
  - Each call of `mActivity.get().displayResults(...)` is returned as a `Display` value. The
    value is addressed to the activity that the weak reference names at that moment.
- `Activities` (`main_activity.dfy`):
  - `MainActivity` and a stand-in for `RetainedFragmentManager`;
  - `Session`, the Android runtime that launches and rotates the activity and delivers
    callbacks and `Display` values to the activity on screen.

Behaviour of the code worth knowing, which the model follows:

- **Eviction goes by key.** A record's timer deletes whatever record is stored under that
  name when the timer fires. An older timer therefore evicts a newer record early
  (`Cache.LateTimerEvictsNewer`). Nothing cancels a scheduled deletion. The activity never
  triggers this, because it releases a record only when its name is absent
  (`Activities.DisplayKeepsCacheConsistent` keeps `Cache.OneTimerPerName`).
- **A `"weather"` member that is not an array makes the whole parse throw.** The parser
  leaves that value unread, so the next `nextName()` throws an IllegalStateException. That
  exception escapes `getResults` (`WeatherJsonParser.WeatherMemberMustBeArray`). The member
  is not just ignored.
- **`sendResults` uses the latest search parameter.** Its error text uses
  `weatherSearchParam` as it is when the Runnable runs, not the location of the answered
  request. A synchronous task uses its own location.
- **Each `onCreate` installs a new, empty cache.** After a rotation, the only record in the
  new cache is the one that the redisplay of `mResults` puts there.
- **`displayResults` with a non-null empty list shows a toast.** With a null error message,
  the toast text is null. This happens when `onConfigurationChange` redisplays an empty
  `mResults`.

## Model

| member | source | states |
|---|---|---|
| Cache.CacheImpl.constructor | assignments/WeatherApp/app/src/main/java/vandy/mooc/cache/CacheImpl.java:18-20 | A new cache holds no record and no pending deletion, and it is consistent |
| Cache.CacheImpl.Release | assignments/WeatherApp/app/src/main/java/vandy/mooc/cache/CacheImpl.java:22-28 | The record is stored under its name and overwrites any earlier record (the latest release wins). Exactly one deletion of that record is scheduled, 10000 ms ahead, and earlier ones stay scheduled. Other names keep their entries, and consistency is preserved |
| Cache.CacheImpl.Acquire | assignments/WeatherApp/app/src/main/java/vandy/mooc/cache/CacheImpl.java:30-37 | Returns a record if and only if the name is stored. That record is the one stored, and its name is the one asked for. Null otherwise. The cache is not modified |
| Cache.CacheImpl.DeleteFromCache | assignments/WeatherApp/app/src/main/java/vandy/mooc/cache/CacheImpl.java:39-45 | Removes the entry under the record's name, whatever record is stored there. A missing name is a no-op. Only the map changes |
| Cache.CacheImpl.AutoDestroyFromCache | assignments/WeatherApp/app/src/main/java/vandy/mooc/cache/CacheImpl.java:47-50 | Appends one task that deletes this record when 10000 ms have passed |
| Cache.CacheImpl.Elapse | assignments/WeatherApp/app/src/main/java/vandy/mooc/cache/CacheImpl.java:52-64 | Each task that falls due runs deleteFromCache on its record, in scheduling order. The new state is `Elapsed` of the old one, consistency is kept, and after 10000 ms or more the cache is empty |
| Cache.DueContains | assignments/WeatherApp/app/src/main/java/vandy/mooc/cache/CacheImpl.java:47-49 | A scheduled task has run if and only if its time has come. It is still pending if and only if its time has not come |
| Cache.ReleasedConsistent | assignments/WeatherApp/app/src/main/java/vandy/mooc/cache/CacheImpl.java:22-28 | release preserves the invariant: each key holds a record of that name, each stored record has a pending deletion, and every deletion is due within 10000 ms |
| Cache.DeletedConsistent | assignments/WeatherApp/app/src/main/java/vandy/mooc/cache/CacheImpl.java:39-45 | deleteFromCache preserves the invariant |
| Cache.ElapsedConsistent | assignments/WeatherApp/app/src/main/java/vandy/mooc/cache/CacheImpl.java:52-64 | Letting timers fire preserves the invariant |
| Cache.EntriesExpire | assignments/WeatherApp/app/src/main/java/vandy/mooc/cache/CacheImpl.java:47-49 | Every record has left the cache, and every task has run, 10000 ms after the last release |
| Cache.LateTimerEvictsNewer | assignments/WeatherApp/app/src/main/java/vandy/mooc/cache/CacheImpl.java:40-45 | A record re-released `gap` ms after an earlier one of the same name can be acquired at first. It is gone when the first timer fires, only 10000 - gap ms later |
| Cache.ReleasedAbsentOneTimer | assignments/WeatherApp/app/src/main/java/vandy/mooc/cache/CacheImpl.java:22-28 | Releasing a name the cache does not hold keeps one pending deletion per name, each for the record stored under that name |
| Cache.ElapsedOneTimer | assignments/WeatherApp/app/src/main/java/vandy/mooc/cache/CacheImpl.java:52-64 | Firing due timers keeps one pending deletion per name |
| Cache.RecordLivesUntilItsTimer | assignments/WeatherApp/app/src/main/java/vandy/mooc/cache/CacheImpl.java:40-49 | With one pending deletion per name, a record is still acquirable at any time before its own deletion falls due |
| Cache.ReleasedLivesFullDelay | assignments/WeatherApp/app/src/main/java/vandy/mooc/cache/CacheImpl.java:22-49 | A record released under a name the cache does not hold is acquirable for every elapsed time shorter than 10000 ms |
| Cache.DeleteIdempotent | assignments/WeatherApp/app/src/main/java/vandy/mooc/cache/CacheImpl.java:41-43 | Deleting twice equals deleting once. The deleted name is absent afterwards, and every other name keeps its entry |
| WeatherJsonParser.ReadMembersSucceeds | assignments/WeatherApp/app/src/main/java/vandy/mooc/jsonweather/WeatherJSONParser.java:131-150 | Reading a nested object succeeds if and only if no recognised member has a value of the wrong kind |
| WeatherJsonParser.ReadMembersFailsAtFirst | assignments/WeatherApp/app/src/main/java/vandy/mooc/jsonweather/WeatherJSONParser.java:131-150 | A failing read reports the error of the first recognised member whose value has the wrong kind |
| WeatherJsonParser.ReadMembersLastWins | assignments/WeatherApp/app/src/main/java/vandy/mooc/jsonweather/WeatherJSONParser.java:238-261 | Each recognised field holds the value of the last member with its name. A field whose name does not occur keeps its earlier value |
| WeatherJsonParser.ReadMembersSkipsUnknown | assignments/WeatherApp/app/src/main/java/vandy/mooc/jsonweather/WeatherJSONParser.java:146-148 | Inserting an unrecognised member anywhere leaves the result unchanged |
| WeatherJsonParser.ReadObject | assignments/WeatherApp/app/src/main/java/vandy/mooc/jsonweather/WeatherJSONParser.java:129-153 | The beginObject / hasNext / nextName / switch / endObject loop computes exactly the member fold. A value that is not an object throws |
| WeatherJsonParser.NumberFieldIsLast | assignments/WeatherApp/app/src/main/java/vandy/mooc/jsonweather/WeatherJSONParser.java:241-256 | A numeric field ends up with the number of the last member of its name, or 0 when there is none |
| WeatherJsonParser.StringFieldIsLast | assignments/WeatherApp/app/src/main/java/vandy/mooc/jsonweather/WeatherJSONParser.java:134-145 | A String field ends up with the text of the last member of its name, or null when there is none |
| WeatherJsonParser.MainFromLastMembers | assignments/WeatherApp/app/src/main/java/vandy/mooc/jsonweather/WeatherJSONParser.java:232-267 | A parsed Main has temp, temp_min, temp_max and humidity, each from the last member of that name |
| WeatherJsonParser.SysFromLastMembers | assignments/WeatherApp/app/src/main/java/vandy/mooc/jsonweather/WeatherJSONParser.java:195-226 | A parsed Sys has sunrise, sunset and country, each from the last member of that name |
| WeatherJsonParser.WindFromLastMembers | assignments/WeatherApp/app/src/main/java/vandy/mooc/jsonweather/WeatherJSONParser.java:162-189 | A parsed Wind has deg and speed, each from the last member of that name |
| WeatherJsonParser.WeatherFromLastMembers | assignments/WeatherApp/app/src/main/java/vandy/mooc/jsonweather/WeatherJSONParser.java:125-156 | A parsed Weather has main, description and icon, each from the last member of that name |
| WeatherJsonParser.ParseMain | assignments/WeatherApp/app/src/main/java/vandy/mooc/jsonweather/WeatherJSONParser.java:232-267 | parseMain computes MainSpec, including its failures |
| WeatherJsonParser.ParseSys | assignments/WeatherApp/app/src/main/java/vandy/mooc/jsonweather/WeatherJSONParser.java:195-226 | parseSys computes SysSpec, including its failures |
| WeatherJsonParser.ParseWind | assignments/WeatherApp/app/src/main/java/vandy/mooc/jsonweather/WeatherJSONParser.java:162-189 | parseWind computes WindSpec, including its failures |
| WeatherJsonParser.ParseWeather | assignments/WeatherApp/app/src/main/java/vandy/mooc/jsonweather/WeatherJSONParser.java:125-156 | parseWeather computes WeatherSpec, including its failures |
| WeatherJsonParser.WeathersInOrder | assignments/WeatherApp/app/src/main/java/vandy/mooc/jsonweather/WeatherJSONParser.java:111-116 | The list has one Weather per array element, in order. It is produced if and only if every element parses |
| WeatherJsonParser.ParseWeatherArray | assignments/WeatherApp/app/src/main/java/vandy/mooc/jsonweather/WeatherJSONParser.java:103-120 | The array loop computes exactly WeatherArraySpec. A value that is not an array throws |
| WeatherJsonParser.MessagePartsAreLast | assignments/WeatherApp/app/src/main/java/vandy/mooc/jsonweather/WeatherJSONParser.java:54-89 | Each of name, main, sys, wind and weather in the assembled record comes from the last member of that name. It is unset when the name does not occur |
| WeatherJsonParser.MessageSkipsUnknown | assignments/WeatherApp/app/src/main/java/vandy/mooc/jsonweather/WeatherJSONParser.java:85-88 | Inserting an unrecognised top-level member anywhere leaves the result unchanged |
| WeatherJsonParser.WeatherMemberMustBeArray | assignments/WeatherApp/app/src/main/java/vandy/mooc/jsonweather/WeatherJSONParser.java:78-84 | If the message parses, every "weather" member holds an array. Any other value makes the parse throw |
| WeatherJsonParser.MessageShape | assignments/WeatherApp/app/src/main/java/vandy/mooc/jsonweather/WeatherJSONParser.java:44-92 | An object with no members gives null, not an empty list. Otherwise the list has at most one record. It has one exactly when main, sys and wind all occur; weather and name are not required |
| WeatherJsonParser.ParseWeatherMessage | assignments/WeatherApp/app/src/main/java/vandy/mooc/jsonweather/WeatherJSONParser.java:41-98 | parseWeatherMessage computes MessageSpec. A non-null list has at most one record, and that record has main, sys and wind |
| WeatherUtils.RequestUrl | assignments/WeatherApp/app/src/main/java/vandy/mooc/utils/WeatherUtils.java:35-56 | The URL is the fixed openweathermap prefix followed by the raw location, with no encoding |
| WeatherUtils.RequestUrlInjective | assignments/WeatherApp/app/src/main/java/vandy/mooc/utils/WeatherUtils.java:54-56 | Different locations give different URLs |
| WeatherUtils.GetResults | assignments/WeatherApp/app/src/main/java/vandy/mooc/utils/WeatherUtils.java:43-96 | A parser exception escapes. An IOException, a null parse or an empty parse gives null. A non-empty parse gives a non-null result, and a non-null result is never empty: it has the parsed list's length (one) and order. Each WeatherData copies name, wind speed, wind deg, temp, humidity, sunrise and sunset from its JsonWeather |
| Operations.NoWeatherFoundNamesLocation | assignments/WeatherApp/app/src/main/java/vandy/mooc/operations/WeatherOpsImpl.java:278-281 | The error text "no weather for … found" determines the location it was built from |
| Operations.WeatherOpsImpl.constructor | assignments/WeatherApp/app/src/main/java/vandy/mooc/operations/WeatherOpsImpl.java:127-136 | A new object names its activity, has both interfaces null, no results and no search parameter, and nothing in flight |
| Operations.WeatherOpsImpl.OnConfigurationChange | assignments/WeatherApp/app/src/main/java/vandy/mooc/operations/WeatherOpsImpl.java:143-150 | The weak reference now names the new activity. mResults is redisplayed on it, with a null error, if and only if mResults is non-null |
| Operations.WeatherOpsImpl.UpdateResultsDisplay | assignments/WeatherApp/app/src/main/java/vandy/mooc/operations/WeatherOpsImpl.java:155-160 | Displays mResults with a null error if and only if it is non-null |
| Operations.WeatherOpsImpl.BindService | assignments/WeatherApp/app/src/main/java/vandy/mooc/operations/WeatherOpsImpl.java:165-185 | A binding is requested for a connection if and only if its interface is null, each at most once, the synchronous one first. Nothing is requested when both are bound |
| Operations.WeatherOpsImpl.UnbindService | assignments/WeatherApp/app/src/main/java/vandy/mooc/operations/WeatherOpsImpl.java:190-209 | Nothing happens while the activity is changing configurations. Otherwise a connection is unbound if and only if its interface is non-null, the asynchronous one first |
| Operations.WeatherOpsImpl.GetWeatherAsync | assignments/WeatherApp/app/src/main/java/vandy/mooc/operations/WeatherOpsImpl.java:215-238 | The location always becomes the search parameter. One request is sent only when the asynchronous interface is non-null |
| Operations.WeatherOpsImpl.GetWeatherSync | assignments/WeatherApp/app/src/main/java/vandy/mooc/operations/WeatherOpsImpl.java:244-289 | One task with this location starts only when the synchronous interface is non-null. Otherwise nothing changes |
| Operations.WeatherOpsImpl.CompleteSyncTask | assignments/WeatherApp/app/src/main/java/vandy/mooc/operations/WeatherOpsImpl.java:263-282 | The finished task leaves the pending set. mResults becomes the returned list, which is null after a RemoteException. It is displayed with "no weather for w found", where w is that task's own location |
| Operations.WeatherOpsImpl.AnswerAsyncCall | assignments/WeatherApp/app/src/main/java/vandy/mooc/operations/WeatherOpsImpl.java:79-96 | The answered call leaves the pending set, and its possibly-null list is posted to the handler |
| Operations.WeatherOpsImpl.SendResults | assignments/WeatherApp/app/src/main/java/vandy/mooc/operations/WeatherOpsImpl.java:79-96 | Posts exactly one Runnable carrying the list |
| Operations.WeatherOpsImpl.SendError | assignments/WeatherApp/app/src/main/java/vandy/mooc/operations/WeatherOpsImpl.java:104-119 | Posts exactly one Runnable carrying the reason |
| Operations.WeatherOpsImpl.RunHandler | assignments/WeatherApp/app/src/main/java/vandy/mooc/operations/WeatherOpsImpl.java:88-117 | Runs the oldest Runnable. Posted results become mResults and are displayed with the error text built from the search parameter current at run time. A posted error is displayed with a null list and leaves mResults unchanged |
| Operations.WeatherOpsImpl.OnServiceConnected | assignments/WeatherApp/app/src/main/java/vandy/mooc/operations/WeatherOpsImpl.java:174-184 | That connection's interface becomes non-null; the other is unchanged |
| Operations.WeatherOpsImpl.OnServiceDisconnected | assignments/WeatherApp/app/src/main/java/vandy/mooc/operations/WeatherOpsImpl.java:200-207 | That connection's interface becomes null; the other is unchanged |
| Activities.CachedAfterDisplay | assignments/WeatherApp/app/src/main/java/vandy/mooc/activities/MainActivity.java:218-224 | A null or empty list leaves the cache unchanged. Otherwise only the first record is offered. An existing entry for its name is kept, with no new timer. Without one, the record is stored with exactly one new timer appended, the earlier timers and the clock unchanged. Other names are untouched, and afterwards the first record's name is always cached |
| Activities.DisplayKeepsCacheConsistent | assignments/WeatherApp/app/src/main/java/vandy/mooc/activities/MainActivity.java:222-224 | Displaying results keeps the cache invariant, and keeps one pending deletion per name, because only an absent name is released |
| Activities.RetainedFragmentManager.constructor | assignments/WeatherApp/app/src/main/java/vandy/mooc/activities/MainActivity.java:34-36 | A new session has no retained fragment and nothing stored |
| Activities.RetainedFragmentManager.FirstTimeIn | assignments/WeatherApp/app/src/main/java/vandy/mooc/activities/MainActivity.java:117 | True exactly once per session, on the first call |
| Activities.RetainedFragmentManager.Put | assignments/WeatherApp/app/src/main/java/vandy/mooc/activities/MainActivity.java:127-128 | Stores the object under the key, overwriting |
| Activities.RetainedFragmentManager.Get | assignments/WeatherApp/app/src/main/java/vandy/mooc/activities/MainActivity.java:144-145 | Returns the stored object, or null when the key is absent |
| Activities.MainActivity.constructor | assignments/WeatherApp/app/src/main/java/vandy/mooc/activities/MainActivity.java:29-59 | A new activity has no cache and no operations object yet, and an empty adapter |
| Activities.MainActivity.OnCreate | assignments/WeatherApp/app/src/main/java/vandy/mooc/activities/MainActivity.java:69-95 | The adapter is emptied and a new, empty cache is installed, so cached records do not survive recreation. Then the retained-state decision runs, as stated for HandleConfigurationChanges |
| Activities.MainActivity.HandleConfigurationChanges | assignments/WeatherApp/app/src/main/java/vandy/mooc/activities/MainActivity.java:114-169 | First time in, or stored object missing: a new ops object is stored under "WEATHER_OPS_STATE" and both bindings are requested. Stored object present: it now names this activity, keeps all its other state and is not rebound, and its results are redisplayed here |
| Activities.MainActivity.CreateOps | assignments/WeatherApp/app/src/main/java/vandy/mooc/activities/MainActivity.java:124-133 | The new ops object names this activity, is stored under the key, and has both bindings requested |
| Activities.MainActivity.OnDestroy | assignments/WeatherApp/app/src/main/java/vandy/mooc/activities/MainActivity.java:102-109 | Unbinds nothing while changing configurations. Otherwise unbinds exactly the bound connections |
| Activities.MainActivity.DisplayResults | assignments/WeatherApp/app/src/main/java/vandy/mooc/activities/MainActivity.java:216-230 | A null or empty list shows the error text and changes neither the cache nor the adapter. Otherwise the cache becomes CachedAfterDisplay and the adapter holds exactly the list, in order |
| Activities.MainActivity.GetResultsFromCache | assignments/WeatherApp/app/src/main/java/vandy/mooc/activities/MainActivity.java:232-242 | A hit happens if and only if the location is cached. On a hit the adapter holds exactly the cached record. The cache is left unchanged either way, and a miss changes nothing |
| Activities.MainActivity.ResetDisplay | assignments/WeatherApp/app/src/main/java/vandy/mooc/activities/MainActivity.java:247-252 | The adapter is emptied |
| Activities.MainActivity.ExpandWeatherSync | assignments/WeatherApp/app/src/main/java/vandy/mooc/activities/MainActivity.java:175-190 | On a cache hit, the adapter shows exactly the cached record and no synchronous lookup starts. On a miss, the adapter is empty and the lookup is handed the same location |
| Activities.MainActivity.ExpandWeatherAsync | assignments/WeatherApp/app/src/main/java/vandy/mooc/activities/MainActivity.java:196-209 | On a cache hit, the adapter shows exactly the cached record and the search parameter is unchanged. On a miss, the adapter is empty and the asynchronous lookup is handed the same location |
| Activities.Session.Launch | assignments/WeatherApp/app/src/main/java/vandy/mooc/activities/MainActivity.java:117-133 | The first launch creates, stores and binds a new ops object for the first activity |
| Activities.Session.Rotate | assignments/WeatherApp/app/src/main/java/vandy/mooc/activities/MainActivity.java:164-167 | A rotation unbinds nothing and binds nothing. The same ops object names the new activity and keeps its state. Its results reappear through a new cache; a non-null empty mResults gives the new activity exactly one toast with a null text, otherwise it shows no toast |
| Activities.Session.SyncTaskCompletes | assignments/WeatherApp/app/src/main/java/vandy/mooc/operations/WeatherOpsImpl.java:276-281 | Task i, and only it, leaves the pending tasks. The returned list becomes mResults. The activity on screen shows the list with no toast, or keeps its adapter and shows a toast naming the task's location |
| Activities.Session.HandlerRuns | assignments/WeatherApp/app/src/main/java/vandy/mooc/operations/WeatherOpsImpl.java:88-117 | The oldest posted Runnable reaches the activity on screen; an empty queue changes nothing. A non-empty list replaces the adapter with no toast; a null or empty list keeps the adapter and toasts the text built from the current search parameter. An error leaves mResults, the adapter and the cache as they were and toasts the reason |
| Activities.Session.Elapse | assignments/WeatherApp/app/src/main/java/vandy/mooc/cache/CacheImpl.java:62-64 | Timer tasks of the current activity's cache fire as in CacheImpl.Elapse. Every record whose deletion is not yet due is still there, and after 10000 ms nothing is |

## Left out

- Threads: `java.util.Timer`, `Handler.post`, `AsyncTask` and the Binder thread pool. Each
  is an explicit event that the caller applies one at a time: `Elapse`, `RunHandler`,
  `CompleteSyncTask`, `AnswerAsyncCall`. Interleavings inside one method call are not
  modelled.
- The AIDL stubs and the two services. The synchronous service turns a null from
  getResults into an empty list. The asynchronous one forwards a possible null. Both are
  assumptions on the `reply` argument of `CompleteSyncTask` and `AnswerAsyncCall`.
- A `RemoteException` in `getCurrentWeather` for an asynchronous call. The call stays in
  `asyncCalls`; an environment that never answers it has the same visible effect: nothing is
  delivered.
- GenericServiceConnection is not part of this model. Its interface is a flag that
  `OnServiceConnected` and `OnServiceDisconnected` set.
- RetainedFragmentManager is not part of this model. `Activities.RetainedFragmentManager`
  is a stand-in: a flag plus a map from key to operations object.
- The bind and unbind calls on the application context are returned as lists of services.
  The framework's reaction to them is not modelled.
- HTTP I/O in getResults (the connection, streams, status codes). The `fetch` parameter
  yields either an IOException or a tokenised JSON document.
- The internals of android.util.JsonReader, and two of its conversions:
  - nextDouble, nextLong and nextInt all accept a quoted number; the model rejects a string
    where a number is read, with `ExpectedNumber`.
  - nextInt and nextLong throw NumberFormatException on a number that is not whole or does
    not fit (humidity is read with nextInt, sunrise and sunset with nextLong); that
    exception is unchecked and escapes getResults, while the model accepts any number,
    since numbers are opaque literals.
  A string, boolean, null, array or object where a number is read is an error in the model.
- Which exception escapes a failed parse. Every parse method ends in a `finally` block that
  calls endObject or endArray, and in the middle of an object that call throws again and
  replaces the first exception. The model's `ParseError` names the first read that went
  wrong; it only labels the failure.
- Double and long arithmetic. Numbers are opaque literals and are never computed with.
- The JSON member names. They are constants in JsonWeather.java, Main.java, Sys.java,
  Wind.java and Weather.java, which are not part of this model. The openweathermap names are
  used: name, main, sys, wind, weather, temp, temp_min, temp_max, humidity, sunrise, sunset,
  country, deg, speed, description, icon.
- Logging, the rendering of toasts (only their texts are recorded), keyboard hiding,
  ListView rendering and LifecycleLoggingActivity.
- Weak-reference clearing. The reference always names the activity last registered. The
  NullPointerException that a cleared reference would cause is not modelled.
- Reading the location from the EditText. `ExpandWeatherSync` and `ExpandWeatherAsync` take
  it as a parameter.
