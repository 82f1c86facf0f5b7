/** The screen (vandy.mooc.activities.MainActivity) and the store that keeps the operations
    object alive across activity recreation. The ListView adapter is the list of records it
    holds, and the toasts shown are logged in order. */
module Activities {
  import opened Wrappers
  import opened WeatherRecords
  import opened Cache
  import opened Operations

  /** The key the operations object is retained under. */
  const WeatherOpsKey := "WEATHER_OPS_STATE"

  /** Whether displayResults takes its list branch: the list is non-null and non-empty. */
  predicate HasResults(results: Option<seq<WeatherData>>) {
    results.Some? && |results.value| > 0
  }

  /** The cache after displayResults: only the first record is offered, and only when
      nothing is stored under its name yet. */
  function CachedAfterDisplay(s: CacheState, results: Option<seq<WeatherData>>): (s': CacheState)
    ensures !HasResults(results) ==> s' == s
    ensures HasResults(results) ==> Acquired(s', results.value[0].name).Some?
    ensures HasResults(results) && Acquired(s, results.value[0].name).Some? ==> s' == s
    ensures HasResults(results) && Acquired(s, results.value[0].name).None? ==>
      Acquired(s', results.value[0].name) == Some(results.value[0])
      && |s'.timers| == |s.timers| + 1
      && s'.timers[|s.timers|] == AutoDestroyTask(s.clock + AutoDestroyDelay, results.value[0])
      && s'.timers[..|s.timers|] == s.timers && s'.clock == s.clock
    ensures forall k :: HasResults(results) && k != results.value[0].name ==> Acquired(s', k) == Acquired(s, k)
  {
    if HasResults(results) && Acquired(s, results.value[0].name).None? then
      Released(s, results.value[0])
    else
      s
  }

  /** Offering a list to the cache keeps it consistent, and, because only a name the cache
      does not hold is released, it keeps one pending deletion per name: the cache of an
      activity never suffers a late timer, and each record lives its full delay. */
  lemma DisplayKeepsCacheConsistent(s: CacheState, results: Option<seq<WeatherData>>)
    requires Consistent(s)
    ensures Consistent(CachedAfterDisplay(s, results))
    ensures OneTimerPerName(s) ==> OneTimerPerName(CachedAfterDisplay(s, results))
  {
    if HasResults(results) && Acquired(s, results.value[0].name).None? {
      ReleasedConsistent(s, results.value[0]);
      if OneTimerPerName(s) {
        ReleasedAbsentOneTimer(s, results.value[0]);
      }
    }
  }

  /** The RetainedFragmentManager: a flag that is set by the first firstTimeIn() of a
      session, and the objects put under string keys. */
  class RetainedFragmentManager {
    var retained: bool
    var data: map<string, WeatherOpsImpl>

    /** A new session: no retained fragment, nothing stored. */
    constructor()
      ensures !retained && data == map[]
    {
      retained := false;
      data := map[];
    }

    /** True exactly once per session: the first call finds no retained fragment and
        creates it. */
    method FirstTimeIn() returns (first: bool)
      modifies this`retained
      ensures first <==> !old(retained)
      ensures retained
    {
      first := !retained;
      retained := true;
    }

    method Put(key: string, value: WeatherOpsImpl)
      modifies this`data
      ensures data == old(data)[key := value]
    {
      data := data[key := value];
    }

    /** The object stored under `key`, or null. */
    method Get(key: string) returns (value: Option<WeatherOpsImpl>)
      ensures value.Some? <==> key in data
      ensures value.Some? ==> value.value == data[key]
    {
      if key in data {
        value := Some(data[key]);
      } else {
        value := None;
      }
    }
  }

  class MainActivity {
    /** The identity the operations object's weak reference uses for this instance. */
    const ref: ActivityRef
    var cache: CacheImpl?
    var ops: WeatherOpsImpl?
    /** The records the adapter holds, in display order. */
    var adapter: seq<WeatherData>
    /** The text of every toast shown, in order (a null text is None). */
    var toasts: seq<Option<string>>
    /** isChangingConfigurations(): set by the runtime before a destroy for recreation. */
    var changingConfigurations: bool

    ghost predicate Valid()
      reads this, cache
    {
      cache != null && ops != null && cache.Valid() && OneTimerPerName(cache.State())
    }

    constructor(ref: ActivityRef)
      ensures this.ref == ref
      ensures cache == null && ops == null
      ensures adapter == [] && toasts == [] && !changingConfigurations
    {
      this.ref := ref;
      cache, ops := null, null;
      adapter, toasts := [], [];
      changingConfigurations := false;
    }

    /** onCreate: an empty adapter, a new empty cache, then the retained-state decision.
        A retained operations object that already holds results displays them at once,
        so the new cache is primed with their first record. */
    method OnCreate(store: RetainedFragmentManager) returns (bindRequests: seq<Service>)
      modifies this, store, store.data.Values
      ensures Valid()
      ensures fresh(cache)
      ensures changingConfigurations == old(changingConfigurations)
      ensures toasts == old(toasts) + (if !old(store.retained) || WeatherOpsKey !in old(store.data) then []
        else if old(store.data[WeatherOpsKey].results).Some? && !HasResults(old(store.data[WeatherOpsKey].results)) then [None]
        else [])
      ensures !old(store.retained) || WeatherOpsKey !in old(store.data) ==>
        && fresh(ops) && NewOpsState(ops, ref)
        && store.data == old(store.data)[WeatherOpsKey := ops]
        && bindRequests == [SyncService, AsyncService]
        && adapter == [] && cache.State() == CacheState(map[], [], 0)
      ensures old(store.retained) && WeatherOpsKey in old(store.data) ==>
        && var o := old(store.data[WeatherOpsKey]);
        && ops == o
        && ops.activity == ref
        && Kept(o, old(o.syncInterface), old(o.asyncInterface), old(o.results),
             old(o.searchParam), old(o.syncTasks), old(o.asyncCalls), old(o.handlerQueue))
        && store.data == old(store.data)
        && bindRequests == []
        && adapter == (if HasResults(ops.results) then ops.results.value else [])
        && cache.State() == CachedAfterDisplay(CacheState(map[], [], 0), ops.results)
      ensures store.retained
    {
      adapter := [];
      cache := new CacheImpl();
      bindRequests := HandleConfigurationChanges(store);
    }

    /** The three cases: first time in, stored object found, stored object missing. */
    method HandleConfigurationChanges(store: RetainedFragmentManager) returns (bindRequests: seq<Service>)
      requires cache != null && cache.Valid() && OneTimerPerName(cache.State())
      modifies this`ops, this`adapter, this`toasts, cache, store, store.data.Values
      ensures Valid()
      ensures toasts == old(toasts) + (if !old(store.retained) || WeatherOpsKey !in old(store.data) then []
        else if old(store.data[WeatherOpsKey].results).Some? && !HasResults(old(store.data[WeatherOpsKey].results)) then [None]
        else [])
      ensures !old(store.retained) || WeatherOpsKey !in old(store.data) ==>
        && fresh(ops) && NewOpsState(ops, ref)
        && store.data == old(store.data)[WeatherOpsKey := ops]
        && bindRequests == [SyncService, AsyncService]
        && adapter == old(adapter) && cache.State() == old(cache.State())
      ensures old(store.retained) && WeatherOpsKey in old(store.data) ==>
        && var o := old(store.data[WeatherOpsKey]);
        && ops == o
        && ops.activity == ref
        && Kept(o, old(o.syncInterface), old(o.asyncInterface), old(o.results),
             old(o.searchParam), old(o.syncTasks), old(o.asyncCalls), old(o.handlerQueue))
        && store.data == old(store.data)
        && bindRequests == []
        && adapter == (if HasResults(ops.results) then ops.results.value else old(adapter))
        && cache.State() == CachedAfterDisplay(old(cache.State()), ops.results)
      ensures store.retained
    {
      var first := store.FirstTimeIn();
      if first {
        bindRequests := CreateOps(store);
      } else {
        var stored := store.Get(WeatherOpsKey);
        if stored.None? {
          bindRequests := CreateOps(store);
        } else {
          ops := stored.value;
          var d := ops.OnConfigurationChange(ref);
          if d.Some? {
            DisplayResults(d.value.results, d.value.errorMessage);
          }
          bindRequests := [];
        }
      }
    }

    /** A new operations object for this activity, stored under the key and bound; the
        interfaces of a new object are null, so both bindings are requested. */
    method CreateOps(store: RetainedFragmentManager) returns (bindRequests: seq<Service>)
      requires cache != null && cache.Valid() && OneTimerPerName(cache.State())
      modifies this`ops, store`data
      ensures Valid()
      ensures fresh(ops) && NewOpsState(ops, ref)
      ensures store.data == old(store.data)[WeatherOpsKey := ops]
      ensures bindRequests == [SyncService, AsyncService]
    {
      ops := new WeatherOpsImpl(ref);
      store.Put(WeatherOpsKey, ops);
      bindRequests := ops.BindService();
      assert SyncService in bindRequests && AsyncService in bindRequests;
    }

    /** onDestroy: asks the operations object to unbind; it does so only when the
        activity is not being recreated. */
    method OnDestroy() returns (unbound: seq<Service>)
      requires Valid()
      ensures changingConfigurations ==> unbound == []
      ensures !changingConfigurations ==> forall s :: s in unbound <==> ops.Connected(s)
      ensures Distinct(unbound)
    {
      unbound := ops.UnbindService(changingConfigurations);
    }

    /** displayResults: a null or empty list only shows the error text; otherwise the
        first record is cached when its name is not cached yet, and the adapter then holds
        exactly the list. */
    method DisplayResults(results: Option<seq<WeatherData>>, errorMessage: Option<string>)
      requires Valid()
      modifies this`adapter, this`toasts, cache
      ensures Valid()
      ensures cache.State() == CachedAfterDisplay(old(cache.State()), results)
      ensures !HasResults(results) ==> toasts == old(toasts) + [errorMessage] && adapter == old(adapter)
      ensures HasResults(results) ==> toasts == old(toasts) && adapter == results.value
    {
      DisplayKeepsCacheConsistent(cache.State(), results);
      if !HasResults(results) {
        toasts := toasts + [errorMessage];
      } else {
        var list := results.value;
        var cached := cache.Acquire(list[0].name);
        if cached.None? {
          cache.Release(list[0]);
        }
        adapter := list;
      }
    }

    /** getResultsFromCache: on a hit the cached record alone is displayed (with a null
        error text) and the cache is left as it was; on a miss nothing changes. */
    method GetResultsFromCache(weather: string) returns (hit: bool)
      requires Valid()
      modifies this`adapter, this`toasts, cache
      ensures Valid()
      ensures hit <==> Some(weather) in old(cache.weatherMap)
      ensures cache.State() == old(cache.State())
      ensures toasts == old(toasts)
      ensures hit ==> adapter == [old(cache.weatherMap)[Some(weather)]]
      ensures !hit ==> adapter == old(adapter)
    {
      var weatherData := cache.Acquire(Some(weather));
      if weatherData.Some? {
        DisplayResults(Some([weatherData.value]), None);
        hit := true;
      } else {
        hit := false;
      }
    }

    /** resetDisplay: the adapter is emptied. */
    method ResetDisplay()
      modifies this`adapter
      ensures adapter == []
    {
      adapter := [];
    }

    /** The "Look Up Sync" button: the display is reset, and the synchronous lookup is
        started with the same location only when the cache has no record for it. */
    method ExpandWeatherSync(weather: string)
      requires Valid()
      modifies this`adapter, this`toasts, cache, ops`syncTasks
      ensures Valid()
      ensures cache.State() == old(cache.State()) && toasts == old(toasts)
      ensures Some(weather) in old(cache.weatherMap) ==>
        adapter == [old(cache.weatherMap)[Some(weather)]] && ops.syncTasks == old(ops.syncTasks)
      ensures Some(weather) !in old(cache.weatherMap) ==>
        adapter == [] && ops.syncTasks == old(ops.syncTasks) + (if ops.syncInterface then [weather] else [])
    {
      ResetDisplay();
      var hit := GetResultsFromCache(weather);
      if !hit {
        ops.GetWeatherSync(weather);
      }
    }

    /** The "Look Up Async" button: as the synchronous one, with the asynchronous lookup. */
    method ExpandWeatherAsync(weather: string)
      requires Valid()
      modifies this`adapter, this`toasts, cache, ops`searchParam, ops`asyncCalls
      ensures Valid()
      ensures cache.State() == old(cache.State()) && toasts == old(toasts)
      ensures Some(weather) in old(cache.weatherMap) ==>
        && adapter == [old(cache.weatherMap)[Some(weather)]]
        && ops.searchParam == old(ops.searchParam) && ops.asyncCalls == old(ops.asyncCalls)
      ensures Some(weather) !in old(cache.weatherMap) ==>
        && adapter == [] && ops.searchParam == Some(weather)
        && ops.asyncCalls == old(ops.asyncCalls) + (if ops.asyncInterface then [weather] else [])
    {
      ResetDisplay();
      var hit := GetResultsFromCache(weather);
      if !hit {
        ops.GetWeatherAsync(weather);
      }
    }
  }

  /** The Android runtime around one task of the application: the retained store, the
      activity on screen, and the lifecycle and callback events that reach them. Every
      Display an operations object produces is addressed to its current activity, which is
      the live one, so it is applied to the live activity at once. */
  class Session {
    const store: RetainedFragmentManager
    var live: MainActivity
    /** Every binding requested from the application context so far, in order. */
    var bindLog: seq<Service>

    ghost predicate Valid()
      reads this, store, live, live.cache, live.ops
    {
      && live.Valid()
      && store.retained
      && WeatherOpsKey in store.data && store.data[WeatherOpsKey] == live.ops
      && live.ops.activity == live.ref
    }

    /** The application is launched: the first activity is created, which creates, stores
        and binds a new operations object. */
    constructor Launch(ref: ActivityRef)
      ensures Valid()
      ensures fresh(live) && fresh(live.ops) && fresh(live.cache) && fresh(store)
      ensures live.ref == ref && NewOpsState(live.ops, ref)
      ensures bindLog == [SyncService, AsyncService]
      ensures live.adapter == [] && live.toasts == [] && !live.changingConfigurations
      ensures live.cache.State() == CacheState(map[], [], 0)
    {
      store := new RetainedFragmentManager();
      var activity := new MainActivity(ref);
      live := activity;
      new;
      bindLog := activity.OnCreate(store);
    }

    /** A runtime configuration change (a rotation): the live activity is destroyed while
        changing configurations and a new one, `newRef`, is created. Nothing is unbound or
        bound, the same operations object now names the new activity, and its last results
        are shown again through a new, otherwise empty cache. */
    method Rotate(newRef: ActivityRef) returns (unbound: seq<Service>, bindRequests: seq<Service>)
      requires Valid()
      modifies this`live, live, store, store.data.Values
      ensures Valid()
      ensures fresh(live) && fresh(live.cache) && live.ref == newRef
      ensures unbound == [] && bindRequests == []
      ensures live.ops == old(live.ops) && live.ops.activity == newRef
      ensures var o := old(live.ops);
        Kept(o, old(o.syncInterface), old(o.asyncInterface), old(o.results),
          old(o.searchParam), old(o.syncTasks), old(o.asyncCalls), old(o.handlerQueue))
      ensures live.adapter == (if HasResults(live.ops.results) then live.ops.results.value else [])
      ensures live.toasts == (if live.ops.results.Some? && !HasResults(live.ops.results) then [None] else [])
      ensures !live.changingConfigurations && bindLog == old(bindLog)
      ensures live.cache.State() == CachedAfterDisplay(CacheState(map[], [], 0), live.ops.results)
    {
      live.changingConfigurations := true;
      unbound := live.OnDestroy();
      var activity := new MainActivity(newRef);
      bindRequests := activity.OnCreate(store);
      live := activity;
    }

    /** The AsyncTask for synchronous lookup number `i` finishes with `reply`: the list
        becomes the operations object's results and is displayed on the live activity. */
    method SyncTaskCompletes(i: nat, reply: Option<seq<WeatherData>>)
      requires Valid()
      requires i < |live.ops.syncTasks|
      modifies live`adapter, live`toasts, live.cache, live.ops`syncTasks, live.ops`results
      ensures Valid()
      ensures live.ops.syncTasks == old(live.ops.syncTasks[..i] + live.ops.syncTasks[i + 1..])
      ensures live.ops.results == reply
      ensures live.cache.State() == CachedAfterDisplay(old(live.cache.State()), reply)
      ensures HasResults(reply) ==> live.adapter == reply.value && live.toasts == old(live.toasts)
      ensures !HasResults(reply) ==>
        && live.adapter == old(live.adapter)
        && live.toasts == old(live.toasts) + [Some(NoWeatherFound(Some(old(live.ops.syncTasks[i]))))]
    {
      var d := live.ops.CompleteSyncTask(i, reply);
      assert d.target == live.ref;
      live.DisplayResults(d.results, d.errorMessage);
    }

    /** The display handler runs its oldest posted Runnable, if any, and what it displays
        goes to the live activity. */
    method HandlerRuns()
      requires Valid()
      modifies live`adapter, live`toasts, live.cache, live.ops`handlerQueue, live.ops`results
      ensures Valid()
      ensures old(live.ops.handlerQueue) == [] ==>
        live.adapter == old(live.adapter) && live.toasts == old(live.toasts)
        && live.cache.State() == old(live.cache.State())
        && live.ops.handlerQueue == [] && live.ops.results == old(live.ops.results)
      ensures old(live.ops.handlerQueue) != [] ==> live.ops.handlerQueue == old(live.ops.handlerQueue[1..])
      ensures old(live.ops.handlerQueue) != [] && old(live.ops.handlerQueue[0]).ShowError? ==>
        && live.ops.results == old(live.ops.results)
        && live.adapter == old(live.adapter)
        && live.toasts == old(live.toasts) + [Some(old(live.ops.handlerQueue[0]).reason)]
        && live.cache.State() == old(live.cache.State())
      ensures old(live.ops.handlerQueue) != [] && old(live.ops.handlerQueue[0]).ShowResults? ==>
        var list := old(live.ops.handlerQueue[0]).list;
        && live.ops.results == list
        && live.cache.State() == CachedAfterDisplay(old(live.cache.State()), list)
        && (HasResults(list) ==> live.adapter == list.value && live.toasts == old(live.toasts))
        && (!HasResults(list) ==>
              live.adapter == old(live.adapter)
              && live.toasts == old(live.toasts) + [Some(NoWeatherFound(live.ops.searchParam))])
    {
      var d := live.ops.RunHandler();
      if d.Some? {
        assert d.value.target == live.ref;
        live.DisplayResults(d.value.results, d.value.errorMessage);
      }
    }

    /** `ms` milliseconds pass on the cache's timer. Every record whose deletion is not
        due yet is still there, and after AutoDestroyDelay milliseconds nothing is. */
    method Elapse(ms: nat)
      requires Valid()
      modifies live.cache
      ensures Valid()
      ensures live.cache.State() == Elapsed(old(live.cache.State()), ms)
      ensures forall t :: t in old(live.cache.timers) && old(live.cache.clock) + ms < t.due ==>
        Acquired(live.cache.State(), t.weatherData.name) == Some(t.weatherData)
      ensures ms >= AutoDestroyDelay ==> live.cache.weatherMap == map[]
    {
      ghost var before := live.cache.State();
      ElapsedOneTimer(before, ms);
      forall t | t in before.timers && before.clock + ms < t.due
        ensures Acquired(Elapsed(before, ms), t.weatherData.name) == Some(t.weatherData)
      {
        RecordLivesUntilItsTimer(before, t, ms);
      }
      live.cache.Elapse(ms);
    }
  }

  /** The state of an operations object just built for `activity`. */
  ghost predicate NewOpsState(ops: WeatherOpsImpl, activity: ActivityRef)
    reads ops
  {
    && ops.activity == activity
    && !ops.syncInterface && !ops.asyncInterface
    && ops.results == None && ops.searchParam == None
    && ops.syncTasks == [] && ops.asyncCalls == [] && ops.handlerQueue == []
  }

  /** Every field of `ops` but its activity reference holds the given values. */
  ghost predicate Kept(ops: WeatherOpsImpl, syncInterface: bool, asyncInterface: bool,
    results: Option<seq<WeatherData>>, searchParam: Option<string>, syncTasks: seq<string>,
    asyncCalls: seq<string>, handlerQueue: seq<Runnable>)
    reads ops
  {
    && ops.syncInterface == syncInterface && ops.asyncInterface == asyncInterface
    && ops.results == results && ops.searchParam == searchParam
    && ops.syncTasks == syncTasks && ops.asyncCalls == asyncCalls && ops.handlerQueue == handlerQueue
  }
}
