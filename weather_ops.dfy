/** The operation orchestrator (vandy.mooc.operations.WeatherOpsImpl). Its two service
    connections are reduced to one flag each (is the interface non-null), the Binder
    thread pool and the AsyncTask thread to queues of calls in flight, and its Handler to a
    queue of posted runnables. Every call the object makes on its activity,
    mActivity.get().displayResults(...), is returned as a Display value addressed to the
    activity its weak reference names at that moment. */
module Operations {
  import opened Wrappers
  import opened WeatherRecords

  /** The identity of a MainActivity instance: what the WeakReference points at. */
  type ActivityRef = nat

  /** The two bound services: WeatherServiceSync (WeatherCall) and WeatherServiceAsync
      (WeatherRequest). */
  datatype Service = SyncService | AsyncService

  /** One call of displayResults(results, errorMessage) on the activity `target`. */
  datatype Display = Display(target: ActivityRef, results: Option<seq<WeatherData>>, errorMessage: Option<string>)

  /** A Runnable posted to mDisplayHandler by one of the two result callbacks. */
  datatype Runnable = ShowResults(list: Option<seq<WeatherData>>) | ShowError(reason: string)

  /** Java's string concatenation of a possibly null String. */
  function JavaText(s: Option<string>): string {
    if s.Some? then s.value else "null"
  }

  /** The error text handed to displayResults along with a result list. */
  function NoWeatherFound(w: Option<string>): string {
    "no weather for " + JavaText(w) + " found"
  }

  /** The error text names the location searched for: different locations give different
      texts. (A null search parameter reads as the location "null".) */
  lemma NoWeatherFoundNamesLocation(a: string, b: string)
    requires NoWeatherFound(Some(a)) == NoWeatherFound(Some(b))
    ensures a == b
  {
    var prefix := "no weather for ";
    var m := NoWeatherFound(Some(a));
    assert m == prefix + a + " found";
    assert a == m[|prefix|..|m| - |" found"|];
    assert b == NoWeatherFound(Some(b))[|prefix|..|m| - |" found"|];
  }

  /** Whether the sequence lists no service twice. */
  predicate Distinct(ss: seq<Service>) {
    forall i, j :: 0 <= i < j < |ss| ==> ss[i] != ss[j]
  }

  class WeatherOpsImpl {
    /** mActivity: the activity the weak reference currently names. */
    var activity: ActivityRef
    /** mServiceConnectionSync.getInterface() != null */
    var syncInterface: bool
    /** mServiceConnectionAsync.getInterface() != null */
    var asyncInterface: bool
    /** mResults: the last result list delivered (null before any). */
    var results: Option<seq<WeatherData>>
    /** weatherSearchParam: the location of the latest asynchronous lookup. */
    var searchParam: Option<string>
    /** The AsyncTasks started by getWeatherSync and not finished, by the location each was
        executed with. */
    var syncTasks: seq<string>
    /** The one-way getCurrentWeather calls sent to the asynchronous service and not yet
        answered, by location. */
    var asyncCalls: seq<string>
    /** The Runnables posted to mDisplayHandler and not yet run, in posting order. */
    var handlerQueue: seq<Runnable>

    function Connected(s: Service): bool
      reads this
    {
      match s
      case SyncService => syncInterface
      case AsyncService => asyncInterface
    }

    constructor(activity: ActivityRef)
      ensures this.activity == activity
      ensures !syncInterface && !asyncInterface
      ensures results == None && searchParam == None
      ensures syncTasks == [] && asyncCalls == [] && handlerQueue == []
    {
      this.activity := activity;
      syncInterface, asyncInterface := false, false;
      results, searchParam := None, None;
      syncTasks, asyncCalls, handlerQueue := [], [], [];
    }

    /** A recreated activity takes over: the weak reference now names it, and the last
        result list, if there is one, is displayed on it at once with a null error. */
    method OnConfigurationChange(newActivity: ActivityRef) returns (d: Option<Display>)
      modifies this`activity
      ensures activity == newActivity
      ensures d.Some? <==> results.Some?
      ensures d.Some? ==> d.value == Display(newActivity, results, None)
    {
      activity := newActivity;
      d := UpdateResultsDisplay();
    }

    /** Displays mResults on the current activity if it is not null. */
    method UpdateResultsDisplay() returns (d: Option<Display>)
      ensures d.Some? <==> results.Some?
      ensures d.Some? ==> d.value == Display(activity, results, None)
    {
      if results.Some? {
        d := Some(Display(activity, results, None));
      } else {
        d := None;
      }
    }

    /** The bindings requested from the application context: one for each connection whose
        interface is still null, the synchronous one first; none when both are bound. */
    method BindService() returns (requested: seq<Service>)
      ensures forall s :: s in requested <==> !Connected(s)
      ensures Distinct(requested) && |requested| <= 2
      ensures |requested| == 2 ==> requested[0] == SyncService
    {
      requested := [];
      if !syncInterface {
        requested := requested + [SyncService];
      }
      if !asyncInterface {
        requested := requested + [AsyncService];
      }
    }

    /** The connections unbound: none while the activity is only changing configuration,
        otherwise each connection whose interface is non-null, the asynchronous one first. */
    method UnbindService(changingConfigurations: bool) returns (unbound: seq<Service>)
      ensures changingConfigurations ==> unbound == []
      ensures !changingConfigurations ==> forall s :: s in unbound <==> Connected(s)
      ensures Distinct(unbound) && |unbound| <= 2
      ensures |unbound| == 2 ==> unbound[0] == AsyncService
    {
      unbound := [];
      if !changingConfigurations {
        if asyncInterface {
          unbound := unbound + [AsyncService];
        }
        if syncInterface {
          unbound := unbound + [SyncService];
        }
      }
    }

    /** The asynchronous lookup: the location is always recorded as the search parameter;
        a request is sent only when the asynchronous interface is bound. */
    method GetWeatherAsync(weather: string)
      modifies this`searchParam, this`asyncCalls
      ensures searchParam == Some(weather)
      ensures asyncCalls == old(asyncCalls) + (if asyncInterface then [weather] else [])
    {
      searchParam := Some(weather);
      if asyncInterface {
        asyncCalls := asyncCalls + [weather];
      }
    }

    /** The synchronous lookup: an AsyncTask is started only when the synchronous interface
        is bound; otherwise nothing changes. */
    method GetWeatherSync(weather: string)
      modifies this`syncTasks
      ensures syncTasks == old(syncTasks) + (if syncInterface then [weather] else [])
    {
      if syncInterface {
        syncTasks := syncTasks + [weather];
      }
    }

    /** AsyncTask number `i` finishes (onPostExecute) with the list the synchronous service
        returned (null after a RemoteException): the list becomes mResults and is displayed
        with an error text naming that task's own location. */
    method CompleteSyncTask(i: nat, reply: Option<seq<WeatherData>>) returns (d: Display)
      requires i < |syncTasks|
      modifies this`syncTasks, this`results
      ensures syncTasks == old(syncTasks[..i] + syncTasks[i + 1..])
      ensures results == reply
      ensures d == Display(activity, reply, Some(NoWeatherFound(Some(old(syncTasks[i])))))
    {
      var weather := syncTasks[i];
      syncTasks := syncTasks[..i] + syncTasks[i + 1..];
      results := reply;
      d := Display(activity, reply, Some(NoWeatherFound(Some(weather))));
    }

    /** The asynchronous service answers call number `i`: it passes what getResults gave,
        possibly null, to sendResults. */
    method AnswerAsyncCall(i: nat, reply: Option<seq<WeatherData>>)
      requires i < |asyncCalls|
      modifies this`asyncCalls, this`handlerQueue
      ensures asyncCalls == old(asyncCalls[..i] + asyncCalls[i + 1..])
      ensures handlerQueue == old(handlerQueue) + [ShowResults(reply)]
    {
      asyncCalls := asyncCalls[..i] + asyncCalls[i + 1..];
      SendResults(reply);
    }

    /** The sendResults callback, on a Binder thread: posts the list to the handler. */
    method SendResults(weatherDataList: Option<seq<WeatherData>>)
      modifies this`handlerQueue
      ensures handlerQueue == old(handlerQueue) + [ShowResults(weatherDataList)]
    {
      handlerQueue := handlerQueue + [ShowResults(weatherDataList)];
    }

    /** The sendError callback, on a Binder thread: posts the reason to the handler. */
    method SendError(reason: string)
      modifies this`handlerQueue
      ensures handlerQueue == old(handlerQueue) + [ShowError(reason)]
    {
      handlerQueue := handlerQueue + [ShowError(reason)];
    }

    /** The handler runs its oldest Runnable, if any. A posted result list becomes mResults
        and is displayed with an error text built from the search parameter as it is NOW,
        not as it was when the request was sent; a posted error is displayed with a null
        list and leaves mResults alone. */
    method RunHandler() returns (d: Option<Display>)
      modifies this`handlerQueue, this`results
      ensures old(handlerQueue) == [] ==> d == None && handlerQueue == [] && results == old(results)
      ensures old(handlerQueue) != [] ==> d.Some? && handlerQueue == old(handlerQueue[1..])
      ensures old(handlerQueue) != [] && old(handlerQueue[0]).ShowResults? ==>
        results == old(handlerQueue[0]).list
        && d == Some(Display(activity, results, Some(NoWeatherFound(searchParam))))
      ensures old(handlerQueue) != [] && old(handlerQueue[0]).ShowError? ==>
        results == old(results)
        && d == Some(Display(activity, None, Some(old(handlerQueue[0]).reason)))
    {
      if handlerQueue == [] {
        return None;
      }
      var runnable := handlerQueue[0];
      handlerQueue := handlerQueue[1..];
      match runnable
      case ShowResults(list) =>
        results := list;
        d := Some(Display(activity, list, Some(NoWeatherFound(searchParam))));
      case ShowError(reason) =>
        d := Some(Display(activity, None, Some(reason)));
    }

    /** GenericServiceConnection.onServiceConnected: the interface becomes non-null. */
    method OnServiceConnected(s: Service)
      modifies this`syncInterface, this`asyncInterface
      ensures Connected(s)
      ensures forall t :: t != s ==> Connected(t) == old(Connected(t))
    {
      match s
      case SyncService => syncInterface := true;
      case AsyncService => asyncInterface := true;
    }

    /** GenericServiceConnection.onServiceDisconnected: the interface becomes null again. */
    method OnServiceDisconnected(s: Service)
      modifies this`syncInterface, this`asyncInterface
      ensures !Connected(s)
      ensures forall t :: t != s ==> Connected(t) == old(Connected(t))
    {
      match s
      case SyncService => syncInterface := false;
      case AsyncService => asyncInterface := false;
    }
  }
}
