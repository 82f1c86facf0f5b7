/** The record cache (vandy.mooc.cache.CacheImpl): a map from location name to record, in
    which every release schedules a timer task that deletes that record's name again
    10000 ms later. The timer threads are modelled by a queue of pending tasks and a clock
    that the cache's owner advances explicitly. */
module Cache {
  import opened Wrappers
  import opened WeatherRecords

  /** Milliseconds between a release and the deletion it schedules. */
  const AutoDestroyDelay: nat := 10000

  /** A scheduled AutoDestroyTask: at time `due` it calls deleteFromCache(weatherData). */
  datatype AutoDestroyTask = AutoDestroyTask(due: int, weatherData: WeatherData)

  /** The observable state of a cache: the map, the timer tasks not yet run (in the order
      they were scheduled), and the cache's clock in milliseconds since it was created. */
  datatype CacheState = CacheState(
    weatherMap: map<Option<string>, WeatherData>,
    timers: seq<AutoDestroyTask>,
    clock: int)

  /** The tasks of `tasks` whose time has come at `now`, in schedule order. */
  function Due(tasks: seq<AutoDestroyTask>, now: int): seq<AutoDestroyTask>
    decreases |tasks|
  {
    if tasks == [] then []
    else
      var last := tasks[|tasks| - 1];
      Due(tasks[..|tasks| - 1], now) + (if last.due <= now then [last] else [])
  }

  /** The tasks of `tasks` that are still waiting at `now`, in schedule order. */
  function NotDue(tasks: seq<AutoDestroyTask>, now: int): seq<AutoDestroyTask>
    decreases |tasks|
  {
    if tasks == [] then []
    else
      var last := tasks[|tasks| - 1];
      NotDue(tasks[..|tasks| - 1], now) + (if last.due <= now then [] else [last])
  }

  /** The keys the tasks will delete: deletion goes by the record's name. */
  function Names(tasks: seq<AutoDestroyTask>): set<Option<string>> {
    set t | t in tasks :: t.weatherData.name
  }

  /** The records the tasks were scheduled for. */
  function Records(tasks: seq<AutoDestroyTask>): set<WeatherData> {
    set t | t in tasks :: t.weatherData
  }

  /** The invariant every cache keeps: each entry is stored under its own name, each stored
      record still has its own deletion pending, and every pending deletion falls due
      within the next AutoDestroyDelay milliseconds. */
  ghost predicate Consistent(s: CacheState) {
    && (forall k :: k in s.weatherMap ==> s.weatherMap[k].name == k)
    && (forall k :: k in s.weatherMap ==> s.weatherMap[k] in Records(s.timers))
    && (forall t :: t in s.timers ==> s.clock < t.due <= s.clock + AutoDestroyDelay)
  }

  /** acquire: the record stored under `name`, or null. */
  function Acquired(s: CacheState, name: Option<string>): Option<WeatherData> {
    if name in s.weatherMap then Some(s.weatherMap[name]) else None
  }

  /** release: store `d` under its name, overwriting, and schedule one deletion of `d`. */
  function Released(s: CacheState, d: WeatherData): CacheState {
    CacheState(
      s.weatherMap[d.name := d],
      s.timers + [AutoDestroyTask(s.clock + AutoDestroyDelay, d)],
      s.clock)
  }

  /** deleteFromCache: drop whatever is stored under `d`'s name. */
  function Deleted(s: CacheState, d: WeatherData): CacheState {
    CacheState(s.weatherMap - {d.name}, s.timers, s.clock)
  }

  /** `ms` milliseconds pass: every task that falls due runs deleteFromCache. */
  function Elapsed(s: CacheState, ms: nat): CacheState {
    var now := s.clock + ms;
    CacheState(s.weatherMap - Names(Due(s.timers, now)), NotDue(s.timers, now), now)
  }

  lemma {:induction false} DueContains(tasks: seq<AutoDestroyTask>, now: int, t: AutoDestroyTask)
    ensures t in Due(tasks, now) <==> t in tasks && t.due <= now
    ensures t in NotDue(tasks, now) <==> t in tasks && now < t.due
    decreases |tasks|
  {
    if tasks != [] {
      var init := tasks[..|tasks| - 1];
      DueContains(init, now, t);
      assert tasks == init + [tasks[|tasks| - 1]];
    }
  }

  /** One more task examined: it joins either the due or the waiting ones. */
  lemma DueStep(tasks: seq<AutoDestroyTask>, i: nat, now: int)
    requires i < |tasks|
    ensures Due(tasks[..i + 1], now) == Due(tasks[..i], now) + (if tasks[i].due <= now then [tasks[i]] else [])
    ensures NotDue(tasks[..i + 1], now) == NotDue(tasks[..i], now) + (if tasks[i].due <= now then [] else [tasks[i]])
  {
    assert tasks[..i + 1][..i] == tasks[..i];
  }

  /** Deleting one more name from a map already stripped of a set of names. */
  lemma MinusStep(m: map<Option<string>, WeatherData>, names: set<Option<string>>, tasks: seq<AutoDestroyTask>, t: AutoDestroyTask)
    requires names == Names(tasks)
    ensures (m - names) - {t.weatherData.name} == m - Names(tasks + [t])
  {
    NamesAppend(tasks, t);
  }

  lemma NamesAppend(tasks: seq<AutoDestroyTask>, t: AutoDestroyTask)
    ensures Names(tasks + [t]) == Names(tasks) + {t.weatherData.name}
  {
    assert t in tasks + [t];
    forall x | x in tasks ensures x in tasks + [t] { }
  }

  /** release keeps the invariant. */
  lemma ReleasedConsistent(s: CacheState, d: WeatherData)
    requires Consistent(s)
    ensures Consistent(Released(s, d))
  {
    var s' := Released(s, d);
    var task := AutoDestroyTask(s.clock + AutoDestroyDelay, d);
    assert task in s'.timers;
    forall t | t in s.timers ensures t in s'.timers { }
  }

  /** deleteFromCache keeps the invariant. */
  lemma DeletedConsistent(s: CacheState, d: WeatherData)
    requires Consistent(s)
    ensures Consistent(Deleted(s, d))
  {
  }

  /** Letting time pass keeps the invariant: a record that is still stored had its own
      deletion pending, and that deletion cannot have run, or its name would be gone. */
  lemma ElapsedConsistent(s: CacheState, ms: nat)
    requires Consistent(s)
    ensures Consistent(Elapsed(s, ms))
  {
    var now := s.clock + ms;
    var s' := Elapsed(s, ms);
    forall k | k in s'.weatherMap ensures s'.weatherMap[k] in Records(s'.timers) {
      var d := s.weatherMap[k];
      var t :| t in s.timers && t.weatherData == d;
      assert t !in Due(s.timers, now);
      DueContains(s.timers, now, t);
      assert t in s'.timers;
    }
    forall t | t in s'.timers ensures s'.clock < t.due <= s'.clock + AutoDestroyDelay {
      DueContains(s.timers, now, t);
    }
  }

  /** The time-to-live: once AutoDestroyDelay milliseconds have passed, no entry and no
      pending deletion is left, whatever was released in between. */
  lemma EntriesExpire(s: CacheState, ms: nat)
    requires Consistent(s)
    requires ms >= AutoDestroyDelay
    ensures Elapsed(s, ms).weatherMap == map[]
    ensures Elapsed(s, ms).timers == []
  {
    var now := s.clock + ms;
    var s' := Elapsed(s, ms);
    forall k | k in s.weatherMap ensures k in Names(Due(s.timers, now)) {
      var t :| t in s.timers && t.weatherData == s.weatherMap[k];
      DueContains(s.timers, now, t);
    }
    if s'.timers != [] {
      var t := s'.timers[0];
      DueContains(s.timers, now, t);
      assert false;
    }
  }

  /** Deletion goes by key: if a record for a name is released, and a newer record for the
      same name is released `gap` milliseconds later, the first record's timer deletes the
      newer record when it fires, although the newer one has been cached for less than
      AutoDestroyDelay milliseconds. */
  lemma LateTimerEvictsNewer(s: CacheState, older: WeatherData, newer: WeatherData, gap: nat)
    requires Consistent(s)
    requires older.name == newer.name
    requires 0 < gap < AutoDestroyDelay
    ensures
      var s1 := Elapsed(Released(s, older), gap);
      var s2 := Released(s1, newer);
      && Acquired(s2, newer.name) == Some(newer)
      && Acquired(Elapsed(s2, AutoDestroyDelay - gap), newer.name) == None
  {
    var s0 := Released(s, older);
    var s1 := Elapsed(s0, gap);
    var s2 := Released(s1, newer);
    var now := s2.clock + (AutoDestroyDelay - gap);
    var task := AutoDestroyTask(s.clock + AutoDestroyDelay, older);
    assert task in s0.timers;
    DueContains(s0.timers, s1.clock, task);
    assert task in s2.timers;
    DueContains(s2.timers, now, task);
    assert older.name in Names(Due(s2.timers, now));
  }

  /** A second deleteFromCache of the same name changes nothing, and a deletion leaves the
      entries of every other name as they were. */
  lemma DeleteIdempotent(s: CacheState, d: WeatherData, other: Option<string>)
    requires other != d.name
    ensures Deleted(Deleted(s, d), d) == Deleted(s, d)
    ensures Acquired(Deleted(s, d), d.name) == None
    ensures Acquired(Deleted(s, d), other) == Acquired(s, other)
  {
  }

  /** The discipline under which a record lives its full AutoDestroyDelay: every pending
      deletion is for the record stored under its name, and no two pending deletions share
      a name. A caller that releases only names the cache does not hold keeps it. */
  ghost predicate OneTimerPerName(s: CacheState) {
    && (forall t :: t in s.timers ==>
          t.weatherData.name in s.weatherMap && s.weatherMap[t.weatherData.name] == t.weatherData)
    && (forall t, u :: t in s.timers && u in s.timers && t.weatherData.name == u.weatherData.name ==> t == u)
  }

  /** Releasing a name that is not cached keeps the discipline. */
  lemma ReleasedAbsentOneTimer(s: CacheState, d: WeatherData)
    requires OneTimerPerName(s)
    requires d.name !in s.weatherMap
    ensures OneTimerPerName(Released(s, d))
  {
    var s' := Released(s, d);
    var task := AutoDestroyTask(s.clock + AutoDestroyDelay, d);
    forall t | t in s'.timers
      ensures t.weatherData.name in s'.weatherMap && s'.weatherMap[t.weatherData.name] == t.weatherData
    {
      if t != task {
        assert t in s.timers;
      }
    }
  }

  /** Letting time pass keeps the discipline: a waiting task's name cannot be deleted by a
      task that ran, since that task would share its name. */
  lemma ElapsedOneTimer(s: CacheState, ms: nat)
    requires OneTimerPerName(s)
    ensures OneTimerPerName(Elapsed(s, ms))
  {
    var now := s.clock + ms;
    var s' := Elapsed(s, ms);
    forall t | t in s'.timers
      ensures t.weatherData.name in s'.weatherMap && s'.weatherMap[t.weatherData.name] == t.weatherData
    {
      DueContains(s.timers, now, t);
      if t.weatherData.name in Names(Due(s.timers, now)) {
        var u :| u in Due(s.timers, now) && u.weatherData.name == t.weatherData.name;
        DueContains(s.timers, now, u);
        assert false;
      }
    }
    forall t, u | t in s'.timers && u in s'.timers ensures t in s.timers && u in s.timers {
      DueContains(s.timers, now, t);
      DueContains(s.timers, now, u);
    }
  }

  /** The time-to-live from below: under the discipline, a stored record is still there
      after any time short of its own deletion's due time. */
  lemma RecordLivesUntilItsTimer(s: CacheState, t: AutoDestroyTask, ms: nat)
    requires OneTimerPerName(s)
    requires t in s.timers
    requires s.clock + ms < t.due
    ensures Acquired(Elapsed(s, ms), t.weatherData.name) == Some(t.weatherData)
  {
    var now := s.clock + ms;
    if t.weatherData.name in Names(Due(s.timers, now)) {
      var u :| u in Due(s.timers, now) && u.weatherData.name == t.weatherData.name;
      DueContains(s.timers, now, u);
      assert false;
    }
  }

  /** A record released under a name the cache does not hold can be acquired for the full
      AutoDestroyDelay milliseconds. */
  lemma ReleasedLivesFullDelay(s: CacheState, d: WeatherData, ms: nat)
    requires OneTimerPerName(s)
    requires d.name !in s.weatherMap
    requires ms < AutoDestroyDelay
    ensures Acquired(Elapsed(Released(s, d), ms), d.name) == Some(d)
  {
    ReleasedAbsentOneTimer(s, d);
    var task := AutoDestroyTask(s.clock + AutoDestroyDelay, d);
    assert task in Released(s, d).timers;
    RecordLivesUntilItsTimer(Released(s, d), task, ms);
  }

  /** The cache object. */
  class CacheImpl {
    var weatherMap: map<Option<string>, WeatherData>
    var timers: seq<AutoDestroyTask>
    var clock: int

    function State(): CacheState
      reads this
    {
      CacheState(weatherMap, timers, clock)
    }

    ghost predicate Valid()
      reads this
    {
      Consistent(State())
    }

    constructor()
      ensures Valid()
      ensures weatherMap == map[] && timers == [] && clock == 0
    {
      weatherMap := map[];
      timers := [];
      clock := 0;
    }

    /** Stores `weatherData` under its name, replacing any record stored there, and
        schedules its deletion; earlier deletions stay scheduled. */
    method Release(weatherData: WeatherData)
      requires Valid()
      modifies this
      ensures Valid()
      ensures State() == Released(old(State()), weatherData)
      ensures weatherMap[weatherData.name] == weatherData
      ensures forall k :: k != weatherData.name ==> Acquired(State(), k) == Acquired(old(State()), k)
    {
      ReleasedConsistent(State(), weatherData);
      weatherMap := weatherMap[weatherData.name := weatherData];
      AutoDestroyFromCache(weatherData);
    }

    /** The record stored under `locationName`, or null; the map is left as it is. */
    method Acquire(locationName: Option<string>) returns (r: Option<WeatherData>)
      requires Valid()
      ensures r.Some? <==> locationName in weatherMap
      ensures r.Some? ==> r.value == weatherMap[locationName] && r.value.name == locationName
    {
      if locationName in weatherMap {
        r := Some(weatherMap[locationName]);
      } else {
        r := None;
      }
    }

    /** Removes whatever is stored under `weatherData`'s name, whether or not it is
        `weatherData` itself. */
    method DeleteFromCache(weatherData: WeatherData)
      modifies this`weatherMap
      ensures State() == Deleted(old(State()), weatherData)
    {
      if weatherData.name in weatherMap {
        weatherMap := weatherMap - {weatherData.name};
      }
    }

    /** Schedules one deletion of `weatherData`, AutoDestroyDelay milliseconds from now. */
    method AutoDestroyFromCache(weatherData: WeatherData)
      modifies this`timers
      ensures timers == old(timers) + [AutoDestroyTask(clock + AutoDestroyDelay, weatherData)]
    {
      timers := timers + [AutoDestroyTask(clock + AutoDestroyDelay, weatherData)];
    }

    /** Lets `ms` milliseconds pass: each pending task whose time has come runs
        deleteFromCache on its record, in the order the tasks were scheduled. */
    method Elapse(ms: nat)
      requires Valid()
      modifies this
      ensures Valid()
      ensures State() == Elapsed(old(State()), ms)
      ensures ms >= AutoDestroyDelay ==> weatherMap == map[] && timers == []
    {
      var now := clock + ms;
      var pending := timers;
      var kept: seq<AutoDestroyTask> := [];
      var i := 0;
      while i < |pending|
        invariant 0 <= i <= |pending|
        invariant kept == NotDue(pending[..i], now)
        invariant weatherMap == old(weatherMap) - Names(Due(pending[..i], now))
        invariant timers == pending && clock == old(clock)
      {
        var task := pending[i];
        DueStep(pending, i, now);
        if task.due <= now {
          DeleteFromCache(task.weatherData);
          MinusStep(old(weatherMap), Names(Due(pending[..i], now)), Due(pending[..i], now), task);
        } else {
          kept := kept + [task];
        }
        i := i + 1;
      }
      assert pending[..i] == pending;
      timers := kept;
      clock := now;
      ElapsedConsistent(old(State()), ms);
      if ms >= AutoDestroyDelay {
        EntriesExpire(old(State()), ms);
      }
    }
  }
}
