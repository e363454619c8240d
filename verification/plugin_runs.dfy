/** What one `run(config, result_queue, config_data)` call of each plugin task
    does: the weather, classroom, bills, prayer-times and Friday-prayer tasks.

    A run is described by the actions it takes in order (saving its data,
    recording the run in the schedule store, putting a result on the queue)
    and the exception that escapes it, if any. Network fetches, scrapers and
    API clients are parameters; their own behaviour is modelled elsewhere or
    left out.
 */
module PluginRuns {
  import opened Wrappers
  import opened Text
  import opened Values
  import opened Calendar
  import opened ScheduleStore
  import opened Payloads
  import opened Sorting
  import opened CacheHelper
  import Classroom
  import Schedule
  import Bills
  import TaskManager

  datatype Action =
    | Saved(data: Payload)
    | Advanced
    | Enqueued(result: Payload)

  /** The store after the run, the actions taken and the escaped exception. */
  datatype RunResult = RunResult(store: Store, actions: seq<Action>, raised: Option<PyError>)

  /** Every run keeps to one protocol: an enqueue is the last action and
      happens only when nothing escaped; nothing is saved after the schedule
      was advanced; the store changes exactly when the run was recorded. */
  predicate Protocol(r: RunResult, store: Store, name: string, now: Instant) {
    && (r.raised.None? ==> |r.actions| > 0 && r.actions[|r.actions| - 1].Enqueued?)
    && (forall i | 0 <= i < |r.actions| - 1 :: !r.actions[i].Enqueued?)
    && (r.raised.Some? ==> forall i | 0 <= i < |r.actions| :: !r.actions[i].Enqueued?)
    && (forall i, j | 0 <= i < j < |r.actions| :: !(r.actions[i].Advanced? && r.actions[j].Saved?))
    && (Advanced !in r.actions ==> r.store == store)
    && (Advanced in r.actions ==> UpdateAfterRun(store, name, now) == Ok(r.store))
  }

  /** An early `return` after putting `result` on the queue. */
  function EarlyReturn(store: Store, result: Payload): (r: RunResult)
    ensures r.actions == [Enqueued(result)] && r.store == store && r.raised.None?
  {
    RunResult(store, [Enqueued(result)], None)
  }

  /** An exception escaping before anything was saved. */
  function Escaped(store: Store, e: PyError): (r: RunResult)
    ensures r.actions == [] && r.store == store && r.raised == Some(e)
  {
    RunResult(store, [], Some(e))
  }

  /** The common tail of a run: save (when there is something to save), then
      `update_after_run`, then enqueue. The result is computed after the
      store update, so it may raise there. */
  function Finish(store: Store, name: string, now: Instant, saved: Option<Payload>, result: Outcome<Payload>): (r: RunResult)
    ensures Protocol(r, store, name, now)
    ensures saved.Some? ==> |r.actions| > 0 && r.actions[0] == Saved(saved.value)
    ensures saved.None? ==> forall i | 0 <= i < |r.actions| :: !r.actions[i].Saved?
    ensures UpdateAfterRun(store, name, now).Ok? <==> Advanced in r.actions
    ensures r.raised.None? <==> UpdateAfterRun(store, name, now).Ok? && result.Ok?
    ensures r.raised.None? ==> r.actions[|r.actions| - 1] == Enqueued(result.value)
  {
    var before := if saved.Some? then [Saved(saved.value)] else [];
    match UpdateAfterRun(store, name, now)
    case Raised(e) => RunResult(store, before, Some(e))
    case Ok(s) =>
      match result
      case Ok(p) => RunResult(s, before + [Advanced, Enqueued(p)], None)
      case Raised(e) => RunResult(s, before + [Advanced], Some(e))
  }

  /** A daily task that has just recorded its run is re-armed by the task
      manager, reading the stored next run at the same moment, for at most
      one day (86400 seconds) ahead: the delay `RunRegistered` gives the new
      one-shot timer. */
  lemma {:induction false} DailyRunRearmsWithinADay(store: Store, name: string, now: Instant,
                                                    saved: Option<Payload>, result: Outcome<Payload>,
                                                    m: TaskManager.Manager, effect: TaskManager.Effect, ticks: int)
    requires name in store && store[name].kind == Schedule.DAILY
    requires Advanced in Finish(store, name, now, saved, result).actions
    ensures var next := NextRunFromDb(Finish(store, name, now, saved, result).store, name, false);
      && next.Some? && TaskManager.DelayFor(next, now) <= 86400
      && (name in m.registered && TaskManager.ConfigFor(m, name).config != VNull ==>
            var t := TaskManager.RunRegistered(m, name, effect, next, now, ticks).tasks[name];
            t.oneTime && t.delay == TaskManager.DelayFor(next, now) <= 86400)
  {
    var r := Finish(store, name, now, saved, result);
    assert UpdateAfterRun(store, name, now) == Ok(r.store);
    DailyRowDueWithinADay(store, name, now);
    var next := NextRunFromDb(r.store, name, false);
    var delay := TaskManager.DelayFor(next, now);
    assert delay * MicrosPerSecond <= MicrosPerDay;
  }

  /** The messages the run put on the queue. */
  function Messages(name: string, actions: seq<Action>): (r: seq<TaskManager.Message>)
    ensures |r| <= |actions|
    ensures forall m | m in r :: m.task == name
    decreases |actions|
  {
    if |actions| == 0 then []
    else (if actions[0].Enqueued? then [TaskManager.Message(name, actions[0].result)] else [])
         + Messages(name, actions[1..])
  }

  /** The run as the task manager sees it: what was enqueued and whether it
      raised. */
  function EffectOf(name: string, r: RunResult): (e: TaskManager.Effect)
    ensures e.raised <==> r.raised.Some?
  {
    TaskManager.Effect(Messages(name, r.actions), r.raised.Some?)
  }

  /** A run that follows the protocol enqueues one message when it returns
      normally and none when it raises. */
  lemma {:induction false} OneMessagePerNormalRun(name: string, r: RunResult, store: Store, now: Instant)
    requires Protocol(r, store, name, now)
    ensures r.raised.None? ==> EffectOf(name, r).enqueued == [TaskManager.Message(name, r.actions[|r.actions| - 1].result)]
    ensures r.raised.Some? ==> EffectOf(name, r).enqueued == []
  {
    if r.raised.None? {
      NoEnqueueNoMessage(name, r.actions[..|r.actions| - 1]);
      MessagesAppend(name, r.actions[..|r.actions| - 1], [r.actions[|r.actions| - 1]]);
      assert r.actions == r.actions[..|r.actions| - 1] + [r.actions[|r.actions| - 1]];
      assert [r.actions[|r.actions| - 1]][1..] == [];
    } else {
      NoEnqueueNoMessage(name, r.actions);
    }
  }

  lemma {:induction false} NoEnqueueNoMessage(name: string, actions: seq<Action>)
    requires forall i | 0 <= i < |actions| :: !actions[i].Enqueued?
    ensures Messages(name, actions) == []
    decreases |actions|
  {
    if |actions| > 0 {
      NoEnqueueNoMessage(name, actions[1..]);
    }
  }

  lemma {:induction false} MessagesAppend(name: string, a: seq<Action>, b: seq<Action>)
    ensures Messages(name, a + b) == Messages(name, a) + Messages(name, b)
    decreases |a|
  {
    if |a| == 0 {
      assert a + b == b;
    } else {
      assert (a + b)[0] == a[0];
      assert (a + b)[1..] == a[1..] + b;
      MessagesAppend(name, a[1..], b);
    }
  }

  // ---------------------------------------------------------------------------
  // Configuration shared by the runs

  /** `config_data.get("cache", {}).get("directory")` when `config_data` is
      truthy, else None. A "cache" entry that is not a dict has no `.get`. */
  function CacheDirOf(configData: Option<Dict>): (r: Outcome<Value>)
    ensures configData.None? || configData == Some(map[]) ==> r == Ok(VNull)
    ensures r.Raised? <==> configData.Some? && |configData.value| > 0 && "cache" in configData.value
                           && !configData.value["cache"].VObj?
    ensures r.Ok? && r.value != VNull ==>
      && configData.Some? && "cache" in configData.value
      && "directory" in configData.value["cache"].fields
      && r.value == configData.value["cache"].fields["directory"]
  {
    if configData.None? || |configData.value| == 0 then Ok(VNull)
    else match Get(configData.value, "cache", VObj(map[]))
      case VObj(cache) => Ok(GetOpt(cache, "directory"))
      case _ => Raised(AttributeError)
  }

  /** Bills, prayer and Friday prayer: a truthy `cache_dir` is added only
      when the entry does not set one itself. */
  function WithCacheDir(cfg: Dict, cacheDir: Value): (r: Dict)
    ensures r.Keys == cfg.Keys + (if Truthy(cacheDir) then {"cache_dir"} else {})
    ensures forall k | k in cfg :: r[k] == cfg[k]
    ensures "cache_dir" !in cfg && Truthy(cacheDir) ==> r["cache_dir"] == cacheDir
  {
    if Truthy(cacheDir) && "cache_dir" !in cfg then cfg["cache_dir" := cacheDir] else cfg
  }

  /** Weather's `_backend_config`: a truthy directory replaces whatever
      `cache_dir` the component sets. */
  function WeatherBackendConfig(config: Dict, configData: Option<Dict>): (r: Outcome<Dict>)
    ensures r.Raised? <==> CacheDirOf(configData).Raised?
    ensures r.Ok? ==> forall k | k in config && k != "cache_dir" :: k in r.value && r.value[k] == config[k]
    ensures r.Ok? && Truthy(CacheDirOf(configData).value) ==> r.value == config["cache_dir" := CacheDirOf(configData).value]
    ensures r.Ok? && !Truthy(CacheDirOf(configData).value) ==> r.value == config
  {
    var dir :- CacheDirOf(configData);
    Ok(if Truthy(dir) then config["cache_dir" := dir] else config)
  }

  /** The two ways of merging the directory differ exactly when the
      component already names its own cache directory. */
  lemma {:induction false} CacheDirMergesDiffer(config: Dict, dir: Value, configData: Dict)
    requires configData == map["cache" := VObj(map["directory" := dir])]
    requires Truthy(dir)
    ensures WeatherBackendConfig(config, Some(configData)).Ok?
    ensures "cache_dir" in config ==> WithCacheDir(config, dir)["cache_dir"] == config["cache_dir"]
    ensures WeatherBackendConfig(config, Some(configData)).value["cache_dir"] == dir
  {
  }

  /** The results of the fetches that returned, concatenated in order; a
      fetch that raised is logged and skipped. */
  function Collect<S, T>(sources: seq<S>, fetch: S -> Outcome<seq<T>>): (r: seq<T>)
    ensures forall i, x | 0 <= i < |sources| && fetch(sources[i]).Ok? && x in fetch(sources[i]).value :: x in r
    decreases |sources|
  {
    if |sources| == 0 then []
    else
      var mine := match fetch(sources[0]) case Ok(items) => items case Raised(_) => [];
      var rest := Collect(sources[1..], fetch);
      assert forall i | 1 <= i < |sources| :: sources[i] == sources[1..][i - 1];
      mine + rest
  }

  /** Everything collected came from a fetch that returned. */
  lemma {:induction false} CollectedFromSomeSource<S, T>(sources: seq<S>, fetch: S -> Outcome<seq<T>>, x: T)
    requires x in Collect(sources, fetch)
    ensures exists i | 0 <= i < |sources| :: fetch(sources[i]).Ok? && x in fetch(sources[i]).value
    decreases |sources|
  {
    var mine := match fetch(sources[0]) case Ok(items) => items case Raised(_) => [];
    if x in mine {
      assert fetch(sources[0]).Ok? && x in fetch(sources[0]).value;
    } else {
      CollectedFromSomeSource(sources[1..], fetch, x);
      var i :| 0 <= i < |sources[1..]| && fetch(sources[1..][i]).Ok? && x in fetch(sources[1..][i]).value;
      assert sources[1..][i] == sources[i + 1];
    }
  }

  /** A source whose fetch raised contributes nothing: dropping it changes
      nothing. */
  lemma {:induction false} FailingSourceSkipped<S, T>(s: S, rest: seq<S>, fetch: S -> Outcome<seq<T>>)
    requires fetch(s).Raised?
    ensures Collect([s] + rest, fetch) == Collect(rest, fetch)
  {
    assert ([s] + rest)[1..] == rest;
  }

  // ---------------------------------------------------------------------------
  // Weather (`weather/task.py`)

  datatype WeatherSource = Nws | OpenWeatherMap

  /** The outside world a weather run sees: which strings `float()`
      accepts, the JSON body of the NWS points request (None when the
      request, its status check or the JSON decoding raised, which the
      source turns into an error dict holding `failure`), the hourly
      forecast request for a URL (its exceptions already turned into error
      dicts), what each backend's `get_weather` returns or raises, and
      `str()` of lists and dicts. */
  datatype WeatherWorld = WeatherWorld(
    floatParses: string -> bool,
    points: Option<Value>,
    failure: string,
    hourlyGet: Value -> Value,
    backendFetch: (WeatherSource, Dict) -> Outcome<Value>,
    repr: Value -> string)

  function ErrorDict(message: string): Value {
    VObj(map["error" := VStr(message)])
  }

  /** `float(v)` succeeds. */
  predicate FloatOk(v: Value, floatParses: string -> bool) {
    match v
    case VInt(_) => true
    case VBool(_) => true
    case VStr(s) => floatParses(s)
    case _ => false
  }

  /** `str(v)` as an f-string renders it. */
  function Render(v: Value, repr: Value -> string): string {
    match StrOf(v)
    case Some(s) => s
    case None => repr(v)
  }

  /** `points_data.get("properties", {}).get("forecastHourly")`, outside
      any `try`: a body or a "properties" value that is not a dict has no
      `get` and raises AttributeError. */
  function HourlyUrl(points: Value): (r: Outcome<Value>)
    ensures r.Raised? <==> !points.VObj? || !Get(points.fields, "properties", VObj(map[])).VObj?
    ensures r.Raised? ==> r.error == AttributeError
    ensures points.VObj? && "properties" !in points.fields ==> r == Ok(VNull)
  {
    match points
    case VObj(fields) =>
      (match Get(fields, "properties", VObj(map[]))
       case VObj(properties) => Ok(GetOpt(properties, "forecastHourly"))
       case _ => Raised(AttributeError))
    case _ => Raised(AttributeError)
  }

  /** The coordinates `_fetch_hourly` accepts: both present and both
      converting to float. */
  predicate CoordinatesOk(config: Dict, floatParses: string -> bool) {
    && GetOpt(config, "lat") != VNull && GetOpt(config, "lon") != VNull
    && FloatOk(config["lat"], floatParses) && FloatOk(config["lon"], floatParses)
  }

  /** `_fetch_hourly`: coordinates are required and must convert to float
      before anything is fetched; then the points request, the hourly URL
      read from it, and the hourly request. Only the URL read can raise. */
  function HourlyData(config: Dict, w: WeatherWorld): (r: Outcome<Value>)
    ensures GetOpt(config, "lat") == VNull || GetOpt(config, "lon") == VNull ==>
      r == Ok(ErrorDict("lat/lon required for Hourly Weather"))
    ensures GetOpt(config, "lat") != VNull && GetOpt(config, "lon") != VNull && !CoordinatesOk(config, w.floatParses) ==>
      r == Ok(ErrorDict("Invalid lat/lon"))
    ensures CoordinatesOk(config, w.floatParses) && w.points.None? ==> r == Ok(ErrorDict(w.failure))
    ensures r.Raised? <==> CoordinatesOk(config, w.floatParses) && w.points.Some? && HourlyUrl(w.points.value).Raised?
    ensures r.Raised? ==> r.error == AttributeError
    ensures r.Ok? ==> (r.value.VObj? && "error" in r.value.fields)
                      || (w.points.Some? && r.value == w.hourlyGet(HourlyUrl(w.points.value).value))
  {
    var lat := GetOpt(config, "lat");
    var lon := GetOpt(config, "lon");
    if lat == VNull || lon == VNull then Ok(ErrorDict("lat/lon required for Hourly Weather"))
    else if !(FloatOk(lat, w.floatParses) && FloatOk(lon, w.floatParses)) then Ok(ErrorDict("Invalid lat/lon"))
    else match w.points
      case None => Ok(ErrorDict(w.failure))
      case Some(points) =>
        var url :- HourlyUrl(points);
        if !Truthy(url) then Ok(ErrorDict("No forecastHourly in points"))
        else Ok(w.hourlyGet(url))
  }

  /** Building a weather backend builds its CacheHelper, which cannot expand
      a truthy non-string directory. */
  function FetchFrom(source: WeatherSource, cfg: Dict, w: WeatherWorld): (r: Outcome<Value>)
    ensures !CacheDirUsable(GetOpt(cfg, "cache_dir")) ==> r == Raised(TypeError)
    ensures CacheDirUsable(GetOpt(cfg, "cache_dir")) ==> r == w.backendFetch(source, cfg)
  {
    if !CacheDirUsable(GetOpt(cfg, "cache_dir")) then Raised(TypeError) else w.backendFetch(source, cfg)
  }

  /** `_fetch_weekly`: `config.get("backend", "nws")` chooses NWS or
      OpenWeatherMap; any other value gives an error dict naming it. The
      backend config is built before the choice. */
  function WeeklyData(config: Dict, configData: Option<Dict>, w: WeatherWorld): (r: Outcome<Value>)
    ensures WeatherBackendConfig(config, configData).Raised? ==> r.Raised?
    ensures WeatherBackendConfig(config, configData).Ok? && Get(config, "backend", VStr("nws")) !in {VStr("nws"), VStr("openweathermap")} ==>
      r == Ok(ErrorDict("Unknown backend: " + Render(Get(config, "backend", VStr("nws")), w.repr)))
    ensures "backend" !in config && WeatherBackendConfig(config, configData).Ok? ==>
      r == FetchFrom(Nws, WeatherBackendConfig(config, configData).value, w)
  {
    var backendType := Get(config, "backend", VStr("nws"));
    var cfg :- WeatherBackendConfig(config, configData);
    if backendType == VStr("nws") then FetchFrom(Nws, cfg, w)
    else if backendType == VStr("openweathermap") then FetchFrom(OpenWeatherMap, cfg, w)
    else Ok(ErrorDict("Unknown backend: " + Render(backendType, w.repr)))
  }

  /** `_fetch_current`: always OpenWeatherMap. */
  function CurrentData(config: Dict, configData: Option<Dict>, w: WeatherWorld): (r: Outcome<Value>)
    ensures WeatherBackendConfig(config, configData).Raised? ==> r.Raised?
    ensures WeatherBackendConfig(config, configData).Ok? ==>
      r == FetchFrom(OpenWeatherMap, WeatherBackendConfig(config, configData).value, w)
  {
    var cfg :- WeatherBackendConfig(config, configData);
    FetchFrom(OpenWeatherMap, cfg, w)
  }

  /** The component name picks the fetch; any name other than the hourly
      and weekly ones is the current-weather component. */
  function WeatherData(name: string, config: Dict, configData: Option<Dict>, w: WeatherWorld): (r: Outcome<Value>)
    ensures name == "Hourly Weather" ==> r == HourlyData(config, w)
  {
    if name == "Hourly Weather" then HourlyData(config, w)
    else if name == "Weekly Weather" then WeeklyData(config, configData, w)
    else CurrentData(config, configData, w)
  }

  /** Python's `key in v`: dict keys, list items, substrings; other values
      are not containers (TypeError). */
  function HasKey(v: Value, key: string): (r: Outcome<bool>)
    ensures v.VObj? ==> r == Ok(key in v.fields)
    ensures v.VList? ==> r == Ok(VStr(key) in v.items)
    ensures r.Raised? <==> v.VNull? || v.VBool? || v.VInt?
  {
    match v
    case VObj(f) => Ok(key in f)
    case VList(items) => Ok(VStr(key) in items)
    case VStr(s) => Ok(Contains(s, key))
    case _ => Raised(TypeError)
  }

  /** `data and "error" not in data`. */
  function UsableWeather(data: Value): (r: Outcome<bool>)
    ensures !Truthy(data) ==> r == Ok(false)
    ensures data.VObj? ==> r == Ok(|data.fields| > 0 && "error" !in data.fields)
  {
    if !Truthy(data) then Ok(false)
    else
      var has :- HasKey(data, "error");
      Ok(!has)
  }

  /** `WeatherTask.run`: save only usable data, then record the run and
      enqueue the data, error dicts included. A fetch that raises escapes
      before either. */
  function WeatherRun(name: string, config: Dict, configData: Option<Dict>, w: WeatherWorld,
                      store: Store, now: Instant): (r: RunResult)
    ensures Protocol(r, store, name, now)
    ensures WeatherData(name, config, configData, w).Raised? ==>
      r.actions == [] && r.store == store && r.raised == Some(WeatherData(name, config, configData, w).error)
  {
    match WeatherData(name, config, configData, w)
    case Raised(e) => Escaped(store, e)
    case Ok(data) =>
      match UsableWeather(data)
      case Raised(e) => Escaped(store, e)
      case Ok(usable) => Finish(store, name, now, if usable then Some(Data(data)) else None, Ok(Data(data)))
  }

  /** An error dict is enqueued but never saved, and the run is still
      recorded. */
  lemma {:induction false} WeatherErrorEnqueuedNotSaved(name: string, config: Dict, configData: Option<Dict>, w: WeatherWorld,
                                     store: Store, now: Instant, message: string)
    requires WeatherData(name, config, configData, w) == Ok(ErrorDict(message))
    requires UpdateAfterRun(store, name, now).Ok?
    ensures var r := WeatherRun(name, config, configData, w, store, now);
      r.actions == [Advanced, Enqueued(Data(ErrorDict(message)))] && r.raised.None?
  {
  }

  /** Usable data is saved, then the run recorded, then the data enqueued. */
  lemma {:induction false} WeatherDataSavedThenEnqueued(name: string, config: Dict, configData: Option<Dict>, w: WeatherWorld,
                                     store: Store, now: Instant, data: Value)
    requires WeatherData(name, config, configData, w) == Ok(data)
    requires data.VObj? && |data.fields| > 0 && "error" !in data.fields
    requires UpdateAfterRun(store, name, now).Ok?
    ensures WeatherRun(name, config, configData, w, store, now).actions == [Saved(Data(data)), Advanced, Enqueued(Data(data))]
  {
  }

  /** Hourly weather without coordinates reports the error and saves nothing. */
  lemma {:induction false} HourlyNeedsCoordinates(config: Dict, configData: Option<Dict>, w: WeatherWorld, store: Store, now: Instant)
    requires "lat" !in config
    ensures var r := WeatherRun("Hourly Weather", config, configData, w, store, now);
      forall i | 0 <= i < |r.actions| :: !r.actions[i].Saved?
    ensures var r := WeatherRun("Hourly Weather", config, configData, w, store, now);
      r.raised.None? ==> r.actions[|r.actions| - 1] == Enqueued(Data(ErrorDict("lat/lon required for Hourly Weather")))
  {
  }

  /** A points body that is not a dict, or whose "properties" is not a
      dict, makes the hourly run raise AttributeError before the run is
      recorded or anything is enqueued. */
  lemma {:induction false} MalformedPointsEscape(config: Dict, configData: Option<Dict>, w: WeatherWorld, store: Store, now: Instant)
    requires CoordinatesOk(config, w.floatParses) && w.points.Some?
    requires !w.points.value.VObj? || !Get(w.points.value.fields, "properties", VObj(map[])).VObj?
    ensures WeatherRun("Hourly Weather", config, configData, w, store, now) == Escaped(store, AttributeError)
  {
  }

  /** A points body that names a forecastHourly URL under "properties"
      leads to the hourly request for exactly that URL. */
  lemma {:induction false} PointsUrlFetched(config: Dict, w: WeatherWorld, properties: Dict, rest: Dict)
    requires CoordinatesOk(config, w.floatParses)
    requires "forecastHourly" in properties && Truthy(properties["forecastHourly"])
    requires w.points == Some(VObj(rest["properties" := VObj(properties)]))
    ensures HourlyData(config, w) == Ok(w.hourlyGet(properties["forecastHourly"]))
  {
  }

  // ---------------------------------------------------------------------------
  // Classroom (`classroom/task.py`)

  /** `ClassroomTask.run`: no fetchers means an empty list is enqueued and
      nothing else happens; otherwise the fetched assignments are sorted by
      due date (missing dates last), saved, the run recorded and the list
      enqueued. */
  function ClassroomRun(name: string, config: Dict, fetch: Classroom.Fetcher -> Outcome<seq<Classroom.Assignment>>,
                        store: Store, now: Instant): (r: RunResult)
    ensures Protocol(r, store, name, now)
    ensures Classroom.BuildFetchers(config) == Ok([]) ==> r == EarlyReturn(store, AssignmentList([]))
  {
    match Classroom.BuildFetchers(config)
    case Raised(e) => Escaped(store, e)
    case Ok(fetchers) =>
      if |fetchers| == 0 then EarlyReturn(store, AssignmentList([]))
      else
        var sorted := Sort(Collect(fetchers, fetch), ByKey(Classroom.DueKey));
        Finish(store, name, now, Some(AssignmentList(sorted)), Ok(AssignmentList(sorted)))
  }

  /** The saved list is ordered by due date and holds exactly what the
      fetchers that returned produced. */
  lemma {:induction false} ClassroomSavedListSorted(name: string, config: Dict, fetch: Classroom.Fetcher -> Outcome<seq<Classroom.Assignment>>,
                                 store: Store, now: Instant, fetchers: seq<Classroom.Fetcher>)
    requires Classroom.BuildFetchers(config) == Ok(fetchers) && |fetchers| > 0
    ensures var r := ClassroomRun(name, config, fetch, store, now);
      && r.actions[0].Saved? && r.actions[0].data.AssignmentList?
      && SortedBy(r.actions[0].data.items, ByKey(Classroom.DueKey))
      && multiset(r.actions[0].data.items) == multiset(Collect(fetchers, fetch))
  {
    SortIsSorted(Collect(fetchers, fetch), ByKey(Classroom.DueKey));
  }

  // ---------------------------------------------------------------------------
  // Utilities bill due (`utilities_bill_due/task.py`)

  /** The config one backend entry is built with: the entry, plus the
      component's `headless` when the entry has none and the component's is
      not None, plus the cache directory. */
  function EntryConfig(entry: Dict, headless: Value, cacheDir: Value): (r: Dict)
    ensures forall k | k in entry :: k in r && r[k] == entry[k]
    ensures "headless" in r <==> "headless" in entry || headless != VNull
    ensures "headless" !in entry && headless != VNull ==> r["headless"] == headless
    ensures "cache_dir" in r <==> "cache_dir" in entry || Truthy(cacheDir)
    ensures "cache_dir" !in entry && Truthy(cacheDir) ==> r["cache_dir"] == cacheDir
    ensures r.Keys <= entry.Keys + {"headless", "cache_dir"}
  {
    var withHeadless := if "headless" !in entry && headless != VNull then entry["headless" := headless] else entry;
    WithCacheDir(withHeadless, cacheDir)
  }

  /** `_build_backends`: entries without a truthy type are skipped, unknown
      types build nothing, and an entry that is not a dict or a backend
      constructor that raises makes the whole call raise. */
  function BuildBackends(config: Dict, cacheDir: Value): (r: Outcome<seq<Bills.Backend>>)
    ensures !Truthy(GetOpt(config, "backends")) ==> r == Ok([])
    ensures Entries(GetOpt(config, "backends")).Raised? ==> r.Raised?
    ensures GetOpt(config, "backends").VList? ==> r == BackendsOf(GetOpt(config, "backends").items, GetOpt(config, "headless"), cacheDir)
  {
    var entries :- Entries(GetOpt(config, "backends"));
    BackendsOf(entries, GetOpt(config, "headless"), cacheDir)
  }

  function BackendsOf(entries: seq<Value>, headless: Value, cacheDir: Value): (r: Outcome<seq<Bills.Backend>>)
    ensures r.Ok? ==> |r.value| <= |entries|
    ensures r.Ok? ==> forall b | b in r.value :: exists i | 0 <= i < |entries| ::
              (entries[i].VObj? && b.config == EntryConfig(entries[i].fields, headless, cacheDir))
    decreases |entries|
  {
    if |entries| == 0 then Ok([])
    else
      match entries[0]
      case VObj(entry) =>
        var backendType := GetOpt(entry, "type");
        if !Truthy(backendType) then
          var rest :- BackendsOf(entries[1..], headless, cacheDir);
          assert forall i | 0 <= i < |entries[1..]| :: entries[1..][i] == entries[i + 1];
          Ok(rest)
        else
          var be :- Bills.GetBackend(backendType, EntryConfig(entry, headless, cacheDir));
          var rest :- BackendsOf(entries[1..], headless, cacheDir);
          assert forall i | 0 <= i < |entries[1..]| :: entries[1..][i] == entries[i + 1];
          Ok((if be.Some? then [be.value] else []) + rest)
      case _ => Raised(AttributeError)
  }

  /** An entry whose type is missing or empty builds nothing. */
  lemma {:induction false} UntypedEntrySkipped(entry: Dict, entries: seq<Value>, headless: Value, cacheDir: Value)
    requires !Truthy(GetOpt(entry, "type"))
    ensures BackendsOf([VObj(entry)] + entries, headless, cacheDir) == BackendsOf(entries, headless, cacheDir)
  {
    assert ([VObj(entry)] + entries)[1..] == entries;
  }

  /** An entry with a truthy type puts the backend it builds, if any, in
      front of the backends of the entries after it. */
  lemma {:induction false} TypedEntryBuilt(entry: Dict, entries: seq<Value>, headless: Value, cacheDir: Value,
                                           be: Option<Bills.Backend>, rest: seq<Bills.Backend>)
    requires Truthy(GetOpt(entry, "type"))
    requires Bills.GetBackend(GetOpt(entry, "type"), EntryConfig(entry, headless, cacheDir)) == Ok(be)
    requires BackendsOf(entries, headless, cacheDir) == Ok(rest)
    ensures BackendsOf([VObj(entry)] + entries, headless, cacheDir) == Ok((if be.Some? then [be.value] else []) + rest)
  {
    assert ([VObj(entry)] + entries)[1..] == entries;
  }

  /** An entry whose backend constructor raises makes the whole build raise
      with that exception, whatever follows it. */
  lemma {:induction false} TypedEntryRaises(entry: Dict, entries: seq<Value>, headless: Value, cacheDir: Value)
    requires Truthy(GetOpt(entry, "type"))
    requires Bills.GetBackend(GetOpt(entry, "type"), EntryConfig(entry, headless, cacheDir)).Raised?
    ensures BackendsOf([VObj(entry)] + entries, headless, cacheDir)
         == Raised(Bills.GetBackend(GetOpt(entry, "type"), EntryConfig(entry, headless, cacheDir)).error)
  {
    assert ([VObj(entry)] + entries)[0] == VObj(entry);
  }

  /** A cache directory that is truthy but not text reaches a scraping
      backend without its own `cache_dir` and its `CacheHelper` raises
      TypeError, which escapes `run` before anything is saved or enqueued. */
  lemma {:induction false} UnusableCacheDirEscapes(name: string, config: Dict, configData: Option<Dict>,
                                                   fetch: Bills.Backend -> Outcome<seq<Bills.Bill>>, store: Store, now: Instant,
                                                   entry: Dict, rest: seq<Value>, k: Bills.BackendKind)
    requires GetOpt(config, "backends") == VList([VObj(entry)] + rest)
    requires k != Bills.Manual && GetOpt(entry, "type") == VStr(Bills.BackendName(k))
    requires !Bills.TextFieldsRaise(entry) && "cache_dir" !in entry
    requires CacheDirOf(configData).Ok? && Truthy(CacheDirOf(configData).value) && !CacheDirOf(configData).value.VStr?
    ensures var r := BillsRun(name, config, configData, fetch, store, now);
      r.raised == Some(TypeError) && r.actions == [] && r.store == store
  {
    var dir := CacheDirOf(configData).value;
    var headless := GetOpt(config, "headless");
    var cfg := EntryConfig(entry, headless, dir);
    assert GetOpt(cfg, "cache_dir") == dir;
    assert !Bills.TextFieldsRaise(cfg) by {
      assert GetOpt(cfg, "utility_type") == GetOpt(entry, "utility_type");
      assert GetOpt(cfg, "username_env") == GetOpt(entry, "username_env");
      assert GetOpt(cfg, "password_env") == GetOpt(entry, "password_env");
    }
    Bills.ScraperKindBuilt(k, cfg);
    TypedEntryRaises(entry, rest, headless, dir);
  }

  /** A manual entry always yields a manual backend with the merged config. */
  lemma {:induction false} ManualEntryBuilt(entry: Dict, headless: Value, cacheDir: Value)
    requires GetOpt(entry, "type") == VStr("manual")
    ensures BackendsOf([VObj(entry)], headless, cacheDir)
      == Ok([Bills.Backend(Bills.Manual, EntryConfig(entry, headless, cacheDir))])
  {
    var cfg := EntryConfig(entry, headless, cacheDir);
    var none: seq<Value> := [];
    var built: seq<Bills.Backend> := [];
    var b := Bills.Backend(Bills.Manual, cfg);
    Bills.ManualBackendAlwaysBuilt(cfg);
    assert Truthy(VStr("manual"));
    assert BackendsOf(none, headless, cacheDir) == Ok(built);
    TypedEntryBuilt(entry, none, headless, cacheDir, Some(b), built);
    assert [VObj(entry)] + none == [VObj(entry)];
    assert [b] + built == [b];
  }

  /** `UtilitiesBillDueTask.run`: no backends means None is enqueued and
      nothing else happens; otherwise the bills of the backends that
      returned are sorted by due date (missing dates last), saved, the run
      recorded, and None enqueued. */
  function BillsRun(name: string, config: Dict, configData: Option<Dict>,
                    fetch: Bills.Backend -> Outcome<seq<Bills.Bill>>, store: Store, now: Instant): (r: RunResult)
    ensures Protocol(r, store, name, now)
    ensures r.raised.None? ==> r.actions[|r.actions| - 1] == Enqueued(NoResult)
  {
    match CacheDirOf(configData)
    case Raised(e) => Escaped(store, e)
    case Ok(cacheDir) =>
      match BuildBackends(config, cacheDir)
      case Raised(e) => Escaped(store, e)
      case Ok(backends) =>
        if |backends| == 0 then EarlyReturn(store, NoResult)
        else
          var sorted := Sort(Collect(backends, fetch), ByKey(Bills.DueKey));
          Finish(store, name, now, Some(BillList(sorted)), Ok(NoResult))
  }

  /** Without backends the run neither saves nor touches the schedule. */
  lemma {:induction false} BillsWithoutBackendsOnlyEnqueue(name: string, config: Dict, configData: Option<Dict>,
                                        fetch: Bills.Backend -> Outcome<seq<Bills.Bill>>, store: Store, now: Instant)
    requires CacheDirOf(configData).Ok?
    requires !Truthy(GetOpt(config, "backends"))
    ensures BillsRun(name, config, configData, fetch, store, now) == EarlyReturn(store, NoResult)
  {
  }

  /** The saved bills are ordered by due date and are exactly the bills the
      backends that returned produced. */
  lemma {:induction false} BillsSavedSorted(name: string, config: Dict, configData: Option<Dict>,
                         fetch: Bills.Backend -> Outcome<seq<Bills.Bill>>, store: Store, now: Instant,
                         backends: seq<Bills.Backend>)
    requires CacheDirOf(configData).Ok? && BuildBackends(config, CacheDirOf(configData).value) == Ok(backends)
    requires |backends| > 0
    ensures var r := BillsRun(name, config, configData, fetch, store, now);
      && r.actions[0].Saved? && r.actions[0].data.BillList?
      && SortedBy(r.actions[0].data.bills, ByKey(Bills.DueKey))
      && multiset(r.actions[0].data.bills) == multiset(Collect(backends, fetch))
  {
    SortIsSorted(Collect(backends, fetch), ByKey(Bills.DueKey));
  }

  // ---------------------------------------------------------------------------
  // Prayer times (`prayer/task.py`)

  /** `PrayerTimesTask.run`: only the "aladhan" backend exists. A failed or
      empty fetch enqueues None and leaves the schedule alone; a successful
      one is saved, recorded and enqueued. */
  function PrayerRun(name: string, config: Dict, configData: Option<Dict>,
                     fetch: Dict -> Outcome<map<string, Instant>>, store: Store, now: Instant): (r: RunResult)
    ensures Protocol(r, store, name, now)
    ensures Advanced in r.actions ==> r.actions[0].Saved? && r.actions[0].data.PrayerTimes?
                                      && |r.actions[0].data.times| > 0
  {
    match CacheDirOf(configData)
    case Raised(e) => Escaped(store, e)
    case Ok(cacheDir) =>
      if Get(config, "backend", VStr("aladhan")) != VStr("aladhan") then EarlyReturn(store, NoResult)
      else
        var cfg := WithCacheDir(config, cacheDir);
        if !CacheDirUsable(GetOpt(cfg, "cache_dir")) then Escaped(store, TypeError)
        else match fetch(cfg)
          case Raised(_) => EarlyReturn(store, NoResult)
          case Ok(times) =>
            if |times| == 0 then EarlyReturn(store, NoResult)
            else Finish(store, name, now, Some(PrayerTimes(times)), Ok(PrayerTimes(times)))
  }

  /** A failed or empty fetch does not advance the schedule. */
  lemma {:induction false} PrayerFailureKeepsSchedule(name: string, config: Dict, configData: Option<Dict>,
                                   fetch: Dict -> Outcome<map<string, Instant>>, store: Store, now: Instant)
    requires CacheDirOf(configData).Ok?
    requires var cfg := WithCacheDir(config, CacheDirOf(configData).value);
      fetch(cfg).Raised? || fetch(cfg) == Ok(map[])
    ensures var r := PrayerRun(name, config, configData, fetch, store, now);
      r.store == store && Advanced !in r.actions
  {
  }

  /** Any backend other than "aladhan" enqueues None and does nothing else. */
  lemma {:induction false} OtherPrayerBackendIgnored(name: string, config: Dict, configData: Option<Dict>,
                                  fetch: Dict -> Outcome<map<string, Instant>>, store: Store, now: Instant)
    requires CacheDirOf(configData).Ok?
    requires "backend" in config && config["backend"] != VStr("aladhan")
    ensures PrayerRun(name, config, configData, fetch, store, now) == EarlyReturn(store, NoResult)
  {
  }

  // ---------------------------------------------------------------------------
  // Friday prayer (`friday_prayer/task.py`, `mosque_factory.py`)

  datatype MosqueKind = SachseIslamicCenter | EastPlano

  datatype Mosque = Mosque(kind: MosqueKind, config: Dict)

  /** `create_mosque(type, cfg)`: the two known type names, exactly; an
      unknown or unhashable type and a constructor that raises (its
      CacheHelper cannot expand the directory) give None. */
  function CreateMosque(mosqueType: Value, cfg: Dict): (r: Option<Mosque>)
    ensures r.Some? <==> mosqueType in {VStr("sachse_islamic_center"), VStr("east_plano")}
                         && CacheDirUsable(GetOpt(cfg, "cache_dir"))
    ensures r.Some? ==> r.value.config == cfg
  {
    if !CacheDirUsable(GetOpt(cfg, "cache_dir")) then None
    else if mosqueType == VStr("sachse_islamic_center") then Some(Mosque(SachseIslamicCenter, cfg))
    else if mosqueType == VStr("east_plano") then Some(Mosque(EastPlano, cfg))
    else None
  }

  /** `get_name()`: the configured name or the mosque's own. */
  function MosqueName(m: Mosque): (r: Value)
    ensures "name" in m.config ==> r == m.config["name"]
  {
    Get(m.config, "name", VStr(match m.kind case SachseIslamicCenter => "Sachse Islamic Center"
                                             case EastPlano => "East Plano Islamic Center"))
  }

  /** `_build_mosques`. */
  function BuildMosques(config: Dict, cacheDir: Value): (r: Outcome<seq<Mosque>>)
    ensures !Truthy(GetOpt(config, "mosques")) ==> r == Ok([])
    ensures var ms := GetOpt(config, "mosques");
      r.Raised? <==> Truthy(ms) && (!ms.VList? || exists i | 0 <= i < |ms.items| :: !ms.items[i].VObj?)
    ensures r.Ok? ==> forall i | 0 <= i < |r.value| :: CacheDirUsable(GetOpt(r.value[i].config, "cache_dir"))
  {
    var entries :- Entries(GetOpt(config, "mosques"));
    MosquesOf(entries, cacheDir)
  }

  function MosquesOf(entries: seq<Value>, cacheDir: Value): (r: Outcome<seq<Mosque>>)
    ensures r.Ok? ==> |r.value| <= |entries|
    ensures r.Raised? ==> r.error == AttributeError
    ensures r.Raised? <==> exists i | 0 <= i < |entries| :: !entries[i].VObj?
    ensures r.Ok? ==> forall i | 0 <= i < |r.value| :: CacheDirUsable(GetOpt(r.value[i].config, "cache_dir"))
    decreases |entries|
  {
    if |entries| == 0 then Ok([])
    else
      assert forall i | 1 <= i < |entries| :: entries[i] == entries[1..][i - 1];
      match entries[0]
      case VObj(entry) =>
        var rest :- MosquesOf(entries[1..], cacheDir);
        var mosqueType := GetOpt(entry, "type");
        if !Truthy(mosqueType) then Ok(rest)
        else
          var m := CreateMosque(mosqueType, WithCacheDir(entry, cacheDir));
          Ok((if m.Some? then [m.value] else []) + rest)
      case _ => Raised(AttributeError)
  }

  /** The mosques whose times came back truthy, as (name, times) pairs. */
  function TimesList(mosques: seq<Mosque>, times: Mosque -> Value): (r: seq<(Value, Value)>)
    ensures |r| <= |mosques|
    ensures forall p | p in r :: Truthy(p.1)
    decreases |mosques|
  {
    if |mosques| == 0 then []
    else
      var t := times(mosques[0]);
      (if Truthy(t) then [(MosqueName(mosques[0]), t)] else []) + TimesList(mosques[1..], times)
  }

  /** The saved list: one `{"mosque_name": ..., "times": ...}` per pair. */
  function SavedTimes(pairs: seq<(Value, Value)>): (r: Value)
    ensures r.VList? && |r.items| == |pairs|
    ensures forall i | 0 <= i < |pairs| :: r.items[i] == VObj(map["mosque_name" := pairs[i].0, "times" := pairs[i].1])
  {
    VList(seq(|pairs|, i requires 0 <= i < |pairs| => VObj(map["mosque_name" := pairs[i].0, "times" := pairs[i].1])))
  }

  /** A value Python can use as a dict key: lists and dicts cannot. */
  predicate Hashable(v: Value) {
    !v.VList? && !v.VObj?
  }

  /** The names of a list of pairs. */
  function NamesOf(pairs: seq<(Value, Value)>): set<Value> {
    set i | 0 <= i < |pairs| :: pairs[i].0
  }

  /** `{t["mosque_name"]: t["times"] for t in times_list}`: later pairs
      overwrite earlier ones with the same name; an unhashable name raises. */
  function TimesByName(pairs: seq<(Value, Value)>): (r: Outcome<map<Value, Value>>)
    ensures r.Ok? <==> forall i | 0 <= i < |pairs| :: Hashable(pairs[i].0)
    ensures r.Raised? ==> r.error == TypeError
    ensures r.Ok? ==> r.value.Keys == NamesOf(pairs)
    decreases |pairs|
  {
    if |pairs| == 0 then Ok(map[])
    else
      var last := pairs[|pairs| - 1];
      var init := pairs[..|pairs| - 1];
      assert pairs == init + [last];
      assert NamesOf(pairs) == NamesOf(init) + {last.0};
      var m :- TimesByName(init);
      if !Hashable(last.0) then Raised(TypeError)
      else Ok(m[last.0 := last.1])
  }

  /** Each name maps to the times of the last pair carrying it. */
  lemma {:induction false} TimesByNameLastWins(pairs: seq<(Value, Value)>, i: nat)
    requires TimesByName(pairs).Ok? && i < |pairs|
    requires forall j | i < j < |pairs| :: pairs[j].0 != pairs[i].0
    ensures TimesByName(pairs).value[pairs[i].0] == pairs[i].1
    decreases |pairs|
  {
    var init := pairs[..|pairs| - 1];
    if i < |pairs| - 1 {
      assert init[i] == pairs[i];
      TimesByNameLastWins(init, i);
    }
  }

  /** `FridayPrayerTask.run`: no mosques means `{}` is enqueued and nothing
      else happens; otherwise the truthy times are saved, the run recorded,
      and the times enqueued keyed by mosque name. */
  function FridayRun(name: string, config: Dict, configData: Option<Dict>, times: Mosque -> Value,
                     store: Store, now: Instant): (r: RunResult)
    ensures Protocol(r, store, name, now)
  {
    match CacheDirOf(configData)
    case Raised(e) => Escaped(store, e)
    case Ok(cacheDir) =>
      match BuildMosques(config, cacheDir)
      case Raised(e) => Escaped(store, e)
      case Ok(mosques) =>
        if |mosques| == 0 then EarlyReturn(store, MosqueTimes(map[]))
        else
          var pairs := TimesList(mosques, times);
          var cached := match TimesByName(pairs) case Ok(m) => Ok(MosqueTimes(m)) case Raised(e) => Raised(e);
          Finish(store, name, now, Some(Data(SavedTimes(pairs))), cached)
  }

  /** With mosques configured, the saved list is written before the run is
      recorded even when building the name-keyed result raises afterwards. */
  lemma {:induction false} FridaySavesBeforeRecording(name: string, config: Dict, configData: Option<Dict>, times: Mosque -> Value,
                                   store: Store, now: Instant, mosques: seq<Mosque>)
    requires CacheDirOf(configData).Ok? && BuildMosques(config, CacheDirOf(configData).value) == Ok(mosques)
    requires |mosques| > 0
    ensures var r := FridayRun(name, config, configData, times, store, now);
      r.actions[0] == Saved(Data(SavedTimes(TimesList(mosques, times))))
  {
  }

  /** Two mosques reporting under one name: the later one's times win. */
  lemma {:induction false} LaterMosqueWins(n: Value, t1: Value, t2: Value)
    requires Hashable(n)
    ensures TimesByName([(n, t1), (n, t2)]) == Ok(map[n := t2])
  {
    var pairs := [(n, t1), (n, t2)];
    assert forall i | 0 <= i < |pairs| :: Hashable(pairs[i].0);
    TimesByNameLastWins(pairs, 1);
    assert NamesOf(pairs) == {n};
    var m := TimesByName(pairs).value;
    assert m.Keys == {n} && m[n] == t2;
    assert m == map[n := t2];
  }
}
