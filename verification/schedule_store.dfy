/** The persisted schedule rows of `dashboard/core/task.py` and
    `dashboard/core/models.py`.

    The `task_schedules` table is keyed by component name, so it is a map from
    name to row. Every `session_scope` block is one atomic step from the map
    before to the map after; a block that raises leaves the map as it was
    (the session rolls back). The wall clock is the explicit `now`.
 */
module ScheduleStore {
  import opened Wrappers
  import opened Values
  import opened Calendar
  import opened Schedule
  import opened ScheduleFacts

  /** One `TaskSchedule` row, without its key. A `None` next run means
      "run immediately". */
  datatype Row = Row(
    kind: string,
    config: Option<Dict>,
    nextRunAt: Option<Instant>,
    lastRunAt: Option<Instant>,
    lastError: Option<string>,
    createdAt: Instant,
    updatedAt: Instant)

  type Store = map<string, Row>

  /** `get_next_run_from_db`: the stored next run, or None when the row is
      missing, its next run is null, or the read fails (`readFails`). */
  function NextRunFromDb(store: Store, name: string, readFails: bool): (r: Option<Instant>)
    ensures r.Some? <==> !readFails && name in store && store[name].nextRunAt.Some?
    ensures r.Some? ==> r == store[name].nextRunAt
  {
    if readFails then None
    else if name in store then store[name].nextRunAt
    else None
  }

  /** `upsert_task_schedule`: overwrite kind and config of an existing row and
      only those optional fields that are passed; a new row stores exactly
      what is passed. */
  function Upsert(store: Store, name: string, kind: string, config: Option<Dict>,
                  nextRunAt: Option<Instant>, lastRunAt: Option<Instant>, lastError: Option<string>,
                  now: Instant): (s: Store)
    ensures s.Keys == store.Keys + {name}
    ensures forall n :: n in store && n != name ==> s[n] == store[n]
    ensures s[name].kind == kind && s[name].config == config && s[name].updatedAt == now
    ensures name !in store ==> s[name] == Row(kind, config, nextRunAt, lastRunAt, lastError, now, now)
    ensures name in store ==>
      && s[name].nextRunAt == (if nextRunAt.Some? then nextRunAt else store[name].nextRunAt)
      && s[name].lastRunAt == (if lastRunAt.Some? then lastRunAt else store[name].lastRunAt)
      && s[name].lastError == (if lastError.Some? then lastError else store[name].lastError)
      && s[name].createdAt == store[name].createdAt
  {
    if name in store then
      var prev := store[name];
      store[name := Row(kind, config,
                        if nextRunAt.Some? then nextRunAt else prev.nextRunAt,
                        if lastRunAt.Some? then lastRunAt else prev.lastRunAt,
                        if lastError.Some? then lastError else prev.lastError,
                        prev.createdAt, now)]
    else
      store[name := Row(kind, config, nextRunAt, lastRunAt, lastError, now, now)]
  }

  /** `BaseTask.ensure_scheduled`: an upsert that passes only the next run. */
  function EnsureScheduled(store: Store, name: string, spec: Spec, nextRunAt: Option<Instant>, now: Instant): (s: Store)
    ensures s.Keys == store.Keys + {name}
    ensures name in store && nextRunAt.None? ==> s[name].nextRunAt == store[name].nextRunAt
    ensures name !in store ==> s[name].nextRunAt == nextRunAt
  {
    Upsert(store, name, spec.kind, spec.config, nextRunAt, None, None, now)
  }

  /** `update_after_run`: no row, no change; otherwise the run is recorded at
      `now`, the error is cleared and the next run is computed from `now`.
      When the computation raises, the exception escapes and the session
      rolls back. */
  function UpdateAfterRun(store: Store, name: string, now: Instant): (r: Outcome<Store>)
    ensures name !in store ==> r == Ok(store)
    ensures name in store ==>
      var next := ComputeNextRun(store[name].kind, store[name].config, Some(now), now);
      && (r.Ok? <==> next.Ok?)
      && (r.Raised? ==> r.error == next.error)
      && (r.Ok? ==> r.value == store[name := store[name].(lastRunAt := Some(now), lastError := None,
                                                             nextRunAt := Some(next.value), updatedAt := now)])
  {
    if name !in store then Ok(store)
    else
      var row := store[name];
      var next :- ComputeNextRun(row.kind, row.config, Some(now), now);
      Ok(store[name := row.(lastRunAt := Some(now), lastError := None, nextRunAt := Some(next), updatedAt := now)])
  }

  /** The keys `get_all_task_schedules` reports for one row: the schedule
      fields and nothing about creation or update times. */
  datatype ScheduleInfo = ScheduleInfo(
    componentName: string,
    kind: string,
    config: Option<Dict>,
    nextRunAt: Option<Instant>,
    lastRunAt: Option<Instant>,
    lastError: Option<string>)

  function InfoOf(name: string, row: Row): ScheduleInfo {
    ScheduleInfo(name, row.kind, row.config, row.nextRunAt, row.lastRunAt, row.lastError)
  }

  /** `get_all_task_schedules`, as a set since the query has no ORDER BY. */
  function AllSchedules(store: Store): (r: set<ScheduleInfo>)
    ensures forall n :: n in store ==> InfoOf(n, store[n]) in r
    ensures forall i :: i in r ==> i.componentName in store && i == InfoOf(i.componentName, store[i.componentName])
  {
    set n | n in store :: InfoOf(n, store[n])
  }

  // ---------------------------------------------------------------------------
  // The component registry (`components` table)

  datatype ComponentRow = ComponentRow(enabled: Value, createdAt: Instant, updatedAt: Instant)

  type Registry = map<string, ComponentRow>

  /** `comp_config.get("enable", True)` for dict configs, True otherwise. */
  function EnabledOf(compConfig: Value): (e: Value)
    ensures !compConfig.VObj? ==> e == VBool(true)
    ensures compConfig.VObj? && "enable" !in compConfig.fields ==> e == VBool(true)
    ensures compConfig.VObj? && "enable" in compConfig.fields ==> e == compConfig.fields["enable"]
  {
    if compConfig.VObj? then Get(compConfig.fields, "enable", VBool(true)) else VBool(true)
  }

  /** The registry after every configured name has been upserted: each
      configured name has its enabled flag and update time set, keeping the
      creation time of an existing row, and every other row is untouched. */
  function SyncedRegistry(reg: Registry, comps: Dict, now: Instant): (r: Registry)
    ensures r.Keys == reg.Keys + comps.Keys
    ensures forall n :: n in comps ==> r[n].enabled == EnabledOf(comps[n]) && r[n].updatedAt == now
    ensures forall n :: n in comps ==> r[n].createdAt == (if n in reg then reg[n].createdAt else now)
    ensures forall n :: n in reg && n !in comps ==> r[n] == reg[n]
  {
    map n | n in reg.Keys + comps.Keys ::
      if n in comps then
        (if n in reg then reg[n].(enabled := EnabledOf(comps[n]), updatedAt := now)
         else ComponentRow(EnabledOf(comps[n]), now, now))
      else reg[n]
  }

  /** `config_data.get("components") or {}` when it is a dict. */
  function ComponentsOf(configData: Dict): Dict {
    var c := GetOpt(configData, "components");
    if c.VObj? then c.fields else map[]
  }

  /** `sync_components_from_config`: `config_data.get("components") or {}` is
      iterated with `.items()`, so a truthy value that is not a dict raises
      AttributeError and nothing is written. */
  function SyncComponents(reg: Registry, configData: Dict, now: Instant): (r: Outcome<Registry>)
    ensures r.Raised? <==> var c := GetOpt(configData, "components"); Truthy(c) && !c.VObj?
    ensures r.Raised? ==> r.error == AttributeError
    ensures r.Ok? ==> r.value == SyncedRegistry(reg, ComponentsOf(configData), now)
  {
    var c := GetOpt(configData, "components");
    if !Truthy(c) then
      assert ComponentsOf(configData).Keys == {};
      assert SyncedRegistry(reg, map[], now) == reg;
      Ok(reg)
    else if c.VObj? then Ok(SyncedRegistry(reg, c.fields, now))
    else Raised(AttributeError)
  }

  // ---------------------------------------------------------------------------
  // Facts relating the operations

  /** A next run written by an upsert is what the scheduler reads back. */
  lemma {:induction false} UpsertThenRead(store: Store, name: string, kind: string, config: Option<Dict>,
                       t: Instant, lastRunAt: Option<Instant>, lastError: Option<string>, now: Instant)
    ensures NextRunFromDb(Upsert(store, name, kind, config, Some(t), lastRunAt, lastError, now), name, false) == Some(t)
  {
  }

  /** A fresh row whose next run is not given reads as "run immediately";
      an existing row keeps its next run. */
  lemma {:induction false} EnsureScheduledKeepsNextRun(store: Store, name: string, spec: Spec, now: Instant)
    ensures NextRunFromDb(EnsureScheduled(store, name, spec, None, now), name, false)
         == NextRunFromDb(store, name, false)
  {
  }

  /** Upserting the same values twice is the same as upserting them once. */
  lemma {:induction false} UpsertIdempotent(store: Store, name: string, kind: string, config: Option<Dict>,
                         nextRunAt: Option<Instant>, lastRunAt: Option<Instant>, lastError: Option<string>, now: Instant)
    ensures var once := Upsert(store, name, kind, config, nextRunAt, lastRunAt, lastError, now);
      Upsert(once, name, kind, config, nextRunAt, lastRunAt, lastError, now) == once
  {
  }

  /** After a successful `update_after_run` the scheduler reads the freshly
      computed next run; other components' rows are untouched. */
  lemma {:induction false} UpdateAfterRunThenRead(store: Store, name: string, now: Instant)
    requires name in store && UpdateAfterRun(store, name, now).Ok?
    ensures var s := UpdateAfterRun(store, name, now).value;
      && NextRunFromDb(s, name, false) == ComputeNextRun(store[name].kind, store[name].config, Some(now), now).ToOption()
      && (forall n :: n in store && n != name ==> NextRunFromDb(s, n, false) == NextRunFromDb(store, n, false))
  {
  }

  /** A daily row that has just run is next due within one day of `now`. */
  lemma {:induction false} DailyRowDueWithinADay(store: Store, name: string, now: Instant)
    requires name in store && store[name].kind == DAILY
    requires UpdateAfterRun(store, name, now).Ok?
    ensures var next := NextRunFromDb(UpdateAfterRun(store, name, now).value, name, false);
      next.Some? && now < next.value <= now + MicrosPerDay
  {
    var row := store[name];
    if ConfigGiven(row.config) {
      var time := ConfigGet(row.config, "time", VStr("00:00"));
      var hm := ParseClock(time).value;
      DailyAtResult(hm.0, hm.1, now);
    }
  }

  /** One schedule entry per row: the listing has exactly as many entries as
      the table has rows. */
  lemma {:induction false} AllSchedulesCount(store: Store)
    ensures |AllSchedules(store)| == |store|
    decreases |store|
  {
    if |store| > 0 {
      var n :| n in store;
      var rest := store - {n};
      assert rest.Keys == store.Keys - {n};
      AllSchedulesCount(rest);
      assert AllSchedules(store) == AllSchedules(rest) + {InfoOf(n, store[n])} by {
        forall i | i in AllSchedules(store)
          ensures i in AllSchedules(rest) + {InfoOf(n, store[n])}
        {
          if i.componentName != n {
            assert i.componentName in rest;
          }
        }
      }
      assert InfoOf(n, store[n]) !in AllSchedules(rest);
    }
  }

  /** Syncing the same configuration twice at the same time changes nothing
      the second time. */
  lemma {:induction false} SyncIdempotent(reg: Registry, configData: Dict, now: Instant)
    requires SyncComponents(reg, configData, now).Ok?
    ensures SyncComponents(SyncComponents(reg, configData, now).value, configData, now)
         == SyncComponents(reg, configData, now)
  {
    var comps := ComponentsOf(configData);
    var once := SyncedRegistry(reg, comps, now);
    assert SyncedRegistry(once, comps, now) == once;
  }

  /** A name configured with a dict lacking "enable" is registered enabled;
      one whose "enable" is false is registered disabled. */
  lemma {:induction false} SyncEnableDefault(reg: Registry, name: string, compConfig: Dict, configData: Dict, now: Instant)
    requires "components" in configData && configData["components"].VObj?
    requires name in configData["components"].fields && configData["components"].fields[name] == VObj(compConfig)
    ensures SyncComponents(reg, configData, now).Ok?
    ensures "enable" !in compConfig ==> SyncComponents(reg, configData, now).value[name].enabled == VBool(true)
    ensures "enable" in compConfig ==> SyncComponents(reg, configData, now).value[name].enabled == compConfig["enable"]
  {
  }
}
