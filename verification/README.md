# personal_dashboard task scheduler, modelled in Dafny

This project models the task-scheduling core of the personal dashboard: a
Tk application whose plugins (weather, Friday prayer, prayer times and adhan,
Google Classroom homework, utility bills) refresh their data in the background.
Each plugin declares a schedule (hourly, daily at HH:MM, monthly on a day at
HH:MM, or every N seconds). The scheduler:

- persists the schedule and the last and next run times in a database table;
- computes the next run from the last run;
- arms one timer per task, runs the task, and stores the new next run;
- passes the task's result back to the UI thread over a queue.

The model also covers the data-shaping helpers those tasks rely on:

- the bill backends and the bill tables;
- the Classroom parsers and the assignment table;
- the Friday-prayer page readers and the khutbah text format;
- the prayer-time cache and its test-time overrides;
- the adhan trigger;
- the weather backends and the hourly cache;
- the file cache;
- the task list the UI shows;
- the hot-reload watcher and the plugin manager's task registration.

The modelling rules are:

- **Time.** An `Instant` counts microseconds since 0001-01-01T00:00:00, so it matches Python's naive `datetime` on the proleptic Gregorian calendar (`Calendar`). The wall clock is always a parameter (`now`, `today`).
- **Exceptions.** Python exceptions are explicit values: an operation returns `Outcome<T>`, which is `Ok(value)` or `Raised(error)` (`Wrappers`). Where the source catches an exception, the model turns it into the same fallback the source returns.
- **JSON.** JSON configs and API bodies are the `Value` datatype: null, bool, int, string, list or dict (`Values`).
- **Outside code.** Network requests, the browser, third-party parsers (dateutil, `eval`/`str` round trips) and audio playback are parameters standing for their results.
- **Database.** The bill and assignment tables are sequences of rows, in insertion order. The `TaskSchedule` table (`ScheduleStore.Store`) is a map keyed by component name, its primary key. Each service function is a pure function from the old table to the new one.

Modules:

| module | models |
|---|---|
| `Wrappers`, `Values`, `Text`, `Calendar`, `Iso` | Python values, string functions, `int()`, `strip`/`split`/`lower`, dates, `strftime`/`strptime`/`isoformat` |
| `Schedule`, `ScheduleFacts` | `compute_next_run` and its properties |
| `ScheduleStore` | the `TaskSchedule` table: `upsert_task_schedule`, `get_next_run_from_db`, `update_after_run` (`core/task.py`) and `get_all_task_schedules` (`core/models.py`) |
| `TaskManager`, `ResultChannel`, `TaskDisplay`, `ApiServer` | timers, the result queue, the task table the UI shows, the schedule API |
| `PluginSchedules`, `PluginRuns`, `PluginManager`, `HotReload` | each plugin's schedule, each plugin task's `run`, task registration and the reload watcher |
| `CacheHelper` | the file cache shared by the mosques, prayer times and weather |
| `Bills`, `BillCache`, `BillText`, `BillService`, `ManualBackend` | the bill namedtuple, the scraper backends' caching and text parsing, the bill tables, the manual backend |
| `Classroom`, `ClassroomService`, `Sorting` | the Classroom API and scraper parsing, the assignment table, the due-date sort |
| `FridayPrayer`, `PrayerBase`, `AudioManager`, `WeatherBackend`, `Payloads` | the mosque readers and khutbah text, prayer times, the adhan trigger, the weather backends, the queue payloads |

Two behaviours of the code worth knowing:

- **Monthly schedules.** A monthly schedule whose day does not exist in the month raises `ValueError` (no clamping to the month's last day). `update_after_run` then raises and its session rolls back, so the row keeps its previous next run.
- **Active timers.** `get_active_timers` lists every timer the manager holds, including fired and cancelled one-shot timers.

## Model

| member | source | states |
|---|---|---|
| Schedule.ComputeNextRun | dashboard/core/task.py:26-67 | the baseline is the last run or, without one, the current time; hourly is exactly one hour after it; an unknown kind, or daily/interval/monthly without a config, is exactly one day after it |
| Schedule.ComputeDaily | dashboard/core/task.py:36-44 | with a config holding "time", a daily task's next run is that "HH:MM" placed after the baseline (the last run, or the current time without one) |
| Schedule.ComputeMonthly | dashboard/core/task.py:55-66 | with a config holding "day" and "time", a monthly task's next run is that day and "HH:MM" placed after the baseline |
| Schedule.ParseClockOfFormat | dashboard/core/task.py:37-40 | an "HH:MM" written with two-digit padding is read back by the daily branch as the same hour and minute |
| Schedule.ParseClock | dashboard/core/task.py:38-40 | a clock value reads as hour and minute, the hour from the first colon-separated field of the stripped text and the minute 0 when there is no second field; anything unreadable raises ValueError |
| Schedule.NextInterval | dashboard/core/task.py:49-51 | the interval branch succeeds exactly when `interval_seconds` converts to an int and the result is not before the earliest representable time; the result is the baseline plus that many seconds |
| Schedule.NextMonth | dashboard/core/task.py:60-64 | one month later keeps the day number; December goes to January of the next year, every other month to the next month of the same year |
| ScheduleFacts.DailyAtResult | dashboard/core/task.py:36-44 | daily succeeds if and only if HH:MM is a valid time of day; the result then shows HH:MM:00.000000 and lies strictly after the baseline and at most one day after it |
| Schedule.DailyAt | dashboard/core/task.py:41-44 | placing HH:MM succeeds exactly when it is a valid time of day, raises ValueError otherwise, and lands strictly after the baseline and at most one day after it |
| ScheduleFacts.DailyIsEarliest | dashboard/core/task.py:41-43 | the daily result is the earliest instant after the baseline that shows the configured time of day |
| ScheduleFacts.MonthlyAtResult | dashboard/core/task.py:53-65 | monthly succeeds exactly when the time is valid and the day exists in the baseline's month (and in the next month when it rolls over); the result is that day at HH:MM:00 of this month when later than the baseline, otherwise of the next month, and always after the baseline |
| Schedule.MonthlyAt | dashboard/core/task.py:59-65 | placing day and HH:MM raises only ValueError, and succeeds only when the time is valid and the day exists in the baseline's month |
| ScheduleFacts.MonthlyRaisesOnMissingDay | dashboard/core/task.py:59 | a day missing from the baseline's month raises ValueError instead of being clamped |
| ScheduleFacts.MonthlyDay31InApril | dashboard/core/task.py:59 | day 31 raises in April whatever the time |
| ScheduleFacts.NoLastRunUsesNow | dashboard/core/task.py:32-34 | no last run gives the same result as a last run at the current time |
| ScheduleFacts.IntervalDefaultsToOneDay | dashboard/core/task.py:49-51 | an interval config without `interval_seconds` waits 86400 seconds |
| ScheduleFacts.NextRunAfterBase | dashboard/core/task.py:26-67 | every successful result is after the baseline, except an interval of zero or fewer seconds |
| ScheduleFacts.DailyWrapAround | dashboard/core/task.py:41-43 | a daily run at exactly HH:MM is next due at HH:MM on the next calendar day |
| ScheduleFacts.DailySameDay | dashboard/core/task.py:41-44 | a daily run earlier in the day than HH:MM is next due at HH:MM that same day |
| ScheduleFacts.MonthlyDecemberRollover | dashboard/core/task.py:58-64 | a monthly run in December after the configured day is next due on that day of January of the following year |
| ScheduleStore.NextRunFromDb | dashboard/core/task.py:70-81 | the stored next run is returned if and only if the read succeeds, the row exists and its next run is not null |
| ScheduleStore.Upsert | dashboard/core/task.py:84-119 | exactly one row is written: kind, config and update time always, and each optional field only when it is passed, keeping the old value otherwise; a new row stores what is passed; every other row is unchanged |
| ScheduleStore.EnsureScheduled | dashboard/core/task.py:153-160 | an existing row keeps its next run when none is passed; a new row gets the one passed |
| ScheduleStore.UpdateAfterRun | dashboard/core/task.py:122-134 | a missing row changes nothing; otherwise the run is recorded at the current time, the error cleared and the next run computed from the current time, and a raising computation writes nothing and propagates its error |
| ScheduleStore.AllSchedules | dashboard/core/models.py:41-54 | the listing holds exactly one entry per row, carrying that row's fields |
| ScheduleStore.SyncComponents | dashboard/core/models.py:63-76 | a truthy `components` value that is not a dict raises AttributeError; otherwise every configured name is registered with its `enable` flag (default true) and update time, keeping an existing row's creation time, and no other row changes |
| ScheduleStore.UpsertThenRead | dashboard/core/task.py:70-119 | a next run written by an upsert is what the scheduler reads back |
| ScheduleStore.EnsureScheduledKeepsNextRun | dashboard/core/task.py:153-160 | ensuring a schedule without a next run leaves what the scheduler reads unchanged |
| ScheduleStore.UpsertIdempotent | dashboard/core/task.py:84-119 | upserting the same values twice equals upserting them once |
| ScheduleStore.UpdateAfterRunThenRead | dashboard/core/task.py:122-134 | after a successful update the scheduler reads the freshly computed next run, and reads for other components are unchanged |
| ScheduleStore.DailyRowDueWithinADay | dashboard/core/task.py:122-134 | a daily row that has just run is next due after the current time and within one day of it |
| ScheduleStore.AllSchedulesCount | dashboard/core/models.py:41-54 | the listing has exactly as many entries as the table has rows |
| ScheduleStore.SyncIdempotent | dashboard/core/models.py:63-76 | syncing the same configuration twice at the same time changes nothing the second time |
| ScheduleStore.SyncEnableDefault | dashboard/core/models.py:68 | a component dict without `enable` is registered enabled; one with `enable` is registered with that value |
| TaskManager.Cancel | dashboard/core/task_manager.py:41 | a cancelled timer is no longer armed and keeps its time, job, delay and one-shot flag |
| TaskManager.ScheduleTask | dashboard/core/task_manager.py:35-52 | the name maps to a fresh armed timer due `delay` seconds from now; other timers, the registry and the queue are unchanged |
| TaskManager.RegisterTask | dashboard/core/task_manager.py:65-68 | the name maps to the new runnable; other registrations and all timers are unchanged |
| TaskManager.DelayFor | dashboard/core/task_manager.py:85-91 | no stored next run or a past one gives 0; a future one gives the whole seconds until it, truncated |
| TaskManager.ScheduleRegistered | dashboard/core/task_manager.py:70-93 | an unregistered name changes nothing; otherwise the config is remembered and a one-shot timer for the stored next run replaces the name's timer |
| TaskManager.RunRegistered | dashboard/core/task_manager.py:95-111 | a None config does nothing; otherwise the runnable's queued results are kept and the task is armed again from the stored next run |
| TaskManager.ActiveTimers | dashboard/core/task_manager.py:113-120 | one entry per stored timer with the time it was scheduled for |
| TaskManager.RunTaskNow | dashboard/core/task_manager.py:122-139 | an unregistered name changes nothing; a registered one adds the runnable's results to the queue and leaves the timers alone |
| TaskManager.Callback | dashboard/core/task_manager.py:57 | the call raises only for a plain callback that raises, since the registered wrapper catches everything; registrations are kept and messages are only appended to the queue |
| TaskManager.RunTask | dashboard/core/task_manager.py:54-63 | a raising plain callback leaves only its queued messages behind, with no stamp and no re-arm; a recurring timer that returned is re-armed `delay` seconds on; registrations are kept and the queue only grows |
| TaskManager.Fire | dashboard/core/task_manager.py:43-48 | a missing, cancelled or fired timer changes nothing; an armed plain timer puts exactly its callback messages on the queue; registrations are kept |
| TaskManager.Step | dashboard/core/task_manager.py:35-144 | no operation forgets a registration; the result queue only grows, and only firing a timer or running a task now adds to it |
| TaskManager.Valid | dashboard/core/task_manager.py:80-93 | the empty manager is valid, and a valid manager with nothing registered holds only plain timers |
| TaskManager.Stop | dashboard/core/task_manager.py:141-144 | every timer is left unarmed, keeping its scheduled time; nothing else changes |
| TaskManager.StepPreservesValid | dashboard/core/task_manager.py:35-144 | every transition keeps configs only for registered names and keeps registered-task timers one-shot, under their own registered name |
| TaskManager.ScheduleTwiceKeepsLast | dashboard/core/task_manager.py:39-48 | scheduling a name twice equals scheduling only the second timer |
| TaskManager.RegisterLastWins | dashboard/core/task_manager.py:67 | registering twice under a name equals registering only the later runnable |
| TaskManager.ScheduledTimerIsListed | dashboard/core/task_manager.py:113-120 | a scheduled timer is listed with its scheduled time, and every other timer is still listed with its own |
| TaskManager.RecurringTimerRearms | dashboard/core/task_manager.py:54-61 | a recurring timer whose callback returns is armed again with the same delay counted from the firing time |
| TaskManager.RaisingTimerStops | dashboard/core/task_manager.py:56-63 | a callback that raises is not re-armed, one-shot or recurring, and the exception does not escape |
| TaskManager.OneShotTimerFinishes | dashboard/core/task_manager.py:56-60 | a one-shot timer that returns is stamped with its run time and not re-armed |
| TaskManager.RegisteredTaskRearms | dashboard/core/task_manager.py:54-111 | a registered task is re-armed for the stored next run even when its runnable raised, and the new timer is the one stamped with the run time |
| TaskManager.RegisteredWithoutConfigStops | dashboard/core/task_manager.py:95-111 | a registered task whose config is None is neither run nor re-armed |
| TaskManager.StoppedTimersNeverFire | dashboard/core/task_manager.py:141-144 | after stop no timer fires |
| ResultChannel.FirstMatch | dashboard/core/app.py:343-347 | the first component in list order with the entry's name, or none exactly when no component has it |
| ResultChannel.AllMatches | dashboard/core/app.py:221-224 | every component with the entry's name, in list order |
| ResultChannel.Drain | dashboard/core/app.py:337-350 | the loop makes exactly the calls and leaves exactly the queue of the entry-by-entry drain, and re-arms in 1000 ms |
| ResultChannel.DeliverAll | dashboard/core/app.py:221-224 | a result goes to the targets in order, up to and including the first one that raises |
| ResultChannel.DrainEmptiesQueue | dashboard/core/app.py:340-347 | when no handler raises, the drain empties the queue |
| ResultChannel.DrainDropsUnmatched | dashboard/core/app.py:343-344 | entries no component is named after are dropped without a call |
| ResultChannel.DrainConcat | dashboard/core/app.py:340-341 | FIFO: draining `a + b` makes the calls for `a` before those for `b` |
| ResultChannel.DrainIsPrefixOfMatched | dashboard/core/app.py:337-349 | the calls made are a prefix of "each matched entry, to its first matching component, in queue order", cut short only by a raising handler |
| ResultChannel.DrainMakesEveryMatchedCall | dashboard/core/app.py:337-349 | when no handler raises, the drain makes exactly those calls |
| ResultChannel.UpdateAgreesWithDrain | dashboard/core/app.py:215-224 | with distinct component names the startup loop without `break` and the drain make the same calls and leave the same queue |
| ResultChannel.UpdateReachesEveryMatch | dashboard/core/app.py:218-224 | without the `break` a result reaches every component of its name and no other |
| PluginSchedules.NormalizeClock | dashboard/plugins/prayer/task.py:27-34 | a configured clock that parses is rewritten as zero-padded HH:MM of the same hour and minute; one that does not parse becomes the fallback |
| PluginSchedules.MillisHeuristic | dashboard/plugins/prayer/task.py:35 | an int below 100000 is kept, a larger one is floor-divided by 1000, a bool passes through, and None, text, lists and dicts raise TypeError |
| PluginSchedules.WeatherSchedule | dashboard/plugins/weather/task.py:33-42 | an `update_interval` that converts to an int gives an interval of at least 60 seconds; a missing or unconvertible one gives daily at 10:00 |
| PluginSchedules.ClassroomSchedule | dashboard/plugins/classroom/task.py:23-26 | always an interval, 3600 seconds by default, failing exactly when the milliseconds rule fails |
| PluginSchedules.TimeOrInterval | dashboard/plugins/prayer/task.py:24-36 | a truthy `schedule_time` gives a daily schedule at the normalised time; otherwise an interval using the milliseconds rule, with its error |
| PluginSchedules.BillsSchedule | dashboard/plugins/utilities_bill_due/task.py:25-37 | no schedule time and no interval gives 86400 seconds; an unparsable schedule time gives daily at 07:00 |
| PluginSchedules.PrayerSchedule | dashboard/plugins/prayer/task.py:24-36 | no schedule time and no interval gives 3600 seconds; an unparsable schedule time gives daily at 10:00 |
| PluginSchedules.FridaySchedule | dashboard/plugins/friday_prayer/task.py:23-34 | a truthy non-dict `daily_update` raises AttributeError; a falsy one gives daily at 10:00; a disabled dict gives a one-day interval; an enabled dict gives its normalised time, default 10:00 |
| PluginSchedules.DefaultClockIsNormal | dashboard/plugins/prayer/task.py:34 | the default clocks "10:00" and "07:00" are already normal and read back as their hour and minute |
| PluginSchedules.NormalizedClockReadsBack | dashboard/plugins/prayer/task.py:27-32 | a normalised clock is read back by the scheduler as the configured hour and minute |
| PluginSchedules.NormalizeIdempotent | dashboard/plugins/prayer/task.py:27-32 | normalising twice gives the same text as normalising once |
| PluginSchedules.DailyPluginScheduleRunsAtConfiguredTime | dashboard/plugins/prayer/task.py:27-32 | a daily plugin schedule built from a configured HH:MM is placed by the scheduler exactly at that HH:MM |
| PluginSchedules.WeatherIntervalAtLeastAMinute | dashboard/plugins/weather/task.py:36-38 | a weather interval never fires sooner than 60 seconds after the last run |
| PluginRuns.Finish | dashboard/plugins/utilities_bill_due/task.py:66-73 | the shared tail of a run saves first (only when there is something to save), records the run, then enqueues the result as the last action, which happens exactly when nothing raised; the schedule advances exactly when `update_after_run` succeeds |
| PluginRuns.DailyRunRearmsWithinADay | dashboard/core/task_manager.py:70-111 | after a daily task's run is recorded, the next run read back from the store exists, and the one-shot timer the task manager re-arms for it has a delay of at most 86400 seconds |
| PluginRuns.EffectOf | dashboard/core/task_manager.py:99-108 | the task manager sees a run as raising exactly when an exception escaped it |
| PluginRuns.OneMessagePerNormalRun | dashboard/plugins/weather/task.py:60-67 | a run that keeps the protocol puts exactly one message, carrying its component's name, on the queue when it returns normally and none when it raises |
| PluginRuns.CacheDirOf | dashboard/plugins/prayer/task.py:45-47 | no or empty `config_data` gives no directory; a non-dict "cache" entry raises; otherwise the directory is the one configured |
| PluginRuns.WithCacheDir | dashboard/plugins/prayer/task.py:84-86 | the entry is kept as it is, plus `cache_dir` only when the entry has none and the directory is truthy |
| PluginRuns.WeatherBackendConfig | dashboard/plugins/weather/task.py:69-75 | weather's merge raises exactly when reading the directory raises, keeps every other key, and a truthy directory replaces the component's own `cache_dir` |
| PluginRuns.CacheDirMergesDiffer | dashboard/plugins/weather/task.py:69-75 | with a configured directory the weather merge always uses it, while the other plugins keep a `cache_dir` the component already sets |
| PluginRuns.Collect | dashboard/plugins/utilities_bill_due/task.py:58-64 | every item from every fetch that returned is collected |
| PluginRuns.CollectedFromSomeSource | dashboard/plugins/classroom/task.py:44-54 | everything collected came from a fetch that returned |
| PluginRuns.FailingSourceSkipped | dashboard/plugins/utilities_bill_due/task.py:60-64 | a source whose fetch raised contributes nothing |
| PluginRuns.HourlyData | dashboard/plugins/weather/task.py:77-104 | a missing coordinate gives the "lat/lon required" error dict and an unconvertible one "Invalid lat/lon"; a failed points request gives its error dict; the run raises AttributeError exactly when the coordinates are fine and the points body cannot be read for a URL; any other result is an error dict or the hourly forecast fetched from the URL the points body names |
| PluginRuns.FetchFrom | dashboard/core/cache_helper.py:13-22 | a backend whose cache directory cannot be expanded raises TypeError on construction; otherwise its fetch is called with the merged config |
| PluginRuns.WeeklyData | dashboard/plugins/weather/task.py:106-116 | the backend defaults to "nws"; an unknown name gives an error dict naming it, and a failing merge raises before the choice |
| PluginRuns.CurrentData | dashboard/plugins/weather/task.py:118-122 | current weather always asks OpenWeatherMap with the merged config |
| PluginRuns.WeatherData | dashboard/plugins/weather/task.py:51-58 | "Hourly Weather" uses the hourly fetch, exceptions included |
| PluginRuns.HasKey | dashboard/plugins/weather/task.py:60 | `"error" in data` looks at dict keys and list items, and raises TypeError on None, bools and ints |
| PluginRuns.UsableWeather | dashboard/plugins/weather/task.py:60 | falsy data is not usable; a dict is usable exactly when it is non-empty and has no "error" key |
| PluginRuns.WeatherRun | dashboard/plugins/weather/task.py:44-67 | the weather run keeps the protocol, and a fetch that raises escapes before the run is recorded or anything is enqueued |
| PluginRuns.WeatherErrorEnqueuedNotSaved | dashboard/plugins/weather/task.py:60-67 | an error dict is enqueued but not saved, and the run is still recorded |
| PluginRuns.WeatherDataSavedThenEnqueued | dashboard/plugins/weather/task.py:60-67 | usable data is saved, then the run recorded, then the data enqueued |
| PluginRuns.HourlyNeedsCoordinates | dashboard/plugins/weather/task.py:79-82 | hourly weather without "lat" saves nothing and enqueues the "lat/lon required" error |
| PluginRuns.MalformedPointsEscape | dashboard/plugins/weather/task.py:53-65 | a points body that is not a dict, or whose "properties" is not a dict, makes the hourly run raise AttributeError with nothing saved, recorded or enqueued |
| PluginRuns.PointsUrlFetched | dashboard/plugins/weather/task.py:95-101 | a points body naming a forecastHourly URL under "properties" leads to the hourly request for exactly that URL |
| PluginRuns.HourlyUrl | dashboard/plugins/weather/task.py:95 | reading the hourly URL raises AttributeError exactly when the points body, or its "properties" value, is not a dict; a body without "properties" gives no URL |
| PluginRuns.ClassroomRun | dashboard/plugins/classroom/task.py:28-64 | the classroom run keeps the protocol, and no fetchers means an empty list is enqueued and nothing else happens |
| PluginRuns.ClassroomSavedListSorted | dashboard/plugins/classroom/task.py:44-58 | the saved list is sorted by due date (missing dates last) and is a permutation of what the fetchers that returned produced |
| PluginRuns.EntryConfig | dashboard/plugins/utilities_bill_due/task.py:82-86 | the entry is kept; `headless` is added from the component exactly when the entry lacks it and the component's is not None; `cache_dir` is added with the directory exactly when the entry has none and the directory is truthy; no other key is added |
| PluginRuns.BuildBackends | dashboard/plugins/utilities_bill_due/task.py:75-90 | no backends configured builds nothing, a truthy non-list raises, and a list is built entry by entry |
| PluginRuns.BackendsOf | dashboard/plugins/utilities_bill_due/task.py:78-89 | at most one backend per entry, each built from some entry's merged config; raising constructors (including the cache directory TypeError) make the build raise, see TypedEntryRaises |
| PluginRuns.UntypedEntrySkipped | dashboard/plugins/utilities_bill_due/task.py:79-81 | an entry without a truthy type builds nothing |
| PluginRuns.TypedEntryBuilt | dashboard/plugins/utilities_bill_due/task.py:78-89 | an entry with a truthy type puts the backend it builds, when there is one, ahead of the backends built from the later entries |
| PluginRuns.TypedEntryRaises | dashboard/plugins/utilities_bill_due/task.py:87 | an entry whose constructor raises makes the whole build raise that exception, whatever entries follow |
| PluginRuns.ManualEntryBuilt | dashboard/plugins/utilities_bill_due/task.py:79-89 | a manual entry always yields a manual backend with the merged config |
| PluginRuns.BillsRun | dashboard/plugins/utilities_bill_due/task.py:39-73 | the bills run keeps the protocol and, when nothing escapes, ends by enqueueing None; exceptions from reading the cache directory or building the backends (UnusableCacheDirEscapes) escape before any save |
| PluginRuns.UnusableCacheDirEscapes | dashboard/plugins/utilities_bill_due/task.py:46-50 | a truthy non-text `cache.directory` reaching a scraping backend without its own `cache_dir` escapes `run` as TypeError before anything is saved or enqueued |
| PluginRuns.BillsWithoutBackendsOnlyEnqueue | dashboard/plugins/utilities_bill_due/task.py:49-56 | without backends the run only enqueues None |
| PluginRuns.BillsSavedSorted | dashboard/plugins/utilities_bill_due/task.py:58-67 | the saved bills are sorted by due date (missing dates last) and are a permutation of the bills the backends that returned produced |
| PluginRuns.PrayerRun | dashboard/plugins/prayer/task.py:38-77 | the prayer run keeps the protocol, and it records a run only after saving a non-empty set of times |
| PluginRuns.PrayerFailureKeepsSchedule | dashboard/plugins/prayer/task.py:55-69 | a failed or empty fetch leaves the schedule untouched |
| PluginRuns.OtherPrayerBackendIgnored | dashboard/plugins/prayer/task.py:79-83 | any backend other than "aladhan" enqueues None and does nothing else |
| PluginRuns.CreateMosque | dashboard/plugins/friday_prayer/mosque_factory.py:14-25 | a mosque is created exactly for the two known type names when its cache directory is usable, and carries the config it was given |
| PluginRuns.BuildMosques | dashboard/plugins/friday_prayer/task.py:72-84 | no mosques configured gives none; the call raises exactly when the setting is truthy but not a list or holds a non-dict; every mosque built has a usable cache directory |
| PluginRuns.MosqueName | dashboard/plugins/friday_prayer/mosques/east_plano.py:13-14 | a configured name is the mosque's name |
| PluginRuns.MosquesOf | dashboard/plugins/friday_prayer/task.py:74-83 | at most one mosque per entry; the loop raises AttributeError exactly when some entry is not a dict; every mosque built has a usable cache directory |
| PluginRuns.TimesList | dashboard/plugins/friday_prayer/task.py:53-61 | only truthy times are kept, at most one pair per mosque |
| PluginRuns.SavedTimes | dashboard/plugins/friday_prayer/task.py:59-62 | one `{"mosque_name", "times"}` dict per pair, in order |
| PluginRuns.TimesByName | dashboard/plugins/friday_prayer/task.py:66 | the name-keyed result succeeds exactly when every name is hashable (TypeError otherwise) and has exactly the names of the pairs as keys |
| PluginRuns.TimesByNameLastWins | dashboard/plugins/friday_prayer/task.py:66 | each name maps to the times of the last pair carrying it |
| PluginRuns.FridayRun | dashboard/plugins/friday_prayer/task.py:36-70 | the Friday prayer run keeps the protocol |
| PluginRuns.FridaySavesBeforeRecording | dashboard/plugins/friday_prayer/task.py:62-66 | with mosques configured the list is saved first, even when building the name-keyed result raises afterwards |
| PluginRuns.LaterMosqueWins | dashboard/plugins/friday_prayer/task.py:66 | two mosques reporting under one name: the later one's times win |
| TaskDisplay.WholeSeconds | dashboard/plugins/task_manager/task_manager_component.py:91 | `int()` truncates toward zero for both signs |
| TaskDisplay.FormatTimedelta | dashboard/plugins/task_manager/task_manager_component.py:89-101 | a duration under an hour ends in its seconds ("s"), one of an hour or more ends in its minutes ("m"), the seconds dropped |
| TaskDisplay.FormatShowsFields | dashboard/plugins/task_manager/task_manager_component.py:89-101 | hours, minutes below 60 and seconds below 60 add back up to the whole seconds, and the text shows "Hh Mm", "Mm Ss" or "Ss" according to the largest non-zero field |
| TaskDisplay.FractionIgnored | dashboard/plugins/task_manager/task_manager_component.py:91 | fractions of a second never change the text |
| TaskDisplay.FormatExamples | dashboard/plugins/task_manager/task_manager_component.py:96-101 | 90 seconds reads "1m 30s", 7500 seconds "2h 5m", 59.999999 seconds "59s" |
| TaskDisplay.NextRun | dashboard/plugins/task_manager/task_manager_component.py:103-113 | a task missing either attribute has no next run; a task that has not run is due now |
| TaskDisplay.NextRunAfterRun | dashboard/plugins/task_manager/task_manager_component.py:103-109 | after a run the next run is the last run plus the interval, whatever the current time |
| CacheHelper.ExpandUser | dashboard/core/cache_helper.py:20 | a path not starting with "~" is kept and "~" alone is the home directory |
| CacheHelper.JoinPath | dashboard/core/cache_helper.py:21 | an absolute second part replaces the first, and the result always ends with the second part |
| CacheHelper.CacheDirectory | dashboard/core/cache_helper.py:13-21 | construction raises TypeError exactly for a truthy non-string directory; the directory ends with the component name, and is ".cache" without either |
| CacheHelper.GetCachedContent | dashboard/core/cache_helper.py:30-49 | content is returned only from an existing file whose parseable "date" is today, and a missing file reads as a miss |
| CacheHelper.SaveToCache | dashboard/core/cache_helper.py:51-61 | the URL's file holds the content with today's date, and every other URL's file is unchanged |
| CacheHelper.SavedContentReadSameDay | dashboard/core/cache_helper.py:30-61 | what was saved today is read back today |
| CacheHelper.StaleEntryIgnored | dashboard/core/cache_helper.py:41-45 | an entry written on another day is never returned |
| CacheHelper.SaveKeepsOtherUrls | dashboard/core/cache_helper.py:24-28 | saving one URL does not change what another URL reads |
| CacheHelper.FetchPageContent | dashboard/plugins/friday_prayer/mosque_base.py:29-50 | unless forced, truthy cached content is returned without fetching; otherwise a response is saved and returned, and a failed request saves nothing |
| CacheHelper.SecondFetchHitsCache | dashboard/plugins/friday_prayer/mosque_base.py:29-50 | after a forced fetch, an unforced fetch of the same URL on the same day returns the same content without a new response |
| HotReload.LastDot | dashboard/core/hot_reload.py:60 | the position of the last dot, with no dot after it, or none exactly when there is no dot |
| HotReload.Suffix | dashboard/core/hot_reload.py:60 | a suffix is empty or a dot-led, dot-free proper ending of the name |
| HotReload.SuffixOfExtension | dashboard/core/hot_reload.py:60 | "stem.ext" has suffix ".ext" |
| HotReload.DotFileHasNoSuffix | dashboard/core/hot_reload.py:60 | a dot file such as ".env" has no suffix |
| HotReload.CodeDirsMatch | dashboard/core/hot_reload.py:67-89 | the code-directory loop answers true exactly when the file lies under some code directory and is a ".py" file outside `__pycache__` |
| HotReload.NewHandler | dashboard/core/hot_reload.py:21-27 | a new handler has never reloaded and has nothing pending |
| HotReload.ShouldReload | dashboard/core/hot_reload.py:29-91 | nothing reloads within the cooldown; after it, exactly YAML and ".env*" files under the config directory and Python sources under a code directory do |
| HotReload.RestartCommand | dashboard/core/hot_reload.py:150-160 | the command starts with the interpreter, "-m", "dashboard.main", and has "--config" and the path appended exactly when a non-empty config path exists |
| HotReload.PerformReload | dashboard/core/hot_reload.py:143-160 | a reload clears the pending flag and restarts with that command |
| HotReload.ScheduleReload | dashboard/core/hot_reload.py:129-141 | a pending reload absorbs the request; with a Tk root the reload is marked pending and deferred; without one it restarts at once |
| HotReload.OnEvent | dashboard/core/hot_reload.py:93-127 | only file modifications and creations react, exactly when they should reload; only a reaction moves the last-reload time, and only to now |
| HotReload.CooldownAfterTrigger | dashboard/core/hot_reload.py:29-35 | a second event within the cooldown of a triggering one does nothing, whatever file it names |
| HotReload.PendingAbsorbsTrigger | dashboard/core/hot_reload.py:129-132 | a triggering event while a reload is pending only moves the cooldown forward |
| HotReload.NoRootRestartsAtOnce | dashboard/core/hot_reload.py:139-141 | without a Tk root a triggering event restarts at once and leaves nothing pending |
| HotReload.SavedSourceSchedulesReload | dashboard/core/hot_reload.py:82-85 | a ".py" file saved in a code directory after the cooldown schedules a reload through Tk |
| HotReload.ManagerCodeDirs | dashboard/core/hot_reload.py:291-297 | the code directories default to the dashboard package directory |
| PluginManager.RegisterComponent | dashboard/core/plugin_manager.py:31-34 | the class is stored under its name and every other entry is unchanged |
| PluginManager.LastRegistrationWins | dashboard/core/plugin_manager.py:34 | of several classes registered under one name, the last is kept |
| PluginManager.CreateComponent | dashboard/core/plugin_manager.py:36-49 | a component is built exactly for a registered name with a non-empty config whose "enable" (default False) is truthy, from that class and config |
| PluginManager.DisabledByDefault | dashboard/core/plugin_manager.py:43 | a config that does not mention "enable" builds nothing |
| ApiServer.SafeComponentConfig | dashboard/api/server.py:24-28 | no key whose lower-case form is a secret survives, and every other key keeps its value |
| ApiServer.SecretDroppedInAnyCase | dashboard/api/server.py:28 | "Password", "PASSWORD" and any other casing of a secret key are dropped |
| ApiServer.SafeConfigIdempotent | dashboard/api/server.py:24-28 | filtering twice equals filtering once |
| ApiServer.SerializeDatetime | dashboard/api/server.py:31-37 | None stays None; a naive datetime is written as UTC with "+00:00" |
| ApiServer.SerializeReadsBack | dashboard/api/server.py:31-37 | the serialised text reads back as an aware datetime at the same wall clock, UTC for naive ones |
| ApiServer.InfoFor | dashboard/api/server.py:49-58 | a dict config reports its "enable" (True when absent); anything else reports enabled |
| ApiServer.InfosFor | dashboard/api/server.py:49-59 | one entry per registered name, in registration order |
| ApiServer.ListComponents | dashboard/api/server.py:45-60 | a truthy non-dict "components" raises AttributeError exactly when some name is registered (the `.get` runs inside the loop); a dict gives the per-name entries; nothing configured lists every name enabled with an empty config |
| ApiServer.EnableDefaultsDisagree | dashboard/api/server.py:53 | a component without "enable" is listed as enabled yet is not built by the plugin manager |
| Sorting.Insert | dashboard/plugins/classroom/task.py:57 | inserting adds exactly one occurrence of the element |
| Sorting.Sort | dashboard/plugins/classroom/task.py:57 | the sort returns a permutation of its input |
| Sorting.SortIsSorted | dashboard/plugins/classroom/task.py:57 | the sort returns its input in order |
| Sorting.SortIsStable | dashboard/plugins/utilities_bill_due/task.py:66 | the sort is stable: elements with equal keys keep their input order |
| Sorting.SortByKeyLast | dashboard/plugins/utilities_bill_due/task.py:66 | the last element after sorting has the largest key and comes from the input |
| Bills.BuildAsDeclared | dashboard/plugins/utilities_bill_due/backends/base.py:11-26 | the record as declared accepts exactly its ten declared keyword names and raises TypeError for any other |
| Bills.UsageKeywordRaises | dashboard/plugins/utilities_bill_due/backends/farmerselectric.py:175-187 | every call that passes `usage=` raises TypeError under the declared record, whatever the other values |
| Bills.Build | dashboard/plugins/utilities_bill_due/backends/coserv.py:155-176 | with `usage` declared, construction accepts exactly the eleven names the callers pass and keeps every value |
| Bills.UsageDeclaredKeepsBill | dashboard/plugins/utilities_bill_due/backends/coserv.py:155-176 | with `usage` declared, the callers' construction keeps every field it was given |
| Bills.DueKey | dashboard/plugins/utilities_bill_due/task.py:66 | a bill without a due date sorts as 9999-12-31 |
| Bills.DateKeyOrdersDates | dashboard/plugins/utilities_bill_due/task.py:66 | the sort key of real dates orders exactly as the dates do |
| Bills.KindNamed | dashboard/plugins/utilities_bill_due/backends/__init__.py:9-14 | exactly four backend names are known |
| Bills.GetBackend | dashboard/plugins/utilities_bill_due/backends/__init__.py:17-22 | a falsy type gives None, a truthy non-string raises AttributeError, an unknown name gives None, and a known name runs its constructor: the constructor's exception when it raises, the backend otherwise |
| Bills.ConstructorError | dashboard/plugins/utilities_bill_due/backends/coserv.py:181-195 | only the scraping constructors can raise: AttributeError for a truthy non-string utility type or credential, otherwise TypeError for a truthy non-string cache directory (expanduser); the manual one never raises |
| Bills.UnusableCacheDirRaises | dashboard/plugins/utilities_bill_due/backends/murphytx.py:155-156 | with well-typed text fields, a truthy non-text cache directory makes every scraping backend raise TypeError while the manual backend is still built |
| Bills.ScraperKindBuilt | dashboard/plugins/utilities_bill_due/backends/__init__.py:17-22 | looking a backend up by its registered name succeeds exactly when its constructor does not raise, and raises what the constructor raises |
| Bills.GetBackendIgnoresCase | dashboard/plugins/utilities_bill_due/backends/__init__.py:19 | the type is matched ignoring ASCII case, and a backend comes back exactly for the four known names |
| Bills.ManualBackendAlwaysBuilt | dashboard/plugins/utilities_bill_due/backends/__init__.py:17-22 | "manual" always builds a manual backend with its config |
| BillCache.DateValue | dashboard/plugins/utilities_bill_due/backends/murphytx.py:74 | a date is written as ISO text and a missing one as None |
| BillCache.CachedDate | dashboard/plugins/utilities_bill_due/backends/murphytx.py:87-93 | a falsy or non-text value reads as no date, and text is read as YYYY-MM-DD |
| BillCache.FromDict | dashboard/plugins/utilities_bill_due/backends/murphytx.py:85-105 | `payment_due` reads as its truth value, the due date through the date reader, and the Murphy TX form has no usage |
| BillCache.ToDictKeys | dashboard/plugins/utilities_bill_due/backends/coserv.py:139-152 | every written record carries the same keys, and only the SmartHub form adds "usage" |
| BillCache.ToDict | dashboard/plugins/utilities_bill_due/backends/coserv.py:139-152 | a record has a "usage" key exactly in the SmartHub form, and its due date is null exactly when the bill has none |
| BillCache.DateValueReadBack | dashboard/plugins/utilities_bill_due/backends/murphytx.py:74-93 | a written date reads back as itself |
| BillCache.NameFieldsReadBack | dashboard/plugins/utilities_bill_due/backends/murphytx.py:69-105 | the utility type, source and raw status read back as written |
| BillCache.AmountFieldsReadBack | dashboard/plugins/utilities_bill_due/backends/murphytx.py:69-105 | the amounts and the payment flag read back as written |
| BillCache.UsageFieldReadBack | dashboard/plugins/utilities_bill_due/backends/coserv.py:139-176 | usage reads back in the SmartHub form |
| BillCache.DateFieldsReadBack | dashboard/plugins/utilities_bill_due/backends/murphytx.py:69-105 | the three dates read back as written |
| BillCache.DictRoundTrip | dashboard/plugins/utilities_bill_due/backends/murphytx.py:69-105 | a record survives the cache: the SmartHub form keeps every field, the Murphy TX form every field but usage |
| BillCache.MalformedDateDropped | dashboard/plugins/utilities_bill_due/backends/murphytx.py:90-93 | a date in any other shape is dropped, not an error |
| BillCache.ToDicts | dashboard/plugins/utilities_bill_due/backends/murphytx.py:333 | one dict per record, in order |
| BillCache.RecordsRoundTrip | dashboard/plugins/utilities_bill_due/backends/murphytx.py:168-175 | a list of records written to the cache reads back as the same list |
| BillCache.Without | dashboard/plugins/utilities_bill_due/backends/murphytx.py:148 | removing characters leaves none of them and keeps every other character present |
| BillCache.ConfigText | dashboard/plugins/utilities_bill_due/backends/murphytx.py:146-147 | a truthy non-string raises AttributeError, a falsy value is "", and text is stripped |
| BillCache.ResolveUsername | dashboard/plugins/utilities_bill_due/backends/murphytx.py:148-149 | a username with "@" or "." or not in the environment is kept; a name-like one in the environment is replaced by its value |
| BillCache.ResolvePassword | dashboard/plugins/utilities_bill_due/backends/murphytx.py:150-151 | a password of 100 or more characters, not in the environment or not name-like is kept; otherwise it is replaced by its value |
| BillCache.NewScraper | dashboard/plugins/utilities_bill_due/backends/murphytx.py:140-156 | construction raises exactly on a truthy non-string utility type or credential (AttributeError) or then a truthy non-string cache directory (TypeError); the utility type is lower case, defaulting per site |
| BillCache.FactoryAgreesWithScraper | dashboard/plugins/utilities_bill_due/backends/__init__.py:17-22 | the factory builds a scraping backend exactly when the scraper constructor succeeds, and both raise the same exception otherwise |
| BillCache.BlankCredentialStaysEmpty | dashboard/plugins/utilities_bill_due/backends/murphytx.py:146-148 | an empty or blank credential stays empty and nothing is looked up |
| BillCache.GetBillDueInfo | dashboard/plugins/utilities_bill_due/backends/murphytx.py:158-339 | no credentials gives nothing; today's usable cache is returned without scraping; otherwise the scraped records are returned and written back when there are any |
| BillCache.NoCredentialsNoFetch | dashboard/plugins/utilities_bill_due/backends/murphytx.py:160-164 | missing credentials return nothing whatever the cache and the site hold |
| BillCache.ScrapeThenCacheHit | dashboard/plugins/utilities_bill_due/backends/murphytx.py:166-175 | a later call the same day, reading back what a scrape wrote, returns the scraped records without scraping again |
| BillCache.Keywords | dashboard/plugins/utilities_bill_due/backends/coserv.py:314-327 | the keywords a site passes are all declared exactly when the site passes no `usage` |
| BillCache.CachedAsWritten | dashboard/plugins/utilities_bill_due/backends/coserv.py:205-216 | as written, reading a usable cache raises TypeError exactly on the SmartHub sites; Murphy TX reads the cached records |
| BillCache.BuildScrapedAsWritten | dashboard/plugins/utilities_bill_due/backends/coserv.py:312-333 | as written, building scraped records raises TypeError exactly on a SmartHub site with a record; otherwise gives the records without usage |
| BillCache.GetBillDueInfoAsWritten | dashboard/plugins/utilities_bill_due/backends/coserv.py:197-348 | as written, a CoServ or Farmers Electric backend returns nothing and caches nothing whatever the credentials, cache and site; Murphy TX agrees with the corrected call when its records carry no usage |
| BillText.ShortFieldAt | dashboard/plugins/utilities_bill_due/backends/murphytx.py:51 | a one- or two-digit field is found only when a slash follows it |
| BillText.SearchMdy | dashboard/plugins/utilities_bill_due/backends/murphytx.py:51 | the search finds the leftmost M/D/Y match, and none exactly when there is no match from the start |
| BillText.MdyDate | dashboard/plugins/utilities_bill_due/backends/murphytx.py:60-66 | a two-digit year is moved into the 2000s, and the date exists exactly when it is a real calendar date |
| BillText.ParseDateText | dashboard/plugins/utilities_bill_due/backends/murphytx.py:47-66 | empty text is None; the first M/D/Y match decides; without one the first 30 characters go to dateutil |
| BillText.MdyTextMatches | dashboard/plugins/utilities_bill_due/backends/murphytx.py:51 | a written M/D/Y with a 2-to-4-digit year is read field by field |
| BillText.MdyFourDigitYear | dashboard/plugins/utilities_bill_due/backends/murphytx.py:47-66 | a date written M/D/YYYY reads back as itself |
| BillText.MdyTwoDigitYear | dashboard/plugins/utilities_bill_due/backends/murphytx.py:62-63 | a two-digit year YY is read as 20YY |
| BillText.ImpossibleDateIsNone | dashboard/plugins/utilities_bill_due/backends/murphytx.py:60-66 | month 0 or 13, or day 0 or 32, gives None rather than an error |
| BillText.FirstParsed | dashboard/plugins/utilities_bill_due/backends/murphytx.py:120-125 | the result is the first pattern that both matches and parses, and none exactly when no pattern does |
| BillText.MurphyDueDate | dashboard/plugins/utilities_bill_due/backends/murphytx.py:108-134 | empty text is None, and the first pattern that parses decides |
| BillText.UnparsedPatternSkipped | dashboard/plugins/utilities_bill_due/backends/murphytx.py:122-125 | a pattern that matches text which does not parse is passed over |
| BillText.EitherDate | dashboard/plugins/utilities_bill_due/backends/farmerselectric.py:143 | the M/D/Y reading is used when it succeeds, the month-name reading otherwise |
| BillText.SmartHubDueDate | dashboard/plugins/utilities_bill_due/backends/farmerselectric.py:124-146 | empty text is None, and a parsed "Next Auto Pay Due Date" decides |
| BillText.AutoPayTakesPrecedence | dashboard/plugins/utilities_bill_due/backends/farmerselectric.py:128-146 | without an auto-pay date the first fallback that parses decides |
| BillText.MonthNumber | dashboard/plugins/utilities_bill_due/backends/farmerselectric.py:34-37 | a month number lies in 1..12 |
| BillText.MonthNumberSpec | dashboard/plugins/utilities_bill_due/backends/farmerselectric.py:34-37 | a month number names its abbreviation, and only the twelve abbreviations have one |
| BillText.MonthAt | dashboard/plugins/utilities_bill_due/backends/farmerselectric.py:45-54 | a matched month alternative lies in 1..12 and spans three characters |
| BillText.YearAndValue | dashboard/plugins/utilities_bill_due/backends/farmerselectric.py:45-53 | the match consumes at least one character and the usage is a non-empty digit run |
| BillText.UsageAt | dashboard/plugins/utilities_bill_due/backends/farmerselectric.py:45-56 | a match yields a well-formed row and consumes at least one character |
| BillText.ScanUsage | dashboard/plugins/utilities_bill_due/backends/farmerselectric.py:50-56 | every row found has a month in 1..12 and a digit-only usage |
| BillText.UsageKeyOrdersYearMonth | dashboard/plugins/utilities_bill_due/backends/farmerselectric.py:64 | the sort key orders by year, then month |
| BillText.LastMaxIndex | dashboard/plugins/utilities_bill_due/backends/farmerselectric.py:64-65 | the reference "latest": the last row whose key is the largest |
| BillText.LatestIsLastMaximal | dashboard/plugins/utilities_bill_due/backends/farmerselectric.py:64-65 | the row left last by the stable sort is the last of those with the latest (year, month) |
| BillText.Reported | dashboard/plugins/utilities_bill_due/backends/farmerselectric.py:66 | the text starts with the value and ends with a blank and the unit |
| BillText.ParseUsage | dashboard/plugins/utilities_bill_due/backends/coserv.py:40-63 | empty text is None; the latest month's usage when the chart has any; otherwise a result exactly when the fallback finds one; always ending in the unit |
| BillText.FarmersUsage | dashboard/plugins/utilities_bill_due/backends/farmerselectric.py:40-66 | Farmers Electric usage always ends in " kWh" |
| BillText.CoServUsage | dashboard/plugins/utilities_bill_due/backends/coserv.py:40-63 | CoServ usage always ends in the given unit |
| BillText.UsageUnit | dashboard/plugins/utilities_bill_due/backends/coserv.py:310 | the unit is "therms" exactly when the page mentions "therm" in any case, and "units" otherwise |
| BillText.UsageCellMatches | dashboard/plugins/utilities_bill_due/backends/farmerselectric.py:45-56 | a chart cell "Mon YYYY N" is matched at its start as that month, year and usage |
| BillService.TextOrEmpty | dashboard/plugins/utilities_bill_due/service.py:49 | a missing text is written as "" and a present one as itself |
| Text.NoneIfEmpty | dashboard/plugins/utilities_bill_due/service.py:106 | an empty column reads back as None and any other text as itself |
| BillService.ToRecord | dashboard/plugins/utilities_bill_due/service.py:43-58 | every written row carries the component and the run's single fetch time |
| BillService.Archive | dashboard/plugins/utilities_bill_due/service.py:28-38 | the history row keeps the fetch time, due date, paid date (from the last payment date), amount, usage, status, utility type and source |
| BillService.RowToBill | dashboard/plugins/utilities_bill_due/service.py:101-114 | with the corrected record: empty amounts and usage read as None; the dates, payment flag and status are kept |
| BillService.RowToBillAsWritten | dashboard/plugins/utilities_bill_due/service.py:101-114 | as written, reading any row back raises TypeError, because the declared record has no usage field |
| BillService.RecordRoundTrip | dashboard/plugins/utilities_bill_due/service.py:43-58 | with the corrected record: writing a bill and reading it back gives the same bill if and only if none of its texts is empty |
| BillService.SaveBills | dashboard/plugins/utilities_bill_due/service.py:16-41 | the component's existing rows are appended to the history, in order, before the run is replaced |
| BillService.SaveReplacesRun | dashboard/plugins/utilities_bill_due/service.py:40-59 | after a save the component's current rows are exactly the new run, in order, with one fetch time, and every other component's rows are unchanged |
| BillService.SaveKeepsOtherRows | dashboard/plugins/utilities_bill_due/service.py:41 | a row of another component survives any save |
| BillService.RecordLeIsPreorder | dashboard/plugins/utilities_bill_due/service.py:84 | due date ascending with NULLs last, then source, is a total preorder |
| BillService.MaxFetched | dashboard/plugins/utilities_bill_due/service.py:71-77 | the latest fetch time is one of the rows' and no row is later, and there is none exactly when there are no rows |
| BillService.LatestRecords | dashboard/plugins/utilities_bill_due/service.py:68-86 | only the component's own rows are returned, and none when it has no rows |
| BillService.LatestRunOrdered | dashboard/plugins/utilities_bill_due/service.py:68-86 | the latest run is in due-date order and no row of the component is newer than it |
| BillService.SaveThenLatest | dashboard/plugins/utilities_bill_due/service.py:16-86 | right after a save of a non-empty run, reading the latest run gives back exactly the saved rows in due-date order |
| BillService.LatestBills | dashboard/plugins/utilities_bill_due/service.py:62-65 | with the corrected record: one bill per latest row |
| BillService.RowsToBillsAsWritten | dashboard/plugins/utilities_bill_due/service.py:65 | as written, the list of bills is built only from no rows; one or more rows raise TypeError |
| BillService.LatestBillsAsWritten | dashboard/plugins/utilities_bill_due/service.py:62-65 | as written, get_latest_bills raises TypeError exactly when the latest run has rows, and otherwise returns nothing |
| BillService.SaveThenLatestRaisesAsWritten | dashboard/plugins/utilities_bill_due/service.py:16-65 | as written, reading back after any non-empty save raises TypeError, where the corrected read gives one bill per saved item |
| ManualBackend.NextMonthOf | dashboard/plugins/utilities_bill_due/backends/manual.py:41-44 | the month after December is January of the next year, otherwise the next month of the same year |
| ManualBackend.NextDueDateForDay | dashboard/plugins/utilities_bill_due/backends/manual.py:29-47 | a day outside 1..31 gives None; otherwise a real date on the day clamped to its month's length, not before today, in this month when the clamped day has not passed |
| ManualBackend.NextDueDateIsFirst | dashboard/plugins/utilities_bill_due/backends/manual.py:29-47 | the date found is the first on or after today that falls on the clamped day of its month |
| ManualBackend.EveryAt | dashboard/plugins/utilities_bill_due/backends/manual.py:23-26 | the day read from "every N" has at most two digits |
| ManualBackend.SearchEvery | dashboard/plugins/utilities_bill_due/backends/manual.py:56 | the search returns the match at the start when there is one |
| ManualBackend.ParseDueDate | dashboard/plugins/utilities_bill_due/backends/manual.py:50-72 | a falsy value is None; "every N" decides first and gives the next due date for day N; otherwise a strict YYYY-MM-DD date is that date |
| ManualBackend.EveryNParsed | dashboard/plugins/utilities_bill_due/backends/manual.py:56-60 | "every N", with or without an ordinal suffix, gives the next due date for day N |
| ManualBackend.DayOutOfRange | dashboard/plugins/utilities_bill_due/backends/manual.py:59-61 | "every 32" to "every 99" gives no due date, and the date formats are not tried |
| ManualBackend.NoEveryWithoutE | dashboard/plugins/utilities_bill_due/backends/manual.py:23-26 | text without an "e" in any case holds no "every" |
| ManualBackend.IsoDueDateParsed | dashboard/plugins/utilities_bill_due/backends/manual.py:62-63 | a strict YYYY-MM-DD due date is that date |
| ManualBackend.TextOr | dashboard/plugins/utilities_bill_due/backends/manual.py:103-104 | a falsy value is "", text is kept, and a truthy non-string raises AttributeError |
| ManualBackend.AmountOf | dashboard/plugins/utilities_bill_due/backends/manual.py:114-120 | None stays None, an integer is written out, and text is stripped with blank reading as None |
| ManualBackend.EntryBill | dashboard/plugins/utilities_bill_due/backends/manual.py:97-140 | an entry with neither name nor source is skipped; a truthy name or source that is not text raises AttributeError, and only then; a bill always has a non-empty name and source, the parsed due date, and is due exactly when that date is today or past |
| ManualBackend.EntryBills | dashboard/plugins/utilities_bill_due/backends/manual.py:92-141 | at most one bill per entry |
| ManualBackend.GetBillDueInfo | dashboard/plugins/utilities_bill_due/backends/manual.py:82-143 | a missing or non-list `entries` gives no bills, and a list gives at most one bill per entry |
| ManualBackend.SourceNamesEntry | dashboard/plugins/utilities_bill_due/backends/manual.py:103-106 | an entry with only a source uses it as its name too |
| ManualBackend.BlankNameIsManual | dashboard/plugins/utilities_bill_due/backends/manual.py:103-108 | a blank name with no source gives "Manual" for both |
| ManualBackend.NamedEntryKept | dashboard/plugins/utilities_bill_due/backends/manual.py:92-141 | a dict entry with a non-empty text name, and a text or falsy source, yields exactly one bill, ahead of the bills of the entries after it |
| ManualBackend.EntryBillAsWritten | dashboard/plugins/utilities_bill_due/backends/manual.py:97-139 | as written: an entry succeeds exactly when it is skipped; otherwise AttributeError for a non-text name or source, and TypeError from `usage=None` for the rest |
| ManualBackend.EntryBillAsWrittenAgrees | dashboard/plugins/utilities_bill_due/backends/manual.py:97-139 | the as-written entry raises TypeError exactly where the corrected one yields a bill, and agrees with it on skipped and AttributeError entries |
| ManualBackend.EntryBillsAsWritten | dashboard/plugins/utilities_bill_due/backends/manual.py:92-141 | as written, the loop succeeds exactly when every entry is skipped, and then gives no bills |
| ManualBackend.NamedEntryRaisesAsWritten | dashboard/plugins/utilities_bill_due/backends/manual.py:127-139 | as written, a dict entry with a non-empty text name makes the whole loop raise TypeError, whatever follows it |
| ManualBackend.GetBillDueInfoAsWritten | dashboard/plugins/utilities_bill_due/backends/manual.py:82-143 | as written: a list of entries with any named or sourced dict raises; otherwise the result is empty |
| Classroom.DueKey | dashboard/plugins/classroom/task.py:57 | an assignment without a due datetime sorts as `datetime.max`, after every dated one |
| Classroom.DateParts | dashboard/plugins/classroom/classroom_client.py:41-46 | a date is produced only when year, month and day are all integers forming a real calendar date, and it is that date |
| Classroom.ApplyTime | dashboard/plugins/classroom/classroom_client.py:47-52 | a truthy non-dict `dueTime` raises, and a successful due instant always falls on the given date |
| Classroom.ParseDueDate | dashboard/plugins/classroom/classroom_client.py:36-54 | a falsy `dueDate` gives None, a truthy non-dict raises AttributeError, a missing part gives None, and a result lies on the date the parts name |
| Classroom.DueTimeNeedsHoursAndMinutes | dashboard/plugins/classroom/classroom_client.py:47-51 | without both hours and minutes the due instant is the date's midnight |
| Classroom.DueTimeApplied | dashboard/plugins/classroom/classroom_client.py:48-51 | with both hours and minutes the due instant shows exactly that hour and minute, at zero seconds |
| Classroom.StatusOf | dashboard/plugins/classroom/classroom_client.py:195-201 | no submissions gives no status; otherwise "Turned in" exactly when the first submission is turned in or returned |
| Classroom.CourseAssignments | dashboard/plugins/classroom/classroom_client.py:166-211 | at most one assignment per coursework item, each dated, stamped with the student and course, and not overdue unless overdue work is asked for |
| Classroom.UnpublishedWorkSkipped | dashboard/plugins/classroom/classroom_client.py:167-168 | unpublished coursework never contributes an assignment |
| Classroom.OverdueWorkFollowsFlag | dashboard/plugins/classroom/classroom_client.py:175-178 | coursework due before today is dropped when overdue work is not included |
| Classroom.DueTextBody | dashboard/plugins/classroom/classroom_scraper.py:30-39 | the text handed to the date parser is non-empty and already stripped, and blank input gives none |
| Classroom.ParseDueText | dashboard/plugins/classroom/classroom_scraper.py:30-54 | when nothing is left after cleaning there is no date; otherwise the date is the parser's reading of the cleaned text |
| Classroom.CleanDueTextKept | dashboard/plugins/classroom/classroom_scraper.py:32-37 | stripped text without a "due " prefix reaches the parser unchanged |
| Classroom.DuePrefixDropped | dashboard/plugins/classroom/classroom_scraper.py:36-37 | "due " followed by blanks and a date reaches the parser as the date alone |
| Classroom.NonBlankLines | dashboard/plugins/classroom/classroom_scraper.py:235 | every kept line is non-blank after stripping |
| Classroom.StatusFromFirstMention | dashboard/plugins/classroom/classroom_scraper.py:256-263 | the status comes from the first line that mentions turning in or missing work, turning in winning on the same line |
| Classroom.NoMentionNoStatus | dashboard/plugins/classroom/classroom_scraper.py:256-263 | with no line mentioning either, there is no status |
| Classroom.ParseBlock | dashboard/plugins/classroom/classroom_scraper.py:233-269 | a block with no non-blank line gives nothing; otherwise the title is the first line cut to 200 characters, the course the second cut to 100 or "—", and the status is read from the lines |
| Classroom.DueLinePreferred | dashboard/plugins/classroom/classroom_scraper.py:240-244 | the first line mentioning "due" decides the due date when it parses |
| Classroom.AnyParsedLineUsed | dashboard/plugins/classroom/classroom_scraper.py:245-249 | when no line mentions "due", the first line that parses gives the due date |
| Classroom.Dedupe | dashboard/plugins/classroom/classroom_scraper.py:225-231 | one item per (course, title, due) key, in order of first appearance, and every key of the input is kept |
| Classroom.PostFilter | dashboard/plugins/classroom/classroom_scraper.py:142-151 | exactly the dated items that are not overdue (unless overdue work is included) survive, each stamped with the student's name |
| Classroom.BackendName | dashboard/plugins/classroom/task.py:84 | a falsy backend means "api", text is lower-cased, and a truthy non-string raises |
| Classroom.StudentFetchers | dashboard/plugins/classroom/task.py:87-115 | at most one fetcher per student entry, each of the chosen kind with a truthy name, and a list of only non-dict entries raises AttributeError |
| Classroom.BuildFetchers | dashboard/plugins/classroom/task.py:71-116 | scraping is chosen exactly when the backend is "scrape" in any case, and no students gives no fetchers; on the API path a non-text client secret path raises TypeError before the students are iterated, and only after it passes does a malformed students value raise its own error |
| Classroom.IncompleteStudentSkipped | dashboard/plugins/classroom/task.py:88-91 | an entry without a name or a path is skipped rather than rejected |
| ClassroomService.Serialize | dashboard/plugins/classroom/service.py:13-23 | only the due datetime changes form, a missing one stays null, and every other field is kept |
| ClassroomService.ReplaceZ | dashboard/plugins/classroom/service.py:34 | text without "Z" is left alone |
| ClassroomService.Deserialize | dashboard/plugins/classroom/service.py:26-39 | a non-string due value is kept as it is, and the other fields are kept |
| ClassroomService.SerializeRoundTrip | dashboard/plugins/classroom/service.py:13-39 | saving and loading gives every assignment back, due datetime included, for four-digit years |
| ClassroomService.ZSuffixReadAsUtc | dashboard/plugins/classroom/service.py:33-35 | a stored timestamp ending in "Z" loads as an aware UTC datetime |
| ClassroomService.Save | dashboard/plugins/classroom/service.py:42-58 | the component's old rows are deleted and exactly one new row, holding the serialised run, is added; other components keep theirs |
| ClassroomService.Latest | dashboard/plugins/classroom/service.py:69-80 | the record returned is the component's, and no record of the component is newer; none exactly when the component has no record |
| ClassroomService.LatestAssignments | dashboard/plugins/classroom/service.py:61-66 | no record gives no assignments |
| ClassroomService.SaveLeavesOneRecord | dashboard/plugins/classroom/service.py:42-80 | after a save the component's latest record is the one just written |
| ClassroomService.SaveThenLoad | dashboard/plugins/classroom/service.py:42-66 | loading right after saving gives back every saved assignment, in order |
| ClassroomService.SaveKeepsOthers | dashboard/plugins/classroom/service.py:47-51 | a save leaves every other component's latest record and its fetch time as they were |
| FridayPrayer.Suffix | dashboard/plugins/friday_prayer/mosque_base.py:52-60 | the suffix is two letters, and "th" exactly for numbers other than 1, 2 and 3 |
| FridayPrayer.Ordinals | dashboard/plugins/friday_prayer/mosque_base.py:52-60 | the labels written are "1st", "2nd", "3rd" and "4th" |
| FridayPrayer.Entries | dashboard/plugins/friday_prayer/mosques/east_plano.py:68-72 | exactly three entries, one per number in order, "N/A" where the number was not found |
| FridayPrayer.Khutbah | dashboard/plugins/friday_prayer/mosques/east_plano.py:68-77 | the text lists the first, second and third Jumuah in that order, separated by ", ", each missing number as "N/A" |
| FridayPrayer.Body | dashboard/plugins/friday_prayer/mosques/east_plano.py:53 | the header row is dropped and every later row kept in order |
| FridayPrayer.FoundInIsLastLabelled | dashboard/plugins/friday_prayer/mosques/east_plano.py:53-66 | a number is found exactly when some row of two or more cells is captioned with it, and its time is the second cell of the last such row |
| FridayPrayer.EastPlanoNumber | dashboard/plugins/friday_prayer/mosques/east_plano.py:60-66 | a caption is numbered only when it names a Jumuah, and it is the first exactly when it also holds "1st" |
| FridayPrayer.EastPlanoRows | dashboard/plugins/friday_prayer/mosques/east_plano.py:31-47 | rows are read only from a second table with a header and at least one more row |
| FridayPrayer.EastPlanoTimes | dashboard/plugins/friday_prayer/mosques/east_plano.py:31-80 | there is a khutbah text exactly when the table exists and some row gives a Jumuah time |
| FridayPrayer.JumaNumber | dashboard/plugins/friday_prayer/friday_prayer_component.py:210-217 | a part is numbered only when it mentions "Jumuah" |
| FridayPrayer.ParseParts | dashboard/plugins/friday_prayer/friday_prayer_component.py:208-220 | only numbers 1 to 3 are added, and text with no "Jumuah" part adds nothing |
| FridayPrayer.ParseJumaTimes | dashboard/plugins/friday_prayer/friday_prayer_component.py:205-220 | only numbers 1 to 3 are ever read back |
| FridayPrayer.PartWithoutFieldStops | dashboard/plugins/friday_prayer/friday_prayer_component.py:208-219 | a numbered part without ": " ends the reading with what was found before it |
| FridayPrayer.Display | dashboard/plugins/friday_prayer/friday_prayer_component.py:192-198 | a khutbah value that is not text shows "N/A" in all three columns |
| FridayPrayer.EntryFields | dashboard/plugins/friday_prayer/friday_prayer_component.py:213 | an entry splits on ": " into its caption and its time when the time holds no ": " |
| FridayPrayer.EntryNumber | dashboard/plugins/friday_prayer/friday_prayer_component.py:210-217 | every entry the formatter writes is read back under its own number |
| FridayPrayer.KhutbahRoundTrip | dashboard/plugins/friday_prayer/friday_prayer_component.py:205-220 | reading back a khutbah text gives each of the three slots, "N/A" for missing numbers, when the times are clean |
| FridayPrayer.EastPlanoDisplayed | dashboard/plugins/friday_prayer/friday_prayer_component.py:192-198 | the three columns shown for an East Plano page are the times its table held, number by number |
| FridayPrayer.SachseNumber | dashboard/plugins/friday_prayer/mosques/sachse_islamic_center.py:87-92 | a caption counts as the first exactly when it holds "1st", or a "1" together with "Jumuah" |
| FridayPrayer.SachseDigitBeforeOrdinal | dashboard/plugins/friday_prayer/mosques/sachse_islamic_center.py:87-90 | "2nd Jumuah 1:30" counts as the first Jumuah, because the digit test runs first |
| FridayPrayer.ParseTableRows | dashboard/plugins/friday_prayer/mosques/sachse_islamic_center.py:78-93 | only numbers 1 to 3 are found |
| FridayPrayer.FirstTableWithTimes | dashboard/plugins/friday_prayer/mosques/sachse_islamic_center.py:47-51 | the times come from the first table that gives any, and there are none exactly when no table gives any |
| FridayPrayer.FirstNonEmpty | dashboard/plugins/friday_prayer/mosques/sachse_islamic_center.py:47-51 | the result is the first non-empty map of the sequence, every one before it being empty, and it is empty exactly when all of them are |
| FridayPrayer.OrdinalNumber | dashboard/plugins/friday_prayer/mosques/sachse_islamic_center.py:60 | only the exact lower-case "1st", "2nd" and "3rd" give a number |
| FridayPrayer.RegexTimes | dashboard/plugins/friday_prayer/mosques/sachse_islamic_center.py:53-62 | the page-text search finds only numbers 1 to 3 |
| FridayPrayer.RegexReadsSecondJumuah | dashboard/plugins/friday_prayer/mosques/sachse_islamic_center.py:53-62 | "2nd Jumuah - 02:15" gives the second Jumuah at 02:15 |
| FridayPrayer.UpperCaseOrdinalDropped | dashboard/plugins/friday_prayer/mosques/sachse_islamic_center.py:57-62 | an upper-case "1ST" matches the pattern but is then dropped by the lookup |
| FridayPrayer.SachseFound | dashboard/plugins/friday_prayer/mosques/sachse_islamic_center.py:31-62 | a prayer table that gives times decides, and nothing is found only when every strategy found nothing |
| FridayPrayer.RegexOnlyAsLastResort | dashboard/plugins/friday_prayer/mosques/sachse_islamic_center.py:46-54 | when some table gives a time, something is found |
| FridayPrayer.SachseAsWrittenDropsMissing | dashboard/plugins/friday_prayer/mosques/sachse_islamic_center.py:65-69 | with only the first Jumuah found, the text as written is "1st Jumuah: 1:15 PM, , ", naming neither of the others |
| FridayPrayer.SachseKhutbahAsWritten | dashboard/plugins/friday_prayer/mosques/sachse_islamic_center.py:64-69 | as written, when the second and third numbers are missing the text is the first entry followed by ", , ", two empty entries |
| FridayPrayer.AsWrittenReadBack | dashboard/plugins/friday_prayer/mosques/sachse_islamic_center.py:64-69 | the numbers the as-written text keeps are those found among 1 to 3 other than "N/A" |
| FridayPrayer.SachseAsWrittenReadsBack | dashboard/plugins/friday_prayer/mosques/sachse_islamic_center.py:64-69 | with clean times, the as-written text reads back exactly the found numbers with " PM"; the empty entries of missing numbers are skipped |
| FridayPrayer.SachseKhutbahShape | dashboard/plugins/friday_prayer/mosques/sachse_islamic_center.py:65-69 | the corrected text has East Plano's shape, listing all three numbers |
| FridayPrayer.SachseRoundTrip | dashboard/plugins/friday_prayer/mosques/sachse_islamic_center.py:65-69 | the corrected text reads back every number, with " PM" on found times and "N/A" on missing ones |
| FridayPrayer.SachseTimes | dashboard/plugins/friday_prayer/mosques/sachse_islamic_center.py:64-72 | as written: there is a text exactly when some strategy found a time; it reads back only numbers 1 to 3, and with clean times it reads back exactly the numbers found, each with " PM", the missing ones absent |
| FridayPrayer.SachseTimesIntended | dashboard/plugins/friday_prayer/mosques/sachse_islamic_center.py:64-72 | with the corrected formatting: a text exactly when some time was found, and with clean times it reads back all three numbers, "N/A" on the missing ones |
| FridayPrayer.PageTimes | dashboard/plugins/friday_prayer/mosques/east_plano.py:18-25 | no URL or no content gives None, and non-empty text content is parsed |
| FridayPrayer.HandleBackgroundResult | dashboard/plugins/friday_prayer/friday_prayer_component.py:160-165 | a dict replaces the cached times and asks for a refresh; anything else changes nothing |
| PrayerBase.CacheKey | dashboard/plugins/prayer/prayer_base.py:41 | the key starts with "prayer_times_" |
| PrayerBase.CacheKeyPerDay | dashboard/plugins/prayer/prayer_base.py:41 | two days with four-digit years share a cache key only when they are the same day |
| PrayerBase.EncodeAll | dashboard/plugins/prayer/prayer_base.py:64-69 | the cache holds the same prayers, each value encoded |
| PrayerBase.DecodeAll | dashboard/plugins/prayer/prayer_base.py:75-78 | decoding succeeds exactly when every value decodes, and keeps the prayers |
| PrayerBase.CacheRoundTrip | dashboard/plugins/prayer/prayer_base.py:64-78 | whole-second times in four-digit years read back from the cache unchanged |
| PrayerBase.FormatTimesForCache | dashboard/plugins/prayer/prayer_base.py:64-69 | the cache entry holds exactly the prayers given, each written as text that opens with that prayer's own day |
| PrayerBase.ParseCachedTimes | dashboard/plugins/prayer/prayer_base.py:71-78 | the cache entry reads back exactly when every stored time parses; then the same prayers come back, each a whole second |
| PrayerBase.StoredTimeReadBack | dashboard/plugins/prayer/prayer_base.py:68-78 | one stored time reads back unchanged |
| PrayerBase.TestClock | dashboard/plugins/prayer/prayer_base.py:88-89 | a test clock that parses is a valid hour and minute |
| PrayerBase.TestInstantUpcoming | dashboard/plugins/prayer/prayer_base.py:89-93 | a test time is the next moment after now that shows its clock, today or tomorrow |
| PrayerBase.TestTimes | dashboard/plugins/prayer/prayer_base.py:83 | without a test schedule there are no test times, and only AttributeError can escape |
| PrayerBase.Override | dashboard/plugins/prayer/prayer_base.py:85-98 | it raises exactly when some test time is not text; otherwise the prayers are the old ones plus the well-formed test times, which replace the old values |
| PrayerBase.OverrideIdempotent | dashboard/plugins/prayer/prayer_base.py:85-98 | overriding twice at the same moment is overriding once |
| PrayerBase.OverriddenTimeUpcoming | dashboard/plugins/prayer/prayer_base.py:88-95 | each overriding test time is the next moment after now at its clock |
| PrayerBase.MalformedTestTimeSkipped | dashboard/plugins/prayer/prayer_base.py:97-98 | a malformed test time leaves its prayer as it was |
| PrayerBase.ApiTime | dashboard/plugins/prayer/prayer_base.py:132-137 | a time read from the API is a whole minute |
| PrayerBase.ApiTimeOnToday | dashboard/plugins/prayer/prayer_base.py:132-137 | a time read from the API falls on today's date |
| PrayerBase.SelectPrayers | dashboard/plugins/prayer/prayer_base.py:131-137 | it succeeds exactly when every named prayer present reads, and then holds exactly those prayers at their read times |
| PrayerBase.OnlyPrayerNames | dashboard/plugins/prayer/prayer_base.py:29-35 | only Fajr, Dhuhr, Asr, Maghrib and Isha come from the API |
| PrayerBase.ApiPrayerTimes | dashboard/plugins/prayer/prayer_base.py:105-158 | the result holds the named prayers present plus the overriding test times, and no timings and no test schedule give no prayers |
| PrayerBase.ApiTimesWholeMinutes | dashboard/plugins/prayer/prayer_base.py:132-155 | every time the API path returns, overrides included, is a whole minute |
| PrayerBase.CachedPrayerTimes | dashboard/plugins/prayer/prayer_base.py:71-103 | a cache entry that does not parse gives None |
| PrayerBase.GetPrayerTimes | dashboard/plugins/prayer/prayer_base.py:37-62 | unforced, today's cache entry decides; a failed fetch gives None; times are written back under today's key exactly when they came from the API |
| PrayerBase.FetchThenCacheAgree | dashboard/plugins/prayer/prayer_base.py:37-103 | a fetch followed at the same moment by an unforced call that finds what the fetch wrote gives the same times |
| PrayerBase.ApiTimesReadBack | dashboard/plugins/prayer/prayer_base.py:64-103 | what the API gave, once written to the cache, reads back through the cache path, overrides included, as the same times |
| AudioManager.ArmTime | dashboard/plugins/prayer/audio_manager.py:173-176 | a prayer is armed at its own time when that is still ahead, otherwise one day later, and the armed time is after now exactly when the time plus a day is |
| AudioManager.ArmSpec | dashboard/plugins/prayer/audio_manager.py:172-176 | arming gives every listed prayer the armed time of its last entry and keeps every other prayer's time |
| AudioManager.FirstMatch | dashboard/plugins/prayer/audio_manager.py:180-194 | the index found is the first entry that qualifies, and there is none exactly when no entry qualifies |
| AudioManager.Step | dashboard/plugins/prayer/audio_manager.py:164-196 | the first call arms every prayer and plays nothing; a later call that plays nothing changes nothing; a prayer that plays was due, started playing, and is re-armed a day after its time |
| AudioManager.CheckPrayerTimes | dashboard/plugins/prayer/audio_manager.py:180-194 | with the intended `>=` test at line 188: only a prayer with an adhan file plays, and playing it arms exactly that prayer in addition to those already armed |
| AudioManager.CheckPrayerTimesAsWritten | dashboard/plugins/prayer/audio_manager.py:180-194 | as written, a played prayer has an adhan file and is re-armed strictly more than a day after its previous armed moment, because its time had to be strictly later than that moment |
| AudioManager.NoAdhanOnLaunch | dashboard/plugins/prayer/audio_manager.py:168-178 | with the intended `>=` test: the first call never plays, and later calls play nothing until a prayer time that was ahead at launch has come |
| AudioManager.NoAdhanOnLaunchAsWritten | dashboard/plugins/prayer/audio_manager.py:168-189 | the same launch guarantee for the strict `>` test as written |
| AudioManager.NoReplay | dashboard/plugins/prayer/audio_manager.py:186-194 | with the intended `>=` test: an adhan that played is not played again for the same prayer times, whenever the next call comes |
| AudioManager.NoReplayAsWritten | dashboard/plugins/prayer/audio_manager.py:186-194 | the same no-replay guarantee for the strict `>` test as written |
| AudioManager.NextDayAdhanDue | dashboard/plugins/prayer/audio_manager.py:186-189 | a prayer armed for tomorrow's same clock time is due at that moment under the intended test, and not under the test as written |
| AudioManager.SameClockNextDaySkippedAsWritten | dashboard/plugins/prayer/audio_manager.py:186-193 | as written, an adhan that played today is skipped tomorrow when the prayer falls on the same minute |
| AudioManager.SameClockNextDayPlays | dashboard/plugins/prayer/audio_manager.py:186-193 | with the intended test the same prayer plays on both days |
| AudioManager.FailedPlaybackRetried | dashboard/plugins/prayer/audio_manager.py:191-194 | with the intended `>=` test: a due prayer whose playback fails is passed over and stays due for the next call |
| AudioManager.FailedPlaybackRetriedAsWritten | dashboard/plugins/prayer/audio_manager.py:186-194 | for the strict `>` test as written: a prayer due under that test whose playback fails is passed over and stays due for the next call |
| WeatherBackend.HourKeyDate | dashboard/plugins/weather/weather_backend.py:31 | after the prefix the key is the date followed by the hour |
| WeatherBackend.HourKey | dashboard/plugins/weather/weather_backend.py:31 | the key starts with "weather_" and ends with "_" and the two-digit hour |
| WeatherBackend.HourKeyHour | dashboard/plugins/weather/weather_backend.py:31 | the key's last two characters are the hour |
| WeatherBackend.HourKeyPerHour | dashboard/plugins/weather/weather_backend.py:31 | two moments share a key exactly when they fall in the same hour of the same day |
| WeatherBackend.GetWeather | dashboard/plugins/weather/weather_backend.py:28-51 | unforced, a truthy cached entry for this hour is evaluated and returned without writing; otherwise the fetched data is returned and saved under this hour's key only when truthy |
| WeatherBackend.SameHourHitsCache | dashboard/plugins/weather/weather_backend.py:28-47 | within the hour of a fetch, an unforced call returns what was fetched and writes nothing |
| WeatherBackend.FailedFetchNotCached | dashboard/plugins/weather/weather_backend.py:44-47 | a failed fetch returns None and leaves the cache as it was |
| WeatherBackend.Len | dashboard/plugins/weather/weather_backend.py:87 | only lists, strings and dicts have a length |
| WeatherBackend.OwmFetch | dashboard/plugins/weather/weather_backend.py:53-98 | data is returned exactly when the request succeeded without 401 or an error status, the body decoded to a dict, and its "daily" entry has at least seven items; it is then the decoded body |
| WeatherBackend.UnauthorizedNotCached | dashboard/plugins/weather/weather_backend.py:72-74 | an unauthorized request returns None and leaves the cache as it was |
| WeatherBackend.ShortForecastRejected | dashboard/plugins/weather/weather_backend.py:86-89 | a forecast with fewer than seven days is rejected |
| WeatherBackend.Index | dashboard/plugins/weather/weather_backend.py:148-149 | indexing succeeds exactly on a dict holding the key, and gives its value |
| WeatherBackend.Entry | dashboard/plugins/weather/weather_backend.py:186-195 | a period reads exactly when it is a dict with a start time, temperature, short forecast and icon, and the start time parses |
| WeatherBackend.Entries | dashboard/plugins/weather/weather_backend.py:186-195 | one read entry per period, each the reading of the period at that place |
| WeatherBackend.Walk | dashboard/plugins/weather/weather_backend.py:183-184 | a list is walked item by item, and the walk has as many steps as the value's length |
| WeatherBackend.DailyIsFirstDaytime | dashboard/plugins/weather/weather_backend.py:183-199 | with well-formed periods the daily list is the first daytime periods, up to the room left, read and in order |
| WeatherBackend.FirstDaytime | dashboard/plugins/weather/weather_backend.py:183-199 | the first daytime periods, as many as there are up to the room left, each read in order |
| WeatherBackend.FullDailyIgnoresLaterPeriods | dashboard/plugins/weather/weather_backend.py:198-199 | once the daily list is full, periods after it are never looked at |
| WeatherBackend.HourlyFrom | dashboard/plugins/weather/weather_backend.py:208-217 | the hourly list succeeds exactly when every period reads, and has one entry per period |
| WeatherBackend.FirstDay | dashboard/plugins/weather/weather_backend.py:208 | at most the first 24 hourly periods are kept |
| WeatherBackend.TransformForecast | dashboard/plugins/weather/weather_backend.py:174-226 | the reshaped forecast exists exactly when the daily loop reads and, for a truthy hourly forecast, the hourly loop reads; it holds "daily" as the daily loop result, and "hourly" as the hourly loop result exactly when the hourly forecast is truthy |
| WeatherBackend.DailyOf | dashboard/plugins/weather/weather_backend.py:183-199 | at most seven daily entries; on a periods list, exactly the daily loop over it |
| WeatherBackend.HourlyOf | dashboard/plugins/weather/weather_backend.py:205-217 | at most 24 hourly entries; on a periods list, exactly the hourly loop over its first 24 |
| WeatherBackend.TransformDailyIsFirstDaytime | dashboard/plugins/weather/weather_backend.py:174-226 | with well-formed forecast periods and a readable or absent hourly part, the reshaped forecast exists and its daily list is the first seven daytime periods, read, in order |
| WeatherBackend.ForecastUrls | dashboard/plugins/weather/weather_backend.py:148-149 | both forecast URLs are found exactly when the points data holds "forecast" and "forecastHourly" under "properties" |
| WeatherBackend.NwsFetch | dashboard/plugins/weather/weather_backend.py:128-172 | a failed points request gives None; a result comes only from both forecast requests succeeding, and when the points data names both URLs and both requests succeed the result is exactly their reshaped forecast |

## Left out

- Threads, the Tk event loop, `root.after`, and the asyncio loop setup of the API server are left out. The model covers what each step computes, not when it runs.
- Network requests (`requests`), Playwright scraping, HTML parsing (BeautifulSoup) and the Google API client are parameters standing for their results. The NWS request headers are left out.
- `dateutil.parser.parse`, the `strptime` fallbacks of the Classroom scraper, the NWS `%z` timestamp and `repr` are oracle parameters. The regular expressions for free text (`_extract_due_from_text`, the bill scrapers' amount and date patterns) are oracles too. Each regex that decides a property the model states is written out: the manual backend's "every N" pattern and the Sachse page pattern.
- `eval`/`str` round trips of cached dicts (prayer times, weather) are structured values or a codec parameter, not Python literal syntax.
- Floating-point amounts, including the `f"{amount:.2f}"` branch of the manual backend, are left out. `Value` has no floats.
- Audio playback, volume handling, the adhan file downloads and the Tk widgets are left out. `play_adhan` is a parameter that says whether playback started.
- The plugin import machinery (`discover_plugins`, `importlib`) and the hot-reload restart by `os.execv` are left out. Only the decisions around them are modelled.
- The `payment_status` column is always NULL in the source and is not modelled.
- `get_bill_history_records` is a plain ordered listing with a limit and is not modelled.
- `list_tasks` and `list_schedules` of the API server are compositions of `ScheduleStore.AllSchedules`, `TaskManager.ActiveTimers` and `ApiServer.SerializeDatetime`. They are not members of their own. `TaskManager.ActiveTimers` is a map, so the order in which `list_tasks` lists the timers, insertion order in the source, is not modelled.
- Database rows that tie in an `ORDER BY` come back in table order. The database leaves that order unspecified.
- The md5 of a cache key is treated as injective (a distinct file per key).
- Putting a result on the queue is assumed to succeed.
- Integer parsing (`IntOf`, `ParseInt`) accepts optional blanks, an optional sign and ASCII digits only. Python's `int()` also accepts underscores between digits ("1_000") and non-ASCII Unicode digits; those inputs are rejected here. The regular expressions' `\d` and `\s` are likewise ASCII only.
- `strftime("%Y")` outside years 1000-9999 is left out, and so is Python's upper bound of year 9999. Case folding is ASCII only. `Text.IsSpace` treats exactly six characters as whitespace: space, tab, newline, carriage return, `\x0b` and `\x0c`. Python's `str.strip()` and `split()` also strip `\x1c`-`\x1f`, `\x85` and the Unicode spaces; those are kept here.
- A truthy dict is treated like any other truthy value where the source tests only truthiness, as in the Friday-prayer cache.
- The weather plugin's `_backend_config` overrides `cache_dir` with the plugin's own directory. The model takes the resulting config as given.
- ManualBackend.ParseDueDate: a list or dict `due_date` gives None without consulting dateutil. Its `str()` ends in a bracket, which none of the three date readings accepts.
- FridayPrayer.KhutbahRoundTrip: the round trip is stated only for clean times, those without ", ", ": ", "1st" or "2nd" inside, because other times do not read back in the source either.
- AudioManager.CheckPrayerTimes: uses the intended `>=` test, not the strict `>` of `dashboard/plugins/prayer/audio_manager.py:188`. The strict `>` test as written is `CheckPrayerTimesAsWritten`, for which `NoAdhanOnLaunchAsWritten`, `NoReplayAsWritten` and `FailedPlaybackRetriedAsWritten` state the same three guarantees.
- AudioManager.NoAdhanOnLaunch: stated for the intended `>=` test. `NoAdhanOnLaunchAsWritten` states it for the code as written.
- AudioManager.NoReplay: stated for the intended `>=` test. `NoReplayAsWritten` states it for the code as written.
- AudioManager.FailedPlaybackRetried: stated for the intended `>=` test. `FailedPlaybackRetriedAsWritten` states it for the code as written.
- BillCache.CachedText: a cached value that is not text reads as None. The source would pass it on unchanged.
- BillService.LatestRecords: the contract states only membership and the empty case. `LatestRunOrdered` and `SaveThenLatest` state the order and the contents.
- ClassroomService.LatestAssignments: the contract states only the empty case. `SaveThenLoad` states the contents.
- PrayerBase.CachedPrayerTimes: the contract states only the failure case. `FetchThenCacheAgree` states what a successful read gives.
- FridayPrayer.ParseJumaTimes: the contract only bounds the numbers read. `KhutbahRoundTrip` and `SachseAsWrittenReadsBack` state what a formatted text reads back as.
- FridayPrayer.RegexTimes: the contract only bounds the numbers found. `RegexReadsSecondJumuah` and `UpperCaseOrdinalDropped` show particular readings; the general regular-expression semantics is not stated.
- ManualBackend.EntryBills: the contract only bounds the number of bills. `NamedEntryKept` states which entries contribute.
- ManualBackend.EntryBill: describes the record with `usage` declared. As written, every entry that is not skipped raises TypeError at `usage=None`; `EntryBillAsWritten` models that.
- ManualBackend.EntryBills: the bills it lists are those of the corrected record. As written the loop raises at the first listed entry (`EntryBillsAsWritten`).
- ManualBackend.GetBillDueInfo: gives bills only under the corrected record. As written it returns nothing or raises (`GetBillDueInfoAsWritten`); the task catches the error and drops the backend's bills.
- ManualBackend.SourceNamesEntry: states the names the corrected record gets. As written the same entry raises TypeError.
- ManualBackend.BlankNameIsManual: states the names the corrected record gets. As written the same entry raises TypeError.
- ManualBackend.NamedEntryKept: holds for the corrected record. As written the entry raises instead (`NamedEntryRaisesAsWritten`).
- BillCache.UsageFieldReadBack: a round trip of the corrected record. As written, reading a SmartHub cache record raises TypeError, which the backend catches before it scrapes (`CachedAsWritten`).
- BillCache.DictRoundTrip: a round trip of the corrected record. On the SmartHub sites, as written, the read raises instead (`CachedAsWritten`).
- BillCache.GetBillDueInfo: the corrected call. As written the SmartHub sites return and cache nothing (`GetBillDueInfoAsWritten`).
- BillService.RowToBill: describes the record with `usage` declared. As written every row raises TypeError at `usage=` (`RowToBillAsWritten`).
- BillService.RecordRoundTrip: a round trip of the corrected record. As written the read half raises TypeError for every row.
- BillService.LatestBills: gives one bill per row only under the corrected record. As written a non-empty latest run raises TypeError (`LatestBillsAsWritten`); the bills component catches it and shows no bills.
- Classroom.CourseAssignments: a title that is not text, or a "title" key holding null, becomes "Assignment". The source keeps such a value, and gives "Assignment" only when the key is missing.
- BillCache.ScrapeThenCacheHit: holds for the corrected record. As written it holds only for Murphy TX, whose records carry no usage.

## Findings

| source | as written | input that shows it | evidently intended | confidence | as-written member | corrected member |
|---|---|---|---|---|---|---|
| dashboard/plugins/utilities_bill_due/backends/base.py:11-26 | `BillDueInfo` declares ten fields and no `usage`, yet the manual, CoServ and Farmers Electric backends and `_row_to_bill` (service.py:113) construct it with `usage=` | any manual entry with a name: `BillDueInfo(..., usage=None)` raises TypeError | `usage` is a declared field defaulting to None, as the bill tables store and read it | high (not executed) | Bills.UsageKeywordRaises | Bills.UsageDeclaredKeepsBill |
| dashboard/plugins/friday_prayer/mosques/sachse_islamic_center.py:68 | `f"..." + " PM" if time_val != "N/A" else ""` parses as `(f"..." + " PM") if ... else ""` | a page with only the first Jumuah at 1:15 gives "1st Jumuah: 1:15 PM, , " | each missing number listed as "N/A", like East Plano | high (not executed) | FridayPrayer.SachseAsWrittenDropsMissing | FridayPrayer.SachseRoundTrip |
| dashboard/plugins/prayer/audio_manager.py:186-189 | the adhan fires only when the prayer time is strictly after the armed time, and playing arms exactly one day later | a prayer at 13:30 that plays today and is again at 13:30 tomorrow: tomorrow's time equals the armed time, so it is skipped | the armed moment itself is due (`>=`) | medium (not executed) | AudioManager.SameClockNextDaySkippedAsWritten | AudioManager.SameClockNextDayPlays |
