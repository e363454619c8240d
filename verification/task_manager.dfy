/** The timer registry of `dashboard/core/task_manager.py` as a state machine.

    A `threading.Timer` is an entry of `tasks`; the thread that would fire it
    becomes the explicit `Fire` transition, so interleavings are not
    modelled. What a callback or a registered runnable does is not visible
    here: its observable part (the results it puts on the queue, and whether
    it raised) is an `Effect` passed in by the caller, and the store read that
    `get_next_run_from_db` performs is passed in as its result `nextRun`.
    `now` is the timer clock (microseconds), `utcNow` the naive UTC clock the
    schedule rows use.
 */
module TaskManager {
  import opened Wrappers
  import opened Values
  import opened Payloads
  import opened Calendar

  /** What a timer calls when it fires: an arbitrary callback (identified by a
      number) or the wrapper `schedule_registered_task` builds for a
      component. */
  datatype Job = Plain(id: nat) | RegisteredRun(component: string)

  /** A cancelled timer never fires; a fired one stays in `tasks` until its
      name is scheduled again. */
  datatype TimerState = Armed | Fired | Cancelled

  /** A timer with its `scheduled_time` (`fireAt`) and the `last_run` stamp
      `_run_task` may attach to it. */
  datatype Timer = Timer(fireAt: int, delay: int, oneTime: bool, job: Job, state: TimerState, lastRun: Option<int>)

  /** A `(task_name, result)` pair on the result queue. */
  datatype Message = Message(task: string, result: Payload)

  /** The observable outcome of one call of a callback or runnable. */
  datatype Effect = Effect(enqueued: seq<Message>, raised: bool)

  /** `(config, config_data)` as stored by `schedule_registered_task`. */
  datatype RunConfig = RunConfig(config: Value, configData: Option<Dict>)

  datatype Manager = Manager(
    tasks: map<string, Timer>,
    registered: map<string, nat>,
    registeredConfig: map<string, RunConfig>,
    queue: seq<Message>)

  const Empty: Manager := Manager(map[], map[], map[], [])

  /** `timer.cancel()`: stops a timer that has not fired yet. */
  function Cancel(t: Timer): (c: Timer)
    ensures c.state != Armed
    ensures c.fireAt == t.fireAt && c.job == t.job && c.delay == t.delay && c.oneTime == t.oneTime
  {
    if t.state == Armed then t.(state := Cancelled) else t
  }

  /** `schedule_task`: cancel whatever is stored under the name, then store a
      new armed timer due `delay` seconds from now. */
  function ScheduleTask(m: Manager, name: string, job: Job, delay: int, oneTime: bool, now: int): (r: Manager)
    ensures r.tasks.Keys == m.tasks.Keys + {name}
    ensures r.tasks[name] == Timer(now + delay * MicrosPerSecond, delay, oneTime, job, Armed, None)
    ensures forall n :: n in m.tasks && n != name ==> r.tasks[n] == m.tasks[n]
    ensures r.registered == m.registered && r.registeredConfig == m.registeredConfig && r.queue == m.queue
  {
    var tasks := if name in m.tasks then m.tasks[name := Cancel(m.tasks[name])] else m.tasks;
    m.(tasks := tasks[name := Timer(now + delay * MicrosPerSecond, delay, oneTime, job, Armed, None)])
  }

  /** `register_task`: the latest runnable for a name replaces any earlier one. */
  function RegisterTask(m: Manager, name: string, runnable: nat): (r: Manager)
    ensures r.registered.Keys == m.registered.Keys + {name} && r.registered[name] == runnable
    ensures forall n :: n in m.registered && n != name ==> r.registered[n] == m.registered[n]
    ensures r.tasks == m.tasks && r.registeredConfig == m.registeredConfig && r.queue == m.queue
  {
    m.(registered := m.registered[name := runnable])
  }

  /** The delay `schedule_registered_task` derives from the stored next run:
      0 when there is none, otherwise `max(0, int(seconds until it))`, where
      `int` truncates toward zero. */
  function DelayFor(nextRun: Option<Instant>, utcNow: Instant): (delay: nat)
    ensures nextRun.None? ==> delay == 0
    ensures nextRun.Some? && nextRun.value <= utcNow ==> delay == 0
    ensures nextRun.Some? && nextRun.value > utcNow ==>
      delay * MicrosPerSecond <= nextRun.value - utcNow < (delay + 1) * MicrosPerSecond
  {
    match nextRun
    case None => 0
    case Some(t) => if t <= utcNow then 0 else TruncSeconds(t - utcNow)
  }

  /** Whole seconds in a positive number of microseconds. */
  function TruncSeconds(micros: nat): (s: nat)
    ensures s * MicrosPerSecond <= micros < (s + 1) * MicrosPerSecond
  {
    micros / MicrosPerSecond
  }

  /** `schedule_registered_task`: nothing for an unregistered name; otherwise
      remember the config and arm a one-shot timer for the stored next run. */
  function ScheduleRegistered(m: Manager, name: string, config: Value, configData: Option<Dict>,
                              nextRun: Option<Instant>, utcNow: Instant, now: int): (r: Manager)
    ensures name !in m.registered ==> r == m
    ensures name in m.registered ==>
      && r.registeredConfig == m.registeredConfig[name := RunConfig(config, configData)]
      && r.tasks.Keys == m.tasks.Keys + {name}
      && r.tasks[name] == Timer(now + DelayFor(nextRun, utcNow) * MicrosPerSecond, DelayFor(nextRun, utcNow),
                                true, RegisteredRun(name), Armed, None)
      && (forall n :: n in m.tasks && n != name ==> r.tasks[n] == m.tasks[n])
      && r.registered == m.registered && r.queue == m.queue
  {
    if name !in m.registered then m
    else
      var m1 := m.(registeredConfig := m.registeredConfig[name := RunConfig(config, configData)]);
      ScheduleTask(m1, name, RegisteredRun(name), DelayFor(nextRun, utcNow), true, now)
  }

  /** `self._registered_config.get(name, (None, None))`. */
  function ConfigFor(m: Manager, name: string): RunConfig {
    if name in m.registeredConfig then m.registeredConfig[name] else RunConfig(VNull, None)
  }

  /** `_run_registered_and_reschedule`: run the runnable when there is a
      config (its exception is caught), then re-arm from the stored next run
      whenever the config is not None. A None config returns before either. */
  function RunRegistered(m: Manager, name: string, effect: Effect,
                         nextRun: Option<Instant>, utcNow: Instant, now: int): (r: Manager)
    ensures ConfigFor(m, name).config == VNull ==> r == m
    ensures ConfigFor(m, name).config != VNull && name in m.registered ==>
      r == ScheduleRegistered(m.(queue := m.queue + effect.enqueued), name,
                              ConfigFor(m, name).config, ConfigFor(m, name).configData, nextRun, utcNow, now)
  {
    var rc := ConfigFor(m, name);
    if rc.config == VNull then m
    else
      var m1 := if name in m.registered then m.(queue := m.queue + effect.enqueued) else m;
      ScheduleRegistered(m1, name, rc.config, rc.configData, nextRun, utcNow, now)
  }

  /** Messages are only ever appended to the result queue. */
  predicate QueueExtends(m: Manager, r: Manager) {
    |m.queue| <= |r.queue| && r.queue[..|m.queue|] == m.queue
  }

  /** Calling a timer's callback: the manager afterwards and whether the call
      raised. The registered wrapper catches everything itself. */
  function Callback(m: Manager, job: Job, effect: Effect, nextRun: Option<Instant>, utcNow: Instant, now: int): (r: (Manager, bool))
    ensures r.1 <==> job.Plain? && effect.raised
    ensures r.0.registered == m.registered && QueueExtends(m, r.0)
    ensures job.Plain? ==> r.0 == m.(queue := m.queue + effect.enqueued)
  {
    match job
    case Plain(_) => (m.(queue := m.queue + effect.enqueued), effect.raised)
    case RegisteredRun(c) => (RunRegistered(m, c, effect, nextRun, utcNow, now), false)
  }

  /** `_run_task`: call the callback; if it returned, stamp `last_run` on
      whatever timer is now stored under the name and, for a recurring timer,
      schedule it again with the same delay. Nothing escapes. */
  function RunTask(m: Manager, name: string, job: Job, delay: int, oneTime: bool, effect: Effect,
                   nextRun: Option<Instant>, utcNow: Instant, now: int): (r: Manager)
    ensures r.registered == m.registered && QueueExtends(m, r)
    ensures job.Plain? && effect.raised ==> r == m.(queue := m.queue + effect.enqueued)
    ensures !oneTime && !(job.Plain? && effect.raised) ==>
      name in r.tasks && r.tasks[name] == Timer(now + delay * MicrosPerSecond, delay, false, job, Armed, None)
  {
    var (m1, raised) := Callback(m, job, effect, nextRun, utcNow, now);
    if raised then m1
    else
      var m2 := if name in m1.tasks then m1.(tasks := m1.tasks[name := m1.tasks[name].(lastRun := Some(now))]) else m1;
      if oneTime then m2 else ScheduleTask(m2, name, job, delay, oneTime, now)
  }

  /** The timer stored under `name` fires. A missing, cancelled or already
      fired timer does nothing. */
  function Fire(m: Manager, name: string, effect: Effect, nextRun: Option<Instant>, utcNow: Instant, now: int): (r: Manager)
    ensures name !in m.tasks || m.tasks[name].state != Armed ==> r == m
    ensures r.registered == m.registered && QueueExtends(m, r)
    ensures name in m.tasks && m.tasks[name].state == Armed && m.tasks[name].job.Plain? ==>
      r.queue == m.queue + effect.enqueued
  {
    if name !in m.tasks || m.tasks[name].state != Armed then m
    else
      var t := m.tasks[name];
      var m1 := m.(tasks := m.tasks[name := t.(state := Fired)]);
      RunTask(m1, name, t.job, t.delay, t.oneTime, effect, nextRun, utcNow, now)
  }

  /** `get_active_timers`: every stored timer's name with its scheduled time. */
  function ActiveTimers(m: Manager): (r: map<string, int>)
    ensures r.Keys == m.tasks.Keys
    ensures forall n :: n in r ==> r[n] == m.tasks[n].fireAt
  {
    map n | n in m.tasks :: m.tasks[n].fireAt
  }

  /** `run_task_now`: call a registered runnable once, outside the timers. */
  function RunTaskNow(m: Manager, name: string, effect: Effect): (r: Manager)
    ensures name !in m.registered ==> r == m
    ensures r.tasks == m.tasks && r.registered == m.registered && r.registeredConfig == m.registeredConfig
    ensures name in m.registered ==> r.queue == m.queue + effect.enqueued
  {
    if name !in m.registered then m else m.(queue := m.queue + effect.enqueued)
  }

  /** `stop`: cancel every timer. */
  function Stop(m: Manager): (r: Manager)
    ensures r.tasks.Keys == m.tasks.Keys
    ensures forall n :: n in r.tasks ==> r.tasks[n].state != Armed && r.tasks[n].fireAt == m.tasks[n].fireAt
    ensures r.registered == m.registered && r.registeredConfig == m.registeredConfig && r.queue == m.queue
  {
    m.(tasks := map n | n in m.tasks :: Cancel(m.tasks[n]))
  }

  // ---------------------------------------------------------------------------
  // The manager as a whole

  /** The operations a caller can perform, including a timer firing. */
  datatype Event =
    | Schedule(name: string, id: nat, delay: int, oneTime: bool)
    | Register(name: string, runnable: nat)
    | ScheduleReg(name: string, config: Value, configData: Option<Dict>)
    | FireTimer(name: string)
    | RunNow(name: string)
    | StopAll

  /** One transition. `effect` is what the callback or runnable does if one
      is called; `nextRun` and `utcNow` are what a store read returns. */
  function Step(m: Manager, e: Event, effect: Effect, nextRun: Option<Instant>, utcNow: Instant, now: int): (r: Manager)
    ensures m.registered.Keys <= r.registered.Keys
    ensures QueueExtends(m, r)
    ensures !e.FireTimer? && !e.RunNow? ==> r.queue == m.queue
  {
    match e
    case Schedule(n, id, d, o) => ScheduleTask(m, n, Plain(id), d, o, now)
    case Register(n, r) => RegisterTask(m, n, r)
    case ScheduleReg(n, c, cd) => ScheduleRegistered(m, n, c, cd, nextRun, utcNow, now)
    case FireTimer(n) => Fire(m, n, effect, nextRun, utcNow, now)
    case RunNow(n) => RunTaskNow(m, n, effect)
    case StopAll => Stop(m)
  }

  /** Configs are only stored for registered names, and a registered-task
      timer is a one-shot timer under its own component's name, which is
      registered. */
  predicate Valid(m: Manager): (r: bool)
    ensures m.tasks == map[] && m.registeredConfig == map[] ==> r
    ensures r && m.registered == map[] ==> forall n | n in m.tasks :: m.tasks[n].job.Plain?
  {
    && m.registeredConfig.Keys <= m.registered.Keys
    && forall n :: n in m.tasks && m.tasks[n].job.RegisteredRun? ==>
         m.tasks[n].job.component == n && n in m.registered && m.tasks[n].oneTime
  }

  lemma {:induction false} EmptyValid()
    ensures Valid(Empty)
  {
  }

  /** Every transition keeps the manager valid. */
  lemma {:induction false} StepPreservesValid(m: Manager, e: Event, effect: Effect, nextRun: Option<Instant>, utcNow: Instant, now: int)
    requires Valid(m)
    ensures Valid(Step(m, e, effect, nextRun, utcNow, now))
  {
    match e
    case Schedule(n, id, d, o) => ScheduleTaskValid(m, n, Plain(id), d, o, now);
    case ScheduleReg(n, c, cd) => ScheduleRegisteredValid(m, n, c, cd, nextRun, utcNow, now);
    case FireTimer(n) => FireValid(m, n, effect, nextRun, utcNow, now);
    case StopAll => assert Step(m, e, effect, nextRun, utcNow, now).tasks == Stop(m).tasks;
    case _ =>
  }

  lemma {:induction false} ScheduleTaskValid(m: Manager, name: string, job: Job, delay: int, oneTime: bool, now: int)
    requires Valid(m)
    requires job.RegisteredRun? ==> job.component == name && name in m.registered && oneTime
    ensures Valid(ScheduleTask(m, name, job, delay, oneTime, now))
  {
  }

  lemma {:induction false} ScheduleRegisteredValid(m: Manager, name: string, config: Value, configData: Option<Dict>,
                                nextRun: Option<Instant>, utcNow: Instant, now: int)
    requires Valid(m)
    ensures Valid(ScheduleRegistered(m, name, config, configData, nextRun, utcNow, now))
  {
    if name in m.registered {
      var m1 := m.(registeredConfig := m.registeredConfig[name := RunConfig(config, configData)]);
      assert Valid(m1);
      ScheduleTaskValid(m1, name, RegisteredRun(name), DelayFor(nextRun, utcNow), true, now);
    }
  }

  lemma {:induction false} FireValid(m: Manager, name: string, effect: Effect, nextRun: Option<Instant>, utcNow: Instant, now: int)
    requires Valid(m)
    ensures Valid(Fire(m, name, effect, nextRun, utcNow, now))
  {
    if name in m.tasks && m.tasks[name].state == Armed {
      var t := m.tasks[name];
      var m1 := m.(tasks := m.tasks[name := t.(state := Fired)]);
      assert Valid(m1);
      RunTaskValid(m1, name, t.job, t.delay, t.oneTime, effect, nextRun, utcNow, now);
    }
  }

  lemma {:induction false} RunTaskValid(m: Manager, name: string, job: Job, delay: int, oneTime: bool, effect: Effect,
                     nextRun: Option<Instant>, utcNow: Instant, now: int)
    requires Valid(m)
    requires job.RegisteredRun? ==> job.component == name && name in m.registered && oneTime
    ensures Valid(RunTask(m, name, job, delay, oneTime, effect, nextRun, utcNow, now))
  {
    var (m2, raised) := Callback(m, job, effect, nextRun, utcNow, now);
    CallbackValid(m, job, effect, nextRun, utcNow, now);
    var m3 := if name in m2.tasks then m2.(tasks := m2.tasks[name := m2.tasks[name].(lastRun := Some(now))]) else m2;
    assert Valid(m3);
    if !raised && !oneTime {
      ScheduleTaskValid(m3, name, job, delay, oneTime, now);
    }
  }

  lemma {:induction false} CallbackValid(m: Manager, job: Job, effect: Effect, nextRun: Option<Instant>, utcNow: Instant, now: int)
    requires Valid(m)
    ensures Valid(Callback(m, job, effect, nextRun, utcNow, now).0)
    ensures Callback(m, job, effect, nextRun, utcNow, now).0.registered == m.registered
  {
    if job.RegisteredRun? {
      var c := job.component;
      var rc := ConfigFor(m, c);
      if rc.config != VNull {
        var q := if c in m.registered then m.(queue := m.queue + effect.enqueued) else m;
        assert Valid(q);
        ScheduleRegisteredValid(q, c, rc.config, rc.configData, nextRun, utcNow, now);
      }
    }
  }

  /** Scheduling a name twice leaves only the second timer: last write wins,
      and the first never fires. */
  lemma {:induction false} ScheduleTwiceKeepsLast(m: Manager, name: string, j1: Job, d1: int, o1: bool, t1: int,
                               j2: Job, d2: int, o2: bool, t2: int)
    ensures ScheduleTask(ScheduleTask(m, name, j1, d1, o1, t1), name, j2, d2, o2, t2)
         == ScheduleTask(m, name, j2, d2, o2, t2)
  {
  }

  /** Registering twice under one name keeps the later runnable. */
  lemma {:induction false} RegisterLastWins(m: Manager, name: string, a: nat, b: nat)
    ensures RegisterTask(RegisterTask(m, name, a), name, b) == RegisterTask(m, name, b)
  {
  }

  /** A scheduled timer is listed with the time it was scheduled for. */
  lemma {:induction false} ScheduledTimerIsListed(m: Manager, name: string, job: Job, delay: int, oneTime: bool, now: int)
    ensures var timers := ActiveTimers(ScheduleTask(m, name, job, delay, oneTime, now));
      name in timers && timers[name] == now + delay * MicrosPerSecond
      && forall n :: n in m.tasks && n != name ==> n in timers && timers[n] == m.tasks[n].fireAt
  {
  }

  /** A recurring plain timer whose callback returns is armed again with the
      same delay, counted from the firing time. */
  lemma {:induction false} RecurringTimerRearms(m: Manager, name: string, effect: Effect, nextRun: Option<Instant>, utcNow: Instant, now: int)
    requires name in m.tasks && m.tasks[name].state == Armed
    requires m.tasks[name].job.Plain? && !m.tasks[name].oneTime && !effect.raised
    ensures var t := m.tasks[name];
      Fire(m, name, effect, nextRun, utcNow, now).tasks[name]
        == Timer(now + t.delay * MicrosPerSecond, t.delay, false, t.job, Armed, None)
  {
  }

  /** A plain timer whose callback raises is not armed again, whether it was
      one-shot or recurring; the exception does not escape and the rest of
      the manager is as the callback left it. */
  lemma {:induction false} RaisingTimerStops(m: Manager, name: string, effect: Effect, nextRun: Option<Instant>, utcNow: Instant, now: int)
    requires name in m.tasks && m.tasks[name].state == Armed
    requires m.tasks[name].job.Plain? && effect.raised
    ensures var r := Fire(m, name, effect, nextRun, utcNow, now);
      && r.tasks[name] == m.tasks[name].(state := Fired)
      && r.queue == m.queue + effect.enqueued
  {
  }

  /** A one-shot plain timer that returns is stamped with its run time and
      not armed again. */
  lemma {:induction false} OneShotTimerFinishes(m: Manager, name: string, effect: Effect, nextRun: Option<Instant>, utcNow: Instant, now: int)
    requires name in m.tasks && m.tasks[name].state == Armed
    requires m.tasks[name].job.Plain? && m.tasks[name].oneTime && !effect.raised
    ensures Fire(m, name, effect, nextRun, utcNow, now).tasks[name]
         == m.tasks[name].(state := Fired, lastRun := Some(now))
  {
  }

  /** A registered task is armed again for the stored next run after it
      fires, even when its runnable raised; the new timer is the one stamped
      with the run time. */
  lemma {:induction false} RegisteredTaskRearms(m: Manager, name: string, effect: Effect, nextRun: Option<Instant>, utcNow: Instant, now: int)
    requires Valid(m) && name in m.tasks && m.tasks[name].state == Armed && m.tasks[name].job.RegisteredRun?
    requires ConfigFor(m, name).config != VNull
    ensures var r := Fire(m, name, effect, nextRun, utcNow, now);
      var delay := DelayFor(nextRun, utcNow);
      && r.tasks[name] == Timer(now + delay * MicrosPerSecond, delay, true, RegisteredRun(name), Armed, Some(now))
      && r.queue == m.queue + effect.enqueued
      && r.registeredConfig == m.registeredConfig
  {
    var t := m.tasks[name];
    assert t.job == RegisteredRun(name) && name in m.registered;
    var m1 := m.(tasks := m.tasks[name := t.(state := Fired)]);
    assert ConfigFor(m1, name) == ConfigFor(m, name);
    var m2 := RunRegistered(m1, name, effect, nextRun, utcNow, now);
    var delay := DelayFor(nextRun, utcNow);
    assert m2.tasks[name] == Timer(now + delay * MicrosPerSecond, delay, true, RegisteredRun(name), Armed, None);
    assert Callback(m1, t.job, effect, nextRun, utcNow, now) == (m2, false);
    assert t.oneTime;
  }

  /** A registered task whose stored config is None is not run and not armed
      again. */
  lemma {:induction false} RegisteredWithoutConfigStops(m: Manager, name: string, effect: Effect, nextRun: Option<Instant>, utcNow: Instant, now: int)
    requires Valid(m) && name in m.tasks && m.tasks[name].state == Armed && m.tasks[name].job.RegisteredRun?
    requires ConfigFor(m, name).config == VNull
    ensures var r := Fire(m, name, effect, nextRun, utcNow, now);
      r.tasks[name] == m.tasks[name].(state := Fired, lastRun := Some(now)) && r.queue == m.queue
  {
    var t := m.tasks[name];
    assert t.job == RegisteredRun(name);
    var m1 := m.(tasks := m.tasks[name := t.(state := Fired)]);
    assert ConfigFor(m1, name) == ConfigFor(m, name);
    assert RunRegistered(m1, name, effect, nextRun, utcNow, now) == m1;
    assert Callback(m1, t.job, effect, nextRun, utcNow, now) == (m1, false);
    assert t.oneTime;
  }

  /** After `stop` no timer fires any more. */
  lemma {:induction false} StoppedTimersNeverFire(m: Manager, name: string, effect: Effect, nextRun: Option<Instant>, utcNow: Instant, now: int)
    ensures Fire(Stop(m), name, effect, nextRun, utcNow, now) == Stop(m)
  {
  }
}
