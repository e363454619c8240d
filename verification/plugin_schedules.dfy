/** How each plugin task turns its component config into a schedule
    (`_schedule_from_config` in the plugin `task.py` files).

    An exception raised here escapes the task's constructor, so the results
    are `Outcome`s. Every "HH:MM" a plugin writes is produced by
    `FormatClock` and so reads back unchanged in the scheduler.
 */
module PluginSchedules {
  import opened Wrappers
  import opened Text
  import opened Values
  import opened Calendar
  import opened Schedule

  function DailySpec(clock: string): Spec {
    Spec(DAILY, Some(map["time" := VStr(clock)]))
  }

  function IntervalSpec(seconds: Value): Spec {
    Spec(INTERVAL_SECONDS, Some(map["interval_seconds" := seconds]))
  }

  /** Read a configured "HH:MM" and write it back zero padded; anything that
      does not parse becomes `fallback`. */
  function NormalizeClock(v: Value, fallback: string): (r: string)
    ensures ParseClock(v).Ok? ==> r == FormatClock(ParseClock(v).value.0, ParseClock(v).value.1)
    ensures ParseClock(v).Raised? ==> r == fallback
  {
    match ParseClock(v)
    case Ok((h, m)) => FormatClock(h, m)
    case Raised(_) => fallback
  }

  /** `x if x < 100000 else x // 1000` on the configured update interval:
      large values are taken to be milliseconds. Comparing `None`, a string,
      a list or a dict with an int raises TypeError. */
  function MillisHeuristic(v: Value): (r: Outcome<Value>)
    ensures v.VInt? && v.i < 100000 ==> r == Ok(v)
    ensures v.VInt? && v.i >= 100000 ==> r.Ok? && r.value.VInt? && r.value.i * 1000 <= v.i < (r.value.i + 1) * 1000
    ensures v.VBool? ==> r == Ok(v)
    ensures !(v.VInt? || v.VBool?) ==> r == Raised(TypeError)
  {
    match v
    case VInt(i) => if i < 100000 then Ok(v) else Ok(VInt(i / 1000))
    case VBool(_) => Ok(v)
    case _ => Raised(TypeError)
  }

  /** `WeatherTask._schedule_from_config`: an interval of at least 60 seconds
      when `update_interval` converts to an int, otherwise daily at 10:00. */
  function WeatherSchedule(config: Dict): (r: Spec)
    ensures var v := GetOpt(config, "update_interval");
      !v.VNull? && IntOf(v).Ok? ==> r == IntervalSpec(VInt(if IntOf(v).value < 60 then 60 else IntOf(v).value))
    ensures var v := GetOpt(config, "update_interval");
      (v.VNull? || IntOf(v).Raised?) ==> r == DailySpec("10:00")
  {
    var v := GetOpt(config, "update_interval");
    if v.VNull? then DailySpec("10:00")
    else match IntOf(v)
      case Ok(sec) => IntervalSpec(VInt(if sec < 60 then 60 else sec))
      case Raised(_) => DailySpec("10:00")
  }

  /** `ClassroomTask._schedule_from_config`: always an interval, default 3600. */
  function ClassroomSchedule(config: Dict): (r: Outcome<Spec>)
    ensures "update_interval" !in config ==> r == Ok(IntervalSpec(VInt(3600)))
    ensures r.Ok? <==> MillisHeuristic(Get(config, "update_interval", VInt(3600))).Ok?
    ensures r.Ok? ==> r.value.kind == INTERVAL_SECONDS
  {
    var sec :- MillisHeuristic(Get(config, "update_interval", VInt(3600)));
    Ok(IntervalSpec(sec))
  }

  /** The shared shape of the bills and prayer schedules: a truthy
      `schedule_time` gives a normalised daily time (or `fallback` when it
      does not parse); otherwise an interval with the milliseconds rule. */
  function TimeOrInterval(config: Dict, fallback: string, defaultInterval: int): (r: Outcome<Spec>)
    ensures Truthy(GetOpt(config, "schedule_time")) ==>
      r == Ok(DailySpec(NormalizeClock(GetOpt(config, "schedule_time"), fallback)))
    ensures !Truthy(GetOpt(config, "schedule_time")) ==>
      match MillisHeuristic(Get(config, "update_interval", VInt(defaultInterval)))
      case Ok(sec) => r == Ok(IntervalSpec(sec))
      case Raised(e) => r == Raised(e)
  {
    var st := GetOpt(config, "schedule_time");
    if Truthy(st) then Ok(DailySpec(NormalizeClock(st, fallback)))
    else
      var sec :- MillisHeuristic(Get(config, "update_interval", VInt(defaultInterval)));
      Ok(IntervalSpec(sec))
  }

  /** `UtilitiesBillDueTask._schedule_from_config`. */
  function BillsSchedule(config: Dict): (r: Outcome<Spec>)
    ensures !Truthy(GetOpt(config, "schedule_time")) && "update_interval" !in config ==>
      r == Ok(IntervalSpec(VInt(86400)))
    ensures Truthy(GetOpt(config, "schedule_time")) && ParseClock(GetOpt(config, "schedule_time")).Raised? ==>
      r == Ok(DailySpec("07:00"))
  {
    TimeOrInterval(config, "07:00", 86400)
  }

  /** `PrayerTimesTask._schedule_from_config`. */
  function PrayerSchedule(config: Dict): (r: Outcome<Spec>)
    ensures !Truthy(GetOpt(config, "schedule_time")) && "update_interval" !in config ==>
      r == Ok(IntervalSpec(VInt(3600)))
    ensures Truthy(GetOpt(config, "schedule_time")) && ParseClock(GetOpt(config, "schedule_time")).Raised? ==>
      r == Ok(DailySpec("10:00"))
  {
    TimeOrInterval(config, "10:00", 3600)
  }

  /** `FridayPrayerTask._schedule_from_config`: `daily_update` (default `{}`)
      enabled by default gives a normalised daily time, default 10:00;
      disabled gives a one-day interval. A truthy `daily_update` that is not a
      dict has no `.get` and raises AttributeError. */
  function FridaySchedule(config: Dict): (r: Outcome<Spec>)
    ensures var daily := GetOpt(config, "daily_update");
      Truthy(daily) && !daily.VObj? ==> r == Raised(AttributeError)
    ensures var daily := GetOpt(config, "daily_update");
      !Truthy(daily) ==> r == Ok(DailySpec("10:00"))
    ensures var daily := GetOpt(config, "daily_update");
      daily.VObj? && Truthy(daily) && !Truthy(Get(daily.fields, "enabled", VBool(true))) ==> r == Ok(IntervalSpec(VInt(86400)))
    ensures var daily := GetOpt(config, "daily_update");
      daily.VObj? && Truthy(daily) && Truthy(Get(daily.fields, "enabled", VBool(true))) ==>
        r == Ok(DailySpec(NormalizeClock(Get(daily.fields, "time", VStr("10:00")), "10:00")))
  {
    var daily := GetOpt(config, "daily_update");
    if daily.VObj? && Truthy(daily) then
      if Truthy(Get(daily.fields, "enabled", VBool(true))) then
        Ok(DailySpec(NormalizeClock(Get(daily.fields, "time", VStr("10:00")), "10:00")))
      else Ok(IntervalSpec(VInt(86400)))
    else if Truthy(daily) then Raised(AttributeError)
    else Ok(DailySpec("10:00"))
  }

  /** The clock literals the plugins default to. Each step is a lemma of
      its own: the solver settles one string literal at a time cheaply. */
  lemma {:induction false} TenOClock()
    ensures FormatClock(10, 0) == "10:00"
  {
    PadTen();
    PadZero();
    TenOClockText();
  }

  lemma {:induction false} SevenOClock()
    ensures FormatClock(7, 0) == "07:00"
  {
    PadSeven();
    PadZero();
    SevenOClockText();
  }

  lemma {:induction false} PadZero() ensures Pad2(0) == "00" {}
  lemma {:induction false} PadSeven() ensures Pad2(7) == "07" {}
  lemma {:induction false} PadTen() ensures Pad2(10) == "10" {
    assert NatToString(1) == ['1'];
    assert NatToString(10) == NatToString(1) + [DigitChar(0)];
    assert IntToString(10) == NatToString(10);
  }
  lemma {:induction false} TenOClockText() ensures "10" + ":" + "00" == "10:00" {}
  lemma {:induction false} SevenOClockText() ensures "07" + ":" + "00" == "07:00" {}

  /** A default clock written by `FormatClock` is already normal. */
  lemma {:induction false} DefaultClockIsNormal(h: int, m: int, clock: string)
    requires 0 <= h < 24 && 0 <= m < 60
    requires (h, m, clock) == (10, 0, "10:00") || (h, m, clock) == (7, 0, "07:00")
    ensures NormalizeClock(VStr(clock), clock) == clock
    ensures ParseClock(VStr(clock)) == Ok((h, m))
  {
    if h == 10 { TenOClock(); } else { SevenOClock(); }
    ParseClockOfFormat(h, m);
  }

  // ---------------------------------------------------------------------------
  // From plugin config to next run

  /** A normalised clock is read back by the scheduler as the hour and minute
      that were configured. */
  lemma {:induction false} NormalizedClockReadsBack(v: Value, fallback: string)
    requires ParseClock(v).Ok?
    ensures ParseClock(VStr(NormalizeClock(v, fallback))) == ParseClock(v)
  {
    var (h, m) := ParseClock(v).value;
    ParseClockOfFormat(h, m);
  }

  /** Normalising twice gives the same string as normalising once. */
  lemma {:induction false} NormalizeIdempotent(v: Value, fallback: string)
    requires ParseClock(v).Ok?
    ensures NormalizeClock(VStr(NormalizeClock(v, fallback)), fallback) == NormalizeClock(v, fallback)
  {
    NormalizedClockReadsBack(v, fallback);
  }

  /** A daily plugin schedule built from a configured HH:MM is placed by the
      scheduler exactly at that HH:MM. */
  lemma {:induction false} DailyPluginScheduleRunsAtConfiguredTime(v: Value, fallback: string, lastRun: Option<Instant>, now: Instant)
    requires ParseClock(v).Ok?
    ensures var (h, m) := ParseClock(v).value;
      var spec := DailySpec(NormalizeClock(v, fallback));
      ComputeNextRun(spec.kind, spec.config, lastRun, now) == DailyAt(h, m, lastRun.GetOr(now))
  {
    var (h, m) := ParseClock(v).value;
    var c := map["time" := VStr(FormatClock(h, m))];
    NormalizedClockReadsBack(v, fallback);
    ComputeDaily(c, lastRun, now);
  }

  /** A weather interval never fires sooner than 60 seconds after the last run. */
  lemma {:induction false} WeatherIntervalAtLeastAMinute(config: Dict, lastRun: Option<Instant>, now: Instant)
    requires WeatherSchedule(config).kind == INTERVAL_SECONDS
    ensures var spec := WeatherSchedule(config);
      var r := ComputeNextRun(spec.kind, spec.config, lastRun, now);
      r.Ok? && r.value >= lastRun.GetOr(now) + 60 * MicrosPerSecond
  {
    var spec := WeatherSchedule(config);
    var sec := spec.config.value["interval_seconds"];
    assert sec.VInt? && sec.i >= 60;
    assert ComputeNextRun(spec.kind, spec.config, lastRun, now) == NextInterval(sec, lastRun.GetOr(now));
  }
}
