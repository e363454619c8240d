/** The next-run calculator of `dashboard/core/task.py`.

    A schedule is a kind string plus an optional JSON config. The current time
    is an explicit argument: it is the baseline when a task has never run.
    Python exceptions raised while interpreting the config (a malformed
    "HH:MM", an impossible calendar day) are explicit `Raised` results.
 */
module Schedule {
  import opened Wrappers
  import opened Text
  import opened Values
  import opened Calendar

  const DAILY: string := "daily"
  const HOURLY: string := "hourly"
  const INTERVAL_SECONDS: string := "interval_seconds"
  const MONTHLY: string := "monthly"

  /** The four kinds differ in their first letter. */
  lemma {:induction false} KindsDistinct()
    ensures DAILY != HOURLY && DAILY != INTERVAL_SECONDS && DAILY != MONTHLY
    ensures HOURLY != INTERVAL_SECONDS && HOURLY != MONTHLY && INTERVAL_SECONDS != MONTHLY
  {
    assert DAILY[0] == 'd' && HOURLY[0] == 'h' && INTERVAL_SECONDS[0] == 'i' && MONTHLY[0] == 'm';
  }

  /** The `(schedule_type, schedule_config)` pair a task hands to the store. */
  datatype Spec = Spec(kind: string, config: Option<Dict>)

  /** `if schedule_config:` on an optional dict. */
  predicate ConfigGiven(config: Option<Dict>) {
    config.Some? && |config.value| > 0
  }

  function ConfigGet(config: Option<Dict>, key: string, default: Value): Value
    requires config.Some?
  {
    Get(config.value, key, default)
  }

  // ---------------------------------------------------------------------------
  // "HH:MM" strings

  /** `f"{hour:02d}:{minute:02d}"`, the form every plugin writes. */
  function FormatClock(hour: int, minute: int): string {
    Pad2(hour) + ":" + Pad2(minute)
  }

  /** `parts = str(v).strip().split(":")`, then `int(parts[0])` and
      `int(parts[1])` (0 when there is no second part). Anything after a
      second colon is ignored. */
  function ParseClock(v: Value): (r: Outcome<(int, int)>)
    ensures r.Raised? ==> r.error == ValueError
    ensures r.Ok? ==> StrOf(v).Some?
    ensures r.Ok? ==> var parts := Split(Strip(StrOf(v).value), ":");
      ParseInt(parts[0]) == Some(r.value.0) && (|parts| == 1 ==> r.value.1 == 0)
  {
    match StrOf(v)
    case None => Raised(ValueError)
    case Some(s) =>
      var parts := Split(Strip(s), ":");
      match ParseInt(parts[0])
      case None => Raised(ValueError)
      case Some(h) =>
        if |parts| > 1 then
          match ParseInt(parts[1])
          case None => Raised(ValueError)
          case Some(m) => Ok((h, m))
        else Ok((h, 0))
  }

  /** A clock written by a plugin is read back unchanged. */
  lemma {:induction false} ParseClockOfFormat(hour: int, minute: int)
    ensures ParseClock(VStr(FormatClock(hour, minute))) == Ok((hour, minute))
  {
    var a := Pad2(hour);
    var b := Pad2(minute);
    var s := FormatClock(hour, minute);
    assert Split(Strip(s), ":") == [a, b] by { ClockSplits(a, b); }
    ParseClockOfParts(VStr(s), s, a, b, hour, minute);
  }

  lemma {:induction false} ParseClockOfParts(v: Value, s: string, a: string, b: string, hour: int, minute: int)
    requires StrOf(v) == Some(s) && Split(Strip(s), ":") == [a, b]
    requires ParseInt(a) == Some(hour) && ParseInt(b) == Some(minute)
    ensures ParseClock(v) == Ok((hour, minute))
  {
  }

  /** Two numerals joined by a colon strip to themselves and split back. */
  lemma {:induction false} ClockSplits(a: string, b: string)
    requires |a| >= 1 && |b| >= 1 && IsNumeral(a) && IsNumeral(b)
    ensures Strip(a + ":" + b) == a + ":" + b
    ensures Split(a + ":" + b, ":") == [a, b]
  {
    ClockStrips(a, b);
    ClockSplitsBack(a, b);
  }

  lemma {:induction false} ClockStrips(a: string, b: string)
    requires |a| >= 1 && |b| >= 1 && IsNumeral(a) && IsNumeral(b)
    ensures Strip(a + ":" + b) == a + ":" + b
  {
    var s := a + ":" + b;
    assert !IsSpace(s[0]) by { assert s[0] == a[0]; }
    assert !IsSpace(s[|s| - 1]) by { assert s[|s| - 1] == b[|b| - 1]; }
    StripNoSpace(s);
  }

  lemma {:induction false} ClockSplitsBack(a: string, b: string)
    requires IsNumeral(a) && IsNumeral(b)
    ensures Split(a + ":" + b, ":") == [a, b]
  {
    NotContainsChar(a, ':');
    NotContainsChar(b, ':');
    assert Join([a, b], ":") == a + ":" + b;
    SplitJoin([a, b], ":");
  }

  // ---------------------------------------------------------------------------
  // compute_next_run

  /** `compute_next_run(schedule_type, schedule_config, last_run)` with the
      wall clock passed as `now`. */
  function ComputeNextRun(kind: string, config: Option<Dict>, lastRun: Option<Instant>, now: Instant): (r: Outcome<Instant>)
    ensures var base := lastRun.GetOr(now);
      && (kind == HOURLY ==> r == Ok(base + MicrosPerHour))
      && (kind !in {DAILY, HOURLY, INTERVAL_SECONDS, MONTHLY} ==> r == Ok(base + MicrosPerDay))
      && (kind in {DAILY, INTERVAL_SECONDS, MONTHLY} && !ConfigGiven(config) ==> r == Ok(base + MicrosPerDay))
  {
    var base := lastRun.GetOr(now);
    if kind == DAILY && ConfigGiven(config) then
      NextDaily(ConfigGet(config, "time", VStr("00:00")), base)
    else if kind == HOURLY then
      Ok(base + MicrosPerHour)
    else if kind == INTERVAL_SECONDS && ConfigGiven(config) then
      NextInterval(ConfigGet(config, "interval_seconds", VInt(86400)), base)
    else if kind == MONTHLY && ConfigGiven(config) then
      NextMonthly(ConfigGet(config, "day", VInt(1)), ConfigGet(config, "time", VStr("00:00")), base)
    else
      Ok(base + MicrosPerDay)
  }

  /** A config holding "time" sends a daily task to the daily branch. */
  lemma {:induction false} ComputeDaily(c: Dict, lastRun: Option<Instant>, now: Instant)
    requires "time" in c
    ensures ComputeNextRun(DAILY, Some(c), lastRun, now) == NextDaily(c["time"], lastRun.GetOr(now))
  {
    assert ConfigGiven(Some(c)) && ConfigGet(Some(c), "time", VStr("00:00")) == c["time"];
  }

  /** A config holding "day" and "time" sends a monthly task to the monthly branch. */
  lemma {:induction false} ComputeMonthly(c: Dict, lastRun: Option<Instant>, now: Instant)
    requires "time" in c && "day" in c
    ensures ComputeNextRun(MONTHLY, Some(c), lastRun, now) == NextMonthly(c["day"], c["time"], lastRun.GetOr(now))
  {
    KindsDistinct();
    assert ConfigGiven(Some(c)) && ConfigGet(Some(c), "time", VStr("00:00")) == c["time"];
    assert ConfigGet(Some(c), "day", VInt(1)) == c["day"];
  }

  /** The daily branch: read HH:MM from the config value, then place it. */
  function NextDaily(time: Value, base: Instant): (r: Outcome<Instant>)
    ensures r.Raised? ==> r.error == ValueError
  {
    var (h, m) :- ParseClock(time);
    DailyAt(h, m, base)
  }

  /** `base.replace(hour=h, minute=m, second=0, microsecond=0)`, that is
      HH:MM:00 on `base`'s own day, plus one day when that is not after
      `base`; `replace` raises ValueError for an hour or minute out of range. */
  function DailyAt(h: int, m: int, base: Instant): (r: Outcome<Instant>)
    ensures r.Ok? <==> ValidTime(h, m, 0, 0)
    ensures r.Raised? ==> r.error == ValueError
    ensures r.Ok? ==> base < r.value <= base + MicrosPerDay
  {
    if !ValidTime(h, m, 0, 0) then Raised(ValueError)
    else
      var next := Midnight(base) + h * MicrosPerHour + m * MicrosPerMinute;
      if next <= base then Ok(next + MicrosPerDay) else Ok(next)
  }

  /** The interval branch: `base + timedelta(seconds=int(v))`. */
  function NextInterval(seconds: Value, base: Instant): (r: Outcome<Instant>)
    ensures r.Ok? <==> IntOf(seconds).Ok? && base + IntOf(seconds).value * MicrosPerSecond >= 0
    ensures r.Ok? ==> r.value == base + IntOf(seconds).value * MicrosPerSecond
  {
    var sec :- IntOf(seconds);
    AddMicros(base, sec * MicrosPerSecond)
  }

  /** The monthly branch: read the day and HH:MM from the config, then
      place them. */
  function NextMonthly(day: Value, time: Value, base: Instant): (r: Outcome<Instant>) {
    var d :- IntOf(day);
    var (h, m) :- ParseClock(time);
    MonthlyAt(d, h, m, base)
  }

  /** `base.replace(day=d, hour=h, minute=m, second=0, microsecond=0)`; when
      that is not after `base`, the same day and time one month later. */
  function MonthlyAt(d: int, h: int, m: int, base: Instant): (r: Outcome<Instant>)
    ensures r.Raised? ==> r.error == ValueError
    ensures r.Ok? ==> ValidTime(h, m, 0, 0) && ValidDate(Date(DateOf(base).year, DateOf(base).month, d))
  {
    var cur := DateOf(base);
    var next :- NewDateTime(Date(cur.year, cur.month, d), h, m, 0, 0);
    if next <= base then
      NewDateTime(NextMonth(Date(cur.year, cur.month, d)), h, m, 0, 0)
    else Ok(next)
  }

  /** The same day number one calendar month later; December rolls over to
      January of the following year. The day is not adjusted. */
  function NextMonth(d: Date): (e: Date)
    requires 1 <= d.month <= 12
    ensures e.day == d.day && 1 <= e.month <= 12
    ensures d.month == 12 ==> e.year == d.year + 1 && e.month == 1
    ensures d.month < 12 ==> e.year == d.year && e.month == d.month + 1
  {
    if d.month == 12 then Date(d.year + 1, 1, d.day) else Date(d.year, d.month + 1, d.day)
  }
}
