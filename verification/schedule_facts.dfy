/** Properties of the next-run calculator: what each schedule kind promises
    about the instant it returns, and the worked examples of daily wrap-around
    and monthly year rollover. */
module ScheduleFacts {
  import opened Wrappers
  import opened Text
  import opened Values
  import opened Calendar
  import opened Schedule

  // ---------------------------------------------------------------------------
  // Time-of-day arithmetic

  /** An instant is its day's midnight plus its time of day. */
  lemma {:induction false} SplitInstant(t: Instant)
    ensures t == DayOf(t) * MicrosPerDay + TimeOfDay(t)
    ensures TimeOfDay(t) < MicrosPerDay
  {
  }

  /** Adding whole days keeps the time of day. */
  lemma {:induction false} AddDayKeepsTime(t: Instant)
    ensures DayOf(t + MicrosPerDay) == DayOf(t) + 1
    ensures TimeOfDay(t + MicrosPerDay) == TimeOfDay(t)
  {
    SplitInstant(t);
    DivUnique(t + MicrosPerDay, MicrosPerDay, DayOf(t) + 1, TimeOfDay(t));
  }

  /** The clock fields of an instant whose time of day is HH:MM:00. */
  lemma {:induction false} ClockFields(t: Instant, h: int, m: int)
    requires ValidTime(h, m, 0, 0)
    requires TimeOfDay(t) == h * MicrosPerHour + m * MicrosPerMinute
    ensures HourOf(t) == h && MinuteOf(t) == m && SecondOf(t) == 0 && MicrosecondOf(t) == 0
  {
    var tod := TimeOfDay(t);
    DivUnique(tod, MicrosPerHour, h, m * MicrosPerMinute);
    DivUnique(m * MicrosPerMinute, MicrosPerMinute, m, 0);
    DivUnique(tod, MicrosPerMinute, h * 60 + m, 0);
    SplitInstant(t);
    DivUnique(t, MicrosPerSecond, DayOf(t) * 86_400 + h * 3600 + m * 60, 0);
  }

  /** Two instants with the same time of day are whole days apart. */
  lemma {:induction false} SameTimeWholeDays(s: Instant, t: Instant)
    requires TimeOfDay(s) == TimeOfDay(t) && s < t
    ensures s + MicrosPerDay <= t
  {
    SplitInstant(s);
    SplitInstant(t);
    assert DayOf(s) < DayOf(t) by {
      if DayOf(s) >= DayOf(t) {
        MulMonotone(DayOf(t), DayOf(s), MicrosPerDay);
      }
    }
    MulMonotone(DayOf(s) + 1, DayOf(t), MicrosPerDay);
  }

  lemma {:induction false} MulMonotone(a: nat, b: nat, k: nat)
    requires a <= b
    ensures a * k <= b * k
  {
  }

  // ---------------------------------------------------------------------------
  // Daily

  /** Same-day-or-next-day choice on day-relative offsets. */
  lemma {:induction false} DailyArith(k: nat, tb: nat, tod: nat)
    requires tb < MicrosPerDay && tod < MicrosPerDay
    ensures var base := k * MicrosPerDay + tb;
      var next := k * MicrosPerDay + tod;
      var r := if next <= base then next + MicrosPerDay else next;
      base < r <= base + MicrosPerDay && TimeOfDay(r) == tod
  {
    var base := k * MicrosPerDay + tb;
    var next := k * MicrosPerDay + tod;
    if next <= base {
      DivUnique(next + MicrosPerDay, MicrosPerDay, k + 1, tod);
    } else {
      DivUnique(next, MicrosPerDay, k, tod);
    }
  }

  /** Daily succeeds exactly when HH:MM is a valid time of day; the result
      then shows that time with zero seconds and lies in (base, base + 1 day]. */
  lemma {:induction false} DailyAtResult(h: int, m: int, base: Instant)
    ensures DailyAt(h, m, base).Ok? <==> ValidTime(h, m, 0, 0)
    ensures DailyAt(h, m, base).Ok? ==>
      var r := DailyAt(h, m, base).value;
      && TimeOfDay(r) == h * MicrosPerHour + m * MicrosPerMinute
      && HourOf(r) == h && MinuteOf(r) == m && SecondOf(r) == 0 && MicrosecondOf(r) == 0
      && base < r <= base + MicrosPerDay
  {
    if ValidTime(h, m, 0, 0) {
      var tod := h * MicrosPerHour + m * MicrosPerMinute;
      var k := DayOf(base);
      assert Midnight(base) == k * MicrosPerDay;
      SplitInstant(base);
      DailyArith(k, TimeOfDay(base), tod);
      ClockFields(DailyAt(h, m, base).value, h, m);
    }
  }

  /** No instant strictly after `base` that shows the same time of day comes
      before the daily result: it is the earliest such instant. */
  lemma {:induction false} DailyIsEarliest(h: int, m: int, base: Instant, t: Instant)
    requires DailyAt(h, m, base).Ok?
    requires base < t && TimeOfDay(t) == TimeOfDay(DailyAt(h, m, base).value)
    ensures DailyAt(h, m, base).value <= t
  {
    var r := DailyAt(h, m, base).value;
    DailyAtResult(h, m, base);
    if t < r {
      SameTimeWholeDays(t, r);
    }
  }

  // ---------------------------------------------------------------------------
  // Monthly

  /** A later calendar month starts after every day of an earlier one. */
  lemma {:induction false} NextMonthLater(d: Date, e: Date)
    requires ValidDate(d) && ValidDate(e)
    requires e.year == NextMonth(d).year && e.month == NextMonth(d).month
    ensures DayNumber(d) < DayNumber(e)
  {
    DaysBeforeMonthStep(d.year, d.month);
    if d.month == 12 {
      DaysBeforeYearStep(d.year);
    }
  }

  /** Monthly: the result is day `d` at HH:MM:00 of `base`'s month when that
      is after `base`, otherwise of the following month (December rolling to
      January of the next year); either way it is after `base`. */
  lemma {:induction false} MonthlyAtResult(d: int, h: int, m: int, base: Instant)
    ensures var cur := DateOf(base);
      MonthlyAt(d, h, m, base).Ok? <==>
        && ValidTime(h, m, 0, 0) && ValidDate(Date(cur.year, cur.month, d))
        && (MakeInstant(Date(cur.year, cur.month, d), h, m, 0, 0) <= base ==> ValidDate(NextMonth(Date(cur.year, cur.month, d))))
    ensures MonthlyAt(d, h, m, base).Ok? ==>
      var r := MonthlyAt(d, h, m, base).value;
      var cur := DateOf(base);
      && base < r
      && HourOf(r) == h && MinuteOf(r) == m && SecondOf(r) == 0 && MicrosecondOf(r) == 0
      && (DateOf(r) == Date(cur.year, cur.month, d) || DateOf(r) == NextMonth(Date(cur.year, cur.month, d)))
      && (DateOf(r) == Date(cur.year, cur.month, d) <==> MakeInstant(Date(cur.year, cur.month, d), h, m, 0, 0) > base)
  {
    var res := MonthlyAt(d, h, m, base);
    if res.Ok? {
      var r := res.value;
      var cur := DateOf(base);
      var here := Date(cur.year, cur.month, d);
      var next := MakeInstant(here, h, m, 0, 0);
      MakeInstantFields(here, h, m, 0, 0);
      if next <= base {
        var there := NextMonth(here);
        assert r == MakeInstant(there, h, m, 0, 0);
        MakeInstantFields(there, h, m, 0, 0);
        NextMonthLater(cur, there);
        SplitInstant(base);
        MulMonotone(DayOf(base) + 1, DayNumber(there), MicrosPerDay);
        assert DateOf(r) != here by {
          NextMonthLater(here, there);
        }
      } else {
        assert r == next;
      }
    }
  }

  /** Monthly fails, rather than clamping, when the configured day does not
      exist in `base`'s month. */
  lemma {:induction false} MonthlyRaisesOnMissingDay(d: int, h: int, m: int, base: Instant)
    requires !ValidDate(Date(DateOf(base).year, DateOf(base).month, d))
    ensures MonthlyAt(d, h, m, base) == Raised(ValueError)
  {
  }

  /** Day 31 fails in every 30-day month, whatever the time. */
  lemma {:induction false} MonthlyDay31InApril(h: int, m: int, base: Instant)
    requires DateOf(base).month == 4
    ensures MonthlyAt(31, h, m, base) == Raised(ValueError)
  {
  }

  // ---------------------------------------------------------------------------
  // compute_next_run as a whole

  /** With no last run the current time is the baseline. */
  lemma {:induction false} NoLastRunUsesNow(kind: string, config: Option<Dict>, now: Instant)
    ensures ComputeNextRun(kind, config, None, now) == ComputeNextRun(kind, config, Some(now), now)
  {
  }

  /** Interval without an "interval_seconds" entry waits one day. */
  lemma {:induction false} IntervalDefaultsToOneDay(config: Dict, lastRun: Option<Instant>, now: Instant)
    requires |config| > 0 && "interval_seconds" !in config
    ensures ComputeNextRun(INTERVAL_SECONDS, Some(config), lastRun, now) == Ok(lastRun.GetOr(now) + SecondsPerDay * MicrosPerSecond)
  {
  }

  /** A successful result is after the baseline for every kind except an
      interval of zero or fewer seconds. */
  lemma {:induction false} NextRunAfterBase(kind: string, config: Option<Dict>, lastRun: Option<Instant>, now: Instant)
    requires ComputeNextRun(kind, config, lastRun, now).Ok?
    requires kind == INTERVAL_SECONDS && ConfigGiven(config) ==>
      IntOf(Get(config.value, "interval_seconds", VInt(86400))).value > 0
    ensures ComputeNextRun(kind, config, lastRun, now).value > lastRun.GetOr(now)
  {
    var base := lastRun.GetOr(now);
    if kind == DAILY && ConfigGiven(config) {
      var (h, m) := ParseClock(ConfigGet(config, "time", VStr("00:00"))).value;
      DailyAtResult(h, m, base);
    } else if kind == MONTHLY && ConfigGiven(config) {
      var d := IntOf(ConfigGet(config, "day", VInt(1))).value;
      var (h, m) := ParseClock(ConfigGet(config, "time", VStr("00:00"))).value;
      MonthlyAtResult(d, h, m, base);
    }
  }

  // ---------------------------------------------------------------------------
  // Worked examples, stated for every date

  /** The calendar day after `d`. */
  function NextDay(d: Date): (e: Date)
    requires ValidDate(d)
    ensures ValidDate(e) && DayNumber(e) == DayNumber(d) + 1
  {
    DateOfDay(DayNumber(d) + 1)
  }

  /** The daily branch once HH:MM is known to be valid: the candidate is the
      datetime built from `base`'s calendar date `d` and HH:MM:00. */
  lemma {:induction false} DailyAtValue(h: int, m: int, d: Date, base: Instant)
    requires ValidTime(h, m, 0, 0) && ValidDate(d) && DayNumber(d) == DayOf(base)
    ensures var next := MakeInstant(d, h, m, 0, 0);
      DailyAt(h, m, base) == Ok(if next <= base then next + MicrosPerDay else next)
  {
  }

  /** The monthly branch once the day and HH:MM are known to be valid. */
  lemma {:induction false} MonthlyAtValue(d: int, h: int, m: int, base: Instant)
    requires ValidTime(h, m, 0, 0) && ValidDate(Date(DateOf(base).year, DateOf(base).month, d))
    ensures var here := Date(DateOf(base).year, DateOf(base).month, d);
      MonthlyAt(d, h, m, base) ==
        if MakeInstant(here, h, m, 0, 0) <= base then NewDateTime(NextMonth(here), h, m, 0, 0)
        else Ok(MakeInstant(here, h, m, 0, 0))
  {
  }

  /** A daily config written as "HH:MM" places HH:MM after the baseline. */
  lemma {:induction false} DailyConfigAt(h: int, m: int, base: Instant, now: Instant)
    ensures ComputeNextRun(DAILY, Some(map["time" := VStr(FormatClock(h, m))]), Some(base), now)
         == DailyAt(h, m, base)
  {
    ComputeDaily(map["time" := VStr(FormatClock(h, m))], Some(base), now);
    ParseClockOfFormat(h, m);
  }

  /** A monthly config of day `d` and "HH:MM" places them after the baseline. */
  lemma {:induction false} MonthlyConfigAt(d: int, h: int, m: int, base: Instant, now: Instant)
    ensures ComputeNextRun(MONTHLY, Some(map["day" := VInt(d), "time" := VStr(FormatClock(h, m))]), Some(base), now)
         == MonthlyAt(d, h, m, base)
  {
    var c := map["day" := VInt(d), "time" := VStr(FormatClock(h, m))];
    ComputeMonthly(c, Some(base), now);
    assert c["day"] == VInt(d) && c["time"] == VStr(FormatClock(h, m));
    ParseClockOfFormat(h, m);
    assert IntOf(VInt(d)) == Ok(d);
  }

  /** Daily HH:MM after a run at exactly HH:MM moves to HH:MM the next
      calendar day (for example "07:00" after 2024-01-01T07:00 gives
      2024-01-02T07:00). */
  lemma {:induction false} DailyWrapAround(d: Date, h: int, m: int, now: Instant)
    requires ValidDate(d) && ValidTime(h, m, 0, 0)
    ensures ComputeNextRun(DAILY, Some(map["time" := VStr(FormatClock(h, m))]),
                           Some(MakeInstant(d, h, m, 0, 0)), now)
         == Ok(MakeInstant(NextDay(d), h, m, 0, 0))
  {
    DailyConfigAt(h, m, MakeInstant(d, h, m, 0, 0), now);
    DailyAtOnTheDot(d, h, m);
    NextDayInstant(d, h, m);
  }

  lemma {:induction false} DailyAtOnTheDot(d: Date, h: int, m: int)
    requires ValidDate(d) && ValidTime(h, m, 0, 0)
    ensures DailyAt(h, m, MakeInstant(d, h, m, 0, 0)) == Ok(MakeInstant(d, h, m, 0, 0) + MicrosPerDay)
  {
    DailyAtSameInstant(MakeInstant(d, h, m, 0, 0), h, m);
  }

  lemma {:induction false} DailyAtSameInstant(t: Instant, h: int, m: int)
    requires ValidTime(h, m, 0, 0) && TimeOfDay(t) == h * MicrosPerHour + m * MicrosPerMinute
    ensures DailyAt(h, m, t) == Ok(t + MicrosPerDay)
  {
    SplitInstant(t);
  }

  lemma {:induction false} NextDayInstant(d: Date, h: int, m: int)
    requires ValidDate(d) && ValidTime(h, m, 0, 0)
    ensures MakeInstant(NextDay(d), h, m, 0, 0) == MakeInstant(d, h, m, 0, 0) + MicrosPerDay
  {
  }

  /** Daily HH:MM after a run earlier the same day fires that day (for
      example "07:00" after 2024-01-01T06:00 gives 2024-01-01T07:00). */
  lemma {:induction false} DailySameDay(d: Date, h0: int, m0: int, h: int, m: int, now: Instant)
    requires ValidDate(d) && ValidTime(h0, m0, 0, 0) && ValidTime(h, m, 0, 0)
    requires h0 * 60 + m0 < h * 60 + m
    ensures ComputeNextRun(DAILY, Some(map["time" := VStr(FormatClock(h, m))]),
                           Some(MakeInstant(d, h0, m0, 0, 0)), now)
         == Ok(MakeInstant(d, h, m, 0, 0))
  {
    DailyConfigAt(h, m, MakeInstant(d, h0, m0, 0, 0), now);
    DailyAtLaterSameDay(d, h0, m0, h, m);
  }

  lemma {:induction false} DailyAtLaterSameDay(d: Date, h0: int, m0: int, h: int, m: int)
    requires ValidDate(d) && ValidTime(h0, m0, 0, 0) && ValidTime(h, m, 0, 0)
    requires h0 * 60 + m0 < h * 60 + m
    ensures DailyAt(h, m, MakeInstant(d, h0, m0, 0, 0)) == Ok(MakeInstant(d, h, m, 0, 0))
  {
    var base := MakeInstant(d, h0, m0, 0, 0);
    assert Midnight(base) == DayNumber(d) * MicrosPerDay;
  }

  /** Monthly: after a run in December on a later day than the configured
      one, the next run is that day of January of the following year (for
      example day 1 at "00:00" after 2024-12-15 gives 2025-01-01T00:00). */
  lemma {:induction false} MonthlyDecemberRollover(y: int, runDay: int, runH: int, runM: int, d: int, h: int, m: int, now: Instant)
    requires ValidDate(Date(y, 12, runDay)) && ValidTime(runH, runM, 0, 0)
    requires 1 <= d < runDay && ValidTime(h, m, 0, 0)
    ensures var r := ComputeNextRun(MONTHLY, Some(map["day" := VInt(d), "time" := VStr(FormatClock(h, m))]),
                                    Some(MakeInstant(Date(y, 12, runDay), runH, runM, 0, 0)), now);
      r.Ok? && r == NewDateTime(Date(y + 1, 1, d), h, m, 0, 0)
  {
    var base := MakeInstant(Date(y, 12, runDay), runH, runM, 0, 0);
    MonthlyConfigAt(d, h, m, base, now);
    DecemberStep(y, runDay, runH, runM, d, h, m);
    assert NewDateTime(Date(y + 1, 1, d), h, m, 0, 0) == Ok(MakeInstant(Date(y + 1, 1, d), h, m, 0, 0));
  }

  lemma {:induction false} DecemberStep(y: int, runDay: int, runH: int, runM: int, d: int, h: int, m: int)
    requires ValidDate(Date(y, 12, runDay)) && ValidTime(runH, runM, 0, 0)
    requires 1 <= d < runDay && ValidTime(h, m, 0, 0)
    ensures MonthlyAt(d, h, m, MakeInstant(Date(y, 12, runDay), runH, runM, 0, 0))
         == Ok(MakeInstant(Date(y + 1, 1, d), h, m, 0, 0))
  {
    var base := MakeInstant(Date(y, 12, runDay), runH, runM, 0, 0);
    assert DateOf(base) == Date(y, 12, runDay) by {
      DateOfDayNumber(Date(y, 12, runDay));
    }
    MonthlyAtValue(d, h, m, base);
    MulMonotone(DayNumber(Date(y, 12, d)) + 1, DayNumber(Date(y, 12, runDay)), MicrosPerDay);
    assert MakeInstant(Date(y, 12, d), h, m, 0, 0) <= base;
    assert NextMonth(Date(y, 12, d)) == Date(y + 1, 1, d);
  }
}
