/** The two pure helpers of the task-manager display
    (`dashboard/plugins/task_manager/task_manager_component.py`): the
    countdown text and the next-run estimate. The widgets are left out.
 */
module TaskDisplay {
  import opened Wrappers
  import opened Text

  const MicrosPerSecond: int := 1_000_000

  /** `int(td.total_seconds())`: whole seconds, truncated toward zero. */
  function WholeSeconds(micros: int): (s: int)
    ensures micros >= 0 ==> 0 <= s * MicrosPerSecond <= micros < (s + 1) * MicrosPerSecond
    ensures micros < 0 ==> (s - 1) * MicrosPerSecond < micros <= s * MicrosPerSecond <= 0
  {
    if micros >= 0 then micros / MicrosPerSecond else -((-micros) / MicrosPerSecond)
  }

  /** The text is a number followed by its unit letter. */
  predicate EndsIn(text: string, unit: char) {
    |text| > 1 && text[|text| - 1] == unit
  }

  /** `_format_timedelta` of a duration given in microseconds. Python's `//`
      and `%` by a positive divisor agree with Dafny's. */
  function FormatTimedelta(micros: int): (r: string)
    ensures 0 <= micros < 3600 * MicrosPerSecond ==> EndsIn(r, 's')
    ensures micros >= 3600 * MicrosPerSecond ==> EndsIn(r, 'm')
  {
    var total := WholeSeconds(micros);
    var hours := total / 3600;
    var minutes := total % 3600 / 60;
    var seconds := total % 60;
    if hours > 0 then IntToString(hours) + "h " + IntToString(minutes) + "m"
    else if minutes > 0 then IntToString(minutes) + "m " + IntToString(seconds) + "s"
    else IntToString(seconds) + "s"
  }

  /** The fields the text shows, and how they add back up to the whole
      seconds. */
  lemma {:induction false} FormatShowsFields(micros: int)
    requires micros >= 0
    ensures var total := WholeSeconds(micros);
      var (h, m, s) := (total / 3600, total % 3600 / 60, total % 60);
      && h * 3600 + m * 60 + s == total && 0 <= m < 60 && 0 <= s < 60
      && (h > 0 ==> FormatTimedelta(micros) == IntToString(h) + "h " + IntToString(m) + "m")
      && (h == 0 && m > 0 ==> FormatTimedelta(micros) == IntToString(m) + "m " + IntToString(s) + "s")
      && (h == 0 && m == 0 ==> FormatTimedelta(micros) == IntToString(total) + "s")
  {
  }

  /** Fractions of a second never show: the text depends only on the whole
      seconds. */
  lemma {:induction false} FractionIgnored(seconds: nat, fraction: nat)
    requires fraction < MicrosPerSecond
    ensures FormatTimedelta(seconds * MicrosPerSecond + fraction) == FormatTimedelta(seconds * MicrosPerSecond)
  {
    assert WholeSeconds(seconds * MicrosPerSecond + fraction) == seconds;
    assert WholeSeconds(seconds * MicrosPerSecond) == seconds;
  }

  /** Ninety seconds read "1m 30s"; two hours and five minutes "2h 5m". */
  lemma {:induction false} FormatExamples()
    ensures FormatTimedelta(90 * MicrosPerSecond) == "1m 30s"
    ensures FormatTimedelta(7500 * MicrosPerSecond) == "2h 5m"
    ensures FormatTimedelta(59 * MicrosPerSecond + 999_999) == "59s"
  {
    FormatNinety();
    FormatTwoHours();
    FormatUnderMinute();
  }

  lemma {:induction false} FormatNinety()
    ensures FormatTimedelta(90 * MicrosPerSecond) == "1m 30s"
  {
    assert WholeSeconds(90 * MicrosPerSecond) == 90;
    assert NatToString(1) == "1" && NatToString(30) == "30";
  }

  lemma {:induction false} FormatTwoHours()
    ensures FormatTimedelta(7500 * MicrosPerSecond) == "2h 5m"
  {
    assert WholeSeconds(7500 * MicrosPerSecond) == 7500;
    assert NatToString(2) == "2" && NatToString(5) == "5";
  }

  lemma {:induction false} FormatUnderMinute()
    ensures FormatTimedelta(59 * MicrosPerSecond + 999_999) == "59s"
  {
    assert WholeSeconds(59 * MicrosPerSecond + 999_999) == 59;
    assert NatToString(59) == "59";
  }

  /** What `_get_next_run` can see of a task: whether it has an `interval`
      attribute and its value, and whether it has a `last_run` attribute and
      its value (None before the first run). Timestamps are whole seconds. */
  datatype TaskAttrs = TaskAttrs(interval: Option<Option<int>>, lastRun: Option<Option<int>>)

  /** `_get_next_run`: both attributes are needed; a task that has not run
      is due now; otherwise the last run plus the interval. Adding a None
      interval raises and is caught. */
  function NextRun(task: TaskAttrs, now: int): (r: Option<int>)
    ensures task.interval.None? || task.lastRun.None? ==> r.None?
    ensures task.interval.Some? && task.lastRun == Some(None) ==> r == Some(now)
  {
    match (task.interval, task.lastRun)
    case (Some(interval), Some(lastRun)) =>
      (match lastRun
       case None => Some(now)
       case Some(t) => match interval case Some(i) => Some(t + i) case None => None)
    case _ => None
  }

  /** After a run at `t` with interval `i`, the next run is `i` seconds on,
      whatever the current time. */
  lemma {:induction false} NextRunAfterRun(t: int, i: int, now1: int, now2: int)
    ensures NextRun(TaskAttrs(Some(Some(i)), Some(Some(t))), now1) == Some(t + i)
    ensures NextRun(TaskAttrs(Some(Some(i)), Some(Some(t))), now1) == NextRun(TaskAttrs(Some(Some(i)), Some(Some(t))), now2)
  {
  }
}
