/** Proleptic Gregorian calendar and naive timestamps, as Python's
    `datetime` module defines them.

    An `Instant` is a naive datetime counted in microseconds since
    0001-01-01T00:00:00. Days are numbered from 0 (Python's `toordinal()`
    minus one). The upper bound of year 9999 is not modelled.
 */
module Calendar {
  import opened Wrappers

  const MicrosPerSecond: nat := 1_000_000
  const MicrosPerMinute: nat := 60_000_000
  const MicrosPerHour: nat := 3_600_000_000
  const MicrosPerDay: nat := 86_400_000_000
  const SecondsPerDay: nat := 86_400

  type Instant = nat

  datatype Date = Date(year: int, month: int, day: int)

  // ---------------------------------------------------------------------------
  // Years and months

  predicate IsLeap(y: int) {
    y % 4 == 0 && (y % 100 != 0 || y % 400 == 0)
  }

  function YearLength(y: int): nat {
    if IsLeap(y) then 366 else 365
  }

  function DaysInMonth(y: int, m: int): (n: nat)
    requires 1 <= m <= 12
    ensures 28 <= n <= 31
  {
    if m == 2 then (if IsLeap(y) then 29 else 28)
    else if m == 4 || m == 6 || m == 9 || m == 11 then 30
    else 31
  }

  predicate ValidDate(d: Date) {
    d.year >= 1 && 1 <= d.month <= 12 && 1 <= d.day <= DaysInMonth(d.year, d.month)
  }

  /** Days in the years before `y` (year 1 starts at day 0). */
  function DaysBeforeYear(y: int): nat
    requires y >= 1
  {
    var p := y - 1;
    365 * p + p / 4 - p / 100 + p / 400
  }

  /** Days in the months of year `y` before month `m`. */
  function DaysBeforeMonth(y: int, m: int): (n: nat)
    requires 1 <= m <= 12
  {
    var base :=
      if m == 1 then 0 else if m == 2 then 31 else if m == 3 then 59
      else if m == 4 then 90 else if m == 5 then 120 else if m == 6 then 151
      else if m == 7 then 181 else if m == 8 then 212 else if m == 9 then 243
      else if m == 10 then 273 else if m == 11 then 304 else 334;
    base + (if m > 2 && IsLeap(y) then 1 else 0)
  }

  lemma {:induction false} DaysBeforeMonthStep(y: int, m: int)
    requires 1 <= m <= 12
    ensures m < 12 ==> DaysBeforeMonth(y, m + 1) == DaysBeforeMonth(y, m) + DaysInMonth(y, m)
    ensures m == 12 ==> DaysBeforeMonth(y, m) + DaysInMonth(y, m) == YearLength(y)
  {
  }

  lemma {:induction false} MulBound(x: int, k: int)
    requires k >= 1
    ensures x >= 1 ==> x * k >= k
    ensures x <= -1 ==> x * k <= -k
  {
  }

  /** Euclidean division is determined by its quotient-remainder equation. */
  lemma {:induction false} DivUnique(q: int, k: int, a: int, b: int)
    requires k >= 1 && q == a * k + b && 0 <= b < k
    ensures q / k == a && q % k == b
  {
    var x := q / k - a;
    assert q == (q / k) * k + q % k;
    assert x * k == b - q % k by {
      assert (q / k) * k - a * k == x * k;
    }
    MulBound(x, k);
  }

  /** `q / k` grows by one exactly when `q` reaches a multiple of `k`. */
  lemma {:induction false} DivStep(q: int, k: int)
    requires q >= 1 && k >= 1
    ensures q / k - (q - 1) / k == if q % k == 0 then 1 else 0
  {
    var a := (q - 1) / k;
    var b := (q - 1) % k;
    DivUnique(q - 1, k, a, b);
    if b == k - 1 {
      DivUnique(q, k, a + 1, 0);
    } else {
      DivUnique(q, k, a, b + 1);
    }
  }

  /** The closed form agrees with adding up year lengths. */
  lemma {:induction false} DaysBeforeYearStep(y: int)
    requires y >= 1
    ensures DaysBeforeYear(y + 1) == DaysBeforeYear(y) + YearLength(y)
  {
    DivStep(y, 4);
    DivStep(y, 100);
    DivStep(y, 400);
    if y % 400 == 0 {
      var k := y / 400;
      assert y == 400 * k;
      DivUnique(y, 100, 4 * k, 0);
      DivUnique(y, 4, 100 * k, 0);
    } else if y % 100 == 0 {
      var k := y / 100;
      assert y == 100 * k;
      DivUnique(y, 4, 25 * k, 0);
    }
  }

  lemma {:induction false} DaysBeforeYearBounds(y: int)
    requires y >= 1
    ensures 365 * (y - 1) <= DaysBeforeYear(y) <= 366 * (y - 1)
  {
    var p := y - 1;
    assert p / 100 <= p / 4;
    assert p / 400 <= p / 100;
    assert p / 4 <= p;
  }

  lemma {:induction false} DaysBeforeYearMonotone(a: int, b: int)
    requires 1 <= a <= b
    ensures DaysBeforeYear(a) <= DaysBeforeYear(b)
    ensures a < b ==> DaysBeforeYear(a) + YearLength(a) <= DaysBeforeYear(b)
    decreases b - a
  {
    if a < b {
      DaysBeforeYearStep(a);
      DaysBeforeYearMonotone(a + 1, b);
    }
  }

  // ---------------------------------------------------------------------------
  // Day numbers

  /** Days from 0001-01-01 to `d`. */
  function DayNumber(d: Date): nat
    requires ValidDate(d)
  {
    DaysBeforeYear(d.year) + DaysBeforeMonth(d.year, d.month) + d.day - 1
  }

  lemma {:induction false} DayNumberInYear(d: Date)
    requires ValidDate(d)
    ensures DaysBeforeYear(d.year) <= DayNumber(d) < DaysBeforeYear(d.year + 1)
  {
    DaysBeforeYearStep(d.year);
    DaysBeforeMonthStep(d.year, d.month);
    if d.month < 12 {
      DaysBeforeMonthBelowYear(d.year, d.month + 1);
    }
  }

  lemma {:induction false} DaysBeforeMonthBelowYear(y: int, m: int)
    requires 1 <= m <= 12
    ensures DaysBeforeMonth(y, m) + DaysInMonth(y, m) <= YearLength(y)
  {
  }

  /** The year containing day `n`, searching upwards from a year known to
      start no later than `n`. */
  function YearOfDay(n: nat, y: int): (r: int)
    requires y >= 1 && DaysBeforeYear(y) <= n
    ensures r >= y && DaysBeforeYear(r) <= n < DaysBeforeYear(r + 1)
    decreases n - DaysBeforeYear(y)
  {
    DaysBeforeYearStep(y);
    if n < DaysBeforeYear(y + 1) then y else YearOfDay(n, y + 1)
  }

  /** The month of year `y` containing day `r` of that year, searching
      downwards from month `m`. */
  function MonthOfDay(y: int, r: nat, m: int): (mo: int)
    requires 1 <= m <= 12 && r < DaysBeforeMonth(y, m) + DaysInMonth(y, m)
    ensures 1 <= mo <= m
    ensures DaysBeforeMonth(y, mo) <= r < DaysBeforeMonth(y, mo) + DaysInMonth(y, mo)
    decreases m
  {
    if m == 1 || DaysBeforeMonth(y, m) <= r then m
    else
      DaysBeforeMonthStep(y, m - 1);
      MonthOfDay(y, r, m - 1)
  }

  /** The date of day number `n` (Python's `date.fromordinal(n + 1)`). */
  function DateOfDay(n: nat): (d: Date)
    ensures ValidDate(d) && DayNumber(d) == n
  {
    var start := n / 366 + 1;
    DaysBeforeYearBounds(start);
    var y := YearOfDay(n, start);
    var r := n - DaysBeforeYear(y);
    DaysBeforeYearStep(y);
    DaysBeforeMonthStep(y, 12);
    var m := MonthOfDay(y, r, 12);
    Date(y, m, r - DaysBeforeMonth(y, m) + 1)
  }

  lemma {:induction false} DateOfDayNumber(d: Date)
    requires ValidDate(d)
    ensures DateOfDay(DayNumber(d)) == d
  {
    var n := DayNumber(d);
    var e := DateOfDay(n);
    DayNumberInYear(d);
    DayNumberInYear(e);
    YearUnique(n, d.year, e.year);
    var y := d.year;
    assert DaysBeforeMonth(y, d.month) + d.day == DaysBeforeMonth(y, e.month) + e.day;
    if e.month != d.month {
      MonthsDisjoint(y, d.month, e.month);
    }
  }

  /** A day belongs to exactly one year. */
  lemma {:induction false} YearUnique(n: nat, a: int, b: int)
    requires a >= 1 && b >= 1
    requires DaysBeforeYear(a) <= n < DaysBeforeYear(a + 1)
    requires DaysBeforeYear(b) <= n < DaysBeforeYear(b + 1)
    ensures a == b
  {
    if a < b {
      DaysBeforeYearMonotone(a + 1, b);
    } else if b < a {
      DaysBeforeYearMonotone(b + 1, a);
    }
  }

  lemma {:induction false} MonthsDisjoint(y: int, a: int, b: int)
    requires 1 <= a <= 12 && 1 <= b <= 12 && a != b
    ensures DaysBeforeMonth(y, a) + DaysInMonth(y, a) <= DaysBeforeMonth(y, b)
         || DaysBeforeMonth(y, b) + DaysInMonth(y, b) <= DaysBeforeMonth(y, a)
  {
  }

  /** Day numbers and valid dates are in one-to-one correspondence. */
  lemma {:induction false} DayNumberInjective(d: Date, e: Date)
    requires ValidDate(d) && ValidDate(e) && DayNumber(d) == DayNumber(e)
    ensures d == e
  {
    DateOfDayNumber(d);
    DateOfDayNumber(e);
  }

  // ---------------------------------------------------------------------------
  // Instants

  function DayOf(t: Instant): nat {
    t / MicrosPerDay
  }

  function DateOf(t: Instant): Date {
    DateOfDay(DayOf(t))
  }

  /** Microseconds since midnight. */
  function TimeOfDay(t: Instant): nat {
    t % MicrosPerDay
  }

  function HourOf(t: Instant): nat {
    TimeOfDay(t) / MicrosPerHour
  }

  function MinuteOf(t: Instant): nat {
    TimeOfDay(t) % MicrosPerHour / MicrosPerMinute
  }

  function SecondOf(t: Instant): nat {
    TimeOfDay(t) % MicrosPerMinute / MicrosPerSecond
  }

  function MicrosecondOf(t: Instant): nat {
    t % MicrosPerSecond
  }

  predicate ValidTime(hour: int, minute: int, second: int, micro: int) {
    0 <= hour < 24 && 0 <= minute < 60 && 0 <= second < 60 && 0 <= micro < 1_000_000
  }

  /** `datetime(year, month, day, hour, minute, second, microsecond)`. */
  function MakeInstant(d: Date, hour: int, minute: int, second: int, micro: int): (t: Instant)
    requires ValidDate(d) && ValidTime(hour, minute, second, micro)
    ensures DayOf(t) == DayNumber(d)
    ensures TimeOfDay(t) == hour * MicrosPerHour + minute * MicrosPerMinute + second * MicrosPerSecond + micro
  {
    DayNumber(d) * MicrosPerDay + hour * MicrosPerHour + minute * MicrosPerMinute + second * MicrosPerSecond + micro
  }

  /** `datetime(...)` with Python's argument checking: ValueError when the
      date or the time of day is out of range. */
  function NewDateTime(d: Date, hour: int, minute: int, second: int, micro: int): (r: Outcome<Instant>)
    ensures r.Ok? <==> ValidDate(d) && ValidTime(hour, minute, second, micro)
    ensures r.Raised? ==> r.error == ValueError
  {
    if ValidDate(d) && ValidTime(hour, minute, second, micro) then Ok(MakeInstant(d, hour, minute, second, micro))
    else Raised(ValueError)
  }

  /** Reading the fields back from a constructed instant gives them back. */
  lemma {:induction false} MakeInstantFields(d: Date, hour: int, minute: int, second: int, micro: int)
    requires ValidDate(d) && ValidTime(hour, minute, second, micro)
    ensures var t := MakeInstant(d, hour, minute, second, micro);
      DateOf(t) == d && HourOf(t) == hour && MinuteOf(t) == minute
      && SecondOf(t) == second && MicrosecondOf(t) == micro
  {
    var t := MakeInstant(d, hour, minute, second, micro);
    DateOfDayNumber(d);
    var sub := second * MicrosPerSecond + micro;
    var inHour := minute * MicrosPerMinute + sub;
    var tod := hour * MicrosPerHour + inHour;
    DivUnique(t, MicrosPerDay, DayNumber(d), tod);
    DivUnique(tod, MicrosPerHour, hour, inHour);
    DivUnique(inHour, MicrosPerMinute, minute, sub);
    DivUnique(tod, MicrosPerMinute, hour * 60 + minute, sub);
    DivUnique(sub, MicrosPerSecond, second, micro);
    DivUnique(t, MicrosPerSecond, DayNumber(d) * 86_400 + hour * 3600 + minute * 60 + second, micro);
  }

  /** Every instant is rebuilt from its own fields. */
  lemma {:induction false} InstantFields(t: Instant)
    ensures ValidDate(DateOf(t))
    ensures ValidTime(HourOf(t), MinuteOf(t), SecondOf(t), MicrosecondOf(t))
    ensures MakeInstant(DateOf(t), HourOf(t), MinuteOf(t), SecondOf(t), MicrosecondOf(t)) == t
  {
    var tod := TimeOfDay(t);
    assert t == DayOf(t) * MicrosPerDay + tod;
    var h, rh := HourOf(t), tod % MicrosPerHour;
    assert tod == h * MicrosPerHour + rh;
    var m, rm := rh / MicrosPerMinute, rh % MicrosPerMinute;
    assert rh == m * MicrosPerMinute + rm;
    DivUnique(tod, MicrosPerMinute, h * 60 + m, rm);
    var s, u := rm / MicrosPerSecond, rm % MicrosPerSecond;
    assert rm == s * MicrosPerSecond + u;
    DivUnique(t, MicrosPerSecond, DayOf(t) * 86_400 + h * 3600 + m * 60 + s, u);
  }

  /** Start of the day containing `t` (`t.replace(hour=0, minute=0, second=0, microsecond=0)`). */
  function Midnight(t: Instant): (m: Instant)
    ensures m <= t < m + MicrosPerDay
    ensures m % MicrosPerDay == 0
  {
    DayOf(t) * MicrosPerDay
  }

  /** `t + timedelta(microseconds=delta)`: OverflowError below year 1. */
  function AddMicros(t: Instant, delta: int): (r: Outcome<Instant>)
    ensures r.Ok? <==> t + delta >= 0
    ensures r.Ok? ==> r.value == t + delta
    ensures r.Raised? ==> r.error == OverflowError
  {
    if t + delta >= 0 then Ok(t + delta) else Raised(OverflowError)
  }
}
