/** The Aladhan prayer-times backend of `prayer/prayer_base.py`: the
    day's cache key, the cache encoding of the times, the test-time
    override and the selection of the five prayers from the API's timings.

    The HTTP request and the JSON decoding are a parameter (`fetched`: the
    `data.timings` dict, or the error they raised). The cache text is
    `str(dict)` read back with `eval`; the model stores the dict itself and
    takes today's entry, decoded, as a parameter. `datetime.now()` is
    `now`, in microseconds.
 */
module PrayerBase {
  import opened Wrappers
  import opened Text
  import opened Values
  import opened Calendar
  import opened Iso

  /** The prayers read from the API, in `PRAYER_NAMES` order; each keeps its
      own name. */
  const PrayerNames: seq<string> := ["Fajr", "Dhuhr", "Asr", "Maghrib", "Isha"]

  /** Prayer times by name. */
  type Times = map<string, Instant>

  /** The cached form: each time as "%Y-%m-%d %H:%M:%S" text. */
  type CachedTimes = map<string, string>

  // ---------------------------------------------------------------------------
  // Cache key and encoding

  /** `f"prayer_times_{today.strftime('%Y-%m-%d')}"`. */
  function CacheKey(today: Date): (k: string)
    requires ValidDate(today)
    ensures StartsWith(k, "prayer_times_")
  {
    "prayer_times_" + StrfDate(today)
  }

  /** One cache entry per day: different days have different keys. */
  lemma {:induction false} CacheKeyPerDay(a: Date, b: Date)
    requires ValidDate(a) && ValidDate(b) && 1000 <= a.year <= 9999 && 1000 <= b.year <= 9999
    requires CacheKey(a) == CacheKey(b)
    ensures a == b
  {
    var p := "prayer_times_";
    assert CacheKey(a)[|p|..] == StrfDate(a);
    assert CacheKey(b)[|p|..] == StrfDate(b);
    StrpDateRoundTrip(a);
    StrpDateRoundTrip(b);
  }

  /** Every value of a map encoded the same way. */
  function EncodeAll<A, B>(m: map<string, A>, enc: A -> B): (c: map<string, B>)
    ensures c.Keys == m.Keys
    ensures forall p | p in c :: c[p] == enc(m[p])
  {
    map p | p in m :: enc(m[p])
  }

  /** Every value of a map decoded the same way; one failure fails all. */
  function DecodeAll<A, B>(c: map<string, B>, dec: B -> Option<A>): (r: Option<map<string, A>>)
    ensures r.Some? <==> forall p | p in c :: dec(c[p]).Some?
    ensures r.Some? ==> r.value.Keys == c.Keys && forall p | p in c :: r.value[p] == dec(c[p]).value
  {
    if forall p | p in c :: dec(c[p]).Some? then Some(map p | p in c :: dec(c[p]).value) else None
  }

  /** Decoding every value undoes encoding it when each value round-trips. */
  lemma {:induction false} DecodeEncodeAll<A, B>(m: map<string, A>, enc: A -> B, dec: B -> Option<A>)
    requires forall p | p in m :: dec(enc(m[p])) == Some(m[p])
    ensures DecodeAll(EncodeAll(m, enc), dec) == Some(m)
  {
    var v := DecodeAll(EncodeAll(m, enc), dec).value;
    assert v.Keys == m.Keys;
    assert v == m;
  }

  /** `_format_times_for_cache`, before `str()`: the same prayers, each
      time written as text that opens with its own day. */
  function FormatTimesForCache(times: Times): (c: CachedTimes)
    ensures c.Keys == times.Keys
    ensures forall p | p in c :: StartsWith(c[p], StrfDate(DateOf(times[p])))
  {
    EncodeAll(times, StrfDateTime)
  }

  /** The loop of `_parse_cached_times`: every entry read with
      `strptime("%Y-%m-%d %H:%M:%S")`; one that does not parse raises
      ValueError, which the method turns into None. */
  function ParseCachedTimes(c: CachedTimes): (r: Option<Times>)
    ensures r.Some? <==> forall p | p in c :: StrpDateTime(c[p]).Some?
    ensures r.Some? ==> r.value.Keys == c.Keys
    ensures r.Some? ==> forall p | p in r.value :: MicrosecondOf(r.value[p]) == 0
  {
    DecodeAll(c, StrpDateTime)
  }

  /** Times `strftime` can write with a four-digit year and that carry no
      microseconds. */
  predicate Storable(times: Times) {
    FourDigitYears(times) && forall p | p in times :: MicrosecondOf(times[p]) == 0
  }

  /** Times whose year `strftime("%Y")` writes with four digits. */
  predicate FourDigitYears(times: Times) {
    forall p | p in times :: 1000 <= DateOf(times[p]).year <= 9999
  }

  /** One stored time reads back unchanged. */
  lemma {:induction false} StoredTimeReadBack(t: Instant)
    requires MicrosecondOf(t) == 0 && 1000 <= DateOf(t).year <= 9999
    ensures StrpDateTime(StrfDateTime(t)) == Some(t)
  {
    var r := StrpDateTime(StrfDateTime(t));
    StrpDateTimeRoundTrip(t);
    var v: nat := r.value;
    assert v + MicrosecondOf(t) == t;
    assert v == t;
    assert r == Some(v);
  }

  /** The cache encoding round-trips: whole-second times in four-digit
      years read back unchanged. */
  lemma {:induction false} CacheRoundTrip(times: Times)
    requires Storable(times)
    ensures ParseCachedTimes(FormatTimesForCache(times)) == Some(times)
  {
    forall p | p in times
      ensures StrpDateTime(StrfDateTime(times[p])) == Some(times[p])
    {
      StoredTimeReadBack(times[p]);
    }
    DecodeEncodeAll(times, StrfDateTime, StrpDateTime);
  }

  // ---------------------------------------------------------------------------
  // Test-time override

  /** `hour, minute = map(int, time_str.split(':'))` and `time(hour,
      minute)`: None where they raise ValueError (caught); a value that is
      not text has no `split` and is reported separately. */
  function TestClock(s: string): (r: Option<(nat, nat)>)
    ensures r.Some? ==> r.value.0 < 24 && r.value.1 < 60
  {
    var parts := Split(s, ":");
    if |parts| != 2 then None
    else match (ParseInt(parts[0]), ParseInt(parts[1]))
      case (Some(h), Some(m)) => if 0 <= h < 24 && 0 <= m < 60 then Some((h as nat, m as nat)) else None
      case _ => None
  }

  /** `t + timedelta(days=1)` keeps the clock and moves to the next day. */
  lemma {:induction false} NextDaySameClock(t: Instant)
    ensures DayOf(t + MicrosPerDay) == DayOf(t) + 1 && TimeOfDay(t + MicrosPerDay) == TimeOfDay(t)
    ensures MicrosecondOf(t + MicrosPerDay) == MicrosecondOf(t)
  {
    DivUnique(t + MicrosPerDay, MicrosPerDay, DayOf(t) + 1, TimeOfDay(t));
    DivUnique(t + MicrosPerDay, MicrosPerSecond, t / MicrosPerSecond + SecondsPerDay, MicrosecondOf(t));
  }

  /** `datetime.combine(today, time(hour, minute))`, moved to tomorrow when
      it is not after `now`. */
  function TestInstant(h: nat, m: nat, now: Instant): Instant
    requires h < 24 && m < 60
  {
    var today := Midnight(now) + h * MicrosPerHour + m * MicrosPerMinute;
    if today <= now then today + MicrosPerDay else today
  }

  /** The clock on the day of `now`. */
  lemma {:induction false} ClockOnDay(h: nat, m: nat, now: Instant)
    requires h < 24 && m < 60
    ensures var t := Midnight(now) + h * MicrosPerHour + m * MicrosPerMinute;
      Midnight(now) <= t < Midnight(now) + MicrosPerDay && DayOf(t) == DayOf(now)
      && HourOf(t) == h && MinuteOf(t) == m && SecondOf(t) == 0 && MicrosecondOf(t) == 0
  {
    var tod := h * MicrosPerHour + m * MicrosPerMinute;
    var t := Midnight(now) + tod;
    assert Midnight(now) == DayOf(now) * MicrosPerDay;
    DivUnique(t, MicrosPerDay, DayOf(now), tod);
    DivUnique(tod, MicrosPerHour, h, m * MicrosPerMinute);
    DivUnique(m * MicrosPerMinute, MicrosPerMinute, m, 0);
    DivUnique(tod, MicrosPerMinute, h * 60 + m, 0);
    DivUnique(t, MicrosPerSecond, DayOf(now) * 86_400 + h * 3600 + m * 60, 0);
  }

  /** A test time is the next moment after `now` showing its clock. */
  lemma {:induction false} TestInstantUpcoming(h: nat, m: nat, now: Instant)
    requires h < 24 && m < 60
    ensures var t := TestInstant(h, m, now);
      now < t <= now + MicrosPerDay
      && HourOf(t) == h && MinuteOf(t) == m && SecondOf(t) == 0 && MicrosecondOf(t) == 0
      && (DayOf(t) == DayOf(now) || DayOf(t) == DayOf(now) + 1)
  {
    var today := Midnight(now) + h * MicrosPerHour + m * MicrosPerMinute;
    ClockOnDay(h, m, now);
    if today <= now {
      NextDaySameClock(today);
    }
  }

  /** `config.get('test_schedule', {}).get('times', {})`: either `get` on a
      value that is not a dict raises AttributeError. */
  function TestTimes(config: Dict): (r: Outcome<Dict>)
    ensures "test_schedule" !in config ==> r == Ok(map[])
    ensures r.Raised? ==> r.error == AttributeError
  {
    match Get(config, "test_schedule", VObj(map[]))
    case VObj(schedule) =>
      (match Get(schedule, "times", VObj(map[]))
       case VObj(times) => Ok(times)
       case _ => Raised(AttributeError))
    case _ => Raised(AttributeError)
  }

  /** The test entries that override: text that reads as a clock. */
  function Overriding(tests: Dict): set<string> {
    set p | p in tests && tests[p].VStr? && TestClock(tests[p].s).Some?
  }

  function TestValue(tests: Dict, p: string, now: Instant): Instant
    requires p in Overriding(tests)
  {
    var c := TestClock(tests[p].s).value;
    TestInstant(c.0, c.1, now)
  }

  /** The override loop: every well-formed test time replaces (or adds) its
      prayer, malformed ones are skipped; a test time that is not text
      raises AttributeError, which escapes the loop. */
  function Override(times: Times, tests: Dict, now: Instant): (r: Outcome<Times>)
    ensures r.Raised? <==> exists p | p in tests :: !tests[p].VStr?
    ensures r.Raised? ==> r.error == AttributeError
    ensures r.Ok? ==> r.value.Keys == times.Keys + Overriding(tests)
    ensures r.Ok? ==> forall p | p in r.value ::
      r.value[p] == if p in Overriding(tests) then TestValue(tests, p, now) else times[p]
  {
    if exists p | p in tests :: !tests[p].VStr? then Raised(AttributeError)
    else
      Ok(map p | p in times.Keys + Overriding(tests) ::
           if p in Overriding(tests) then TestValue(tests, p, now) else times[p])
  }

  /** Overriding twice at the same moment is overriding once. */
  lemma {:induction false} OverrideIdempotent(times: Times, tests: Dict, now: Instant)
    requires Override(times, tests, now).Ok?
    ensures Override(Override(times, tests, now).value, tests, now) == Override(times, tests, now)
  {
    var r := Override(times, tests, now).value;
    var r2 := Override(r, tests, now);
    assert r2.Ok?;
    assert r2.value.Keys == r.Keys;
    forall p | p in r
      ensures r2.value[p] == r[p]
    {
    }
    assert r2.value == r;
  }

  /** Each overriding test time is the next moment after `now` at its clock. */
  lemma {:induction false} OverriddenTimeUpcoming(times: Times, tests: Dict, now: Instant, p: string, h: nat, m: nat)
    requires Override(times, tests, now).Ok?
    requires p in tests && tests[p].VStr? && TestClock(tests[p].s) == Some((h, m))
    ensures var t := Override(times, tests, now).value[p];
      now < t <= now + MicrosPerDay && HourOf(t) == h && MinuteOf(t) == m
  {
    assert p in Overriding(tests);
    TestInstantUpcoming(h, m, now);
  }

  /** A malformed test time leaves its prayer as it was. */
  lemma {:induction false} MalformedTestTimeSkipped(times: Times, tests: Dict, now: Instant, p: string)
    requires Override(times, tests, now).Ok? && p in times
    requires p in tests && TestClock(tests[p].s).None?
    ensures Override(times, tests, now).value[p] == times[p]
  {
  }

  // ---------------------------------------------------------------------------
  // API times

  /** `datetime.strptime(s, "%Y-%m-%d %H:%M")`. */
  function StrpDateHourMinute(s: string): (r: Option<Instant>)
    ensures r.Some? ==> SecondOf(r.value) == 0 && MicrosecondOf(r.value) == 0
  {
    var (d, i) :- MatchYmd(s);
    var i1 :- MatchBlanks(s, i);
    var (h, i2) :- MatchHour(s, i1);
    var i3 :- MatchChar(s, i2, ':');
    var (m, i4) :- MatchMinute(s, i3);
    if i4 == |s| && ValidDate(d) && ValidTime(h, m, 0, 0) then
      MakeInstantFields(d, h, m, 0, 0);
      Some(MakeInstant(d, h, m, 0, 0))
    else None
  }

  /** The API's time for a prayer, read on today's date. A value that is not
      text never reads as "HH:MM" (its `str` has no colon or starts with a
      bracket), so it fails like malformed text. */
  function ApiTime(today: Date, v: Value): (r: Option<Instant>)
    requires ValidDate(today)
    ensures r.Some? ==> SecondOf(r.value) == 0 && MicrosecondOf(r.value) == 0
  {
    match v
    case VStr(s) => StrpDateHourMinute(StrfDate(today) + " " + s)
    case _ => None
  }

  /** A time read from the API falls on today's date. */
  lemma {:induction false} ApiTimeOnToday(today: Date, v: Value)
    requires ValidDate(today) && 1000 <= today.year <= 9999
    requires ApiTime(today, v).Some?
    ensures DateOf(ApiTime(today, v).value) == today
  {
    var s' := StrfDate(today) + " " + v.s;
    StrpDateOfStrf(today, " " + v.s);
    assert s' == StrfDate(today) + (" " + v.s);
    var (d, i) := MatchYmd(s').value;
    assert d == today;
    var i1 := MatchBlanks(s', i).value;
    var (h, i2) := MatchHour(s', i1).value;
    var i3 := MatchChar(s', i2, ':').value;
    var (m, i4) := MatchMinute(s', i3).value;
    assert ApiTime(today, v) == Some(MakeInstant(today, h, m, 0, 0));
    MakeInstantFields(today, h, m, 0, 0);
  }

  /** The prayers of `names` present in the timings. */
  function Present(names: seq<string>, timings: Dict): set<string> {
    set i | 0 <= i < |names| && names[i] in timings :: names[i]
  }

  /** The loop over `PRAYER_NAMES`: each prayer present in the timings is
      read on today's date; one that does not read raises ValueError, which
      escapes. */
  function SelectPrayers(timings: Dict, today: Date): (r: Outcome<Times>)
    requires ValidDate(today)
    ensures r.Ok? <==> forall p | p in Present(PrayerNames, timings) :: ApiTime(today, timings[p]).Some?
    ensures r.Raised? ==> r.error == ValueError
    ensures r.Ok? ==> r.value.Keys == Present(PrayerNames, timings)
    ensures r.Ok? ==> forall p | p in r.value :: r.value[p] == ApiTime(today, timings[p]).value
  {
    var present := Present(PrayerNames, timings);
    if forall p | p in present :: ApiTime(today, timings[p]).Some? then
      Ok(map p | p in present :: ApiTime(today, timings[p]).value)
    else Raised(ValueError)
  }

  /** Only the five prayers can come from the API. */
  lemma {:induction false} OnlyPrayerNames(timings: Dict, today: Date)
    requires ValidDate(today) && SelectPrayers(timings, today).Ok?
    ensures SelectPrayers(timings, today).value.Keys <= {"Fajr", "Dhuhr", "Asr", "Maghrib", "Isha"}
  {
  }

  /** `_get_api_prayer_times` after the request: the selected prayers, then
      the test overrides. */
  function ApiPrayerTimes(config: Dict, timings: Dict, now: Instant): (r: Outcome<Times>)
    ensures timings == map[] && "test_schedule" !in config ==> r == Ok(map[])
    ensures r.Ok? ==> (TestTimes(config).Ok?
      && r.value.Keys == Present(PrayerNames, timings) + Overriding(TestTimes(config).value))
  {
    InstantFields(now);
    var selected :- SelectPrayers(timings, DateOf(now));
    var tests :- TestTimes(config);
    Override(selected, tests, now)
  }

  /** The API's times, overrides included, are whole minutes. */
  lemma {:induction false} ApiTimesWholeMinutes(config: Dict, timings: Dict, now: Instant)
    requires ApiPrayerTimes(config, timings, now).Ok?
    ensures forall p | p in ApiPrayerTimes(config, timings, now).value ::
      var t := ApiPrayerTimes(config, timings, now).value[p]; SecondOf(t) == 0 && MicrosecondOf(t) == 0
  {
    InstantFields(now);
    var selected := SelectPrayers(timings, DateOf(now)).value;
    var tests := TestTimes(config).value;
    var r := ApiPrayerTimes(config, timings, now).value;
    forall p | p in r
      ensures SecondOf(r[p]) == 0 && MicrosecondOf(r[p]) == 0
    {
      if p in Overriding(tests) {
        var c := TestClock(tests[p].s).value;
        TestInstantUpcoming(c.0, c.1, now);
      }
    }
  }

  /** `_parse_cached_times`: the cached entries, then the test overrides;
      any error gives None. */
  function CachedPrayerTimes(config: Dict, c: CachedTimes, now: Instant): (r: Option<Times>)
    ensures ParseCachedTimes(c).None? ==> r.None?
  {
    match ParseCachedTimes(c)
    case None => None
    case Some(times) =>
      match TestTimes(config)
      case Raised(_) => None
      case Ok(tests) => Override(times, tests, now).ToOption()
  }

  // ---------------------------------------------------------------------------
  // get_prayer_times

  /** What one call returns, and what it writes to the cache. */
  datatype Lookup = Lookup(times: Option<Times>, written: Option<(string, CachedTimes)>)

  /** `get_prayer_times`: unless forced, today's cache entry when there is
      one; otherwise the API's times, written back under today's key. Any
      error gives None and writes nothing. `cached` is today's entry,
      decoded. */
  function GetPrayerTimes(config: Dict, now: Instant, force: bool, cached: Option<CachedTimes>,
                          fetched: Outcome<Dict>): (r: Lookup)
    ensures !force && cached.Some? ==> r == Lookup(CachedPrayerTimes(config, cached.value, now), None)
    ensures (force || cached.None?) && fetched.Raised? ==> r == Lookup(None, None)
    ensures r.written.Some? <==> (force || cached.None?) && r.times.Some?
    ensures r.written.Some? ==> r.written.value == (CacheKey(DateOf(now)), FormatTimesForCache(r.times.value))
  {
    InstantFields(now);
    if !force && cached.Some? then Lookup(CachedPrayerTimes(config, cached.value, now), None)
    else match fetched
      case Raised(_) => Lookup(None, None)
      case Ok(timings) =>
        match ApiPrayerTimes(config, timings, now)
        case Raised(_) => Lookup(None, None)
        case Ok(times) => Lookup(Some(times), Some((CacheKey(DateOf(now)), FormatTimesForCache(times))))
  }

  /** A fetch followed, at the same moment, by an unforced call that finds
      what the fetch wrote gives the same times: the test overrides are
      applied on both paths and agree. */
  lemma {:induction false} FetchThenCacheAgree(config: Dict, now: Instant, force: bool, cached: Option<CachedTimes>,
                            timings: Dict, later: Outcome<Dict>)
    requires (force || cached.None?) && GetPrayerTimes(config, now, force, cached, Ok(timings)).times.Some?
    requires FourDigitYears(GetPrayerTimes(config, now, force, cached, Ok(timings)).times.value)
    ensures var r := GetPrayerTimes(config, now, force, cached, Ok(timings));
      GetPrayerTimes(config, now, false, Some(r.written.value.1), later) == Lookup(r.times, None)
  {
    InstantFields(now);
    var r := GetPrayerTimes(config, now, force, cached, Ok(timings));
    var times := r.times.value;
    assert ApiPrayerTimes(config, timings, now) == Ok(times);
    assert r.written.value.1 == FormatTimesForCache(times);
    ApiTimesReadBack(config, timings, now);
  }

  /** What the API gave, once cached, reads back as the same times. */
  lemma {:induction false} ApiTimesReadBack(config: Dict, timings: Dict, now: Instant)
    requires ApiPrayerTimes(config, timings, now).Ok?
    requires FourDigitYears(ApiPrayerTimes(config, timings, now).value)
    ensures var times := ApiPrayerTimes(config, timings, now).value;
      CachedPrayerTimes(config, FormatTimesForCache(times), now) == Some(times)
  {
    InstantFields(now);
    var times := ApiPrayerTimes(config, timings, now).value;
    var c := FormatTimesForCache(times);
    ApiTimesWholeMinutes(config, timings, now);
    CacheRoundTrip(times);
    assert ParseCachedTimes(c) == Some(times);
    var selected := SelectPrayers(timings, DateOf(now)).value;
    var tests := TestTimes(config).value;
    assert times == Override(selected, tests, now).value;
    OverrideIdempotent(selected, tests, now);
  }
}
