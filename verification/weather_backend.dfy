/** The weather backends of `weather/weather_backend.py`: the hour-keyed
    cache in front of both providers, the validation of an OpenWeatherMap
    response and the reshaping of a weather.gov forecast into the same
    daily/hourly form.

    HTTP requests are parameters (the status and decoded body, or the error
    they raised). `str(data)` and `eval(text)` are the parameter `codec`.
    `int(datetime.strptime(s, '%Y-%m-%dT%H:%M:%S%z').timestamp())` is the
    parameter `stamp` (None where it raises). Temperatures and icons are
    carried through unchanged.
 */
module WeatherBackend {
  import opened Wrappers
  import opened Text
  import opened Values
  import opened Calendar
  import opened Iso
  import opened CacheHelper

  // ---------------------------------------------------------------------------
  // The hour-keyed cache of get_weather

  /** `f"weather_{datetime.now().strftime('%Y-%m-%d_%H')}"`. */
  function HourKey(now: Instant): (r: string)
    ensures |r| > 11 && r[..8] == "weather_" && r[|r| - 3] == '_'
    ensures r[|r| - 2..] == Digits(HourOf(now), 2)
  {
    InstantFields(now);
    var date, hour := StrfDate(DateOf(now)), Digits(HourOf(now), 2);
    var r := "weather_" + date + "_" + hour;
    assert r == "weather_" + (date + "_" + hour);
    r
  }

  /** After its prefix the key is the date, then the hour. */
  lemma {:induction false} HourKeyDate(t: Instant)
    requires 1000 <= DateOf(t).year <= 9999
    ensures |HourKey(t)| == 21
    ensures ValidDate(DateOf(t)) && HourKey(t)[8..] == StrfDate(DateOf(t)) + ("_" + Digits(HourOf(t), 2))
  {
    InstantFields(t);
    var d := DateOf(t);
    var tail := "_" + Digits(HourOf(t), 2);
    var k := HourKey(t);
    assert k == "weather_" + (StrfDate(d) + tail);
  }

  /** The key's last two characters are the hour. */
  lemma {:induction false} HourKeyHour(t: Instant)
    requires 1000 <= DateOf(t).year <= 9999
    ensures |HourKey(t)| == 21
    ensures DigitsValue(HourKey(t)[19..]) == HourOf(t)
  {
    InstantFields(t);
    var hour := Digits(HourOf(t), 2);
    var k := HourKey(t);
    assert k == "weather_" + StrfDate(DateOf(t)) + "_" + hour;
    assert k[19..] == hour;
    assert Pow10(2) == 100;
    DigitsValueOfDigits(HourOf(t), 2);
  }

  /** One cache entry per clock hour: two moments share a key exactly when
      they fall in the same hour of the same day (four-digit years). */
  lemma {:induction false} HourKeyPerHour(a: Instant, b: Instant)
    requires 1000 <= DateOf(a).year <= 9999 && 1000 <= DateOf(b).year <= 9999
    ensures HourKey(a) == HourKey(b) <==> DateOf(a) == DateOf(b) && HourOf(a) == HourOf(b)
  {
    HourKeyDate(a);
    HourKeyDate(b);
    StrpDateOfStrf(DateOf(a), "_" + Digits(HourOf(a), 2));
    StrpDateOfStrf(DateOf(b), "_" + Digits(HourOf(b), 2));
    HourKeyHour(a);
    HourKeyHour(b);
  }

  /** `str(data)` and `eval(text)`. */
  datatype Codec = Codec(repr: Value -> string, eval: string -> Outcome<Value>)

  /** Data whose text form is non-empty and evaluates back to it. */
  predicate ReadsBack(codec: Codec, data: Value) {
    |codec.repr(data)| > 0 && codec.eval(codec.repr(data)) == Ok(data)
  }

  /** `eval(cached_data)` inside the `try`: text that does not evaluate, or
      a cached value that is not text, gives None. */
  function EvalCached(codec: Codec, cached: Value): Option<Value> {
    if cached.VStr? then codec.eval(cached.s).ToOption() else None
  }

  /** `get_weather(force_fetch)` at `now`: unless forced, a truthy cached
      content for this hour is evaluated and returned without fetching;
      otherwise the fetched data is returned and, when truthy, saved under
      this hour's key. `fetched` is `_fetch_weather_data()`, which turns
      its own errors into None. */
  function GetWeather(files: CacheFiles, now: Instant, force: bool, fetched: Option<Value>,
                      codec: Codec): (r: (Option<Value>, CacheFiles))
    ensures var cached := GetCachedContent(files, HourKey(now), DateOf(now));
      !force && cached.Some? && Truthy(cached.value) ==> r == (EvalCached(codec, cached.value), files)
    ensures var cached := GetCachedContent(files, HourKey(now), DateOf(now));
      force || cached.None? || !Truthy(cached.value) ==>
        r.0 == fetched
        && r.1 == if fetched.Some? && Truthy(fetched.value)
                  then SaveToCache(files, HourKey(now), codec.repr(fetched.value), DateOf(now)) else files
  {
    InstantFields(now);
    var key := HourKey(now);
    var cached := GetCachedContent(files, key, DateOf(now));
    if !force && cached.Some? && Truthy(cached.value) then (EvalCached(codec, cached.value), files)
    else if fetched.Some? && Truthy(fetched.value) then
      (fetched, SaveToCache(files, key, codec.repr(fetched.value), DateOf(now)))
    else (fetched, files)
  }

  /** Within the hour of a fetch, an unforced call returns what was fetched
      and neither fetches nor writes again. */
  lemma {:induction false} SameHourHitsCache(files: CacheFiles, now: Instant, later: Instant, force: bool, data: Value,
                          again: Option<Value>, codec: Codec)
    requires 1000 <= DateOf(now).year <= 9999 && 1000 <= DateOf(later).year <= 9999
    requires DateOf(later) == DateOf(now) && HourOf(later) == HourOf(now)
    requires Truthy(data) && ReadsBack(codec, data)
    requires force || GetCachedContent(files, HourKey(now), DateOf(now)).GetOr(VNull) == VNull
    ensures var (r1, f1) := GetWeather(files, now, force, Some(data), codec);
      r1 == Some(data) && GetWeather(f1, later, false, again, codec) == (Some(data), f1)
  {
    InstantFields(now);
    HourKeyPerHour(now, later);
    SavedContentReadSameDay(files, HourKey(now), codec.repr(data), DateOf(now));
  }

  /** A fetch that failed leaves the cache as it was. */
  lemma {:induction false} FailedFetchNotCached(files: CacheFiles, now: Instant, codec: Codec)
    ensures GetWeather(files, now, true, None, codec) == (None, files)
  {
  }

  // ---------------------------------------------------------------------------
  // OpenWeatherMap

  /** A decoded HTTP response. */
  datatype Response = Response(status: int, body: Outcome<Value>)

  /** `len(v)`: TypeError for values without a length. */
  function Len(v: Value): (r: Outcome<nat>)
    ensures r.Raised? <==> !(v.VList? || v.VStr? || v.VObj?)
  {
    match v
    case VList(items) => Ok(|items|)
    case VStr(s) => Ok(|s|)
    case VObj(fields) => Ok(|fields|)
    case _ => Raised(TypeError)
  }

  /** `response.raise_for_status()` raises for client and server errors. */
  predicate HttpError(status: int) {
    400 <= status < 600
  }

  /** `OpenWeatherMapBackend._fetch_weather_data` after the request: an
      unauthorized or failed request, a body that is not JSON, a body without
      "daily" or with fewer than seven daily entries gives None; anything
      else is returned as decoded. */
  function OwmFetch(response: Outcome<Response>): (r: Option<Value>)
    ensures r.Some? <==>
      response.Ok? && response.value.status != 401 && !HttpError(response.value.status)
      && response.value.body.Ok? && response.value.body.value.VObj?
      && "daily" in response.value.body.value.fields
      && Len(response.value.body.value.fields["daily"]).Ok?
      && Len(response.value.body.value.fields["daily"]).value >= 7
    ensures r.Some? ==> r.value == response.value.body.value
  {
    match response
    case Raised(_) => None
    case Ok(Response(status, body)) =>
      if status == 401 || HttpError(status) then None
      else match body
        case Raised(_) => None
        case Ok(data) =>
          if !data.VObj? || "daily" !in data.fields then None
          else match Len(data.fields["daily"])
            case Ok(n) => if n >= 7 then Some(data) else None
            case Raised(_) => None
  }

  /** An unauthorized request is never cached: the call returns None and
      the cache is unchanged. */
  lemma {:induction false} UnauthorizedNotCached(files: CacheFiles, now: Instant, body: Outcome<Value>, codec: Codec)
    ensures GetWeather(files, now, true, OwmFetch(Ok(Response(401, body))), codec) == (None, files)
  {
  }

  /** A forecast with fewer than seven days is rejected whatever else it
      holds. */
  lemma {:induction false} ShortForecastRejected(status: int, fields: Dict, days: seq<Value>)
    requires "daily" in fields && fields["daily"] == VList(days) && |days| < 7
    ensures OwmFetch(Ok(Response(status, Ok(VObj(fields))))) == None
  {
  }

  // ---------------------------------------------------------------------------
  // weather.gov

  /** `v[key]` on decoded JSON: KeyError when a dict lacks the key,
      TypeError on anything but a dict. */
  function Index(v: Value, key: string): (r: Outcome<Value>)
    ensures r.Ok? <==> v.VObj? && key in v.fields
    ensures r.Ok? ==> r.value == v.fields[key]
  {
    match v
    case VObj(fields) => if key in fields then Ok(fields[key]) else Raised(KeyError)
    case _ => Raised(TypeError)
  }

  /** `period.get('isDaytime', True)`, truthy. */
  predicate IsDaytime(period: Dict) {
    Truthy(Get(period, "isDaytime", VBool(true)))
  }

  /** The dict both loops build from one period. */
  function PeriodEntry(ts: int, temp: Value, description: Value, icon: Value): Value {
    VObj(map["dt" := VInt(ts), "temp" := temp,
             "weather" := VList([VObj(map["description" := description, "icon" := icon])])])
  }

  /** Reading one period: its start time, temperature, short forecast and
      icon must all be there, and the start time must parse. */
  function Entry(period: Value, stamp: string -> Option<int>): (r: Outcome<Value>)
    ensures r.Ok? <==> period.VObj? && "startTime" in period.fields && "temperature" in period.fields
                       && "shortForecast" in period.fields && "icon" in period.fields
                       && period.fields["startTime"].VStr? && stamp(period.fields["startTime"].s).Some?
  {
    var start :- Index(period, "startTime");
    var temp :- Index(period, "temperature");
    var description :- Index(period, "shortForecast");
    var icon :- Index(period, "icon");
    if !start.VStr? then Raised(TypeError)
    else match stamp(start.s)
      case None => Raised(ValueError)
      case Some(ts) => Ok(PeriodEntry(ts, temp, description, icon))
  }

  /** `for i in range(len(periods)): periods[i]` on decoded JSON: a list's
      items; a string's one-character strings; a dict has no key 0, so only
      an empty one can be walked; other values have no length. */
  function Walk(v: Value): (r: Outcome<seq<Value>>)
    ensures v.VList? ==> r == Ok(v.items)
    ensures r.Ok? ==> |r.value| == if v.VStr? then |v.s| else if v.VList? then |v.items| else 0
  {
    match v
    case VList(items) => Ok(items)
    case VStr(s) => Ok(seq(|s|, i requires 0 <= i < |s| => VStr([s[i]])))
    case VObj(fields) => if |fields| == 0 then Ok([]) else Raised(KeyError)
    case _ => Raised(TypeError)
  }

  /** The daily loop with `room` entries still to fill: each daytime period
      is read, night periods are passed over, and the loop stops as soon as
      the last place is filled. A period that is not a dict has no `get`. */
  function DailyFrom(periods: seq<Value>, room: nat, stamp: string -> Option<int>): (r: Outcome<seq<Value>>)
    ensures r.Ok? ==> |r.value| <= room
  {
    if room == 0 || |periods| == 0 then Ok([])
    else match periods[0]
      case VObj(p) =>
        if IsDaytime(p) then
          var e :- Entry(periods[0], stamp);
          var rest :- DailyFrom(periods[1..], room - 1, stamp);
          Ok([e] + rest)
        else DailyFrom(periods[1..], room, stamp)
      case _ => Raised(AttributeError)
  }

  /** The daytime periods, in order. */
  function Daytime(periods: seq<Value>): (r: seq<Value>)
    ensures |r| <= |periods|
  {
    if |periods| == 0 then []
    else (if periods[0].VObj? && IsDaytime(periods[0].fields) then [periods[0]] else []) + Daytime(periods[1..])
  }

  /** Periods that are dicts whose entries read. */
  predicate WellFormed(periods: seq<Value>, stamp: string -> Option<int>) {
    forall i | 0 <= i < |periods| :: periods[i].VObj? && Entry(periods[i], stamp).Ok?
  }

  /** Reading a sequence of periods that all read. */
  function Entries(periods: seq<Value>, stamp: string -> Option<int>): (r: seq<Value>)
    requires WellFormed(periods, stamp)
    ensures |r| == |periods|
    ensures forall i | 0 <= i < |periods| :: r[i] == Entry(periods[i], stamp).value
  {
    seq(|periods|, i requires 0 <= i < |periods| => Entry(periods[i], stamp).value)
  }

  lemma {:induction false} DaytimeWellFormed(periods: seq<Value>, stamp: string -> Option<int>)
    requires WellFormed(periods, stamp)
    ensures WellFormed(Daytime(periods), stamp)
  {
    if |periods| > 0 {
      DaytimeWellFormed(periods[1..], stamp);
    }
  }

  /** The first `room` daytime periods, read. */
  function FirstDaytime(periods: seq<Value>, room: nat, stamp: string -> Option<int>): (r: seq<Value>)
    requires WellFormed(Daytime(periods), stamp)
    ensures |r| == if |Daytime(periods)| < room then |Daytime(periods)| else room
    ensures forall i | 0 <= i < |r| :: r[i] == Entry(Daytime(periods)[i], stamp).value
  {
    var d := Daytime(periods);
    Entries(d[..if |d| < room then |d| else room], stamp)
  }

  /** The step of `DailyIsFirstDaytime` for a daytime first period. */
  lemma {:induction false} DaytimeHead(periods: seq<Value>, room: nat, stamp: string -> Option<int>)
    requires WellFormed(periods, stamp) && room > 0 && |periods| > 0
    requires periods[0].VObj? && IsDaytime(periods[0].fields)
    requires WellFormed(Daytime(periods), stamp) && WellFormed(Daytime(periods[1..]), stamp)
    requires DailyFrom(periods[1..], room - 1, stamp) == Ok(FirstDaytime(periods[1..], room - 1, stamp))
    ensures DailyFrom(periods, room, stamp) == Ok(FirstDaytime(periods, room, stamp))
  {
    FirstDaytimeHead(periods, room, stamp);
  }

  /** With a daytime first period, the first `room` daytime periods read
      are that period read, then the first `room - 1` of the others. */
  lemma {:induction false} FirstDaytimeHead(periods: seq<Value>, room: nat, stamp: string -> Option<int>)
    requires WellFormed(periods, stamp) && room > 0 && |periods| > 0
    requires periods[0].VObj? && IsDaytime(periods[0].fields)
    requires WellFormed(Daytime(periods), stamp) && WellFormed(Daytime(periods[1..]), stamp)
    ensures FirstDaytime(periods, room, stamp)
         == [Entry(periods[0], stamp).value] + FirstDaytime(periods[1..], room - 1, stamp)
  {
    var dr := Daytime(periods[1..]);
    assert Daytime(periods) == [periods[0]] + dr;
    var k := if |dr| + 1 < room then |dr| + 1 else room;
    EntriesCons(periods[0], dr, k, stamp);
  }

  /** Reading the first `k` of `[x] + rest` reads `x`, then the first
      `k - 1` of `rest`. */
  lemma {:induction false} EntriesCons(x: Value, rest: seq<Value>, k: nat, stamp: string -> Option<int>)
    requires WellFormed([x] + rest, stamp) && 0 < k <= |rest| + 1
    ensures Entry(x, stamp).Ok? && WellFormed(rest[..k - 1], stamp)
    ensures Entries(([x] + rest)[..k], stamp) == [Entry(x, stamp).value] + Entries(rest[..k - 1], stamp)
  {
    var d := [x] + rest;
    assert d[0] == x;
    var front, tail := d[..k], rest[..k - 1];
    forall j | 0 <= j < |tail|
      ensures tail[j].VObj? && Entry(tail[j], stamp).Ok?
    {
      assert tail[j] == d[j + 1];
    }
    forall j | 0 <= j < |front|
      ensures front[j].VObj? && Entry(front[j], stamp).Ok?
    {
      assert front[j] == d[j];
    }
    var lhs := Entries(front, stamp);
    var rhs := [Entry(x, stamp).value] + Entries(tail, stamp);
    forall i | 0 <= i < k
      ensures lhs[i] == rhs[i]
    {
      if i > 0 {
        assert front[i] == tail[i - 1];
      }
    }
  }

  /** With well-formed periods the daily list is the first `room` daytime
      periods, read, in their original order. */
  lemma {:induction false} DailyIsFirstDaytime(periods: seq<Value>, room: nat, stamp: string -> Option<int>)
    requires WellFormed(periods, stamp)
    ensures WellFormed(Daytime(periods), stamp)
    ensures DailyFrom(periods, room, stamp) == Ok(FirstDaytime(periods, room, stamp))
  {
    DaytimeWellFormed(periods, stamp);
    if room > 0 && |periods| > 0 {
      var rest := periods[1..];
      assert WellFormed(rest, stamp);
      if IsDaytime(periods[0].fields) {
        DailyIsFirstDaytime(rest, room - 1, stamp);
        DaytimeHead(periods, room, stamp);
      } else {
        DailyIsFirstDaytime(rest, room, stamp);
        assert Daytime(periods) == Daytime(rest);
      }
    }
  }

  /** Once the last place is filled, the periods after it are never looked
      at: appending any periods leaves the daily list unchanged. */
  lemma {:induction false} FullDailyIgnoresLaterPeriods(periods: seq<Value>, more: seq<Value>, room: nat,
                                                       stamp: string -> Option<int>)
    requires DailyFrom(periods, room, stamp).Ok? && |DailyFrom(periods, room, stamp).value| == room
    ensures DailyFrom(periods + more, room, stamp) == DailyFrom(periods, room, stamp)
  {
    if room > 0 {
      assert |periods| > 0;
      assert (periods + more)[0] == periods[0];
      assert (periods + more)[1..] == periods[1..] + more;
      var p := periods[0].fields;
      if IsDaytime(p) {
        FullDailyIgnoresLaterPeriods(periods[1..], more, room - 1, stamp);
      } else {
        FullDailyIgnoresLaterPeriods(periods[1..], more, room, stamp);
      }
    }
  }

  /** The hourly loop: every period read, none skipped. */
  function HourlyFrom(periods: seq<Value>, stamp: string -> Option<int>): (r: Outcome<seq<Value>>)
    ensures r.Ok? <==> forall i | 0 <= i < |periods| :: Entry(periods[i], stamp).Ok?
    ensures r.Ok? ==> |r.value| == |periods|
  {
    if |periods| == 0 then Ok([])
    else
      var e :- Entry(periods[0], stamp);
      var rest :- HourlyFrom(periods[1..], stamp);
      Ok([e] + rest)
  }

  /** `hourly_periods[:24]` on decoded JSON: slicing a dict raises. */
  function FirstDay(v: Value): (r: Outcome<seq<Value>>)
    ensures r.Ok? ==> |r.value| <= 24
    ensures v.VList? ==> r == Ok(if |v.items| <= 24 then v.items else v.items[..24])
  {
    match v
    case VList(items) => Ok(if |items| <= 24 then items else items[..24])
    case VStr(s) =>
      var t := if |s| <= 24 then s else s[..24];
      Ok(seq(|t|, i requires 0 <= i < |t| => VStr([t[i]])))
    case _ => Raised(TypeError)
  }

  /** `data['properties']['periods']`. */
  function PeriodsOf(data: Value): Outcome<Value> {
    var properties :- Index(data, "properties");
    Index(properties, "periods")
  }

  /** `_transform_forecast_data`: up to seven daytime periods as "daily";
      when the hourly forecast is truthy, its first 24 periods as "hourly";
      any error gives None. */
  function TransformForecast(forecast: Value, hourly: Value, stamp: string -> Option<int>): (r: Option<Value>)
    ensures r.Some? <==> DailyOf(forecast, stamp).Ok? && (!Truthy(hourly) || HourlyOf(hourly, stamp).Ok?)
    ensures r.Some? ==> r.value.VObj? && r.value.fields.Keys == if Truthy(hourly) then {"daily", "hourly"} else {"daily"}
    ensures r.Some? ==> r.value.fields["daily"] == VList(DailyOf(forecast, stamp).value)
    ensures r.Some? && Truthy(hourly) ==> r.value.fields["hourly"] == VList(HourlyOf(hourly, stamp).value)
  {
    match DailyOf(forecast, stamp)
    case Raised(_) => None
    case Ok(daily) =>
      if !Truthy(hourly) then Some(VObj(map["daily" := VList(daily)]))
      else
        match HourlyOf(hourly, stamp)
        case Raised(_) => None
        case Ok(hours) => Some(VObj(map["daily" := VList(daily), "hourly" := VList(hours)]))
  }

  /** The daily loop over `forecast['properties']['periods']`. */
  function DailyOf(forecast: Value, stamp: string -> Option<int>): (r: Outcome<seq<Value>>)
    ensures r.Ok? ==> |r.value| <= 7
    ensures PeriodsOf(forecast).Ok? && PeriodsOf(forecast).value.VList? ==>
      r == DailyFrom(PeriodsOf(forecast).value.items, 7, stamp)
  {
    var v :- PeriodsOf(forecast);
    var periods :- Walk(v);
    DailyFrom(periods, 7, stamp)
  }

  /** The hourly loop over the first 24 of `hourly['properties']['periods']`. */
  function HourlyOf(hourly: Value, stamp: string -> Option<int>): (r: Outcome<seq<Value>>)
    ensures r.Ok? ==> |r.value| <= 24
    ensures PeriodsOf(hourly).Ok? && PeriodsOf(hourly).value.VList? ==>
      var ps := PeriodsOf(hourly).value.items;
      r == HourlyFrom(if |ps| <= 24 then ps else ps[..24], stamp)
  {
    var v :- PeriodsOf(hourly);
    var periods :- FirstDay(v);
    HourlyFrom(periods, stamp)
  }

  /** With well-formed forecast periods and an hourly part that reads (or
      is absent), the reshaped forecast exists and its daily list is the
      first seven daytime periods, read, in order. */
  lemma {:induction false} TransformDailyIsFirstDaytime(forecast: Value, hourly: Value, stamp: string -> Option<int>,
                                                      periods: seq<Value>)
    requires PeriodsOf(forecast) == Ok(VList(periods)) && WellFormed(periods, stamp)
    requires !Truthy(hourly) || HourlyOf(hourly, stamp).Ok?
    ensures WellFormed(Daytime(periods), stamp)
    ensures var r := TransformForecast(forecast, hourly, stamp);
      r.Some? && r.value.fields["daily"] == VList(FirstDaytime(periods, 7, stamp))
  {
    DailyIsFirstDaytime(periods, 7, stamp);
  }

  /** `points_data['properties']['forecast']` and `['forecastHourly']`. */
  function ForecastUrls(points: Value): (r: Outcome<(Value, Value)>)
    ensures r.Ok? <==> points.VObj? && "properties" in points.fields && points.fields["properties"].VObj?
                       && "forecast" in points.fields["properties"].fields
                       && "forecastHourly" in points.fields["properties"].fields
  {
    var properties :- Index(points, "properties");
    var forecastUrl :- Index(properties, "forecast");
    var hourlyUrl :- Index(properties, "forecastHourly");
    Ok((forecastUrl, hourlyUrl))
  }

  /** `NWSWeatherBackend._fetch_weather_data`: the points lookup names the
      two forecast URLs, both are requested, then reshaped; any error gives
      None. `get` is one request with its JSON decoding. */
  function NwsFetch(points: Outcome<Value>, get: Value -> Outcome<Value>, stamp: string -> Option<int>): (r: Option<Value>)
    ensures points.Raised? ==> r.None?
    ensures r.Some? ==> points.Ok? && ForecastUrls(points.value).Ok?
    ensures r.Some? ==> var (f, h) := ForecastUrls(points.value).value;
      get(f).Ok? && get(h).Ok? && r == TransformForecast(get(f).value, get(h).value, stamp)
    ensures points.Ok? && ForecastUrls(points.value).Ok? ==> var (f, h) := ForecastUrls(points.value).value;
      get(f).Ok? && get(h).Ok? ==> r == TransformForecast(get(f).value, get(h).value, stamp)
  {
    var result: Outcome<(Value, Value)> := (
      var data :- points;
      var urls :- ForecastUrls(data);
      var (forecastUrl, hourlyUrl) := urls;
      var forecast :- get(forecastUrl);
      var hourly :- get(hourlyUrl);
      Ok((forecast, hourly)));
    match result
    case Raised(_) => None
    case Ok(pair) => TransformForecast(pair.0, pair.1, stamp)
  }
}
