/** The adhan trigger of `prayer/audio_manager.py`: `check_prayer_times`,
    called periodically with the day's prayer times, arms one "next adhan"
    time per prayer on its first call and afterwards plays at most one due
    adhan per call.

    The prayer times are the dict's items in iteration order. `datetime.now()`
    is `now`; `play_adhan` (file lookup, download and playback) is the
    parameter `play`, true when playback started. Every prayer in
    `AdhanPrayers` has an adhan file path from the constructor, and a path is
    always truthy, so the file check is membership in that set.
 */
module AudioManager {
  import opened Wrappers
  import opened Calendar

  /** The prayers `_setup_adhan_files` gives a file. */
  const AdhanPrayers: set<string> := {"Fajr", "Dhuhr", "Asr", "Maghrib", "Isha"}

  /** `prayer_times.items()`, in order. */
  type Entries = seq<(string, Instant)>

  /** A dict has each key once. */
  predicate DistinctNames(entries: Entries) {
    forall i, j | 0 <= i < j < |entries| :: entries[i].0 != entries[j].0
  }

  /** The trigger's state: whether the first call has happened and the time
      from which each prayer may sound again. */
  datatype Adhan = Adhan(initialized: bool, nextAdhan: map<string, Instant>)

  /** The state after `__init__`. */
  const Launched: Adhan := Adhan(false, map[])

  /** A call's new state and the prayer whose adhan started, if any. */
  datatype Check = Check(state: Adhan, played: Option<string>)

  // ---------------------------------------------------------------------------
  // First call: arming

  /** The armed time of a prayer at `time` seen at `now`: tomorrow's when it
      has passed, today's otherwise. */
  function ArmTime(time: Instant, now: Instant): (a: Instant)
    ensures a > now <==> time + MicrosPerDay > now
    ensures a == time || a == time + MicrosPerDay
  {
    if now >= time then time + MicrosPerDay else time
  }

  /** No later entry has the same name as entry `i`. */
  predicate LastOfName(entries: Entries, i: int)
    requires 0 <= i < |entries|
  {
    forall j | i < j < |entries| :: entries[j].0 != entries[i].0
  }

  /** The prayers named in the entries. */
  function Names(entries: Entries): set<string> {
    if |entries| == 0 then {} else Names(entries[..|entries| - 1]) + {entries[|entries| - 1].0}
  }

  lemma {:induction false} NameInNames(entries: Entries, i: nat)
    requires i < |entries|
    ensures entries[i].0 in Names(entries)
  {
    if i < |entries| - 1 {
      var init := entries[..|entries| - 1];
      NameInNames(init, i);
      assert init[i] == entries[i];
    }
  }

  /** The arming loop over the entries, in order. */
  function Arm(entries: Entries, now: Instant, next: map<string, Instant>): map<string, Instant> {
    if |entries| == 0 then next
    else Arm(entries[..|entries| - 1], now, next)[entries[|entries| - 1].0 := ArmTime(entries[|entries| - 1].1, now)]
  }

  /** Arming gives every named prayer the armed time of its last entry and
      keeps the other prayers' times. */
  lemma {:induction false} ArmSpec(entries: Entries, now: Instant, next: map<string, Instant>)
    ensures Arm(entries, now, next).Keys == next.Keys + Names(entries)
    ensures forall i | 0 <= i < |entries| :: entries[i].0 in Arm(entries, now, next)
    ensures forall i | 0 <= i < |entries| && LastOfName(entries, i) ::
      Arm(entries, now, next)[entries[i].0] == ArmTime(entries[i].1, now)
    ensures forall p | p in next && p !in Names(entries) :: Arm(entries, now, next)[p] == next[p]
  {
    if |entries| > 0 {
      var last := entries[|entries| - 1];
      var init := entries[..|entries| - 1];
      ArmSpec(init, now, next);
      var prev := Arm(init, now, next);
      var r := Arm(entries, now, next);
      assert r == prev[last.0 := ArmTime(last.1, now)];
      assert forall i | 0 <= i < |init| :: init[i] == entries[i];
      forall i | 0 <= i < |entries|
        ensures entries[i].0 in r
      {
        NameInNames(entries, i);
      }
      forall i | 0 <= i < |entries| && LastOfName(entries, i)
        ensures r[entries[i].0] == ArmTime(entries[i].1, now)
      {
        if i < |init| {
          assert entries[i].0 != last.0;
          assert LastOfName(init, i);
        }
      }
    }
  }

  // ---------------------------------------------------------------------------
  // Later calls: the first due prayer that plays

  /** The index of the first entry satisfying `ok`. */
  function FirstMatch(entries: Entries, ok: ((string, Instant)) -> bool): (r: Option<nat>)
    ensures r.Some? ==> r.value < |entries| && ok(entries[r.value])
    ensures r.Some? ==> forall j | 0 <= j < r.value :: !ok(entries[j])
    ensures r.None? <==> forall j | 0 <= j < |entries| :: !ok(entries[j])
  {
    if |entries| == 0 then None
    else if ok(entries[0]) then Some(0)
    else match FirstMatch(entries[1..], ok)
      case None => None
      case Some(k) => Some(k + 1)
  }

  /** The adhan condition as the source writes it: a prayer with a file,
      whose time has come, and that is not armed or whose time is strictly
      after the armed one. */
  predicate DueAsWritten(st: Adhan, now: Instant, prayer: string, time: Instant) {
    prayer in AdhanPrayers && now >= time
    && (prayer !in st.nextAdhan || time > st.nextAdhan[prayer])
  }

  /** The adhan condition as evidently intended: a time at the armed moment
      is due too. */
  predicate Due(st: Adhan, now: Instant, prayer: string, time: Instant) {
    prayer in AdhanPrayers && now >= time
    && (prayer !in st.nextAdhan || time >= st.nextAdhan[prayer])
  }

  /** One call under a given adhan condition: the first call arms and plays
      nothing; later calls play the first due prayer whose playback starts,
      re-arming it a day later; a due prayer that fails to play is passed
      over and stays unarmed. */
  function Step(st: Adhan, entries: Entries, now: Instant, play: string -> bool,
                due: (string, Instant) -> bool): (r: Check)
    ensures !st.initialized ==> r.played.None? && r.state == Adhan(true, Arm(entries, now, st.nextAdhan))
    ensures st.initialized && r.played.None? ==> r.state == st
    ensures st.initialized ==> r.state.initialized
    ensures r.played.Some? ==> exists i | 0 <= i < |entries| ::
      entries[i].0 == r.played.value && due(entries[i].0, entries[i].1) && play(entries[i].0)
      && r.state.nextAdhan == st.nextAdhan[entries[i].0 := entries[i].1 + MicrosPerDay]
      && forall j | 0 <= j < i :: !(due(entries[j].0, entries[j].1) && play(entries[j].0))
    ensures st.initialized && r.played.None? ==>
      forall i | 0 <= i < |entries| :: !(due(entries[i].0, entries[i].1) && play(entries[i].0))
  {
    if !st.initialized then Check(Adhan(true, Arm(entries, now, st.nextAdhan)), None)
    else match FirstMatch(entries, (e: (string, Instant)) => due(e.0, e.1) && play(e.0))
      case None => Check(st, None)
      case Some(i) =>
        var (prayer, time) := entries[i];
        Check(st.(nextAdhan := st.nextAdhan[prayer := time + MicrosPerDay]), Some(prayer))
  }

  /** `check_prayer_times` as written. */
  function CheckPrayerTimesAsWritten(st: Adhan, entries: Entries, now: Instant, play: string -> bool): (r: Check)
    ensures r.played.Some? ==> r.played.value in AdhanPrayers && r.played.value in r.state.nextAdhan
    ensures r.played.Some? && r.played.value in st.nextAdhan ==>
      r.state.nextAdhan[r.played.value] > st.nextAdhan[r.played.value] + MicrosPerDay
  {
    Step(st, entries, now, play, (p: string, t: Instant) => DueAsWritten(st, now, p, t))
  }

  /** `check_prayer_times` with the intended adhan condition. */
  function CheckPrayerTimes(st: Adhan, entries: Entries, now: Instant, play: string -> bool): (r: Check)
    ensures r.played.Some? ==> r.played.value in AdhanPrayers
    ensures r.played.Some? ==> r.state.nextAdhan.Keys == st.nextAdhan.Keys + {r.played.value}
  {
    Step(st, entries, now, play, (p: string, t: Instant) => Due(st, now, p, t))
  }

  // ---------------------------------------------------------------------------
  // Properties

  /** The first call after launch never plays, and a later call plays
      nothing until some prayer time that was still ahead at launch has
      come. */
  lemma {:induction false} NoAdhanOnLaunch(entries: Entries, launch: Instant, later: Instant, play: string -> bool)
    requires DistinctNames(entries)
    requires forall i | 0 <= i < |entries| :: !(launch < entries[i].1 <= later)
    ensures CheckPrayerTimes(Launched, entries, launch, play).played.None?
    ensures var st := CheckPrayerTimes(Launched, entries, launch, play).state;
      CheckPrayerTimes(st, entries, later, play).played.None?
  {
    var st := CheckPrayerTimes(Launched, entries, launch, play).state;
    ArmSpec(entries, launch, map[]);
    forall i | 0 <= i < |entries|
      ensures !Due(st, later, entries[i].0, entries[i].1)
    {
      assert LastOfName(entries, i);
    }
  }

  /** The launch guarantee holds for the code as written as well, whose
      adhan condition is the stricter one. */
  lemma {:induction false} NoAdhanOnLaunchAsWritten(entries: Entries, launch: Instant, later: Instant, play: string -> bool)
    requires DistinctNames(entries)
    requires forall i | 0 <= i < |entries| :: !(launch < entries[i].1 <= later)
    ensures CheckPrayerTimesAsWritten(Launched, entries, launch, play).played.None?
    ensures var st := CheckPrayerTimesAsWritten(Launched, entries, launch, play).state;
      CheckPrayerTimesAsWritten(st, entries, later, play).played.None?
  {
    var st := CheckPrayerTimesAsWritten(Launched, entries, launch, play).state;
    ArmSpec(entries, launch, map[]);
    forall i | 0 <= i < |entries|
      ensures !DueAsWritten(st, later, entries[i].0, entries[i].1)
    {
      assert LastOfName(entries, i);
    }
  }

  /** An adhan that played is not played again for the same prayer times,
      whenever the next call comes. */
  lemma {:induction false} NoReplay(st: Adhan, entries: Entries, now: Instant, later: Instant, play: string -> bool)
    requires st.initialized && DistinctNames(entries)
    requires CheckPrayerTimes(st, entries, now, play).played.Some?
    ensures var r := CheckPrayerTimes(st, entries, now, play);
      CheckPrayerTimes(r.state, entries, later, play).played != r.played
  {
    var r := CheckPrayerTimes(st, entries, now, play);
    var p := r.played.value;
    var i :| 0 <= i < |entries| && entries[i].0 == p && Due(st, now, p, entries[i].1) && play(p)
             && r.state.nextAdhan == st.nextAdhan[p := entries[i].1 + MicrosPerDay];
    forall j | 0 <= j < |entries| && entries[j].0 == p
      ensures !Due(r.state, later, entries[j].0, entries[j].1)
    {
      assert j == i;
    }
  }

  /** No replay holds for the code as written as well. */
  lemma {:induction false} NoReplayAsWritten(st: Adhan, entries: Entries, now: Instant, later: Instant, play: string -> bool)
    requires st.initialized && DistinctNames(entries)
    requires CheckPrayerTimesAsWritten(st, entries, now, play).played.Some?
    ensures var r := CheckPrayerTimesAsWritten(st, entries, now, play);
      CheckPrayerTimesAsWritten(r.state, entries, later, play).played != r.played
  {
    var r := CheckPrayerTimesAsWritten(st, entries, now, play);
    var p := r.played.value;
    var i :| 0 <= i < |entries| && entries[i].0 == p && DueAsWritten(st, now, p, entries[i].1) && play(p)
             && r.state.nextAdhan == st.nextAdhan[p := entries[i].1 + MicrosPerDay];
    forall j | 0 <= j < |entries| && entries[j].0 == p
      ensures !DueAsWritten(r.state, later, entries[j].0, entries[j].1)
    {
      assert j == i;
    }
  }

  /** The next day's adhan at the same clock time sounds: a prayer armed for
      `time + 1 day` is due when that moment comes. */
  lemma {:induction false} NextDayAdhanDue(st: Adhan, prayer: string, time: Instant, now: Instant)
    requires prayer in AdhanPrayers && prayer in st.nextAdhan && st.nextAdhan[prayer] == time + MicrosPerDay
    requires now >= time + MicrosPerDay
    ensures Due(st, now, prayer, time + MicrosPerDay)
    ensures !DueAsWritten(st, now, prayer, time + MicrosPerDay)
  {
  }

  /** As written, an adhan that played today is skipped tomorrow when the
      prayer falls on the same minute: the armed time is exactly tomorrow's
      time and the comparison is strict. */
  lemma {:induction false} SameClockNextDaySkippedAsWritten(st: Adhan, prayer: string, time: Instant,
                                                          now: Instant, play: string -> bool)
    requires st.initialized && prayer in AdhanPrayers && now >= time && play(prayer)
    requires prayer !in st.nextAdhan
    ensures var r := CheckPrayerTimesAsWritten(st, [(prayer, time)], now, play);
      r.played == Some(prayer)
      && CheckPrayerTimesAsWritten(r.state, [(prayer, time + MicrosPerDay)], time + MicrosPerDay, play).played.None?
  {
    var r := CheckPrayerTimesAsWritten(st, [(prayer, time)], now, play);
    assert DueAsWritten(st, now, prayer, time);
    assert r.played.Some?;
    var e := [(prayer, time + MicrosPerDay)];
    assert !DueAsWritten(r.state, time + MicrosPerDay, e[0].0, e[0].1);
  }

  /** With the intended condition the same sequence plays on both days. */
  lemma {:induction false} SameClockNextDayPlays(st: Adhan, prayer: string, time: Instant,
                                                now: Instant, play: string -> bool)
    requires st.initialized && prayer in AdhanPrayers && now >= time && play(prayer)
    requires prayer !in st.nextAdhan
    ensures var r := CheckPrayerTimes(st, [(prayer, time)], now, play);
      r.played == Some(prayer)
      && CheckPrayerTimes(r.state, [(prayer, time + MicrosPerDay)], time + MicrosPerDay, play).played == Some(prayer)
  {
    var r := CheckPrayerTimes(st, [(prayer, time)], now, play);
    assert Due(st, now, prayer, time);
    assert r.played.Some?;
    var e := [(prayer, time + MicrosPerDay)];
    assert Due(r.state, time + MicrosPerDay, e[0].0, e[0].1);
  }

  /** A due prayer whose playback fails is passed over and stays due for
      the next call. */
  lemma {:induction false} FailedPlaybackRetried(st: Adhan, entries: Entries, now: Instant, play: string -> bool, i: nat)
    requires st.initialized && DistinctNames(entries) && i < |entries|
    requires Due(st, now, entries[i].0, entries[i].1) && !play(entries[i].0)
    ensures var r := CheckPrayerTimes(st, entries, now, play);
      r.played != Some(entries[i].0) && Due(r.state, now, entries[i].0, entries[i].1)
  {
    var r := CheckPrayerTimes(st, entries, now, play);
    if r.played.Some? {
      var k :| 0 <= k < |entries| && entries[k].0 == r.played.value && Due(st, now, entries[k].0, entries[k].1)
               && play(entries[k].0) && r.state.nextAdhan == st.nextAdhan[entries[k].0 := entries[k].1 + MicrosPerDay];
      assert k != i;
    }
  }

  /** Retrying a failed playback holds for the code as written as well. */
  lemma {:induction false} FailedPlaybackRetriedAsWritten(st: Adhan, entries: Entries, now: Instant, play: string -> bool, i: nat)
    requires st.initialized && DistinctNames(entries) && i < |entries|
    requires DueAsWritten(st, now, entries[i].0, entries[i].1) && !play(entries[i].0)
    ensures var r := CheckPrayerTimesAsWritten(st, entries, now, play);
      r.played != Some(entries[i].0) && DueAsWritten(r.state, now, entries[i].0, entries[i].1)
  {
    var r := CheckPrayerTimesAsWritten(st, entries, now, play);
    if r.played.Some? {
      var k :| 0 <= k < |entries| && entries[k].0 == r.played.value && DueAsWritten(st, now, entries[k].0, entries[k].1)
               && play(entries[k].0) && r.state.nextAdhan == st.nextAdhan[entries[k].0 := entries[k].1 + MicrosPerDay];
      assert k != i;
    }
  }
}
