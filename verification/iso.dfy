/** Text forms of dates and datetimes: `isoformat()` and `fromisoformat()`,
    `strftime` and `strptime` with the `%Y-%m-%d` and `%Y-%m-%d %H:%M:%S`
    formats the plugins use for cache keys, stored times and configured due
    dates.

    `strptime` is modelled after the regular expressions Python's `_strptime`
    builds: `%Y` is exactly four digits; `%m`, `%d`, `%H`, `%M` and `%S` try
    their alternatives in order (so single digits are accepted); a blank in
    the format matches one or more whitespace characters; the whole string
    must be consumed; an impossible date or time is a ValueError (None here).
 */
module Iso {
  import opened Wrappers
  import opened Text
  import opened Calendar

  function Pow10(w: nat): (p: nat)
    ensures p >= 1
  {
    if w == 0 then 1 else 10 * Pow10(w - 1)
  }

  /** The last `w` decimal digits of `n`: `f"{n:0{w}d}"` when `n` fits. */
  function Digits(n: nat, w: nat): (s: string)
    ensures |s| == w && AllDigits(s)
  {
    if w == 0 then [] else Digits(n / 10, w - 1) + [DigitChar(n % 10)]
  }

  lemma {:induction false} DigitsValueOfDigits(n: nat, w: nat)
    requires n < Pow10(w)
    ensures DigitsValue(Digits(n, w)) == n
  {
    if w > 0 {
      var s := Digits(n, w);
      assert s[..|s| - 1] == Digits(n / 10, w - 1);
      DigitsValueOfDigits(n / 10, w - 1);
    }
  }

  lemma {:induction false} Digits2(n: nat)
    ensures Digits(n, 2) == [DigitChar(n / 10 % 10), DigitChar(n % 10)]
  {
    assert Digits(n / 10, 1) == [DigitChar(n / 10 % 10)];
  }

  // ---------------------------------------------------------------------------
  // isoformat

  /** `date.isoformat()`. */
  function IsoDate(d: Date): (s: string)
    requires ValidDate(d)
    ensures |s| == 10
  {
    Digits(d.year, 4) + "-" + Digits(d.month, 2) + "-" + Digits(d.day, 2)
  }

  /** "HH:MM:SS", then ".ffffff" only when the microsecond is not zero. */
  function ClockText(h: nat, m: nat, sec: nat, us: nat): (s: string)
    ensures |s| == if us == 0 then 8 else 15
  {
    Digits(h, 2) + ":" + Digits(m, 2) + ":" + Digits(sec, 2) + (if us == 0 then "" else "." + Digits(us, 6))
  }

  /** `datetime.isoformat()` for a naive datetime. */
  function IsoDateTime(t: Instant): (s: string)
    ensures |s| >= 19
  {
    InstantFields(t);
    IsoDate(DateOf(t)) + "T" + ClockText(HourOf(t), MinuteOf(t), SecondOf(t), MicrosecondOf(t))
  }

  // ---------------------------------------------------------------------------
  // fromisoformat

  /** `date.fromisoformat(s)`: exactly "YYYY-MM-DD" naming a real date. */
  function ParseIsoDate(s: string): (r: Option<Date>)
    ensures r.Some? ==> ValidDate(r.value) && |s| == 10
  {
    if |s| != 10 || s[4] != '-' || s[7] != '-' then None
    else match (FieldValue(s, 0, 4), FieldValue(s, 5, 2), FieldValue(s, 8, 2))
      case (Some(y), Some(m), Some(d)) => if ValidDate(Date(y, m, d)) then Some(Date(y, m, d)) else None
      case _ => None
  }

  /** The time part `fromisoformat` reads: "HH", "HH:MM", "HH:MM:SS",
      "HH:MM:SS.fff" or "HH:MM:SS.ffffff", as (hour, minute, second,
      microsecond). */
  function ParseIsoClock(s: string): (r: Option<(nat, nat, nat, nat)>) {
    var h := FieldValue(s, 0, 2);
    var m := FieldValue(s, 3, 2);
    var sec := FieldValue(s, 6, 2);
    if |s| == 2 && h.Some? then Some((h.value, 0, 0, 0))
    else if |s| == 5 && s[2] == ':' && h.Some? && m.Some? then Some((h.value, m.value, 0, 0))
    else if |s| < 8 || s[2] != ':' || s[5] != ':' || h.None? || m.None? || sec.None? then None
    else if |s| == 8 then Some((h.value, m.value, sec.value, 0))
    else if |s| == 12 && s[8] == '.' && FieldValue(s, 9, 3).Some? then
      Some((h.value, m.value, sec.value, FieldValue(s, 9, 3).value * 1000))
    else if |s| == 15 && s[8] == '.' && FieldValue(s, 9, 6).Some? then
      Some((h.value, m.value, sec.value, FieldValue(s, 9, 6).value))
    else None
  }

  /** A parsed datetime: the wall-clock instant and, for an aware one, its
      UTC offset in minutes. */
  datatype Stamp = Stamp(local: Instant, offset: Option<int>)

  /** The index of the first '+' or '-' of `t`, where a UTC offset starts. */
  function FirstSign(t: string): (r: Option<nat>)
    ensures r.Some? ==> r.value < |t| && t[r.value] in "+-" && forall j | 0 <= j < r.value :: t[j] !in "+-"
    ensures r.None? ==> forall j | 0 <= j < |t| :: t[j] !in "+-"
    decreases |t|
  {
    if |t| == 0 then None
    else if t[0] in "+-" then Some(0)
    else match FirstSign(t[1..]) case Some(i) => Some(i + 1) case None => None
  }

  /** A "+HH:MM" or "-HH:MM" offset (without its sign) in minutes; it must be
      less than a day. Longer offsets are not modelled. */
  function ParseOffset(sign: char, z: string): (r: Option<int>)
    ensures r.Some? ==> -1440 < r.value < 1440
  {
    if |z| == 5 && z[2] == ':' && FieldValue(z, 0, 2).Some? && FieldValue(z, 3, 2).Some? then
      var minutes := FieldValue(z, 0, 2).value * 60 + FieldValue(z, 3, 2).value;
      if minutes >= 1440 then None else Some(if sign == '-' then -minutes else minutes)
    else None
  }

  /** The time part of `fromisoformat`, with an optional offset after the
      first sign. */
  function ParseTimeAndOffset(t: string): (r: Option<((nat, nat, nat, nat), Option<int>)>) {
    match FirstSign(t)
    case None => (match ParseIsoClock(t) case Some(c) => Some((c, None)) case None => None)
    case Some(k) =>
      match (ParseIsoClock(t[..k]), ParseOffset(t[k], t[k + 1..]))
      case (Some(c), Some(z)) => Some((c, Some(z)))
      case _ => None
  }

  /** `datetime.fromisoformat(s)`: a date, then optionally one separator
      character and a time, which may end in a UTC offset. */
  function FromIsoFormat(s: string): (r: Option<Stamp>)
    ensures r.Some? ==> |s| >= 10 && ParseIsoDate(s[..10]).Some? && DateOf(r.value.local) == ParseIsoDate(s[..10]).value
  {
    if |s| < 10 then None
    else match ParseIsoDate(s[..10])
      case None => None
      case Some(d) =>
        if |s| == 10 then
          MakeInstantFields(d, 0, 0, 0, 0);
          Some(Stamp(MakeInstant(d, 0, 0, 0, 0), None))
        else if |s| == 11 then None
        else match ParseTimeAndOffset(s[11..])
          case None => None
          case Some(((h, m, sec, us), z)) =>
            if ValidTime(h, m, sec, us) then
              MakeInstantFields(d, h, m, sec, us);
              Some(Stamp(MakeInstant(d, h, m, sec, us), z))
            else None
  }

  lemma {:induction false} IsoDatePieces(d: Date)
    requires ValidDate(d)
    ensures var s := IsoDate(d);
      s[4] == '-' && s[7] == '-' && s[0..4] == Digits(d.year, 4) && s[5..7] == Digits(d.month, 2)
      && s[8..10] == Digits(d.day, 2)
  {
  }

  /** `date.fromisoformat(d.isoformat()) == d` for four-digit years. */
  lemma {:induction false} IsoDateRoundTrip(d: Date)
    requires ValidDate(d) && d.year <= 9999
    ensures ParseIsoDate(IsoDate(d)) == Some(d)
  {
    IsoDatePieces(d);
    assert Pow10(4) == 10000 && Pow10(2) == 100;
    DigitsValueOfDigits(d.year, 4);
    DigitsValueOfDigits(d.month, 2);
    DigitsValueOfDigits(d.day, 2);
  }

  lemma {:induction false} ClockPieces(h: nat, m: nat, sec: nat, us: nat)
    ensures var s := ClockText(h, m, sec, us);
      s[2] == ':' && s[5] == ':' && s[0..2] == Digits(h, 2) && s[3..5] == Digits(m, 2) && s[6..8] == Digits(sec, 2)
      && (us != 0 ==> s[8] == '.' && s[9..15] == Digits(us, 6))
  {
  }

  lemma {:induction false} ClockRoundTrip(h: nat, m: nat, sec: nat, us: nat)
    requires ValidTime(h, m, sec, us)
    ensures ParseIsoClock(ClockText(h, m, sec, us)) == Some((h, m, sec, us))
  {
    var s := ClockText(h, m, sec, us);
    ClockPieces(h, m, sec, us);
    assert Pow10(2) == 100 && Pow10(6) == 1_000_000;
    FieldOfDigits(s, 0, h, 2);
    FieldOfDigits(s, 3, m, 2);
    FieldOfDigits(s, 6, sec, 2);
    if us == 0 {
      assert |s| == 8;
    } else {
      FieldOfDigits(s, 9, us, 6);
      assert |s| == 15 && s[8] == '.';
    }
  }

  /** A field written with `Digits` reads back as its value. */
  lemma {:induction false} FieldOfDigits(s: string, i: nat, n: nat, w: nat)
    requires i + w <= |s| && s[i..i + w] == Digits(n, w) && n < Pow10(w)
    ensures FieldValue(s, i, w) == Some(n)
  {
    DigitsValueOfDigits(n, w);
  }

  lemma {:induction false} NoSignInDigits(n: nat, w: nat)
    ensures forall j | 0 <= j < |Digits(n, w)| :: Digits(n, w)[j] !in "+-"
  {
    var s := Digits(n, w);
    forall j | 0 <= j < |s|
      ensures s[j] !in "+-"
    {
      assert IsDigit(s[j]);
    }
  }

  /** The clock `isoformat` writes carries no sign. */
  lemma {:induction false} ClockHasNoSign(h: nat, m: nat, sec: nat, us: nat)
    ensures FirstSign(ClockText(h, m, sec, us)) == None
  {
    var c := ClockText(h, m, sec, us);
    NoSignInDigits(h, 2);
    NoSignInDigits(m, 2);
    NoSignInDigits(sec, 2);
    NoSignInDigits(us, 6);
    ClockPieces(h, m, sec, us);
    forall j | 0 <= j < |c|
      ensures c[j] !in "+-"
    {
      if j < 2 { assert c[j] == c[0..2][j]; }
      else if 3 <= j < 5 { assert c[j] == c[3..5][j - 3]; }
      else if 6 <= j < 8 { assert c[j] == c[6..8][j - 6]; }
      else if 9 <= j { assert c[j] == c[9..15][j - 9]; }
    }
    NoSignFound(c);
  }

  lemma {:induction false} NoSignFound(t: string)
    requires forall j | 0 <= j < |t| :: t[j] !in "+-"
    ensures FirstSign(t) == None
    decreases |t|
  {
    if |t| > 0 {
      NoSignFound(t[1..]);
    }
  }

  /** `datetime.fromisoformat(t.isoformat()) == t` for four-digit years. */
  /** The date, separator and clock of `isoformat()`. */
  lemma {:induction false} IsoDateTimeParts(t: Instant)
    ensures var s := IsoDateTime(t);
      s[..10] == IsoDate(DateOf(t)) && s[11..] == ClockText(HourOf(t), MinuteOf(t), SecondOf(t), MicrosecondOf(t))
  {
    InstantFields(t);
    var a := IsoDate(DateOf(t));
    var c := ClockText(HourOf(t), MinuteOf(t), SecondOf(t), MicrosecondOf(t));
    assert IsoDateTime(t) == a + "T" + c;
  }

  /** Appending text after position 11 leaves the first ten characters and
      extends the tail. */
  lemma {:induction false} AppendAfter(s: string, z: string)
    requires |s| > 11
    ensures (s + z)[..10] == s[..10] && (s + z)[11..] == s[11..] + z
  {
  }

  lemma {:induction false} IsoDateTimeRoundTrip(t: Instant)
    requires DateOf(t).year <= 9999
    ensures FromIsoFormat(IsoDateTime(t)) == Some(Stamp(t, None))
  {
    InstantFields(t);
    var d := DateOf(t);
    IsoDateTimeParts(t);
    IsoDateRoundTrip(d);
    var (h, m, sec, us) := (HourOf(t), MinuteOf(t), SecondOf(t), MicrosecondOf(t));
    ClockRoundTrip(h, m, sec, us);
    ClockHasNoSign(h, m, sec, us);
    FromIsoOfParts(IsoDateTime(t), d, (h, m, sec, us), None);
  }

  /** The "+HH:MM" or "-HH:MM" that `isoformat()` appends for an offset of
      whole minutes. */
  function OffsetText(minutes: int): (s: string)
    ensures |s| == 6 && s[0] in "+-" && s[3] == ':'
  {
    var a := if minutes < 0 then -minutes else minutes;
    (if minutes < 0 then "-" else "+") + Digits(a / 60, 2) + ":" + Digits(a % 60, 2)
  }

  /** `datetime.isoformat()`, naive or aware. */
  function IsoFormatStamp(st: Stamp): (s: string)
    ensures st.offset.None? ==> s == IsoDateTime(st.local)
  {
    IsoDateTime(st.local) + match st.offset case Some(z) => OffsetText(z) case None => ""
  }

  lemma {:induction false} OffsetTextParses(z: int)
    requires -1440 < z < 1440
    ensures var t := OffsetText(z); ParseOffset(t[0], t[1..]) == Some(z)
  {
    var a := if z < 0 then -z else z;
    var t := OffsetText(z);
    var body := t[1..];
    assert body == Digits(a / 60, 2) + ":" + Digits(a % 60, 2);
    assert body[0..2] == Digits(a / 60, 2) && body[3..5] == Digits(a % 60, 2);
    DigitsValueOfDigits(a / 60, 2);
    DigitsValueOfDigits(a % 60, 2);
  }

  lemma {:induction false} OffsetOfZero()
    ensures OffsetText(0) == "+00:00"
  {
    Digits2(0);
  }

  /** `fromisoformat(dt.isoformat()) == dt` for four-digit years, naive or
      with an offset of whole minutes under a day. */
  lemma {:induction false} StampRoundTrip(st: Stamp)
    requires DateOf(st.local).year <= 9999
    requires st.offset.Some? ==> -1440 < st.offset.value < 1440
    ensures FromIsoFormat(IsoFormatStamp(st)) == Some(st)
  {
    if st.offset.None? {
      IsoDateTimeRoundTrip(st.local);
    } else {
      AwareRoundTrip(st.local, st.offset.value);
    }
  }

  lemma {:induction false} AwareRoundTrip(t: Instant, minutes: int)
    requires DateOf(t).year <= 9999 && -1440 < minutes < 1440
    ensures FromIsoFormat(IsoDateTime(t) + OffsetText(minutes)) == Some(Stamp(t, Some(minutes)))
  {
    InstantFields(t);
    var d := DateOf(t);
    var (h, m, sec, us) := (HourOf(t), MinuteOf(t), SecondOf(t), MicrosecondOf(t));
    var clock := ClockText(h, m, sec, us);
    var s := IsoDateTime(t) + OffsetText(minutes);
    IsoDateTimeParts(t);
    AppendAfter(IsoDateTime(t), OffsetText(minutes));
    IsoDateRoundTrip(d);
    ClockRoundTrip(h, m, sec, us);
    ClockHasNoSign(h, m, sec, us);
    ClockThenOffset(clock, minutes);
    FromIsoOfParts(s, d, (h, m, sec, us), Some(minutes));
  }

  /** `fromisoformat` on a string whose date and time parts parse. */
  lemma {:induction false} FromIsoOfParts(s: string, d: Date, c: (nat, nat, nat, nat), z: Option<int>)
    requires |s| > 11 && ParseIsoDate(s[..10]) == Some(d)
    requires ParseTimeAndOffset(s[11..]) == Some((c, z)) && ValidTime(c.0, c.1, c.2, c.3)
    ensures FromIsoFormat(s) == Some(Stamp(MakeInstant(d, c.0, c.1, c.2, c.3), z))
  {
  }

  lemma {:induction false} ClockThenOffset(clock: string, minutes: int)
    requires FirstSign(clock) == None && ParseIsoClock(clock).Some? && -1440 < minutes < 1440
    ensures ParseTimeAndOffset(clock + OffsetText(minutes)) == Some((ParseIsoClock(clock).value, Some(minutes)))
  {
    var z := OffsetText(minutes);
    var rest := clock + z;
    SignAfter(clock, z);
    assert rest[..|clock|] == clock;
    assert rest[|clock|] == z[0];
    assert rest[|clock| + 1..] == z[1..];
    OffsetTextParses(minutes);
  }

  /** A "+00:00" suffix makes the same wall-clock time an aware UTC datetime. */
  lemma {:induction false} UtcSuffixRead(t: Instant)
    requires DateOf(t).year <= 9999
    ensures FromIsoFormat(IsoDateTime(t) + "+00:00") == Some(Stamp(t, Some(0)))
  {
    OffsetOfZero();
    StampRoundTrip(Stamp(t, Some(0)));
  }

  lemma {:induction false} SignAfter(c: string, z: string)
    requires FirstSign(c) == None && |z| > 0 && z[0] in "+-"
    ensures FirstSign(c + z) == Some(|c|)
    decreases |c|
  {
    if |c| == 0 {
      assert c + z == z;
    } else {
      assert (c + z)[1..] == c[1..] + z;
      SignAfter(c[1..], z);
    }
  }

  // ---------------------------------------------------------------------------
  // strftime

  /** `%Y`: four digits from year 1000 on; the C library writes smaller years
      without padding. */
  function YearText(y: nat): (s: string)
    ensures |s| >= 1 && AllDigits(s)
  {
    if y >= 1000 then Digits(y, 4) else NatToString(y)
  }

  /** `d.strftime("%Y-%m-%d")`. */
  function StrfDate(d: Date): string
    requires ValidDate(d)
  {
    YearText(d.year) + "-" + Digits(d.month, 2) + "-" + Digits(d.day, 2)
  }

  /** `t.strftime("%Y-%m-%d %H:%M:%S")`: the microsecond is dropped. */
  function StrfDateTime(t: Instant): string {
    InstantFields(t);
    StrfDate(DateOf(t)) + StrfClock(HourOf(t), MinuteOf(t), SecondOf(t))
  }

  // ---------------------------------------------------------------------------
  // strptime

  predicate DigitAt(s: string, i: nat) {
    i < |s| && IsDigit(s[i])
  }

  predicate CharIn(s: string, i: nat, lo: char, hi: char) {
    i < |s| && lo <= s[i] <= hi
  }

  function Val(s: string, i: nat): nat
    requires DigitAt(s, i)
  {
    DigitValue(s[i])
  }

  /** A field matched at `i`: its value and the index after it. */
  type Field = Option<(nat, nat)>

  /** `%Y`: `\d\d\d\d`. */
  function MatchYear(s: string, i: nat): (r: Field)
    ensures r.Some? ==> r.value.1 == i + 4 <= |s|
  {
    match FieldValue(s, i, 4)
    case Some(y) => Some((y, i + 4))
    case None => None
  }

  /** `%m`: `1[0-2]|0[1-9]|[1-9]`. */
  function MatchMonth(s: string, i: nat): (r: Field)
    ensures r.Some? ==> i < r.value.1 <= |s| && 1 <= r.value.0 <= 12
  {
    if i < |s| && s[i] == '1' && CharIn(s, i + 1, '0', '2') then Some((10 + Val(s, i + 1), i + 2))
    else if i < |s| && s[i] == '0' && CharIn(s, i + 1, '1', '9') then Some((Val(s, i + 1), i + 2))
    else if CharIn(s, i, '1', '9') then Some((Val(s, i), i + 1))
    else None
  }

  /** `%d`: `3[01]|[12]\d|0[1-9]|[1-9]| [1-9]`. */
  function MatchDay(s: string, i: nat): (r: Field)
    ensures r.Some? ==> i < r.value.1 <= |s| && 1 <= r.value.0 <= 31
  {
    if i < |s| && s[i] == '3' && CharIn(s, i + 1, '0', '1') then Some((30 + Val(s, i + 1), i + 2))
    else if CharIn(s, i, '1', '2') && DigitAt(s, i + 1) then Some((10 * Val(s, i) + Val(s, i + 1), i + 2))
    else if i < |s| && s[i] == '0' && CharIn(s, i + 1, '1', '9') then Some((Val(s, i + 1), i + 2))
    else if CharIn(s, i, '1', '9') then Some((Val(s, i), i + 1))
    else if i < |s| && s[i] == ' ' && CharIn(s, i + 1, '1', '9') then Some((Val(s, i + 1), i + 2))
    else None
  }

  /** `%H`: `2[0-3]|[0-1]\d|\d`. */
  function MatchHour(s: string, i: nat): (r: Field)
    ensures r.Some? ==> i < r.value.1 <= |s| && r.value.0 < 24
  {
    if i < |s| && s[i] == '2' && CharIn(s, i + 1, '0', '3') then Some((20 + Val(s, i + 1), i + 2))
    else if CharIn(s, i, '0', '1') && DigitAt(s, i + 1) then Some((10 * Val(s, i) + Val(s, i + 1), i + 2))
    else if DigitAt(s, i) then Some((Val(s, i), i + 1))
    else None
  }

  /** `%M`: `[0-5]\d|\d`. */
  function MatchMinute(s: string, i: nat): (r: Field)
    ensures r.Some? ==> i < r.value.1 <= |s| && r.value.0 < 60
  {
    if CharIn(s, i, '0', '5') && DigitAt(s, i + 1) then Some((10 * Val(s, i) + Val(s, i + 1), i + 2))
    else if DigitAt(s, i) then Some((Val(s, i), i + 1))
    else None
  }

  /** `%S`: `6[0-1]|[0-5]\d|\d`; 60 and 61 match but `datetime` rejects them. */
  function MatchSecond(s: string, i: nat): (r: Field)
    ensures r.Some? ==> i < r.value.1 <= |s| && r.value.0 < 62
  {
    if i < |s| && s[i] == '6' && CharIn(s, i + 1, '0', '1') then Some((60 + Val(s, i + 1), i + 2))
    else if CharIn(s, i, '0', '5') && DigitAt(s, i + 1) then Some((10 * Val(s, i) + Val(s, i + 1), i + 2))
    else if DigitAt(s, i) then Some((Val(s, i), i + 1))
    else None
  }

  function MatchChar(s: string, i: nat, c: char): (r: Option<nat>)
    ensures r.Some? ==> r.value == i + 1 <= |s|
  {
    if i < |s| && s[i] == c then Some(i + 1) else None
  }

  /** `\s+`: the index after a maximal run of at least one blank. */
  function MatchBlanks(s: string, i: nat): (r: Option<nat>)
    ensures r.Some? ==> i < r.value <= |s|
    decreases |s| - i
  {
    if i < |s| && IsSpace(s[i]) then
      match MatchBlanks(s, i + 1)
      case Some(j) => Some(j)
      case None => Some(i + 1)
    else None
  }

  /** The `%Y-%m-%d` prefix of `s`: the date's fields and the index after
      them. The date is not yet checked. */
  function MatchYmd(s: string): (r: Option<(Date, nat)>)
    ensures r.Some? ==> r.value.1 <= |s|
  {
    var (y, i) :- MatchYear(s, 0);
    var i1 :- MatchChar(s, i, '-');
    var (m, i2) :- MatchMonth(s, i1);
    var i3 :- MatchChar(s, i2, '-');
    var (d, i4) :- MatchDay(s, i3);
    Some((Date(y, m, d), i4))
  }

  /** `datetime.strptime(s, "%Y-%m-%d").date()`. */
  function StrpDate(s: string): (r: Option<Date>)
    ensures r.Some? ==> ValidDate(r.value)
  {
    match MatchYmd(s)
    case Some((d, i)) => if i == |s| && ValidDate(d) then Some(d) else None
    case None => None
  }

  /** `datetime.strptime(s, "%Y-%m-%d %H:%M:%S")`. */
  function StrpDateTime(s: string): (r: Option<Instant>)
    ensures r.Some? ==> MicrosecondOf(r.value) == 0
  {
    var (d, i) :- MatchYmd(s);
    var i1 :- MatchBlanks(s, i);
    var (h, i2) :- MatchHour(s, i1);
    var i3 :- MatchChar(s, i2, ':');
    var (m, i4) :- MatchMinute(s, i3);
    var i5 :- MatchChar(s, i4, ':');
    var (sec, i6) :- MatchSecond(s, i5);
    if i6 == |s| && ValidDate(d) && ValidTime(h, m, sec, 0) then
      MakeInstantFields(d, h, m, sec, 0);
      Some(MakeInstant(d, h, m, sec, 0))
    else None
  }

  // ---------------------------------------------------------------------------
  // strptime reads what strftime writes

  lemma {:induction false} MonthOfTwoDigits(s: string, i: nat, m: nat)
    requires 1 <= m <= 12 && i + 2 <= |s| && s[i..i + 2] == Digits(m, 2)
    ensures MatchMonth(s, i) == Some((m, i + 2))
  {
    Digits2(m);
    assert s[i] == s[i..i + 2][0] && s[i + 1] == s[i..i + 2][1];
  }

  lemma {:induction false} DayOfTwoDigits(s: string, i: nat, d: nat)
    requires 1 <= d <= 31 && i + 2 <= |s| && s[i..i + 2] == Digits(d, 2)
    ensures MatchDay(s, i) == Some((d, i + 2))
  {
    Digits2(d);
    assert s[i] == s[i..i + 2][0] && s[i + 1] == s[i..i + 2][1];
  }

  lemma {:induction false} HourOfTwoDigits(s: string, i: nat, h: nat)
    requires h < 24 && i + 2 <= |s| && s[i..i + 2] == Digits(h, 2)
    ensures MatchHour(s, i) == Some((h, i + 2))
  {
    Digits2(h);
    assert s[i] == s[i..i + 2][0] && s[i + 1] == s[i..i + 2][1];
  }

  lemma {:induction false} MinuteOfTwoDigits(s: string, i: nat, m: nat)
    requires m < 60 && i + 2 <= |s| && s[i..i + 2] == Digits(m, 2)
    ensures MatchMinute(s, i) == Some((m, i + 2)) && MatchSecond(s, i) == Some((m, i + 2))
  {
    Digits2(m);
    assert s[i] == s[i..i + 2][0] && s[i + 1] == s[i..i + 2][1];
  }

  lemma {:induction false} YearOfFourDigits(s: string, y: nat)
    requires 1000 <= y <= 9999 && 4 <= |s| && s[..4] == Digits(y, 4)
    ensures MatchYear(s, 0) == Some((y, 4))
  {
    assert Pow10(4) == 10000;
    DigitsValueOfDigits(y, 4);
    assert s[0..4] == s[..4];
  }

  lemma {:induction false} StrfDatePieces(d: Date, rest: string)
    requires ValidDate(d) && 1000 <= d.year
    ensures var s := StrfDate(d) + rest;
      |s| >= 10 && s[..4] == Digits(d.year, 4) && s[4] == '-' && s[5..7] == Digits(d.month, 2) && s[7] == '-'
      && s[8..10] == Digits(d.day, 2) && s[10..] == rest
  {
  }

  /** The date written by `strftime("%Y-%m-%d")` is read back by the
      matching `strptime` (years from 1000 on). */
  lemma {:induction false} StrpDateOfStrf(d: Date, rest: string)
    requires ValidDate(d) && 1000 <= d.year <= 9999
    ensures MatchYmd(StrfDate(d) + rest) == Some((d, 10))
  {
    var s := StrfDate(d) + rest;
    StrfDatePieces(d, rest);
    YearOfFourDigits(s, d.year);
    MonthOfTwoDigits(s, 5, d.month);
    DayOfTwoDigits(s, 8, d.day);
  }

  lemma {:induction false} StrpDateRoundTrip(d: Date)
    requires ValidDate(d) && 1000 <= d.year <= 9999
    ensures StrpDate(StrfDate(d)) == Some(d)
  {
    StrpDateOfStrf(d, "");
    assert StrfDate(d) + "" == StrfDate(d);
  }

  /** " HH:MM:SS", the time part `StrfDateTime` writes. */
  function StrfClock(h: nat, m: nat, sec: nat): (c: string)
    ensures |c| == 9
  {
    " " + Digits(h, 2) + ":" + Digits(m, 2) + ":" + Digits(sec, 2)
  }

  lemma {:induction false} StrfClockPieces(h: nat, m: nat, sec: nat)
    ensures var c := StrfClock(h, m, sec);
      c[0] == ' ' && c[1..3] == Digits(h, 2) && c[3] == ':' && c[4..6] == Digits(m, 2) && c[6] == ':'
      && c[7..9] == Digits(sec, 2)
  {
  }

  lemma {:induction false} MatchClockAt(s: string, h: nat, m: nat, sec: nat)
    requires h < 24 && m < 60 && sec < 60
    requires |s| == 19 && s[10..] == StrfClock(h, m, sec)
    ensures MatchBlanks(s, 10) == Some(11)
    ensures MatchHour(s, 11) == Some((h, 13)) && MatchChar(s, 13, ':') == Some(14)
    ensures MatchMinute(s, 14) == Some((m, 16)) && MatchChar(s, 16, ':') == Some(17)
    ensures MatchSecond(s, 17) == Some((sec, 19))
  {
    StrfClockPieces(h, m, sec);
    var c := s[10..];
    assert s[10] == c[0] && s[13] == c[3] && s[16] == c[6];
    Digits2(h);
    assert !IsSpace(s[11]) by { assert s[11] == c[1]; }
    assert s[11..13] == c[1..3];
    assert s[14..16] == c[4..6];
    assert s[17..19] == c[7..9];
    HourOfTwoDigits(s, 11, h);
    MinuteOfTwoDigits(s, 14, m);
    MinuteOfTwoDigits(s, 17, sec);
  }

  /** Stored "%Y-%m-%d %H:%M:%S" times read back to the second. */
  lemma {:induction false} StrpDateTimeRoundTrip(t: Instant)
    requires 1000 <= DateOf(t).year <= 9999
    ensures var r := StrpDateTime(StrfDateTime(t)); r.Some? && r.value + MicrosecondOf(t) == t
  {
    InstantFields(t);
    StrpOfStrf(DateOf(t), HourOf(t), MinuteOf(t), SecondOf(t));
    DropMicros(DateOf(t), HourOf(t), MinuteOf(t), SecondOf(t), MicrosecondOf(t));
  }

  lemma {:induction false} StrpOfStrf(d: Date, h: nat, m: nat, sec: nat)
    requires ValidDate(d) && 1000 <= d.year <= 9999 && ValidTime(h, m, sec, 0)
    ensures StrpDateTime(StrfDate(d) + StrfClock(h, m, sec)) == Some(MakeInstant(d, h, m, sec, 0))
  {
    var clock := StrfClock(h, m, sec);
    var s := StrfDate(d) + clock;
    StrpDateOfStrf(d, clock);
    StrfDatePieces(d, clock);
    MatchClockAt(s, h, m, sec);
    StrpDateTimeOfParts(s, d, h, m, sec);
  }

  lemma {:induction false} StrpDateTimeOfParts(s: string, d: Date, h: nat, m: nat, sec: nat)
    requires ValidDate(d) && ValidTime(h, m, sec, 0) && |s| == 19
    requires MatchYmd(s) == Some((d, 10)) && MatchBlanks(s, 10) == Some(11)
    requires MatchHour(s, 11) == Some((h, 13)) && MatchChar(s, 13, ':') == Some(14)
    requires MatchMinute(s, 14) == Some((m, 16)) && MatchChar(s, 16, ':') == Some(17)
    requires MatchSecond(s, 17) == Some((sec, 19))
    ensures StrpDateTime(s) == Some(MakeInstant(d, h, m, sec, 0))
  {
  }

  lemma {:induction false} DropMicros(d: Date, h: nat, m: nat, sec: nat, us: nat)
    requires ValidDate(d) && ValidTime(h, m, sec, us)
    ensures MakeInstant(d, h, m, sec, 0) + us == MakeInstant(d, h, m, sec, us)
  {
  }


  /** `strptime(d.isoformat(), "%Y-%m-%d")` gives back the date: isoformat
      pads the year to four digits, which `%Y` reads. */
  lemma {:induction false} StrpDateOfIsoDate(d: Date)
    requires ValidDate(d) && d.year <= 9999
    ensures StrpDate(IsoDate(d)) == Some(d)
  {
    var s := IsoDate(d);
    IsoDatePieces(d);
    assert Pow10(4) == 10000;
    DigitsValueOfDigits(d.year, 4);
    assert MatchYear(s, 0) == Some((d.year, 4));
    MonthOfTwoDigits(s, 5, d.month);
    DayOfTwoDigits(s, 8, d.day);
  }

  /** `strptime` also accepts months and days written without padding. */
  lemma {:induction false} StrpDateUnpadded(y: nat, m: nat, d: nat)
    requires 1000 <= y <= 9999 && 1 <= m <= 9 && 1 <= d <= 9
    ensures StrpDate(Digits(y, 4) + "-" + [DigitChar(m)] + "-" + [DigitChar(d)]) == Some(Date(y, m, d))
  {
    var s := Digits(y, 4) + "-" + [DigitChar(m)] + "-" + [DigitChar(d)];
    assert s[..4] == Digits(y, 4);
    YearOfFourDigits(s, y);
    assert s[4] == '-' && s[5] == DigitChar(m) && s[6] == '-' && s[7] == DigitChar(d) && |s| == 8;
  }
}
