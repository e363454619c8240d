/** The config-driven bill backend of
    `dashboard/plugins/utilities_bill_due/backends/manual.py`: the
    "every N" due-date rule, the due-date parser and the per-entry bill.
    `date.today()` is the `today` parameter; dateutil, when the strict
    formats fail, is the `dateutil` parameter (a constant None when it is not
    installed); `str()` of a list or dict is the `repr` parameter.
 */
module ManualBackend {
  import opened Wrappers
  import opened Text
  import opened Values
  import opened Calendar
  import opened Iso
  import opened Bills

  function Min(a: int, b: int): int {
    if a <= b then a else b
  }

  /** The month after (year, month), December rolling into January. */
  function NextMonthOf(year: int, month: int): (r: (int, int))
    requires 1 <= month <= 12
    ensures 1 <= r.1 <= 12
    ensures month < 12 ==> r == (year, month + 1)
    ensures month == 12 ==> r == (year + 1, 1)
  {
    if month == 12 then (year + 1, 1) else (year, month + 1)
  }

  /** The day of month `day` falls on in (year, month): clamped to the
      month's last day. */
  function ClampedDay(day: int, year: int, month: int): int
    requires 1 <= month <= 12
  {
    Min(day, DaysInMonth(year, month))
  }

  /** `_next_due_date_for_day_of_month(day)` on `today`. */
  function NextDueDateForDay(day: int, today: Date): (r: Option<Date>)
    requires ValidDate(today)
    ensures r.None? <==> !(1 <= day <= 31)
    ensures r.Some? ==> ValidDate(r.value) && r.value.day == ClampedDay(day, r.value.year, r.value.month)
    ensures r.Some? ==> DateKey(today) <= DateKey(r.value)
    ensures r.Some? && ClampedDay(day, today.year, today.month) >= today.day ==>
      (r.value.year, r.value.month) == (today.year, today.month)
    ensures r.Some? && ClampedDay(day, today.year, today.month) < today.day ==>
      (r.value.year, r.value.month) == NextMonthOf(today.year, today.month)
  {
    if !(1 <= day <= 31) then None
    else
      var here := ClampedDay(day, today.year, today.month);
      if here >= today.day then Some(Date(today.year, today.month, here))
      else
        var (y, m) := NextMonthOf(today.year, today.month);
        Some(Date(y, m, ClampedDay(day, y, m)))
  }

  /** The date found is the first on or after today that falls on the
      clamped day of its month. */
  lemma {:induction false} NextDueDateIsFirst(day: int, today: Date, e: Date)
    requires ValidDate(today) && 1 <= day <= 31
    requires ValidDate(e) && e.day == ClampedDay(day, e.year, e.month)
    requires DateKey(today) <= DateKey(e)
    ensures DateKey(NextDueDateForDay(day, today).value) <= DateKey(e)
  {
    var r := NextDueDateForDay(day, today).value;
    DateKeyOrdersDates(today, e);
    DateKeyOrdersDates(r, e);
    DateKeyOrdersDates(today, r);
  }

  // ---------------------------------------------------------------------------
  // The day-of-month pattern `(?:on\s+)?every\s+(\d{1,2})(?:st|nd|rd|th)?\s*$`,
  // searched case-insensitively. A match that starts with "on" carries the
  // same digits as the match at its "every", so the leftmost "every" match
  // gives the day.

  predicate OrdinalSuffix(t: string) {
    t == "st" || t == "nd" || t == "rd" || t == "th"
  }

  /** The pattern matched at the start of `t`, from "every" to the end:
      "every", blanks, one or two digits, an optional ordinal suffix, and
      only blanks after it. The day is the digits' value. */
  function EveryAt(t: string): (r: Option<nat>)
    ensures r.Some? ==> r.value < 100
  {
    if |t| < 5 || Lower(t[..5]) != "every" then None
    else
      var i := SpaceRun(t, 5);
      if i == 5 then None
      else
        var j := DigitRun(t, i);
        if j == i || j - i > 2 then None
        else
          var rest := t[j..];
          if AllSpace(rest) || (|rest| >= 2 && OrdinalSuffix(Lower(rest[..2])) && AllSpace(rest[2..])) then
            assert j - i == 1 || j - i == 2;
            DigitsBelow(t[i..j]);
            Some(DigitsValue(t[i..j]))
          else None
  }

  lemma {:induction false} DigitsBelow(s: string)
    requires |s| <= 2 && AllDigits(s)
    ensures DigitsValue(s) < 100
  {
    if |s| > 0 {
      assert DigitsValue(s) == DigitsValue(s[..|s| - 1]) * 10 + DigitValue(s[|s| - 1]);
      DigitsBelow(s[..|s| - 1]);
    }
  }

  /** `re.search`: the leftmost position from `i` where the pattern matches. */
  function SearchEvery(s: string, i: nat): (r: Option<nat>)
    requires i <= |s|
    ensures r.Some? ==> r.value < 100
    ensures EveryAt(s[i..]).Some? ==> r == EveryAt(s[i..])
    decreases |s| - i
  {
    if EveryAt(s[i..]).Some? then EveryAt(s[i..])
    else if i == |s| then None
    else SearchEvery(s, i + 1)
  }

  /** `_parse_due_date(v)` on `today`: falsy gives None; the stripped text
      is tried as "every N" (a day outside 1..31 gives None), then as
      "%Y-%m-%d", then by dateutil. The `str()` of a list or dict ends in a
      bracket, which none of the three accepts. */
  function ParseDueDate(v: Value, today: Date, dateutil: string -> Option<Date>): (r: Option<Date>)
    requires ValidDate(today)
    ensures !Truthy(v) ==> r.None?
    ensures v.VStr? && |v.s| > 0 && SearchEvery(Strip(v.s), 0).Some? ==>
      r == NextDueDateForDay(SearchEvery(Strip(v.s), 0).value, today)
    ensures v.VStr? && |v.s| > 0 && SearchEvery(Strip(v.s), 0).None? && StrpDate(Strip(v.s)).Some? ==>
      r == StrpDate(Strip(v.s))
  {
    if !Truthy(v) then None
    else match StrOf(v)
      case None => None
      case Some(text) =>
        var s := Strip(text);
        match SearchEvery(s, 0)
        case Some(day) => if 1 <= day <= 31 then NextDueDateForDay(day, today) else None
        case None =>
          match StrpDate(s)
          case Some(d) => Some(d)
          case None => dateutil(s)
  }

  lemma {:induction false} IntToStringDigits(n: nat)
    ensures AllDigits(NatToString(n)) && |NatToString(n)| >= 1
    ensures n < 100 ==> |NatToString(n)| <= 2
  {
    DigitsValueOfNatToString(n);
    if n >= 10 {
      IntToStringDigits(n / 10);
    }
  }

  /** The pieces of "every N<suffix>" as the matcher sees them. */
  lemma {:induction false} EveryPieces(n: nat, suffix: string)
    requires n < 100
    ensures var t := "every " + NatToString(n) + suffix; var d := NatToString(n);
      && |t| == 6 + |d| + |suffix| && 1 <= |d| <= 2 && AllDigits(d)
      && t[..5] == "every" && t[5] == ' ' && IsDigit(t[6]) && t[6..6 + |d|] == d && t[6 + |d|..] == suffix
  {
    IntToStringDigits(n);
    var d := NatToString(n);
    var t := "every " + d + suffix;
    assert t[6] == d[0];
  }

  lemma {:induction false} LowerEvery()
    ensures Lower("every") == "every"
  {
    var r := Lower("every");
    assert r[0] == 'e' && r[1] == 'v' && r[2] == 'e' && r[3] == 'r' && r[4] == 'y';
  }

  /** The matcher reads N back from "every N" and "every N<suffix>". */
  lemma {:induction false} EveryAtNumeral(n: nat, suffix: string)
    requires n < 100
    requires suffix == "" || OrdinalSuffix(suffix)
    ensures EveryAt("every " + NatToString(n) + suffix) == Some(n)
  {
    var t := "every " + NatToString(n) + suffix;
    var d := NatToString(n);
    EveryPieces(n, suffix);
    LowerEvery();
    DigitsValueOfNatToString(n);
    assert SpaceRun(t, 6) == 6 by { assert !IsSpace(t[6]); }
    assert SpaceRun(t, 5) == 6;
    if suffix == "" {
      DigitRunOver(t, 6, |d|);
    } else {
      assert !IsDigit(t[6 + |d|]) by { assert t[6 + |d|] == suffix[0]; }
      DigitRunOver(t, 6, |d|);
      assert Lower(suffix) == suffix by {
        assert Lower(suffix)[0] == suffix[0] && Lower(suffix)[1] == suffix[1];
      }
      assert suffix[..2] == suffix && suffix[2..] == "";
    }
  }

  /** The text "every N<suffix>" has no blanks to strip. */
  lemma {:induction false} StripEveryNumeral(n: nat, suffix: string)
    requires n < 100
    requires suffix == "" || OrdinalSuffix(suffix)
    ensures var t := "every " + NatToString(n) + suffix; Strip(t) == t
  {
    var t := "every " + NatToString(n) + suffix;
    EveryEndsNoSpace(n, suffix);
    StripNoSpace(t);
  }

  lemma {:induction false} EveryEndsNoSpace(n: nat, suffix: string)
    requires n < 100
    requires suffix == "" || OrdinalSuffix(suffix)
    ensures var t := "every " + NatToString(n) + suffix;
      |t| > 0 && !IsSpace(t[0]) && !IsSpace(t[|t| - 1])
  {
    var d := NatToString(n);
    var t := "every " + d + suffix;
    IntToStringDigits(n);
    assert t[0] == 'e';
    if suffix == "" {
      assert t[|t| - 1] == d[|d| - 1];
    } else {
      assert t[|t| - 1] == suffix[|suffix| - 1];
    }
  }

  /** The search finds N at the start of "every N<suffix>". */
  lemma {:induction false} SearchEveryNumeral(n: nat, suffix: string)
    requires n < 100
    requires suffix == "" || OrdinalSuffix(suffix)
    ensures SearchEvery("every " + NatToString(n) + suffix, 0) == Some(n)
  {
    var t := "every " + NatToString(n) + suffix;
    EveryAtNumeral(n, suffix);
    assert t[0..] == t;
  }

  /** "every N<suffix>" is read as day N: the next due date for it when N is
      from 1 to 31, and no date otherwise. */
  lemma {:induction false} EveryText(n: nat, suffix: string, today: Date, dateutil: string -> Option<Date>)
    requires ValidDate(today) && n < 100
    requires suffix == "" || OrdinalSuffix(suffix)
    ensures ParseDueDate(VStr("every " + NatToString(n) + suffix), today, dateutil)
         == if 1 <= n <= 31 then NextDueDateForDay(n, today) else None
  {
    var t := "every " + NatToString(n) + suffix;
    StripEveryNumeral(n, suffix);
    SearchEveryNumeral(n, suffix);
    assert SearchEvery(Strip(t), 0) == Some(n);
  }

  /** "every N" (N from 1 to 31, with or without an ordinal suffix) is the
      next due date for day N. */
  lemma {:induction false} EveryNParsed(n: nat, suffix: string, today: Date, dateutil: string -> Option<Date>)
    requires ValidDate(today) && 1 <= n <= 31
    requires suffix == "" || OrdinalSuffix(suffix)
    ensures ParseDueDate(VStr("every " + NatToString(n) + suffix), today, dateutil) == NextDueDateForDay(n, today)
  {
    EveryText(n, suffix, today, dateutil);
  }

  /** A day number outside 1..31 gives no due date, and the date formats
      are not tried. */
  lemma {:induction false} DayOutOfRange(n: nat, today: Date, dateutil: string -> Option<Date>)
    requires ValidDate(today) && 32 <= n <= 99
    ensures ParseDueDate(VStr("every " + NatToString(n)), today, dateutil) == None
  {
    EveryText(n, "", today, dateutil);
    assert "every " + NatToString(n) + "" == "every " + NatToString(n);
  }

  /** Text with no "e" in any case holds no "every". */
  lemma {:induction false} NoEveryWithoutE(s: string, i: nat)
    requires i <= |s|
    requires forall j | i <= j < |s| :: LowerChar(s[j]) != 'e'
    ensures SearchEvery(s, i) == None
    decreases |s| - i
  {
    assert EveryAt(s[i..]) == None by {
      if |s[i..]| >= 5 {
        assert Lower(s[i..][..5])[0] == LowerChar(s[i]);
      }
    }
    if i < |s| {
      NoEveryWithoutE(s, i + 1);
    }
  }

  /** A strict "YYYY-MM-DD" due date is that date. */
  lemma {:induction false} IsoDueDateParsed(d: Date, today: Date, dateutil: string -> Option<Date>)
    requires ValidDate(d) && d.year <= 9999 && ValidDate(today)
    ensures ParseDueDate(VStr(IsoDate(d)), today, dateutil) == Some(d)
  {
    var s := IsoDate(d);
    IsoDatePieces(d);
    assert forall j | 0 <= j < |s| :: IsDigit(s[j]) || s[j] == '-' by {
      forall j | 0 <= j < |s|
        ensures IsDigit(s[j]) || s[j] == '-'
      {
        if j < 4 {
          assert s[j] == s[0..4][j];
        } else if 5 <= j < 7 {
          assert s[j] == s[5..7][j - 5];
        } else if 8 <= j {
          assert s[j] == s[8..10][j - 8];
        }
      }
    }
    NoEveryWithoutE(s, 0);
    assert s[0] == s[0..4][0] && s[9] == s[8..10][1];
    StripNoSpace(s);
    StrpDateOfIsoDate(d);
  }

  // ---------------------------------------------------------------------------
  // One bill per entry

  /** `(v or "")` followed by a string method: a truthy non-string has no
      `.strip()` (AttributeError). */
  function TextOr(v: Value): (r: Outcome<string>)
    ensures !Truthy(v) ==> r == Ok("")
    ensures v.VStr? ==> r == Ok(v.s)
    ensures r.Raised? <==> Truthy(v) && !v.VStr?
  {
    if !Truthy(v) then Ok("") else if v.VStr? then Ok(v.s) else Raised(AttributeError)
  }

  /** `str(v)`, with `repr` for lists and dicts. */
  function StrWith(v: Value, repr: Value -> string): string {
    match StrOf(v)
    case Some(t) => t
    case None => repr(v)
  }

  function NonBlank(s: string): (r: Option<string>)
    ensures r.None? <==> s == ""
  {
    if s == "" then None else Some(s)
  }

  /** `amount`: None stays None; integers and booleans are `str()`-ed;
      anything else is stripped, and blank reads as None. */
  function AmountOf(v: Value, repr: Value -> string): (r: Option<string>)
    ensures v.VNull? ==> r.None?
    ensures v.VInt? ==> r == Some(IntToString(v.i))
    ensures v.VStr? ==> r == NonBlank(Strip(v.s))
  {
    match v
    case VNull => None
    case VInt(i) => Some(IntToString(i))
    case VBool(b) => Some(if b then "True" else "False")
    case _ => NonBlank(Strip(StrWith(v, repr)))
  }

  /** The stripped name and source after falling back to each other and
      then to "Manual". */
  function NameAndSource(n0: string, s0: string): (r: (string, string))
    ensures r.0 != "" && r.1 != ""
    ensures n0 != "" ==> r.0 == n0
    ensures s0 != "" ==> r.1 == s0
    ensures n0 == "" && s0 != "" ==> r.0 == s0
    ensures s0 == "" ==> r.1 == r.0
  {
    var n := if n0 != "" then n0 else if s0 != "" then s0 else "Manual";
    (n, if s0 != "" then s0 else n)
  }

  /** The bill built from an entry once its name and source are known: the
      parsed due date, due once that date is today or past, no balance,
      payment or usage fields. */
  function ManualBill(n: string, s: string, entry: Dict, today: Date, dateutil: string -> Option<Date>, repr: Value -> string)
    : (b: Bill)
    requires ValidDate(today)
    ensures b.utilityType == Some(n) && b.source == Some(s)
    ensures b.dueDate == ParseDueDate(GetOpt(entry, "due_date"), today, dateutil)
    ensures b.paymentDue <==> b.dueDate.Some? && DateKey(b.dueDate.value) <= DateKey(today)
    ensures b.usage.None? && b.currentBalance.None? && b.lastPaymentDate.None?
  {
    var due := ParseDueDate(GetOpt(entry, "due_date"), today, dateutil);
    var status := GetOpt(entry, "status");
    Bill(
      utilityType := Some(n),
      source := Some(s),
      dueDate := due,
      amountDue := AmountOf(GetOpt(entry, "amount"), repr),
      paymentDue := due.Some? && DateKey(due.value) <= DateKey(today),
      currentBalance := None,
      currentBillBilledDate := None,
      lastPaymentAmount := None,
      lastPaymentDate := None,
      rawStatus := if status.VNull? then None else NonBlank(Strip(StrWith(status, repr))),
      usage := None)
  }

  /** The bill for one dict entry, or None when it has neither a truthy
      name nor a truthy source. Name and source fall back to each other and
      then to "Manual". */
  function EntryBill(entry: Dict, today: Date, dateutil: string -> Option<Date>, repr: Value -> string)
    : (r: Outcome<Option<Bill>>)
    requires ValidDate(today)
    ensures !Truthy(GetOpt(entry, "name")) && !Truthy(GetOpt(entry, "source")) ==> r == Ok(None)
    ensures r.Raised? <==> (Truthy(GetOpt(entry, "name")) || Truthy(GetOpt(entry, "source")))
                           && (NotText(GetOpt(entry, "name")) || NotText(GetOpt(entry, "source")))
    ensures r.Raised? ==> r.error == AttributeError
    ensures r.Ok? && r.value.Some? ==>
      var b := r.value.value;
      && b.utilityType.Some? && b.utilityType.value != ""
      && b.source.Some? && b.source.value != ""
      && b.dueDate == ParseDueDate(GetOpt(entry, "due_date"), today, dateutil)
      && (b.paymentDue <==> b.dueDate.Some? && DateKey(b.dueDate.value) <= DateKey(today))
      && b.usage.None? && b.currentBalance.None? && b.lastPaymentDate.None?
  {
    var name := GetOpt(entry, "name");
    var source := GetOpt(entry, "source");
    if !Truthy(name) && !Truthy(source) then Ok(None)
    else
      var nameText :- TextOr(name);
      var sourceText :- TextOr(source);
      var (n, s) := NameAndSource(Strip(nameText), Strip(sourceText));
      Ok(Some(ManualBill(n, s, entry, today, dateutil, repr)))
  }

  /** The loop over `entries`: non-dicts and nameless entries are skipped; a
      raising entry ends the call. */
  function EntryBills(entries: seq<Value>, today: Date, dateutil: string -> Option<Date>, repr: Value -> string)
    : (r: Outcome<seq<Bill>>)
    requires ValidDate(today)
    ensures r.Ok? ==> |r.value| <= |entries|
    decreases |entries|
  {
    if |entries| == 0 then Ok([])
    else
      var head :- if entries[0].VObj? then EntryBill(entries[0].fields, today, dateutil, repr) else Ok(None);
      var tail :- EntryBills(entries[1..], today, dateutil, repr);
      Ok((if head.Some? then [head.value] else []) + tail)
  }

  /** `ManualBackend(config).get_bill_due_info()` on `today`. A missing or
      non-list `entries` gives no bills. */
  function GetBillDueInfo(config: Dict, today: Date, dateutil: string -> Option<Date>, repr: Value -> string)
    : (r: Outcome<seq<Bill>>)
    requires ValidDate(today)
    ensures !GetOpt(config, "entries").VList? ==> r == Ok([])
    ensures r.Ok? && GetOpt(config, "entries").VList? ==> |r.value| <= |GetOpt(config, "entries").items|
  {
    match GetOpt(config, "entries")
    case VList(items) => EntryBills(items, today, dateutil, repr)
    case _ => Ok([])
  }

  /** An entry with only a source uses it as its name too. */
  lemma {:induction false} SourceNamesEntry(entry: Dict, src: string, today: Date, dateutil: string -> Option<Date>, repr: Value -> string)
    requires ValidDate(today)
    requires "name" !in entry && "source" in entry && entry["source"] == VStr(src) && Strip(src) != ""
    ensures var r := EntryBill(entry, today, dateutil, repr);
      r.Ok? && r.value.Some? && r.value.value.utilityType == Some(Strip(src)) && r.value.value.source == Some(Strip(src))
  {
    assert |src| > 0;
    assert TextOr(GetOpt(entry, "name")) == Ok("");
    assert TextOr(GetOpt(entry, "source")) == Ok(src);
    assert Strip("") == "";
  }

  /** A name that is only blanks, with no source, falls back to "Manual" for
      both. */
  lemma {:induction false} BlankNameIsManual(entry: Dict, blanks: string, today: Date, dateutil: string -> Option<Date>, repr: Value -> string)
    requires ValidDate(today)
    requires "name" in entry && entry["name"] == VStr(blanks) && |blanks| > 0 && AllSpace(blanks)
    requires "source" !in entry
    ensures var r := EntryBill(entry, today, dateutil, repr);
      r.Ok? && r.value.Some? && r.value.value.utilityType == Some("Manual") && r.value.value.source == Some("Manual")
  {
    assert Strip(blanks) == "" by {
      AllSpaceStrips(blanks);
    }
  }

  /** A dict entry that has a name always yields a bill, and the others
      never depend on it. */
  lemma {:induction false} NamedEntryKept(e: Dict, rest: seq<Value>, today: Date, dateutil: string -> Option<Date>, repr: Value -> string)
    requires ValidDate(today)
    requires "name" in e && e["name"].VStr? && |e["name"].s| > 0
    requires !Truthy(GetOpt(e, "source")) || GetOpt(e, "source").VStr?
    requires EntryBills(rest, today, dateutil, repr).Ok?
    ensures var r := EntryBills([VObj(e)] + rest, today, dateutil, repr);
      r.Ok? && |r.value| == 1 + |EntryBills(rest, today, dateutil, repr).value|
      && r.value[1..] == EntryBills(rest, today, dateutil, repr).value
  {
    var es := [VObj(e)] + rest;
    assert es[0] == VObj(e) && es[1..] == rest;
    var h := EntryBill(e, today, dateutil, repr);
    assert h.Ok? && h.value.Some?;
  }

  // ---------------------------------------------------------------------------
  // As written: `BillDueInfo` declares no `usage`

  /** An entry the loop does not skip: it has a truthy name or source. */
  predicate Listed(v: Value) {
    v.VObj? && (Truthy(GetOpt(v.fields, "name")) || Truthy(GetOpt(v.fields, "source")))
  }

  /** `EntryBill` as written: the bill is built with `usage=None`, which the
      declared namedtuple refuses, so every entry that is not skipped raises
      (AttributeError first when a name or source is not text). */
  function EntryBillAsWritten(entry: Dict, today: Date, dateutil: string -> Option<Date>, repr: Value -> string)
    : (r: Outcome<Option<Bill>>)
    requires ValidDate(today)
    ensures r.Ok? <==> !Listed(VObj(entry))
    ensures r.Ok? ==> r.value.None?
    ensures r.Raised? ==> r.error == if NotText(GetOpt(entry, "name")) || NotText(GetOpt(entry, "source")) then AttributeError else TypeError
  {
    var name := GetOpt(entry, "name");
    var source := GetOpt(entry, "source");
    if !Truthy(name) && !Truthy(source) then Ok(None)
    else
      var nameText :- TextOr(name);
      var sourceText :- TextOr(source);
      var (n, s) := NameAndSource(Strip(nameText), Strip(sourceText));
      var bill := ManualBill(n, s, entry, today, dateutil, repr);
      UsageKeywordRaises(bill);
      match BuildAsDeclared(PassedFields, bill)
      case Raised(e) => Raised(e)
      case Ok(b) => Ok(Some(b))
  }

  /** The as-written entry fails exactly where the corrected one yields a
      bill, with TypeError, and agrees with it everywhere else. */
  lemma {:induction false} EntryBillAsWrittenAgrees(entry: Dict, today: Date, dateutil: string -> Option<Date>, repr: Value -> string)
    requires ValidDate(today)
    ensures var w := EntryBillAsWritten(entry, today, dateutil, repr);
      var c := EntryBill(entry, today, dateutil, repr);
      && (c.Ok? && c.value.Some? <==> w == Raised(TypeError))
      && (c.Raised? || c == Ok(None) ==> w == c)
  {
  }

  /** The loop as written: it gives a list only when every entry is skipped,
      and then the list is empty. */
  function EntryBillsAsWritten(entries: seq<Value>, today: Date, dateutil: string -> Option<Date>, repr: Value -> string)
    : (r: Outcome<seq<Bill>>)
    requires ValidDate(today)
    ensures r.Ok? <==> forall i | 0 <= i < |entries| :: !Listed(entries[i])
    ensures r.Ok? ==> r.value == []
    decreases |entries|
  {
    if |entries| == 0 then Ok([])
    else
      var head :- if entries[0].VObj? then EntryBillAsWritten(entries[0].fields, today, dateutil, repr) else Ok(None);
      var tail :- EntryBillsAsWritten(entries[1..], today, dateutil, repr);
      ListedShift(entries);
      // an entry that would give a bill has already raised
      Ok(tail)
  }

  lemma {:induction false} ListedShift(entries: seq<Value>)
    requires |entries| > 0
    ensures (forall i | 0 <= i < |entries| :: !Listed(entries[i])) <==>
      !Listed(entries[0]) && forall i | 0 <= i < |entries[1..]| :: !Listed(entries[1..][i])
  {
    if forall i | 0 <= i < |entries[1..]| :: !Listed(entries[1..][i]) {
      forall i | 1 <= i < |entries| ensures !Listed(entries[i]) {
        assert entries[i] == entries[1..][i - 1];
      }
    }
  }

  /** `ManualBackend(config).get_bill_due_info()` as written: a config with a
      named or sourced entry raises, one without gives no bills. */
  function GetBillDueInfoAsWritten(config: Dict, today: Date, dateutil: string -> Option<Date>, repr: Value -> string)
    : (r: Outcome<seq<Bill>>)
    requires ValidDate(today)
    ensures r.Ok? ==> r.value == []
    ensures r.Raised? <==> GetOpt(config, "entries").VList? && exists i | 0 <= i < |GetOpt(config, "entries").items| :: Listed(GetOpt(config, "entries").items[i])
  {
    match GetOpt(config, "entries")
    case VList(items) => EntryBillsAsWritten(items, today, dateutil, repr)
    case _ => Ok([])
  }

  /** As written, a named entry with text fields makes the whole call raise
      TypeError, whatever entries come after it. */
  lemma {:induction false} NamedEntryRaisesAsWritten(e: Dict, rest: seq<Value>, today: Date, dateutil: string -> Option<Date>, repr: Value -> string)
    requires ValidDate(today)
    requires "name" in e && e["name"].VStr? && |e["name"].s| > 0
    requires !Truthy(GetOpt(e, "source")) || GetOpt(e, "source").VStr?
    ensures EntryBillsAsWritten([VObj(e)] + rest, today, dateutil, repr) == Raised(TypeError)
  {
    var es := [VObj(e)] + rest;
    assert es[0] == VObj(e);
    NamedTextEntryRaises(e, today, dateutil, repr);
  }

  lemma {:induction false} NamedTextEntryRaises(e: Dict, today: Date, dateutil: string -> Option<Date>, repr: Value -> string)
    requires ValidDate(today)
    requires "name" in e && e["name"].VStr? && |e["name"].s| > 0
    requires !Truthy(GetOpt(e, "source")) || GetOpt(e, "source").VStr?
    ensures EntryBillAsWritten(e, today, dateutil, repr) == Raised(TypeError)
  {
    assert Listed(VObj(e)) && !NotText(GetOpt(e, "name")) && !NotText(GetOpt(e, "source"));
  }
}
