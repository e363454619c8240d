/** The text parsers shared by the scraping utilities backends
    (`backends/murphytx.py`, `backends/farmerselectric.py`,
    `backends/coserv.py`): the M/D/Y date reader, the first-pattern-wins due
    date search, and the usage reader over the "Mon YYYY<digits>" cells of
    the usage chart.

    The specific regular expressions are modelled as the token patterns
    they accept, read with Python's leftmost, greedy-with-backtracking
    semantics. The due-date patterns whose group is free text are given as
    searches (`Search`), and dateutil as an oracle.
 */
module BillText {
  import opened Wrappers
  import opened Text
  import opened Calendar
  import opened Sorting

  // ---------------------------------------------------------------------------
  // `_parse_date_text`

  /** The three groups of `(\d{1,2})/(\d{1,2})/(\d{2,4})`. */
  datatype Mdy = Mdy(month: nat, day: nat, year: nat)

  /** A one- or two-digit field that ends at a slash: returns the index of
      the slash. Greedy `\d{1,2}` followed by "/" can only succeed on a
      whole digit run of length one or two. */
  function ShortFieldAt(s: string, i: nat): (r: Option<nat>)
    requires i <= |s|
    ensures r.Some? ==> i + 1 <= r.value <= i + 2 && r.value < |s| && s[r.value] == '/'
    ensures r.Some? ==> AllDigits(s[i..r.value])
  {
    var a := DigitRun(s, i);
    if a - i < 1 || a - i > 2 || a >= |s| || s[a] != '/' then None else Some(a)
  }

  /** The pattern tried at position `i`: greedy `\d{2,4}` takes at most
      four digits of the year's run. */
  function MdyAt(s: string, i: nat): (r: Option<Mdy>)
    requires i <= |s|
  {
    match ShortFieldAt(s, i)
    case None => None
    case Some(a) =>
      match ShortFieldAt(s, a + 1)
      case None => None
      case Some(b) =>
        var c := DigitRun(s, b + 1);
        if c - (b + 1) < 2 then None
        else
          var e := if c - (b + 1) > 4 then b + 5 else c;
          assert forall k | b + 1 <= k < e :: s[k] == s[b + 1..c][k - (b + 1)];
          Some(Mdy(DigitsValue(s[i..a]), DigitsValue(s[a + 1..b]), DigitsValue(s[b + 1..e])))
  }

  /** `re.search`: the leftmost position at or after `i` where the pattern
      matches. */
  function SearchMdy(s: string, i: nat): (r: Option<(nat, Mdy)>)
    requires i <= |s|
    ensures r.Some? ==> i <= r.value.0 <= |s| && MdyAt(s, r.value.0) == Some(r.value.1)
    ensures r.Some? ==> forall k | i <= k < r.value.0 :: MdyAt(s, k).None?
    ensures r.None? ==> forall k | i <= k <= |s| :: MdyAt(s, k).None?
    decreases |s| - i
  {
    match MdyAt(s, i)
    case Some(m) => Some((i, m))
    case None => if i == |s| then None else SearchMdy(s, i + 1)
  }

  /** `date(y, mo, d)` after a two-digit year is moved into the 2000s; an
      impossible date is None rather than an exception. */
  function MdyDate(m: Mdy): (r: Option<Date>)
    ensures r.Some? <==> ValidDate(Date(if m.year < 100 then m.year + 2000 else m.year, m.month, m.day))
    ensures r.Some? ==> r.value == Date(if m.year < 100 then m.year + 2000 else m.year, m.month, m.day)
  {
    var y := if m.year < 100 then m.year + 2000 else m.year;
    if ValidDate(Date(y, m.month, m.day)) then Some(Date(y, m.month, m.day)) else None
  }

  /** `_parse_date_text(text)`: empty text is None; the first M/D/Y match
      decides; without one, dateutil reads the first 30 characters. */
  function ParseDateText(text: string, dateutil: string -> Option<Date>): (r: Option<Date>)
    ensures text == "" ==> r.None?
    ensures text != "" && SearchMdy(text, 0).Some? ==> r == MdyDate(SearchMdy(text, 0).value.1)
    ensures text != "" && SearchMdy(text, 0).None? ==> r == dateutil(text[..if |text| < 30 then |text| else 30])
  {
    if text == "" then None
    else match SearchMdy(text, 0)
      case Some((_, m)) => MdyDate(m)
      case None => dateutil(text[..if |text| < 30 then |text| else 30])
  }

  /** "M/D/YYYY" with unpadded month and day. */
  function MdyText(month: nat, day: nat, yearText: string): string {
    NatToString(month) + "/" + NatToString(day) + "/" + yearText
  }

  lemma {:induction false} ShortNumeral(n: nat)
    requires n < 100
    ensures 1 <= |NatToString(n)| <= 2 && AllDigits(NatToString(n))
    ensures DigitsValue(NatToString(n)) == n
  {
    DigitsValueOfNatToString(n);
    if n >= 10 {
      assert NatToString(n) == NatToString(n / 10) + [DigitChar(n % 10)];
    }
  }

  /** A one- or two-digit numeral followed by a slash. */
  lemma {:induction false} ShortFieldOf(s: string, i: nat, t: string)
    requires 1 <= |t| <= 2 && AllDigits(t) && i + |t| < |s|
    requires s[i..i + |t|] == t && s[i + |t|] == '/'
    ensures ShortFieldAt(s, i) == Some(i + |t|)
  {
    DigitRunOver(s, i, |t|);
  }

  /** Digit fields separated by slashes at `a` and `b` match field by
      field. */
  lemma {:induction false} MdyFields(s: string, a: nat, b: nat)
    requires 1 <= a <= 2 && a + 2 <= b <= a + 3 && b + 3 <= |s| <= b + 5
    requires AllDigits(s[..a]) && s[a] == '/' && AllDigits(s[a + 1..b]) && s[b] == '/' && AllDigits(s[b + 1..])
    ensures MdyAt(s, 0) == Some(Mdy(DigitsValue(s[..a]), DigitsValue(s[a + 1..b]), DigitsValue(s[b + 1..])))
  {
    DigitRunOver(s, 0, a);
    assert ShortFieldAt(s, 0) == Some(a);
    DigitRunOver(s, a + 1, b - a - 1);
    assert ShortFieldAt(s, a + 1) == Some(b);
    DigitRunOver(s, b + 1, |s| - b - 1);
    assert s[0..a] == s[..a] && s[b + 1..|s|] == s[b + 1..];
  }

  /** Digit fields joined by slashes match field by field. */
  lemma {:induction false} MdyPieces(ms: string, ds: string, ys: string)
    requires 1 <= |ms| <= 2 && 1 <= |ds| <= 2 && 2 <= |ys| <= 4
    requires AllDigits(ms) && AllDigits(ds) && AllDigits(ys)
    ensures MdyAt(ms + "/" + ds + "/" + ys, 0) == Some(Mdy(DigitsValue(ms), DigitsValue(ds), DigitsValue(ys)))
  {
    var p1 := ms + "/";
    var p2 := p1 + ds;
    var p3 := p2 + "/";
    var s := p3 + ys;
    var a := |ms|;
    var b := |p2|;
    assert s[..a] == ms by { assert s[..a] == p3[..a] == p2[..a] == p1[..a]; }
    assert s[a] == '/' by { assert s[a] == p3[a] == p2[a] == p1[a]; }
    assert s[a + 1..b] == ds by { assert s[a + 1..b] == p3[a + 1..b] == p2[a + 1..b]; }
    assert s[b] == '/' by { assert s[b] == p3[b]; }
    assert s[b + 1..] == ys;
    MdyFields(s, a, b);
  }

  /** A written "M/D/Y" with a 2-to-4-digit year is read field by field. */
  lemma {:induction false} MdyTextMatches(month: nat, day: nat, yearText: string)
    requires month < 100 && day < 100 && 2 <= |yearText| <= 4 && AllDigits(yearText)
    ensures MdyAt(MdyText(month, day, yearText), 0) == Some(Mdy(month, day, DigitsValue(yearText)))
  {
    ShortNumeral(month);
    ShortNumeral(day);
    MdyPieces(NatToString(month), NatToString(day), yearText);
  }

  /** A date written M/D/YYYY reads back as itself. */
  lemma {:induction false} MdyFourDigitYear(d: Date, dateutil: string -> Option<Date>)
    requires ValidDate(d) && 1000 <= d.year <= 9999
    ensures ParseDateText(MdyText(d.month, d.day, NatToString(d.year)), dateutil) == Some(d)
  {
    var yt := NatToString(d.year);
    DigitsValueOfNatToString(d.year);
    NumeralLength(d.year);
    MdyTextMatches(d.month, d.day, yt);
  }

  lemma {:induction false} NumeralLength(n: nat)
    requires 1000 <= n <= 9999
    ensures |NatToString(n)| == 4
  {
    assert NatToString(n) == NatToString(n / 10) + [DigitChar(n % 10)];
    assert NatToString(n / 10) == NatToString(n / 100) + [DigitChar(n / 10 % 10)];
    assert NatToString(n / 100) == NatToString(n / 1000) + [DigitChar(n / 100 % 10)];
  }

  /** A two-digit year YY is read as 20YY. */
  lemma {:induction false} MdyTwoDigitYear(month: nat, day: nat, y0: nat, y1: nat, dateutil: string -> Option<Date>)
    requires month < 100 && day < 100 && y0 < 10 && y1 < 10
    requires ValidDate(Date(2000 + 10 * y0 + y1, month, day))
    ensures ParseDateText(MdyText(month, day, [DigitChar(y0), DigitChar(y1)]), dateutil)
         == Some(Date(2000 + 10 * y0 + y1, month, day))
  {
    var yt := [DigitChar(y0), DigitChar(y1)];
    assert yt[..1] == [DigitChar(y0)] && yt[..1][..0] == [];
    assert DigitsValue(yt[..1]) == y0;
    assert DigitsValue(yt) == 10 * y0 + y1;
    MdyTextMatches(month, day, yt);
  }

  /** Month 13, or 31 February, is None rather than an error. */
  lemma {:induction false} ImpossibleDateIsNone(month: nat, day: nat, yearText: string, dateutil: string -> Option<Date>)
    requires month < 100 && day < 100 && 2 <= |yearText| <= 4 && AllDigits(yearText)
    requires month == 0 || month > 12 || day == 0 || day > 31
    ensures ParseDateText(MdyText(month, day, yearText), dateutil) == None
  {
    MdyTextMatches(month, day, yearText);
  }

  // ---------------------------------------------------------------------------
  // Due-date search: the patterns in order, the first that parses wins

  /** `re.search(pattern, text, re.I)` for one pattern: its first group. */
  type Search = string -> Option<string>

  predicate ParsesBy(search: Search, parse: string -> Option<Date>, text: string) {
    search(text).Some? && parse(search(text).value).Some?
  }

  /** The loop over the patterns: the index and date of the first pattern
      that both matches and parses. */
  function FirstParsed(searches: seq<Search>, parse: string -> Option<Date>, text: string): (r: Option<(nat, Date)>)
    ensures r.Some? ==> r.value.0 < |searches| && ParsesBy(searches[r.value.0], parse, text)
    ensures r.Some? ==> parse(searches[r.value.0](text).value) == Some(r.value.1)
    ensures r.Some? ==> forall k | 0 <= k < r.value.0 :: !ParsesBy(searches[k], parse, text)
    ensures r.None? <==> forall k | 0 <= k < |searches| :: !ParsesBy(searches[k], parse, text)
    decreases |searches|
  {
    if |searches| == 0 then None
    else if ParsesBy(searches[0], parse, text) then Some((0, parse(searches[0](text).value).value))
    else
      match FirstParsed(searches[1..], parse, text)
      case None => None
      case Some((k, d)) => Some((k + 1, d))
  }

  /** `_parse_due_date_from_bill_page` (Murphy TX): empty text is None;
      then the patterns in order through `_parse_date_text`; then dateutil
      on the stripped rest of the "due" line. */
  function MurphyDueDate(text: string, searches: seq<Search>, dueLine: Search,
                         dateutil: string -> Option<Date>): (r: Option<Date>)
    ensures text == "" ==> r.None?
    ensures text != "" && FirstParsed(searches, g => ParseDateText(g, dateutil), text).Some? ==>
      r == Some(FirstParsed(searches, g => ParseDateText(g, dateutil), text).value.1)
  {
    if text == "" then None
    else
      match FirstParsed(searches, g => ParseDateText(g, dateutil), text)
      case Some((_, d)) => Some(d)
      case None =>
        match dueLine(text)
        case None => None
        case Some(g) => var t := Strip(g); dateutil(t[..if |t| < 50 then |t| else 50])
  }

  /** A pattern that matches text which does not parse is passed over. */
  lemma {:induction false} UnparsedPatternSkipped(searches: seq<Search>, parse: string -> Option<Date>, text: string)
    requires |searches| > 0 && !ParsesBy(searches[0], parse, text)
    ensures FirstParsed(searches, parse, text).Some? <==> FirstParsed(searches[1..], parse, text).Some?
    ensures FirstParsed(searches[1..], parse, text).Some? ==>
      FirstParsed(searches, parse, text).value.1 == FirstParsed(searches[1..], parse, text).value.1
  {
  }

  /** `_parse_date_text(g) or _parse_date_month_name(g)`. */
  function EitherDate(g: string, dateutil: string -> Option<Date>, monthName: string -> Option<Date>): (r: Option<Date>)
    ensures ParseDateText(g, dateutil).Some? ==> r == ParseDateText(g, dateutil)
    ensures ParseDateText(g, dateutil).None? ==> r == monthName(g)
  {
    match ParseDateText(g, dateutil)
    case Some(d) => Some(d)
    case None => monthName(g)
  }

  /** `_parse_due_date_from_text` (SmartHub backends): the "Next Auto Pay
      Due Date" reading first, then the fallback patterns. */
  function SmartHubDueDate(text: string, autoPay: Search, searches: seq<Search>,
                           dateutil: string -> Option<Date>, monthName: string -> Option<Date>): (r: Option<Date>)
    ensures text == "" ==> r.None?
    ensures text != "" && ParsesBy(autoPay, monthName, text) ==> r == monthName(autoPay(text).value)
  {
    if text == "" then None
    else if ParsesBy(autoPay, monthName, text) then monthName(autoPay(text).value)
    else
      match FirstParsed(searches, g => EitherDate(g, dateutil, monthName), text)
      case Some((_, d)) => Some(d)
      case None => None
  }

  /** The auto-pay date wins whatever the fallback patterns would give;
      without it, the first fallback that parses does. */
  lemma {:induction false} AutoPayTakesPrecedence(text: string, autoPay: Search, searches: seq<Search>,
                               dateutil: string -> Option<Date>, monthName: string -> Option<Date>, k: nat)
    requires text != "" && !ParsesBy(autoPay, monthName, text)
    requires k < |searches| && ParsesBy(searches[k], g => EitherDate(g, dateutil, monthName), text)
    requires forall j | 0 <= j < k :: !ParsesBy(searches[j], g => EitherDate(g, dateutil, monthName), text)
    ensures SmartHubDueDate(text, autoPay, searches, dateutil, monthName)
         == EitherDate(searches[k](text).value, dateutil, monthName)
  {
    var p := g => EitherDate(g, dateutil, monthName);
    var r := FirstParsed(searches, p, text);
    assert r.Some?;
  }

  // ---------------------------------------------------------------------------
  // `_parse_usage_from_body`

  const MonthAbbrevs: seq<string> := ["jan", "feb", "mar", "apr", "may", "jun",
                                      "jul", "aug", "sep", "oct", "nov", "dec"]

  /** `_MONTH_TO_NUM`: the 1-based position of a lower-case abbreviation
      (`MonthNumberSpec`). */
  function MonthNumber(t: string): (r: Option<nat>)
    ensures r.Some? ==> 1 <= r.value <= 12
  {
    MonthIndexFrom(t, 0)
  }

  function MonthIndexFrom(t: string, k: nat): (r: Option<nat>)
    requires k <= 12
    ensures r.Some? ==> k + 1 <= r.value <= 12
    decreases 12 - k
  {
    if k == 12 then None
    else if MonthAbbrevs[k] == t then Some(k + 1)
    else MonthIndexFrom(t, k + 1)
  }

  lemma {:induction false} MonthIndexFromSpec(t: string, k: nat)
    requires k <= 12
    ensures var r := MonthIndexFrom(t, k);
      && (r.Some? ==> MonthAbbrevs[r.value - 1] == t)
      && (r.None? <==> forall j | k <= j < 12 :: MonthAbbrevs[j] != t)
    decreases 12 - k
  {
    if k < 12 && MonthAbbrevs[k] != t {
      MonthIndexFromSpec(t, k + 1);
    }
  }

  /** A month number names its abbreviation, and only the twelve
      abbreviations have one. */
  lemma {:induction false} MonthNumberSpec(t: string)
    ensures MonthNumber(t).Some? ==> MonthAbbrevs[MonthNumber(t).value - 1] == t
    ensures MonthNumber(t).None? <==> forall j | 0 <= j < 12 :: MonthAbbrevs[j] != t
  {
    MonthIndexFromSpec(t, 0);
  }

  lemma {:induction false} AbbrevsDistinct(a: nat, b: nat)
    requires a < 12 && b < 12 && MonthAbbrevs[a] == MonthAbbrevs[b]
    ensures a == b
  {
    var t := MonthAbbrevs[a];
    assert t[0] == MonthAbbrevs[b][0] && t[1] == MonthAbbrevs[b][1] && t[2] == MonthAbbrevs[b][2];
  }

  /** One match: (year, month number, usage digits). */
  datatype UsageRow = UsageRow(year: nat, month: nat, value: string)

  predicate WellFormedRow(r: UsageRow) {
    1 <= r.month <= 12 && |r.value| > 0 && AllDigits(r.value)
  }

  /** The month alternative at `i`, matched case-insensitively. */
  function MonthAt(s: string, i: nat): (r: Option<nat>)
    ensures r.Some? ==> 1 <= r.value <= 12 && i + 3 <= |s|
  {
    if i + 3 > |s| then None else MonthNumber(Lower(s[i..i + 3]))
  }

  /** `\s*(\d{4})\s*(\d+)` from `a`: the year, the usage digits and the
      index after them. Four digits are taken for the year; digits directly
      after them are the usage. */
  function YearAndValue(s: string, a: nat): (r: Option<(nat, string, nat)>)
    requires a <= |s|
    ensures r.Some? ==> a < r.value.2 <= |s| && |r.value.1| > 0 && AllDigits(r.value.1)
  {
    var y := SpaceRun(s, a);
    var b := DigitRun(s, y);
    if b - y < 4 then None
    else if b - y > 4 then
      assert forall k | y <= k < b :: s[k] == s[y..b][k - y];
      Some((DigitsValue(s[y..y + 4]), s[y + 4..b], b))
    else
      var c := SpaceRun(s, b);
      var e := DigitRun(s, c);
      if e == c then None else Some((DigitsValue(s[y..b]), s[c..e], e))
  }

  /** `(Jan|…|Dec)\s*(\d{4})\s*(\d+)`, case-insensitive, tried at `i`: the
      row and the index after the match. */
  function UsageAt(s: string, i: nat): (r: Option<(UsageRow, nat)>)
    requires i <= |s|
    ensures r.Some? ==> i < r.value.1 <= |s| && WellFormedRow(r.value.0)
  {
    var month := MonthAt(s, i);
    if month.None? then None
    else
      var yv := YearAndValue(s, i + 3);
      if yv.None? then None
      else Some((UsageRow(yv.value.0, month.value, yv.value.1), yv.value.2))
  }

  /** `finditer`: matches from `i` on, each search resuming where the last
      match ended. */
  function ScanUsage(s: string, i: nat): (rows: seq<UsageRow>)
    requires i <= |s|
    ensures forall k | 0 <= k < |rows| :: WellFormedRow(rows[k])
    decreases |s| - i
  {
    if i == |s| then []
    else
      match UsageAt(s, i)
      case Some((row, e)) => [row] + ScanUsage(s, e)
      case None => ScanUsage(s, i + 1)
  }

  /** The sort key `(year, month)` as one integer; months are 1..12. */
  function UsageKey(r: UsageRow): int {
    r.year * 12 + r.month
  }

  lemma {:induction false} UsageKeyOrdersYearMonth(a: UsageRow, b: UsageRow)
    requires WellFormedRow(a) && WellFormedRow(b)
    ensures UsageKey(a) <= UsageKey(b) <==> a.year < b.year || (a.year == b.year && a.month <= b.month)
  {
    if a.year < b.year {
      assert a.year * 12 + 12 <= b.year * 12;
    } else if a.year > b.year {
      assert b.year * 12 + 12 <= a.year * 12;
    }
  }

  /** Reference for "latest": the index of the last row whose key is the
      largest. */
  function LastMaxIndex(rows: seq<UsageRow>): (j: nat)
    requires |rows| > 0
    ensures j < |rows|
    ensures forall i | 0 <= i < |rows| :: UsageKey(rows[i]) <= UsageKey(rows[j])
    ensures forall i | j < i < |rows| :: UsageKey(rows[i]) < UsageKey(rows[j])
    decreases |rows|
  {
    if |rows| == 1 then 0
    else
      var j := LastMaxIndex(rows[..|rows| - 1]);
      assert forall i | 0 <= i < |rows| - 1 :: rows[..|rows| - 1][i] == rows[i];
      if UsageKey(rows[|rows| - 1]) >= UsageKey(rows[j]) then |rows| - 1 else j
  }

  /** `matches.sort(key=...)` then `matches[-1]`. */
  function LatestRow(rows: seq<UsageRow>): (r: UsageRow)
    requires |rows| > 0
  {
    var sorted := Sort(rows, ByKey(UsageKey));
    sorted[|sorted| - 1]
  }

  /** The last element of a sequence is the last of its own level. */
  lemma {:induction false} LastOfLevel<T>(xs: seq<T>, le: (T, T) -> bool)
    requires |xs| > 0 && le(xs[|xs| - 1], xs[|xs| - 1])
    ensures var l := Level(xs, xs[|xs| - 1], le); |l| > 0 && l[|l| - 1] == xs[|xs| - 1]
  {
    var n := |xs|;
    assert xs == xs[..n - 1] + [xs[n - 1]];
    LevelConcat(xs[..n - 1], [xs[n - 1]], xs[n - 1], le);
    assert Level([xs[n - 1]], xs[n - 1], le) == [xs[n - 1]];
  }

  lemma {:induction false} LevelNone<T>(xs: seq<T>, k: T, le: (T, T) -> bool)
    requires forall i | 0 <= i < |xs| :: !(le(xs[i], k) && le(k, xs[i]))
    ensures Level(xs, k, le) == []
    decreases |xs|
  {
    if |xs| > 0 {
      LevelNone(xs[1..], k, le);
    }
  }

  /** The last element after sorting carries the largest key. */
  lemma {:induction false} LatestHasMaxKey(rows: seq<UsageRow>)
    requires |rows| > 0
    ensures UsageKey(LatestRow(rows)) == UsageKey(rows[LastMaxIndex(rows)])
  {
    SortByKeyLast(rows, UsageKey);
    var x := LatestRow(rows);
    var i :| 0 <= i < |rows| && rows[i] == x;
  }

  /** No row after the last maximal one is level with the maximum. */
  lemma {:induction false} NothingLevelAfterMax(rows: seq<UsageRow>, x: UsageRow)
    requires |rows| > 0 && UsageKey(x) == UsageKey(rows[LastMaxIndex(rows)])
    ensures Level(rows[LastMaxIndex(rows) + 1..], x, ByKey(UsageKey)) == []
  {
    var le := ByKey(UsageKey);
    var m := LastMaxIndex(rows);
    var post := rows[m + 1..];
    forall i | 0 <= i < |post| ensures !(le(post[i], x) && le(x, post[i])) {
      assert post[i] == rows[m + 1 + i];
    }
    LevelNone(post, x, le);
  }

  /** Of the rows level with the largest key, the last is at `LastMaxIndex`. */
  lemma {:induction false} LastOfMaxLevel(rows: seq<UsageRow>, x: UsageRow)
    requires |rows| > 0 && UsageKey(x) == UsageKey(rows[LastMaxIndex(rows)])
    ensures var l := Level(rows, x, ByKey(UsageKey)); |l| > 0 && l[|l| - 1] == rows[LastMaxIndex(rows)]
  {
    var le := ByKey(UsageKey);
    var m := LastMaxIndex(rows);
    var pre := rows[..m + 1];
    var post := rows[m + 1..];
    assert rows == pre + post;
    LevelConcat(pre, post, x, le);
    NothingLevelAfterMax(rows, x);
    assert pre[|pre| - 1] == rows[m];
    LastOfLevel(pre, le);
    LevelSameKey(pre, rows[m], x);
  }

  /** The stable sort leaves, last, the last of the largest keys: the row
      of the latest (year, month), and of equal ones the last in the text. */
  lemma {:induction false} LatestIsLastMaximal(rows: seq<UsageRow>)
    requires |rows| > 0
    ensures LatestRow(rows) == rows[LastMaxIndex(rows)]
  {
    var le := ByKey(UsageKey);
    ByKeyIsPreorder(UsageKey);
    var s := Sort(rows, le);
    var x := s[|s| - 1];
    LatestHasMaxKey(rows);
    SortIsStable(rows, x, le);
    LastOfLevel(s, le);
    LastOfMaxLevel(rows, x);
  }

  lemma {:induction false} LevelSameKey(xs: seq<UsageRow>, k1: UsageRow, k2: UsageRow)
    requires UsageKey(k1) == UsageKey(k2)
    ensures Level(xs, k1, ByKey(UsageKey)) == Level(xs, k2, ByKey(UsageKey))
    decreases |xs|
  {
    if |xs| > 0 {
      LevelSameKey(xs[1..], k1, k2);
    }
  }

  /** The fallback `(\d+)\s*(?:w1|w2…)` searched case-insensitively: the
      digits of the leftmost match. The words are given in lower case. */
  predicate UnitWordAt(s: string, j: nat, words: seq<string>) {
    exists w | w in words :: j + |w| <= |s| && Lower(s[j..j + |w|]) == w
  }

  function FallbackAt(s: string, i: nat, words: seq<string>): (r: Option<string>)
    requires i <= |s|
    ensures r.Some? ==> |r.value| > 0 && AllDigits(r.value)
  {
    if i == |s| || !IsDigit(s[i]) then None
    else
      var a := DigitRun(s, i);
      if UnitWordAt(s, SpaceRun(s, a), words) then Some(s[i..a]) else None
  }

  function SearchFallback(s: string, i: nat, words: seq<string>): (r: Option<string>)
    requires i <= |s|
    ensures r.Some? ==> |r.value| > 0 && AllDigits(r.value)
    ensures r.None? ==> forall k | i <= k <= |s| :: FallbackAt(s, k, words).None?
    decreases |s| - i
  {
    match FallbackAt(s, i, words)
    case Some(v) => Some(v)
    case None => if i == |s| then None else SearchFallback(s, i + 1, words)
  }

  /** `f"{value} {unit}"`. */
  function Reported(value: string, unit: string): (r: string)
    ensures EndsWith(r, " " + unit) && StartsWith(r, value)
  {
    var r := value + " " + unit;
    assert r[|r| - |" " + unit|..] == " " + unit;
    assert r[..|value|] == value;
    r
  }

  /** `_parse_usage_from_body(body, unit)`: None for empty text; the latest
      month's usage when the chart has any; otherwise the first "N <word>";
      reported as "N <unit>". */
  function ParseUsage(body: string, words: seq<string>, unit: string): (r: Option<string>)
    ensures body == "" ==> r.None?
    ensures body != "" && |ScanUsage(body, 0)| > 0 ==>
      var rows := ScanUsage(body, 0); r == Some(Reported(rows[LastMaxIndex(rows)].value, unit))
    ensures body != "" && |ScanUsage(body, 0)| == 0 ==>
      (r.Some? <==> SearchFallback(body, 0, words).Some?)
    ensures r.Some? ==> EndsWith(r.value, " " + unit)
  {
    if body == "" then None
    else
      var rows := ScanUsage(body, 0);
      if |rows| > 0 then
        LatestIsLastMaximal(rows);
        Some(Reported(LatestRow(rows).value, unit))
      else
        match SearchFallback(body, 0, words)
        case Some(v) => Some(Reported(v, unit))
        case None => None
  }

  /** Farmers Electric: the unit is always kWh, and so is the fallback word. */
  function FarmersUsage(body: string): (r: Option<string>)
    ensures r.Some? ==> EndsWith(r.value, " kWh")
  {
    ParseUsage(body, ["kwh"], "kWh")
  }

  /** CoServ: the caller's unit; the fallback also accepts "unit(s)". */
  function CoServUsage(body: string, unit: string): (r: Option<string>)
    ensures r.Some? ==> EndsWith(r.value, " " + unit)
  {
    ParseUsage(body, ["kwh", "unit"], unit)
  }

  /** CoServ's unit: "therms" when the page mentions therms in any case. */
  function UsageUnit(body: string): (u: string)
    ensures u == "therms" <==> Contains(Lower(body), "therm")
    ensures u != "therms" ==> u == "units"
  {
    if Contains(Lower(body), "therm") then "therms" else "units"
  }

  /** A lower-case abbreviation is its own month. */
  lemma {:induction false} MonthAtAbbrev(s: string, i: nat, m: nat)
    requires 1 <= m <= 12 && i + 3 <= |s| && s[i..i + 3] == MonthAbbrevs[m - 1]
    ensures MonthAt(s, i) == Some(m)
  {
    var t := s[i..i + 3];
    assert Lower(t) == t by {
      assert Lower(t)[0] == t[0] && Lower(t)[1] == t[1] && Lower(t)[2] == t[2];
    }
    MonthNumberSpec(t);
    var r := MonthNumber(t);
    AbbrevsDistinct(r.value - 1, m - 1);
  }

  /** " YYYY N" at `a`: a blank, the four year digits, a blank and the
      usage digits, which end the text or a digit run. */
  predicate YearCellAt(s: string, a: nat, year: string, value: string) {
    && a + 6 + |value| <= |s| && |year| == 4 && AllDigits(year) && |value| > 0 && AllDigits(value)
    && s[a] == ' ' && s[a + 1..a + 5] == year && s[a + 5] == ' ' && s[a + 6..a + 6 + |value|] == value
    && (a + 6 + |value| == |s| || !IsDigit(s[a + 6 + |value|]))
  }

  lemma {:induction false} YearAndValueOf(s: string, a: nat, year: string, value: string)
    requires YearCellAt(s, a, year, value)
    ensures YearAndValue(s, a) == Some((DigitsValue(year), value, a + 6 + |value|))
  {
    assert s[a..a + 1] == " " && !IsSpace(s[a + 1]) by { assert IsDigit(year[0]); }
    SpaceRunOver(s, a, 1);
    assert !IsDigit(s[a + 5]);
    DigitRunOver(s, a + 1, 4);
    assert s[a + 5..a + 6] == " " && !IsSpace(s[a + 6]) by { assert IsDigit(value[0]); }
    SpaceRunOver(s, a + 5, 1);
    DigitRunOver(s, a + 6, |value|);
  }

  /** A usage chart cell "Mon YYYY N": matched at its start, once its
      first three letters name a month (`MonthAtAbbrev`). */
  lemma {:induction false} UsageCellMatches(s: string, i: nat, m: nat, year: string, value: string)
    requires i <= |s| && MonthAt(s, i) == Some(m) && YearCellAt(s, i + 3, year, value)
    ensures UsageAt(s, i) == Some((UsageRow(DigitsValue(year), m, value), i + 9 + |value|))
  {
    YearAndValueOf(s, i + 3, year, value);
  }
}
