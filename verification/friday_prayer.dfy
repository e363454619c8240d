/** The Friday-prayer scraping and display helpers:
    `friday_prayer/mosque_base.py` (`_get_suffix`, the page guard),
    `mosques/east_plano.py` and `mosques/sachse_islamic_center.py` (reading
    the Jumuah rows and formatting the `khutbah` text) and
    `friday_prayer_component.py` (reading that text back for display, and
    accepting background results).

    The HTML is taken as already traversed: a table is its rows, a row the
    stripped texts of its `td` cells; the full page text is given for the
    regular-expression fallback.
 */
module FridayPrayer {
  import opened Wrappers
  import opened Text
  import opened Values

  // ---------------------------------------------------------------------------
  // Ordinals and the khutbah text

  /** `_get_suffix`. */
  function Suffix(num: int): (r: string)
    ensures |r| == 2
    ensures r == "th" <==> num !in {1, 2, 3}
  {
    if num == 1 then "st" else if num == 2 then "nd" else if num == 3 then "rd" else "th"
  }

  /** `f"{i}{suffix}"`. */
  function Ordinal(i: nat): string {
    NatToString(i) + Suffix(i)
  }

  /** The three labels the formatters write. */
  lemma {:induction false} Ordinals()
    ensures Ordinal(1) == "1st" && Ordinal(2) == "2nd" && Ordinal(3) == "3rd"
    ensures Ordinal(4) == "4th"
  {
    assert NatToString(1) == "1" && NatToString(2) == "2" && NatToString(3) == "3" && NatToString(4) == "4";
  }

  /** Jumuah times found on a page, by number. */
  type Found = map<int, string>

  /** `found_times.get(i, "N/A")`. */
  function Slot(found: Found, i: int): string {
    if i in found then found[i] else "N/A"
  }

  /** `f"{i}{suffix} Jumuah: {time}"`. */
  function Entry(i: nat, time: string): string {
    Ordinal(i) + " Jumuah: " + time
  }

  /** East Plano's three entries, missing numbers as "N/A". */
  function Entries(found: Found): (r: seq<string>)
    ensures |r| == 3 && forall i | 1 <= i <= 3 :: r[i - 1] == Entry(i, Slot(found, i))
  {
    [Entry(1, Slot(found, 1)), Entry(2, Slot(found, 2)), Entry(3, Slot(found, 3))]
  }

  /** `", ".join(formatted_times)`. */
  function Khutbah(found: Found): (r: string)
    ensures r == Entry(1, Slot(found, 1)) + ", " + Entry(2, Slot(found, 2)) + ", " + Entry(3, Slot(found, 3))
  {
    JoinThree(Entry(1, Slot(found, 1)), Entry(2, Slot(found, 2)), Entry(3, Slot(found, 3)), ", ");
    Join(Entries(found), ", ")
  }

  // ---------------------------------------------------------------------------
  // Reading rows

  type Row = seq<string>
  type Table = seq<Row>

  /** `rows[1:]`: the rows after the header. */
  function Body(t: Table): (r: Table)
    ensures |r| == if |t| == 0 then 0 else |t| - 1
    ensures forall j | 0 <= j < |r| :: r[j] == t[j + 1]
  {
    if |t| == 0 then [] else t[1..]
  }

  /** The number a row's caption gives it, 0 for none. */
  type Classifier = string -> int

  /** The row carries a time: at least two cells and a numbered caption. */
  predicate Labelled(row: Row, number: Classifier, n: int) {
    |row| >= 2 && number(row[0]) == n
  }

  /** The loop over rows: a row with at least two cells and a numbered
      caption sets that number's time, later rows overwriting earlier ones. */
  function FoundIn(rows: seq<Row>, number: Classifier): (r: Found)
    ensures 0 !in r
    decreases |rows|
  {
    if |rows| == 0 then map[]
    else
      var acc := FoundIn(rows[..|rows| - 1], number);
      var row := rows[|rows| - 1];
      if |row| >= 2 && number(row[0]) != 0 then acc[number(row[0]) := row[1]] else acc
  }

  /** Each number's time is the second cell of the last row labelled with
      it; a number no row carries is absent. */
  lemma {:induction false} FoundInIsLastLabelled(rows: seq<Row>, number: Classifier, n: int)
    requires n != 0
    ensures n in FoundIn(rows, number) <==> exists j | 0 <= j < |rows| :: Labelled(rows[j], number, n)
    ensures n in FoundIn(rows, number) ==>
      exists j | 0 <= j < |rows| :: Labelled(rows[j], number, n) && FoundIn(rows, number)[n] == rows[j][1]
        && forall k | j < k < |rows| :: !Labelled(rows[k], number, n)
    decreases |rows|
  {
    if |rows| > 0 {
      var init := rows[..|rows| - 1];
      var last := |rows| - 1;
      FoundInIsLastLabelled(init, number, n);
      assert forall j | 0 <= j < |init| :: init[j] == rows[j];
      if Labelled(rows[last], number, n) {
        assert FoundIn(rows, number)[n] == rows[last][1];
      } else if n in FoundIn(rows, number) {
        var j :| 0 <= j < |init| && Labelled(init[j], number, n) && FoundIn(init, number)[n] == init[j][1]
                 && forall k | j < k < |init| :: !Labelled(init[k], number, n);
        assert Labelled(rows[j], number, n);
      }
    }
  }

  // ---------------------------------------------------------------------------
  // East Plano

  /** A Jumuah caption ("Jumuah" or "Jumu'ah") numbered by "1st", "2nd" or
      "3rd", tested in that order. */
  function EastPlanoNumber(caption: string): (r: int)
    ensures 0 <= r <= 3
    ensures r != 0 ==> Contains(caption, "Jumuah") || Contains(caption, "Jumu'ah")
    ensures r == 1 <==> (Contains(caption, "Jumuah") || Contains(caption, "Jumu'ah")) && Contains(caption, "1st")
  {
    if Contains(caption, "Jumuah") || Contains(caption, "Jumu'ah") then
      if Contains(caption, "1st") then 1
      else if Contains(caption, "2nd") then 2
      else if Contains(caption, "3rd") then 3
      else 0
    else 0
  }

  /** The parts of the page East Plano reads: None when there is no
      `main article`, else the tables inside it. */
  type EastPlanoPage = Option<seq<Table>>

  /** The table rows East Plano reads: the second table of the article,
      when there is one with a header and at least one more row. */
  function EastPlanoRows(page: EastPlanoPage): (r: Option<seq<Row>>)
    ensures r.Some? <==> page.Some? && |page.value| >= 2 && |page.value[1]| >= 2
    ensures r.Some? ==> r.value == page.value[1][1..]
  {
    match page
    case None => None
    case Some(tables) =>
      if |tables| < 2 then None
      else if |tables[1]| < 2 then None
      else Some(tables[1][1..])
  }

  /** `EastPlanoMosque.get_friday_times` after the fetch: the khutbah text,
      or None when the table is missing or holds no Jumuah row. */
  function EastPlanoTimes(page: EastPlanoPage): (r: Option<string>)
    ensures r.Some? <==> EastPlanoRows(page).Some? && |FoundIn(EastPlanoRows(page).value, EastPlanoNumber)| > 0
  {
    match EastPlanoRows(page)
    case None => None
    case Some(rows) =>
      var found := FoundIn(rows, EastPlanoNumber);
      if |found| == 0 then None else Some(Khutbah(found))
  }

  // ---------------------------------------------------------------------------
  // Reading the khutbah text back (`_parse_juma_times`)

  /** The number a part names: it must mention "Jumuah"; "1st", "2nd" and
      "3rd" are tested in that order. */
  function JumaNumber(part: string): (r: int)
    ensures 0 <= r <= 3
    ensures r != 0 ==> Contains(part, "Jumuah")
  {
    if !Contains(part, "Jumuah") then 0
    else if Contains(part, "1st") then 1
    else if Contains(part, "2nd") then 2
    else if Contains(part, "3rd") then 3
    else 0
  }

  /** The loop over the ", "-separated parts: a numbered part sets that
      number to its second ": "-separated field; a numbered part without
      one raises IndexError, caught, which ends the loop with what was
      found so far. */
  function ParseParts(parts: seq<string>, acc: Found): (r: Found)
    ensures r.Keys <= acc.Keys + {1, 2, 3}
    ensures (forall i | 0 <= i < |parts| :: !Contains(parts[i], "Jumuah")) ==> r == acc
    decreases |parts|
  {
    if |parts| == 0 then acc
    else
      var k := JumaNumber(parts[0]);
      if k == 0 then ParseParts(parts[1..], acc)
      else
        var fields := Split(parts[0], ": ");
        if |fields| < 2 then acc else ParseParts(parts[1..], acc[k := fields[1]])
  }

  /** `_parse_juma_times`. */
  function ParseJumaTimes(text: string): (r: Found)
    ensures r.Keys <= {1, 2, 3}
  {
    ParseParts(Split(text, ", "), map[])
  }

  /** A numbered part with no ": " stops the reading. */
  lemma {:induction false} PartWithoutFieldStops(part: string, rest: seq<string>, acc: Found)
    requires JumaNumber(part) != 0 && !Contains(part, ": ")
    ensures ParseParts([part] + rest, acc) == acc
  {
    SplitNoSep(part, ": ");
  }

  /** The three columns the component shows, "N/A" where a number is
      missing; a `khutbah` that is not text reads as nothing. */
  function Display(khutbah: Value): (r: (string, string, string))
    ensures !khutbah.VStr? ==> r == ("N/A", "N/A", "N/A")
  {
    var t := if khutbah.VStr? then ParseJumaTimes(khutbah.s) else map[];
    (Slot(t, 1), Slot(t, 2), Slot(t, 3))
  }

  // ---------------------------------------------------------------------------
  // Round trip

  /** A time that reads back unchanged: no ", " or ": " inside, and no
      "1st" or "2nd" that would renumber the entry. */
  predicate CleanTime(t: string) {
    !Contains(t, ", ") && !Contains(t, ": ") && !Contains(t, "1st") && !Contains(t, "2nd")
  }

  lemma {:induction false} NotAvailableIsClean()
    ensures CleanTime("N/A")
  {
    FirstCharAbsent("N/A", ", ");
    FirstCharAbsent("N/A", ": ");
    FirstCharAbsent("N/A", "1st");
    FirstCharAbsent("N/A", "2nd");
  }

  lemma {:induction false} EntryShape(i: nat, t: string)
    requires 1 <= i <= 3
    ensures Entry(i, t) == Ordinal(i) + " Jumuah" + ": " + t
    ensures Entry(i, t)[4..10] == "Jumuah"
    ensures Entry(i, t)[..3] == Ordinal(i)
  {
    Ordinals();
  }

  /** An entry splits into its caption and its time. */
  lemma {:induction false} EntryFields(i: nat, t: string)
    requires 1 <= i <= 3 && !Contains(t, ": ")
    ensures Split(Entry(i, t), ": ") == [Ordinal(i) + " Jumuah", t]
  {
    Ordinals();
    EntryShape(i, t);
    var caption := Ordinal(i) + " Jumuah";
    FirstCharAbsent(caption, ": ");
    SplitCons(caption, ": ", t);
    SplitNoSep(t, ": ");
  }

  /** The prefix in front of an entry's time. */
  function EntryHead(i: nat): string {
    Ordinal(i) + " Jumuah: "
  }

  lemma {:induction false} EntryHeads()
    ensures EntryHead(1) == "1st Jumuah: " && EntryHead(2) == "2nd Jumuah: " && EntryHead(3) == "3rd Jumuah: "
  {
    Ordinals();
  }

  lemma {:induction false} EntryHeadAppend(i: nat, t: string, sep: string)
    requires 1 <= i <= 3 && |sep| >= 2 && !Contains(t, sep)
    requires sep[0] !in EntryHead(i)
    requires forall k | 0 <= k < |sep| - 1 :: sep[k] != ' '
    ensures !Contains(Entry(i, t), sep)
  {
    Ordinals();
    var h := EntryHead(i);
    if i == 1 {
      assert h == "1st Jumuah: ";
    } else if i == 2 {
      assert h == "2nd Jumuah: ";
    } else {
      assert h == "3rd Jumuah: ";
    }
    assert h[|h| - 1] == ' ';
    FirstCharAbsent(h, sep);
    NotContainsAppend(h, t, sep);
  }

  /** Each entry is read back as its own number. */
  lemma {:induction false} EntryNumber(i: nat, t: string)
    requires 1 <= i <= 3 && CleanTime(t)
    ensures JumaNumber(Entry(i, t)) == i
  {
    Ordinals();
    EntryShape(i, t);
    var e := Entry(i, t);
    EntryHeads();
    ContainsAt(e, "Jumuah", 4);
    ContainsAt(e, Ordinal(i), 0);
    if i >= 2 {
      EntryHeadAppend(i, t, "1st");
    }
    if i == 3 {
      EntryHeadAppend(i, t, "2nd");
    }
  }

  /** No entry of clean times holds the part separator. */
  lemma {:induction false} EntriesSeparable(found: Found)
    requires forall i | 1 <= i <= 3 :: CleanTime(Slot(found, i))
    ensures forall j | 0 <= j < 3 :: !Contains(Entries(found)[j], ", ")
  {
    EntryHeads();
    EntryHeadAppend(1, Slot(found, 1), ", ");
    EntryHeadAppend(2, Slot(found, 2), ", ");
    EntryHeadAppend(3, Slot(found, 3), ", ");
  }

  /** Reading back a khutbah text recovers each of the three slots, "N/A"
      for the missing numbers, whenever the times are clean. */
  lemma {:induction false} KhutbahRoundTrip(found: Found)
    requires forall i | i in found && 1 <= i <= 3 :: CleanTime(found[i])
    ensures ParseJumaTimes(Khutbah(found)) == map[1 := Slot(found, 1), 2 := Slot(found, 2), 3 := Slot(found, 3)]
  {
    NotAvailableIsClean();
    assert forall i | 1 <= i <= 3 :: CleanTime(Slot(found, i));
    var e := Entries(found);
    EntriesSeparable(found);
    SplitJoin(e, ", ");
    EntryNumber(1, Slot(found, 1));
    EntryNumber(2, Slot(found, 2));
    EntryNumber(3, Slot(found, 3));
    EntryFields(1, Slot(found, 1));
    EntryFields(2, Slot(found, 2));
    EntryFields(3, Slot(found, 3));
    assert e[1..][1..] == [e[2]];
    assert ParseParts([e[2]], map[1 := Slot(found, 1), 2 := Slot(found, 2)])
        == map[1 := Slot(found, 1), 2 := Slot(found, 2), 3 := Slot(found, 3)];
  }

  /** What the component shows for an East Plano page is what the table
      held, number by number. */
  lemma {:induction false} EastPlanoDisplayed(page: EastPlanoPage)
    requires EastPlanoTimes(page).Some?
    requires forall i | i in FoundIn(EastPlanoRows(page).value, EastPlanoNumber) && 1 <= i <= 3 ::
      CleanTime(FoundIn(EastPlanoRows(page).value, EastPlanoNumber)[i])
    ensures var found := FoundIn(EastPlanoRows(page).value, EastPlanoNumber);
      Display(VStr(EastPlanoTimes(page).value)) == (Slot(found, 1), Slot(found, 2), Slot(found, 3))
  {
    KhutbahRoundTrip(FoundIn(EastPlanoRows(page).value, EastPlanoNumber));
  }

  // ---------------------------------------------------------------------------
  // Sachse Islamic Center

  /** `_parse_table_rows`' caption test: "1st", or a "1" together with
      "Jumuah"; then the same for 2 and 3. */
  function SachseNumber(caption: string): (r: int)
    ensures 0 <= r <= 3
    ensures r == 1 <==> Contains(caption, "1st") || (Contains(caption, "1") && Contains(caption, "Jumuah"))
  {
    if Contains(caption, "1st") || (Contains(caption, "1") && Contains(caption, "Jumuah")) then 1
    else if Contains(caption, "2nd") || (Contains(caption, "2") && Contains(caption, "Jumuah")) then 2
    else if Contains(caption, "3rd") || (Contains(caption, "3") && Contains(caption, "Jumuah")) then 3
    else 0
  }

  /** Because the digit test comes first, a second-Jumuah caption that also
      holds a "1" (a time such as "2nd Jumuah 1:30") counts as the first. */
  lemma {:induction false} SachseDigitBeforeOrdinal()
    ensures SachseNumber("2nd Jumuah 1:30") == 1
  {
    var s := "2nd Jumuah 1:30";
    ContainsAt(s, "1", 11);
    ContainsAt(s, "Jumuah", 4);
  }

  /** A classifier with values in 0..3 numbers rows 1, 2 or 3. */
  lemma {:induction false} FoundInNumbers(rows: seq<Row>, number: Classifier)
    requires forall x :: 0 <= number(x) <= 3
    ensures FoundIn(rows, number).Keys <= {1, 2, 3}
    decreases |rows|
  {
    if |rows| > 0 {
      FoundInNumbers(rows[..|rows| - 1], number);
    }
  }

  /** `_parse_table_rows`. */
  function ParseTableRows(t: Table): (r: Found)
    ensures r.Keys <= {1, 2, 3}
  {
    FoundInNumbers(Body(t), SachseNumber);
    FoundIn(Body(t), SachseNumber)
  }

  /** Strategy 3: the first table whose rows give a time, else nothing. */
  function FirstTableWithTimes(tables: seq<Table>): (r: Found)
    ensures |r| > 0 <==> exists i | 0 <= i < |tables| :: |ParseTableRows(tables[i])| > 0
    ensures |r| > 0 ==>
      exists i | 0 <= i < |tables| :: r == ParseTableRows(tables[i]) && forall j | 0 <= j < i :: |ParseTableRows(tables[j])| == 0
  {
    var found := seq(|tables|, i requires 0 <= i < |tables| => ParseTableRows(tables[i]));
    assert forall i | 0 <= i < |tables| :: found[i] == ParseTableRows(tables[i]);
    FirstNonEmpty(found)
  }

  /** The first non-empty result in `found`, else the empty map. */
  function FirstNonEmpty(found: seq<Found>): (r: Found)
    ensures |r| > 0 <==> exists i | 0 <= i < |found| :: |found[i]| > 0
    ensures |r| > 0 ==> exists i | 0 <= i < |found| :: r == found[i] && forall j | 0 <= j < i :: |found[j]| == 0
    decreases |found|
  {
    if |found| == 0 then map[]
    else if |found[0]| > 0 then found[0]
    else
      var r := FirstNonEmpty(found[1..]);
      FirstNonEmptyShift(found, r);
      r
  }

  /** An empty result in front leaves the first non-empty one, and its
      position after the skipped ones, as they were. */
  lemma {:induction false} FirstNonEmptyShift(found: seq<Found>, r: Found)
    requires |found| > 0 && |found[0]| == 0
    requires |r| > 0 <==> exists i | 0 <= i < |found| - 1 :: |found[1..][i]| > 0
    requires |r| > 0 ==>
      exists i | 0 <= i < |found| - 1 :: r == found[1..][i] && forall j | 0 <= j < i :: |found[1..][j]| == 0
    ensures |r| > 0 <==> exists i | 0 <= i < |found| :: |found[i]| > 0
    ensures |r| > 0 ==> exists i | 0 <= i < |found| :: r == found[i] && forall j | 0 <= j < i :: |found[j]| == 0
  {
    var rest := found[1..];
    if exists i | 0 <= i < |found| :: |found[i]| > 0 {
      var i :| 0 <= i < |found| && |found[i]| > 0;
      assert i > 0 && rest[i - 1] == found[i];
    }
    if |r| > 0 {
      var i :| 0 <= i < |rest| && r == rest[i] && forall j | 0 <= j < i :: |rest[j]| == 0;
      assert found[i + 1] == rest[i];
      forall j | 0 <= j < i + 1
        ensures |found[j]| == 0
      {
        if j > 0 {
          assert found[j] == rest[j - 1];
        }
      }
    }
  }

  // The regular expression `(1st|2nd|3rd)\s+Jumu[\']?ah\s*[-–]\s*(\d{1,2}:\d{2})`
  // with IGNORECASE, read as the tokens it accepts.

  /** `s[i..i+|w|]` equals the lower-case word `w` ignoring case. */
  predicate WordAt(s: string, i: nat, w: string) {
    i + |w| <= |s| && Lower(s[i..i + |w|]) == w
  }

  /** The `(\d{1,2}:\d{2})` group from `p`: one or two digits, a colon,
      two digits; its end. */
  function ClockAt(s: string, p: nat): (e: Option<nat>)
    requires p <= |s|
    ensures e.Some? ==> p + 4 <= e.value <= p + 5 && e.value <= |s|
    ensures e.Some? ==> AllDigits(s[p..e.value - 3]) && s[e.value - 3] == ':'
                        && IsDigit(s[e.value - 2]) && IsDigit(s[e.value - 1])
  {
    var d := DigitRun(s, p) - p;
    if (d == 1 || d == 2) && p + d + 3 <= |s| && s[p + d] == ':' && IsDigit(s[p + d + 1]) && IsDigit(s[p + d + 2])
    then Some(p + d + 3)
    else None
  }

  /** A match starting at `i`: the ordinal as written, the time and the
      match's end. */
  datatype JumuahMatch = JumuahMatch(ordinal: string, time: string, end: nat)

  function MatchAt(s: string, i: nat): (m: Option<JumuahMatch>)
    requires i <= |s|
    ensures m.Some? ==> i + 3 < m.value.end <= |s| && m.value.ordinal == s[i..i + 3]
    ensures m.Some? ==> WordAt(s, i, "1st") || WordAt(s, i, "2nd") || WordAt(s, i, "3rd")
  {
    if !(WordAt(s, i, "1st") || WordAt(s, i, "2nd") || WordAt(s, i, "3rd")) then None
    else
      var j := SpaceRun(s, i + 3);
      if j == i + 3 || !WordAt(s, j, "jumu") then None
      else
        var k := if j + 4 < |s| && s[j + 4] == '\'' then j + 5 else j + 4;
        if !WordAt(s, k, "ah") then None
        else
          var m := SpaceRun(s, k + 2);
          if m == |s| || !(s[m] == '-' || s[m] == '–') then None
          else
            var p := SpaceRun(s, m + 1);
            match ClockAt(s, p)
            case None => None
            case Some(e) => Some(JumuahMatch(s[i..i + 3], s[p..e], e))
  }

  /** `{'1st': 1, '2nd': 2, '3rd': 3}.get(ordinal, 0)`: exact text only. */
  function OrdinalNumber(o: string): (r: int)
    ensures r != 0 <==> o in {"1st", "2nd", "3rd"}
  {
    if o == "1st" then 1 else if o == "2nd" then 2 else if o == "3rd" then 3 else 0
  }

  /** `re.finditer` from `i`: leftmost matches, each search resuming at
      the previous match's end; a match whose ordinal is not in lower case
      is skipped by the lookup. */
  function ScanFrom(s: string, i: nat, acc: Found): (r: Found)
    requires i <= |s|
    ensures acc.Keys <= r.Keys <= acc.Keys + {1, 2, 3}
    decreases |s| - i
  {
    if i == |s| then acc
    else
      match MatchAt(s, i)
      case Some(m) =>
        var n := OrdinalNumber(m.ordinal);
        ScanFrom(s, m.end, if n != 0 then acc[n := m.time] else acc)
      case None => ScanFrom(s, i + 1, acc)
  }

  /** Strategy 4 over the page text. */
  function RegexTimes(text: string): (r: Found)
    ensures r.Keys <= {1, 2, 3}
  {
    ScanFrom(text, 0, map[])
  }

  lemma {:induction false} OneSpace(s: string, i: nat)
    requires i + 1 < |s| && s[i] == ' ' && !IsSpace(s[i + 1])
    ensures SpaceRun(s, i) == i + 1
  {
    assert s[i..i + 1][0] == s[i];
    SpaceRunOver(s, i, 1);
  }

  lemma {:induction false} LowerIs(s: string, w: string)
    requires |s| == |w| && forall i | 0 <= i < |s| :: LowerChar(s[i]) == w[i]
    ensures Lower(s) == w
  {
  }

  /** The page example the strategy is written for. */
  lemma {:induction false} RegexReadsSecondJumuah()
    ensures RegexTimes("2nd Jumuah - 02:15") == map[2 := "02:15"]
  {
    var s := "2nd Jumuah - 02:15";
    LowerIs(s[0..3], "2nd");
    assert WordAt(s, 0, "2nd");
    OneSpace(s, 3);
    LowerIs(s[4..8], "jumu");
    assert WordAt(s, 4, "jumu");
    assert s[8] != '\'';
    LowerIs(s[8..10], "ah");
    assert WordAt(s, 8, "ah");
    OneSpace(s, 10);
    assert s[11] == '-';
    OneSpace(s, 12);
    DigitRunOver(s, 13, 2);
    assert ClockAt(s, 13) == Some(18);
    assert s[0..3] == "2nd" && s[13..18] == "02:15";
    assert MatchAt(s, 0) == Some(JumuahMatch("2nd", "02:15", 18));
    assert OrdinalNumber("2nd") == 2;
  }

  /** Case is ignored when matching but not in the ordinal lookup: an
      upper-case "1ST" matches and is then dropped. */
  lemma {:induction false} UpperCaseOrdinalDropped()
    ensures RegexTimes("1ST Jumuah - 1:15") == map[]
  {
    var s := "1ST Jumuah - 1:15";
    LowerIs(s[0..3], "1st");
    assert WordAt(s, 0, "1st");
    OneSpace(s, 3);
    LowerIs(s[4..8], "jumu");
    assert WordAt(s, 4, "jumu");
    assert s[8] != '\'';
    LowerIs(s[8..10], "ah");
    assert WordAt(s, 8, "ah");
    OneSpace(s, 10);
    assert s[11] == '-';
    OneSpace(s, 12);
    DigitRunOver(s, 13, 1);
    assert ClockAt(s, 13) == Some(17);
    assert s[0..3] == "1ST" && s[13..17] == "1:15";
    assert MatchAt(s, 0) == Some(JumuahMatch("1ST", "1:15", 17));
    assert OrdinalNumber("1ST") == 0;
  }

  /** What the Sachse reader sees of a page: the first table of class
      `prayer_table`, the tables of `main article` (None without one), every
      table, and the page text. */
  datatype SachsePage = SachsePage(prayerTable: Option<Table>, mainTables: Option<seq<Table>>,
                                   tables: seq<Table>, text: string)

  /** The four strategies in order; each runs only when the ones before it
      found nothing. */
  function SachseFound(page: SachsePage): (r: Found)
    ensures r.Keys <= {1, 2, 3}
    ensures page.prayerTable.Some? && |ParseTableRows(page.prayerTable.value)| > 0 ==>
      r == ParseTableRows(page.prayerTable.value)
    ensures |r| == 0 ==> |RegexTimes(page.text)| == 0 && |FirstTableWithTimes(page.tables)| == 0
  {
    var s1 := if page.prayerTable.Some? then ParseTableRows(page.prayerTable.value) else map[];
    var s2 := if |s1| > 0 then s1
              else if page.mainTables.Some? && |page.mainTables.value| >= 2 then ParseTableRows(page.mainTables.value[1])
              else s1;
    var s3 := if |s2| > 0 then s2 else FirstTableWithTimes(page.tables);
    if |s3| > 0 then s3 else RegexTimes(page.text)
  }

  /** The page text is searched only when no table gave a time. */
  lemma {:induction false} RegexOnlyAsLastResort(page: SachsePage)
    requires |FirstTableWithTimes(page.tables)| > 0
    ensures |SachseFound(page)| > 0
  {
  }

  /** Sachse's entry as written: `f"..." + " PM" if time != "N/A" else ""`
      parses as `(f"..." + " PM") if ... else ""`, so a missing number
      leaves an empty entry. */
  function SachseEntryAsWritten(i: nat, time: string): string {
    if time != "N/A" then Entry(i, time) + " PM" else ""
  }

  function SachseKhutbahAsWritten(found: Found): (r: string)
    ensures Slot(found, 2) == "N/A" && Slot(found, 3) == "N/A" ==> r == SachseEntryAsWritten(1, Slot(found, 1)) + ", , "
  {
    var e1, e2, e3 := SachseEntryAsWritten(1, Slot(found, 1)), SachseEntryAsWritten(2, Slot(found, 2)),
                      SachseEntryAsWritten(3, Slot(found, 3));
    JoinThree(e1, e2, e3, ", ");
    Join([e1, e2, e3], ", ")
  }

  /** A page with only the first Jumuah gives a text that names neither the
      second nor the third. */
  lemma {:induction false} SachseAsWrittenDropsMissing()
    ensures SachseKhutbahAsWritten(map[1 := "1:15"]) == "1st Jumuah: 1:15 PM, , "
  {
    var found := map[1 := "1:15"];
    Ordinals();
    assert Slot(found, 1) == "1:15" && Slot(found, 2) == "N/A" && Slot(found, 3) == "N/A";
    var first := SachseEntryAsWritten(1, "1:15");
    assert first == "1st Jumuah: 1:15 PM";
    JoinThree(first, "", "", ", ");
  }

  lemma {:induction false} JoinThree(a: string, b: string, c: string, sep: string)
    ensures Join([a, b, c], sep) == a + sep + b + sep + c
  {
    assert [a, b, c][1..] == [b, c] && [b, c][1..] == [c];
    assert Join([b, c], sep) == b + sep + c;
  }

  /** Sachse's entry as evidently intended: the time, with " PM" when
      present, "N/A" when missing. */
  function SachseEntry(i: nat, time: string): string {
    Entry(i, if time != "N/A" then time + " PM" else time)
  }

  function SachseSlot(found: Found, i: int): string {
    if i in found && found[i] != "N/A" then found[i] + " PM" else "N/A"
  }

  function SachseKhutbah(found: Found): string {
    Join([SachseEntry(1, Slot(found, 1)), SachseEntry(2, Slot(found, 2)), SachseEntry(3, Slot(found, 3))], ", ")
  }

  /** The corrected text has East Plano's shape, every number listed. */
  lemma {:induction false} SachseKhutbahShape(found: Found)
    ensures SachseKhutbah(found) == Khutbah(map i | i in {1, 2, 3} :: SachseSlot(found, i))
  {
    var pm := map i | i in {1, 2, 3} :: SachseSlot(found, i);
    assert forall i | 1 <= i <= 3 :: SachseEntry(i, Slot(found, i)) == Entry(i, Slot(pm, i));
    assert Entries(pm) == [SachseEntry(1, Slot(found, 1)), SachseEntry(2, Slot(found, 2)), SachseEntry(3, Slot(found, 3))];
  }

  /** Reading back the corrected Sachse text recovers every number, "N/A"
      for the missing ones. */
  lemma {:induction false} SachseRoundTrip(found: Found)
    requires forall i | i in found && 1 <= i <= 3 :: CleanTime(found[i] + " PM")
    ensures ParseJumaTimes(SachseKhutbah(found)) == map[1 := SachseSlot(found, 1), 2 := SachseSlot(found, 2), 3 := SachseSlot(found, 3)]
  {
    var pm := map i | i in {1, 2, 3} :: SachseSlot(found, i);
    SachseKhutbahShape(found);
    NotAvailableIsClean();
    KhutbahRoundTrip(pm);
  }

  /** `SachseIslamicCenterMosque.get_friday_times` after the fetch, as
      written: a missing number leaves an empty entry. */
  function SachseTimes(page: SachsePage): (r: Option<string>)
    ensures r.Some? <==> |SachseFound(page)| > 0
    ensures r.Some? ==> ParseJumaTimes(r.value).Keys <= {1, 2, 3}
    ensures r.Some? && (forall i | i in SachseFound(page) && 1 <= i <= 3 :: CleanTime(SachseFound(page)[i] + " PM")) ==>
      ParseJumaTimes(r.value) == AsWrittenReadBack(SachseFound(page))
  {
    var found := SachseFound(page);
    if |found| == 0 then None
    else
      SachseAsWrittenCleanReadsBack(found);
      Some(SachseKhutbahAsWritten(found))
  }

  lemma {:induction false} SachseAsWrittenCleanReadsBack(found: Found)
    ensures (forall i | i in found && 1 <= i <= 3 :: CleanTime(found[i] + " PM")) ==>
      ParseJumaTimes(SachseKhutbahAsWritten(found)) == AsWrittenReadBack(found)
  {
    if forall i | i in found && 1 <= i <= 3 :: CleanTime(found[i] + " PM") {
      SachseAsWrittenReadsBack(found);
    }
  }

  /** What the component reads back from the as-written text: the numbers
      that were found, each with " PM"; the missing ones are absent rather
      than "N/A". */
  function AsWrittenReadBack(found: Found): (r: Found)
    ensures r.Keys == set i | i in found && 1 <= i <= 3 && found[i] != "N/A"
  {
    map i | i in found && 1 <= i <= 3 && found[i] != "N/A" :: found[i] + " PM"
  }

  /** Reading back the as-written Sachse text: the empty entries of missing
      numbers mention no Jumuah and are skipped, so only the numbers found
      come back. */
  lemma {:induction false} SachseAsWrittenReadsBack(found: Found)
    requires forall i | i in found && 1 <= i <= 3 :: CleanTime(found[i] + " PM")
    ensures ParseJumaTimes(SachseKhutbahAsWritten(found)) == AsWrittenReadBack(found)
  {
    var e1 := SachseEntryAsWritten(1, Slot(found, 1));
    var e2 := SachseEntryAsWritten(2, Slot(found, 2));
    var e3 := SachseEntryAsWritten(3, Slot(found, 3));
    AsWrittenEntrySeparable(1, found);
    AsWrittenEntrySeparable(2, found);
    AsWrittenEntrySeparable(3, found);
    SplitJoin([e1, e2, e3], ", ");
    var a1 := AsWrittenStep(map[], found, 1);
    var a2 := AsWrittenStep(a1, found, 2);
    var a3 := AsWrittenStep(a2, found, 3);
    AsWrittenPart(1, found, [e2, e3], map[]);
    AsWrittenPart(2, found, [e3], a1);
    AsWrittenPart(3, found, [], a2);
    assert [e1, e2, e3] == [e1] + [e2, e3] && [e2, e3] == [e2] + [e3] && [e3] == [e3] + [];
    assert ParseParts([], a3) == a3;
    AsWrittenStepsAll(found);
  }

  /** Recording the three slots one by one gives the read-back map. */
  lemma {:induction false} AsWrittenStepsAll(found: Found)
    ensures AsWrittenStep(AsWrittenStep(AsWrittenStep(map[], found, 1), found, 2), found, 3) == AsWrittenReadBack(found)
  {
    var a3 := AsWrittenStep(AsWrittenStep(AsWrittenStep(map[], found, 1), found, 2), found, 3);
    var b := AsWrittenReadBack(found);
    forall i
      ensures i in a3 <==> i in b
      ensures i in a3 ==> a3[i] == b[i]
    {
      if 1 <= i <= 3 && Slot(found, i) != "N/A" {
        assert i in found && found[i] != "N/A";
      }
    }
  }

  /** The slot `i` recorded after reading its as-written entry. */
  function AsWrittenStep(acc: Found, found: Found, i: int): Found {
    if Slot(found, i) != "N/A" then acc[i := Slot(found, i) + " PM"] else acc
  }

  lemma {:induction false} AsWrittenEntrySeparable(i: nat, found: Found)
    requires 1 <= i <= 3
    requires forall j | j in found && 1 <= j <= 3 :: CleanTime(found[j] + " PM")
    ensures !Contains(SachseEntryAsWritten(i, Slot(found, i)), ", ")
  {
    var t := Slot(found, i);
    if t != "N/A" {
      EntryHeads();
      assert Entry(i, t) + " PM" == Entry(i, t + " PM");
      EntryHeadAppend(i, t + " PM", ", ");
    } else {
      FirstCharAbsent("", ", ");
    }
  }

  /** One as-written entry read: an entry is recorded under its number, an
      empty one is skipped. */
  lemma {:induction false} AsWrittenPart(i: nat, found: Found, rest: seq<string>, acc: Found)
    requires 1 <= i <= 3
    requires forall j | j in found && 1 <= j <= 3 :: CleanTime(found[j] + " PM")
    ensures ParseParts([SachseEntryAsWritten(i, Slot(found, i))] + rest, acc) == ParseParts(rest, AsWrittenStep(acc, found, i))
  {
    var t := Slot(found, i);
    var part := SachseEntryAsWritten(i, t);
    assert ([part] + rest)[0] == part && ([part] + rest)[1..] == rest;
    if t != "N/A" {
      assert part == Entry(i, t + " PM");
      EntryNumber(i, t + " PM");
      EntryFields(i, t + " PM");
    } else {
      FirstCharAbsent("", "Jumuah");
    }
  }

  /** The component with the corrected formatting: every number listed,
      "N/A" where it is missing. */
  function SachseTimesIntended(page: SachsePage): (r: Option<string>)
    ensures r.Some? <==> |SachseFound(page)| > 0
    ensures r.Some? && (forall i | i in SachseFound(page) && 1 <= i <= 3 :: CleanTime(SachseFound(page)[i] + " PM")) ==>
      var found := SachseFound(page);
      ParseJumaTimes(r.value) == map[1 := SachseSlot(found, 1), 2 := SachseSlot(found, 2), 3 := SachseSlot(found, 3)]
  {
    var found := SachseFound(page);
    if |found| == 0 then None
    else
      SachseCleanRoundTrip(found);
      Some(SachseKhutbah(found))
  }

  lemma {:induction false} SachseCleanRoundTrip(found: Found)
    ensures (forall i | i in found && 1 <= i <= 3 :: CleanTime(found[i] + " PM")) ==>
      ParseJumaTimes(SachseKhutbah(found)) == map[1 := SachseSlot(found, 1), 2 := SachseSlot(found, 2), 3 := SachseSlot(found, 3)]
  {
    if forall i | i in found && 1 <= i <= 3 :: CleanTime(found[i] + " PM") {
      SachseRoundTrip(found);
    }
  }

  // ---------------------------------------------------------------------------
  // The page guard and the component

  /** The common frame of `get_friday_times`: no URL or no content means
      None; content that is not text cannot be parsed and is None too. */
  function PageTimes(url: Value, content: Value, read: string -> Option<string>): (r: Option<string>)
    ensures !Truthy(url) || !Truthy(content) ==> r.None?
    ensures Truthy(url) && content.VStr? && content.s != "" ==> r == read(content.s)
  {
    if !Truthy(url) || !Truthy(content) then None
    else match content
      case VStr(s) => read(s)
      case _ => None
  }

  /** The component's cached times and its refresh flag. */
  datatype View = View(cachedTimes: Dict, shouldRefresh: bool)

  /** `handle_background_result`: a dict replaces the cached times and
      schedules a refresh (the second component); anything else is ignored. */
  function HandleBackgroundResult(v: View, result: Value): (r: (View, bool))
    ensures !result.VObj? ==> r == (v, false)
    ensures result.VObj? ==> r.0.cachedTimes == result.fields && r.0.shouldRefresh && r.1
  {
    match result
    case VObj(fields) => (View(fields, true), true)
    case _ => (v, false)
  }
}
