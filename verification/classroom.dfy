/** The Classroom fetchers: the API client's due-date conversion, filtering
    and status mapping (`classroom_client.py`), and the scraper's text rules
    (`classroom_scraper.py`).

    The Google API and the browser are left out: a course's coursework list,
    a submission list and the page's text blocks arrive as inputs. Free-form
    date parsing (dateutil and the strptime fallbacks) is an oracle argument.
 */
module Classroom {
  import opened Wrappers
  import opened Text
  import opened Values
  import opened Calendar

  /** One assignment dict: `student_name` (absent until the scraper stamps
      it), `course_name`, `title`, `due_datetime` and `status`. */
  datatype Assignment = Assignment(
    student: Option<string>,
    course: string,
    title: string,
    due: Option<Instant>,
    status: Option<string>)

  /** `datetime.max`, 9999-12-31T23:59:59.999999. */
  const DatetimeMax: Instant := 3_652_059 * MicrosPerDay - 1

  /** The task's sort key: `a.get("due_datetime") or datetime.max`. */
  function DueKey(a: Assignment): (k: int)
    ensures a.due.None? ==> k == DatetimeMax
  {
    a.due.GetOr(DatetimeMax)
  }

  // ---------------------------------------------------------------------------
  // classroom_client._parse_due_date

  /** An int argument of `datetime(...)`: ints, and booleans as 0 or 1;
      anything else raises TypeError (None here). */
  function IntArg(v: Value): Option<int> {
    match v
    case VInt(i) => Some(i)
    case VBool(b) => Some(if b then 1 else 0)
    case _ => None
  }

  /** The date of a `dueDate` dict: None when a part is missing or null,
      is not an int (TypeError), or the date is out of range (ValueError). */
  function DateParts(fields: Dict): (r: Option<Date>)
    ensures r.Some? ==> ValidDate(r.value)
    ensures r.Some? ==>
      && IntArg(GetOpt(fields, "year")) == Some(r.value.year)
      && IntArg(GetOpt(fields, "month")) == Some(r.value.month)
      && IntArg(GetOpt(fields, "day")) == Some(r.value.day)
  {
    var y := IntArg(GetOpt(fields, "year"));
    var m := IntArg(GetOpt(fields, "month"));
    var d := IntArg(GetOpt(fields, "day"));
    if y.None? || m.None? || d.None? then None
    else
      var date := Date(y.value, m.value, d.value);
      if ValidDate(date) then Some(date) else None
  }

  /** `year`, `month` or `day` absent or null. */
  predicate MissingPart(fields: Dict) {
    GetOpt(fields, "year").VNull? || GetOpt(fields, "month").VNull? || GetOpt(fields, "day").VNull?
  }

  /** The due instant on a valid date: midnight unless `dueTime` gives both
      hours and minutes; an out-of-range or non-int time gives None. */
  function ApplyTime(date: Date, dueTime: Value): (r: Outcome<Option<Instant>>)
    requires ValidDate(date)
    ensures Truthy(dueTime) && !dueTime.VObj? <==> r.Raised?
    ensures r.Ok? && r.value.Some? ==> DateOf(r.value.value) == date
  {
    MakeInstantFields(date, 0, 0, 0, 0);
    var midnight := MakeInstant(date, 0, 0, 0, 0);
    if !Truthy(dueTime) then Ok(Some(midnight))
    else if !dueTime.VObj? then Raised(AttributeError)
    else
      var h := GetOpt(dueTime.fields, "hours");
      var mi := GetOpt(dueTime.fields, "minutes");
      if h.VNull? || mi.VNull? then Ok(Some(midnight))
      else if IntArg(h).None? || IntArg(mi).None? || !ValidTime(IntArg(h).value, IntArg(mi).value, 0, 0) then Ok(None)
      else
        MakeInstantFields(date, IntArg(h).value, IntArg(mi).value, 0, 0);
        Ok(Some(MakeInstant(date, IntArg(h).value, IntArg(mi).value, 0, 0)))
  }

  /** `_parse_due_date(dueDate, dueTime)`. TypeError and ValueError become
      None; a truthy `dueDate` or `dueTime` that is not a dict has no `.get`,
      and the AttributeError escapes. */
  function ParseDueDate(dueDate: Value, dueTime: Value): (r: Outcome<Option<Instant>>)
    ensures !Truthy(dueDate) ==> r == Ok(None)
    ensures Truthy(dueDate) && !dueDate.VObj? ==> r == Raised(AttributeError)
    ensures dueDate.VObj? && MissingPart(dueDate.fields) ==> r == Ok(None)
    ensures r.Ok? && r.value.Some? ==>
      dueDate.VObj? && DateParts(dueDate.fields).Some? && DateOf(r.value.value) == DateParts(dueDate.fields).value
  {
    if !Truthy(dueDate) then Ok(None)
    else if !dueDate.VObj? then Raised(AttributeError)
    else
      match DateParts(dueDate.fields)
      case None => Ok(None)
      case Some(date) => ApplyTime(date, dueTime)
  }

  /** The time of day is applied only when both hours and minutes are given;
      otherwise a valid date is due at midnight. */
  lemma {:induction false} DueTimeNeedsHoursAndMinutes(dueDate: Value, dueTime: Value)
    requires ParseDueDate(dueDate, VNull).Ok? && ParseDueDate(dueDate, VNull).value.Some?
    requires dueTime.VObj? && (GetOpt(dueTime.fields, "hours").VNull? || GetOpt(dueTime.fields, "minutes").VNull?)
    ensures ParseDueDate(dueDate, dueTime) == ParseDueDate(dueDate, VNull)
    ensures var t := ParseDueDate(dueDate, VNull).value.value;
      HourOf(t) == 0 && MinuteOf(t) == 0 && SecondOf(t) == 0 && MicrosecondOf(t) == 0
  {
    MakeInstantFields(DateParts(dueDate.fields).value, 0, 0, 0, 0);
  }

  /** With both hours and minutes, the due instant is at that time of the
      given day. */
  lemma {:induction false} DueTimeApplied(dueDate: Value, dueTime: Value)
    requires ParseDueDate(dueDate, dueTime).Ok? && ParseDueDate(dueDate, dueTime).value.Some?
    requires dueTime.VObj? && IntArg(GetOpt(dueTime.fields, "hours")).Some?
      && IntArg(GetOpt(dueTime.fields, "minutes")).Some?
    ensures var t := ParseDueDate(dueDate, dueTime).value.value;
      HourOf(t) == IntArg(GetOpt(dueTime.fields, "hours")).value
      && MinuteOf(t) == IntArg(GetOpt(dueTime.fields, "minutes")).value
      && SecondOf(t) == 0
  {
    var date := DateParts(dueDate.fields).value;
    var h := IntArg(GetOpt(dueTime.fields, "hours")).value;
    var mi := IntArg(GetOpt(dueTime.fields, "minutes")).value;
    MakeInstantFields(date, h, mi, 0, 0);
  }

  // ---------------------------------------------------------------------------
  // classroom_client.get_due_assignments

  /** The submission status shown for a coursework item: none without
      submissions, otherwise from the first submission's state. */
  function StatusOf(submissions: seq<Dict>): (r: Option<string>)
    ensures |submissions| == 0 <==> r.None?
    ensures |submissions| > 0 ==>
      (r == Some("Turned in") <==> GetOpt(submissions[0], "state") in [VStr("TURNED_IN"), VStr("RETURNED")])
  {
    if |submissions| == 0 then None
    else
      var state := GetOpt(submissions[0], "state");
      if state == VStr("TURNED_IN") || state == VStr("RETURNED") then Some("Turned in")
      else Some("Not turned in")
  }

  /** One coursework item as the API returns it, with its submissions
      (None when listing them failed, which leaves the status unset). */
  datatype Work = Work(fields: Dict, submissions: Option<seq<Dict>>)

  /** Whether a coursework item is reported, and at what instant. */
  function WorkDue(w: Work, includeOverdue: bool, today: nat): Outcome<Option<Instant>> {
    if GetOpt(w.fields, "state") != VStr("PUBLISHED") then Ok(None)
    else
      match ParseDueDate(GetOpt(w.fields, "dueDate"), GetOpt(w.fields, "dueTime"))
      case Raised(e) => Raised(e)
      case Ok(None) => Ok(None)
      case Ok(Some(t)) => if !includeOverdue && DayOf(t) < today then Ok(None) else Ok(Some(t))
  }

  /** The assignments of one course: published work with a parseable due
      date, dropping those due before `today` (a day number) unless overdue
      work is included. An AttributeError from a malformed due date escapes
      to the caller. */
  function CourseAssignments(student: string, course: string, works: seq<Work>, includeOverdue: bool, today: nat)
    : (r: Outcome<seq<Assignment>>)
    ensures r.Ok? ==> |r.value| <= |works|
    ensures r.Ok? ==> forall a | a in r.value ::
      a.due.Some? && a.student == Some(student) && a.course == course && (includeOverdue || DayOf(a.due.value) >= today)
    decreases |works|
  {
    if |works| == 0 then Ok([])
    else
      var w := works[0];
      var due :- WorkDue(w, includeOverdue, today);
      var rest :- CourseAssignments(student, course, works[1..], includeOverdue, today);
      match due
      case None => Ok(rest)
      case Some(t) =>
        var title := match GetOpt(w.fields, "title") case VStr(s) => s case _ => "Assignment";
        var status := match w.submissions case Some(subs) => StatusOf(subs) case None => None;
        Ok([Assignment(Some(student), course, title, Some(t), status)] + rest)
  }

  /** Unpublished work never appears, whatever its dates. */
  lemma {:induction false} UnpublishedWorkSkipped(student: string, course: string, w: Work, works: seq<Work>, includeOverdue: bool, today: nat)
    requires GetOpt(w.fields, "state") != VStr("PUBLISHED")
    ensures CourseAssignments(student, course, [w] + works, includeOverdue, today)
         == CourseAssignments(student, course, works, includeOverdue, today)
  {
    assert ([w] + works)[1..] == works;
  }

  /** Overdue work is kept when asked for and dropped otherwise. */
  lemma {:induction false} OverdueWorkFollowsFlag(student: string, course: string, w: Work, works: seq<Work>, today: nat)
    requires WorkDue(w, true, today).Ok? && WorkDue(w, true, today).value.Some?
    requires DayOf(WorkDue(w, true, today).value.value) < today
    requires CourseAssignments(student, course, works, false, today).Ok?
    ensures CourseAssignments(student, course, [w] + works, false, today)
         == CourseAssignments(student, course, works, false, today)
    ensures CourseAssignments(student, course, [w] + works, true, today).Ok? ==>
      |CourseAssignments(student, course, [w] + works, true, today).value| >= 1
  {
    assert ([w] + works)[1..] == works;
  }

  // ---------------------------------------------------------------------------
  // classroom_scraper: due text

  /** The text `_parse_due_text` hands to the date parser: stripped, with a
      leading case-insensitive "due " removed and stripped again; None when
      nothing is left. */
  function DueTextBody(text: string): (r: Option<string>)
    ensures r.Some? ==> |r.value| > 0 && r.value == Strip(r.value)
    ensures Strip(text) == "" ==> r.None?
  {
    var t := Strip(text);
    if t == "" then None
    else if HasDuePrefix(t) then
      StripIdempotent(t[4..]);
      NoneIfEmpty(Strip(t[4..]))
    else
      StripIdempotent(text);
      Some(t)
  }

  /** `t.lower().startswith("due ")`. */
  predicate HasDuePrefix(t: string) {
    StartsWith(Lower(t), "due ")
  }

  lemma {:induction false} StripIdempotent(s: string)
    ensures Strip(Strip(s)) == Strip(s)
  {
    var t := Strip(s);
    if |t| > 0 {
      StripNoSpace(t);
    }
  }

  /** `_parse_due_text(text)` with the date parser as an oracle. */
  function ParseDueText(text: string, parse: string -> Option<Instant>): (r: Option<Instant>)
    ensures DueTextBody(text).None? ==> r.None?
    ensures DueTextBody(text).Some? ==> r == parse(DueTextBody(text).value)
  {
    match DueTextBody(text)
    case None => None
    case Some(u) => parse(u)
  }

  /** Leading blanks are dropped up to the first non-blank character. */
  lemma {:induction false} StripLeftOfSpaces(spaces: string, x: string)
    requires AllSpace(spaces) && (|x| == 0 || !IsSpace(x[0]))
    ensures StripLeft(spaces + x) == x
    decreases |spaces|
  {
    if |spaces| > 0 {
      assert (spaces + x)[1..] == spaces[1..] + x;
      StripLeftOfSpaces(spaces[1..], x);
    } else {
      assert spaces + x == x;
    }
  }

  /** Stripped text without the prefix passes through unchanged. */
  lemma {:induction false} CleanDueTextKept(text: string)
    requires text != "" && Strip(text) == text
    requires !HasDuePrefix(text)
    ensures DueTextBody(text) == Some(text)
  {
  }

  /** "due " followed by blanks and a stripped date reaches the parser as the
      date alone. */
  lemma {:induction false} DuePrefixDropped(spaces: string, x: string)
    requires AllSpace(spaces) && x != "" && Strip(x) == x
    ensures DueTextBody("due " + (spaces + x)) == Some(x)
  {
    var rest := spaces + x;
    var text := "due " + rest;
    StripNoSpaceEnds(x);
    assert text[|text| - 1] == x[|x| - 1];
    StripNoSpace(text);
    DuePrefixDetected(rest);
    assert text[4..] == rest;
    StripLeftOfSpaces(spaces, x);
    StripNoSpace(x);
  }

  lemma {:induction false} DuePrefixDetected(rest: string)
    ensures HasDuePrefix("due " + rest)
  {
    var low := Lower("due " + rest);
    assert low[0] == 'd' && low[1] == 'u' && low[2] == 'e' && low[3] == ' ';
    assert low[..4] == "due ";
  }

  /** A non-empty stripped string has no blank at either end. */
  lemma {:induction false} StripNoSpaceEnds(x: string)
    requires x != "" && Strip(x) == x
    ensures !IsSpace(x[0]) && !IsSpace(x[|x| - 1])
  {
    var l := StripLeft(x);
    assert |StripRight(l)| <= |l| <= |x|;
    assert |l| == |x|;
    assert l == x;
  }

  // ---------------------------------------------------------------------------
  // classroom_scraper._parse_assignment_block

  /** `[l.strip() for l in text.split("\n") if l.strip()]`. */
  function NonBlankLines(parts: seq<string>): (r: seq<string>)
    ensures forall i | 0 <= i < |r| :: Strip(r[i]) != ""
    decreases |parts|
  {
    if |parts| == 0 then []
    else
      var rest := NonBlankLines(parts[1..]);
      var l := Strip(parts[0]);
      if l == "" then rest
      else
        StrippedStaysNonBlank(parts[0]);
        [l] + rest
  }

  lemma {:induction false} StrippedStaysNonBlank(p: string)
    requires Strip(p) != ""
    ensures Strip(Strip(p)) != ""
  {
    StripIdempotent(p);
  }

  function Truncate(s: string, n: nat): (r: string)
    ensures |r| <= n && |r| <= |s| && r == s[..|r|]
    ensures |s| <= n ==> r == s
  {
    if |s| <= n then s else s[..n]
  }

  predicate MentionsTurnIn(line: string) {
    Contains(Lower(line), "turn in") || Contains(Lower(line), "turned in")
  }

  predicate MentionsMissing(line: string) {
    Contains(Lower(line), "missing")
  }

  /** The status of the first line that mentions turning in or missing work. */
  function StatusFromLines(lines: seq<string>): (r: Option<string>)
    ensures r.None? || r == Some("Turned in") || r == Some("Missing")
    decreases |lines|
  {
    if |lines| == 0 then None
    else if MentionsTurnIn(lines[0]) then Some("Turned in")
    else if MentionsMissing(lines[0]) then Some("Missing")
    else StatusFromLines(lines[1..])
  }

  /** The status comes from the earliest line that mentions either, with
      turning in checked before missing on the same line. */
  lemma {:induction false} StatusFromFirstMention(lines: seq<string>, i: nat)
    requires i < |lines|
    requires forall j | 0 <= j < i :: !MentionsTurnIn(lines[j]) && !MentionsMissing(lines[j])
    requires MentionsTurnIn(lines[i]) || MentionsMissing(lines[i])
    ensures StatusFromLines(lines) == if MentionsTurnIn(lines[i]) then Some("Turned in") else Some("Missing")
    decreases i
  {
    if i > 0 {
      StatusFromFirstMention(lines[1..], i - 1);
    }
  }

  lemma {:induction false} NoMentionNoStatus(lines: seq<string>)
    requires forall j | 0 <= j < |lines| :: !MentionsTurnIn(lines[j]) && !MentionsMissing(lines[j])
    ensures StatusFromLines(lines) == None
    decreases |lines|
  {
    if |lines| > 0 {
      NoMentionNoStatus(lines[1..]);
    }
  }

  /** The due instant of a block: the first line mentioning "due" decides
      if it parses; otherwise the first line that parses. `dueOf` stands for
      `_parse_due_text(line) or self._extract_due_from_text(line)`. */
  function BlockDue(lines: seq<string>, dueOf: string -> Option<Instant>): Option<Instant> {
    var first := FirstDueLine(lines);
    if first.Some? && dueOf(lines[first.value]).Some? then dueOf(lines[first.value])
    else FirstParsed(lines, dueOf)
  }

  function FirstDueLine(lines: seq<string>): (r: Option<nat>)
    ensures r.Some? ==> r.value < |lines| && Contains(Lower(lines[r.value]), "due")
    decreases |lines|
  {
    if |lines| == 0 then None
    else if Contains(Lower(lines[0]), "due") then Some(0)
    else match FirstDueLine(lines[1..]) case Some(i) => Some(i + 1) case None => None
  }

  function FirstParsed(lines: seq<string>, dueOf: string -> Option<Instant>): (r: Option<Instant>)
    ensures r.Some? ==> exists i | 0 <= i < |lines| :: dueOf(lines[i]) == r
    decreases |lines|
  {
    if |lines| == 0 then None
    else if dueOf(lines[0]).Some? then dueOf(lines[0])
    else FirstParsed(lines[1..], dueOf)
  }

  /** `_parse_assignment_block(text)`: None for a block with no non-blank
      line; otherwise the first line (at most 200 characters) is the title,
      the second (at most 100) the course, or "—" when there is none. */
  function ParseBlock(text: string, dueOf: string -> Option<Instant>): (r: Option<Assignment>)
    ensures r.None? <==> |NonBlankLines(Split(text, "\n"))| == 0
    ensures r.Some? ==>
      var lines := NonBlankLines(Split(text, "\n"));
      && r.value.title == Truncate(lines[0], 200)
      && r.value.course == (if |lines| >= 2 then Truncate(lines[1], 100) else "—")
      && r.value.status == StatusFromLines(lines)
      && r.value.student.None?
  {
    var lines := NonBlankLines(Split(text, "\n"));
    if |lines| == 0 then None
    else
      var course := if |lines| >= 2 then lines[1] else "—";
      Some(Assignment(None, Truncate(course, 100), Truncate(lines[0], 200), BlockDue(lines, dueOf), StatusFromLines(lines)))
  }

  // ---------------------------------------------------------------------------
  // classroom_scraper: dedupe and post-filter

  datatype Key = Key(course: string, title: string, due: Option<Instant>)

  function KeyOf(a: Assignment): Key {
    Key(a.course, a.title, a.due)
  }

  function Keys(xs: seq<Assignment>): (r: set<Key>)
    ensures forall a | a in xs :: KeyOf(a) in r
    decreases |xs|
  {
    if |xs| == 0 then {} else {KeyOf(xs[0])} + Keys(xs[1..])
  }

  /** The dedupe step: the first item of each (course, title, due) key, in
      order of first appearance. A later item with the same key can only
      replace the first when it has a due date the first lacks, which the
      shared key rules out. */
  function Dedupe(items: seq<Assignment>, seen: set<Key>): (r: seq<Assignment>)
    ensures forall a | a in r :: a in items && KeyOf(a) !in seen
    ensures forall i, j | 0 <= i < j < |r| :: KeyOf(r[i]) != KeyOf(r[j])
    ensures Keys(r) == Keys(items) - seen
    decreases |items|
  {
    if |items| == 0 then []
    else
      var a := items[0];
      if KeyOf(a) in seen then Dedupe(items[1..], seen)
      else
        var rest := Dedupe(items[1..], seen + {KeyOf(a)});
        assert Keys([a] + rest) == {KeyOf(a)} + Keys(rest) by {
          assert ([a] + rest)[1..] == rest;
        }
        [a] + rest
  }

  /** The post-filter of `get_due_assignments`: only items with a due date,
      only those not before `today` unless overdue work is included, each
      stamped with the student's name. */
  function PostFilter(items: seq<Assignment>, student: string, includeOverdue: bool, today: nat): (r: seq<Assignment>)
    ensures |r| <= |items|
    ensures forall a | a in r ::
      a.due.Some? && a.student == Some(student) && (includeOverdue || DayOf(a.due.value) >= today)
    ensures forall a | a in items && a.due.Some? && (includeOverdue || DayOf(a.due.value) >= today) ::
      a.(student := Some(student)) in r
    decreases |items|
  {
    if |items| == 0 then []
    else
      var a := items[0];
      var rest := PostFilter(items[1..], student, includeOverdue, today);
      if a.due.None? || (!includeOverdue && DayOf(a.due.value) < today) then rest
      else [a.(student := Some(student))] + rest
  }

  // ---------------------------------------------------------------------------
  // ClassroomTask._build_fetchers

  datatype FetcherKind = ApiClient | Scraper

  /** A fetcher for one student; the credentials path is not modelled. */
  datatype Fetcher = Fetcher(kind: FetcherKind, name: Value)

  /** `os.path.expanduser(os.path.expandvars(p))` on a truthy value: only
      strings are accepted, anything else raises TypeError. */
  function PathArg(v: Value): (r: Outcome<()>)
    ensures r.Ok? <==> !Truthy(v) || v.VStr?
  {
    if Truthy(v) && !v.VStr? then Raised(TypeError) else Ok(())
  }

  /** `(config.get("backend") or "api").lower()`. */
  function BackendName(v: Value): (r: Outcome<string>)
    ensures !Truthy(v) ==> r == Ok("api")
    ensures v.VStr? && Truthy(v) ==> r == Ok(Lower(v.s))
    ensures r.Raised? <==> Truthy(v) && !v.VStr?
  {
    if !Truthy(v) then Ok("api")
    else if v.VStr? then Ok(Lower(v.s))
    else Raised(AttributeError)
  }

  /** One fetcher per student entry with a truthy name and a truthy path
      (`profile_path` for the scraper, `token_file` for the API). */
  function StudentFetchers(entries: seq<Value>, kind: FetcherKind): (r: Outcome<seq<Fetcher>>)
    ensures r.Ok? ==> |r.value| <= |entries|
    ensures r.Ok? ==> forall f | f in r.value :: f.kind == kind && Truthy(f.name)
    ensures (forall e | e in entries :: !e.VObj?) && |entries| > 0 ==> r == Raised(AttributeError)
    decreases |entries|
  {
    if |entries| == 0 then Ok([])
    else
      var e := entries[0];
      if !e.VObj? then Raised(AttributeError)
      else
        var name := GetOpt(e.fields, "name");
        var path := GetOpt(e.fields, if kind == Scraper then "profile_path" else "token_file");
        if !Truthy(name) || !Truthy(path) then StudentFetchers(entries[1..], kind)
        else
          var _ :- PathArg(path);
          var rest :- StudentFetchers(entries[1..], kind);
          Ok([Fetcher(kind, name)] + rest)
  }

  /** `_build_fetchers(config)`: scraping when the backend is "scrape" in
      any case, the API otherwise. On the API path the client secret path is
      expanded before the students are iterated, so a non-text secret path
      raises TypeError even when the students value is itself malformed. */
  function BuildFetchers(config: Dict): (r: Outcome<seq<Fetcher>>)
    ensures r.Ok? ==> forall f | f in r.value :: Truthy(f.name)
    ensures r.Ok? && |r.value| > 0 ==>
      var b := GetOpt(config, "backend");
      (r.value[0].kind == Scraper <==> b.VStr? && Lower(b.s) == "scrape")
    ensures !Truthy(GetOpt(config, "students")) ==> r.Ok? ==> r.value == []
    ensures BackendName(GetOpt(config, "backend")) == Ok("scrape") ==>
      (Entries(GetOpt(config, "students")).Raised? ==> r == Raised(Entries(GetOpt(config, "students")).error))
    ensures BackendName(GetOpt(config, "backend")).Ok? && BackendName(GetOpt(config, "backend")).value != "scrape" ==>
      (PathArg(GetOpt(config, "client_secret_path")).Raised? ==> r == Raised(TypeError)) &&
      (PathArg(GetOpt(config, "client_secret_path")).Ok? && Entries(GetOpt(config, "students")).Raised? ==>
         r == Raised(Entries(GetOpt(config, "students")).error))
  {
    var backend :- BackendName(GetOpt(config, "backend"));
    if backend == "scrape" then
      var entries :- Entries(GetOpt(config, "students"));
      StudentFetchers(entries, Scraper)
    else
      var _ :- PathArg(GetOpt(config, "client_secret_path"));
      var entries :- Entries(GetOpt(config, "students"));
      StudentFetchers(entries, ApiClient)
  }

  /** An entry missing its name or its path is skipped, not an error. */
  lemma {:induction false} IncompleteStudentSkipped(e: Dict, entries: seq<Value>, kind: FetcherKind)
    requires !Truthy(GetOpt(e, "name")) || !Truthy(GetOpt(e, if kind == Scraper then "profile_path" else "token_file"))
    ensures StudentFetchers([VObj(e)] + entries, kind) == StudentFetchers(entries, kind)
  {
    assert ([VObj(e)] + entries)[1..] == entries;
  }

  // ---------------------------------------------------------------------------
  // More facts about block parsing

  lemma {:induction false} FirstDueLineIs(lines: seq<string>, i: nat)
    requires i < |lines| && Contains(Lower(lines[i]), "due")
    requires forall j | 0 <= j < i :: !Contains(Lower(lines[j]), "due")
    ensures FirstDueLine(lines) == Some(i)
    decreases i
  {
    if i > 0 {
      FirstDueLineIs(lines[1..], i - 1);
    }
  }

  lemma {:induction false} FirstParsedIs(lines: seq<string>, dueOf: string -> Option<Instant>, i: nat)
    requires i < |lines| && dueOf(lines[i]).Some?
    requires forall j | 0 <= j < i :: dueOf(lines[j]).None?
    ensures FirstParsed(lines, dueOf) == dueOf(lines[i])
    decreases i
  {
    if i > 0 {
      FirstParsedIs(lines[1..], dueOf, i - 1);
    }
  }

  /** The first line mentioning "due" wins when it parses. */
  lemma {:induction false} DueLinePreferred(lines: seq<string>, dueOf: string -> Option<Instant>, i: nat)
    requires i < |lines| && Contains(Lower(lines[i]), "due") && dueOf(lines[i]).Some?
    requires forall j | 0 <= j < i :: !Contains(Lower(lines[j]), "due")
    ensures BlockDue(lines, dueOf) == dueOf(lines[i])
  {
    FirstDueLineIs(lines, i);
  }

  /** When no line mentions "due", the first line that parses is used. */
  lemma {:induction false} AnyParsedLineUsed(lines: seq<string>, dueOf: string -> Option<Instant>, i: nat)
    requires forall j | 0 <= j < |lines| :: !Contains(Lower(lines[j]), "due")
    requires i < |lines| && dueOf(lines[i]).Some?
    requires forall j | 0 <= j < i :: dueOf(lines[j]).None?
    ensures BlockDue(lines, dueOf) == dueOf(lines[i])
  {
    NoDueLine(lines);
    FirstParsedIs(lines, dueOf, i);
  }

  lemma {:induction false} NoDueLine(lines: seq<string>)
    requires forall j | 0 <= j < |lines| :: !Contains(Lower(lines[j]), "due")
    ensures FirstDueLine(lines) == None
    decreases |lines|
  {
    if |lines| > 0 {
      NoDueLine(lines[1..]);
    }
  }
}
