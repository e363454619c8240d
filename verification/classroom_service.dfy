/** Saving and loading Classroom assignments (`classroom/service.py`).

    A run's assignments are stored as one JSON document per component, with
    due datetimes written as ISO text and parsed back on load. The table is a
    sequence of records; the SQL session is left out.
 */
module ClassroomService {
  import opened Wrappers
  import opened Text
  import opened Values
  import opened Calendar
  import opened Iso
  import opened Classroom

  /** An assignment dict after `_serialize_assignments`. */
  datatype StoredAssignment = StoredAssignment(
    student: Option<string>, course: string, title: string, due: Value, status: Option<string>)

  /** `due_datetime` after `_deserialize_assignments`: a parsed datetime, or
      the stored value kept as it was. */
  datatype LoadedDue = DueAt(t: Stamp) | DueKept(v: Value)

  datatype LoadedAssignment = LoadedAssignment(
    student: Option<string>, course: string, title: string, due: LoadedDue, status: Option<string>)

  /** A due datetime becomes its `isoformat()`; a missing one stays None. */
  function Serialize(a: Assignment): (r: StoredAssignment)
    ensures a.due.None? <==> r.due == VNull
    ensures r.student == a.student && r.course == a.course && r.title == a.title && r.status == a.status
  {
    var due := match a.due case Some(t) => VStr(IsoDateTime(t)) case None => VNull;
    StoredAssignment(a.student, a.course, a.title, due, a.status)
  }

  /** `s.replace("Z", "+00:00")`. */
  function ReplaceZ(s: string): (r: string)
    ensures 'Z' !in s ==> r == s
    decreases |s|
  {
    if |s| == 0 then []
    else
      assert s == [s[0]] + s[1..];
      (if s[0] == 'Z' then "+00:00" else [s[0]]) + ReplaceZ(s[1..])
  }

  /** A string is parsed back to a datetime when `fromisoformat` accepts it
      (after the "Z" rewrite); otherwise it is kept, as are non-strings. */
  function Deserialize(row: StoredAssignment): (r: LoadedAssignment)
    ensures !row.due.VStr? ==> r.due == DueKept(row.due)
    ensures r.student == row.student && r.course == row.course && r.title == row.title && r.status == row.status
  {
    var due := match row.due
      case VStr(s) =>
        (match FromIsoFormat(ReplaceZ(s)) case Some(t) => DueAt(t) case None => DueKept(row.due))
      case _ => DueKept(row.due);
    LoadedAssignment(row.student, row.course, row.title, due, row.status)
  }

  /** What loading should give back for an assignment that was saved. */
  function Reloaded(a: Assignment): LoadedAssignment {
    LoadedAssignment(a.student, a.course, a.title,
                     match a.due case Some(t) => DueAt(Stamp(t, None)) case None => DueKept(VNull), a.status)
  }

  lemma {:induction false} NoZInDigits(n: nat, w: nat)
    ensures 'Z' !in Digits(n, w)
  {
  }

  /** ISO text never contains "Z", so the rewrite leaves it alone. */
  lemma {:induction false} NoZInIsoDateTime(t: Instant)
    ensures 'Z' !in IsoDateTime(t)
  {
    InstantFields(t);
    var d := DateOf(t);
    NoZInDigits(d.year, 4);
    NoZInDigits(d.month, 2);
    NoZInDigits(d.day, 2);
    NoZInDigits(HourOf(t), 2);
    NoZInDigits(MinuteOf(t), 2);
    NoZInDigits(SecondOf(t), 2);
    NoZInDigits(MicrosecondOf(t), 6);
  }

  /** Saving then loading gives every assignment back, due datetime
      included (for four-digit years). */
  lemma {:induction false} SerializeRoundTrip(a: Assignment)
    requires a.due.Some? ==> DateOf(a.due.value).year <= 9999
    ensures Deserialize(Serialize(a)) == Reloaded(a)
  {
    if a.due.Some? {
      NoZInIsoDateTime(a.due.value);
      IsoDateTimeRoundTrip(a.due.value);
    }
  }

  lemma {:induction false} ReplaceZAppend(a: string, b: string)
    ensures ReplaceZ(a + b) == ReplaceZ(a) + ReplaceZ(b)
    decreases |a|
  {
    if |a| == 0 {
      assert a + b == b;
    } else {
      assert (a + b)[1..] == a[1..] + b;
      ReplaceZAppend(a[1..], b);
    }
  }

  /** A stored "...Z" timestamp loads as an aware UTC datetime. */
  lemma {:induction false} ZSuffixReadAsUtc(t: Instant)
    requires DateOf(t).year <= 9999
    ensures Deserialize(StoredAssignment(None, "", "", VStr(IsoDateTime(t) + "Z"), None)).due == DueAt(Stamp(t, Some(0)))
  {
    NoZInIsoDateTime(t);
    ReplaceZAppend(IsoDateTime(t), "Z");
    assert ReplaceZ("Z") == "+00:00" by { assert "Z"[1..] == []; }
    UtcSuffixRead(t);
  }

  function SerializeAll(items: seq<Assignment>): (r: seq<StoredAssignment>)
    ensures |r| == |items| && forall i | 0 <= i < |items| :: r[i] == Serialize(items[i])
  {
    seq(|items|, i requires 0 <= i < |items| => Serialize(items[i]))
  }

  function DeserializeAll(rows: seq<StoredAssignment>): (r: seq<LoadedAssignment>)
    ensures |r| == |rows| && forall i | 0 <= i < |rows| :: r[i] == Deserialize(rows[i])
  {
    seq(|rows|, i requires 0 <= i < |rows| => Deserialize(rows[i]))
  }

  // ---------------------------------------------------------------------------
  // The table

  /** One `ClassroomAssignmentRecord` row. */
  datatype Record = Record(component: string, fetchedAt: Instant, data: seq<StoredAssignment>)

  /** `save_assignments`: delete the component's rows, then add one. */
  function Save(table: seq<Record>, component: string, items: seq<Assignment>, now: Instant): (r: seq<Record>)
    ensures forall x | x in r :: x in table || x == Record(component, now, SerializeAll(items))
    ensures |r| > 0 && r[|r| - 1] == Record(component, now, SerializeAll(items))
    ensures forall x | x in table && x.component != component :: x in r
    ensures forall i | 0 <= i < |r| - 1 :: r[i].component != component
  {
    Others(table, component) + [Record(component, now, SerializeAll(items))]
  }

  /** The records of other components, in order. */
  function Others(table: seq<Record>, component: string): (r: seq<Record>)
    ensures forall x | x in r :: x in table && x.component != component
    ensures forall x | x in table && x.component != component :: x in r
    ensures forall i | 0 <= i < |r| :: r[i].component != component
    decreases |table|
  {
    if |table| == 0 then []
    else (if table[0].component == component then [] else [table[0]]) + Others(table[1..], component)
  }

  /** The component's record with the latest `fetched_at` (the first such
      one found). */
  function Latest(table: seq<Record>, component: string): (r: Option<Record>)
    ensures r.Some? ==> r.value in table && r.value.component == component
    ensures r.Some? ==> forall x | x in table && x.component == component :: x.fetchedAt <= r.value.fetchedAt
    ensures r.None? ==> forall x | x in table :: x.component != component
    decreases |table|
  {
    if |table| == 0 then None
    else
      var rest := Latest(table[1..], component);
      if table[0].component != component then rest
      else if rest.None? || rest.value.fetchedAt <= table[0].fetchedAt then Some(table[0])
      else rest
  }

  /** `get_latest_assignments`: the latest record's data, parsed; nothing
      when there is no record or its data is empty. */
  function LatestAssignments(table: seq<Record>, component: string): (r: seq<LoadedAssignment>)
    ensures Latest(table, component).None? ==> r == []
  {
    match Latest(table, component)
    case Some(rec) => DeserializeAll(rec.data)
    case None => []
  }

  /** After a save the component has exactly one record, the new one. */
  lemma {:induction false} SaveLeavesOneRecord(table: seq<Record>, component: string, items: seq<Assignment>, now: Instant)
    ensures var t := Save(table, component, items, now);
      Latest(t, component) == Some(Record(component, now, SerializeAll(items)))
  {
    var t := Save(table, component, items, now);
    var rec := Record(component, now, SerializeAll(items));
    LatestOfLast(Others(table, component), rec);
  }

  lemma {:induction false} LatestOfLast(others: seq<Record>, rec: Record)
    requires forall i | 0 <= i < |others| :: others[i].component != rec.component
    ensures Latest(others + [rec], rec.component) == Some(rec)
    decreases |others|
  {
    if |others| == 0 {
      assert (others + [rec])[1..] == [];
    } else {
      assert (others + [rec])[1..] == others[1..] + [rec];
      LatestOfLast(others[1..], rec);
    }
  }

  /** Saving a run and loading it gives the run back. */
  lemma {:induction false} SaveThenLoad(table: seq<Record>, component: string, items: seq<Assignment>, now: Instant)
    requires forall a | a in items :: a.due.Some? ==> DateOf(a.due.value).year <= 9999
    ensures var loaded := LatestAssignments(Save(table, component, items, now), component);
      |loaded| == |items| && forall i | 0 <= i < |items| :: loaded[i] == Reloaded(items[i])
  {
    SaveLeavesOneRecord(table, component, items, now);
    forall i | 0 <= i < |items|
      ensures Deserialize(Serialize(items[i])) == Reloaded(items[i])
    {
      SerializeRoundTrip(items[i]);
    }
  }

  /** Saving one component leaves every other component's latest record as
      it was. */
  lemma {:induction false} SaveKeepsOthers(table: seq<Record>, component: string, other: string, items: seq<Assignment>, now: Instant)
    requires other != component
    ensures Latest(Save(table, component, items, now), other).Some? <==> Latest(table, other).Some?
    ensures Latest(Save(table, component, items, now), other).Some? ==>
      Latest(Save(table, component, items, now), other).value.fetchedAt == Latest(table, other).value.fetchedAt
  {
    var t := Save(table, component, items, now);
    var a := Latest(t, other);
    var b := Latest(table, other);
    if b.Some? {
      assert b.value in t;
    }
    if a.Some? {
      assert a.value in table;
    }
  }
}
