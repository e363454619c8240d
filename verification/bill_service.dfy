/** The bill tables of `dashboard/plugins/utilities_bill_due/service.py`:
    the current run per component, replaced on every save with the old rows
    archived to history, and the latest run read back in due-date order.
    Each `session_scope` block is one state update of `Db`; the columns
    follow `dashboard/plugins/utilities_bill_due/models.py`.
 */
module BillService {
  import opened Wrappers
  import opened Calendar
  import opened Bills
  import opened Sorting
  import Text

  /** A `UtilityBillRecord` row. Text columns written as `str(x or "")` are
      never NULL. `payment_status` is always written NULL and is left out. */
  datatype Record = Record(
    component: string,
    fetchedAt: Instant,
    utilityType: Option<string>,
    source: Option<string>,
    dueDate: Option<Date>,
    amountDue: string,
    paymentDue: bool,
    currentBalance: string,
    billedDate: Option<Date>,
    lastPaymentAmount: string,
    lastPaymentDate: Option<Date>,
    rawStatus: Option<string>,
    usage: Option<string>)

  /** A `UtilityBillHistory` row. */
  datatype HistoryRow = HistoryRow(
    fetchedAt: Instant,
    dueDate: Option<Date>,
    paidDate: Option<Date>,
    amount: string,
    usage: Option<string>,
    status: Option<string>,
    utilityType: Option<string>,
    source: Option<string>)

  datatype Db = Db(records: seq<Record>, history: seq<HistoryRow>)

  /** `str(x or "")` for an optional text. */
  function TextOrEmpty(x: Option<string>): (r: string)
    ensures x.None? ==> r == ""
    ensures x.Some? ==> r == x.value
  {
    x.GetOr("")
  }

  /** The row `save_bills` writes for one bill. */
  function ToRecord(component: string, fetchedAt: Instant, b: Bill): (r: Record)
    ensures r.component == component && r.fetchedAt == fetchedAt
  {
    Record(component, fetchedAt, b.utilityType, b.source, b.dueDate, TextOrEmpty(b.amountDue),
           b.paymentDue, TextOrEmpty(b.currentBalance), b.currentBillBilledDate,
           TextOrEmpty(b.lastPaymentAmount), b.lastPaymentDate, b.rawStatus, b.usage)
  }

  /** The history row archiving a current row. */
  function Archive(r: Record): (h: HistoryRow)
    ensures h.fetchedAt == r.fetchedAt && h.dueDate == r.dueDate
    ensures h.paidDate == r.lastPaymentDate && h.amount == r.amountDue && h.status == r.rawStatus
    ensures h.usage == r.usage && h.utilityType == r.utilityType && h.source == r.source
  {
    HistoryRow(r.fetchedAt, r.dueDate, r.lastPaymentDate, r.amountDue, r.usage, r.rawStatus, r.utilityType, r.source)
  }

  function NoneIfEmptyOpt(s: Option<string>): (r: Option<string>)
    ensures r.None? <==> s.None? || s == Some("")
    ensures r.Some? ==> r == s
  {
    match s
    case Some(t) => Text.NoneIfEmpty(t)
    case None => None
  }

  /** `_row_to_bill`. */
  function RowToBill(r: Record): (b: Bill)
    ensures b.amountDue == Text.NoneIfEmpty(r.amountDue) && b.currentBalance == Text.NoneIfEmpty(r.currentBalance)
    ensures b.lastPaymentAmount == Text.NoneIfEmpty(r.lastPaymentAmount) && b.usage == NoneIfEmptyOpt(r.usage)
    ensures b.dueDate == r.dueDate && b.paymentDue == r.paymentDue && b.rawStatus == r.rawStatus
  {
    Bill(r.utilityType, r.source, r.dueDate, Text.NoneIfEmpty(r.amountDue), r.paymentDue,
         Text.NoneIfEmpty(r.currentBalance), r.billedDate, Text.NoneIfEmpty(r.lastPaymentAmount),
         r.lastPaymentDate, r.rawStatus, NoneIfEmptyOpt(r.usage))
  }

  /** A bill's texts that the table stores as "" and reads back as None. */
  predicate NoEmptyTexts(b: Bill) {
    b.amountDue != Some("") && b.currentBalance != Some("") && b.lastPaymentAmount != Some("")
    && b.usage != Some("")
  }

  /** Writing a bill and reading it back gives the same bill, unless one of
      its texts is empty. */
  lemma {:induction false} RecordRoundTrip(component: string, fetchedAt: Instant, b: Bill)
    ensures NoEmptyTexts(b) <==> RowToBill(ToRecord(component, fetchedAt, b)) == b
  {
    var r := RowToBill(ToRecord(component, fetchedAt, b));
    if !NoEmptyTexts(b) {
      assert r.amountDue != Some("") && r.currentBalance != Some("");
      assert r.lastPaymentAmount != Some("") && r.usage != Some("");
    }
  }

  // ---------------------------------------------------------------------------
  // Per-component selection

  function OfComponent(rs: seq<Record>, c: string): (r: seq<Record>)
    ensures |r| <= |rs|
    ensures forall i | 0 <= i < |r| :: r[i].component == c
    ensures forall x | x in rs && x.component == c :: x in r
    ensures forall x | x in r :: x in rs
  {
    if |rs| == 0 then []
    else (if rs[0].component == c then [rs[0]] else []) + OfComponent(rs[1..], c)
  }

  function Others(rs: seq<Record>, c: string): (r: seq<Record>)
    ensures |r| <= |rs|
    ensures forall i | 0 <= i < |r| :: r[i].component != c
    ensures forall x | x in rs && x.component != c :: x in r
    ensures forall x | x in r :: x in rs
  {
    if |rs| == 0 then []
    else (if rs[0].component != c then [rs[0]] else []) + Others(rs[1..], c)
  }

  function ToRecords(component: string, fetchedAt: Instant, items: seq<Bill>): (r: seq<Record>)
    ensures |r| == |items|
    ensures forall i | 0 <= i < |items| :: r[i] == ToRecord(component, fetchedAt, items[i])
  {
    if |items| == 0 then [] else [ToRecord(component, fetchedAt, items[0])] + ToRecords(component, fetchedAt, items[1..])
  }

  function ArchiveAll(rs: seq<Record>): (h: seq<HistoryRow>)
    ensures |h| == |rs| && forall i | 0 <= i < |rs| :: h[i] == Archive(rs[i])
  {
    if |rs| == 0 then [] else [Archive(rs[0])] + ArchiveAll(rs[1..])
  }

  /** `save_bills(component, items)` at `now`: archive the component's
      current rows, delete them, insert the new run. */
  function SaveBills(db: Db, component: string, items: seq<Bill>, now: Instant): (r: Db)
    ensures r.history == db.history + ArchiveAll(OfComponent(db.records, component))
  {
    Db(Others(db.records, component) + ToRecords(component, now, items),
       db.history + ArchiveAll(OfComponent(db.records, component)))
  }

  lemma {:induction false} OfComponentConcat(a: seq<Record>, b: seq<Record>, c: string)
    ensures OfComponent(a + b, c) == OfComponent(a, c) + OfComponent(b, c)
    decreases |a|
  {
    if |a| > 0 {
      assert (a + b)[1..] == a[1..] + b;
      OfComponentConcat(a[1..], b, c);
      var head := if a[0].component == c then [a[0]] else [];
      assert (a + b)[0] == a[0];
      assert OfComponent(a + b, c) == head + OfComponent(a[1..] + b, c);
      assert OfComponent(a, c) == head + OfComponent(a[1..], c);
    } else {
      assert a + b == b;
    }
  }

  lemma {:induction false} OthersConcat(a: seq<Record>, b: seq<Record>, c: string)
    ensures Others(a + b, c) == Others(a, c) + Others(b, c)
    decreases |a|
  {
    if |a| > 0 {
      assert (a + b)[1..] == a[1..] + b;
      OthersConcat(a[1..], b, c);
      var head := if a[0].component != c then [a[0]] else [];
      assert (a + b)[0] == a[0];
      assert Others(a + b, c) == head + Others(a[1..] + b, c);
      assert Others(a, c) == head + Others(a[1..], c);
    } else {
      assert a + b == b;
    }
  }

  lemma {:induction false} OfComponentOfOthers(rs: seq<Record>, c: string)
    ensures OfComponent(Others(rs, c), c) == []
    decreases |rs|
  {
    if |rs| > 0 {
      var head := if rs[0].component != c then [rs[0]] else [];
      OfComponentOfOthers(rs[1..], c);
      OfComponentConcat(head, Others(rs[1..], c), c);
    }
  }

  lemma {:induction false} OfComponentAll(rs: seq<Record>, c: string)
    requires forall i | 0 <= i < |rs| :: rs[i].component == c
    ensures OfComponent(rs, c) == rs && Others(rs, c) == []
    decreases |rs|
  {
    if |rs| > 0 {
      OfComponentAll(rs[1..], c);
    }
  }

  lemma {:induction false} OthersOfOthers(rs: seq<Record>, c: string)
    ensures Others(Others(rs, c), c) == Others(rs, c)
    decreases |rs|
  {
    if |rs| > 0 {
      var head := if rs[0].component != c then [rs[0]] else [];
      OthersOfOthers(rs[1..], c);
      OthersConcat(head, Others(rs[1..], c), c);
    }
  }

  /** After a save the component's current rows are exactly the new run, in
      order, all stamped with one fetch time; every other component's rows
      are as they were. */
  lemma {:induction false} SaveReplacesRun(db: Db, component: string, items: seq<Bill>, now: Instant)
    ensures var r := SaveBills(db, component, items, now);
      && OfComponent(r.records, component) == ToRecords(component, now, items)
      && (forall i | 0 <= i < |items| :: OfComponent(r.records, component)[i].fetchedAt == now)
      && Others(r.records, component) == Others(db.records, component)
  {
    var others := Others(db.records, component);
    var newRows := ToRecords(component, now, items);
    OfComponentConcat(others, newRows, component);
    OthersConcat(others, newRows, component);
    OfComponentOfOthers(db.records, component);
    OfComponentAll(newRows, component);
    OthersOfOthers(db.records, component);
    assert others + [] == others;
  }

  /** A row of another component survives any save. */
  lemma {:induction false} SaveKeepsOtherRows(db: Db, component: string, items: seq<Bill>, now: Instant, x: Record)
    requires x in db.records && x.component != component
    ensures x in SaveBills(db, component, items, now).records
  {
  }

  // ---------------------------------------------------------------------------
  // get_latest_bill_records

  /** Byte-wise string order, as the database compares text. */
  predicate StrLe(a: string, b: string)
    decreases |a|
  {
    |a| == 0 || (|b| > 0 && (a[0] < b[0] || (a[0] == b[0] && StrLe(a[1..], b[1..]))))
  }

  lemma {:induction false} StrLeTotal(a: string, b: string)
    ensures StrLe(a, b) || StrLe(b, a)
    decreases |a|
  {
    if |a| > 0 && |b| > 0 && a[0] == b[0] {
      StrLeTotal(a[1..], b[1..]);
    }
  }

  lemma {:induction false} StrLeTrans(a: string, b: string, c: string)
    requires StrLe(a, b) && StrLe(b, c)
    ensures StrLe(a, c)
    decreases |a|
  {
    if |a| > 0 && a[0] == b[0] && b[0] == c[0] {
      StrLeTrans(a[1..], b[1..], c[1..]);
    }
  }

  /** NULL sources sort first in ascending order. */
  predicate SourceLe(a: Option<string>, b: Option<string>) {
    a.None? || (b.Some? && StrLe(a.value, b.value))
  }

  /** `due_date` ascending with NULLs last. */
  function DueOrder(d: Option<Date>): int {
    match d
    case Some(x) => DateKey(x)
    case None => DateKey(LastDate) + 1
  }

  /** `ORDER BY due_date ASC NULLS LAST, source`. */
  predicate RecordLe(a: Record, b: Record) {
    DueOrder(a.dueDate) < DueOrder(b.dueDate)
    || (DueOrder(a.dueDate) == DueOrder(b.dueDate) && SourceLe(a.source, b.source))
  }

  lemma {:induction false} RecordLeIsPreorder()
    ensures TotalPreorder(RecordLe)
  {
    forall a: Record, b: Record
      ensures RecordLe(a, b) || RecordLe(b, a)
    {
      if a.source.Some? && b.source.Some? {
        StrLeTotal(a.source.value, b.source.value);
      }
    }
    forall a: Record, b: Record, c: Record | RecordLe(a, b) && RecordLe(b, c)
      ensures RecordLe(a, c)
    {
      if a.source.Some? && b.source.Some? && c.source.Some? && StrLe(a.source.value, b.source.value)
         && StrLe(b.source.value, c.source.value) {
        StrLeTrans(a.source.value, b.source.value, c.source.value);
      }
    }
  }

  /** The latest fetch time among the rows. */
  function MaxFetched(rs: seq<Record>): (m: Option<Instant>)
    ensures m.None? <==> |rs| == 0
    ensures m.Some? ==> (exists i | 0 <= i < |rs| :: rs[i].fetchedAt == m.value)
    ensures m.Some? ==> forall i | 0 <= i < |rs| :: rs[i].fetchedAt <= m.value
  {
    if |rs| == 0 then None
    else
      match MaxFetched(rs[1..])
      case None => Some(rs[0].fetchedAt)
      case Some(t) =>
        Some(if rs[0].fetchedAt >= t then rs[0].fetchedAt else t)
  }

  function FetchedAt(rs: seq<Record>, t: Instant): (r: seq<Record>)
    ensures |r| <= |rs|
    ensures forall i | 0 <= i < |r| :: r[i].fetchedAt == t
    ensures forall x | x in rs && x.fetchedAt == t :: x in r
    ensures forall x | x in r :: x in rs
  {
    if |rs| == 0 then []
    else (if rs[0].fetchedAt == t then [rs[0]] else []) + FetchedAt(rs[1..], t)
  }

  /** `get_latest_bill_records(component)`: the component's rows at its
      latest fetch time, in `RecordLe` order (the database leaves ties in
      an unspecified order; the model keeps them in table order). */
  function LatestRecords(db: Db, component: string): (r: seq<Record>)
    ensures forall x | x in r :: x in db.records && x.component == component
    ensures OfComponent(db.records, component) == [] ==> r == []
  {
    var own := OfComponent(db.records, component);
    match MaxFetched(own)
    case None => []
    case Some(t) =>
      var run := FetchedAt(own, t);
      var sorted := Sort(run, RecordLe);
      assert forall x | x in sorted :: x in run by {
        forall x | x in sorted ensures x in run {
          assert x in multiset(sorted);
        }
      }
      sorted
  }

  /** The latest run is in due-date order, and no row of the component is
      newer than it. */
  lemma {:induction false} LatestRunOrdered(db: Db, component: string)
    ensures SortedBy(LatestRecords(db, component), RecordLe)
    ensures forall i, x | 0 <= i < |LatestRecords(db, component)| && x in db.records && x.component == component ::
      x.fetchedAt <= LatestRecords(db, component)[i].fetchedAt
  {
    RecordLeIsPreorder();
    var own := OfComponent(db.records, component);
    if MaxFetched(own).Some? {
      var t := MaxFetched(own).value;
      SortIsSorted(FetchedAt(own, t), RecordLe);
      var sorted := Sort(FetchedAt(own, t), RecordLe);
      forall i | 0 <= i < |sorted| ensures sorted[i].fetchedAt == t {
        assert sorted[i] in multiset(sorted);
      }
      forall x | x in db.records && x.component == component ensures x.fetchedAt <= t {
        var k :| 0 <= k < |own| && own[k] == x;
      }
    }
  }

  /** Right after a save of a non-empty run, reading the latest run gives
      back every saved bill (with empty texts as None), in due-date order. */
  lemma {:induction false} SaveThenLatest(db: Db, component: string, items: seq<Bill>, now: Instant)
    requires |items| > 0
    ensures LatestRecords(SaveBills(db, component, items, now), component)
         == Sort(ToRecords(component, now, items), RecordLe)
  {
    SaveReplacesRun(db, component, items, now);
    var newRows := ToRecords(component, now, items);
    assert MaxFetched(newRows) == Some(now);
    FetchedAtAll(newRows, now);
  }

  lemma {:induction false} FetchedAtAll(rs: seq<Record>, t: Instant)
    requires forall i | 0 <= i < |rs| :: rs[i].fetchedAt == t
    ensures FetchedAt(rs, t) == rs
    decreases |rs|
  {
    if |rs| > 0 {
      FetchedAtAll(rs[1..], t);
    }
  }

  function RowsToBills(rs: seq<Record>): (r: seq<Bill>)
    ensures |r| == |rs| && forall i | 0 <= i < |rs| :: r[i] == RowToBill(rs[i])
  {
    if |rs| == 0 then [] else [RowToBill(rs[0])] + RowsToBills(rs[1..])
  }

  /** `get_latest_bills(component)`, with the record that declares `usage`. */
  function LatestBills(db: Db, component: string): (r: seq<Bill>)
    ensures |r| == |LatestRecords(db, component)|
  {
    RowsToBills(LatestRecords(db, component))
  }

  // ---------------------------------------------------------------------------
  // The read path as written

  /** `_row_to_bill` as written: it passes `usage=` to the declared record,
      which raises TypeError whatever the row holds. */
  function RowToBillAsWritten(r: Record): (b: Outcome<Bill>)
    ensures b.Raised? && b.error == TypeError
  {
    var bill := RowToBill(r);
    UsageKeywordRaises(bill);
    BuildAsDeclared(PassedFields, bill)
  }

  /** `[_row_to_bill(r) for r in rows]` as written: the first row raises. */
  function RowsToBillsAsWritten(rs: seq<Record>): (r: Outcome<seq<Bill>>)
    ensures r.Raised? <==> |rs| > 0
    ensures r.Raised? ==> r.error == TypeError
    ensures r.Ok? ==> r.value == []
  {
    if |rs| == 0 then Ok([])
    else
      match RowToBillAsWritten(rs[0])
      case Raised(e) => Raised(e)
      case Ok(b) => Ok([b])
  }

  /** `get_latest_bills(component)` as written: it returns only when the
      latest run is empty, and raises TypeError otherwise. */
  function LatestBillsAsWritten(db: Db, component: string): (r: Outcome<seq<Bill>>)
    ensures r.Raised? <==> |LatestRecords(db, component)| > 0
    ensures r.Raised? ==> r.error == TypeError
    ensures r.Ok? ==> r.value == [] && LatestBills(db, component) == []
  {
    RowsToBillsAsWritten(LatestRecords(db, component))
  }

  /** As written, reading back any non-empty save raises TypeError, where
      the corrected read gives one bill per saved item. */
  lemma {:induction false} SaveThenLatestRaisesAsWritten(db: Db, component: string, items: seq<Bill>, now: Instant)
    requires |items| > 0
    ensures LatestBillsAsWritten(SaveBills(db, component, items, now), component) == Raised(TypeError)
    ensures |LatestBills(SaveBills(db, component, items, now), component)| == |items|
  {
    SaveThenLatest(db, component, items, now);
    assert |Sort(ToRecords(component, now, items), RecordLe)| == |items|;
  }
}
