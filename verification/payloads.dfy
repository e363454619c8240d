/** What a task saves and what it puts on the result queue next to its
    component name. The queue carries arbitrary Python objects; the plugins
    put plain data (dicts, lists, None), assignment lists with datetimes,
    prayer-time dicts of datetimes and a dict keyed by mosque name.
 */
module Payloads {
  import opened Values
  import opened Calendar
  import opened Classroom
  import opened Bills

  datatype Payload =
    | Data(v: Value)
    | AssignmentList(items: seq<Assignment>)
    | BillList(bills: seq<Bill>)
    | PrayerTimes(times: map<string, Instant>)
    | MosqueTimes(byName: map<Value, Value>)

  /** The `None` a task enqueues when it has nothing to report. */
  const NoResult: Payload := Data(VNull)
}
