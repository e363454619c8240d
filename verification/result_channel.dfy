/** The consumer side of the result queue in `dashboard/core/app.py`.

    Background runs put `(task_name, result)` pairs on the queue; the main
    loop takes them off in order and hands each result to components by
    name. The components are represented by their names, in the order of
    `self.components`; whether a component's `handle_background_result`
    raises is the oracle `raises(index, result)`.
 */
module ResultChannel {
  import opened Wrappers
  import opened Values
  import opened Payloads
  import opened TaskManager

  /** One call of `handle_background_result` on the component at `component`. */
  datatype Delivery = Delivery(component: nat, result: Payload)

  /** The delay in milliseconds with which the drain re-arms itself. */
  const DRAIN_INTERVAL_MS: int := 1000

  /** The first component, in list order, whose name is `task`. */
  function FirstMatch(names: seq<string>, task: string): (r: Option<nat>)
    ensures r.Some? ==> r.value < |names| && names[r.value] == task
    ensures r.Some? ==> forall j :: 0 <= j < r.value ==> names[j] != task
    ensures r.None? <==> forall j :: 0 <= j < |names| ==> names[j] != task
  {
    if |names| == 0 then None
    else if names[0] == task then Some(0)
    else match FirstMatch(names[1..], task)
      case None => None
      case Some(j) => Some(j + 1)
  }

  /** Every component, in list order, whose name is `task`. */
  function AllMatches(names: seq<string>, task: string): (r: seq<nat>)
    ensures forall k :: 0 <= k < |r| ==> r[k] < |names| && names[r[k]] == task
    ensures forall j :: 0 <= j < |names| && names[j] == task ==> j in r
    ensures forall k, l :: 0 <= k < l < |r| ==> r[k] < r[l]
  {
    MatchesFrom(names, task, 0)
  }

  function MatchesFrom(names: seq<string>, task: string, i: nat): (r: seq<nat>)
    requires i <= |names|
    ensures forall k :: 0 <= k < |r| ==> i <= r[k] < |names| && names[r[k]] == task
    ensures forall j :: i <= j < |names| && names[j] == task ==> j in r
    ensures forall k, l :: 0 <= k < l < |r| ==> r[k] < r[l]
    decreases |names| - i
  {
    if i == |names| then []
    else if names[i] == task then [i] + MatchesFrom(names, task, i + 1)
    else MatchesFrom(names, task, i + 1)
  }

  /** What one drain pass does, entry by entry: the calls it makes and the
      entries still queued when it stops. An entry goes to its first
      matching component only; an entry nobody matches is dropped; a raising
      handler ends the pass with the rest of the queue left in place. */
  function DrainSpec(queue: seq<Message>, names: seq<string>, raises: (nat, Payload) -> bool): (r: (seq<Delivery>, seq<Message>))
    ensures |r.0| <= |queue| && |r.1| <= |queue|
    ensures r.1 == queue[|queue| - |r.1|..]
    decreases |queue|
  {
    if |queue| == 0 then ([], [])
    else
      var msg := queue[0];
      match FirstMatch(names, msg.task)
      case None => DrainSpec(queue[1..], names, raises)
      case Some(j) =>
        if raises(j, msg.result) then ([Delivery(j, msg.result)], queue[1..])
        else
          var rest := DrainSpec(queue[1..], names, raises);
          ([Delivery(j, msg.result)] + rest.0, rest.1)
  }

  /** One unfolding of `DrainSpec`. */
  lemma {:induction false} DrainStep(queue: seq<Message>, names: seq<string>, raises: (nat, Payload) -> bool)
    requires |queue| > 0
    ensures var target := FirstMatch(names, queue[0].task);
      var rest := DrainSpec(queue[1..], names, raises);
      DrainSpec(queue, names, raises) ==
        if target.None? then rest
        else if raises(target.value, queue[0].result) then ([Delivery(target.value, queue[0].result)], queue[1..])
        else ([Delivery(target.value, queue[0].result)] + rest.0, rest.1)
  {
  }

  /** Taking entry `i` off the queue keeps the drain on course. */
  lemma {:induction false} DrainAdvance(queue: seq<Message>, names: seq<string>, raises: (nat, Payload) -> bool, i: nat, delivered: seq<Delivery>)
    requires i < |queue|
    requires DrainSpec(queue, names, raises).0 == delivered + DrainSpec(queue[i..], names, raises).0
    requires DrainSpec(queue, names, raises).1 == DrainSpec(queue[i..], names, raises).1
    ensures var target := FirstMatch(names, queue[i].task);
      var next := if target.Some? then delivered + [Delivery(target.value, queue[i].result)] else delivered;
      if target.Some? && raises(target.value, queue[i].result) then
        DrainSpec(queue, names, raises) == (next, queue[i + 1..])
      else
        && DrainSpec(queue, names, raises).0 == next + DrainSpec(queue[i + 1..], names, raises).0
        && DrainSpec(queue, names, raises).1 == DrainSpec(queue[i + 1..], names, raises).1
  {
    var q := queue[i..];
    assert q[0] == queue[i] && q[1..] == queue[i + 1..];
    DrainStep(q, names, raises);
    var target := FirstMatch(names, queue[i].task);
    var rest := DrainSpec(queue[i + 1..], names, raises);
    if target.None? {
      assert DrainSpec(q, names, raises) == rest;
    } else {
      var d := Delivery(target.value, queue[i].result);
      if raises(target.value, queue[i].result) {
        assert DrainSpec(q, names, raises) == ([d], queue[i + 1..]);
      } else {
        assert DrainSpec(q, names, raises) == ([d] + rest.0, rest.1);
        assert delivered + ([d] + rest.0) == (delivered + [d]) + rest.0;
      }
    }
  }

  /** The outcome of `_drain_result_queue`. */
  datatype DrainResult = DrainResult(delivered: seq<Delivery>, remaining: seq<Message>, rearmMs: int)

  /** `_drain_result_queue`: take entries off the front until the queue is
      empty or a handler raises, then re-arm in 1000 ms either way. */
  method Drain(queue: seq<Message>, names: seq<string>, raises: (nat, Payload) -> bool) returns (r: DrainResult)
    ensures (r.delivered, r.remaining) == DrainSpec(queue, names, raises)
    ensures r.rearmMs == DRAIN_INTERVAL_MS
  {
    var delivered: seq<Delivery> := [];
    var i := 0;
    var stopped := false;
    assert queue[0..] == queue;
    assert delivered + DrainSpec(queue, names, raises).0 == DrainSpec(queue, names, raises).0;
    while i < |queue| && !stopped
      invariant 0 <= i <= |queue|
      invariant !stopped ==>
        && DrainSpec(queue, names, raises).0 == delivered + DrainSpec(queue[i..], names, raises).0
        && DrainSpec(queue, names, raises).1 == DrainSpec(queue[i..], names, raises).1
      invariant stopped ==> DrainSpec(queue, names, raises) == (delivered, queue[i..])
      decreases |queue| - i, !stopped
    {
      DrainAdvance(queue, names, raises, i, delivered);
      var msg := queue[i];
      var target := FirstMatch(names, msg.task);
      if target.Some? {
        delivered := delivered + [Delivery(target.value, msg.result)];
        stopped := raises(target.value, msg.result);
      }
      i := i + 1;
    }
    if !stopped {
      assert queue[i..] == [];
      assert delivered + [] == delivered;
    }
    r := DrainResult(delivered, queue[i..], DRAIN_INTERVAL_MS);
  }

  /** The result-dispatch loop of `update_components`: the same as the drain,
      except that there is no `break`, so an entry reaches every component
      with its name. The first raising handler ends the loop. */
  function UpdateSpec(queue: seq<Message>, names: seq<string>, raises: (nat, Payload) -> bool): (r: (seq<Delivery>, seq<Message>))
    ensures |r.1| <= |queue| && r.1 == queue[|queue| - |r.1|..]
    decreases |queue|
  {
    if |queue| == 0 then ([], [])
    else
      var msg := queue[0];
      var calls := DeliverAll(AllMatches(names, msg.task), msg.result, raises);
      if calls.1 then (calls.0, queue[1..])
      else
        var rest := UpdateSpec(queue[1..], names, raises);
        (calls.0 + rest.0, rest.1)
  }

  /** Hand one result to each of `targets` in order, stopping after the first
      call that raises; the flag says whether one raised. */
  function DeliverAll(targets: seq<nat>, result: Payload, raises: (nat, Payload) -> bool): (r: (seq<Delivery>, bool))
    ensures |r.0| <= |targets|
    ensures forall k :: 0 <= k < |r.0| ==> r.0[k] == Delivery(targets[k], result)
    ensures !r.1 <==> |r.0| == |targets| && forall k :: 0 <= k < |targets| ==> !raises(targets[k], result)
  {
    if |targets| == 0 then ([], false)
    else if raises(targets[0], result) then ([Delivery(targets[0], result)], true)
    else
      var rest := DeliverAll(targets[1..], result, raises);
      ([Delivery(targets[0], result)] + rest.0, rest.1)
  }

  // ---------------------------------------------------------------------------
  // Properties of the two dispatch loops

  ghost predicate NeverRaises(raises: (nat, Payload) -> bool) {
    forall j: nat, v: Payload :: !raises(j, v)
  }

  predicate DistinctNames(names: seq<string>) {
    forall j, k :: 0 <= j < k < |names| ==> names[j] != names[k]
  }

  /** When no handler raises, a drain empties the queue. */
  lemma {:induction false} DrainEmptiesQueue(queue: seq<Message>, names: seq<string>, raises: (nat, Payload) -> bool)
    requires NeverRaises(raises)
    ensures DrainSpec(queue, names, raises).1 == []
    decreases |queue|
  {
    if |queue| > 0 {
      DrainEmptiesQueue(queue[1..], names, raises);
    }
  }

  /** Entries no component is named after are dropped without a call. */
  lemma {:induction false} DrainDropsUnmatched(queue: seq<Message>, names: seq<string>, raises: (nat, Payload) -> bool)
    requires forall k :: 0 <= k < |queue| ==> queue[k].task !in names
    ensures DrainSpec(queue, names, raises) == ([], [])
    decreases |queue|
  {
    if |queue| > 0 {
      assert FirstMatch(names, queue[0].task).None?;
      DrainDropsUnmatched(queue[1..], names, raises);
    }
  }

  /** FIFO: draining `a + b` makes the calls for `a` before those for `b`. */
  lemma {:induction false} DrainConcat(a: seq<Message>, b: seq<Message>, names: seq<string>, raises: (nat, Payload) -> bool)
    requires NeverRaises(raises)
    ensures DrainSpec(a + b, names, raises).0 == DrainSpec(a, names, raises).0 + DrainSpec(b, names, raises).0
    decreases |a|
  {
    if |a| == 0 {
      assert a + b == b;
    } else {
      assert (a + b)[0] == a[0] && (a + b)[1..] == a[1..] + b;
      DrainConcat(a[1..], b, names, raises);
    }
  }

  /** The calls an uninterrupted drain would make: each entry that some
      component is named after, paired with the first such component, in
      queue order. */
  function Matched(queue: seq<Message>, names: seq<string>): (r: seq<Delivery>)
    ensures |r| <= |queue|
  {
    if |queue| == 0 then []
    else
      var here := match FirstMatch(names, queue[0].task)
        case None => []
        case Some(j) => [Delivery(j, queue[0].result)];
      here + Matched(queue[1..], names)
  }

  /** One unfolding of `Matched`. */
  lemma {:induction false} MatchedStep(queue: seq<Message>, names: seq<string>)
    requires |queue| > 0
    ensures Matched(queue, names) ==
      match FirstMatch(names, queue[0].task)
      case None => Matched(queue[1..], names)
      case Some(j) => [Delivery(j, queue[0].result)] + Matched(queue[1..], names)
  {
    if FirstMatch(names, queue[0].task).None? {
      assert [] + Matched(queue[1..], names) == Matched(queue[1..], names);
    }
  }

  /** A drain makes a prefix of those calls: in queue order, to the first
      match only, skipping unmatched entries, and cut short only by a
      raising handler. */
  lemma {:induction false} DrainIsPrefixOfMatched(queue: seq<Message>, names: seq<string>, raises: (nat, Payload) -> bool)
    ensures DrainSpec(queue, names, raises).0 <= Matched(queue, names)
    decreases |queue|
  {
    if |queue| > 0 {
      var rest := DrainSpec(queue[1..], names, raises).0;
      var more := Matched(queue[1..], names);
      DrainIsPrefixOfMatched(queue[1..], names, raises);
      DrainStep(queue, names, raises);
      MatchedStep(queue, names);
      match FirstMatch(names, queue[0].task)
      case None =>
      case Some(j) =>
        var d := Delivery(j, queue[0].result);
        assert ([d] + more)[..1] == [d];
        assert ([d] + more)[..1 + |rest|] == [d] + more[..|rest|];
    }
  }

  /** When no handler raises, the drain makes exactly those calls. */
  lemma {:induction false} DrainMakesEveryMatchedCall(queue: seq<Message>, names: seq<string>, raises: (nat, Payload) -> bool)
    requires NeverRaises(raises)
    ensures DrainSpec(queue, names, raises).0 == Matched(queue, names)
    decreases |queue|
  {
    if |queue| > 0 {
      DrainMakesEveryMatchedCall(queue[1..], names, raises);
      DrainStep(queue, names, raises);
      MatchedStep(queue, names);
    }
  }

  /** No component from `i` on has the name: no matches. */
  lemma {:induction false} NoMatchesFrom(names: seq<string>, task: string, i: nat)
    requires i <= |names|
    requires forall j :: i <= j < |names| ==> names[j] != task
    ensures MatchesFrom(names, task, i) == []
    decreases |names| - i
  {
    if i < |names| {
      NoMatchesFrom(names, task, i + 1);
    }
  }

  /** With distinct names an entry has no match or exactly its first one. */
  lemma {:induction false} MatchesOfDistinct(names: seq<string>, task: string, i: nat)
    requires i <= |names| && DistinctNames(names)
    ensures var f := FirstMatchFrom(names, task, i);
      MatchesFrom(names, task, i) == if f.Some? then [f.value] else []
    decreases |names| - i
  {
    if i < |names| {
      if names[i] == task {
        NoMatchesFrom(names, task, i + 1);
      } else {
        MatchesOfDistinct(names, task, i + 1);
      }
    }
  }

  /** The first component at or after `i` bearing the name. */
  function FirstMatchFrom(names: seq<string>, task: string, i: nat): (r: Option<nat>)
    requires i <= |names|
    decreases |names| - i
  {
    if i == |names| then None
    else if names[i] == task then Some(i)
    else FirstMatchFrom(names, task, i + 1)
  }

  lemma {:induction false} FirstMatchFromAgrees(names: seq<string>, task: string)
    ensures FirstMatchFrom(names, task, 0) == FirstMatch(names, task)
  {
    var f := FirstMatchFrom(names, task, 0);
    FirstMatchFromFacts(names, task, 0);
    match FirstMatch(names, task)
    case None =>
    case Some(j) =>
  }

  lemma {:induction false} FirstMatchFromFacts(names: seq<string>, task: string, i: nat)
    requires i <= |names|
    ensures var r := FirstMatchFrom(names, task, i);
      && (r.Some? ==> i <= r.value < |names| && names[r.value] == task
                      && forall j :: i <= j < r.value ==> names[j] != task)
      && (r.None? ==> forall j :: i <= j < |names| ==> names[j] != task)
    decreases |names| - i
  {
    if i < |names| {
      FirstMatchFromFacts(names, task, i + 1);
    }
  }

  /** The first step of both loops makes the same calls when names are distinct. */
  lemma {:induction false} HeadAgrees(msg: Message, names: seq<string>, raises: (nat, Payload) -> bool)
    requires DistinctNames(names)
    ensures var calls := DeliverAll(AllMatches(names, msg.task), msg.result, raises);
      match FirstMatch(names, msg.task)
      case None => calls == ([], false)
      case Some(j) => calls == ([Delivery(j, msg.result)], raises(j, msg.result))
  {
    MatchesOfDistinct(names, msg.task, 0);
    FirstMatchFromAgrees(names, msg.task);
    match FirstMatch(names, msg.task)
    case None =>
    case Some(j) =>
      var d := Delivery(j, msg.result);
      assert AllMatches(names, msg.task) == [j];
      assert [j][1..] == [];
      assert DeliverAll([j][1..], msg.result, raises) == ([], false);
      assert [d] + [] == [d];
  }

  /** When component names are distinct, delivering to every match is the
      same as delivering to the first one: the two loops agree. */
  lemma {:induction false} UpdateAgreesWithDrain(queue: seq<Message>, names: seq<string>, raises: (nat, Payload) -> bool)
    requires DistinctNames(names)
    ensures UpdateSpec(queue, names, raises) == DrainSpec(queue, names, raises)
    decreases |queue|
  {
    if |queue| > 0 {
      var msg := queue[0];
      HeadAgrees(msg, names, raises);
      DrainStep(queue, names, raises);
      UpdateAgreesWithDrain(queue[1..], names, raises);
      var calls := DeliverAll(AllMatches(names, msg.task), msg.result, raises);
      var rest := UpdateSpec(queue[1..], names, raises);
      assert UpdateSpec(queue, names, raises) == if calls.1 then (calls.0, queue[1..]) else (calls.0 + rest.0, rest.1);
      if FirstMatch(names, msg.task).None? {
        assert [] + rest.0 == rest.0;
      }
    }
  }

  /** Without the `break`, a result reaches every component of its name. */
  lemma {:induction false} UpdateReachesEveryMatch(msg: Message, names: seq<string>, raises: (nat, Payload) -> bool)
    requires forall j :: 0 <= j < |names| ==> !raises(j, msg.result)
    ensures var calls := UpdateSpec([msg], names, raises).0;
      && (forall j :: 0 <= j < |names| && names[j] == msg.task ==> Delivery(j, msg.result) in calls)
      && (forall d :: d in calls ==> d.result == msg.result && d.component < |names| && names[d.component] == msg.task)
  {
    var ms := AllMatches(names, msg.task);
    var calls := DeliverAll(ms, msg.result, raises);
    UpdateSingle(msg, names, raises);
    assert forall k :: 0 <= k < |ms| ==> !raises(ms[k], msg.result) by {
      forall k | 0 <= k < |ms| ensures !raises(ms[k], msg.result) {
        assert ms[k] < |names|;
      }
    }
    DeliverAllNoRaise(ms, msg.result, raises);
    forall j | 0 <= j < |names| && names[j] == msg.task
      ensures Delivery(j, msg.result) in calls.0
    {
      var k :| 0 <= k < |ms| && ms[k] == j;
      assert calls.0[k] == Delivery(j, msg.result);
    }
  }

  lemma {:induction false} DeliverAllNoRaise(targets: seq<nat>, result: Payload, raises: (nat, Payload) -> bool)
    requires forall k :: 0 <= k < |targets| ==> !raises(targets[k], result)
    ensures !DeliverAll(targets, result, raises).1
  {
    if |targets| > 0 {
      assert !raises(targets[0], result);
      DeliverAllNoRaise(targets[1..], result, raises);
    }
  }

  lemma {:induction false} UpdateSingle(msg: Message, names: seq<string>, raises: (nat, Payload) -> bool)
    ensures UpdateSpec([msg], names, raises).0 == DeliverAll(AllMatches(names, msg.task), msg.result, raises).0
  {
    var calls := DeliverAll(AllMatches(names, msg.task), msg.result, raises);
    assert [msg][0] == msg && [msg][1..] == [];
    assert UpdateSpec([msg][1..], names, raises) == ([], []);
    assert calls.0 + [] == calls.0;
  }
}
