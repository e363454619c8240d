/** Python's `list.sort(key=...)`: a stable sort. It is modelled as an
    insertion sort over an ordering `le` and characterised by three facts:
    the result is sorted, it is a permutation of the input, and elements the
    ordering cannot tell apart keep their input order. */
module Sorting {

  /** `le` is total and transitive, as `<=` on sort keys is. */
  ghost predicate TotalPreorder<T(!new)>(le: (T, T) -> bool) {
    && (forall a, b :: le(a, b) || le(b, a))
    && (forall a, b, c :: le(a, b) && le(b, c) ==> le(a, c))
  }

  predicate SortedBy<T>(xs: seq<T>, le: (T, T) -> bool) {
    forall i, j :: 0 <= i < j < |xs| ==> le(xs[i], xs[j])
  }

  /** The elements of `xs` the ordering places level with `k`, in order. */
  function Level<T>(xs: seq<T>, k: T, le: (T, T) -> bool): (r: seq<T>)
    ensures |r| <= |xs|
  {
    if xs == [] then []
    else (if le(xs[0], k) && le(k, xs[0]) then [xs[0]] else []) + Level(xs[1..], k, le)
  }

  /** Place `x` in front of the first element it is not after. */
  function Insert<T>(x: T, xs: seq<T>, le: (T, T) -> bool): (r: seq<T>)
    ensures |r| == |xs| + 1
    ensures multiset(r) == multiset(xs) + multiset{x}
  {
    if xs == [] then [x]
    else if le(x, xs[0]) then [x] + xs
    else
      assert xs == [xs[0]] + xs[1..];
      [xs[0]] + Insert(x, xs[1..], le)
  }

  /** `sorted(xs, key=...)`. */
  function Sort<T>(xs: seq<T>, le: (T, T) -> bool): (r: seq<T>)
    ensures |r| == |xs|
    ensures multiset(r) == multiset(xs)
  {
    if xs == [] then []
    else
      assert xs == [xs[0]] + xs[1..];
      Insert(xs[0], Sort(xs[1..], le), le)
  }

  lemma {:induction false} InsertSorted<T(!new)>(x: T, xs: seq<T>, le: (T, T) -> bool)
    requires TotalPreorder(le) && SortedBy(xs, le)
    ensures SortedBy(Insert(x, xs, le), le)
    decreases |xs|
  {
    if xs == [] || le(x, xs[0]) {
    } else {
      InsertSorted(x, xs[1..], le);
      var rest := Insert(x, xs[1..], le);
      assert multiset(rest) == multiset(xs[1..]) + multiset{x};
      forall j | 0 <= j < |rest|
        ensures le(xs[0], rest[j])
      {
        assert rest[j] in multiset(rest);
        if rest[j] != x {
          assert rest[j] in multiset(xs[1..]);
          var i :| 0 <= i < |xs[1..]| && xs[1..][i] == rest[j];
          assert xs[i + 1] == rest[j];
        }
      }
    }
  }

  /** The sort returns its input in order. */
  lemma {:induction false} SortIsSorted<T(!new)>(xs: seq<T>, le: (T, T) -> bool)
    requires TotalPreorder(le)
    ensures SortedBy(Sort(xs, le), le)
  {
    if xs != [] {
      SortIsSorted(xs[1..], le);
      InsertSorted(xs[0], Sort(xs[1..], le), le);
    }
  }

  lemma {:induction false} LevelConcat<T>(a: seq<T>, b: seq<T>, k: T, le: (T, T) -> bool)
    ensures Level(a + b, k, le) == Level(a, k, le) + Level(b, k, le)
    decreases |a|
  {
    if a == [] {
      assert a + b == b;
    } else {
      assert (a + b)[1..] == a[1..] + b;
      LevelConcat(a[1..], b, k, le);
    }
  }

  /** Inserting an element that comes first among its level puts it at the
      front of that level. */
  lemma {:induction false} InsertLevel<T(!new)>(x: T, xs: seq<T>, k: T, le: (T, T) -> bool)
    requires TotalPreorder(le)
    ensures Level(Insert(x, xs, le), k, le) == Level([x], k, le) + Level(xs, k, le)
    decreases |xs|
  {
    if xs == [] {
      assert Insert(x, xs, le) == [x] + xs;
    } else if le(x, xs[0]) {
      assert Insert(x, xs, le) == [x] + xs;
      LevelConcat([x], xs, k, le);
    } else {
      InsertLevel(x, xs[1..], k, le);
      // xs[0] comes strictly before x, so the two are not both level with k
      assert !(le(x, k) && le(k, xs[0]));
      assert Insert(x, xs, le) == [xs[0]] + Insert(x, xs[1..], le);
      assert xs == [xs[0]] + xs[1..];
      LevelPastHead(x, xs[0], xs[1..], Insert(x, xs[1..], le), k, le);
    }
  }

  /** Placing `x` after a head `y` that is not level with `k` together with
      it: the levels of `x` and `y` commute. */
  lemma {:induction false} LevelPastHead<T>(x: T, y: T, tail: seq<T>, rest: seq<T>, k: T, le: (T, T) -> bool)
    requires !(le(x, k) && le(k, y))
    requires Level(rest, k, le) == Level([x], k, le) + Level(tail, k, le)
    ensures Level([y] + rest, k, le) == Level([x], k, le) + Level([y] + tail, k, le)
  {
    var a, b, l := Level([x], k, le), Level([y], k, le), Level(tail, k, le);
    LevelSingle(x, k, le);
    LevelSingle(y, k, le);
    assert ([y] + rest)[0] == y && ([y] + rest)[1..] == rest;
    assert ([y] + tail)[0] == y && ([y] + tail)[1..] == tail;
    assert a == [] || b == [];
    assert b + (a + l) == a + (b + l);
  }

  lemma {:induction false} LevelSingle<T>(x: T, k: T, le: (T, T) -> bool)
    ensures Level([x], k, le) == if le(x, k) && le(k, x) then [x] else []
  {
    assert [x][1..] == [];
  }

  /** Stability: the elements level with any `k` come out in input order. */
  lemma {:induction false} SortIsStable<T(!new)>(xs: seq<T>, k: T, le: (T, T) -> bool)
    requires TotalPreorder(le)
    ensures Level(Sort(xs, le), k, le) == Level(xs, k, le)
  {
    if xs != [] {
      SortIsStable(xs[1..], k, le);
      InsertLevel(xs[0], Sort(xs[1..], le), k, le);
      assert xs == [xs[0]] + xs[1..];
      LevelConcat([xs[0]], xs[1..], k, le);
    }
  }

  /** Ordering by an integer key, as `key=` with comparable keys does. */
  function ByKey<T(!new)>(key: T -> int): (le: (T, T) -> bool)
    ensures forall a, b :: le(a, b) == (key(a) <= key(b))
  {
    (a, b) => key(a) <= key(b)
  }

  lemma {:induction false} ByKeyIsPreorder<T(!new)>(key: T -> int)
    ensures TotalPreorder(ByKey(key))
  {
  }

  /** After sorting by a key, the last element has the largest key and is
      one of the input's elements. */
  lemma {:induction false} SortByKeyLast<T(!new)>(xs: seq<T>, key: T -> int)
    requires |xs| > 0
    ensures forall i | 0 <= i < |xs| :: key(xs[i]) <= key(Sort(xs, ByKey(key))[|xs| - 1])
    ensures Sort(xs, ByKey(key))[|xs| - 1] in xs
  {
    var le := ByKey(key);
    var s := Sort(xs, le);
    var n := |s|;
    ByKeyIsPreorder(key);
    SortIsSorted(xs, le);
    forall i | 0 <= i < |xs| ensures key(xs[i]) <= key(s[n - 1]) {
      assert xs[i] in multiset(s);
      var j := IndexOf(s, xs[i]);
      if j < n - 1 {
        assert le(s[j], s[n - 1]);
      }
    }
    assert s[n - 1] in multiset(xs);
  }

  lemma {:induction false} IndexOf<T>(s: seq<T>, x: T) returns (j: nat)
    requires x in s
    ensures j < |s| && s[j] == x
  {
    j :| 0 <= j < |s| && s[j] == x;
  }
}
