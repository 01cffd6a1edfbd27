/**
 control/timed_queue.py: payloads held until their moment.

 `Queue` is the abstract value of the queue and its three operations; the class
 `TimedQueue` is the source's object, whose methods are proved against them. The
 main result, `RunIsFaithful`, is about whole runs: any mix of pushes, purges and
 drains at non-decreasing times.
 */
module TimedQueues {
  import opened Wrappers

  const MAX_LATENESS_SAMPLES := 20000

  /** A queued payload: its (clamped) release time and its insertion number. */
  datatype Item<+P> = Item(due: real, order: nat, payload: P)

  /** The drain order: release time first, then insertion. */
  predicate Before<P(!new)>(a: Item<P>, b: Item<P>) {
    a.due < b.due || (a.due == b.due && a.order < b.order)
  }

  ghost predicate Sorted<P(!new)>(s: seq<Item<P>>) {
    forall i, j :: 0 <= i < j < |s| ==> Before(s[i], s[j])
  }

  /** Items stay listed in insertion order: pushes append, everything else only filters. */
  ghost predicate InInsertionOrder<P(!new)>(s: seq<Item<P>>) {
    forall i, j :: 0 <= i < j < |s| ==> s[i].order < s[j].order
  }

  lemma SortedTail<P(!new)>(s: seq<Item<P>>)
    requires Sorted(s) && s != []
    ensures Sorted(s[1..]) && forall y :: y in s[1..] ==> Before(s[0], y)
  {
    var t := s[1..];
    forall i, j | 0 <= i < j < |t| ensures Before(t[i], t[j]) {
      assert t[i] == s[i + 1] && t[j] == s[j + 1];
    }
  }

  lemma SortedConcat<P(!new)>(a: seq<Item<P>>, b: seq<Item<P>>)
    requires Sorted(a) && Sorted(b)
    requires forall x, y :: x in a && y in b ==> Before(x, y)
    ensures Sorted(a + b)
  {
    forall i, j | 0 <= i < j < |a + b| ensures Before((a + b)[i], (a + b)[j]) {
      if i < |a| <= j {
        assert a[i] in a && b[j - |a|] in b;
      }
    }
  }

  function Insert<P(!new)>(x: Item<P>, s: seq<Item<P>>): (r: seq<Item<P>>)
    requires Sorted(s)
    requires forall y :: y in s ==> y.order != x.order
    ensures Sorted(r)
    ensures multiset(r) == multiset(s) + multiset{x}
  {
    if s == [] then [x]
    else
      SortedTail(s);
      assert s == [s[0]] + s[1..];
      if Before(x, s[0]) then
        SortedConcat([x], s);
        [x] + s
      else
        var r := Insert(x, s[1..]);
        assert forall y :: y in r ==> y in multiset(r);
        SortedConcat([s[0]], r);
        [s[0]] + r
  }

  /** Python's `ready.sort(key=(due, order))`. */
  function Sort<P(!new)>(s: seq<Item<P>>): (r: seq<Item<P>>)
    requires InInsertionOrder(s)
    ensures Sorted(r)
    ensures multiset(r) == multiset(s)
    ensures forall y :: y in r <==> y in s
  {
    if s == [] then []
    else
      assert s == [s[0]] + s[1..];
      var r := Insert(s[0], Sort(s[1..]));
      assert forall y :: y in r <==> y in multiset(r);
      r
  }

  /** The items of `s` satisfying `p`, in place order. */
  lemma FrontIsEarlier<P(!new)>(s: seq<Item<P>>)
    requires s != []
    ensures InInsertionOrder(s) ==>
      InInsertionOrder(s[..|s| - 1]) && forall y :: y in s[..|s| - 1] ==> y.order < s[|s| - 1].order
  {
    var front := s[..|s| - 1];
    if InInsertionOrder(s) {
      forall y | y in front ensures y.order < s[|s| - 1].order {
        var i :| 0 <= i < |front| && front[i] == y;
        assert s[i] == y;
      }
    }
  }

  function Select<P(!new)>(s: seq<Item<P>>, p: Item<P> -> bool): (r: seq<Item<P>>)
    ensures forall y :: y in r <==> y in s && p(y)
    ensures InInsertionOrder(s) ==> InInsertionOrder(r)
  {
    if s == [] then []
    else
      var front := s[..|s| - 1];
      var rest := Select(front, p);
      assert s == front + [s[|s| - 1]];
      FrontIsEarlier(s);
      if p(s[|s| - 1]) then rest + [s[|s| - 1]] else rest
  }

  lemma SelectNone<P(!new)>(p: Item<P> -> bool)
    ensures Select([], p) == []
  {
  }

  lemma SelectNext<P(!new)>(s: seq<Item<P>>, i: nat, p: Item<P> -> bool)
    requires i < |s|
    ensures Select(s[..i + 1], p) == Select(s[..i], p) + if p(s[i]) then [s[i]] else []
  {
    assert s[..i + 1][..i] == s[..i];
  }

  lemma SelectLast<P(!new)>(s: seq<Item<P>>, x: Item<P>, p: Item<P> -> bool)
    ensures Select(s + [x], p) == Select(s, p) + if p(x) then [x] else []
  {
    assert (s + [x])[..|s|] == s;
  }

  /** The order of two selections is no matter. */
  lemma {:induction false} SelectTwice<P(!new)>(s: seq<Item<P>>, p: Item<P> -> bool, q: Item<P> -> bool)
    ensures Select(Select(s, p), q) == Select(Select(s, q), p)
  {
    if s != [] {
      var front, x := s[..|s| - 1], s[|s| - 1];
      assert s == front + [x];
      SelectTwice(front, p, q);
      SelectLast(Select(front, p), x, q);
      SelectLast(Select(front, q), x, p);
    }
  }

  lemma {:induction false} SelectAll<P(!new)>(s: seq<Item<P>>, p: Item<P> -> bool)
    requires forall x :: x in s ==> p(x)
    ensures Select(s, p) == s
  {
    if s != [] {
      assert s == s[..|s| - 1] + [s[|s| - 1]];
      SelectAll(s[..|s| - 1], p);
    }
  }

  lemma {:induction false} SelectSplits<P(!new)>(s: seq<Item<P>>, p: Item<P> -> bool, q: Item<P> -> bool)
    requires forall y :: p(y) != q(y)
    ensures multiset(Select(s, p)) + multiset(Select(s, q)) == multiset(s)
  {
    if s != [] {
      SelectSplits(s[..|s| - 1], p, q);
      assert s == s[..|s| - 1] + [s[|s| - 1]];
    }
  }

  function Payloads<P(!new)>(s: seq<Item<P>>): seq<P> {
    seq(|s|, i requires 0 <= i < |s| => s[i].payload)
  }

  /** Where a payload pushed at `now` with declared time `when` is released. */
  function DueAt(when: Option<real>, now: real): real {
    if when.Some? && now <= when.value then when.value else now
  }

  datatype Queue<P(!new)> = Queue(items: seq<Item<P>>, nextOrder: nat, clamped: nat, lateness: seq<real>) {

    ghost predicate Valid() {
      && InInsertionOrder(items)
      && (forall x :: x in items ==> x.order < nextOrder)
      && |lateness| <= MAX_LATENESS_SAMPLES
    }

    function Push(when: Option<real>, payload: P, now: real): (q: Queue<P>)
      ensures Valid() ==> q.Valid()
    {
      Queue(items + [Item(DueAt(when, now), nextOrder, payload)],
            nextOrder + 1,
            if when.Some? && when.value < now then clamped + 1 else clamped,
            if when.None? then lateness
            else
              var all := lateness + [now - when.value];
              if |all| > MAX_LATENESS_SAMPLES then all[1..] else all)
    }

    /** What a drain at `now` releases, in the order it releases it. */
    function Ready(now: real): (r: seq<Item<P>>)
      requires Valid()
      ensures Sorted(r)
      ensures forall y :: y in r <==> y in items && y.due <= now
    {
      Sort(Select(items, (x: Item<P>) => x.due <= now))
    }

    function After(now: real): (q: Queue<P>)
      ensures Valid() ==> q.Valid()
      ensures forall y :: y in q.items <==> y in items && now < y.due
    {
      this.(items := Select(items, (x: Item<P>) => !(x.due <= now)))
    }

    function Purge(victim: P -> bool): (q: Queue<P>)
      ensures Valid() ==> q.Valid()
      ensures forall y :: y in q.items <==> y in items && !victim(y.payload)
    {
      this.(items := Select(items, (x: Item<P>) => !victim(x.payload)))
    }

    ghost function Purged(victim: P -> bool): seq<Item<P>> {
      Select(items, (x: Item<P>) => victim(x.payload))
    }
  }

  /**
   A push goes in last, for its time, or for `now` when it has none or that has passed;
   each push with a time is sampled for how late it came, the newest twenty thousand
   samples are kept, and the late ones are counted.
   */
  lemma PushExactly<P(!new)>(q: Queue<P>, when: Option<real>, payload: P, now: real)
    requires q.Valid()
    ensures var q' := q.Push(when, payload, now);
      && (exists x :: q'.items == q.items + [x] && x.payload == payload && x.order == q.nextOrder
                      && now <= x.due && match when case None => x.due == now
                                         case Some(t) => t <= x.due && (x.due == t || x.due == now))
      && q'.nextOrder == q.nextOrder + 1
      && match when
         case None => q'.clamped == q.clamped && q'.lateness == q.lateness
         case Some(t) =>
           && q'.clamped == q.clamped + (if now - t > 0.0 then 1 else 0)
           && q'.lateness != [] && q'.lateness[|q'.lateness| - 1] == now - t
           && if |q.lateness| < 20000 then
                |q'.lateness| == |q.lateness| + 1 && q'.lateness[..|q.lateness|] == q.lateness
              else |q'.lateness| == 20000 && q'.lateness[..19999] == q.lateness[1..]
  {
    var q' := q.Push(when, payload, now);
    var x := q'.items[|q.items|];
    assert q'.items == q.items + [x];
  }

  /** A purge that matches none of a selection leaves it as it was. */
  lemma PurgeSpares<P(!new)>(q: Queue<P>, victim: P -> bool, keep: Item<P> -> bool)
    requires forall x :: keep(x) ==> !victim(x.payload)
    ensures Select(q.Purge(victim).items, keep) == Select(q.items, keep)
  {
    var spared := (x: Item<P>) => !victim(x.payload);
    SelectTwice(q.items, spared, keep);
    SelectAll(Select(q.items, keep), spared);
  }

  ghost function Empty<P(!new)>(): Queue<P> { Queue([], 0, 0, []) }

  /** The source's class. */
  class TimedQueue<P(!new)> {
    var items: seq<Item<P>>
    var nextOrder: nat
    var clamped: nat
    var lateness: seq<real>

    ghost function View(): Queue<P> reads this { Queue(items, nextOrder, clamped, lateness) }

    ghost predicate Valid() reads this { View().Valid() }

    constructor ()
      ensures Valid() && View() == Empty()
    {
      items, nextOrder, clamped, lateness := [], 0, 0, [];
    }

    method Push(when: Option<real>, payload: P, now: real)
      requires Valid()
      modifies this
      ensures Valid() && View() == old(View()).Push(when, payload, now)
    {
      var dueAt: real;
      if when.None? {
        dueAt := now;
      } else {
        lateness := lateness + [now - when.value];
        if |lateness| > MAX_LATENESS_SAMPLES {
          lateness := lateness[1..];
        }
        if when.value < now {
          clamped := clamped + 1;
          dueAt := now;
        } else {
          dueAt := when.value;
        }
      }
      items := items + [Item(dueAt, nextOrder, payload)];
      nextOrder := nextOrder + 1;
    }

    method Due(now: real) returns (out: seq<P>)
      requires Valid()
      modifies this
      ensures Valid() && View() == old(View()).After(now)
      ensures out == Payloads(old(View()).Ready(now))
    {
      hide Sort;
      hide Select;
      var all, ready, later := items, [], [];
      SelectNone((x: Item<P>) => x.due <= now);
      SelectNone((x: Item<P>) => !(x.due <= now));
      assert all[..0] == [];
      for i := 0 to |all|
        invariant ready == Select(all[..i], (x: Item<P>) => x.due <= now)
        invariant later == Select(all[..i], (x: Item<P>) => !(x.due <= now))
        invariant View() == old(View())
      {
        SelectNext(all, i, (x: Item<P>) => x.due <= now);
        SelectNext(all, i, (x: Item<P>) => !(x.due <= now));
        if all[i].due <= now {
          ready := ready + [all[i]];
        } else {
          later := later + [all[i]];
        }
      }
      assert all[..|all|] == all;
      items := later;
      out := Payloads(Sort(ready));
    }

    method Purge(victim: P -> bool)
      requires Valid()
      modifies this
      ensures Valid() && View() == old(View()).Purge(victim)
    {
      hide Select;
      var all, kept := items, [];
      SelectNone((x: Item<P>) => !victim(x.payload));
      assert all[..0] == [];
      for i := 0 to |all|
        invariant kept == Select(all[..i], (x: Item<P>) => !victim(x.payload)) && View() == old(View())
      {
        SelectNext(all, i, (x: Item<P>) => !victim(x.payload));
        if !victim(all[i].payload) {
          kept := kept + [all[i]];
        }
      }
      assert all[..|all|] == all;
      items := kept;
    }

    method NextDue() returns (r: Option<real>)
      requires Valid()
      ensures r.None? <==> items == []
      ensures r.Some? ==> (exists x :: x in items && x.due == r.value)
                          && forall x :: x in items ==> r.value <= x.due
    {
      r := None;
      for i := 0 to |items|
        invariant r.None? <==> i == 0
        invariant r.Some? ==> (exists x :: x in items[..i] && x.due == r.value)
                              && forall x :: x in items[..i] ==> r.value <= x.due
      {
        assert items[..i + 1] == items[..i] + [items[i]];
        if r.None? || items[i].due < r.value {
          assert items[i] in items[..i + 1];
          r := Some(items[i].due);
        }
      }
    }

    method Pending() returns (n: nat)
      ensures n == |items|
    {
      n := |items|;
    }
  }

  // ---- whole runs -------------------------------------------------------

  datatype Step<!P(!new)> =
    | DoPush(when: Option<real>, payload: P, now: real)
    | DoPurge(victim: P -> bool)
    | DoDue(now: real)

  /** A run so far: the queue, and everything ever pushed, released and purged. */
  datatype History<P(!new)> = History(
    queue: Queue<P>, clock: real,
    pushed: seq<Item<P>>, released: seq<Item<P>>, purged: seq<Item<P>>)

  /** The clock never runs backwards. */
  ghost predicate Timely<P(!new)>(h: History<P>, s: Step<P>) {
    match s
    case DoPush(_, _, now) => h.clock <= now
    case DoPurge(_) => true
    case DoDue(now) => h.clock <= now
  }

  ghost function Next<P(!new)>(h: History<P>, s: Step<P>): History<P>
    requires h.queue.Valid()
  {
    match s
    case DoPush(when, payload, now) =>
      h.(queue := h.queue.Push(when, payload, now), clock := now,
         pushed := h.pushed + [Item(DueAt(when, now), h.queue.nextOrder, payload)])
    case DoPurge(victim) =>
      h.(queue := h.queue.Purge(victim), purged := h.purged + h.queue.Purged(victim))
    case DoDue(now) =>
      h.(queue := h.queue.After(now), clock := now, released := h.released + h.queue.Ready(now))
  }

  ghost predicate Faithful<P(!new)>(h: History<P>) {
    && h.queue.Valid()
    // item number i was the i-th push
    && |h.pushed| == h.queue.nextOrder
    && (forall i :: 0 <= i < |h.pushed| ==> h.pushed[i].order == i)
    // released once, purged once, or still pending
    && multiset(h.pushed) == multiset(h.released) + multiset(h.purged) + multiset(h.queue.items)
    // successive drains concatenate in drain order
    && Sorted(h.released)
    && (forall r :: r in h.released ==> r.due <= h.clock)
    && (forall r, x :: r in h.released && x in h.queue.items ==> Before(r, x))
  }

  lemma PushIsFaithful<P(!new)>(h: History<P>, when: Option<real>, payload: P, now: real)
    requires Faithful(h) && h.clock <= now
    ensures Faithful(Next(h, DoPush(when, payload, now)))
  {
    var x := Item(DueAt(when, now), h.queue.nextOrder, payload);
    assert forall y :: y in h.queue.items + [x] <==> y in h.queue.items || y == x;
    forall r | r in h.released ensures Before(r, x) {
      assert r in multiset(h.pushed);
      assert r in h.pushed;
    }
  }

  lemma PurgeIsFaithful<P(!new)>(h: History<P>, victim: P -> bool)
    requires Faithful(h)
    ensures Faithful(Next(h, DoPurge(victim)))
  {
    SelectSplits(h.queue.items, (x: Item<P>) => victim(x.payload), (x: Item<P>) => !victim(x.payload));
    var h' := Next(h, DoPurge(victim));
    assert forall y :: y in h'.queue.items ==> y in h.queue.items;
  }

  lemma DueIsFaithful<P(!new)>(h: History<P>, now: real)
    requires Faithful(h) && h.clock <= now
    ensures Faithful(Next(h, DoDue(now)))
  {
    var ready, later := h.queue.Ready(now), h.queue.After(now).items;
    assert multiset(ready) + multiset(later) == multiset(h.queue.items) by {
      SelectSplits(h.queue.items, (x: Item<P>) => x.due <= now, (x: Item<P>) => !(x.due <= now));
    }
    assert Sorted(h.released + ready) by { SortedConcat(h.released, ready); }
    forall r, x | r in h.released + ready && x in later ensures Before(r, x) {
      assert r in h.released || r in ready;
    }
  }

  lemma StepIsFaithful<P(!new)>(h: History<P>, s: Step<P>)
    requires Faithful(h) && Timely(h, s)
    ensures Faithful(Next(h, s))
  {
    match s
    case DoPush(when, payload, now) => PushIsFaithful(h, when, payload, now);
    case DoPurge(victim) => PurgeIsFaithful(h, victim);
    case DoDue(now) => DueIsFaithful(h, now);
  }

  ghost function Start<P(!new)>(clock: real): History<P> { History(Empty(), clock, [], [], []) }

  ghost function Run<P(!new)>(clock: real, steps: seq<Step<P>>): (h: Option<History<P>>)
    ensures h.Some? ==> Faithful(h.value)
  {
    if steps == [] then Some(Start(clock))
    else
      var h := Run(clock, steps[..|steps| - 1]);
      if h.Some? && Timely(h.value, steps[|steps| - 1])
      then
        StepIsFaithful(h.value, steps[|steps| - 1]);
        Some(Next(h.value, steps[|steps| - 1]))
      else None
  }

  /**
   The queue over a whole run: what the drains returned, end to end, is in strict
   (release time, insertion) order, a release never comes before its declared time
   or its push, and every payload ever pushed is in exactly one place, once.
   */
  lemma RunIsFaithful<P(!new)>(clock: real, steps: seq<Step<P>>)
    requires Run(clock, steps).Some?
    ensures var h := Run(clock, steps).value;
      && Sorted(h.released)
      && (forall x :: x in h.pushed ==>
            multiset(h.released)[x] + multiset(h.purged)[x] + multiset(h.queue.items)[x] == 1)
      && (forall x :: x in h.released || x in h.purged || x in h.queue.items ==> x in h.pushed)
      && (forall r, x :: r in h.released && x in h.queue.items ==> Before(r, x))
  {
    var h := Run(clock, steps).value;
    forall x | x in h.pushed ensures multiset(h.pushed)[x] == 1 {
      DistinctOrdersOccurOnce(h.pushed, x);
    }
    forall x | x in h.released || x in h.purged || x in h.queue.items ensures x in h.pushed {
      assert x in multiset(h.pushed);
    }
  }

  lemma {:induction false} DistinctOrdersOccurOnce<P(!new)>(s: seq<Item<P>>, x: Item<P>)
    requires InInsertionOrder(s) && x in s
    ensures multiset(s)[x] == 1
  {
    var front, last := s[..|s| - 1], s[|s| - 1];
    assert s == front + [last];
    if x == last {
      assert x !in front;
    } else {
      DistinctOrdersOccurOnce(front, x);
    }
  }
}
