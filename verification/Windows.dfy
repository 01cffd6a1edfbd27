/**
 control/sequencer.py, `Sequencer._window`: which events of an endlessly repeating
 track fall in a window of grid beats.

 `Unrolled` is the obvious answer: go through every iteration and keep what lies in
 the window. `Window` is the source's answer, two bisections per iteration over only
 the iterations that can matter; it is proved to return the same list. Two abutting
 windows concatenate to the window over both (`WindowsTile`).
 */
module Windows {
  import opened MidiFiles
  import opened StableSorting

  /** What a window reads of a track: a loop repeats every `length`, a one-shot plays from `origin`. */
  datatype Timeline = Timeline(loop: bool, origin: real, length: real, events: seq<MidiEvent>)

  ghost predicate ValidTimeline(t: Timeline) {
    WellFormedEvents(t.events) && (t.loop ==> t.length >= 1.0)
  }

  /** Event `i` of iteration `k`. */
  datatype Occurrence = Occurrence(k: nat, i: nat)

  function Base(t: Timeline, k: nat): real { if t.loop then k as real * t.length else t.origin }

  predicate Exists(t: Timeline, o: Occurrence) { o.i < |t.events| && (t.loop || o.k == 0) }

  /** The grid beat an occurrence falls on. */
  function Grid(t: Timeline, o: Occurrence): real {
    if o.i < |t.events| then Base(t, o.k) + t.events[o.i].beat else 0.0
  }

  predicate InWindow(t: Timeline, o: Occurrence, lo: real, hi: real) {
    Exists(t, o) && lo <= Grid(t, o) < hi
  }

  /** Iteration order, then file order. */
  predicate ListedBefore(a: Occurrence, b: Occurrence) { a.k < b.k || (a.k == b.k && a.i < b.i) }

  /** Grid order; at one beat, iteration order, then file order. */
  predicate PlaysBefore(t: Timeline, a: Occurrence, b: Occurrence) {
    Grid(t, a) < Grid(t, b) || (Grid(t, a) == Grid(t, b) && ListedBefore(a, b))
  }

  ghost predicate InGridOrder(t: Timeline, os: seq<Occurrence>) {
    forall x, y :: 0 <= x < y < |os| ==> PlaysBefore(t, os[x], os[y])
  }

  ghost predicate Listed(os: seq<Occurrence>) {
    forall x, y :: 0 <= x < y < |os| ==> ListedBefore(os[x], os[y])
  }

  /** `os` is exactly the occurrences in the window, each once, in grid order. */
  ghost predicate IsWindow(t: Timeline, lo: real, hi: real, os: seq<Occurrence>) {
    InGridOrder(t, os) && forall o :: o in os <==> InWindow(t, o, lo, hi)
  }

  // ---- a window is unique, and windows tile --------------------------------------

  lemma {:induction false} OrderedListsAreEqual(t: Timeline, a: seq<Occurrence>, b: seq<Occurrence>)
    requires InGridOrder(t, a) && InGridOrder(t, b)
    requires forall o :: o in a <==> o in b
    ensures a == b
  {
    assert a != [] ==> a[0] in b;
    assert b != [] ==> b[0] in a;
    if a != [] {
      var x :| 0 <= x < |b| && b[x] == a[0];
      var y :| 0 <= y < |a| && a[y] == b[0];
      assert a[0] == b[0];
      forall o ensures o in a[1..] <==> o in b[1..] {
        assert o in a <==> o == a[0] || o in a[1..];
        assert o in b <==> o == b[0] || o in b[1..];
        assert a[0] !in a[1..] && b[0] !in b[1..];
      }
      OrderedListsAreEqual(t, a[1..], b[1..]);
      assert a == [a[0]] + a[1..] && b == [b[0]] + b[1..];
    }
  }

  lemma WindowIsUnique(t: Timeline, lo: real, hi: real, a: seq<Occurrence>, b: seq<Occurrence>)
    requires IsWindow(t, lo, hi, a) && IsWindow(t, lo, hi, b)
    ensures a == b
  {
    OrderedListsAreEqual(t, a, b);
  }

  lemma WindowsTile(t: Timeline, lo: real, mid: real, hi: real, a: seq<Occurrence>, b: seq<Occurrence>)
    requires lo <= mid <= hi && IsWindow(t, lo, mid, a) && IsWindow(t, mid, hi, b)
    ensures IsWindow(t, lo, hi, a + b)
  {
    forall x, y | 0 <= x < y < |a + b| ensures PlaysBefore(t, (a + b)[x], (a + b)[y]) {
      if x < |a| <= y {
        assert a[x] in a && b[y - |a|] in b;
      }
    }
    forall o ensures o in a + b <==> InWindow(t, o, lo, hi) {
      assert o in a + b <==> o in a || o in b;
    }
  }

  // ---- the simple answer ----------------------------------------------------------

  /** Events `0..n` of iteration `k` that lie in the window, in file order. */
  function Iteration(t: Timeline, k: nat, n: nat, lo: real, hi: real): seq<Occurrence>
    requires n <= |t.events|
  {
    if n == 0 then []
    else
      var o := Occurrence(k, n - 1);
      Iteration(t, k, n - 1, lo, hi) + if InWindow(t, o, lo, hi) then [o] else []
  }

  function Iterations(t: Timeline, count: nat, lo: real, hi: real): seq<Occurrence> {
    if count == 0 then []
    else Iterations(t, count - 1, lo, hi) + Iteration(t, count - 1, |t.events|, lo, hi)
  }

  /** How many iterations can begin before `hi`. */
  function IterationCount(t: Timeline, hi: real): (n: nat)
    requires t.loop ==> t.length >= 1.0
  {
    if !t.loop then 1
    else if hi <= 0.0 then 0
    else (hi / t.length).Floor + 1
  }

  /** Every iteration, filtered, in grid order. */
  function Unrolled(t: Timeline, lo: real, hi: real): seq<Occurrence>
    requires t.loop ==> t.length >= 1.0
  {
    SortBy(Iterations(t, IterationCount(t, hi), lo, hi), (o: Occurrence) => Grid(t, o))
  }

  lemma {:induction false} IterationLists(t: Timeline, k: nat, n: nat, lo: real, hi: real)
    requires n <= |t.events|
    ensures Listed(Iteration(t, k, n, lo, hi))
    ensures forall o :: o in Iteration(t, k, n, lo, hi) <==> InWindow(t, o, lo, hi) && o.k == k && o.i < n
  {
    if n > 0 {
      IterationLists(t, k, n - 1, lo, hi);
    }
  }

  lemma {:induction false} IterationsList(t: Timeline, count: nat, lo: real, hi: real)
    ensures Listed(Iterations(t, count, lo, hi))
    ensures forall o :: o in Iterations(t, count, lo, hi) <==> InWindow(t, o, lo, hi) && o.k < count
  {
    if count > 0 {
      IterationsList(t, count - 1, lo, hi);
      IterationLists(t, count - 1, |t.events|, lo, hi);
      var a, b := Iterations(t, count - 1, lo, hi), Iteration(t, count - 1, |t.events|, lo, hi);
      forall x, y | 0 <= x < y < |a + b| ensures ListedBefore((a + b)[x], (a + b)[y]) {
        if x < |a| <= y {
          assert a[x] in a && b[y - |a|] in b;
        }
      }
    }
  }

  /** A stable sort of a listed sequence by grid beat is in grid order. */
  lemma {:induction false} SortingOrders(t: Timeline, os: seq<Occurrence>)
    requires Listed(os)
    ensures InGridOrder(t, SortBy(os, (o: Occurrence) => Grid(t, o)))
    ensures forall o :: o in SortBy(os, (o: Occurrence) => Grid(t, o)) <==> o in os
  {
    var key := (o: Occurrence) => Grid(t, o);
    SortByOrders(os, key);
    if os != [] {
      var rest := os[1..];
      forall o | o in rest ensures ListedBefore(os[0], o) {
        var x :| 0 <= x < |rest| && rest[x] == o;
        assert os[x + 1] == o;
      }
      forall x, y | 0 <= x < y < |rest| ensures ListedBefore(rest[x], rest[y]) {
        assert rest[x] == os[x + 1] && rest[y] == os[y + 1];
      }
      SortingOrders(t, rest);
      InsertingOrders(t, os[0], SortBy(rest, key));
    }
  }

  lemma {:induction false} InsertingOrders(t: Timeline, o: Occurrence, os: seq<Occurrence>)
    requires InGridOrder(t, os) && forall x :: x in os ==> ListedBefore(o, x)
    ensures InGridOrder(t, InsertBy(o, os, (o: Occurrence) => Grid(t, o)))
  {
    var key := (o: Occurrence) => Grid(t, o);
    if os == [] {
    } else if key(o) <= key(os[0]) {
      var r := [o] + os;
      forall x, y | 0 <= x < y < |r| ensures PlaysBefore(t, r[x], r[y]) {
        if x == 0 {
          assert os[y - 1] in os;
          assert y == 1 || PlaysBefore(t, os[0], os[y - 1]);
        }
      }
    } else {
      var rest := os[1..];
      assert InGridOrder(t, rest);
      InsertingOrders(t, o, rest);
      InsertByContents(o, rest, key);
      var r := InsertBy(o, rest, key);
      forall y | 0 <= y < |r| ensures PlaysBefore(t, os[0], r[y]) {
        assert r[y] in r;
        if r[y] != o {
          var z :| 0 <= z < |rest| && rest[z] == r[y];
          assert PlaysBefore(t, os[0], os[z + 1]);
        }
      }
      assert InGridOrder(t, [os[0]] + r);
    }
  }

  lemma NoLaterIteration(t: Timeline, o: Occurrence, lo: real, hi: real)
    requires ValidTimeline(t) && InWindow(t, o, lo, hi)
    ensures o.k < IterationCount(t, hi)
  {
    if t.loop {
      var k, q := o.k as real, hi / t.length;
      assert 0.0 <= k * t.length < hi;
      assert q * t.length == hi;
      if q <= k {
        MulLe(q, k, t.length);
        assert false;
      }
    }
  }

  lemma MulLe(x: real, y: real, c: real)
    requires x <= y && 0.0 <= c
    ensures x * c <= y * c
  {
  }

  lemma UnrolledIsWindow(t: Timeline, lo: real, hi: real)
    requires ValidTimeline(t)
    ensures IsWindow(t, lo, hi, Unrolled(t, lo, hi))
  {
    IterationsList(t, IterationCount(t, hi), lo, hi);
    SortingOrders(t, Iterations(t, IterationCount(t, hi), lo, hi));
    forall o | InWindow(t, o, lo, hi) ensures o.k < IterationCount(t, hi) {
      NoLaterIteration(t, o, lo, hi);
    }
  }

  // ---- the source's answer -----------------------------------------------------------

  /** `bisect.bisect_left` over the events' beats: how many lie before `x`. */
  method BisectLeft(events: seq<MidiEvent>, x: real) returns (n: nat)
    requires WellFormedEvents(events)
    ensures n <= |events|
    ensures forall i :: 0 <= i < n ==> events[i].beat < x
    ensures forall i :: n <= i < |events| ==> x <= events[i].beat
  {
    var lo: nat, hi: nat := 0, |events|;
    while lo < hi
      invariant lo <= hi <= |events|
      invariant forall i :: 0 <= i < lo ==> events[i].beat < x
      invariant forall i :: hi <= i < |events| ==> x <= events[i].beat
    {
      var mid := (lo + hi) / 2;
      if events[mid].beat < x {
        lo := mid + 1;
      } else {
        hi := mid;
      }
    }
    n := lo;
  }

  /** The events of iteration `k` in the window, from two bisections. */
  method Slice(t: Timeline, k: nat, lo: real, hi: real) returns (os: seq<Occurrence>)
    requires ValidTimeline(t) && (t.loop || k == 0)
    ensures Listed(os)
    ensures forall o :: o in os <==> InWindow(t, o, lo, hi) && o.k == k
  {
    var base := Base(t, k);
    var i := BisectLeft(t.events, lo - base);
    var j := BisectLeft(t.events, hi - base);
    os := if i <= j then seq(j - i, x requires 0 <= x < j - i => Occurrence(k, i + x)) else [];
    forall o | InWindow(t, o, lo, hi) && o.k == k ensures o in os {
      assert i <= o.i < j;
      assert os[o.i - i] == o;
    }
  }

  /** Nothing of an iteration before the first one looked at reaches the window. */
  lemma TooEarly(t: Timeline, k: nat, first: nat, lo: real)
    requires ValidTimeline(t) && t.loop && t.events != []
    requires k < first && first == ((lo - t.events[|t.events| - 1].beat) / t.length).Floor
    ensures forall o :: Exists(t, o) && o.k == k ==> Grid(t, o) < lo
  {
    var last := t.events[|t.events| - 1].beat;
    var q := (lo - last) / t.length;
    assert q * t.length == lo - last;
    MulLe((k + 1) as real, q, t.length);
    assert (k + 1) as real * t.length == k as real * t.length + t.length;
    assert k as real * t.length + last < lo;
  }

  lemma NextBase(k: nat, length: real)
    ensures (k + 1) as real * length == k as real * length + length
  {
  }

  /** No iteration from one that starts at or past `hi` reaches the window. */
  lemma TooLate(t: Timeline, k: nat, hi: real)
    requires ValidTimeline(t) && t.loop && k as real * t.length >= hi
    ensures forall o :: Exists(t, o) && o.k >= k ==> Grid(t, o) >= hi
  {
    forall o | Exists(t, o) && o.k >= k ensures Grid(t, o) >= hi {
      MulLe(k as real, o.k as real, t.length);
    }
  }

  /** `_window`. */
  method Window(t: Timeline, lo: real, hi: real) returns (os: seq<Occurrence>)
    requires ValidTimeline(t)
    ensures os == Unrolled(t, lo, hi)
  {
    hide Unrolled;
    UnrolledIsWindow(t, lo, hi);
    if !t.loop {
      os := Slice(t, 0, lo, hi);
      assert InGridOrder(t, os);
      WindowIsUnique(t, lo, hi, os, Unrolled(t, lo, hi));
      return;
    }
    if t.events == [] {
      os := [];
      WindowIsUnique(t, lo, hi, os, Unrolled(t, lo, hi));
      return;
    }
    var last := t.events[|t.events| - 1].beat;
    var q := ((lo - last) / t.length).Floor;
    var k: nat := if q > 0 then q else 0;
    ghost var first := k;
    forall o | Exists(t, o) && o.k < first ensures Grid(t, o) < lo {
      TooEarly(t, o.k, first, lo);
    }
    os := [];
    while k as real * t.length < hi
      invariant first <= k
      invariant Listed(os)
      invariant forall o :: o in os <==> InWindow(t, o, lo, hi) && o.k < k
      decreases hi - k as real * t.length
    {
      var slice := Slice(t, k, lo, hi);
      forall x, y | 0 <= x < y < |os + slice| ensures ListedBefore((os + slice)[x], (os + slice)[y]) {
        if x < |os| <= y {
          assert os[x] in os && slice[y - |os|] in slice;
        }
      }
      os := os + slice;
      NextBase(k, t.length);
      k := k + 1;
    }
    TooLate(t, k, hi);
    SortingOrders(t, os);
    os := SortBy(os, (o: Occurrence) => Grid(t, o));
    WindowIsUnique(t, lo, hi, os, Unrolled(t, lo, hi));
  }
}
