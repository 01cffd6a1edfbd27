/**
 control/functions.py: live gesture values mapped onto MIDI lanes.

 Streams of one verb may share a lane if their domains do not overlap. `AcceptsExactly`:
 the sort-and-compare-neighbours check is that global fact. Given it, and one argument a
 lane, `LaneYieldsExactly` says when a lane gets a cue, and `OrderDoesNotMatter` that its
 value depends only on which streams are declared, away from a shared endpoint;
 `FirstDeclaredWins` is the rule there, not the lower domain. `OneClaimExactly` shows why
 one argument a lane is needed.
 */
module Lanes {
  import opened Wrappers
  import opened Rounding
  import opened StableSorting

  datatype Addressee = Target | Named(name: string)
  datatype Lane = Lane(dev: Addressee, status: nat, data1: nat)
  datatype Verb = Verb(name: string)
  datatype Output = Output(lane: Lane, outLo: real, outHi: real, abs: bool)
  datatype Stream = Stream(verb: Verb, arg: nat, inLo: real, inHi: real, outputs: seq<Output>)
  datatype Cue = Cue(dev: string, status: nat, data1: nat, data2: int)

  /** One output of the `fn`-th stream. */
  datatype Entry = Entry(fn: nat, s: Stream, o: Output)

  /** A gesture's arguments; None is one that is no finite number. */
  type Args = seq<Option<real>>

  predicate Declared(streams: seq<Stream>) { forall i :: 0 <= i < |streams| ==> streams[i].inLo < streams[i].inHi }

  // ---- one output's value --------------------------------------------------------------

  function Input(s: Stream, args: Args): Option<real> { if s.arg < |args| then args[s.arg] else None }

  function Abs(x: real): real { if x < 0.0 then -x else x }

  function Clamped(s: Stream, v: real): real {
    var above := if v < s.inLo then s.inLo else v;
    if above > s.inHi then s.inHi else above
  }

  /** What an input maps to, once it is in the domain. */
  function Mapped(s: Stream, o: Output, v: real): real
    requires s.inLo < s.inHi
  {
    o.outLo + (v - s.inLo) / (s.inHi - s.inLo) * (o.outHi - o.outLo)
  }

  function Byte(m: real): (d: int)
    ensures 0 <= d <= 255
  {
    if Round(m) < 0 then 0 else if Round(m) > 255 then 255 else Round(m)
  }

  function Data(s: Stream, o: Output, x: real): (d: int)
    requires s.inLo < s.inHi
    ensures 0 <= d <= 255
  {
    Byte(Mapped(s, o, Clamped(s, Taken(o, x))))
  }

  function Taken(o: Output, x: real): real { if o.abs then Abs(x) else x }

  /**
   An output follows its gesture: at or past an edge of the domain it stands at that end of
   its range, and in between it never turns back, whichever way the range runs.
   */
  lemma DataFollows(s: Stream, o: Output, x: real, y: real)
    requires s.inLo < s.inHi && Taken(o, x) <= Taken(o, y)
    ensures Taken(o, x) <= s.inLo ==> Data(s, o, x) == Byte(o.outLo)
    ensures Taken(o, y) >= s.inHi ==> Data(s, o, y) == Byte(o.outHi)
    ensures if o.outLo <= o.outHi then Data(s, o, x) <= Data(s, o, y) else Data(s, o, x) >= Data(s, o, y)
  {
    var v, w := Clamped(s, Taken(o, x)), Clamped(s, Taken(o, y));
    MappedFollows(s, o, v, w);
    MappedEnds(s, o);
    hide Mapped;
    ByteIsMonotone(Mapped(s, o, v), Mapped(s, o, w));
    ByteIsMonotone(Mapped(s, o, w), Mapped(s, o, v));
    hide Byte;
    hide Abs;
  }

  /** The value an output takes of `x`: its magnitude, or itself. */
  ghost predicate Takes(o: Output, x: real, v: real) { if o.abs && x < 0.0 then v + x == 0.0 else v == x }

  /** The point of the domain that `v` is brought to. */
  ghost predicate Held(s: Stream, v: real, c: real) {
    s.inLo <= c <= s.inHi && (c == v || v < c == s.inLo || s.inHi == c < v)
  }

  /** `m` lies over `c` on the straight line from (inLo, outLo) to (inHi, outHi). */
  ghost predicate OnLine(s: Stream, o: Output, c: real, m: real) {
    (m - o.outLo) * (s.inHi - s.inLo) == (c - s.inLo) * (o.outHi - o.outLo)
  }

  /** The integer nearest to `m`, even when two are, and no less than 0 nor more than 255. */
  ghost predicate Rounded(m: real, d: int) {
    if m <= 0.0 then d == 0
    else if m >= 255.0 then d == 255
    else m - 0.5 <= d as real <= m + 0.5 && (d as real == m - 0.5 || d as real == m + 0.5 ==> d % 2 == 0)
  }

  ghost predicate Scales(s: Stream, o: Output, x: real, d: int) {
    exists v, c, m :: Takes(o, x, v) && Held(s, v, c) && OnLine(s, o, c, m) && Rounded(m, d)
  }

  /** An output's data byte is the value on its straight line, rounded, and nothing else is. */
  lemma DataIsLinear(s: Stream, o: Output, x: real, d: int)
    requires s.inLo < s.inHi
    ensures Data(s, o, x) == d <==> Scales(s, o, x, d)
  {
    var v := Taken(o, x);
    var c := Clamped(s, v);
    var m := Mapped(s, o, c);
    MappedIsOnLine(s, o, c);
    assert Takes(o, x, v) && Held(s, v, c);
    ByteIsRounded(m, Byte(m));
    hide Mapped;
    hide Byte;
    if Scales(s, o, x, d) {
      var v', c', m' :| Takes(o, x, v') && Held(s, v', c') && OnLine(s, o, c', m') && Rounded(m', d);
      assert v' == v && c' == c;
      OneOnLine(s, o, c, m, m');
      ByteIsRounded(m, d);
    }
    hide OnLine;
    hide Rounded;
  }

  lemma MappedIsOnLine(s: Stream, o: Output, c: real)
    requires s.inLo < s.inHi
    ensures OnLine(s, o, c, Mapped(s, o, c))
  {
    Across(c - s.inLo, s.inHi - s.inLo, o.outHi - o.outLo);
  }

  lemma Across(a: real, whole: real, k: real)
    requires whole > 0.0
    ensures a / whole * k * whole == a * k
  {
    assert a / whole * whole == a;
  }

  lemma OneOnLine(s: Stream, o: Output, c: real, m: real, n: real)
    requires s.inLo < s.inHi && OnLine(s, o, c, m) && OnLine(s, o, c, n)
    ensures m == n
  {
    Cancelled(m - o.outLo, n - o.outLo, s.inHi - s.inLo);
  }

  lemma Cancelled(a: real, b: real, whole: real)
    requires whole > 0.0 && a * whole == b * whole
    ensures a == b
  {
    assert a * whole / whole == a && b * whole / whole == b;
  }

  lemma ByteIsRounded(m: real, d: int)
    ensures Rounded(m, d) <==> d == Byte(m)
  {
    hide Round;
    var n := Round(m);
    if m <= 0.0 {
      assert n <= 0;
    } else if m >= 255.0 {
      assert n >= 255;
    } else {
      assert 0 <= n <= 255;
      NearestIsOne(m, n, d);
    }
  }

  /** Of the integers within a half of `m`, an even one at exactly a half, there is one. */
  lemma NearestIsOne(m: real, n: int, d: int)
    requires m - 0.5 <= n as real <= m + 0.5 && (n as real == m - 0.5 || n as real == m + 0.5 ==> n % 2 == 0)
    ensures m - 0.5 <= d as real <= m + 0.5 && (d as real == m - 0.5 || d as real == m + 0.5 ==> d % 2 == 0) <==> d == n
  {
    if d < n {
      assert d as real <= n as real - 1.0;
    } else if n < d {
      assert n as real <= d as real - 1.0;
    }
  }

  lemma ByteIsMonotone(m: real, n: real)
    ensures m <= n ==> Byte(m) <= Byte(n)
  {
    if m <= n {
      RoundIsMonotone(m, n);
    }
    hide Round;
  }

  lemma MappedEnds(s: Stream, o: Output)
    requires s.inLo < s.inHi
    ensures Mapped(s, o, s.inLo) == o.outLo && Mapped(s, o, s.inHi) == o.outHi
  {
    assert (s.inHi - s.inLo) / (s.inHi - s.inLo) == 1.0;
  }

  lemma MappedFollows(s: Stream, o: Output, v: real, w: real)
    requires s.inLo < s.inHi && v <= w
    ensures if o.outLo <= o.outHi then Mapped(s, o, v) <= Mapped(s, o, w) else Mapped(s, o, v) >= Mapped(s, o, w)
  {
    var t, u := (v - s.inLo) / (s.inHi - s.inLo), (w - s.inLo) / (s.inHi - s.inLo);
    Shares(v - s.inLo, w - s.inLo, s.inHi - s.inLo);
    if o.outLo <= o.outHi {
      Scaled(t, u, o.outHi - o.outLo);
    } else {
      Scaled(t, u, o.outLo - o.outHi);
    }
  }

  lemma Shares(a: real, b: real, whole: real)
    requires a <= b && whole > 0.0
    ensures a / whole <= b / whole
  {
  }

  lemma Scaled(t: real, u: real, k: real)
    requires t <= u && k >= 0.0
    ensures t * k <= u * k && u * -k <= t * -k
  {
  }

  // ---- which entry of a lane a gesture drives ---------------------------------------------

  function EntriesIn(fn: nat, s: Stream, lane: Lane, n: nat): seq<Entry>
    requires n <= |s.outputs|
  {
    if n == 0 then []
    else EntriesIn(fn, s, lane, n - 1) + if s.outputs[n - 1].lane == lane then [Entry(fn, s, s.outputs[n - 1])] else []
  }

  /** Every entry of a verb's lane, in declaration order, over the first `n` streams. */
  function EntriesOn(streams: seq<Stream>, verb: Verb, lane: Lane, n: nat): seq<Entry>
    requires n <= |streams|
  {
    if n == 0 then []
    else EntriesOn(streams, verb, lane, n - 1)
         + if streams[n - 1].verb == verb then EntriesIn(n - 1, streams[n - 1], lane, |streams[n - 1].outputs|) else []
  }

  function AllOn(streams: seq<Stream>, verb: Verb, lane: Lane): seq<Entry> { EntriesOn(streams, verb, lane, |streams|) }

  /** Python's `min`: the first of the lowest. */
  function Lowest(es: seq<Entry>): (e: Entry)
    requires es != []
    ensures e in es && forall f :: f in es ==> e.s.inLo <= f.s.inLo
  {
    assert es == es[..|es| - 1] + [es[|es| - 1]];
    if |es| == 1 then es[0]
    else
      var e := Lowest(es[..|es| - 1]);
      if es[|es| - 1].s.inLo < e.s.inLo then es[|es| - 1] else e
  }

  function Highest(es: seq<Entry>): (e: Entry)
    requires es != []
    ensures e in es && forall f :: f in es ==> f.s.inHi <= e.s.inHi
  {
    assert es == es[..|es| - 1] + [es[|es| - 1]];
    if |es| == 1 then es[0]
    else
      var e := Highest(es[..|es| - 1]);
      if es[|es| - 1].s.inHi > e.s.inHi then es[|es| - 1] else e
  }

  predicate InDomain(e: Entry, x: real) { e.s.inLo <= x <= e.s.inHi }

  /** Entry `e` may write its lane: its input is in its domain, or past the edge its stream owns. */
  predicate Claims(es: seq<Entry>, e: Entry, args: Args)
    requires e in es
  {
    var x := Input(e.s, args);
    && x.Some?
    && (|| InDomain(e, x.value)
        || (e.fn == Lowest(es).fn && x.value < Lowest(es).s.inLo)
        || (e.fn == Highest(es).fn && x.value > Highest(es).s.inHi))
  }

  /** The first entry of a prefix that claims the lane. */
  function First(es: seq<Entry>, n: nat, args: Args): (r: Option<Entry>)
    requires n <= |es|
    ensures r.Some? ==> r.value in es && Claims(es, r.value, args)
  {
    if n == 0 then None
    else
      var r := First(es, n - 1, args);
      if r.Some? then r else if Claims(es, es[n - 1], args) then Some(es[n - 1]) else None
  }

  function Winner(es: seq<Entry>, args: Args): Option<Entry> { First(es, |es|, args) }

  lemma {:induction false} FirstIsFirst(es: seq<Entry>, n: nat, args: Args)
    requires n <= |es|
    ensures First(es, n, args).None? <==> forall k :: 0 <= k < n ==> !Claims(es, es[k], args)
    ensures First(es, n, args).Some? ==>
      exists k :: 0 <= k < n && First(es, n, args) == Some(es[k]) && Claims(es, es[k], args)
                  && forall j :: 0 <= j < k ==> !Claims(es, es[j], args)
  {
    hide Claims;
    if n > 0 {
      FirstIsFirst(es, n - 1, args);
    }
  }

  // ---- the overlap check ---------------------------------------------------------------------

  predicate Apart(d: Entry, e: Entry) { d.s.inHi <= e.s.inLo || e.s.inHi <= d.s.inLo }

  ghost predicate AllApart(es: seq<Entry>) { forall i, j :: 0 <= i < j < |es| ==> Apart(es[i], es[j]) }

  predicate Neighbourly(es: seq<Entry>) { forall k :: 0 <= k < |es| - 1 ==> es[k].s.inHi <= es[k + 1].s.inLo }

  ghost predicate Proper(es: seq<Entry>) { forall e :: e in es ==> e.s.inLo < e.s.inHi }

  ghost predicate Clear(x: Entry, es: seq<Entry>) { forall y :: y in es ==> Apart(x, y) }

  lemma ApartCons(x: Entry, es: seq<Entry>)
    ensures AllApart([x] + es) <==> AllApart(es) && Clear(x, es)
  {
    var all := [x] + es;
    if AllApart(all) {
      forall y | y in es ensures Apart(x, y) {
        var i :| 0 <= i < |es| && es[i] == y;
        assert all[0] == x && all[i + 1] == y;
      }
      forall i, j | 0 <= i < j < |es| ensures Apart(es[i], es[j]) {
        assert all[i + 1] == es[i] && all[j + 1] == es[j];
      }
    }
  }

  lemma ClearCons(x: Entry, y: Entry, es: seq<Entry>)
    ensures Clear(x, [y] + es) <==> Apart(x, y) && Clear(x, es)
  {
    assert forall z :: z in [y] + es <==> z == y || z in es;
  }

  lemma {:induction false} ApartInsert(x: Entry, es: seq<Entry>, key: Entry -> real)
    ensures AllApart(InsertBy(x, es, key)) <==> AllApart(es) && Clear(x, es)
  {
    ApartCons(x, es);
    if es != [] && key(x) > key(es[0]) {
      var y, rest := es[0], es[1..];
      assert es == [y] + rest;
      ApartInsert(x, rest, key);
      InsertByContents(x, rest, key);
      ApartCons(y, rest);
      ApartCons(y, InsertBy(x, rest, key));
      ClearCons(x, y, rest);
      assert Clear(y, InsertBy(x, rest, key)) <==> Apart(y, x) && Clear(y, rest);
      hide AllApart;
      hide Clear;
    }
  }

  lemma {:induction false} ApartSort(es: seq<Entry>, key: Entry -> real)
    ensures AllApart(SortBy(es, key)) <==> AllApart(es)
  {
    if es != [] {
      var rest := es[1..];
      assert es == [es[0]] + rest;
      ApartSort(rest, key);
      SortByOrders(rest, key);
      ApartInsert(es[0], SortBy(rest, key), key);
      ApartCons(es[0], rest);
      assert Clear(es[0], SortBy(rest, key)) <==> Clear(es[0], rest);
      hide AllApart;
    }
  }

  lemma {:induction false} NeighboursReach(es: seq<Entry>, i: nat, j: nat)
    requires Proper(es) && Neighbourly(es) && i < j < |es|
    ensures es[i].s.inHi <= es[j].s.inLo
    decreases j
  {
    if i < j - 1 {
      NeighboursReach(es, i, j - 1);
      assert es[j - 1] in es && es[j - 1].s.inHi <= es[j - 1 + 1].s.inLo;
    } else {
      assert es[i].s.inHi <= es[i + 1].s.inLo;
    }
  }

  function ByLo(): Entry -> real { (e: Entry) => e.s.inLo }

  /** The neighbours of the sorted domains are clear of each other exactly when every pair is. */
  lemma NeighboursExactly(es: seq<Entry>)
    requires Proper(es)
    ensures Neighbourly(SortBy(es, ByLo())) <==> AllApart(es)
  {
    var s := SortBy(es, ByLo());
    SortByOrders(es, ByLo());
    ApartSort(es, ByLo());
    assert Proper(s);
    if Neighbourly(s) {
      forall i, j | 0 <= i < j < |s| ensures Apart(s[i], s[j]) {
        NeighboursReach(s, i, j);
      }
    }
    if AllApart(s) {
      forall k | 0 <= k < |s| - 1 ensures s[k].s.inHi <= s[k + 1].s.inLo {
        assert Apart(s[k], s[k + 1]) && ByLo()(s[k]) <= ByLo()(s[k + 1]);
        assert s[k] in s && s[k + 1] in s;
      }
    }
  }

  /** No two same-lane domains of one verb overlap. */
  ghost predicate Compatible(streams: seq<Stream>) { forall verb, lane :: AllApart(AllOn(streams, verb, lane)) }

  // ---- what a lane yields -----------------------------------------------------------------------

  /** All entries of a lane read the same argument. */
  ghost predicate OneArg(es: seq<Entry>) { forall d, e :: d in es && e in es ==> d.s.arg == e.s.arg }

  /** One stream writes a lane once. */
  lemma ApartStreamsDiffer(es: seq<Entry>, i: nat, j: nat)
    requires Proper(es) && AllApart(es) && i < j < |es|
    ensures es[i].s.inLo != es[j].s.inLo && es[i].s.inHi != es[j].s.inHi && es[i].s != es[j].s
  {
    assert Apart(es[i], es[j]) && es[i] in es && es[j] in es;
  }

  lemma StreamsDiffer(es: seq<Entry>)
    requires Proper(es) && AllApart(es)
    ensures forall i, j :: 0 <= i < j < |es| ==> es[i].s.inLo != es[j].s.inLo && es[i].s.inHi != es[j].s.inHi
  {
    forall i, j | 0 <= i < j < |es| ensures es[i].s.inLo != es[j].s.inLo && es[i].s.inHi != es[j].s.inHi {
      ApartStreamsDiffer(es, i, j);
    }
  }

  /** Entries of one stream are entries of the same stream. */
  ghost predicate OwnersAgree(es: seq<Entry>) { forall d, e :: d in es && e in es && d.fn == e.fn ==> d.s == e.s }

  lemma OwnerIsEntry(es: seq<Entry>, d: Entry, e: Entry)
    requires Proper(es) && AllApart(es) && OwnersAgree(es) && d in es && e in es && d.fn == e.fn
    ensures d == e
  {
    SameEnd(es, d, e);
  }

  /** Past every domain of the lane, below or above. */
  ghost predicate OutsideHull(es: seq<Entry>, x: real) {
    (forall e :: e in es ==> x < e.s.inLo) || (forall e :: e in es ==> x > e.s.inHi)
  }

  /**
   Of a lane whose domains are apart and whose streams read one argument, an entry claims
   the lane exactly when its own domain holds the value, or the value is past every
   domain on the side where its domain is the outermost.
   */
  lemma ClaimsExactly(es: seq<Entry>, e: Entry, args: Args)
    requires Proper(es) && AllApart(es) && OwnersAgree(es) && e in es
    ensures Claims(es, e, args) <==>
      var x := Input(e.s, args);
      && x.Some?
      && (|| InDomain(e, x.value)
          || (x.value < e.s.inLo && forall f :: f in es ==> e.s.inLo <= f.s.inLo)
          || (x.value > e.s.inHi && forall f :: f in es ==> f.s.inHi <= e.s.inHi))
  {
    var lo, hi := Lowest(es), Highest(es);
    if e.fn == lo.fn {
      OwnerIsEntry(es, e, lo);
    }
    if e.fn == hi.fn {
      OwnerIsEntry(es, e, hi);
    }
    if forall f :: f in es ==> e.s.inLo <= f.s.inLo {
      SameEnd(es, e, lo);
    }
    if forall f :: f in es ==> f.s.inHi <= e.s.inHi {
      SameEnd(es, e, hi);
    }
  }

  lemma SameEnd(es: seq<Entry>, d: Entry, e: Entry)
    requires Proper(es) && AllApart(es) && d in es && e in es
    requires d.s.inLo == e.s.inLo || d.s.inHi == e.s.inHi
    ensures d == e
  {
    StreamsDiffer(es);
    hide Proper;
    hide AllApart;
    var i :| 0 <= i < |es| && es[i] == d;
    var j :| 0 <= j < |es| && es[j] == e;
  }

  /** A lane gets a cue exactly when the value lies in one of its domains or outside all of them on one side. */
  lemma LaneYieldsExactly(es: seq<Entry>, args: Args)
    requires Proper(es) && AllApart(es) && OwnersAgree(es) && OneArg(es) && es != []
    ensures var x := Input(es[0].s, args);
      Winner(es, args).Some? <==> x.Some? && ((exists e :: e in es && InDomain(e, x.value)) || OutsideHull(es, x.value))
  {
    WinnerClaims(es, args);
    hide Winner;
    var x := Input(es[0].s, args);
    forall e | e in es ensures Input(e.s, args) == x {
    }
    forall e | e in es {
      ClaimsExactly(es, e, args);
    }
    var lo, hi := Lowest(es), Highest(es);
    hide Claims;
    hide Lowest;
    hide Highest;
    if x.Some? && OutsideHull(es, x.value) {
      var e := if forall f :: f in es ==> x.value < f.s.inLo then lo else hi;
      assert e in es && Claims(es, e, args);
    }
  }

  /** Somebody has the lane exactly when somebody claims it. */
  lemma WinnerClaims(es: seq<Entry>, args: Args)
    ensures Winner(es, args).Some? <==> exists e :: e in es && Claims(es, e, args)
  {
    FirstIsFirst(es, |es|, args);
    hide Claims;
    hide First;
    if exists e :: e in es && Claims(es, e, args) {
      var e :| e in es && Claims(es, e, args);
      var k :| 0 <= k < |es| && es[k] == e;
    }
  }

  /** The value lies in both domains: they touch there. */
  predicate Touch(d: Entry, e: Entry, args: Args) {
    var x, y := Input(d.s, args), Input(e.s, args);
    x.Some? && x == y && InDomain(d, x.value) && InDomain(e, x.value)
  }

  /** Two entries reading one argument both claim the lane only where their domains touch. */
  lemma OneClaimant(es: seq<Entry>, d: Entry, e: Entry, args: Args)
    requires Proper(es) && AllApart(es) && OwnersAgree(es) && d in es && e in es && d.s.arg == e.s.arg
    requires Claims(es, d, args) && Claims(es, e, args)
    ensures d == e || Touch(d, e, args)
  {
    ClaimsExactly(es, d, args);
    ClaimsExactly(es, e, args);
    hide Claims;
    if d.s.inLo == e.s.inLo || d.s.inHi == e.s.inHi {
      SameEnd(es, d, e);
    }
  }

  function Midpoint(e: Entry): real { (e.s.inLo + e.s.inHi) / 2.0 }

  lemma MidpointsClaim(es: seq<Entry>, d: Entry, e: Entry) returns (args: Args)
    requires Proper(es) && AllApart(es) && d in es && e in es && d.s.arg != e.s.arg
    ensures Claims(es, d, args) && Claims(es, e, args) && d != e && !Touch(d, e, args)
  {
    var n := if d.s.arg < e.s.arg then e.s.arg else d.s.arg;
    args := seq(n + 1, i => if i == d.s.arg then Some(Midpoint(d)) else Some(Midpoint(e)));
    assert d.s.inLo < Midpoint(d) < d.s.inHi && e.s.inLo < Midpoint(e) < e.s.inHi;
    var i :| 0 <= i < |es| && es[i] == d;
    var j :| 0 <= j < |es| && es[j] == e;
    assert if i < j then Apart(es[i], es[j]) else Apart(es[j], es[i]);
    assert Input(d.s, args) == Some(Midpoint(d)) && Input(e.s, args) == Some(Midpoint(e));
  }

  ghost predicate Undisputed(es: seq<Entry>, args: Args) {
    forall d, e :: d in es && e in es && Claims(es, d, args) && Claims(es, e, args) ==> d == e || Touch(d, e, args)
  }

  /**
   On a lane that passed the overlap check, two streams never both claim a gesture away
   from a touching point exactly when they all read the same argument, which the check
   does not ask for.
   */
  lemma OneClaimExactly(es: seq<Entry>)
    requires Proper(es) && AllApart(es) && OwnersAgree(es)
    ensures OneArg(es) <==> forall args :: Undisputed(es, args)
  {
    hide Claims;
    if OneArg(es) {
      forall args ensures Undisputed(es, args) {
        forall d, e | d in es && e in es && Claims(es, d, args) && Claims(es, e, args)
          ensures d == e || Touch(d, e, args)
        {
          OneClaimant(es, d, e, args);
        }
      }
    } else {
      var d, e :| d in es && e in es && d.s.arg != e.s.arg;
      var args := MidpointsClaim(es, d, e);
      assert !Undisputed(es, args);
    }
  }

  ghost function Decls(es: seq<Entry>): set<(Stream, Output)> { set e | e in es :: (e.s, e.o) }

  ghost predicate Laned(es: seq<Entry>) { Proper(es) && AllApart(es) && OwnersAgree(es) && OneArg(es) }

  /** `Claims`, told from what is declared on the lane alone. */
  ghost predicate Owns(decls: set<(Stream, Output)>, s: Stream, args: Args) {
    var x := Input(s, args);
    && x.Some?
    && (|| s.inLo <= x.value <= s.inHi
        || (x.value < s.inLo && forall p :: p in decls ==> s.inLo <= p.0.inLo)
        || (x.value > s.inHi && forall p :: p in decls ==> p.0.inHi <= s.inHi))
  }

  lemma ClaimsByDecls(es: seq<Entry>, e: Entry, args: Args)
    requires Laned(es) && e in es
    ensures Claims(es, e, args) <==> Owns(Decls(es), e.s, args)
  {
    ClaimsExactly(es, e, args);
    hide Claims;
    if forall p :: p in Decls(es) ==> e.s.inLo <= p.0.inLo {
      forall f | f in es ensures e.s.inLo <= f.s.inLo {
        assert (f.s, f.o) in Decls(es);
      }
    }
    if forall p :: p in Decls(es) ==> p.0.inHi <= e.s.inHi {
      forall f | f in es ensures f.s.inHi <= e.s.inHi {
        assert (f.s, f.o) in Decls(es);
      }
    }
  }

  /** An entry, as another listing of the same declarations has it. */
  lemma Restated(es: seq<Entry>, fs: seq<Entry>, e: Entry, args: Args) returns (f: Entry)
    requires Laned(es) && Laned(fs) && Decls(es) == Decls(fs) && e in es
    ensures f in fs && f.s == e.s && f.o == e.o && (Claims(es, e, args) <==> Claims(fs, f, args))
  {
    assert (e.s, e.o) in Decls(fs);
    f :| f in fs && f.s == e.s && f.o == e.o;
    ClaimsByDecls(es, e, args);
    ClaimsByDecls(fs, f, args);
    hide Claims;
    hide Owns;
    hide Laned;
    hide Decls;
  }

  /** Away from a touching point, the cue's value depends only on what is declared, not on the order. */
  lemma OrderDoesNotMatter(es: seq<Entry>, fs: seq<Entry>, args: Args)
    requires Laned(es) && Laned(fs) && Decls(es) == Decls(fs)
    requires forall d, e :: d in es && e in es && Touch(d, e, args) ==> d == e
    ensures Winner(es, args).Some? <==> Winner(fs, args).Some?
    ensures Winner(es, args).Some? ==>
      Winner(es, args).value.s == Winner(fs, args).value.s && Winner(es, args).value.o == Winner(fs, args).value.o
  {
    FirstIsFirst(es, |es|, args);
    FirstIsFirst(fs, |fs|, args);
    hide Claims;
    if Winner(es, args).Some? {
      var f := Restated(es, fs, Winner(es, args).value, args);
      var k :| 0 <= k < |fs| && fs[k] == f;
    }
    if Winner(fs, args).Some? {
      var e := Restated(fs, es, Winner(fs, args).value, args);
      var k :| 0 <= k < |es| && es[k] == e;
      OneClaimant(es, e, Winner(es, args).value, args);
      assert e == Winner(es, args).value;
    }
  }

  /**
   Where two domains touch, the one declared first has the lane. So the lower domain has it
   exactly when it is declared first.
   */
  lemma FirstDeclaredWins(es: seq<Entry>, i: nat, j: nat, args: Args)
    requires Laned(es) && i < j < |es| && Touch(es[i], es[j], args)
    ensures Winner(es, args) == Some(es[i])
    ensures var x := Input(es[i].s, args).value;
      && (es[i].s.inHi == x == es[j].s.inLo || es[j].s.inHi == x == es[i].s.inLo)
      && (Winner(es, args).value.s.inHi == x <==> es[i].s.inLo < es[j].s.inLo)
  {
    var x := Input(es[i].s, args).value;
    assert Apart(es[i], es[j]) && es[i] in es && es[j] in es;
    FirstIsFirst(es, |es|, args);
    assert Claims(es, es[i], args) && Claims(es, es[j], args);
    hide Claims;
    forall k | 0 <= k < i ensures !Claims(es, es[k], args) {
      NoThirdClaim(es, k, i, j, args);
    }
  }

  lemma NoThirdClaim(es: seq<Entry>, k: nat, i: nat, j: nat, args: Args)
    requires Laned(es) && k < i < j < |es| && Touch(es[i], es[j], args) && Claims(es, es[i], args)
    ensures !Claims(es, es[k], args)
  {
    var d, e, f := es[k], es[i], es[j];
    assert Apart(d, e) && Apart(d, f) && Apart(e, f) && d in es && e in es && f in es;
    ApartStreamsDiffer(es, k, i);
    hide Claims;
    if Claims(es, d, args) {
      OneClaimant(es, d, e, args);
    }
  }

  /** The cue an output gives at an edge of its domain. */
  function EdgeData(s: Stream, o: Output, x: real): int
    requires s.inLo < s.inHi
  {
    Byte(Mapped(s, o, if x < s.inLo then s.inLo else s.inHi))
  }

  /** What is clamped, the value or its magnitude, is at or past the edge that `x` is past. */
  predicate PastItsEdge(s: Stream, abs: bool, x: real) {
    var v := if abs then Abs(x) else x;
    if x < s.inLo then v <= s.inLo else v >= s.inHi
  }

  /**
   Past an edge the cue is to be the edge's own. Over every range an output may map onto it
   is so exactly when what is clamped is past that edge too. For the value itself that
   always holds, and above the domain for its magnitude; below, the magnitude may lie past
   the low edge again (`MagnitudeLeavesItsEdge`).
   */
  lemma EdgeClampExactly(s: Stream, lane: Lane, abs: bool, x: real)
    requires s.inLo < s.inHi && (x < s.inLo || x > s.inHi)
    ensures (forall lo, hi :: Data(s, Output(lane, lo, hi, abs), x) == EdgeData(s, Output(lane, lo, hi, abs), x))
            <==> PastItsEdge(s, abs, x)
    ensures PastItsEdge(s, abs, x) <==> !(abs && x < s.inLo && Abs(x) > s.inLo)
  {
    if PastItsEdge(s, abs, x) {
      hide Mapped;
      hide Byte;
    } else {
      var c := Clamped(s, Abs(x));
      var t := (c - s.inLo) / (s.inHi - s.inLo);
      Fraction(c - s.inLo, s.inHi - s.inLo);
      var o := Output(lane, 0.0, 1.0 / t, abs);
      assert Mapped(s, o, c) == t * (1.0 / t) == 1.0;
      assert Mapped(s, o, s.inLo) == 0.0;
      assert Data(s, o, x) != EdgeData(s, o, x);
    }
  }

  lemma Fraction(part: real, whole: real)
    requires whole > 0.0
    ensures part > 0.0 ==> part / whole > 0.0
  {
  }

  /** Below a domain of negative values the magnitude lands past the other edge: full deflection for none. */
  lemma MagnitudeLeavesItsEdge(verb: Verb, lane: Lane)
    ensures var o := Output(lane, 0.0, 127.0, true);
      var s := Stream(verb, 0, -10.0, -5.0, [o]);
      Data(s, o, -20.0) == 127 && EdgeData(s, o, -20.0) == 0
  {
    var o := Output(lane, 0.0, 127.0, true);
    var s := Stream(verb, 0, -10.0, -5.0, [o]);
    assert Clamped(s, Abs(-20.0)) == -5.0;
    assert Mapped(s, o, -5.0) == 127.0 && Mapped(s, o, -10.0) == 0.0;
  }
}
