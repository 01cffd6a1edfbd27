/**
 control/functions.py: what a gesture comes to, from the streams declared to the cues emitted.

 `GestureYieldsExactly`: for a table that passed the overlap check and reads one argument
 a lane, `collect_stream_cues` emits a cue for a lane exactly when the value lies in one
 of the lane's domains or outside all of them on one side. `CuesDoNotDependOnOrder`: the
 cues are the same whatever order the streams are declared in, away from the points where
 two domains touch.
 */
module Gestures {
  import opened Wrappers
  import opened Lanes
  import opened LaneMethods

  /** `s` writes the lane on that verb. */
  predicate Writes(streams: seq<Stream>, verb: Verb, lane: Lane, s: Stream) {
    s in streams && s.verb == verb && exists o :: o in s.outputs && o.lane == lane
  }

  /** The streams of a verb that write one lane read one argument. */
  ghost predicate OneArgument(streams: seq<Stream>, verb: Verb) {
    forall lane, s, t :: Writes(streams, verb, lane, s) && Writes(streams, verb, lane, t) ==> s.arg == t.arg
  }

  predicate In(s: Stream, args: Args) {
    var x := Input(s, args);
    x.Some? && s.inLo <= x.value <= s.inHi
  }

  /** The value is a point where domains of two streams of one lane touch. */
  ghost predicate AtTouch(streams: seq<Stream>, verb: Verb, args: Args) {
    exists lane, s, t :: Writes(streams, verb, lane, s) && Writes(streams, verb, lane, t)
        && s != t && In(s, args) && In(t, args)
  }

  /** The value lies in a domain of the lane, or below all of them, or above all. */
  ghost predicate Yields(streams: seq<Stream>, verb: Verb, lane: Lane, args: Args) {
    exists s :: Writes(streams, verb, lane, s) && Input(s, args).Some?
        && (In(s, args) || PastAll(streams, verb, lane, args))
  }

  ghost predicate PastAll(streams: seq<Stream>, verb: Verb, lane: Lane, args: Args) {
    || (forall s :: Writes(streams, verb, lane, s) && Input(s, args).Some? ==> Input(s, args).value < s.inLo)
    || (forall s :: Writes(streams, verb, lane, s) && Input(s, args).Some? ==> Input(s, args).value > s.inHi)
  }

  // ---- what a lane's entries are ------------------------------------------------------

  lemma {:induction false} EntriesInFrom(fn: nat, s: Stream, lane: Lane, n: nat, o: Output)
    requires n <= |s.outputs|
    ensures Entry(fn, s, o) in EntriesIn(fn, s, lane, n) <==> o in s.outputs[..n] && o.lane == lane
    ensures forall e :: e in EntriesIn(fn, s, lane, n) ==> e == Entry(fn, s, e.o)
  {
    if n > 0 {
      EntriesInFrom(fn, s, lane, n - 1, o);
      assert s.outputs[..n] == s.outputs[..n - 1] + [s.outputs[n - 1]];
    }
  }

  lemma {:induction false} EntriesOnFrom(streams: seq<Stream>, verb: Verb, lane: Lane, n: nat, i: nat, o: Output)
    requires n <= |streams| && i < n
    ensures Entry(i, streams[i], o) in EntriesOn(streams, verb, lane, n)
            <==> streams[i].verb == verb && o in streams[i].outputs && o.lane == lane
  {
    var s := streams[n - 1];
    EntriesInFrom(n - 1, s, lane, |s.outputs|, o);
    assert s.outputs[..|s.outputs|] == s.outputs;
    EntriesOnAre(streams, verb, lane, n - 1);
    if i < n - 1 {
      EntriesOnFrom(streams, verb, lane, n - 1, i, o);
    }
  }

  /** A lane's declarations are the outputs that name it. */
  lemma DeclsOn(streams: seq<Stream>, verb: Verb, lane: Lane, s: Stream, o: Output)
    ensures (s, o) in Decls(AllOn(streams, verb, lane))
            <==> s in streams && s.verb == verb && o in s.outputs && o.lane == lane
  {
    var es := AllOn(streams, verb, lane);
    EntriesOnAre(streams, verb, lane, |streams|);
    if (s, o) in Decls(es) {
      var e :| e in es && e.s == s && e.o == o;
      EntriesOnFrom(streams, verb, lane, |streams|, e.fn, o);
    }
    if s in streams && s.verb == verb && o in s.outputs && o.lane == lane {
      var i :| 0 <= i < |streams| && streams[i] == s;
      EntriesOnFrom(streams, verb, lane, |streams|, i, o);
      assert Entry(i, s, o) in es;
    }
  }

  lemma WritesIsEntry(streams: seq<Stream>, verb: Verb, lane: Lane, s: Stream)
    ensures Writes(streams, verb, lane, s) <==> exists e :: e in AllOn(streams, verb, lane) && e.s == s
  {
    var es := AllOn(streams, verb, lane);
    if Writes(streams, verb, lane, s) {
      var o :| o in s.outputs && o.lane == lane;
      DeclsOn(streams, verb, lane, s, o);
    }
    if exists e :: e in es && e.s == s {
      var e :| e in es && e.s == s;
      assert (e.s, e.o) in Decls(es);
      DeclsOn(streams, verb, lane, s, e.o);
    }
    hide AllOn;
  }

  /** A lane of an accepted table that reads one argument a lane. */
  lemma LaneIsLaned(streams: seq<Stream>, verb: Verb, lane: Lane)
    requires Declared(streams) && Compatible(streams) && OneArgument(streams, verb)
    ensures Laned(AllOn(streams, verb, lane))
  {
    LanesAreWell(streams, verb, lane);
    var es := AllOn(streams, verb, lane);
    forall d, e | d in es && e in es ensures d.s.arg == e.s.arg {
      WritesIsEntry(streams, verb, lane, d.s);
      WritesIsEntry(streams, verb, lane, e.s);
    }
    hide AllOn;
    hide AllApart;
    hide Writes;
  }

  // ---- when a lane gets a cue ---------------------------------------------------------

  lemma LaneYields(streams: seq<Stream>, verb: Verb, lane: Lane, args: Args)
    requires Declared(streams) && Compatible(streams) && OneArgument(streams, verb)
    ensures Winner(AllOn(streams, verb, lane), args).Some? <==> Yields(streams, verb, lane, args)
  {
    var es := AllOn(streams, verb, lane);
    LaneIsLaned(streams, verb, lane);
    forall s {
      WritesIsEntry(streams, verb, lane, s);
    }
    hide AllOn;
    hide AllApart;
    hide Compatible;
    hide Writes;
    if es == [] {
      return;
    }
    LaneYieldsExactly(es, args);
    hide Winner;
    var x := Input(es[0].s, args);
    forall e | e in es ensures Input(e.s, args) == x && Writes(streams, verb, lane, e.s) {
    }
    if x.Some? {
      YieldsByEntries(streams, verb, lane, args, es, x.value);
    } else {
      forall s | Writes(streams, verb, lane, s) ensures Input(s, args).None? {
      }
    }
  }

  lemma YieldsByEntries(streams: seq<Stream>, verb: Verb, lane: Lane, args: Args, es: seq<Entry>, x: real)
    requires es != [] && forall e :: e in es ==> Input(e.s, args) == Some(x) && Writes(streams, verb, lane, e.s)
    requires forall s :: Writes(streams, verb, lane, s) ==> exists e :: e in es && e.s == s
    ensures Yields(streams, verb, lane, args) <==> (exists e :: e in es && InDomain(e, x)) || OutsideHull(es, x)
  {
    hide Writes;
    hide Input;
    assert es[0] in es && Writes(streams, verb, lane, es[0].s);
    if exists e :: e in es && InDomain(e, x) {
      var e :| e in es && InDomain(e, x);
      assert In(e.s, args);
    }
  }

  /** What a lane comes to: its winner's cue. */
  ghost predicate Cued(whose: seq<Entry>, lane: Lane) { exists n :: 0 <= n < |whose| && whose[n].o.lane == lane }

  /**
   One gesture, end to end: of a table that passed the overlap check and reads one argument
   a lane, a lane gets a cue exactly when the value lies in one of its domains or outside
   all of them on one side, and it gets one.
   */
  lemma GestureYieldsExactly(streams: seq<Stream>, verb: Verb, dev: string, args: Args,
                             out: seq<Cue>, whose: seq<Entry>)
    requires Compatible(streams) && OneArgument(streams, verb) && Collected(streams, verb, dev, args, out, whose)
    ensures forall lane :: Cued(whose, lane) <==> Yields(streams, verb, lane, args)
    ensures forall m, n :: 0 <= m < n < |whose| ==> whose[m].o.lane != whose[n].o.lane
  {
    forall lane ensures Cued(whose, lane) <==> Yields(streams, verb, lane, args) {
      LaneYields(streams, verb, lane, args);
    }
  }

  // ---- the order of declaration -------------------------------------------------------

  /** The declarations of a lane, as often as they are made. */
  function Pairs(es: seq<Entry>): multiset<(Stream, Output)> {
    if es == [] then multiset{} else Pairs(es[..|es| - 1]) + multiset{(es[|es| - 1].s, es[|es| - 1].o)}
  }

  lemma {:induction false} PairsConcat(es: seq<Entry>, fs: seq<Entry>)
    ensures Pairs(es + fs) == Pairs(es) + Pairs(fs)
  {
    if fs == [] {
      assert es + fs == es;
    } else {
      assert (es + fs)[..|es + fs| - 1] == es + fs[..|fs| - 1];
      PairsConcat(es, fs[..|fs| - 1]);
    }
  }

  /** The declarations one stream makes on a lane. */
  function Mine(s: Stream, verb: Verb, lane: Lane): multiset<(Stream, Output)> {
    if s.verb == verb then Pairs(EntriesIn(0, s, lane, |s.outputs|)) else multiset{}
  }

  lemma OneMore(fn: nat, s: Stream, lane: Lane, n: nat)
    requires 0 < n <= |s.outputs|
    ensures var o := s.outputs[n - 1];
      Pairs(EntriesIn(fn, s, lane, n))
      == Pairs(EntriesIn(fn, s, lane, n - 1)) + if o.lane == lane then multiset{(s, o)} else multiset{}
  {
    var o, before := s.outputs[n - 1], EntriesIn(fn, s, lane, n - 1);
    PairsConcat(before, if o.lane == lane then [Entry(fn, s, o)] else []);
    assert Pairs([]) == multiset{};
    if o.lane == lane {
      PairOfOne(Entry(fn, s, o));
    }
    hide Pairs;
  }

  lemma PairOfOne(e: Entry)
    ensures Pairs([e]) == multiset{(e.s, e.o)}
  {
    assert [e][..0] == [];
    assert Pairs([e][..0]) == multiset{};
  }

  lemma {:induction false} AnyPosition(fn: nat, s: Stream, lane: Lane, n: nat)
    requires n <= |s.outputs|
    ensures Pairs(EntriesIn(fn, s, lane, n)) == Pairs(EntriesIn(0, s, lane, n))
  {
    if n > 0 {
      AnyPosition(fn, s, lane, n - 1);
      OneMore(fn, s, lane, n);
      OneMore(0, s, lane, n);
      hide EntriesIn;
    }
  }

  /** The declarations that streams make on a lane, whatever their order. */
  function Total(streams: seq<Stream>, verb: Verb, lane: Lane): multiset<(Stream, Output)> {
    if streams == [] then multiset{} else Mine(streams[0], verb, lane) + Total(streams[1..], verb, lane)
  }

  lemma {:induction false} TotalConcat(a: seq<Stream>, b: seq<Stream>, verb: Verb, lane: Lane)
    ensures Total(a + b, verb, lane) == Total(a, verb, lane) + Total(b, verb, lane)
  {
    if a == [] {
      assert a + b == b;
    } else {
      assert (a + b)[1..] == a[1..] + b;
      TotalConcat(a[1..], b, verb, lane);
    }
    hide Mine;
  }

  lemma {:induction false} PairsAreTotal(streams: seq<Stream>, verb: Verb, lane: Lane, n: nat)
    requires n <= |streams|
    ensures Pairs(EntriesOn(streams, verb, lane, n)) == Total(streams[..n], verb, lane)
  {
    if n == 0 {
      assert streams[..n] == [];
    } else {
      hide Total;
      hide Pairs;
      hide EntriesOn;
      hide Mine;
      var s := streams[n - 1];
      PairsAreTotal(streams, verb, lane, n - 1);
      assert streams[..n] == streams[..n - 1] + [s];
      TotalConcat(streams[..n - 1], [s], verb, lane);
      TotalOfOne(s, verb, lane);
      PairsOfNext(streams, verb, lane, n);
    }
  }

  lemma PairsOfNext(streams: seq<Stream>, verb: Verb, lane: Lane, n: nat)
    requires 0 < n <= |streams|
    ensures Pairs(EntriesOn(streams, verb, lane, n))
         == Pairs(EntriesOn(streams, verb, lane, n - 1)) + Mine(streams[n - 1], verb, lane)
  {
    hide Pairs;
    hide EntriesIn;
    var s, before := streams[n - 1], EntriesOn(streams, verb, lane, n - 1);
    if s.verb == verb {
      AnyPosition(n - 1, s, lane, |s.outputs|);
      PairsConcat(before, EntriesIn(n - 1, s, lane, |s.outputs|));
    } else {
      PairsConcat(before, []);
      NoPairs();
    }
  }

  lemma NoPairs()
    ensures Pairs([]) == multiset{}
  {
  }

  lemma TotalOfOne(s: Stream, verb: Verb, lane: Lane)
    ensures Total([s], verb, lane) == Mine(s, verb, lane)
  {
    assert Total([s], verb, lane) == Mine(s, verb, lane) + Total([], verb, lane);
    hide Mine;
  }

  lemma BagWithout(x: multiset<Stream>, rest: multiset<Stream>, before: multiset<Stream>, after: multiset<Stream>)
    requires x + rest == before + (x + after)
    ensures rest == before + after
  {
    assert forall s :: (x + rest)[s] == x[s] + rest[s] && (before + (x + after))[s] == before[s] + (x[s] + after[s]);
    assert forall s :: rest[s] == (before + after)[s];
  }

  /** Streams in another order make the same declarations. */
  lemma {:induction false} TotalOfPermuted(a: seq<Stream>, b: seq<Stream>, verb: Verb, lane: Lane)
    requires multiset(a) == multiset(b)
    ensures Total(a, verb, lane) == Total(b, verb, lane)
    decreases |a|
  {
    if a == [] {
      assert |multiset(b)| == |b| && |multiset(a)| == 0;
    } else {
      var x, rest := a[0], a[1..];
      assert x in multiset(b) by { assert x in multiset(a); }
      var k :| 0 <= k < |b| && b[k] == x;
      var others := b[..k] + b[k + 1..];
      assert b == b[..k] + ([x] + b[k + 1..]);
      assert a == [x] + rest;
      assert multiset(a) == multiset([x]) + multiset(rest);
      assert multiset(b) == multiset(b[..k]) + (multiset([x]) + multiset(b[k + 1..]));
      assert multiset(others) == multiset(b[..k]) + multiset(b[k + 1..]);
      BagWithout(multiset([x]), multiset(rest), multiset(b[..k]), multiset(b[k + 1..]));
      TotalOfPermuted(rest, others, verb, lane);
      TotalConcat(b[..k], [x] + b[k + 1..], verb, lane);
      TotalConcat([x], b[k + 1..], verb, lane);
      TotalConcat(b[..k], b[k + 1..], verb, lane);
      assert Total([x], verb, lane) == Mine(x, verb, lane) + Total([], verb, lane);
      hide Mine;
    }
  }

  lemma {:induction false} PairsHold(es: seq<Entry>, p: (Stream, Output))
    ensures p in Pairs(es) <==> p in Decls(es)
  {
    if es != [] {
      var last := es[|es| - 1];
      assert es == es[..|es| - 1] + [last];
      PairsHold(es[..|es| - 1], p);
    }
  }

  /** A lane's declarations are apart: each is made once, and of any two the domains do not overlap. */
  ghost predicate ApartPairs(ps: multiset<(Stream, Output)>) {
    && (forall p :: p in ps ==> ps[p] == 1)
    && forall p, q :: p in ps && q in ps && p != q ==> p.0.inHi <= q.0.inLo || q.0.inHi <= p.0.inLo
  }

  lemma ApartWithLast(es: seq<Entry>, e: Entry)
    ensures AllApart(es + [e]) <==> AllApart(es) && forall d :: d in es ==> Apart(d, e)
  {
    var all := es + [e];
    if AllApart(all) {
      forall d | d in es ensures Apart(d, e) {
        var i :| 0 <= i < |es| && es[i] == d;
        assert all[i] == d && all[|es|] == e;
      }
      forall i, j | 0 <= i < j < |es| ensures Apart(es[i], es[j]) {
        assert all[i] == es[i] && all[j] == es[j];
      }
    }
  }

  lemma ApartPairsWithLast(ps: multiset<(Stream, Output)>, p: (Stream, Output))
    requires p.0.inLo < p.0.inHi
    ensures ApartPairs(ps + multiset{p}) <==>
            ApartPairs(ps) && forall q :: q in ps ==> q.0.inHi <= p.0.inLo || p.0.inHi <= q.0.inLo
  {
    var all := ps + multiset{p};
    assert forall q :: q in all <==> q in ps || q == p;
    assert forall q :: all[q] == ps[q] + if q == p then 1 else 0;
    if ApartPairs(all) {
      assert p !in ps by {
        assert all[p] == 1;
      }
      forall q | q in ps ensures ps[q] == 1 {
        assert q in all && q != p;
      }
    }
  }

  lemma {:induction false} ApartByPairs(es: seq<Entry>)
    requires Proper(es)
    ensures AllApart(es) <==> ApartPairs(Pairs(es))
  {
    if es == [] {
      return;
    }
    var rest, e := es[..|es| - 1], es[|es| - 1];
    assert es == rest + [e];
    assert Proper(rest) && e in es;
    ApartByPairs(rest);
    ApartWithLast(rest, e);
    ApartPairsWithLast(Pairs(rest), (e.s, e.o));
    forall q ensures q in Pairs(rest) <==> q in Decls(rest) {
      PairsHold(rest, q);
    }
    LastApart(rest, e);
    hide AllApart;
    hide ApartPairs;
  }

  lemma LastApart(es: seq<Entry>, e: Entry)
    ensures (forall d :: d in es ==> Apart(d, e))
            <==> (forall q :: q in Decls(es) ==> q.0.inHi <= e.s.inLo || e.s.inHi <= q.0.inLo)
  {
    if forall q :: q in Decls(es) ==> q.0.inHi <= e.s.inLo || e.s.inHi <= q.0.inLo {
      forall d | d in es ensures Apart(d, e) {
        assert (d.s, d.o) in Decls(es);
      }
    }
  }

  lemma PermutedDeclared(a: seq<Stream>, b: seq<Stream>)
    requires multiset(a) == multiset(b)
    ensures forall s :: s in a <==> s in b
    ensures Declared(a) ==> Declared(b)
  {
    forall s ensures s in a <==> s in b {
      assert s in multiset(a) <==> s in multiset(b);
    }
    forall i | 0 <= i < |b| && Declared(a) ensures b[i].inLo < b[i].inHi {
      assert b[i] in a;
    }
  }

  /** The overlap check does not depend on the order either. */
  lemma PermutedCompatible(a: seq<Stream>, b: seq<Stream>)
    requires multiset(a) == multiset(b) && Declared(a) && Compatible(a)
    ensures Declared(b) && Compatible(b)
  {
    PermutedDeclared(a, b);
    forall verb, lane ensures AllApart(AllOn(b, verb, lane)) {
      LanesAreWell(a, verb, lane);
      LanesAreWell(b, verb, lane);
      SamePairs(a, b, verb, lane);
      ApartByPairs(AllOn(a, verb, lane));
      ApartByPairs(AllOn(b, verb, lane));
    }
    hide AllApart;
    hide AllOn;
  }

  lemma SamePairsSameDecls(es: seq<Entry>, fs: seq<Entry>)
    requires Pairs(es) == Pairs(fs)
    ensures Decls(es) == Decls(fs)
  {
    hide Pairs;
    forall p: (Stream, Output) ensures p in Decls(es) <==> p in Decls(fs) {
      PairsHold(es, p);
      PairsHold(fs, p);
    }
  }

  lemma SamePairs(a: seq<Stream>, b: seq<Stream>, verb: Verb, lane: Lane)
    requires multiset(a) == multiset(b)
    ensures Pairs(AllOn(a, verb, lane)) == Pairs(AllOn(b, verb, lane))
    ensures Decls(AllOn(a, verb, lane)) == Decls(AllOn(b, verb, lane))
  {
    PairsAreTotal(a, verb, lane, |a|);
    PairsAreTotal(b, verb, lane, |b|);
    assert a[..|a|] == a && b[..|b|] == b;
    TotalOfPermuted(a, b, verb, lane);
    SamePairsSameDecls(AllOn(a, verb, lane), AllOn(b, verb, lane));
    hide Total;
    hide Pairs;
    hide Decls;
  }

  lemma PermutedOneArgument(a: seq<Stream>, b: seq<Stream>, verb: Verb)
    requires multiset(a) == multiset(b) && OneArgument(a, verb)
    ensures OneArgument(b, verb)
  {
    PermutedDeclared(a, b);
    assert forall lane, s :: Writes(b, verb, lane, s) ==> Writes(a, verb, lane, s);
  }

  /** One lane of the two orders: the same cue or none. */
  lemma LaneOfPermuted(a: seq<Stream>, b: seq<Stream>, verb: Verb, lane: Lane, args: Args)
    requires multiset(a) == multiset(b) && Declared(a) && Compatible(a)
        && OneArgument(a, verb) && !AtTouch(a, verb, args)
    ensures var v, w := Winner(AllOn(a, verb, lane), args), Winner(AllOn(b, verb, lane), args);
      v.Some? == w.Some? && (v.Some? ==> v.value.s == w.value.s && v.value.o == w.value.o)
  {
    PermutedCompatible(a, b);
    PermutedOneArgument(a, b, verb);
    LaneIsLaned(a, verb, lane);
    LaneIsLaned(b, verb, lane);
    SamePairs(a, b, verb, lane);
    var es := AllOn(a, verb, lane);
    forall d, e | d in es && e in es && Touch(d, e, args) ensures d == e {
      WritesIsEntry(a, verb, lane, d.s);
      WritesIsEntry(a, verb, lane, e.s);
      SameStreamSameEntry(es, d, e);
      assert In(d.s, args) && In(e.s, args);
      assert Writes(a, verb, lane, d.s) && Writes(a, verb, lane, e.s);
    }
    OrderDoesNotMatter(es, AllOn(b, verb, lane), args);
    hide AllOn;
    hide Laned;
    hide Compatible;
    hide Winner;
  }

  lemma SameStreamSameEntry(es: seq<Entry>, d: Entry, e: Entry)
    requires Laned(es) && d in es && e in es
    ensures d.s == e.s ==> d == e
  {
    if d.s == e.s {
      SameEnd(es, d, e);
    }
  }

  lemma OneCue(d: Entry, e: Entry, dev: string, x: real, c: Cue, c': Cue)
    requires d.s.inLo < d.s.inHi && d.s == e.s && d.o == e.o && Presents(d, dev, x, c) && Presents(e, dev, x, c')
    ensures c == c'
  {
    CuePresents(d, dev, x, c);
    CuePresents(e, dev, x, c');
    hide Presents;
    hide Data;
  }

  lemma CuesIncluded(a: seq<Stream>, b: seq<Stream>, verb: Verb, dev: string, args: Args,
                     out: seq<Cue>, whose: seq<Entry>, out': seq<Cue>, whose': seq<Entry>)
    requires Collected(a, verb, dev, args, out, whose) && Collected(b, verb, dev, args, out', whose')
    requires forall lane :: var v, w := Winner(AllOn(a, verb, lane), args), Winner(AllOn(b, verb, lane), args);
      v.Some? == w.Some? && (v.Some? ==> v.value.s == w.value.s && v.value.o == w.value.o)
    ensures forall c :: c in out ==> c in out'
    ensures forall lane :: Cued(whose, lane) ==> Cued(whose', lane)
  {
    hide Winner;
    hide AllOn;
    hide Presents;
    forall c | c in out ensures c in out' {
      var n :| 0 <= n < |out| && out[n] == c;
      var lane := whose[n].o.lane;
      assert Winner(AllOn(b, verb, lane), args).Some?;
      var m :| 0 <= m < |whose'| && whose'[m].o.lane == lane;
      assert whose'[m].s == whose[n].s && whose'[m].o == whose[n].o;
      OneCue(whose[n], whose'[m], dev, Input(whose[n].s, args).value, c, out'[m]);
      assert out'[m] == c;
    }
    forall lane | Cued(whose, lane) ensures Cued(whose', lane) {
      var n :| 0 <= n < |whose| && whose[n].o.lane == lane;
      assert Winner(AllOn(b, verb, lane), args).Some?;
    }
  }

  /**
   The order of declaration does not matter: of an accepted table that reads one argument a
   lane, a gesture emits the same cues, on the same lanes, in whatever order its streams
   are declared, unless its value is a point where two domains touch.
   */
  lemma CuesDoNotDependOnOrder(a: seq<Stream>, b: seq<Stream>, verb: Verb, dev: string, args: Args,
                               out: seq<Cue>, whose: seq<Entry>, out': seq<Cue>, whose': seq<Entry>)
    requires multiset(a) == multiset(b) && Compatible(a) && OneArgument(a, verb) && !AtTouch(a, verb, args)
    requires Collected(a, verb, dev, args, out, whose) && Collected(b, verb, dev, args, out', whose')
    ensures (set c | c in out) == (set c | c in out') && |out| == |out'|
    ensures forall lane ::
      (Cued(whose, lane) <==> Cued(whose', lane)) && (Cued(whose, lane) <==> Yields(a, verb, lane, args))
  {
    forall lane ensures var v, w := Winner(AllOn(a, verb, lane), args), Winner(AllOn(b, verb, lane), args);
      v.Some? == w.Some? && (v.Some? ==> v.value.s == w.value.s && v.value.o == w.value.o)
    {
      LaneOfPermuted(a, b, verb, lane, args);
    }
    CuesIncluded(a, b, verb, dev, args, out, whose, out', whose');
    CuesIncluded(b, a, verb, dev, args, out', whose', out, whose);
    GestureYieldsExactly(a, verb, dev, args, out, whose);
    SameNumber(whose, whose');
    hide Winner;
    hide AllOn;
  }

  ghost predicate LanesOnce(whose: seq<Entry>) {
    forall m, n :: 0 <= m < n < |whose| ==> whose[m].o.lane != whose[n].o.lane
  }

  function LanesOf(whose: seq<Entry>): set<Lane> { set n | 0 <= n < |whose| :: whose[n].o.lane }

  lemma {:induction false} LanesCount(whose: seq<Entry>)
    requires LanesOnce(whose)
    ensures |LanesOf(whose)| == |whose|
  {
    if whose != [] {
      var rest, last := whose[..|whose| - 1], whose[|whose| - 1].o.lane;
      LanesCount(rest);
      assert LanesOf(whose) == LanesOf(rest) + {last};
      assert last !in LanesOf(rest);
    }
  }

  lemma SameNumber(whose: seq<Entry>, whose': seq<Entry>)
    requires LanesOnce(whose) && LanesOnce(whose') && forall lane :: Cued(whose, lane) <==> Cued(whose', lane)
    ensures |whose| == |whose'|
  {
    LanesCount(whose);
    LanesCount(whose');
    forall lane ensures lane in LanesOf(whose) <==> Cued(whose, lane) {
    }
    forall lane ensures lane in LanesOf(whose') <==> Cued(whose', lane) {
    }
    assert LanesOf(whose) == LanesOf(whose');
  }
}
