/** control/functions.py: the load-time check and the run-time walk, proved against `Lanes`. */
module LaneMethods {
  import opened Wrappers
  import opened StableSorting
  import opened Lanes

  datatype Key = Key(verb: Verb, lane: Lane)

  lemma {:induction false} EntriesInAre(fn: nat, s: Stream, lane: Lane, n: nat)
    requires n <= |s.outputs|
    ensures forall e :: e in EntriesIn(fn, s, lane, n) ==> e.fn == fn && e.s == s
  {
    if n > 0 {
      EntriesInAre(fn, s, lane, n - 1);
    }
  }

  lemma {:induction false} EntriesOnAre(streams: seq<Stream>, verb: Verb, lane: Lane, n: nat)
    requires n <= |streams|
    ensures forall e :: e in EntriesOn(streams, verb, lane, n) ==> e.fn < n && e.s == streams[e.fn]
  {
    if n > 0 {
      EntriesOnAre(streams, verb, lane, n - 1);
      EntriesInAre(n - 1, streams[n - 1], lane, |streams[n - 1].outputs|);
    }
  }

  /** What a lane of a valid table is like. */
  lemma LanesAreWell(streams: seq<Stream>, verb: Verb, lane: Lane)
    requires Declared(streams)
    ensures Proper(AllOn(streams, verb, lane)) && OwnersAgree(AllOn(streams, verb, lane))
  {
    EntriesOnAre(streams, verb, lane, |streams|);
  }

  // ---- the domains of every lane --------------------------------------------------------

  /** Each lane's entries over the first `i` streams and the first `j` outputs of the next. */
  function SoFar(streams: seq<Stream>, i: nat, j: nat, k: Key): seq<Entry>
    requires At(streams, i, j)
  {
    EntriesOn(streams, k.verb, k.lane, i)
    + if i < |streams| && streams[i].verb == k.verb then EntriesIn(i, streams[i], k.lane, j) else []
  }

  predicate At(streams: seq<Stream>, i: nat, j: nat) {
    if i < |streams| then j <= |streams[i].outputs| else i == |streams| && j == 0
  }

  ghost predicate Holds(m: map<Key, seq<Entry>>, k: Key, es: seq<Entry>) {
    if k in m then m[k] == es && es != [] else es == []
  }

  lemma SoFarStep(streams: seq<Stream>, i: nat, j: nat, k: Key)
    requires i < |streams| && j < |streams[i].outputs|
    ensures SoFar(streams, i, j + 1, k) == SoFar(streams, i, j, k)
      + if k == Key(streams[i].verb, streams[i].outputs[j].lane)
        then [Entry(i, streams[i], streams[i].outputs[j])]
        else []
  {
  }

  lemma SoFarEnds(streams: seq<Stream>, i: nat, k: Key)
    requires i < |streams|
    ensures SoFar(streams, i, 0, k) == EntriesOn(streams, k.verb, k.lane, i)
    ensures SoFar(streams, i, |streams[i].outputs|, k)
        == EntriesOn(streams, k.verb, k.lane, i + 1) == SoFar(streams, i + 1, 0, k)
  {
  }

  /** The dictionary both the check and the walk build first. */
  method Domains(streams: seq<Stream>) returns (m: map<Key, seq<Entry>>)
    ensures forall k: Key :: Holds(m, k, AllOn(streams, k.verb, k.lane))
  {
    hide EntriesIn;
    m := map[];
    for i := 0 to |streams|
      invariant forall k: Key :: Holds(m, k, EntriesOn(streams, k.verb, k.lane, i))
    {
      var s := streams[i];
      forall k: Key {
        SoFarEnds(streams, i, k);
      }
      hide EntriesOn;
      for j := 0 to |s.outputs|
        invariant forall k: Key :: Holds(m, k, SoFar(streams, i, j, k))
      {
        var key, e := Key(s.verb, s.outputs[j].lane), Entry(i, s, s.outputs[j]);
        ghost var was := m;
        m := m[key := (if key in m then m[key] else []) + [e]];
        ghost var next := j + 1;
        forall k: Key ensures Holds(m, k, SoFar(streams, i, next, k)) {
          SoFarStep(streams, i, j, k);
          assert Holds(was, k, SoFar(streams, i, j, k));
          hide SoFar;
        }
      }
    }
  }

  // ---- the overlap check -------------------------------------------------------------------

  method NeighboursClear(es: seq<Entry>) returns (ok: bool)
    requires Proper(es)
    ensures ok <==> AllApart(es)
  {
    NeighboursExactly(es);
    var sorted := SortBy(es, ByLo());
    var k := 0;
    while k + 1 < |sorted|
      invariant forall j :: 0 <= j < k && j < |sorted| - 1 ==> sorted[j].s.inHi <= sorted[j + 1].s.inLo
    {
      if sorted[k].s.inHi > sorted[k + 1].s.inLo {
        return false;
      }
      k := k + 1;
    }
    ok := true;
  }

  /**
   `_validate_stream_lane_overlap`: it accepts exactly the tables in which no two same-lane
   domains of one verb overlap anywhere.
   */
  method AcceptsExactly(streams: seq<Stream>) returns (ok: bool)
    requires Declared(streams)
    ensures ok <==> Compatible(streams)
  {
    var lanes := Domains(streams);
    var left := lanes.Keys;
    while left != {}
      invariant left <= lanes.Keys
      invariant forall k :: k in lanes && k !in left ==> AllApart(lanes[k])
    {
      var k :| k in left;
      assert Holds(lanes, k, AllOn(streams, k.verb, k.lane));
      LanesAreWell(streams, k.verb, k.lane);
      hide AllApart;
      var clear := NeighboursClear(lanes[k]);
      if !clear {
        assert !AllApart(AllOn(streams, k.verb, k.lane));
        return false;
      }
      left := left - {k};
    }
    forall verb, lane ensures AllApart(AllOn(streams, verb, lane)) {
      assert Holds(lanes, Key(verb, lane), AllOn(streams, verb, lane));
    }
    ok := true;
  }

  // ---- one gesture ---------------------------------------------------------------------------

  function CueOf(e: Entry, dev: string, x: real): Cue
    requires e.s.inLo < e.s.inHi
  {
    Cue(if e.o.lane.dev.Target? then dev else e.o.lane.dev.name, e.o.lane.status, e.o.lane.data1, Data(e.s, e.o, x))
  }

  /** A cue of an output's lane, at the value its straight line gives. */
  ghost predicate Presents(e: Entry, dev: string, x: real, cue: Cue) {
    && (match e.o.lane.dev
        case Target => cue.dev == dev
        case Named(name) => cue.dev == name)
    && cue.status == e.o.lane.status && cue.data1 == e.o.lane.data1 && Scales(e.s, e.o, x, cue.data2)
  }

  lemma CuePresents(e: Entry, dev: string, x: real, cue: Cue)
    requires e.s.inLo < e.s.inHi
    ensures cue == CueOf(e, dev, x) <==> Presents(e, dev, x, cue)
  {
    DataIsLinear(e.s, e.o, x, cue.data2);
    hide Data;
    hide Scales;
  }

  lemma {:induction false} EntriesInGrow(fn: nat, s: Stream, lane: Lane, j: nat, n: nat)
    requires j <= n <= |s.outputs|
    ensures EntriesIn(fn, s, lane, j) <= EntriesIn(fn, s, lane, n)
  {
    if j < n {
      EntriesInGrow(fn, s, lane, j, n - 1);
    }
  }

  lemma {:induction false} EntriesOnGrow(streams: seq<Stream>, verb: Verb, lane: Lane, i: nat, n: nat)
    requires i <= n <= |streams|
    ensures EntriesOn(streams, verb, lane, i) <= EntriesOn(streams, verb, lane, n)
  {
    if i < n {
      EntriesOnGrow(streams, verb, lane, i, n - 1);
    }
  }

  lemma SoFarIsPrefix(streams: seq<Stream>, i: nat, j: nat, k: Key)
    requires At(streams, i, j)
    ensures SoFar(streams, i, j, k) <= AllOn(streams, k.verb, k.lane)
  {
    if i < |streams| {
      EntriesInGrow(i, streams[i], k.lane, j, |streams[i].outputs|);
      EntriesOnGrow(streams, k.verb, k.lane, i + 1, |streams|);
      SoFarEnds(streams, i, k);
    }
  }

  /** Who has the lane once the first `i` streams and `j` outputs of the next have been walked. */
  function Leader(streams: seq<Stream>, i: nat, j: nat, k: Key, args: Args): Option<Entry>
    requires At(streams, i, j)
  {
    SoFarIsPrefix(streams, i, j, k);
    First(AllOn(streams, k.verb, k.lane), |SoFar(streams, i, j, k)|, args)
  }

  lemma LeaderEnds(streams: seq<Stream>, i: nat, k: Key, args: Args)
    requires i < |streams|
    ensures Leader(streams, i, |streams[i].outputs|, k, args) == Leader(streams, i + 1, 0, k, args)
  {
    SoFarEnds(streams, i, k);
    hide First;
  }

  lemma LeaderIsWinner(streams: seq<Stream>, k: Key, args: Args)
    ensures Leader(streams, 0, 0, k, args) == None
    ensures Leader(streams, |streams|, 0, k, args) == Winner(AllOn(streams, k.verb, k.lane), args)
  {
  }

  /** One more output: it takes its lane when nobody has and it claims it; every other lane stays. */
  lemma LeaderStep(streams: seq<Stream>, i: nat, j: nat, k: Key, args: Args)
    requires i < |streams| && j < |streams[i].outputs|
    ensures var e, es, was := Entry(i, streams[i], streams[i].outputs[j]),
        AllOn(streams, k.verb, k.lane), Leader(streams, i, j, k, args);
      if k == Key(streams[i].verb, streams[i].outputs[j].lane) then
        e in es && Leader(streams, i, j + 1, k, args) == if was.Some? || !Claims(es, e, args) then was else Some(e)
      else Leader(streams, i, j + 1, k, args) == was
  {
    SoFarStep(streams, i, j, k);
    SoFarIsPrefix(streams, i, j + 1, k);
    var n, e := |SoFar(streams, i, j, k)|, Entry(i, streams[i], streams[i].outputs[j]);
    if k == Key(streams[i].verb, streams[i].outputs[j].lane) {
      assert SoFar(streams, i, j + 1, k)[n] == e;
      assert AllOn(streams, k.verb, k.lane)[n] == e;
    }
    hide SoFar;
    hide AllOn;
    hide Claims;
  }

  lemma LeaderBefore(streams: seq<Stream>, i: nat, j: nat, k: Key, args: Args)
    requires i < |streams| && j <= |streams[i].outputs|
    ensures Leader(streams, i, j, k, args).Some? ==> Leader(streams, i, j, k, args).value.fn <= i
  {
    var so, es := SoFar(streams, i, j, k), AllOn(streams, k.verb, k.lane);
    SoFarIsPrefix(streams, i, j, k);
    EntriesOnAre(streams, k.verb, k.lane, i);
    EntriesInAre(i, streams[i], k.lane, j);
    FirstIsFirst(es, |so|, args);
    assert forall e :: e in so ==> e.fn <= i;
    assert forall n :: 0 <= n < |so| ==> es[n] == so[n];
    hide Claims;
    hide First;
    hide SoFar;
  }

  /** What has been written: each lane's leader, once, in stream order. */
  ghost predicate Wrote(streams: seq<Stream>, i: nat, j: nat, verb: Verb, args: Args,
                        whose: seq<Entry>, written: set<Lane>)
    requires At(streams, i, j)
  {
    && (forall lane :: lane in written <==> Leader(streams, i, j, Key(verb, lane), args).Some?)
    && (forall n :: 0 <= n < |whose| ==>
          whose[n].o.lane in written && Leader(streams, i, j, Key(verb, whose[n].o.lane), args) == Some(whose[n]))
    && (forall lane :: lane in written ==> exists n :: 0 <= n < |whose| && whose[n].o.lane == lane)
    && (forall m, n :: 0 <= m < n < |whose| ==> whose[m].o.lane != whose[n].o.lane && whose[m].fn <= whose[n].fn)
  }

  lemma WroteNothing(streams: seq<Stream>, verb: Verb, args: Args)
    ensures Wrote(streams, 0, 0, verb, args, [], {})
  {
    forall lane ensures Leader(streams, 0, 0, Key(verb, lane), args).None? {
      LeaderIsWinner(streams, Key(verb, lane), args);
    }
  }

  lemma WroteStream(streams: seq<Stream>, i: nat, verb: Verb, args: Args, whose: seq<Entry>, written: set<Lane>)
    requires i < |streams| && Wrote(streams, i, |streams[i].outputs|, verb, args, whose, written)
    ensures Wrote(streams, i + 1, 0, verb, args, whose, written)
  {
    forall lane
      ensures Leader(streams, i, |streams[i].outputs|, Key(verb, lane), args)
           == Leader(streams, i + 1, 0, Key(verb, lane), args)
    {
      LeaderEnds(streams, i, Key(verb, lane), args);
    }
    hide Leader;
  }

  lemma WroteOutput(streams: seq<Stream>, i: nat, j: nat, verb: Verb, args: Args, whose: seq<Entry>, written: set<Lane>)
    requires i < |streams| && j < |streams[i].outputs| && streams[i].verb == verb
    requires Wrote(streams, i, j, verb, args, whose, written)
    ensures var e := Entry(i, streams[i], streams[i].outputs[j]);
      && e in AllOn(streams, verb, e.o.lane)
      && if e.o.lane !in written && Claims(AllOn(streams, verb, e.o.lane), e, args)
         then Wrote(streams, i, j + 1, verb, args, whose + [e], written + {e.o.lane})
         else Wrote(streams, i, j + 1, verb, args, whose, written)
  {
    var e, next := Entry(i, streams[i], streams[i].outputs[j]), j + 1;
    LeaderStep(streams, i, j, Key(verb, e.o.lane), args);
    forall lane
      ensures lane != e.o.lane ==>
        Leader(streams, i, next, Key(verb, lane), args) == Leader(streams, i, j, Key(verb, lane), args)
    {
      LeaderStep(streams, i, j, Key(verb, lane), args);
    }
    assert e.o.lane in written <==> Leader(streams, i, j, Key(verb, e.o.lane), args).Some?;
    hide Leader;
    hide Claims;
    hide AllOn;
    if e.o.lane !in written && Claims(AllOn(streams, verb, e.o.lane), e, args) {
      WroteTaken(streams, i, j, verb, args, whose, written, e);
    } else {
      WroteSame(streams, i, j, verb, args, whose, written);
    }
    hide Wrote;
  }

  lemma WroteSame(streams: seq<Stream>, i: nat, j: nat, verb: Verb, args: Args, whose: seq<Entry>, written: set<Lane>)
    requires i < |streams| && j < |streams[i].outputs| && Wrote(streams, i, j, verb, args, whose, written)
    requires forall lane ::
      Leader(streams, i, j + 1, Key(verb, lane), args) == Leader(streams, i, j, Key(verb, lane), args)
    ensures Wrote(streams, i, j + 1, verb, args, whose, written)
  {
    hide Leader;
  }

  lemma WroteTaken(streams: seq<Stream>, i: nat, j: nat, verb: Verb, args: Args,
                   whose: seq<Entry>, written: set<Lane>, e: Entry)
    requires i < |streams| && j < |streams[i].outputs| && Wrote(streams, i, j, verb, args, whose, written)
    requires e.fn == i && e.o.lane !in written && Leader(streams, i, j + 1, Key(verb, e.o.lane), args) == Some(e)
    requires forall lane :: lane != e.o.lane ==>
      Leader(streams, i, j + 1, Key(verb, lane), args) == Leader(streams, i, j, Key(verb, lane), args)
    ensures Wrote(streams, i, j + 1, verb, args, whose + [e], written + {e.o.lane})
  {
    hide Leader;
    var more := whose + [e];
    assert more[|whose|] == e && forall n :: 0 <= n < |whose| ==> more[n] == whose[n];
    forall n | 0 <= n < |whose| ensures whose[n].fn <= i {
      LeaderBefore(streams, i, j, Key(verb, whose[n].o.lane), args);
    }
    forall lane | lane in written ensures exists n :: 0 <= n < |more| && more[n].o.lane == lane {
      var n :| 0 <= n < |whose| && whose[n].o.lane == lane;
      assert more[n].o.lane == lane;
    }
  }

  /**
   What a gesture comes to: one cue for every lane that has a winner, in stream order, with the
   winner's address and the value its straight line gives.
   */
  ghost predicate Collected(streams: seq<Stream>, verb: Verb, dev: string, args: Args,
                            out: seq<Cue>, whose: seq<Entry>)
  {
    && Declared(streams) && |out| == |whose|
    && (forall n :: 0 <= n < |out| ==>
          && Winner(AllOn(streams, verb, whose[n].o.lane), args) == Some(whose[n])
          && Input(whose[n].s, args).Some? && whose[n].s.inLo < whose[n].s.inHi
          && Presents(whose[n], dev, Input(whose[n].s, args).value, out[n]))
    && (forall lane :: Winner(AllOn(streams, verb, lane), args).Some? ==>
        exists n :: 0 <= n < |whose| && whose[n].o.lane == lane)
    && (forall m, n :: 0 <= m < n < |whose| ==> whose[m].o.lane != whose[n].o.lane && whose[m].fn <= whose[n].fn)
  }

  /** One output of the walk: its lane is still unwritten, and its value in the domain or past an edge it owns. */
  method TakesLane(streams: seq<Stream>, verb: Verb, domains: map<Key, seq<Entry>>, i: nat, s: Stream, o: Output,
                   written: set<Lane>, args: Args) returns (take: bool)
    requires Entry(i, s, o) in AllOn(streams, verb, o.lane)
    requires Holds(domains, Key(verb, o.lane), AllOn(streams, verb, o.lane))
    ensures take == (o.lane !in written && Claims(AllOn(streams, verb, o.lane), Entry(i, s, o), args))
    ensures take ==> Input(s, args).Some?
  {
    var x := Input(s, args);
    if x.None? || o.lane in written {
      return false;
    }
    if !(s.inLo <= x.value <= s.inHi) {
      var es := domains[Key(verb, o.lane)];
      var lo, hi := Lowest(es), Highest(es);
      var isEdge := (i == lo.fn && x.value < lo.s.inLo) || (i == hi.fn && x.value > hi.s.inHi);
      if !isEdge {
        return false;
      }
    }
    take := true;
  }

  lemma MadeNothing(dev: string, args: Args)
    ensures Made([], dev, args, [], 0)
  {
  }

  lemma MadeLater(whose: seq<Entry>, dev: string, args: Args, out: seq<Cue>, i: nat)
    requires Made(whose, dev, args, out, i)
    ensures Made(whose, dev, args, out, i + 1)
  {
  }

  lemma MadeMore(whose: seq<Entry>, dev: string, args: Args, out: seq<Cue>, i: nat, e: Entry, x: real)
    requires Made(whose, dev, args, out, i) && e.fn <= i && Input(e.s, args) == Some(x) && e.s.inLo < e.s.inHi
    ensures Made(whose + [e], dev, args, out + [CueOf(e, dev, x)], i)
  {
  }

  /** `collect_stream_cues`, over the streams of one verb. */
  method CollectStreamCues(streams: seq<Stream>, verb: Verb, dev: string, args: Args) returns (out: seq<Cue>)
    requires Declared(streams) && forall s :: s in streams ==> s.verb == verb
    ensures exists whose :: Collected(streams, verb, dev, args, out, whose)
  {
    hide Wrote;
    hide Made;
    hide First;
    hide Leader;
    hide Claims;
    hide AllOn;
    var domains := Domains(streams);
    var written: set<Lane> := {};
    ghost var whose: seq<Entry> := [];
    out := [];
    WroteNothing(streams, verb, args);
    MadeNothing(dev, args);
    for i := 0 to |streams|
      invariant Wrote(streams, i, 0, verb, args, whose, written) && Made(whose, dev, args, out, i)
    {
      var s := streams[i];
      assert s in streams;
      for j := 0 to |s.outputs|
        invariant Wrote(streams, i, j, verb, args, whose, written) && Made(whose, dev, args, out, i)
      {
        WroteOutput(streams, i, j, verb, args, whose, written);
        var take := TakesLane(streams, verb, domains, i, s, s.outputs[j], written, args);
        if take {
          var e, x := Entry(i, s, s.outputs[j]), Input(s, args).value;
          MadeMore(whose, dev, args, out, i, e, x);
          written := written + {e.o.lane};
          out, whose := out + [CueOf(e, dev, x)], whose + [e];
        }
      }
      WroteStream(streams, i, verb, args, whose, written);
      MadeLater(whose, dev, args, out, i);
    }
    WroteAll(streams, verb, dev, args, out, whose, written);
  }

  ghost predicate Made(whose: seq<Entry>, dev: string, args: Args, out: seq<Cue>, i: nat) {
    && |out| == |whose|
    && forall n :: 0 <= n < |out| ==>
         && whose[n].fn <= i && Input(whose[n].s, args).Some? && whose[n].s.inLo < whose[n].s.inHi
         && out[n] == CueOf(whose[n], dev, Input(whose[n].s, args).value)
  }

  lemma WroteAll(streams: seq<Stream>, verb: Verb, dev: string, args: Args,
                 out: seq<Cue>, whose: seq<Entry>, written: set<Lane>)
    requires Declared(streams) && Wrote(streams, |streams|, 0, verb, args, whose, written)
        && Made(whose, dev, args, out, |streams|)
    ensures Collected(streams, verb, dev, args, out, whose)
  {
    forall lane
      ensures Leader(streams, |streams|, 0, Key(verb, lane), args) == Winner(AllOn(streams, verb, lane), args)
    {
      LeaderIsWinner(streams, Key(verb, lane), args);
    }
    forall n | 0 <= n < |out| ensures Presents(whose[n], dev, Input(whose[n].s, args).value, out[n]) {
      CuePresents(whose[n], dev, Input(whose[n].s, args).value, out[n]);
    }
    hide Leader;
    hide Winner;
    hide CueOf;
    hide Presents;
  }
}
