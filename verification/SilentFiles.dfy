/**
 control/sequencer.py: one-shots whose files end silent.

 A file ends silent when every key it strikes it later releases and every pedal it puts
 down it later lifts (`EndsSilentExactly`). `AlwaysEndsSilentExactly`: exactly then is its
 part silent after every run, however often it was played, restarted, dropped or left to
 play itself out, once it is off and all that waits for it has drained. What a run keeps
 is `Settles`: whatever sounds is let go by something queued, or by an event still to be
 emitted, and so is whatever is queued to sound.
 */
module SilentFiles {
  import opened Wrappers
  import MidiTracks
  import opened MidiFiles
  import opened Pairing
  import opened Rounding
  import opened Windows
  import opened Sequencers
  import opened SequencerRuns
  import opened HungNotes
  import opened OneShots
  import TQ = TimedQueues
  import SS = StableSorting

  // ---- what a message does to what sounds ------------------------------------------------

  /** What keeps a part sounding: a key, or the pedal. */
  datatype Hold = Key(key: Byte) | Pedal

  datatype Gist = Takes(hold: Hold) | Frees(hold: Hold)

  function GistOf(m: Midi): Option<Gist> {
    if Strikes(m) then Some(Takes(Key(m.d1)))
    else if Releases(m) then Some(Frees(Key(m.d1)))
    else if PedalDown(m) then Some(Takes(Pedal))
    else if PedalUp(m) then Some(Frees(Pedal))
    else None
  }

  predicate Keeps(v: Voice, h: Hold) {
    match h
    case Key(k) => k in v.held
    case Pedal => v.pedal || v.sustained != {}
  }

  lemma PlayKeeps(v: Voice, m: Midi, h: Hold)
    requires Keeps(PlayOn(v, m), h)
    ensures GistOf(m) == Some(Takes(h)) || (Keeps(v, h) && GistOf(m) != Some(Frees(h)))
  {
  }

  lemma SilentKeepsNothing(v: Voice)
    ensures Silent(v) <==> forall h :: !Keeps(v, h)
  {
    if forall h :: !Keeps(v, h) {
      assert !Keeps(v, Pedal);
      forall k ensures k !in v.held {
        assert !Keeps(v, Key(k));
      }
      assert v.held == {};
    }
  }

  predicate Takes1(x: Queued, h: Hold) { GistOf(x.payload) == Some(Takes(h)) }

  predicate Frees1(x: Queued, h: Hold) { GistOf(x.payload) == Some(Frees(h)) }

  /** The item at `i` takes hold of `h`, and none after it lets go. */
  ghost predicate TakenLast(xs: seq<Queued>, i: nat, h: Hold) {
    i < |xs| && Takes1(xs[i], h) && forall j :: i < j < |xs| ==> !Frees1(xs[j], h)
  }

  lemma {:induction false} SungKeeps(v: Voice, xs: seq<Queued>, h: Hold)
    requires Keeps(Sing(v, xs), h)
    ensures (Keeps(v, h) && forall x :: x in xs ==> !Frees1(x, h)) || exists i: nat :: TakenLast(xs, i, h)
  {
    if xs != [] {
      var front, x := xs[..|xs| - 1], xs[|xs| - 1];
      assert xs == front + [x];
      PlayKeeps(Sing(v, front), x.payload, h);
      hide PlayOn;
      hide GistOf;
      if Takes1(x, h) {
        assert TakenLast(xs, |front|, h);
      } else {
        SungKeeps(v, front, h);
        if i: nat :| TakenLast(front, i, h) {
          assert TakenLast(xs, i, h);
        }
      }
    }
  }

  // ---- what a file does ----------------------------------------------------------------------

  function EventGist(e: MidiEvent): seq<Gist> {
    var g := GistOf(Midi(e.status, e.d1, e.d2, ""));
    if g.Some? then [g.value] else []
  }

  function Gists(es: seq<MidiEvent>): seq<Gist> {
    if es == [] then [] else Gists(es[..|es| - 1]) + EventGist(es[|es| - 1])
  }

  lemma {:induction false} GistsConcat(a: seq<MidiEvent>, b: seq<MidiEvent>)
    ensures Gists(a + b) == Gists(a) + Gists(b)
  {
    if b == [] {
      assert a + b == a;
    } else {
      assert (a + b)[..|a + b| - 1] == a + b[..|b| - 1];
      GistsConcat(a, b[..|b| - 1]);
    }
  }

  /** Whatever is taken hold of is let go of later. */
  ghost predicate Closed(gs: seq<Gist>) {
    forall i :: 0 <= i < |gs| && gs[i].Takes? ==> exists j :: i < j < |gs| && gs[j] == Frees(gs[i].hold)
  }

  lemma ClosedTail(a: seq<Gist>, b: seq<Gist>)
    requires Closed(a + b)
    ensures Closed(b)
  {
    forall i | 0 <= i < |b| && b[i].Takes? ensures exists j :: i < j < |b| && b[j] == Frees(b[i].hold) {
      assert (a + b)[|a| + i] == b[i];
      var j :| |a| + i < j < |a + b| && (a + b)[j] == Frees(b[i].hold);
      assert b[j - |a|] == Frees(b[i].hold);
    }
  }

  /** The last of these to touch `h` takes hold of it. */
  function OnAfter(gs: seq<Gist>, h: Hold): bool {
    if gs == [] then false
    else
      var g := gs[|gs| - 1];
      if g == Takes(h) then true else if g == Frees(h) then false else OnAfter(gs[..|gs| - 1], h)
  }

  ghost predicate LastTaken(gs: seq<Gist>, i: nat, h: Hold) {
    i < |gs| && gs[i] == Takes(h) && forall j :: i < j < |gs| ==> gs[j] != Frees(h)
  }

  lemma {:induction false} OnAfterMeans(gs: seq<Gist>, h: Hold)
    ensures OnAfter(gs, h) <==> exists i: nat :: LastTaken(gs, i, h)
  {
    if gs != [] {
      var front, g := gs[..|gs| - 1], gs[|gs| - 1];
      OnAfterMeans(front, h);
      if g == Takes(h) {
        assert LastTaken(gs, |front|, h);
      }
      if i: nat :| LastTaken(front, i, h) && g != Frees(h) {
        assert LastTaken(gs, i, h);
      }
      if i: nat :| LastTaken(gs, i, h) && g != Takes(h) {
        assert LastTaken(front, i, h);
      }
    }
  }

  ghost predicate NothingTaken(gs: seq<Gist>) { forall h :: !OnAfter(gs, h) }

  lemma ClosedExactly(gs: seq<Gist>)
    ensures Closed(gs) <==> NothingTaken(gs)
  {
    forall h {
      OnAfterMeans(gs, h);
    }
    if NothingTaken(gs) {
      forall i | 0 <= i < |gs| && gs[i].Takes? ensures exists j :: i < j < |gs| && gs[j] == Frees(gs[i].hold) {
        assert !LastTaken(gs, i, gs[i].hold) by { assert !OnAfter(gs, gs[i].hold); }
      }
    } else {
      var h :| OnAfter(gs, h);
      var i: nat :| LastTaken(gs, i, h);
      assert gs[i].Takes? && gs[i].hold == h;
      assert !Closed(gs);
    }
  }

  /** A key is down, or the pedal is. */
  predicate On(v: Voice, h: Hold) { if h.Key? then h.key in v.held else v.pedal }

  lemma {:induction false} EventsOn(es: seq<MidiEvent>, h: Hold)
    ensures var v := PlayEvents(Voice({}, {}, false), es);
      (On(v, h) <==> OnAfter(Gists(es), h)) && (v.sustained != {} ==> v.pedal)
  {
    if es != [] {
      var front, e := es[..|es| - 1], es[|es| - 1];
      EventsOn(front, h);
      EventOn(PlayEvents(Voice({}, {}, false), front), e, h);
      OnAfterOne(Gists(front), EventGist(e), h);
      hide OnAfter;
      hide EventGist;
      hide PlayOn;
      hide On;
    }
  }

  lemma EventOn(v: Voice, e: MidiEvent, h: Hold)
    ensures var v' := PlayOn(v, Midi(e.status, e.d1, e.d2, ""));
      && (On(v', h) <==> EventGist(e) == [Takes(h)] || (On(v, h) && EventGist(e) != [Frees(h)]))
      && ((v.sustained != {} ==> v.pedal) ==> v'.sustained != {} ==> v'.pedal)
    ensures |EventGist(e)| <= 1
  {
  }

  lemma OnAfterOne(gs: seq<Gist>, more: seq<Gist>, h: Hold)
    requires |more| <= 1
    ensures OnAfter(gs + more, h)
         == if more == [Takes(h)] then true else if more == [Frees(h)] then false else OnAfter(gs, h)
  {
    if more == [] {
      assert gs + more == gs;
    } else {
      assert more == [more[0]] && (gs + more)[..|gs + more| - 1] == gs;
    }
  }

  /** Played from silence, a file ends silent exactly when it lets go of whatever it takes hold of. */
  lemma EndsSilentExactly(es: seq<MidiEvent>)
    ensures EndsSilent(es) <==> Closed(Gists(es))
  {
    var v := PlayEvents(Voice({}, {}, false), es);
    forall h {
      EventsOn(es, h);
    }
    ClosedExactly(Gists(es));
    SilentKeepsNothing(v);
    EventsOn(es, Pedal);
    hide PlayEvents;
    hide Gists;
    hide Closed;
    hide Silent;
    if NothingTaken(Gists(es)) {
      forall h ensures !Keeps(v, h) {
        assert !On(v, h) && !On(v, Pedal);
      }
    } else {
      var h :| OnAfter(Gists(es), h);
      assert On(v, h) && Keeps(v, h);
      assert !Silent(v);
    }
  }

  // ---- what the queue gets from a tick -------------------------------------------------------

  function CueGist(c: Cue, name: string): seq<Gist> {
    if Counts(c, name) && GistOf(Message(c)).Some? then [GistOf(Message(c)).value] else []
  }

  function CueGists(cues: seq<Cue>, name: string): seq<Gist> {
    if cues == [] then [] else CueGists(cues[..|cues| - 1], name) + CueGist(cues[|cues| - 1], name)
  }

  lemma CueGistIsEventGist(s: State, t: Track, e: MidiEvent, beat: real)
    requires s.t0.Some? && s.bpm != 0.0
    ensures CueGist(EventCue(s, t, e, beat), t.name) == EventGist(e)
  {
    if IsVolume(e) {
      VolumeSaysNothing(s, t, e.d2, s.TimeAt(beat), t.name);
    } else {
      var m := Message(CueFor(s, t, e.status, e.d1, e.d2, s.TimeAt(beat)));
      assert MidiTracks.HighNibble(m.status) == MidiTracks.HighNibble(e.status);
    }
  }

  lemma {:induction false} CueGistsAreEventGists(s: State, t: Track, os: seq<Occurrence>)
    requires s.t0.Some? && s.bpm != 0.0 && forall o :: o in os ==> o.i < |t.line.events|
    ensures CueGists(Cues(TimedCues(s, t, os)), t.name) == Gists(EventsOf(t.line, os))
  {
    if os != [] {
      var front, o := os[..|os| - 1], os[|os| - 1];
      assert o in os && forall x :: x in front ==> x in os;
      CueGistsAreEventGists(s, t, front);
      assert Cues(TimedCues(s, t, os))[..|os| - 1] == Cues(TimedCues(s, t, front));
      assert EventsOf(t.line, os)[..|os| - 1] == EventsOf(t.line, front);
      CueGistIsEventGist(s, t, t.line.events[o.i], Grid(t.line, o));
      hide CueGist;
      hide EventGist;
      hide EventCue;
    }
  }

  lemma OthersGist(x: Timed, name: string)
    ensures !OfTrack(x, name) ==> CueGist(x.cue, name) == []
  {
  }

  lemma {:induction false} OwnGistsOnly(xs: seq<Timed>, name: string)
    ensures CueGists(Cues(xs), name) == CueGists(Cues(SS.Filter(xs, (x: Timed) => OfTrack(x, name))), name)
  {
    if xs != [] {
      var front, x := xs[..|xs| - 1], xs[|xs| - 1];
      var own := (y: Timed) => OfTrack(y, name);
      var mine := SS.Filter(front, own);
      assert xs == front + [x];
      hide CueGist;
      OwnGistsOnly(front, name);
      SS.FilterConcat(front, [x], own);
      FilterOne(x, own);
      hide SS.Filter;
      hide CueGists;
      CueGistsMore(front, x, name);
      CueGistsMore(mine, x, name);
      OthersGist(x, name);
      assert mine + [] == mine;
    }
  }

  lemma FilterOne(x: Timed, keep: Timed -> bool)
    ensures SS.Filter([x], keep) == if keep(x) then [x] else []
  {
    assert [x][1..] == [];
  }

  lemma CueGistsMore(xs: seq<Timed>, x: Timed, name: string)
    ensures CueGists(Cues(xs + [x]), name) == CueGists(Cues(xs), name) + CueGist(x.cue, name)
    ensures CueGist(x.cue, name) == [] ==> CueGists(Cues(xs + [x]), name) == CueGists(Cues(xs), name)
  {
    assert Cues(xs + [x])[..|xs|] == Cues(xs);
    hide CueGist;
  }

  /** The tick's cues do to the part what its events from the old cursor to the new do. */
  lemma AdvanceGists(s: State, at: real, name: string)
    requires OneShot(s, name) && s.tracks[name].on
    ensures var t, to := s.tracks[name], Onward(s.tracks[name], AdvanceEnd(s, at));
      var a, b := Passed(t.line, t.cursor, |t.line.events|), Passed(t.line, to, |t.line.events|);
      && a <= b && AdvancedAll(s, at).Ok?
      && CueGists(AdvancedAll(s, at).value.1, name) == Gists(t.line.events[a..b])
  {
    hide CueGists;
    hide Gists;
    hide Passed;
    hide Pending;
    hide TimedCues;
    hide EventsOf;
    hide SS.SortBy;
    hide SS.Filter;
    hide TrackByTrack;
    hide AdvancedAll;
    var t, end := s.tracks[name], AdvanceEnd(s, at);
    assert name in s.order && t.name == name && ValidTrack(t);
    var m :| 0 <= m < |s.order| && s.order[m] == name;
    AdvanceMergesTracks(s, at, m);
    hide ValidTrack;
    PendingEvents(t, end);
    OwnGistsOnly(SS.SortBy(TrackByTrack(s, |s.order|, end), GridOf), name);
    CueGistsAreEventGists(s, t, Pending(t, end));
  }

  /** Items in order of release, due from `from` to `to`, pushed since `order`, that do what `gs` says. */
  ghost predicate Added(xs: seq<Queued>, gs: seq<Gist>, from: real, to: real, order: nat) {
    && TQ.Sorted(xs) && |xs| == |gs|
    && (forall i :: 0 <= i < |xs| ==> GistOf(xs[i].payload) == Some(gs[i]))
    && forall x :: x in xs ==> from <= x.due <= to && x.order >= order
  }

  lemma AddedNothing(from: real, to: real, order: nat)
    ensures Added([], [], from, to, order)
  {
  }

  lemma AddedOne(xs: seq<Queued>, gs: seq<Gist>, from: real, mid: real, to: real, order: nat, x: Queued, g: Gist)
    requires Added(xs, gs, from, mid, order) && from <= x.due && mid <= x.due <= to && x.order >= order
    requires GistOf(x.payload) == Some(g) && forall y :: y in xs ==> y.order < x.order
    ensures Added(xs + [x], gs + [g], from, to, order)
  {
    SortedSnoc(xs, x);
    hide GistOf;
  }

  lemma AddedLater(xs: seq<Queued>, gs: seq<Gist>, from: real, mid: real, to: real, order: nat)
    requires Added(xs, gs, from, mid, order) && mid <= to
    ensures Added(xs, gs, from, to, order)
  {
  }

  lemma {:induction false} DispatchAdds(q: TQ.Queue<Midi>, cues: seq<Cue>, now: real, name: string, lo: real, hi: real)
    returns (added: seq<Queued>)
    requires q.Valid() && lo <= hi && Rising(cues, name, lo, hi)
    ensures Waiting(Dispatch(q, cues, now), name) == Waiting(q, name) + added
    ensures Added(added, CueGists(cues, name), Max(lo, now), Max(hi, now), q.nextOrder)
    ensures Dispatch(q, cues, now).nextOrder >= q.nextOrder
    decreases |cues|
  {
    if cues == [] {
      added := [];
      AddedNothing(Max(lo, now), Max(hi, now), q.nextOrder);
      assert Waiting(q, name) + [] == Waiting(q, name);
      return;
    }
    var front, c := cues[..|cues| - 1], cues[|cues| - 1];
    var top := if Counts(c, name) then c.when else hi;
    RisingFront(cues, name, lo, hi);
    hide Rising;
    hide Waiting;
    hide Added;
    hide Receive;
    hide CueGist;
    hide Counts;
    var before := DispatchAdds(q, front, now, name, lo, top);
    added := ReceiveAdds(q, Dispatch(q, front, now), c, now, name, before, CueGists(front, name), lo, top, hi);
  }

  /** One more cue of the tick. */
  lemma ReceiveAdds(q: TQ.Queue<Midi>, q1: TQ.Queue<Midi>, c: Cue, now: real, name: string,
                    before: seq<Queued>, gs: seq<Gist>, lo: real, top: real, hi: real) returns (added: seq<Queued>)
    requires q1.Valid() && q1.nextOrder >= q.nextOrder && Waiting(q1, name) == Waiting(q, name) + before
    requires Added(before, gs, Max(lo, now), Max(top, now), q.nextOrder)
    requires !PurgesTag(c, name) && top <= hi && (Counts(c, name) ==> lo <= c.when == top)
    ensures Waiting(Receive(q1, c, now), name) == Waiting(q, name) + added
    ensures Added(added, gs + CueGist(c, name), Max(lo, now), Max(hi, now), q.nextOrder)
    ensures Receive(q1, c, now).nextOrder >= q.nextOrder
  {
    WaitingBelow(q1, name);
    hide GistOf;
    hide Waiting;
    hide Added;
    hide Matters;
    ReceiveWaits(q1, c, now, name);
    if Counts(c, name) {
      CountsHasGist(c, name);
      var x := TQ.Item(TQ.DueAt(Some(c.when), now), q1.nextOrder, Message(c));
      AddedOne(before, gs, Max(lo, now), Max(top, now), Max(hi, now), q.nextOrder, x, GistOf(Message(c)).value);
      added := before + [x];
      assert Waiting(q, name) + added == (Waiting(q, name) + before) + [x];
    } else {
      AddedLater(before, gs, Max(lo, now), Max(top, now), Max(hi, now), q.nextOrder);
      added := before;
      assert gs + [] == gs;
      assert (Waiting(q, name) + before) + [] == Waiting(q, name) + before;
    }
  }

  lemma CountsHasGist(c: Cue, name: string)
    ensures Counts(c, name) ==> GistOf(Message(c)).Some?
  {
  }

  lemma WaitingBelow(q: TQ.Queue<Midi>, name: string)
    requires q.Valid()
    ensures forall x :: x in Waiting(q, name) ==> x.order < q.nextOrder
  {
  }

  // ---- what a run keeps ------------------------------------------------------------------------

  /** The events a one-shot has not emitted yet. */
  function Left(t: Track): seq<MidiEvent> { t.line.events[Passed(t.line, t.cursor, |t.line.events|)..] }

  /** The playing track will still let go of `h`. */
  ghost predicate Owed(t: Track, h: Hold) { t.on && Frees(h) in Gists(Left(t)) }

  ghost predicate FreedIn(xs: seq<Queued>, h: Hold) { exists y :: y in xs && Frees1(y, h) }

  ghost predicate FreedAfter(xs: seq<Queued>, x: Queued, h: Hold) {
    exists y :: y in xs && TQ.Before(x, y) && Frees1(y, h)
  }

  /**
   Whatever the voice keeps, and whatever is queued to take hold, is let go by something
   queued (later, for what is queued itself), or by an event still to be emitted.
   */
  ghost predicate Settled(v: Voice, xs: seq<Queued>, t: Track, limit: real) {
    && (forall h :: Keeps(v, h) ==> FreedIn(xs, h) || Owed(t, h))
    && forall x, h :: x in xs && Takes1(x, h) ==> FreedAfter(xs, x, h) || (Owed(t, h) && x.due <= limit)
  }

  ghost predicate Settles(w: World, name: string, clock: real) {
    && Inv(w) && OneShot(w.sequencer, name) && EndsSilent(w.sequencer.tracks[name].line.events)
    && var t := w.sequencer.tracks[name];
       Settled(VoiceAt(w.synth, t.part), Waiting(w.queue, name), t, DueLimit(w.sequencer, t, clock))
  }

  lemma DrainSettled(v: Voice, xs: seq<Queued>, taken: seq<Queued>, left: seq<Queued>, t: Track, limit: real, now: real)
    requires Settled(v, xs, t, limit) && TQ.Sorted(taken)
    requires forall x :: x in taken <==> x in xs && x.due <= now
    requires forall x :: x in left <==> x in xs && now < x.due
    ensures Settled(Sing(v, taken), left, t, limit)
  {
    hide GistOf;
    hide Owed;
    forall h | Keeps(Sing(v, taken), h) ensures FreedIn(left, h) || Owed(t, h) {
      SungKeeps(v, taken, h);
      if i: nat :| TakenLast(taken, i, h) {
        TakenLastFreed(xs, taken, left, i, h, now);
      } else {
        assert Keeps(v, h);
      }
    }
    forall x, h | x in left && Takes1(x, h) ensures FreedAfter(left, x, h) || (Owed(t, h) && x.due <= limit) {
      if FreedAfter(xs, x, h) {
        var y :| y in xs && TQ.Before(x, y) && Frees1(y, h);
        assert y in left;
      }
    }
    hide Sing;
  }

  lemma TakenLastFreed(xs: seq<Queued>, taken: seq<Queued>, left: seq<Queued>, i: nat, h: Hold, now: real)
    requires TQ.Sorted(taken) && TakenLast(taken, i, h)
    requires forall x :: x in taken <==> x in xs && x.due <= now
    requires forall x :: x in left <==> x in xs && now < x.due
    ensures taken[i] in xs && (FreedAfter(xs, taken[i], h) ==> FreedIn(left, h))
  {
    hide GistOf;
    assert taken[i] in taken;
    if FreedAfter(xs, taken[i], h) {
      var y :| y in xs && TQ.Before(taken[i], y) && Frees1(y, h);
      forall j | 0 <= j < |taken| ensures taken[j] != y {
      }
      assert y in left;
    }
  }

  lemma AdvanceSettled(v: Voice, xs: seq<Queued>, added: seq<Queued>, gs: seq<Gist>, t: Track, t': Track,
                       limit: real, limit': real, order: nat)
    requires Settled(v, xs, t, limit) && Added(added, gs, limit, limit', order) && limit <= limit'
    requires forall x :: x in xs ==> x.order < order
    requires Gists(Left(t)) == gs + Gists(Left(t')) && Closed(Gists(Left(t)))
    requires t'.on || Left(t') == []
    ensures Settled(v, xs + added, t', limit')
  {
    hide GistOf;
    hide Left;
    var all := xs + added;
    forall h | Keeps(v, h) ensures FreedIn(all, h) || Owed(t', h) {
      if FreedIn(xs, h) {
        var y :| y in xs && Frees1(y, h);
        assert y in all;
      } else {
        OwedSplits(added, gs, t, t', h, limit, limit', order);
      }
    }
    forall x, h | x in all && Takes1(x, h) ensures FreedAfter(all, x, h) || (Owed(t', h) && x.due <= limit') {
      if x in xs {
        OldSettled(xs, added, gs, t, t', x, h, limit, limit', order);
      } else {
        NewSettled(xs, added, gs, t, t', x, h, limit, limit', order);
      }
    }
  }

  /** What a playing track owes is queued by the tick, or still owed. */
  lemma OwedSplits(added: seq<Queued>, gs: seq<Gist>, t: Track, t': Track, h: Hold,
                   limit: real, limit': real, order: nat)
    requires Added(added, gs, limit, limit', order) && Gists(Left(t)) == gs + Gists(Left(t'))
    requires t'.on || Left(t') == []
    ensures Owed(t, h) ==> FreedIn(added, h) || Owed(t', h)
  {
    hide GistOf;
    hide Left;
    if Owed(t, h) && Frees(h) in gs {
      var i :| 0 <= i < |gs| && gs[i] == Frees(h);
      assert added[i] in added && Frees1(added[i], h);
    }
  }

  lemma OldSettled(xs: seq<Queued>, added: seq<Queued>, gs: seq<Gist>, t: Track, t': Track, x: Queued, h: Hold,
                   limit: real, limit': real, order: nat)
    requires x in xs && x.order < order && Added(added, gs, limit, limit', order) && limit <= limit'
    requires FreedAfter(xs, x, h) || (Owed(t, h) && x.due <= limit)
    requires Gists(Left(t)) == gs + Gists(Left(t')) && (t'.on || Left(t') == [])
    ensures FreedAfter(xs + added, x, h) || (Owed(t', h) && x.due <= limit')
  {
    if FreedAfter(xs, x, h) {
      var y :| y in xs && TQ.Before(x, y) && Frees1(y, h);
      assert y in xs + added;
    } else {
      OwedSplits(added, gs, t, t', h, limit, limit', order);
      if FreedIn(added, h) {
        var y :| y in added && Frees1(y, h);
        assert y in xs + added && TQ.Before(x, y);
      }
    }
    hide GistOf;
    hide Left;
    hide Gists;
  }

  lemma NewSettled(xs: seq<Queued>, added: seq<Queued>, gs: seq<Gist>, t: Track, t': Track, x: Queued, h: Hold,
                   limit: real, limit': real, order: nat)
    requires x in added && Takes1(x, h) && Added(added, gs, limit, limit', order)
    requires Gists(Left(t)) == gs + Gists(Left(t')) && Closed(Gists(Left(t))) && (t'.on || Left(t') == [])
    ensures FreedAfter(xs + added, x, h) || (Owed(t', h) && x.due <= limit')
  {
    hide GistOf;
    hide Left;
    var all := gs + Gists(Left(t'));
    var i :| 0 <= i < |added| && added[i] == x;
    assert all[i] == Takes(h);
    var j :| i < j < |all| && all[j] == Frees(h);
    if j < |gs| {
      assert added[j] in xs + added && Frees1(added[j], h) && TQ.Before(x, added[j]);
    } else {
      assert Gists(Left(t'))[j - |gs|] == Frees(h);
    }
  }

  lemma LimitsGrow(v: Voice, xs: seq<Queued>, t: Track, limit: real, limit': real)
    requires Settled(v, xs, t, limit) && limit <= limit'
    ensures Settled(v, xs, t, limit')
  {
    hide GistOf;
    hide Owed;
  }

  /** Off, it owes nothing; so however it is started it is settled. */
  lemma OffSettled(v: Voice, xs: seq<Queued>, t: Track, limit: real, t': Track, limit': real)
    requires Settled(v, xs, t, limit) && !t.on
    ensures Settled(v, xs, t', limit')
  {
    hide GistOf;
    hide Left;
  }

  // ---- each step --------------------------------------------------------------------------------

  lemma SettlesMeans(w: World, name: string, clock: real)
    requires Settles(w, name, clock)
    ensures Inv(w) && Sane(w) && OneShot(w.sequencer, name) && name in w.sequencer.tracks
  {
    hide Settled;
  }

  lemma DrainTakes(w: World, now: real, name: string) returns (taken: seq<Queued>)
    requires Inv(w) && name in w.sequencer.tracks
    ensures TQ.Sorted(taken) && forall x :: x in taken <==> x in Waiting(w.queue, name) && x.due <= now
    ensures forall x :: x in Waiting(w.queue.After(now), name) <==> x in Waiting(w.queue, name) && now < x.due
    ensures var w' := Next(w, Drain(now));
      && w'.sequencer == w.sequencer && w'.queue == w.queue.After(now)
      && var part := w.sequencer.tracks[name].part;
         VoiceAt(w'.synth, part) == Sing(VoiceAt(w.synth, part), taken)
  {
    var p, ready := (x: Queued) => Matters(x.payload, name), w.queue.Ready(now);
    taken := TQ.Select(ready, p);
    SelectSorted(ready, p);
    PlayedIsSung(w.sequencer, w.synth, ready, name);
    hide Matters;
    hide PlayAll;
    hide Sing;
    hide DistinctParts;
    hide Known;
    hide Sounding;
  }

  lemma SettlesDrain(w: World, now: real, name: string, clock: real)
    requires Settles(w, name, clock) && clock <= now
    ensures Settles(Next(w, Drain(now)), name, now)
  {
    var s, t := w.sequencer, w.sequencer.tracks[name];
    SettlesMeans(w, name, clock);
    var taken := DrainTakes(w, now, name);
    NextKeepsInv(w, Drain(now));
    hide Inv;
    hide Next;
    hide Waiting;
    hide Sing;
    var v, xs, left := VoiceAt(w.synth, t.part), Waiting(w.queue, name), Waiting(w.queue.After(now), name);
    DrainSettled(v, xs, taken, left, t, DueLimit(s, t, clock), now);
    LimitsGrow(Sing(v, taken), left, t, DueLimit(s, t, clock), DueLimit(s, t, now));
    hide Settled;
  }

  lemma SettlesSame(w: World, w': World, name: string, clock: real, now: real)
    requires Settles(w, name, clock) && clock <= now && Inv(w') && OneShot(w'.sequencer, name)
    requires w'.sequencer.tracks[name] == w.sequencer.tracks[name] && w'.synth == w.synth
    requires w'.sequencer.t0 == w.sequencer.t0 && w'.sequencer.bpm == w.sequencer.bpm
    requires Waiting(w'.queue, name) == Waiting(w.queue, name)
    ensures Settles(w', name, now)
  {
    hide Inv;
    hide Waiting;
    var s, t := w.sequencer, w.sequencer.tracks[name];
    assert s.bpm != 0.0;
    hide State.Valid;
    LimitsGrow(VoiceAt(w.synth, t.part), Waiting(w.queue, name), t, DueLimit(s, t, clock), DueLimit(s, t, now));
    hide Settled;
  }

  /** A call that says nothing to the track. */
  lemma SettlesOther(w: World, op: Op, now: real, name: string, clock: real)
    requires Settles(w, name, clock) && clock <= now && NotRestarting(op, name)
    requires w.sequencer.tracks[name].on ==> !op.AdvanceTo? && !(op.Disable? && op.name == name)
    ensures Settles(Next(w, Call(op, now)), name, now)
  {
    hide Settles;
    SettlesMeans(w, name, clock);
    hide Dispatch;
    hide Waiting;
    hide Step;
    var s := w.sequencer;
    NextKeepsInv(w, Call(op, now));
    OthersSayNothing(s, op, name);
    OnlyOneTrack(s, op, name);
    if Step(s, op).Ok? {
      NothingCounts(w.queue, Step(s, op).value.1, now, name);
    }
    StillThere(s, op, name);
    hide Inv;
    SettlesSame(w, Next(w, Call(op, now)), name, clock, now);
  }

  lemma AdvancedLeft(t: Track, t': Track)
    requires ValidTrack(t) && !t.line.loop && t'.line == t.line
    requires Passed(t.line, t.cursor, |t.line.events|) <= Passed(t.line, t'.cursor, |t.line.events|)
    requires t'.on || t'.cursor > LastBeat(t.line)
    requires EndsSilent(t.line.events)
    ensures var a, b := Passed(t.line, t.cursor, |t.line.events|), Passed(t.line, t'.cursor, |t.line.events|);
      Gists(Left(t)) == Gists(t.line.events[a..b]) + Gists(Left(t'))
    ensures Closed(Gists(Left(t))) && (t'.on || Left(t') == [])
  {
    hide Closed;
    hide Gists;
    hide Passed;
    hide EndsSilent;
    var es := t.line.events;
    var a, b := Passed(t.line, t.cursor, |es|), Passed(t.line, t'.cursor, |es|);
    if !t'.on {
      assert ValidTrack(t.(cursor := t'.cursor));
      AllPassed(t.(cursor := t'.cursor));
      assert |es[..b]| == |es|;
    }
    hide ValidTrack;
    GistsSplit(es, a, b);
    EndsSilentExactly(es);
    ClosedTail(Gists(es[..a]), Gists(es[a..]));
  }

  lemma GistsSplit(es: seq<MidiEvent>, a: nat, b: nat)
    requires a <= b <= |es|
    ensures Gists(es[a..]) == Gists(es[a..b]) + Gists(es[b..]) && Gists(es) == Gists(es[..a]) + Gists(es[a..])
  {
    hide Gists;
    assert es[a..] == es[a..b] + es[b..] && es == es[..a] + es[a..];
    GistsConcat(es[a..b], es[b..]);
    GistsConcat(es[..a], es[a..]);
  }

  lemma SettlesAdvance(w: World, at: real, now: real, name: string, clock: real)
    requires Settles(w, name, clock) && clock <= now && w.sequencer.tracks[name].on
    ensures Settles(Next(w, Call(AdvanceTo(at), now)), name, now)
  {
    SettlesMeans(w, name, clock);
    NextKeepsInv(w, Call(AdvanceTo(at), now));
    AdvancedWorld(w, at, now);
    var s, t := w.sequencer, w.sequencer.tracks[name];
    hide Inv;
    hide Next;
    hide Dispatch;
    hide AdvancedAll;
    hide Waiting;
    hide Settled;
    hide EndsSilent;
    AdvanceSettles(s, w.queue, at, now, name, clock, VoiceAt(w.synth, t.part));
    AdvanceTrack(s, at, name);
    hide State.Valid;
  }

  /** What a tick queues for a playing one-shot: its events, due between the old limit and the new. */
  lemma AdvanceAdds(s: State, q: TQ.Queue<Midi>, at: real, now: real, name: string) returns (added: seq<Queued>)
    requires OneShot(s, name) && s.tracks[name].on && q.Valid()
    ensures AdvancedAll(s, at).Ok? && OneShot(AdvancedAll(s, at).value.0, name)
    ensures var (s', cues) := AdvancedAll(s, at).value;
      var limit, limit' := DueLimit(s, s.tracks[name], now), DueLimit(s', s'.tracks[name], now);
      && limit <= limit' && Waiting(Dispatch(q, cues, now), name) == Waiting(q, name) + added
      && Added(added, CueGists(cues, name), limit, limit', q.nextOrder)
  {
    hide Dispatch;
    hide AdvancedAll;
    hide Waiting;
    hide Rising;
    hide CueGists;
    hide Added;
    hide Passed;
    AdvanceTrack(s, at, name);
    AdvanceRises(s, at, name);
    var s', t, to := AdvancedAll(s, at).value.0, s.tracks[name], Onward(s.tracks[name], AdvanceEnd(s, at));
    var from, last := Min(t.cursor, LastBeat(t.line)), Min(to, LastBeat(t.line));
    LaterBeatLaterTime(s, from, last);
    LimitReadsTrack(s, s', t, s'.tracks[name], now);
    hide State.Valid;
    added := DispatchAdds(q, AdvancedAll(s, at).value.1, now, name, s.TimeAt(from), s.TimeAt(last));
  }

  lemma AdvanceSettles(s: State, q: TQ.Queue<Midi>, at: real, now: real, name: string, clock: real, v: Voice)
    requires OneShot(s, name) && s.tracks[name].on && q.Valid() && clock <= now
    requires EndsSilent(s.tracks[name].line.events)
    requires Settled(v, Waiting(q, name), s.tracks[name], DueLimit(s, s.tracks[name], clock))
    ensures AdvancedAll(s, at).Ok? && OneShot(AdvancedAll(s, at).value.0, name)
    ensures var (s', cues) := AdvancedAll(s, at).value;
      Settled(v, Waiting(Dispatch(q, cues, now), name), s'.tracks[name], DueLimit(s', s'.tracks[name], now))
  {
    var t := s.tracks[name];
    assert ValidTrack(t);
    WaitingBelow(q, name);
    hide Dispatch;
    hide AdvancedAll;
    hide Waiting;
    hide CueGists;
    hide Passed;
    hide Left;
    hide Gists;
    hide Settled;
    hide Added;
    hide Closed;
    hide EndsSilent;
    AdvanceTrack(s, at, name);
    AdvanceGists(s, at, name);
    var added := AdvanceAdds(s, q, at, now, name);
    var (s', cues) := AdvancedAll(s, at).value;
    AdvancedLeft(t, s'.tracks[name]);
    hide ValidTrack;
    assert s.bpm != 0.0 && s'.bpm != 0.0;
    hide State.Valid;
    var limit, limit' := DueLimit(s, t, now), DueLimit(s', s'.tracks[name], now);
    LimitsGrow(v, Waiting(q, name), t, DueLimit(s, t, clock), limit);
    hide DueLimit;
    AdvanceSettled(v, Waiting(q, name), added, CueGists(cues, name), t, s'.tracks[name], limit, limit', q.nextOrder);
  }

  /** Dropped while it plays: nothing queued takes hold, and all that sounds is let go. */
  lemma SettlesDisable(w: World, at: real, now: real, name: string, clock: real)
    requires Settles(w, name, clock) && w.sequencer.tracks[name].on
    ensures var w' := Next(w, Call(Disable(name, at), now));
      Settles(w', name, now) && !w'.sequencer.tracks[name].on
  {
    SettlesMeans(w, name, clock);
    DroppedOneShot(w, name, at, now);
    DisableDrops(w, name, at, now);
    var w' := Next(w, Call(Disable(name, at), now));
    hide Next;
    hide Dispatch;
    DroppedSettled(w', name, TQ.DueAt(Some(at), now), DueLimit(w'.sequencer, w'.sequencer.tracks[name], now));
    hide Inv;
    hide Waiting;
    hide Dropped;
    hide Settled;
    hide State.Valid;
  }

  lemma DroppedSettled(w: World, name: string, due: real, limit: real)
    requires Inv(w) && name in w.sequencer.tracks && Dropped(w, name, due)
    ensures var t := w.sequencer.tracks[name];
      Settled(VoiceAt(w.synth, t.part), Waiting(w.queue, name), t, limit)
  {
    var t, xs := w.sequencer.tracks[name], Waiting(w.queue, name);
    var v := VoiceAt(w.synth, t.part);
    assert Sounding(v) <= t.struck;
    SilentKeepsNothing(v);
    forall h | Keeps(v, h) ensures FreedIn(xs, h) {
      DroppedFrees(w, name, due, h);
    }
    forall x, h | x in xs ensures !Takes1(x, h) {
      assert Harmless(x.payload);
    }
  }

  lemma DroppedFrees(w: World, name: string, due: real, h: Hold)
    requires name in w.sequencer.tracks
    requires QueuedPedalUp(w, name, due)
    requires h.Key? ==> QueuedRelease(w, name, h.key, due)
    ensures FreedIn(Waiting(w.queue, name), h)
  {
    if h.Key? {
      var x :| x in w.queue.items && x.due == due && IsRelease(x.payload, name, h.key);
      assert x in Waiting(w.queue, name) && Frees1(x, h);
    } else {
      var x :| x in w.queue.items && x.due == due && IsPedalUp(x.payload, name);
      assert x in Waiting(w.queue, name) && Frees1(x, h);
    }
  }

  lemma SettlesStart(w: World, at: real, now: real, name: string, clock: real)
    requires Settles(w, name, clock) && !w.sequencer.tracks[name].on
    ensures Settles(Next(w, Call(PlayOnce(name, at), now)), name, now)
  {
    SettlesMeans(w, name, clock);
    PlayOnceWorld(w, name, at, now);
    NextKeepsInv(w, Call(PlayOnce(name, at), now));
    PlayOnceTrack(w.sequencer, name, at);
    NextSequencer(w, PlayOnce(name, at), now);
    hide Next;
    hide After;
    hide Inv;
    hide Waiting;
    hide State.Valid;
    var s, t, w' := w.sequencer, w.sequencer.tracks[name], Next(w, Call(PlayOnce(name, at), now));
    var t' := w'.sequencer.tracks[name];
    OffSettled(VoiceAt(w.synth, t.part), Waiting(w.queue, name), t, DueLimit(s, t, clock),
               t', DueLimit(w'.sequencer, t', now));
    hide Settled;
  }

  lemma SettlesNext(w: World, e: Event, name: string, clock: real)
    requires Settles(w, name, clock) && clock <= e.now
    ensures Sane(w) && Settles(Next(w, e), name, e.now)
  {
    SettlesMeans(w, name, clock);
    var on := w.sequencer.tracks[name].on;
    hide Settles;
    hide Next;
    match e {
      case Drain(now) => SettlesDrain(w, now, name, clock);
      case Call(op, now) =>
        if op.PlayOnce? && op.name == name {
          if on {
            SettlesDisable(w, op.at, now, name, clock);
            RestartIsDropThenStart(w, name, op.at, now);
            SettlesStart(Next(w, Call(Disable(name, op.at), now)), op.at, now, name, now);
          } else {
            SettlesStart(w, op.at, now, name, clock);
          }
        } else if op.Enable? && op.name == name {
          OneShotNotEnabled(w, op.at, now, name);
          SettlesLater(w, name, clock, now);
        } else if on && op.AdvanceTo? {
          SettlesAdvance(w, op.at, now, name, clock);
        } else if on && op.Disable? && op.name == name {
          SettlesDisable(w, op.at, now, name, clock);
        } else {
          SettlesOther(w, op, now, name, clock);
        }
    }
    hide Inv;
  }

  /** `enable` refuses a one-shot. */
  lemma OneShotNotEnabled(w: World, at: real, now: real, name: string)
    requires Sane(w) && OneShot(w.sequencer, name)
    ensures Next(w, Call(Enable(name, at), now)) == w
  {
    hide Dispatch;
    hide ValidTrack;
  }

  lemma SettlesLater(w: World, name: string, clock: real, now: real)
    requires Settles(w, name, clock) && clock <= now
    ensures Settles(w, name, now)
  {
    SettlesMeans(w, name, clock);
    SettlesSame(w, w, name, clock, now);
  }

  lemma {:induction false} SettlesRun(w: World, es: seq<Event>, name: string, clock: real)
    requires Settles(w, name, clock) && Timely(es, clock)
    ensures Sane(w) && Settles(RunWorld(w, es), name, ClockAfter(es, clock))
    decreases |es|
  {
    hide Next;
    hide Settles;
    SettlesMeans(w, name, clock);
    hide Inv;
    if es != [] {
      SettlesNext(w, es[0], name, clock);
      SettlesRun(Next(w, es[0]), es[1..], name, es[0].now);
    }
  }

  lemma StartSettles(w: World, name: string, clock: real)
    requires JustStarted(w) && OneShot(w.sequencer, name) && EndsSilent(w.sequencer.tracks[name].line.events)
    ensures Settles(w, name, clock)
  {
    StartIsInv(w);
    SilentKeepsNothing(VoiceAt(w.synth, w.sequencer.tracks[name].part));
    assert Waiting(w.queue, name) == [];
    hide Inv;
    hide Owed;
    hide EndsSilent;
    hide State.Valid;
  }

  // ---- the whole of it -----------------------------------------------------------------------------

  /** A timely run that ends with the track off, and a drain past all that waits for it. */
  ghost predicate Finished(w: World, es: seq<Event>, name: string, clock: real, late: real)
    requires Sane(w) && name in w.sequencer.tracks
  {
    RunHasTrack(w, es, name);
    var end := RunWorld(w, es);
    Timely(es, clock) && !end.sequencer.tracks[name].on && DueBy(Waiting(end.queue, name), late)
  }

  lemma {:induction false} RunHasTrack(w: World, es: seq<Event>, name: string)
    requires Sane(w) && name in w.sequencer.tracks
    ensures Sane(RunWorld(w, es)) && name in RunWorld(w, es).sequencer.tracks
    decreases |es|
  {
    hide Next;
    if es != [] {
      NextIsSane(w, es[0]);
      NextHasTrack(w, es[0], name);
      RunHasTrack(Next(w, es[0]), es[1..], name);
    }
  }

  function EndVoice(w: World, es: seq<Event>, name: string, late: real): Voice
    requires Sane(w) && name in w.sequencer.tracks
  {
    RunHasTrack(w, es, name);
    VoiceAt(Next(RunWorld(w, es), Drain(late)).synth, RunWorld(w, es).sequencer.tracks[name].part)
  }

  lemma JustStartedIsSane(w: World)
    requires JustStarted(w)
    ensures Sane(w)
  {
    StartIsInv(w);
  }

  /** After every run since `start()`, with the track off and all that waits for it drained, its part is silent. */
  ghost predicate AlwaysEndsSilent(w: World, name: string)
    requires JustStarted(w) && name in w.sequencer.tracks
  {
    JustStartedIsSane(w);
    forall es, clock, late :: Finished(w, es, name, clock, late) ==> Silent(EndVoice(w, es, name, late))
  }

  lemma SettledEndsSilent(w: World, name: string, clock: real, late: real)
    requires Settles(w, name, clock) && !w.sequencer.tracks[name].on && DueBy(Waiting(w.queue, name), late)
    ensures Sane(w) && Silent(VoiceAt(Next(w, Drain(late)).synth, w.sequencer.tracks[name].part))
  {
    SettlesMeans(w, name, clock);
    var t, xs := w.sequencer.tracks[name], Waiting(w.queue, name);
    var taken := DrainTakes(w, late, name);
    hide Inv;
    hide Next;
    hide Waiting;
    var v, left := VoiceAt(w.synth, t.part), Waiting(w.queue.After(late), name);
    DrainSettled(v, xs, taken, left, t, DueLimit(w.sequencer, t, clock), late);
    SilentKeepsNothing(Sing(v, taken));
    hide Sing;
    hide State.Valid;
    forall h ensures !Keeps(Sing(v, taken), h) {
      assert !FreedIn(left, h);
    }
  }

  lemma SilentFileEndsSilent(w: World, es: seq<Event>, name: string, clock: real, late: real)
    requires JustStarted(w) && OneShot(w.sequencer, name) && EndsSilent(w.sequencer.tracks[name].line.events)
    requires Sane(w) && Finished(w, es, name, clock, late)
    ensures Silent(EndVoice(w, es, name, late))
  {
    RunHasTrack(w, es, name);
    StartSettles(w, name, clock);
    hide JustStarted;
    SettlesRun(w, es, name, clock);
    hide RunWorld;
    SettledEndsSilent(RunWorld(w, es), name, ClockAfter(es, clock), late);
    hide Settles;
    hide Next;
  }

  // ---- a file that does not end silent ------------------------------------------------------------

  /** Beats enough past `last`, whatever the look-ahead. */
  function Beyond(s: State, last: real): nat {
    var reach := s.lookahead * s.bpm / 60.0;
    var far := (if last < 0.0 then -last else last) + (if reach < 0.0 then -reach else reach) + 2.0;
    far.Floor + 1
  }

  lemma BeyondIsBeyond(s: State, last: real)
    requires s.t0.Some? && s.bpm > 0.0
    ensures var n := Beyond(s, last); var at := s.TimeAt(n as real);
      && at >= s.t0.value && last < n as real && s.SnappedBeat(at) > last && AdvanceEnd(s, at) > last
  {
    hide Beyond;
    hide State.SnappedBeat;
    hide State.TimeAt;
    var n := Beyond(s, last) as real;
    BeyondReaches(s, last);
    SnappedBeyond(s, n, s.lookahead, last);
    SnappedBeyond(s, n, 0.0, last);
    assert s.TimeAt(n) + 0.0 == s.TimeAt(n);
    NotBeforeStart(s, n);
  }

  lemma SnappedBeyond(s: State, beat: real, more: real, last: real)
    requires s.t0.Some? && s.bpm > 0.0 && beat + more * s.bpm / 60.0 >= last + 1.0
    ensures s.SnappedBeat(s.TimeAt(beat) + more) > last
  {
    hide Snap;
    BeatAtTime(s, beat, more);
    SnapBeyond(beat + more * s.bpm / 60.0, last);
  }

  lemma NotBeforeStart(s: State, beat: real)
    requires s.t0.Some? && s.bpm > 0.0 && beat >= 0.0
    ensures s.TimeAt(beat) >= s.t0.value
  {
    assert beat * 60.0 / s.bpm >= 0.0;
  }

  lemma BeyondReaches(s: State, last: real)
    ensures var n, reach := Beyond(s, last) as real, s.lookahead * s.bpm / 60.0;
      n >= last + 1.0 && n + reach >= last + 1.0 && n + 0.0 * s.bpm / 60.0 >= last + 1.0
  {
  }

  lemma SnapBeyond(beat: real, last: real)
    requires beat >= last + 1.0
    ensures Snap(beat) > last
  {
    SnapIsMonotone(beat.Floor as real, beat);
    SnapOfWholeBeat(beat.Floor);
    hide Snap;
  }

  lemma BeatAtTime(s: State, beat: real, more: real)
    requires s.t0.Some? && s.bpm > 0.0
    ensures BeatOf(s.t0.value, s.bpm, s.TimeAt(beat) + more) == beat + more * s.bpm / 60.0
  {
    var x := beat * 60.0 / s.bpm;
    assert x * s.bpm == beat * 60.0;
    assert (x + more) * s.bpm == beat * 60.0 + more * s.bpm;
  }

  /** An advance that far ends a playing one-shot. */
  lemma FarAdvanceEnds(s: State, name: string)
    requires OneShot(s, name) && s.tracks[name].on
    ensures var at := s.TimeAt(Beyond(s, LastBeat(s.tracks[name].line)) as real);
      name in After(s, AdvanceTo(at)).tracks && !After(s, AdvanceTo(at)).tracks[name].on
  {
    var last := LastBeat(s.tracks[name].line);
    BeyondIsBeyond(s, last);
    OnlyOneTrack(s, AdvanceTo(s.TimeAt(Beyond(s, last) as real)), name);
    hide After;
    hide Beyond;
    hide Snap;
    hide Pending;
  }

  lemma RunOfTwo(w: World, a: Event, b: Event)
    requires Sane(w)
    ensures Sane(Next(w, a)) && RunWorld(Next(w, a), [b]) == Next(Next(w, a), b)
    ensures RunWorld(w, [a, b]) == RunWorld(Next(w, a), [b])
  {
    NextIsSane(w, a);
    NextIsSane(Next(w, a), b);
    hide Next;
    assert [a, b][1..] == [b] && [b][1..] == [];
    assert RunWorld(Next(Next(w, a), b), []) == Next(Next(w, a), b);
  }

  lemma OneCallFinishes(w: World, at: real, now: real, name: string)
    requires Sane(w) && name in w.sequencer.tracks
    ensures LetsFinish(w, [Call(AdvanceTo(at), now)], name)
  {
    var e := Call(AdvanceTo(at), now);
    NextIsSane(w, e);
    NextHasTrack(w, e, name);
    hide Next;
    assert [e][1..] == [];
    assert LetsFinish(Next(w, e), [], name);
  }

  /** Lined up and left to play itself out by one advance past its end. */
  lemma PlaysItselfOut(w: World, name: string, clock: real, at: real)
    requires LinedUp(w, name, clock) && clock <= at && w.sequencer.TimeAt(LastBeat(w.sequencer.tracks[name].line)) <= at
    requires !Silent(PlayEvents(Coming(w, name), w.sequencer.tracks[name].line.events))
    requires name in After(w.sequencer, AdvanceTo(at)).tracks && !After(w.sequencer, AdvanceTo(at)).tracks[name].on
    ensures Sane(w)
    ensures var end := Next(w, Call(AdvanceTo(at), at));
      && Sane(end) && name in end.sequencer.tracks && !end.sequencer.tracks[name].on
      && DueBy(Waiting(end.queue, name), at)
      && !Silent(VoiceAt(Next(end, Drain(at)).synth, end.sequencer.tracks[name].part))
  {
    hide Next;
    hide After;
    hide Waiting;
    hide Coming;
    hide PlayEvents;
    hide LetsFinish;
    var e, v := Call(AdvanceTo(at), at), Coming(w, name);
    LinedUpMeans(w, name, clock);
    LinedUpFollows(w, name, clock);
    hide Follows;
    NextIsSane(w, e);
    NextHasTrack(w, e, name);
    OneCallFinishes(w, at, at, name);
    assert [e][1..] == [];
    assert RunWorld(w, [e]) == Next(w, e) by { assert RunWorld(Next(w, e), []) == Next(w, e); }
    assert Timely([e], clock);
    FollowsRun(w, [e], name, v, clock);
    PlayedOutEndsAsItsFile(w, name, clock, [e], at);
    hide RunWorld;
    FollowsDue(Next(w, e), name, v, at);
  }

  lemma FollowsDue(w: World, name: string, v: Voice, clock: real)
    requires Follows(w, name, v, clock) && w.sequencer.TimeAt(LastBeat(w.sequencer.tracks[name].line)) <= clock
    ensures DueBy(Waiting(w.queue, name), clock)
  {
    LastLimit(w.sequencer, w.sequencer.tracks[name], clock, clock);
    hide Inv;
    hide Waiting;
    hide PlayEvents;
    hide Coming;
    hide DueLimit;
  }

  /** What a first `play_once` leaves of a world just started. */
  lemma FirstPlay(w: World, name: string, t0: real)
    requires JustStarted(w) && OneShot(w.sequencer, name) && !w.sequencer.tracks[name].on
    ensures Sane(w)
    ensures var w1 := Next(w, Call(PlayOnce(name, t0), t0));
      && LinedUp(w1, name, t0) && Silent(Coming(w1, name)) && OneShot(w1.sequencer, name)
      && w1.sequencer.tracks[name].on && w1.sequencer.t0 == w.sequencer.t0
      && w1.sequencer.tracks[name].line.events == w.sequencer.tracks[name].line.events
  {
    StartIsInv(w);
    StartComesSilent(w, name);
    hide JustStarted;
    hide Inv;
    hide Next;
    hide Coming;
    hide Waiting;
    hide After;
    InvIsSane(w);
    IdleLinesUpExactly(w, name, t0, t0);
    PlayOnceTrack(w.sequencer, name, t0);
    NextSequencer(w, PlayOnce(name, t0), t0);
    hide State.Valid;
  }

  lemma StartComesSilent(w: World, name: string)
    requires JustStarted(w) && name in w.sequencer.tracks
    ensures Waiting(w.queue, name) == [] && Silent(Coming(w, name))
  {
  }

  /** Played once and left to play itself out, such a file leaves its part sounding. */
  lemma LoudFileSounds(w: World, name: string) returns (es: seq<Event>, late: real)
    requires JustStarted(w) && OneShot(w.sequencer, name) && !w.sequencer.tracks[name].on
    requires !EndsSilent(w.sequencer.tracks[name].line.events)
    ensures Sane(w) && Finished(w, es, name, w.sequencer.t0.value, late) && !Silent(EndVoice(w, es, name, late))
  {
    var t0 := w.sequencer.t0.value;
    FirstPlay(w, name, t0);
    hide JustStarted;
    var first := Call(PlayOnce(name, t0), t0);
    var w1 := Next(w, first);
    hide Next;
    var s1, last := w1.sequencer, LastBeat(w1.sequencer.tracks[name].line);
    late := s1.TimeAt(Beyond(s1, last) as real);
    var second := Call(AdvanceTo(late), late);
    es := [first, second];
    BeyondIsBeyond(s1, last);
    FarAdvanceEnds(s1, name);
    LaterBeatLaterTime(s1, last, Beyond(s1, last) as real);
    SilentIsEmpty(Coming(w1, name));
    hide Beyond;
    hide Coming;
    hide LinedUp;
    hide After;
    hide State.Valid;
    PlaysItselfOut(w1, name, t0, late);
    RunOfTwo(w, first, second);
    hide RunWorld;
    hide Waiting;
    TwoAreTimely(first, second, t0);
  }

  lemma TwoAreTimely(a: Event, b: Event, clock: real)
    requires clock <= a.now <= b.now
    ensures Timely([a, b], clock)
  {
    assert [a, b][1..] == [b] && [b][1..] == [];
  }

  /**
   A one-shot's part is silent after every run since `start()`, once the track is off and all
   that waits for it has drained, exactly when its file ends silent. The runs may play it
   any number of times, restart or drop it at any time, or let it play itself out.
   */
  lemma AlwaysEndsSilentExactly(w: World, name: string)
    requires JustStarted(w) && OneShot(w.sequencer, name) && !w.sequencer.tracks[name].on
    ensures AlwaysEndsSilent(w, name) <==> EndsSilent(w.sequencer.tracks[name].line.events)
  {
    JustStartedIsSane(w);
    if EndsSilent(w.sequencer.tracks[name].line.events) {
      forall es, clock, late | Finished(w, es, name, clock, late) ensures Silent(EndVoice(w, es, name, late)) {
        SilentFileEndsSilent(w, es, name, clock, late);
      }
    } else {
      var es, late := LoudFileSounds(w, name);
    }
    hide JustStarted;
    hide OneShot;
    hide EndsSilent;
    hide Finished;
    hide EndVoice;
    hide Silent;
  }
}
