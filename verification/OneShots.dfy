/**
 control/sequencer.py: how a one-shot that plays out by itself leaves its voice.

 At its end a one-shot switches itself off without releasing anything, and a `disable`
 after that does nothing. `PlayedOutEndsAsItsFile`: once everything of it has drained,
 its part sounds exactly as its file's own messages leave it. Lined up at its start, it is
 silent exactly when the file ends silent; `AnUnreleasedKeyHangs` is a file that does not.
 `SilentFiles` takes that to every run.
 */
module OneShots {
  import opened Wrappers
  import MidiTracks
  import opened MidiFiles
  import opened Pairing
  import opened Rounding
  import opened Windows
  import opened Sequencers
  import opened SequencerRuns
  import opened HungNotes
  import TQ = TimedQueues
  import SS = StableSorting

  type Queued = TQ.Item<Midi>

  // ---- what is queued for one voice ------------------------------------------------------

  /** It strikes, releases or pedals; anything else leaves a voice as it is. */
  predicate Moves(m: Midi) { Strikes(m) || Releases(m) || MovesPedal(m) }

  predicate Matters(m: Midi, name: string) { m.tag == name && Moves(m) }

  function Waiting(q: TQ.Queue<Midi>, name: string): seq<Queued> {
    TQ.Select(q.items, (x: Queued) => Matters(x.payload, name))
  }

  function Sing(v: Voice, xs: seq<Queued>): Voice {
    if xs == [] then v else PlayOn(Sing(v, xs[..|xs| - 1]), xs[|xs| - 1].payload)
  }

  /** The track's voice once all that is queued for it has been played. */
  function Coming(w: World, name: string): Voice
    requires name in w.sequencer.tracks
  {
    Sing(VoiceAt(w.synth, w.sequencer.tracks[name].part), Waiting(w.queue, name))
  }

  lemma {:induction false} SingOn(v: Voice, a: seq<Queued>, b: seq<Queued>)
    ensures Sing(v, a + b) == Sing(Sing(v, a), b)
  {
    if b == [] {
      assert a + b == a;
    } else {
      assert (a + b)[..|a + b| - 1] == a + b[..|b| - 1];
      SingOn(v, a, b[..|b| - 1]);
    }
  }

  lemma {:induction false} SelectSorted(s: seq<Queued>, p: Queued -> bool)
    requires TQ.Sorted(s)
    ensures TQ.Sorted(TQ.Select(s, p))
  {
    if s != [] {
      var front, x := s[..|s| - 1], s[|s| - 1];
      SelectSorted(front, p);
      var r := TQ.Select(front, p);
      forall y | y in r ensures TQ.Before(y, x) {
        var i :| 0 <= i < |front| && front[i] == y;
        assert TQ.Before(s[i], s[|s| - 1]);
      }
      if p(x) {
        SortedSnoc(r, x);
      }
    }
  }

  lemma SortedSnoc(s: seq<Queued>, x: Queued)
    requires TQ.Sorted(s) && forall y :: y in s ==> TQ.Before(y, x)
    ensures TQ.Sorted(s + [x])
  {
    assert forall y :: y in [x] ==> y == x;
    TQ.SortedConcat(s, [x]);
  }

  lemma {:induction false} SortedSame(a: seq<Queued>, b: seq<Queued>)
    requires TQ.Sorted(a) && TQ.Sorted(b) && forall x :: x in a <==> x in b
    ensures a == b
  {
    assert a != [] ==> a[0] in b;
    assert b != [] ==> b[0] in a;
    if a != [] {
      TQ.SortedTail(a);
      TQ.SortedTail(b);
      assert a == [a[0]] + a[1..] && b == [b[0]] + b[1..];
      assert a[0] == b[0];
      forall x ensures x in a[1..] <==> x in b[1..] {
        assert x in a <==> x == a[0] || x in a[1..];
        assert x in b <==> x == b[0] || x in b[1..];
      }
      SortedSame(a[1..], b[1..]);
    }
  }

  // ---- drains keep what is coming -----------------------------------------------------------

  lemma StillVoice(v: Voice, m: Midi)
    ensures !Moves(m) ==> PlayOn(v, m) == v
  {
  }

  /** Of all that is played, a voice hears what matters for its own track. */
  lemma {:induction false} PlayedIsSung(s: State, v: Synth, xs: seq<Queued>, name: string)
    requires DistinctParts(s) && name in s.tracks && forall x :: x in xs ==> Known(s, x.payload)
    ensures VoiceAt(PlayAll(v, TQ.Payloads(xs)), s.tracks[name].part)
         == Sing(VoiceAt(v, s.tracks[name].part), TQ.Select(xs, (x: Queued) => Matters(x.payload, name)))
  {
    if xs != [] {
      var front, x := xs[..|xs| - 1], xs[|xs| - 1];
      assert xs == front + [x] && x in xs;
      hide Sing;
      hide PlayOn;
      hide Known;
      hide DistinctParts;
      PlayedIsSung(s, v, front, name);
      assert TQ.Payloads(xs)[..|xs| - 1] == TQ.Payloads(front);
      var p := (y: Queued) => Matters(y.payload, name);
      TQ.SelectLast(front, x, p);
      SingOn(VoiceAt(v, s.tracks[name].part), TQ.Select(front, p), [x]);
      OneSung(s, PlayAll(v, TQ.Payloads(front)), x, name);
    }
  }

  lemma OneSung(s: State, v: Synth, x: Queued, name: string)
    requires DistinctParts(s) && name in s.tracks && Known(s, x.payload)
    ensures VoiceAt(PlayOne(v, x.payload), s.tracks[name].part)
         == Sing(VoiceAt(v, s.tracks[name].part), if Matters(x.payload, name) then [x] else [])
  {
    StillVoice(VoiceAt(v, s.tracks[name].part), x.payload);
    assert [x][..0] == [];
    if x.payload.tag != name {
      assert PartOf(x.payload) != s.tracks[name].part;
    }
    hide PlayOn;
  }

  /** What a drain takes of a track's queue, and what it leaves: its front and its back. */
  lemma DrainParts(q: TQ.Queue<Midi>, now: real, name: string)
    requires q.Valid() && TQ.Sorted(Waiting(q, name))
    ensures Waiting(q, name) == TQ.Select(q.Ready(now), (x: Queued) => Matters(x.payload, name))
        + Waiting(q.After(now), name)
    ensures TQ.Sorted(Waiting(q.After(now), name))
  {
    var p, late := (x: Queued) => Matters(x.payload, name), (x: Queued) => !(x.due <= now);
    var all, taken, left := Waiting(q, name), TQ.Select(q.Ready(now), p), Waiting(q.After(now), name);
    TQ.SelectTwice(q.items, late, p);
    SelectSorted(all, late);
    assert left == TQ.Select(all, late);
    SelectSorted(q.Ready(now), p);
    forall x, y | x in taken && y in left ensures TQ.Before(x, y) {
    }
    TQ.SortedConcat(taken, left);
    forall x ensures x in all <==> x in taken + left {
    }
    SortedSame(all, taken + left);
  }

  lemma DrainKeepsComing(w: World, now: real, name: string)
    requires Inv(w) && name in w.sequencer.tracks && TQ.Sorted(Waiting(w.queue, name))
    ensures var w' := Next(w, Drain(now));
      && Coming(w', name) == Coming(w, name) && TQ.Sorted(Waiting(w'.queue, name))
      && (forall x :: x in Waiting(w'.queue, name) <==> x in Waiting(w.queue, name) && now < x.due)
  {
    DrainParts(w.queue, now, name);
    var p := (x: Queued) => Matters(x.payload, name);
    var ready := w.queue.Ready(now);
    PlayedIsSung(w.sequencer, w.synth, ready, name);
    var v := VoiceAt(w.synth, w.sequencer.tracks[name].part);
    SingOn(v, TQ.Select(ready, p), Waiting(w.queue.After(now), name));
    hide Sing;
    hide PlayAll;
    hide Inv;
  }

  // ---- cues add to what is coming, in their order -------------------------------------------

  predicate Counts(c: Cue, name: string) { c.MusicCue? && Matters(Message(c), name) }

  function SingCues(v: Voice, cues: seq<Cue>, name: string): Voice {
    if cues == [] then v
    else
      var c, before := cues[|cues| - 1], SingCues(v, cues[..|cues| - 1], name);
      if Counts(c, name) then PlayOn(before, Message(c)) else before
  }

  /** The cues that count come at non-decreasing times from `lo` to `hi`, with no purge among them. */
  ghost predicate Rising(cues: seq<Cue>, name: string, lo: real, hi: real) {
    && (forall c :: c in cues ==> !PurgesTag(c, name))
    && (forall c :: c in cues && Counts(c, name) ==> lo <= c.when <= hi)
    && (forall i, j :: 0 <= i < j < |cues| && Counts(cues[i], name) && Counts(cues[j], name) ==>
        cues[i].when <= cues[j].when)
  }

  ghost predicate DueBy(xs: seq<Queued>, due: real) { forall x :: x in xs ==> x.due <= due }

  lemma ReceiveWaits(q: TQ.Queue<Midi>, c: Cue, now: real, name: string)
    requires !PurgesTag(c, name)
    ensures Waiting(Receive(q, c, now), name) == Waiting(q, name)
      + if Counts(c, name) then [TQ.Item(TQ.DueAt(Some(c.when), now), q.nextOrder, Message(c))] else []
  {
    var p := (x: Queued) => Matters(x.payload, name);
    match c
    case MusicCue(_, _, _, _, when, _) =>
      TQ.SelectLast(q.items, TQ.Item(TQ.DueAt(Some(when), now), q.nextOrder, Message(c)), p);
    case MusicPurge(_, tag) =>
      TQ.PurgeSpares(q, Tagged(tag), p);
  }

  lemma ReceiveSings(q: TQ.Queue<Midi>, c: Cue, now: real, name: string, v: Voice)
    requires q.Valid() && TQ.Sorted(Waiting(q, name)) && !PurgesTag(c, name)
    requires Counts(c, name) ==> DueBy(Waiting(q, name), TQ.DueAt(Some(c.when), now))
    ensures var q' := Receive(q, c, now);
      && TQ.Sorted(Waiting(q', name))
      && Sing(v, Waiting(q', name))
         == (if Counts(c, name) then PlayOn(Sing(v, Waiting(q, name)), Message(c)) else Sing(v, Waiting(q, name)))
      && (forall x :: x in Waiting(q', name) ==>
          x in Waiting(q, name) || (Counts(c, name) && x.due == TQ.DueAt(Some(c.when), now)))
  {
    ReceiveWaits(q, c, now, name);
    var xs := Waiting(q, name);
    if Counts(c, name) {
      var x := TQ.Item(TQ.DueAt(Some(c.when), now), q.nextOrder, Message(c));
      SortedSnoc(xs, x);
      assert (xs + [x])[..|xs|] == xs && |xs + [x]| - 1 == |xs|;
      assert Sing(v, xs + [x]) == PlayOn(Sing(v, xs), x.payload);
    } else {
      assert xs + [] == xs;
    }
    hide TQ.DueAt;
    hide Receive;
    hide PlayOn;
    hide Matters;
  }

  lemma RisingFront(cues: seq<Cue>, name: string, lo: real, hi: real)
    requires cues != [] && Rising(cues, name, lo, hi)
    ensures var front, c := cues[..|cues| - 1], cues[|cues| - 1];
      && !PurgesTag(c, name) && Rising(front, name, lo, if Counts(c, name) then c.when else hi)
      && (Counts(c, name) ==> lo <= c.when <= hi)
  {
    var front, c := cues[..|cues| - 1], cues[|cues| - 1];
    assert c in cues && forall d :: d in front ==> d in cues;
    hide Counts;
    hide PurgesTag;
    forall d | d in front && Counts(c, name) && Counts(d, name) ensures d.when <= c.when {
      var i :| 0 <= i < |front| && front[i] == d;
      assert cues[i] == d;
    }
  }

  lemma {:induction false} DispatchSings(q: TQ.Queue<Midi>, cues: seq<Cue>, now: real, name: string,
                                         lo: real, hi: real, v: Voice)
    requires q.Valid() && TQ.Sorted(Waiting(q, name)) && lo <= hi
    requires Rising(cues, name, lo, hi) && DueBy(Waiting(q, name), Max(lo, now))
    ensures var q' := Dispatch(q, cues, now);
      && TQ.Sorted(Waiting(q', name)) && DueBy(Waiting(q', name), Max(hi, now))
      && Sing(v, Waiting(q', name)) == SingCues(Sing(v, Waiting(q, name)), cues, name)
    decreases |cues|
  {
    if cues != [] {
      hide Rising;
      hide Waiting;
      hide Counts;
      hide Sing;
      hide Receive;
      hide PurgesTag;
      var front, c := cues[..|cues| - 1], cues[|cues| - 1];
      var top := if Counts(c, name) then c.when else hi;
      RisingFront(cues, name, lo, hi);
      hide DueBy;
      DispatchSings(q, front, now, name, lo, top, v);
      DispatchLast(q, cues, now, name, v);
      hide Dispatch;
      hide SingCues;
      hide TQ.DueAt;
      var q1 := Dispatch(q, front, now);
      DueByTime(Waiting(q1, name), top, now);
      ReceiveSings(q1, c, now, name, v);
      DueByLater(Waiting(q1, name), Waiting(Dispatch(q, cues, now), name), top, hi, now, Counts(c, name));
    }
  }

  lemma DueByTime(xs: seq<Queued>, when: real, now: real)
    requires DueBy(xs, Max(when, now))
    ensures DueBy(xs, TQ.DueAt(Some(when), now))
  {
  }

  /** Nothing added but what is due at `when`, no later than `hi`. */
  lemma DueByLater(xs: seq<Queued>, xs': seq<Queued>, when: real, hi: real, now: real, more: bool)
    requires DueBy(xs, Max(when, now)) && when <= hi
    requires forall x :: x in xs' ==> x in xs || (more && x.due == TQ.DueAt(Some(when), now))
    ensures DueBy(xs', Max(hi, now))
  {
  }

  lemma DispatchLast(q: TQ.Queue<Midi>, cues: seq<Cue>, now: real, name: string, v: Voice)
    requires cues != []
    ensures var front, c := cues[..|cues| - 1], cues[|cues| - 1];
      && Dispatch(q, cues, now) == Receive(Dispatch(q, front, now), c, now)
      && SingCues(v, cues, name)
         == if Counts(c, name) then PlayOn(SingCues(v, front, name), Message(c)) else SingCues(v, front, name)
  {
    hide Receive;
    hide PlayOn;
    hide Counts;
  }

  /** Cues none of which count leave everything coming as it was. */
  lemma {:induction false} NothingCounts(q: TQ.Queue<Midi>, cues: seq<Cue>, now: real, name: string)
    requires forall c :: c in cues ==> !PurgesTag(c, name) && !Counts(c, name)
    ensures Waiting(Dispatch(q, cues, now), name) == Waiting(q, name)
    decreases |cues|
  {
    if cues != [] {
      assert cues[|cues| - 1] in cues;
      NothingCounts(q, cues[..|cues| - 1], now, name);
      ReceiveWaits(Dispatch(q, cues[..|cues| - 1], now), cues[|cues| - 1], now, name);
      hide Waiting;
      hide Counts;
      hide Receive;
    }
  }

  // ---- which calls say nothing to a track's voice --------------------------------------------

  lemma MasterSaysNothing(s: State, level: real, at: real, name: string)
    requires s.Valid()
    ensures forall c :: c in Mastered(s, level, at).1 ==> !PurgesTag(c, name) && !Counts(c, name)
  {
    var (s', cues) := Mastered(s, level, at);
    forall c | c in cues ensures !PurgesTag(c, name) && !Counts(c, name) {
      var i :| 0 <= i < |s.order| && c == VolumeCue(s', s.tracks[s.order[i]], s.tracks[s.order[i]].cc7, at);
      VolumeSaysNothing(s', s.tracks[s.order[i]], s.tracks[s.order[i]].cc7, at, name);
    }
  }

  lemma VolumeSaysNothing(s: State, t: Track, cc7: Byte, when: real, name: string)
    ensures VolumeCue(s, t, cc7, when).MusicCue? && !Counts(VolumeCue(s, t, cc7, when), name)
  {
    hide ScaledVolume;
  }

  /** No call but its own start, its own `disable` while on, and an advance while on touches a track or its voice. */
  lemma OthersSayNothing(s: State, op: Op, name: string)
    requires s.Valid() && name in s.tracks && NotRestarting(op, name)
    requires s.tracks[name].on ==> !op.AdvanceTo? && !(op.Disable? && op.name == name)
    ensures name in After(s, op).tracks && After(s, op).tracks[name] == s.tracks[name]
    ensures Step(s, op).Ok? ==> forall c :: c in Step(s, op).value.1 ==> !PurgesTag(c, name) && !Counts(c, name)
  {
    hide Enabled;
    hide PlayedOnce;
    hide DropCues;
    hide ValidTrack;
    hide Mastered;
    if s.tracks[name].on {
      OnlyOneTrack(s, op, name);
    } else {
      CuesWhileOff(s, op, name);
    }
    match op
    case Enable(other, at) =>
      if Step(s, op).Ok? { OwnTagOnly(s, op, name); }
    case Disable(other, at) =>
      if Step(s, op).Ok? && other != name { OwnTagOnly(s, op, name); }
    case PlayOnce(other, at) =>
      if Step(s, op).Ok? { OwnTagOnly(s, op, name); }
    case SetMaster(level, at) => MasterSaysNothing(s, level, at, name);
    case AdvanceTo(at) =>
      if s.t0.Some? { AdvanceSaysNothing(s, at, name); }
  }

  lemma AdvanceSaysNothing(s: State, at: real, name: string)
    requires s.Valid() && s.t0.Some? && name in s.tracks && !s.tracks[name].on
    ensures forall c :: c in AdvancedAll(s, at).value.1 ==> !PurgesTag(c, name) && !Counts(c, name)
  {
    var end := AdvanceEnd(s, at);
    var xs := TrackByTrack(s, |s.order|, end);
    OnlyPlayingTracksEmit(s, |s.order|, end);
    hide TrackByTrack;
    SS.SortByOrders(xs, GridOf);
    var sorted := SS.SortBy(xs, GridOf);
    hide SS.SortBy;
    forall c | c in Cues(sorted) ensures !PurgesTag(c, name) && !Counts(c, name) {
      var i :| 0 <= i < |sorted| && sorted[i].cue == c;
      assert sorted[i] in xs;
    }
  }

  // ---- a one-shot's own messages ---------------------------------------------------------------

  /** The file's messages played one after another. */
  function PlayEvents(v: Voice, es: seq<MidiEvent>): Voice {
    if es == [] then v
    else
      var e := es[|es| - 1];
      PlayOn(PlayEvents(v, es[..|es| - 1]), Midi(e.status, e.d1, e.d2, ""))
  }

  lemma {:induction false} PlayEventsOn(v: Voice, a: seq<MidiEvent>, b: seq<MidiEvent>)
    ensures PlayEvents(v, a + b) == PlayEvents(PlayEvents(v, a), b)
  {
    if b == [] {
      assert a + b == a;
    } else {
      assert (a + b)[..|a + b| - 1] == a + b[..|b| - 1];
      PlayEventsOn(v, a, b[..|b| - 1]);
    }
  }

  function EventsOf(line: Timeline, os: seq<Occurrence>): seq<MidiEvent>
    requires forall o :: o in os ==> o.i < |line.events|
  {
    seq(|os|, x requires 0 <= x < |os| => assert os[x] in os; line.events[os[x].i])
  }

  /** An event's cue moves the voice as the event itself does; its volume, under the master's, not at all. */
  lemma CueIsEvent(s: State, t: Track, e: MidiEvent, beat: real, v: Voice)
    requires s.t0.Some? && s.bpm != 0.0
    ensures var c := EventCue(s, t, e, beat);
      c.MusicCue? && (if Counts(c, t.name) then PlayOn(v, Message(c)) else v)
          == PlayOn(v, Midi(e.status, e.d1, e.d2, ""))
  {
    if IsVolume(e) {
      VolumeSaysNothing(s, t, e.d2, s.TimeAt(beat), t.name);
      StillVoice(v, Midi(e.status, e.d1, e.d2, ""));
    } else {
      var m := Message(CueFor(s, t, e.status, e.d1, e.d2, s.TimeAt(beat)));
      assert MidiTracks.HighNibble(m.status) == MidiTracks.HighNibble(e.status);
      StillVoice(v, m);
    }
  }

  lemma {:induction false} CuesAreEvents(s: State, t: Track, os: seq<Occurrence>, v: Voice)
    requires s.t0.Some? && s.bpm != 0.0 && forall o :: o in os ==> o.i < |t.line.events|
    ensures SingCues(v, Cues(TimedCues(s, t, os)), t.name) == PlayEvents(v, EventsOf(t.line, os))
  {
    if os != [] {
      var front, o := os[..|os| - 1], os[|os| - 1];
      assert o in os && forall x :: x in front ==> x in os;
      CuesAreEvents(s, t, front, v);
      assert Cues(TimedCues(s, t, os))[..|os| - 1] == Cues(TimedCues(s, t, front));
      assert EventsOf(t.line, os)[..|os| - 1] == EventsOf(t.line, front);
      CueIsEvent(s, t, t.line.events[o.i], Grid(t.line, o), PlayEvents(v, EventsOf(t.line, front)));
      hide PlayOn;
      hide EventCue;
      hide Counts;
    }
  }

  /** Among a tick's cues a voice hears only its own track's. */
  lemma {:induction false} OwnCuesOnly(v: Voice, xs: seq<Timed>, name: string)
    ensures SingCues(v, Cues(xs), name) == SingCues(v, Cues(SS.Filter(xs, (x: Timed) => OfTrack(x, name))), name)
  {
    if xs != [] {
      var front, x := xs[..|xs| - 1], xs[|xs| - 1];
      var own := (y: Timed) => OfTrack(y, name);
      var mine := SS.Filter(front, own);
      assert xs == front + [x];
      OwnCuesOnly(v, front, name);
      SS.FilterConcat(front, [x], own);
      assert SS.Filter([x], own) == if own(x) then [x] else [] by {
        assert [x][1..] == [];
      }
      assert Cues(xs)[..|xs| - 1] == Cues(front);
      if own(x) {
        assert Cues(mine + [x])[..|mine|] == Cues(mine);
      } else {
        assert mine + [] == mine && !Counts(x.cue, name);
      }
      hide SS.Filter;
      hide PlayOn;
      hide Matters;
    }
  }

  lemma TimedOnTime(s: State, t: Track, os: seq<Occurrence>)
    requires s.t0.Some? && s.bpm != 0.0 && forall o :: o in os ==> o.i < |t.line.events|
    ensures forall x :: x in TimedCues(s, t, os) ==> x.cue.MusicCue? && x.cue.when == s.TimeAt(x.grid)
    ensures forall x :: x in TimedCues(s, t, os) ==> exists o :: o in os && x.grid == Grid(t.line, o)
  {
    var xs := TimedCues(s, t, os);
    forall x | x in xs
      ensures x.cue.MusicCue? && x.cue.when == s.TimeAt(x.grid) && exists o :: o in os && x.grid == Grid(t.line, o)
    {
      var i :| 0 <= i < |xs| && xs[i] == x;
      assert os[i] in os && x.grid == Grid(t.line, os[i]);
    }
  }

  lemma {:induction false} EmittedOnTime(s: State, n: nat, end: real)
    requires s.Valid() && s.t0.Some? && n <= |s.order|
    ensures forall x :: x in TrackByTrack(s, n, end) ==> x.cue.MusicCue? && x.cue.when == s.TimeAt(x.grid)
  {
    hide Pending;
    hide ValidTrack;
    hide TimedCues;
    if n > 0 {
      EmittedOnTime(s, n - 1, end);
      NextTrack(s, n - 1, end);
      var t := s.tracks[s.order[n - 1]];
      TimedOnTime(s, t, Pending(t, end));
    }
  }

  lemma LaterBeatLaterTime(s: State, a: real, b: real)
    requires s.t0.Some? && s.bpm > 0.0 && a <= b
    ensures s.TimeAt(a) <= s.TimeAt(b)
  {
    assert a * 60.0 / s.bpm <= b * 60.0 / s.bpm;
  }

  // ---- how far it has come -------------------------------------------------------------------

  function LastBeat(line: Timeline): real { line.origin + line.length }

  function Min(a: real, b: real): real { if a < b then a else b }

  /** How many of a one-shot's first `n` events lie before beat `hi`. */
  function Passed(line: Timeline, hi: real, n: nat): (k: nat)
    requires n <= |line.events|
    ensures k <= n && (k > 0 ==> line.origin + line.events[k - 1].beat < hi)
    ensures forall i :: k <= i < n ==> line.origin + line.events[i].beat >= hi
  {
    if n == 0 || line.origin + line.events[n - 1].beat < hi then n else Passed(line, hi, n - 1)
  }

  function Span(a: nat, b: nat): (os: seq<Occurrence>)
    requires a <= b
    ensures |os| == b - a && forall x :: 0 <= x < |os| ==> os[x] == Occurrence(0, a + x)
  {
    seq(b - a, x requires 0 <= x => Occurrence(0, a + x))
  }

  lemma PassedBefore(line: Timeline, hi: real)
    requires WellFormedEvents(line.events)
    ensures forall i :: 0 <= i < Passed(line, hi, |line.events|) ==> line.origin + line.events[i].beat < hi
  {
    var k := Passed(line, hi, |line.events|);
    forall i | 0 <= i < k ensures line.origin + line.events[i].beat < hi {
      assert i < k - 1 ==> line.events[i].beat <= line.events[k - 1].beat;
    }
  }

  lemma PassedGrows(line: Timeline, lo: real, hi: real)
    requires WellFormedEvents(line.events) && lo <= hi
    ensures Passed(line, lo, |line.events|) <= Passed(line, hi, |line.events|)
  {
    PassedBefore(line, lo);
  }

  /** A one-shot's window is the stretch of its events between its two ends. */
  lemma WindowIsSpan(line: Timeline, lo: real, hi: real)
    requires ValidTimeline(line) && !line.loop && lo <= hi
    ensures Passed(line, lo, |line.events|) <= Passed(line, hi, |line.events|)
    ensures Unrolled(line, lo, hi) == Span(Passed(line, lo, |line.events|), Passed(line, hi, |line.events|))
  {
    var a, b := Passed(line, lo, |line.events|), Passed(line, hi, |line.events|);
    PassedBefore(line, lo);
    PassedBefore(line, hi);
    PassedGrows(line, lo, hi);
    var os := Span(a, b);
    forall o ensures o in os <==> InWindow(line, o, lo, hi) {
      if InWindow(line, o, lo, hi) {
        assert a <= o.i < b;
        assert os[o.i - a] == o;
      }
    }
    assert InGridOrder(line, os) by {
      forall x, y | 0 <= x < y < |os| ensures PlaysBefore(line, os[x], os[y]) {
        assert line.events[a + x].beat <= line.events[a + y].beat;
      }
    }
    UnrolledIsWindow(line, lo, hi);
    WindowIsUnique(line, lo, hi, Unrolled(line, lo, hi), os);
  }

  // ---- the run of a one-shot -------------------------------------------------------------------

  /** The latest anything queued of a one-shot may be due. */
  function DueLimit(s: State, t: Track, clock: real): real
    requires s.t0.Some? && s.bpm != 0.0
  {
    Max(s.TimeAt(Min(t.cursor, LastBeat(t.line))), clock)
  }

  ghost predicate OneShot(s: State, name: string) {
    s.Valid() && s.t0.Some? && name in s.tracks && !s.tracks[name].line.loop
  }

  /**
   What is coming of the track is what its events up to its cursor make of voice `v`; what
   waits for it waits in order, none later than its cursor's time or the last call's; and
   it is off only past its end.
   */
  ghost predicate Follows(w: World, name: string, v: Voice, clock: real) {
    && Inv(w) && OneShot(w.sequencer, name)
    && var t := w.sequencer.tracks[name];
    && TQ.Sorted(Waiting(w.queue, name)) && DueBy(Waiting(w.queue, name), DueLimit(w.sequencer, t, clock))
    && Coming(w, name) == PlayEvents(v, t.line.events[..Passed(t.line, t.cursor, |t.line.events|)])
    && (!t.on ==> t.cursor > LastBeat(t.line))
  }

  /** Where an advance to `end` leaves a playing track's cursor. */
  function Onward(t: Track, end: real): real { if t.cursor < end then end else t.cursor }

  /** The tick's cues of a one-shot count in order, from where its cursor stood to where it stands. */
  lemma AdvanceRises(s: State, at: real, name: string)
    requires OneShot(s, name)
    ensures var t, to := s.tracks[name], Onward(s.tracks[name], AdvanceEnd(s, at));
      Rising(AdvancedAll(s, at).value.1, name, s.TimeAt(Min(t.cursor, LastBeat(t.line))),
          s.TimeAt(Min(to, LastBeat(t.line))))
  {
    var t, end := s.tracks[name], AdvanceEnd(s, at);
    var lo, hi := Min(t.cursor, LastBeat(t.line)), Min(Onward(t, end), LastBeat(t.line));
    assert name in s.order;
    var m :| 0 <= m < |s.order| && s.order[m] == name;
    AdvanceMergesTracks(s, at, m);
    EmittedOnTime(s, |s.order|, end);
    var xs := TrackByTrack(s, |s.order|, end);
    hide TrackByTrack;
    hide AdvancedAll;
    SS.SortByOrders(xs, GridOf);
    var sorted := SS.SortBy(xs, GridOf);
    hide SS.SortBy;
    TimedOnTime(s, t, Pending(t, end));
    OwnGrids(t, end);
    hide Pending;
    hide TimedCues;
    assert ValidTrack(t);
    hide ValidTrack;
    forall x | x in sorted && OfTrack(x, name) ensures lo <= x.grid <= hi {
      assert x in SS.Filter(sorted, (y: Timed) => OfTrack(y, name));
      var o :| o in Pending(t, end) && x.grid == Grid(t.line, o);
    }
    SortedRises(s, sorted, name, lo, hi);
  }

  lemma OwnGrids(t: Track, end: real)
    requires ValidTrack(t) && !t.line.loop
    ensures forall o :: o in Pending(t, end) ==>
      Min(t.cursor, LastBeat(t.line)) <= Grid(t.line, o) <= Min(Onward(t, end), LastBeat(t.line))
  {
    UnrolledIsWindow(t.line, t.cursor, end);
    forall o | o in Pending(t, end)
      ensures Min(t.cursor, LastBeat(t.line)) <= Grid(t.line, o) <= Min(Onward(t, end), LastBeat(t.line))
    {
      assert InWindow(t.line, o, t.cursor, end);
      assert t.line.events[o.i] in t.line.events;
    }
  }

  lemma SortedRises(s: State, xs: seq<Timed>, name: string, lo: real, hi: real)
    requires s.t0.Some? && s.bpm > 0.0 && SS.Ordered(xs, GridOf)
    requires forall x :: x in xs ==> x.cue.MusicCue? && x.cue.when == s.TimeAt(x.grid)
    requires forall x :: x in xs && OfTrack(x, name) ==> lo <= x.grid <= hi
    ensures Rising(Cues(xs), name, s.TimeAt(lo), s.TimeAt(hi))
  {
    var cues := Cues(xs);
    forall c | c in cues ensures !PurgesTag(c, name) && (Counts(c, name) ==> s.TimeAt(lo) <= c.when <= s.TimeAt(hi)) {
      var i :| 0 <= i < |xs| && xs[i].cue == c;
      assert xs[i] in xs;
      if Counts(c, name) {
        LaterBeatLaterTime(s, lo, xs[i].grid);
        LaterBeatLaterTime(s, xs[i].grid, hi);
      }
    }
    forall i, j | 0 <= i < j < |cues| ensures cues[i].MusicCue? && cues[j].MusicCue? && cues[i].when <= cues[j].when {
      assert xs[i] in xs && xs[j] in xs && GridOf(xs[i]) <= GridOf(xs[j]);
      LaterBeatLaterTime(s, xs[i].grid, xs[j].grid);
    }
  }

  lemma PendingEvents(t: Track, end: real)
    requires ValidTrack(t) && !t.line.loop && t.on
    ensures forall o :: o in Pending(t, end) ==> o.i < |t.line.events|
    ensures var a, b := Passed(t.line, t.cursor, |t.line.events|), Passed(t.line, Onward(t, end), |t.line.events|);
      a <= b && EventsOf(t.line, Pending(t, end)) == t.line.events[a..b]
  {
    hide Unrolled;
    WindowIsSpan(t.line, t.cursor, Onward(t, end));
    hide Passed;
    hide ValidTimeline;
    var a, b := Passed(t.line, t.cursor, |t.line.events|), Passed(t.line, Onward(t, end), |t.line.events|);
    assert Pending(t, end) == Span(a, b);
    SpanEvents(t.line, a, b);
    hide EventsOf;
  }

  lemma SpanEvents(line: Timeline, a: nat, b: nat)
    requires a <= b <= |line.events|
    ensures forall o :: o in Span(a, b) ==> o.i < |line.events|
    ensures EventsOf(line, Span(a, b)) == line.events[a..b]
  {
  }

  /** What the tick adds to the voice: its events from the old cursor to the new. */
  lemma AdvanceSings(s: State, at: real, name: string, v: Voice)
    requires OneShot(s, name) && s.tracks[name].on
    ensures var t, to := s.tracks[name], Onward(s.tracks[name], AdvanceEnd(s, at));
      var a, b := Passed(t.line, t.cursor, |t.line.events|), Passed(t.line, to, |t.line.events|);
      a <= b && SingCues(v, AdvancedAll(s, at).value.1, name) == PlayEvents(v, t.line.events[a..b])
  {
    hide SingCues;
    hide PlayEvents;
    hide Passed;
    hide Pending;
    hide TimedCues;
    hide EventsOf;
    hide SS.SortBy;
    hide SS.Filter;
    hide TrackByTrack;
    hide AdvancedAll;
    var t, end := s.tracks[name], AdvanceEnd(s, at);
    assert name in s.order && t.name == name && ValidTrack(t);
    var m :| 0 <= m < |s.order| && s.order[m] == name;
    AdvanceMergesTracks(s, at, m);
    hide ValidTrack;
    PendingEvents(t, end);
    OwnCuesOnly(v, SS.SortBy(TrackByTrack(s, |s.order|, end), GridOf), name);
    CuesAreEvents(s, t, Pending(t, end), v);
  }

  /** An advance of a playing one-shot. */
  lemma AdvanceTrack(s: State, at: real, name: string)
    requires OneShot(s, name) && s.tracks[name].on
    ensures AdvancedAll(s, at).Ok? && OneShot(AdvancedAll(s, at).value.0, name)
    ensures var t, s' := s.tracks[name], AdvancedAll(s, at).value.0; var t' := s'.tracks[name];
      && s'.t0 == s.t0 && s'.bpm == s.bpm && t'.line == t.line && t'.part == t.part
      && t'.cursor == Onward(t, AdvanceEnd(s, at)) && (!t'.on ==> t'.cursor > LastBeat(t.line))
  {
    AdvanceIsValid(s, at);
    assert ValidTrack(s.tracks[name]);
    hide ValidTrack;
    hide Pending;
    hide TrackByTrack;
  }

  /** What the tick leaves waiting: in order, in time, and coming to the old voice with the tick's events played. */
  lemma AdvanceQueues(s: State, q: TQ.Queue<Midi>, at: real, now: real, name: string, voice: Voice)
    requires OneShot(s, name) && s.tracks[name].on && q.Valid() && TQ.Sorted(Waiting(q, name))
    requires DueBy(Waiting(q, name), DueLimit(s, s.tracks[name], now))
    ensures AdvancedAll(s, at).Ok?
    ensures var t, to := s.tracks[name], Onward(s.tracks[name], AdvanceEnd(s, at));
      var a, b := Passed(t.line, t.cursor, |t.line.events|), Passed(t.line, to, |t.line.events|);
      var q' := Dispatch(q, AdvancedAll(s, at).value.1, now);
      && a <= b && TQ.Sorted(Waiting(q', name)) && DueBy(Waiting(q', name), DueLimit(s, t.(cursor := to), now))
      && Sing(voice, Waiting(q', name)) == PlayEvents(Sing(voice, Waiting(q, name)), t.line.events[a..b])
  {
    hide AdvancedAll;
    hide Dispatch;
    hide Waiting;
    hide Rising;
    hide Passed;
    hide PlayEvents;
    hide SingCues;
    hide Sing;
    hide DueBy;
    var t, to := s.tracks[name], Onward(s.tracks[name], AdvanceEnd(s, at));
    var from, last := Min(t.cursor, LastBeat(t.line)), Min(to, LastBeat(t.line));
    AdvanceTrack(s, at, name);
    AdvanceRises(s, at, name);
    LaterBeatLaterTime(s, from, last);
    AdvanceSings(s, at, name, Sing(voice, Waiting(q, name)));
    hide State.Valid;
    DispatchSings(q, AdvancedAll(s, at).value.1, now, name, s.TimeAt(from), s.TimeAt(last), voice);
  }

  /** A later clock only moves the limit up. */
  lemma LimitGrows(xs: seq<Queued>, s: State, t: Track, clock: real, now: real)
    requires s.t0.Some? && s.bpm != 0.0 && clock <= now && DueBy(xs, DueLimit(s, t, clock))
    ensures DueBy(xs, DueLimit(s, t, now))
  {
  }

  lemma MorePlayed(v: Voice, es: seq<MidiEvent>, a: nat, b: nat)
    requires a <= b <= |es|
    ensures PlayEvents(PlayEvents(v, es[..a]), es[a..b]) == PlayEvents(v, es[..b])
  {
    PlayEventsOn(v, es[..a], es[a..b]);
    assert es[..a] + es[a..b] == es[..b];
  }

  /** The world an advance makes. */
  lemma AdvancedWorld(w: World, at: real, now: real)
    requires Sane(w) && w.sequencer.t0.Some?
    ensures AdvancedAll(w.sequencer, at).Ok?
    ensures Next(w, Call(AdvanceTo(at), now)) ==
      World(AdvancedAll(w.sequencer, at).value.0, Dispatch(w.queue, AdvancedAll(w.sequencer, at).value.1, now), w.synth)
  {
    hide AdvancedAll;
    hide Dispatch;
    assert AdvancedAll(w.sequencer, at).Ok? by { AdvanceIsOk(w.sequencer, at); }
  }

  lemma AdvanceIsOk(s: State, at: real)
    requires s.Valid() && s.t0.Some?
    ensures AdvancedAll(s, at).Ok?
  {
    hide TrackByTrack;
    hide SS.SortBy;
  }

  /** What `Follows` asks besides the track's own place. */
  ghost predicate InStep(w: World, name: string, clock: real, v: Voice) {
    && OneShot(w.sequencer, name)
    && TQ.Sorted(Waiting(w.queue, name))
        && DueBy(Waiting(w.queue, name), DueLimit(w.sequencer, w.sequencer.tracks[name], clock))
    && Coming(w, name) == v
  }

  lemma FollowsInStep(w: World, name: string, v: Voice, clock: real)
    requires Inv(w) && OneShot(w.sequencer, name)
    ensures var t := w.sequencer.tracks[name];
      Follows(w, name, v, clock) <==>
      && InStep(w, name, clock, PlayEvents(v, t.line.events[..Passed(t.line, t.cursor, |t.line.events|)]))
      && (!t.on ==> t.cursor > LastBeat(t.line))
  {
    hide Inv;
    hide Waiting;
    hide PlayEvents;
    hide Passed;
    hide Coming;
  }

  lemma AdvanceInStep(w: World, at: real, now: real, name: string, v: Voice, clock: real)
    requires Sane(w) && InStep(w, name, clock, v) && w.sequencer.tracks[name].on && clock <= now
    ensures var t, to := w.sequencer.tracks[name], Onward(w.sequencer.tracks[name], AdvanceEnd(w.sequencer, at));
      var a, b := Passed(t.line, t.cursor, |t.line.events|), Passed(t.line, to, |t.line.events|);
      a <= b && InStep(Next(w, Call(AdvanceTo(at), now)), name, now, PlayEvents(v, t.line.events[a..b]))
  {
    var s, t := w.sequencer, w.sequencer.tracks[name];
    AdvancedWorld(w, at, now);
    hide Next;
    AdvanceTrack(s, at, name);
    LimitGrows(Waiting(w.queue, name), s, t, clock, now);
    AdvanceQueues(s, w.queue, at, now, name, VoiceAt(w.synth, t.part));
    LimitReadsTrack(s, AdvancedAll(s, at).value.0, t, AdvancedAll(s, at).value.0.tracks[name], now);
    hide AdvancedAll;
    hide Dispatch;
    hide Waiting;
    hide Passed;
    hide PlayEvents;
    hide Sing;
    hide DueBy;
    hide DueLimit;
    hide State.Valid;
  }

  lemma LimitReadsTrack(s: State, s': State, t: Track, t': Track, now: real)
    requires s.t0.Some? && s.bpm != 0.0 && s'.t0 == s.t0 && s'.bpm == s.bpm && t'.line == t.line
    ensures DueLimit(s', t', now) == DueLimit(s, t.(cursor := t'.cursor), now)
  {
  }

  lemma FollowsAdvance(w: World, at: real, now: real, name: string, v: Voice, clock: real)
    requires Follows(w, name, v, clock) && w.sequencer.tracks[name].on && clock <= now
    ensures Follows(Next(w, Call(AdvanceTo(at), now)), name, v, now)
    ensures SameTrack(w, Next(w, Call(AdvanceTo(at), now)), name)
  {
    var s, t, w' := w.sequencer, w.sequencer.tracks[name], Next(w, Call(AdvanceTo(at), now));
    NextKeepsInv(w, Call(AdvanceTo(at), now));
    FollowsInStep(w, name, v, clock);
    AdvanceTrack(s, at, name);
    AdvancedWorld(w, at, now);
    hide Inv;
    hide Follows;
    hide Next;
    hide InStep;
    hide Passed;
    hide PlayEvents;
    hide AdvancedAll;
    hide Dispatch;
    hide State.Valid;
    var a := Passed(t.line, t.cursor, |t.line.events|);
    AdvanceInStep(w, at, now, name, PlayEvents(v, t.line.events[..a]), clock);
    MorePlayed(v, t.line.events, a, Passed(t.line, Onward(t, AdvanceEnd(s, at)), |t.line.events|));
    FollowsInStep(w', name, v, now);
  }

  ghost predicate SameTrack(w: World, w': World, name: string)
    requires name in w.sequencer.tracks
  {
    && name in w'.sequencer.tracks && w'.sequencer.t0 == w.sequencer.t0 && w'.sequencer.bpm == w.sequencer.bpm
    && w'.sequencer.tracks[name].line == w.sequencer.tracks[name].line
    && w'.sequencer.tracks[name].part == w.sequencer.tracks[name].part
  }

  /** Any other call that lets the track be. */
  lemma FollowsOther(w: World, op: Op, now: real, name: string, v: Voice, clock: real)
    requires Follows(w, name, v, clock) && clock <= now && NotRestarting(op, name)
    requires w.sequencer.tracks[name].on ==> !op.AdvanceTo? && !(op.Disable? && op.name == name)
    ensures Follows(Next(w, Call(op, now)), name, v, now)
    ensures SameTrack(w, Next(w, Call(op, now)), name)
  {
    hide Step;
    hide Dispatch;
    hide Waiting;
    hide Passed;
    hide PlayEvents;
    hide Sing;
    hide DistinctParts;
    hide Known;
    var s, t, w' := w.sequencer, w.sequencer.tracks[name], Next(w, Call(op, now));
    NextKeepsInv(w, Call(op, now));
    OthersSayNothing(s, op, name);
    OnlyOneTrack(s, op, name);
    LimitGrows(Waiting(w.queue, name), s, t, clock, now);
    if Step(s, op).Ok? {
      NothingCounts(w.queue, Step(s, op).value.1, now, name);
    }
  }

  lemma FollowsDrain(w: World, now: real, name: string, v: Voice, clock: real)
    requires Follows(w, name, v, clock) && clock <= now
    ensures Follows(Next(w, Drain(now)), name, v, now)
    ensures SameTrack(w, Next(w, Drain(now)), name)
    ensures DueLimit(w.sequencer, w.sequencer.tracks[name], clock) <= now ==>
        Waiting(Next(w, Drain(now)).queue, name) == []
  {
    DrainKeepsComing(w, now, name);
    NextKeepsInv(w, Drain(now));
    LimitGrows(Waiting(w.queue, name), w.sequencer, w.sequencer.tracks[name], clock, now);
    var w' := Next(w, Drain(now));
    hide Waiting;
    hide Passed;
    hide PlayEvents;
    hide Coming;
    hide PlayAll;
    hide Inv;
    if Waiting(w'.queue, name) != [] {
      SomethingIn(Waiting(w'.queue, name));
    }
  }

  lemma SomethingIn(xs: seq<Queued>)
    requires xs != []
    ensures exists x :: x in xs
  {
    assert xs[0] in xs;
  }

  // ---- from its start to past its end ----------------------------------------------------------

  /** Calls and drains at non-decreasing times. */
  predicate Timely(es: seq<Event>, clock: real)
    decreases |es|
  {
    es == [] || (clock <= es[0].now && Timely(es[1..], es[0].now))
  }

  function ClockAfter(es: seq<Event>, clock: real): real { if es == [] then clock else es[|es| - 1].now }

  /** Nothing starts the track again, or drops it while it plays; a `disable` once it is off may come. */
  predicate LetsFinish(w: World, es: seq<Event>, name: string)
    requires Sane(w) && name in w.sequencer.tracks
    decreases |es|
  {
    es == []
    || (hide Next;
        NextIsSane(w, es[0]);
        NextHasTrack(w, es[0], name);
        && (es[0].Call? ==> NotRestarting(es[0].op, name)
                            && !(w.sequencer.tracks[name].on && es[0].op.Disable? && es[0].op.name == name))
        && LetsFinish(Next(w, es[0]), es[1..], name))
  }

  lemma FollowsNext(w: World, e: Event, name: string, v: Voice, clock: real)
    requires Follows(w, name, v, clock) && clock <= e.now
    requires e.Call? ==>
      NotRestarting(e.op, name) && !(w.sequencer.tracks[name].on && e.op.Disable? && e.op.name == name)
    ensures Follows(Next(w, e), name, v, e.now) && SameTrack(w, Next(w, e), name)
  {
    match e
    case Drain(now) => FollowsDrain(w, now, name, v, clock);
    case Call(op, now) =>
      if w.sequencer.tracks[name].on && op.AdvanceTo? {
        FollowsAdvance(w, op.at, now, name, v, clock);
      } else {
        FollowsOther(w, op, now, name, v, clock);
      }
  }

  lemma {:induction false} FollowsRun(w: World, es: seq<Event>, name: string, v: Voice, clock: real)
    requires Follows(w, name, v, clock) && Timely(es, clock) && LetsFinish(w, es, name)
    ensures Follows(RunWorld(w, es), name, v, ClockAfter(es, clock)) && SameTrack(w, RunWorld(w, es), name)
    decreases |es|
  {
    hide Next;
    hide Follows;
    if es != [] {
      FollowsNext(w, es[0], name, v, clock) by { FollowsIsSane(w, name, v, clock); }
      FollowsIsSane(w, name, v, clock);
      FollowsRun(Next(w, es[0]), es[1..], name, v, es[0].now);
    } else {
      FollowsIsSane(w, name, v, clock);
    }
  }

  lemma FollowsIsSane(w: World, name: string, v: Voice, clock: real)
    requires Follows(w, name, v, clock)
    ensures Inv(w) && name in w.sequencer.tracks
  {
  }

  /** Just lined up by `play_once`, with all that waits for it due by its first beat. */
  ghost predicate LinedUp(w: World, name: string, clock: real) {
    && Inv(w) && OneShot(w.sequencer, name)
    && var t := w.sequencer.tracks[name];
    && t.on && t.cursor == t.line.origin
    && TQ.Sorted(Waiting(w.queue, name)) && DueBy(Waiting(w.queue, name), DueLimit(w.sequencer, t, clock))
  }

  lemma LinedUpFollows(w: World, name: string, clock: real)
    requires LinedUp(w, name, clock)
    ensures Follows(w, name, Coming(w, name), clock)
  {
    var t := w.sequencer.tracks[name];
    assert ValidTrack(t);
    var k := Passed(t.line, t.cursor, |t.line.events|);
    PassedBefore(t.line, t.cursor);
    assert k == 0;
    assert t.line.events[..k] == [];
    hide Inv;
    hide Waiting;
    hide Coming;
  }

  /** The file's own messages, from a silent voice, end silent. */
  predicate EndsSilent(es: seq<MidiEvent>) { Silent(PlayEvents(Voice({}, {}, false), es)) }

  lemma AllPassed(t: Track)
    requires ValidTrack(t) && !t.line.loop && t.cursor > LastBeat(t.line)
    ensures t.line.events[..Passed(t.line, t.cursor, |t.line.events|)] == t.line.events
  {
    var n := |t.line.events|;
    if n > 0 {
      assert t.line.events[n - 1] in t.line.events;
    }
  }

  /**
   A one-shot that has switched itself off at its end, whatever else went on and even if
   it was disabled after that: once the queue has drained past its last event, its voice
   is what its file's messages make of the voice it started from. From a silent one it
   ends silent exactly when the file does.
   */
  lemma PlayedOutEndsAsItsFile(w: World, name: string, clock: real, es: seq<Event>, late: real)
    requires LinedUp(w, name, clock) && Timely(es, clock) && LetsFinish(w, es, name)
    requires name in RunWorld(w, es).sequencer.tracks && !RunWorld(w, es).sequencer.tracks[name].on
    requires ClockAfter(es, clock) <= late && w.sequencer.TimeAt(LastBeat(w.sequencer.tracks[name].line)) <= late
    ensures Sane(RunWorld(w, es))
    ensures var t, end := w.sequencer.tracks[name], Next(RunWorld(w, es), Drain(late));
      && VoiceAt(end.synth, t.part) == PlayEvents(Coming(w, name), t.line.events)
      && (Silent(Coming(w, name)) ==> (Silent(VoiceAt(end.synth, t.part)) <==> EndsSilent(t.line.events)))
  {
    hide RunWorld;
    hide Next;
    hide Follows;
    hide LetsFinish;
    hide Coming;
    hide PlayEvents;
    hide Timely;
    LinedUpFollows(w, name, clock);
    LinedUpMeans(w, name, clock);
    hide LinedUp;
    var v, w1 := Coming(w, name), RunWorld(w, es);
    FollowsRun(w, es, name, v, clock);
    FollowsIsSane(w1, name, v, ClockAfter(es, clock));
    hide Inv;
    LastLimit(w1.sequencer, w1.sequencer.tracks[name], ClockAfter(es, clock), late);
    FollowsDrain(w1, late, name, v, ClockAfter(es, clock));
    hide DueLimit;
    PlayedOutVoice(Next(w1, Drain(late)), name, v, late) by { OffAfterDrain(w1, late, name); }
    OffAfterDrain(w1, late, name);
    SilentIsEmpty(v);
  }

  lemma LinedUpMeans(w: World, name: string, clock: real)
    requires LinedUp(w, name, clock)
    ensures Sane(w) && name in w.sequencer.tracks && w.sequencer.t0.Some? && w.sequencer.bpm > 0.0
  {
  }

  lemma OffAfterDrain(w: World, now: real, name: string)
    requires Inv(w) && name in w.sequencer.tracks
    ensures Next(w, Drain(now)).sequencer == w.sequencer && Sane(w)
  {
    hide PlayAll;
  }

  lemma SilentIsEmpty(v: Voice)
    ensures Silent(v) <==> v == Voice({}, {}, false)
  {
  }

  lemma LastLimit(s: State, t: Track, clock: real, late: real)
    requires s.t0.Some? && s.bpm > 0.0 && clock <= late && s.TimeAt(LastBeat(t.line)) <= late
    ensures DueLimit(s, t, clock) <= late
  {
    LaterBeatLaterTime(s, Min(t.cursor, LastBeat(t.line)), LastBeat(t.line));
  }

  lemma PlayedOutVoice(w: World, name: string, v: Voice, clock: real)
    requires Follows(w, name, v, clock) && !w.sequencer.tracks[name].on && Waiting(w.queue, name) == []
    ensures VoiceAt(w.synth, w.sequencer.tracks[name].part) == PlayEvents(v, w.sequencer.tracks[name].line.events)
  {
    assert ValidTrack(w.sequencer.tracks[name]);
    AllPassed(w.sequencer.tracks[name]);
    hide Inv;
    hide PlayEvents;
  }

  // ---- how a one-shot is lined up ----------------------------------------------------------------

  /** The world a `play_once` of an idle one-shot makes: the track lined up, and its volume sent. */
  lemma PlayOnceWorld(w: World, name: string, at: real, now: real)
    requires Inv(w) && OneShot(w.sequencer, name) && !w.sequencer.tracks[name].on
    ensures var w1 := Next(w, Call(PlayOnce(name, at), now));
      && OneShot(w1.sequencer, name) && w1.synth == w.synth && Waiting(w1.queue, name) == Waiting(w.queue, name)
      && w1.sequencer.tracks[name].part == w.sequencer.tracks[name].part
      && w1.sequencer.tracks[name].on && w1.sequencer.tracks[name].cursor == w1.sequencer.tracks[name].line.origin
  {
    hide Next;
    hide Dispatch;
    hide Waiting;
    hide OpeningVolume;
    hide LinedUpAt;
    hide Inv;
    NextKeepsInv(w, Call(PlayOnce(name, at), now));
    InvIsSane(w);
    InvIsSane(Next(w, Call(PlayOnce(name, at), now)));
    PlayOnceFormula(w, name, at, now);
    hide State.Valid;
    var s, t := w.sequencer, w.sequencer.tracks[name];
    LinedUpTrack(s, t, at);
    OpeningWaits(w, name, at, now);
  }

  lemma LinedUpTrack(s: State, t: Track, at: real)
    requires s.t0.Some?
    ensures var t' := LinedUpAt(s, t, at);
      t'.part == t.part && t'.on && t'.cursor == t'.line.origin && t'.line.loop == t.line.loop
  {
  }

  lemma OpeningWaits(w: World, name: string, at: real, now: real)
    requires Inv(w) && OneShot(w.sequencer, name)
    ensures var v := OpeningVolume(w.sequencer, w.sequencer.tracks[name], at);
      [] + [v] == [v] && Waiting(Dispatch(w.queue, [v], now), name) == Waiting(w.queue, name)
  {
    hide Dispatch;
    hide Waiting;
    hide OpeningVolume;
    OpeningSaysNothing(w.sequencer, w.sequencer.tracks[name], at, name);
    NothingCounts(w.queue, [OpeningVolume(w.sequencer, w.sequencer.tracks[name], at)], now, name);
  }

  lemma OpeningSaysNothing(s: State, t: Track, at: real, name: string)
    requires s.t0.Some? && s.bpm != 0.0
    ensures var c := OpeningVolume(s, t, at); c.MusicCue? && !Counts(c, name) && !PurgesTag(c, name)
  {
    var t' := LinedUpAt(s, t, at);
    VolumeSaysNothing(s, t', t'.cc7, s.TimeAt(t'.cursor), name);
    hide VolumeCue;
  }

  /**
   From idle, it starts from the voice that what still waits for it leaves, and it is lined
   up exactly when that waits in order and is due by its first beat.
   */
  lemma IdleLinesUpExactly(w: World, name: string, at: real, now: real)
    requires Inv(w) && OneShot(w.sequencer, name) && !w.sequencer.tracks[name].on
    ensures var w1 := Next(w, Call(PlayOnce(name, at), now));
      && OneShot(w1.sequencer, name) && Coming(w1, name) == Coming(w, name)
      && (LinedUp(w1, name, now) <==>
          TQ.Sorted(Waiting(w.queue, name))
          && DueBy(Waiting(w.queue, name), DueLimit(w1.sequencer, w1.sequencer.tracks[name], now)))
  {
    PlayOnceWorld(w, name, at, now);
    NextKeepsInv(w, Call(PlayOnce(name, at), now));
    hide Next;
    hide Waiting;
    hide Inv;
  }

  /** A one-shot lined up at `at`. */
  function LinedUpAt(s: State, t: Track, at: real): Track
    requires s.t0.Some?
  {
    var start := Ceiling(s.SnappedBeat(at)) as real;
    t.(on := true, line := t.line.(origin := start), cursor := start, cc7 := t.initialCc7)
  }

  function OpeningVolume(s: State, t: Track, at: real): Cue
    requires s.t0.Some? && s.bpm != 0.0
  {
    var t' := LinedUpAt(s, t, at);
    VolumeCue(s, t', t'.cc7, s.TimeAt(t'.cursor))
  }

  lemma PlayOnceFormula(w: World, name: string, at: real, now: real)
    requires Sane(w) && OneShot(w.sequencer, name)
    ensures var s, t := w.sequencer, w.sequencer.tracks[name];
      Next(w, Call(PlayOnce(name, at), now)) ==
      World(s.(tracks := s.tracks[name := LinedUpAt(s, t, at)]),
            Dispatch(w.queue, (if t.on then DropCues(s, t, at) else []) + [OpeningVolume(s, t, at)], now), w.synth)
  {
    hide DropCues;
    hide Dispatch;
    hide VolumeCue;
    hide Ceiling;
    hide State.SnappedBeat;
  }

  lemma DroppedOneShot(w: World, name: string, at: real, now: real)
    requires Inv(w) && OneShot(w.sequencer, name) && w.sequencer.tracks[name].on
    ensures var s, t, wd := w.sequencer, w.sequencer.tracks[name], Next(w, Call(Disable(name, at), now));
      && Inv(wd) && OneShot(wd.sequencer, name) && t.name == name
      && wd == World(s.(tracks := s.tracks[name := t.(on := false)]),
          Dispatch(w.queue, DropCues(s, t, at), now), w.synth)
  {
    NextKeepsInv(w, Call(Disable(name, at), now));
    DisableEffect(w, name, at, now);
    hide Next;
    hide Dispatch;
    hide DropCues;
    hide Known;
    hide DistinctParts;
  }

  lemma WrittenTwice(tracks: map<string, Track>, name: string, a: Track, b: Track)
    ensures tracks[name := a][name := b] == tracks[name := b]
  {
  }

  lemma RestartIsDropThenStart(w: World, name: string, at: real, now: real)
    requires Inv(w) && OneShot(w.sequencer, name) && w.sequencer.tracks[name].on
    ensures var wd := Next(w, Call(Disable(name, at), now));
      Inv(wd) && OneShot(wd.sequencer, name) && !wd.sequencer.tracks[name].on
      && wd.sequencer.tracks[name].part == w.sequencer.tracks[name].part
      && Next(w, Call(PlayOnce(name, at), now)) == Next(wd, Call(PlayOnce(name, at), now))
  {
    hide Next;
    hide Dispatch;
    hide DropCues;
    hide Inv;
    hide State.Valid;
    DroppedOneShot(w, name, at, now);
    InvIsSane(w);
    InvIsSane(Next(w, Call(Disable(name, at), now)));
    DroppedThenLinedUp(w, Next(w, Call(Disable(name, at), now)), name, at, now);
  }

  lemma DroppedThenLinedUp(w: World, wd: World, name: string, at: real, now: real)
    requires Sane(w) && Sane(wd) && OneShot(w.sequencer, name) && OneShot(wd.sequencer, name)
    requires w.sequencer.tracks[name].on
    requires var s, t := w.sequencer, w.sequencer.tracks[name];
      wd == World(s.(tracks := s.tracks[name := t.(on := false)]), Dispatch(w.queue, DropCues(s, t, at), now), w.synth)
    ensures Next(w, Call(PlayOnce(name, at), now)) == Next(wd, Call(PlayOnce(name, at), now))
  {
    hide Next;
    hide Dispatch;
    hide DropCues;
    hide LinedUpAt;
    hide OpeningVolume;
    var s, t := w.sequencer, w.sequencer.tracks[name];
    assert s.bpm != 0.0;
    hide State.Valid;
    PlayOnceFormula(w, name, at, now);
    PlayOnceFormula(wd, name, at, now);
    DispatchInTwo(w.queue, DropCues(s, t, at), [OpeningVolume(s, t, at)], now);
    SameOpening(s, wd.sequencer, t, at);
    WrittenTwice(s.tracks, name, t.(on := false), LinedUpAt(s, t, at));
    assert [] + [OpeningVolume(s, t, at)] == [OpeningVolume(s, t, at)];
  }

  lemma InvIsSane(w: World)
    requires Inv(w)
    ensures Sane(w)
  {
  }

  lemma SameOpening(s: State, sd: State, t: Track, at: real)
    requires s.t0.Some? && s.bpm != 0.0 && sd == s.(tracks := sd.tracks)
    ensures LinedUpAt(sd, t.(on := false), at) == LinedUpAt(s, t, at)
    ensures OpeningVolume(sd, t.(on := false), at) == OpeningVolume(s, t, at)
  {
    hide Ceiling;
    hide Snap;
    hide ScaledVolume;
  }

  /** What a drop leaves waiting: all at one time, and coming to silence. */
  lemma DropComesToSilence(w: World, name: string, at: real, now: real)
    requires Inv(w) && name in w.sequencer.tracks && w.sequencer.tracks[name].on
    ensures var wd := Next(w, Call(Disable(name, at), now));
      && Inv(wd) && name in wd.sequencer.tracks && TQ.Sorted(Waiting(wd.queue, name))
      && DueBy(Waiting(wd.queue, name), TQ.DueAt(Some(at), now)) && Silent(Coming(wd, name))
  {
    var wd, due := Next(w, Call(Disable(name, at), now)), TQ.DueAt(Some(at), now);
    NextKeepsInv(w, Call(Disable(name, at), now));
    DisableDrops(w, name, at, now);
    DropWaits(w, name, at, now);
    hide TQ.DueAt;
    DueDrainSilences(wd, name, due, due);
    DrainKeepsComing(wd, due, name);
    hide Next;
    hide Inv;
    hide Dropped;
    hide Waiting;
    var w2 := Next(wd, Drain(due));
    if Waiting(w2.queue, name) != [] {
      SomethingIn(Waiting(w2.queue, name));
    }
    OffAfterDrain(wd, due, name);
  }

  lemma PurgedWaits(q: TQ.Queue<Midi>, purge: Cue, now: real)
    requires purge.MusicPurge?
    ensures Waiting(Dispatch(q, [purge], now), purge.tag) == []
  {
    PurgeAlone(q, purge, now);
    hide Dispatch;
    if Waiting(Dispatch(q, [purge], now), purge.tag) != [] {
      SomethingIn(Waiting(Dispatch(q, [purge], now), purge.tag));
    }
  }

  lemma AllAtOnce(cues: seq<Cue>, name: string, at: real)
    requires forall c :: c in cues ==> c.MusicCue? && c.when == at
    ensures Rising(cues, name, at, at)
  {
  }

  lemma DropWaits(w: World, name: string, at: real, now: real)
    requires Inv(w) && name in w.sequencer.tracks && w.sequencer.tracks[name].on
    ensures var wd := Next(w, Call(Disable(name, at), now));
      TQ.Sorted(Waiting(wd.queue, name)) && DueBy(Waiting(wd.queue, name), TQ.DueAt(Some(at), now))
  {
    hide Dispatch;
    hide DropCues;
    hide AfterPurge;
    hide Waiting;
    var s, t := w.sequencer, w.sequencer.tracks[name];
    DisableEffect(w, name, at, now);
    DropSplits(w.queue, s, t, at, now);
    PurgedWaits(w.queue, MusicPurge(s.dev, t.name), now);
    ReleasesAfterPurge(s, t, at);
    AllAtOnce(AfterPurge(s, t, at), name, at);
    var q1 := Dispatch(w.queue, [MusicPurge(s.dev, t.name)], now);
    assert q1.Valid();
    hide Inv;
    hide Next;
    hide Rising;
    DispatchSings(q1, AfterPurge(s, t, at), now, name, at, at, Voice({}, {}, false));
  }

  lemma DropQueuesPedalUp(w: World, name: string, at: real, now: real)
    requires Inv(w) && name in w.sequencer.tracks && w.sequencer.tracks[name].on
    ensures var wd := Next(w, Call(Disable(name, at), now));
      exists x :: x in Waiting(wd.queue, name) && x.due == TQ.DueAt(Some(at), now)
  {
    var s, t, w' := w.sequencer, w.sequencer.tracks[name], Next(w, Call(Disable(name, at), now));
    DisableEffect(w, name, at, now);
    DropDispatched(w.queue, s, t, at, now);
    hide Inv;
    hide Next;
    hide Dispatch;
    hide DropCues;
    hide TQ.DueAt;
    ReleasesQueued(w', s, t, at, TQ.DueAt(Some(at), now));
    var x :| x in w'.queue.items && x.due == TQ.DueAt(Some(at), now) && IsPedalUp(x.payload, name);
    assert x in Waiting(w'.queue, name);
  }

  /**
   Restarted while it plays, it comes to silence first of all that waits, and it is lined up
   exactly when what drops it is due by its first beat.
   */
  lemma RestartLinesUpExactly(w: World, name: string, at: real, now: real)
    requires Inv(w) && OneShot(w.sequencer, name) && w.sequencer.tracks[name].on
    ensures var w1 := Next(w, Call(PlayOnce(name, at), now));
      && OneShot(w1.sequencer, name) && Silent(Coming(w1, name))
      && (LinedUp(w1, name, now) <==>
          TQ.DueAt(Some(at), now) <= DueLimit(w1.sequencer, w1.sequencer.tracks[name], now))
  {
    var wd := Next(w, Call(Disable(name, at), now));
    RestartIsDropThenStart(w, name, at, now);
    DropComesToSilence(w, name, at, now);
    DropQueuesPedalUp(w, name, at, now);
    IdleLinesUpExactly(wd, name, at, now);
    hide Next;
    hide Waiting;
    hide Inv;
    hide Coming;
    hide LinedUp;
    hide DueLimit;
    hide TQ.DueAt;
  }

  // ---- a file that leaves a key down ----------------------------------------------------------------

  const HANGING := MidiEvent(0.0, 0x90, 60, 100)

  function HangingTrack(): Track {
    Track("chime", 0, Timeline(false, 0.0, 0.0, [HANGING]), [], DEFAULT_CC7, false, 0.0, DEFAULT_CC7, {})
  }

  /** One beat a second, no look-ahead, one one-shot of a single note-on that its file never releases. */
  function HangingWorld(): World {
    World(State(60.0, "room", 0.0, 1.0, Some(0.0), ["chime"], map["chime" := HangingTrack()]),
        TQ.Queue([], 0, 0, []), map[])
  }

  lemma HangingStarts()
    ensures JustStarted(HangingWorld()) && OneShot(HangingWorld().sequencer, "chime")
    ensures Waiting(HangingWorld().queue, "chime") == []
  {
  }

  /** At beat 1 the advance takes it past its end, and it switches itself off. */
  lemma HangingEnds(s: State)
    requires s.Valid() && s.t0 == Some(0.0) && s.bpm == 60.0 && s.lookahead == 0.0 && "chime" in s.tracks
    requires var t := s.tracks["chime"];
      t.on && !t.line.loop && t.line.origin == 0.0 && t.line.length == 0.0 && t.cursor == 0.0
    ensures "chime" in After(s, AdvanceTo(1.0)).tracks && !After(s, AdvanceTo(1.0)).tracks["chime"].on
  {
    SnapOfWholeBeat(1);
    assert AdvanceEnd(s, 1.0) == 1.0 && s.SnappedBeat(1.0) == 1.0;
    OnlyOneTrack(s, AdvanceTo(1.0), "chime");
    assert ValidTrack(s.tracks["chime"]);
    hide ValidTrack;
    hide Pending;
    hide TrackByTrack;
    hide After;
    hide Snap;
  }

  lemma HangingFile()
    ensures PlayEvents(Voice({}, {}, false), [HANGING]) == Voice({60}, {}, false)
  {
    assert [HANGING][..0] == [];
    assert PlayEvents(Voice({}, {}, false), []) == Voice({}, {}, false);
    assert MidiTracks.HighNibble(0x90) == 0x90;
  }

  function HangingRun(): seq<Event> { [Call(AdvanceTo(1.0), 1.0)] }

  lemma HangingPlayed(w1: World)
    requires w1 == Next(HangingWorld(), Call(PlayOnce("chime", 0.0), 0.0))
    ensures LinedUp(w1, "chime", 0.0) && Silent(Coming(w1, "chime"))
    ensures "chime" in w1.sequencer.tracks && w1.sequencer.tracks["chime"].line == HangingTrack().line
    ensures w1.sequencer.tracks["chime"].part == 0
    ensures w1.sequencer == HangingWorld().sequencer.(tracks := w1.sequencer.tracks)
  {
    hide Dispatch;
    hide Waiting;
    hide LinedUp;
    hide Coming;
    hide Next;
    hide After;
    HangingStarts();
    HangingPlays();
    StartIsInv(HangingWorld());
    hide Inv;
    HangingComing();
    NextSequencer(HangingWorld(), PlayOnce("chime", 0.0), 0.0);
    IdleLinesUpExactly(HangingWorld(), "chime", 0.0, 0.0);
  }

  lemma NextSequencer(w: World, op: Op, now: real)
    requires w.sequencer.Valid() && w.queue.Valid()
    ensures Next(w, Call(op, now)).sequencer == After(w.sequencer, op)
  {
    hide Step;
    hide Dispatch;
  }

  lemma HangingComing()
    ensures Silent(Coming(HangingWorld(), "chime"))
  {
    HangingStarts();
  }

  lemma HangingPlays()
    ensures HangingWorld().sequencer.Valid()
    ensures var s := HangingWorld().sequencer; var s1 := After(s, PlayOnce("chime", 0.0));
      && "chime" in s1.tracks && s1.tracks["chime"].line == HangingTrack().line && s1.tracks["chime"].part == 0
      && s1 == s.(tracks := s1.tracks)
  {
    HangingStarts();
    hide JustStarted;
    hide Waiting;
    SnapOfWholeBeat(0);
    PlayOnceTrack(HangingWorld().sequencer, "chime", 0.0);
    hide After;
    hide Snap;
    assert HangingWorld().sequencer.SnappedBeat(0.0) == 0.0;
    assert Ceiling(0.0) == 0;
  }

  lemma PlayOnceTrack(s: State, name: string, at: real)
    requires OneShot(s, name)
    ensures var t, s1 := s.tracks[name], After(s, PlayOnce(name, at));
      && name in s1.tracks && s1 == s.(tracks := s1.tracks) && s1.tracks[name].part == t.part
      && s1.tracks[name].line == t.line.(origin := Ceiling(s.SnappedBeat(at)) as real)
  {
    hide Snap;
    hide Ceiling;
    hide VolumeCue;
    hide DropCues;
    hide ValidTrack;
  }

  lemma HangingRuns(w1: World)
    requires Sane(w1) && "chime" in w1.sequencer.tracks
    ensures Timely(HangingRun(), 0.0) && LetsFinish(w1, HangingRun(), "chime") && ClockAfter(HangingRun(), 0.0) == 1.0
    ensures RunWorld(w1, HangingRun()) == Next(w1, HangingRun()[0])
  {
    NextIsSane(w1, HangingRun()[0]);
    NextHasTrack(w1, HangingRun()[0], "chime");
    hide Next;
    assert HangingRun()[1..] == [];
    assert LetsFinish(Next(w1, HangingRun()[0]), [], "chime");
    assert RunWorld(Next(w1, HangingRun()[0]), []) == Next(w1, HangingRun()[0]);
  }

  /**
   The failing input: just started, play the one-shot, advance past its end, drain. The
   track is off by itself with key 60 held, and a `disable` then does nothing.
   */
  lemma AnUnreleasedKeyHangs()
    ensures JustStarted(HangingWorld())
    ensures var w1 := Next(HangingWorld(), Call(PlayOnce("chime", 0.0), 0.0));
      && Sane(w1) && Sane(RunWorld(w1, HangingRun()))
      && var end := Next(RunWorld(w1, HangingRun()), Drain(1.0));
         && Sane(end) && "chime" in end.sequencer.tracks && !end.sequencer.tracks["chime"].on
         && VoiceAt(end.synth, 0) == Voice({60}, {}, false)
         && Next(end, Call(Disable("chime", 2.0), 2.0)) == end
  {
    HangingStarts();
    var w1 := Next(HangingWorld(), Call(PlayOnce("chime", 0.0), 0.0));
    HangingPlayed(w1);
    LinedUpMeans(w1, "chime", 0.0);
    HangingRuns(w1);
    NextHasTrack(w1, HangingRun()[0], "chime");
    LinedUpFollows(w1, "chime", 0.0);
    FollowsIsSane(w1, "chime", Coming(w1, "chime"), 0.0);
    AtItsStart(w1);
    HangingEnds(w1.sequencer);
    NextKeepsInv(w1, HangingRun()[0]);
    hide Next;
    hide Coming;
    hide LetsFinish;
    PlayedOutEndsAsItsFile(w1, "chime", 0.0, HangingRun(), 1.0);
    var w2 := Next(w1, HangingRun()[0]);
    OffAfterDrain(w2, 1.0, "chime");
    NextIsSane(w2, Drain(1.0));
    SilentIsEmpty(Coming(w1, "chime"));
    HangingFile();
    DisableOffIsNothing(Next(w2, Drain(1.0)), "chime", 2.0, 2.0);
  }

  lemma AtItsStart(w: World)
    requires LinedUp(w, "chime", 0.0) && w.sequencer.tracks["chime"].line == HangingTrack().line
    ensures var t := w.sequencer.tracks["chime"]; t.on && t.cursor == 0.0
  {
    hide Inv;
    hide Waiting;
  }
}
