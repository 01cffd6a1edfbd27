/**
 No hung note: control/sequencer.py's cues through control/engine.py's dispatch into
 devicelink/agent.py's Room cue queue, and out of it to the synth.

 A `World` is the sequencer, the speaker's timed queue and the sixteen voices. Cues
 enter the queue as they are returned (a purge drops the track's queued cues at once),
 and drains play whatever is due. The main result, `NoHungNote`, is about every
 interleaving: after a track's last `disable`, the first drain at or past its time
 leaves the track's voice silent with its pedal up, and it stays so.
 */
module HungNotes {
  import opened Wrappers
  import MidiTracks
  import opened MidiFiles
  import opened Pairing
  import opened Windows
  import opened Sequencers
  import opened SequencerRuns
  import TQ = TimedQueues
  import SS = StableSorting

  type Byte = MidiTracks.Byte

  /** A queued cue of the Room's fixture. */
  datatype Midi = Midi(status: Byte, d1: Byte, d2: Byte, tag: string)

  /** One part's voice. A key let go under a down pedal goes on sounding until the pedal rises. */
  datatype Voice = Voice(held: set<Byte>, sustained: set<Byte>, pedal: bool)

  function Sounding(v: Voice): set<Byte> { v.held + v.sustained }

  predicate Silent(v: Voice) { Sounding(v) == {} && !v.pedal }

  predicate Strikes(m: Midi) { MidiTracks.HighNibble(m.status) == 0x90 && m.d2 > 0 }

  predicate Releases(m: Midi) {
    MidiTracks.HighNibble(m.status) == 0x80 || (MidiTracks.HighNibble(m.status) == 0x90 && m.d2 == 0)
  }

  predicate MovesPedal(m: Midi) { MidiTracks.HighNibble(m.status) == 0xB0 && m.d1 == 64 }

  predicate PedalDown(m: Midi) { MovesPedal(m) && m.d2 >= 64 }

  predicate PedalUp(m: Midi) { MovesPedal(m) && m.d2 < 64 }

  function PlayOn(v: Voice, m: Midi): Voice {
    if Strikes(m) then v.(held := v.held + {m.d1})
    else if Releases(m) then
      Voice(v.held - {m.d1}, if v.pedal && m.d1 in v.held then v.sustained + {m.d1} else v.sustained, v.pedal)
    else if PedalDown(m) then v.(pedal := true)
    else if PedalUp(m) then v.(pedal := false, sustained := {})
    else v
  }

  function PartOf(m: Midi): Part { m.status % 16 }

  /** The voices, one per part. */
  type Synth = map<Part, Voice>

  function VoiceAt(v: Synth, p: Part): Voice { if p in v then v[p] else Voice({}, {}, false) }

  function PlayOne(v: Synth, m: Midi): Synth { v[PartOf(m) := PlayOn(VoiceAt(v, PartOf(m)), m)] }

  function PlayAll(v: Synth, ms: seq<Midi>): Synth {
    if ms == [] then v else PlayOne(PlayAll(v, ms[..|ms| - 1]), ms[|ms| - 1])
  }

  // ---- the world -----------------------------------------------------------------

  datatype World = World(sequencer: State, queue: TQ.Queue<Midi>, synth: Synth)

  datatype Event = Call(op: Op, now: real) | Drain(now: real)

  function Tagged(tag: string): Midi -> bool { (m: Midi) => m.tag == tag }

  /** One cue reaching the speaker at `now`. */
  function Receive(q: TQ.Queue<Midi>, c: Cue, now: real): (r: TQ.Queue<Midi>)
    ensures q.Valid() ==> r.Valid()
  {
    match c
    case MusicCue(_, status, d1, d2, when, tag) => q.Push(Some(when), Midi(status, d1, d2, tag), now)
    case MusicPurge(_, tag) => q.Purge(Tagged(tag))
  }

  /** `_dispatch_cues`: in order. */
  function Dispatch(q: TQ.Queue<Midi>, cues: seq<Cue>, now: real): (r: TQ.Queue<Midi>)
    ensures q.Valid() ==> r.Valid()
    decreases |cues|
  {
    if cues == [] then q else Receive(Dispatch(q, cues[..|cues| - 1], now), cues[|cues| - 1], now)
  }

  function Next(w: World, e: Event): World
    requires w.sequencer.Valid() && w.queue.Valid()
  {
    match e
    case Call(op, now) =>
      var r := Step(w.sequencer, op);
      if r.Err? then w
      else World(r.value.0, Dispatch(w.queue, r.value.1, now), w.synth)
    case Drain(now) =>
      World(w.sequencer, w.queue.After(now), PlayAll(w.synth, TQ.Payloads(w.queue.Ready(now))))
  }

  // ---- the invariant ----------------------------------------------------------------

  ghost predicate DistinctParts(s: State) {
    forall a, b :: a in s.tracks && b in s.tracks && a != b ==> s.tracks[a].part != s.tracks[b].part
  }

  /** A message of a known track, on that track's part, striking only keys on record. */
  ghost predicate Known(s: State, m: Midi) {
    && m.tag in s.tracks && PartOf(m) == s.tracks[m.tag].part
    && (Strikes(m) ==> m.d1 in s.tracks[m.tag].struck)
  }

  ghost predicate Inv(w: World) {
    && w.sequencer.Valid() && w.queue.Valid() && DistinctParts(w.sequencer)
    && (forall x :: x in w.queue.items ==> Known(w.sequencer, x.payload))
    && (forall name :: name in w.sequencer.tracks ==>
          Sounding(VoiceAt(w.synth, w.sequencer.tracks[name].part)) <= w.sequencer.tracks[name].struck)
  }

  function Message(c: Cue): Midi
    requires c.MusicCue?
  {
    Midi(c.status, c.d1, c.d2, c.tag)
  }

  ghost predicate KnownCue(s: State, c: Cue) { c.MusicCue? ==> Known(s, Message(c)) }

  /** What an operation may change of the tracks: never which they are, or their parts, and the record only grows. */
  ghost predicate Extends(s: State, s': State) {
    && s'.tracks.Keys == s.tracks.Keys
    && forall name :: name in s.tracks ==>
         s'.tracks[name].part == s.tracks[name].part && s.tracks[name].struck <= s'.tracks[name].struck
  }

  lemma StepExtends(s: State, op: Op)
    requires s.Valid()
    ensures Extends(s, After(s, op))
  {
    hide Chased;
    hide ValidTrack;
    hide TrackByTrack;
    hide DropCues;
    hide Pending;
  }

  lemma CueIsKnown(s: State, t: Track, status: Byte, d1: Byte, d2: Byte, when: real, s': State)
    requires t.name in s'.tracks && s'.tracks[t.name].part == t.part
    requires MidiTracks.HighNibble(status) == 0x90 && d2 > 0 ==> d1 in s'.tracks[t.name].struck
    ensures KnownCue(s', CueFor(s, t, status, d1, d2, when))
    ensures var m := Message(CueFor(s, t, status, d1, d2, when));
      MidiTracks.HighNibble(m.status) == MidiTracks.HighNibble(status) && PartOf(m) == t.part
  {
  }

  lemma {:induction false} EmittedAreStruck(t: Track, os: seq<Occurrence>)
    ensures forall o :: o in os && o.i < |t.line.events| && IsNoteOn(t.line.events[o.i]) ==>
              t.line.events[o.i].d1 in AfterEmitting(t, os).struck
  {
    if os != [] {
      EmittedAreStruck(t, os[..|os| - 1]);
    }
  }

  lemma TimedCuesAreKnown(s: State, t: Track, os: seq<Occurrence>, s': State)
    requires s.t0.Some? && s.bpm != 0.0 && ValidTrack(t)
    requires t.name in s'.tracks && s'.tracks[t.name].part == t.part
    requires AfterEmitting(t, os).struck <= s'.tracks[t.name].struck
    requires forall o :: o in os ==> o.i < |t.line.events|
    ensures forall x :: x in TimedCues(s, t, os) ==> KnownCue(s', x.cue)
  {
    EmittedAreStruck(t, os);
    hide AfterEmitting;
    forall i | 0 <= i < |os| ensures KnownCue(s', TimedCues(s, t, os)[i].cue) {
      assert os[i] in os;
      var e := t.line.events[os[i].i];
      var g := Grid(t.line, os[i]);
      hide Grid;
      if IsVolume(e) {
        CueIsKnown(s, t, 0xB0, 7, ScaledVolume(e.d2, s.master), s.TimeAt(g), s');
      } else {
        CueIsKnown(s, t, e.status, e.d1, e.d2, s.TimeAt(g), s');
      }
    }
  }

  lemma {:induction false} TrackByTrackIsKnown(s: State, n: nat, end: real, s': State)
    requires s.Valid() && s.t0.Some? && n <= |s.order| && Extends(s, s')
    requires forall name :: name in s.tracks ==>
      AfterEmitting(s.tracks[name], Pending(s.tracks[name], end)).struck <= s'.tracks[name].struck
    ensures forall x :: x in TrackByTrack(s, n, end) ==> KnownCue(s', x.cue)
  {
    hide Pending;
    hide TimedCues;
    hide AfterEmitting;
    hide KnownCue;
    if n > 0 {
      TrackByTrackIsKnown(s, n - 1, end, s');
      NextTrack(s, n - 1, end);
      var t := s.tracks[s.order[n - 1]];
      assert t.name == s.order[n - 1];
      hide ValidTrack;
      TimedCuesAreKnown(s, t, Pending(t, end), s');
    }
  }

  lemma SortingKeepsKnown(xs: seq<Timed>, s: State)
    requires forall x :: x in xs ==> KnownCue(s, x.cue)
    ensures forall c :: c in Cues(SS.SortBy(xs, GridOf)) ==> KnownCue(s, c)
  {
    hide KnownCue;
    SS.SortByOrders(xs, GridOf);
    var sorted := SS.SortBy(xs, GridOf);
    hide SS.SortBy;
    forall c | c in Cues(sorted) ensures KnownCue(s, c) {
      var i :| 0 <= i < |sorted| && sorted[i].cue == c;
      assert sorted[i] in xs;
    }
  }

  lemma AdvanceCuesAreKnown(s: State, at: real)
    requires s.Valid() && s.t0.Some?
    ensures forall c :: c in AdvancedAll(s, at).value.1 ==> KnownCue(AdvancedAll(s, at).value.0, c)
  {
    hide KnownCue;
    var s', end := AdvancedAll(s, at).value.0, AdvanceEnd(s, at);
    StepExtends(s, AdvanceTo(at));
    forall name | name in s.tracks
      ensures AfterEmitting(s.tracks[name], Pending(s.tracks[name], end)).struck <= s'.tracks[name].struck
    {
      hide Pending;
      assert ValidTrack(s.tracks[name]);
      AdvancedStrikes(s.tracks[name], end, s.SnappedBeat(at));
    }
    TrackByTrackIsKnown(s, |s.order|, end, s');
    hide TrackByTrack;
    hide AfterEmitting;
    SortingKeepsKnown(TrackByTrack(s, |s.order|, end), s');
  }

  lemma AdvancedStrikes(t: Track, end: real, now: real)
    requires ValidTrack(t)
    ensures AfterEmitting(t, Pending(t, end)).struck <= Advanced(t, end, now).struck
  {
    if !t.on {
      NothingEmitted(t);
    }
  }

  lemma DropCuesAreKnown(s: State, t: Track, at: real, s': State)
    requires t.name in s'.tracks && s'.tracks[t.name].part == t.part
    ensures forall c :: c in DropCues(s, t, at) ==> KnownCue(s', c)
    ensures forall c :: c in DropCues(s, t, at) && c.MusicCue? ==>
      c.tag == t.name && !Strikes(Message(c)) && !PedalDown(Message(c))
  {
    forall c | c in DropCues(s, t, at) && c.MusicCue?
      ensures KnownCue(s', c) && c.tag == t.name && !Strikes(Message(c)) && !PedalDown(Message(c))
    {
      var keys := SortedKeys(t.struck, 256);
      hide SortedKeys;
      if c in ReleaseCues(s, t, keys, at) {
        var i :| 0 <= i < |keys| && c == CueFor(s, t, 0x80, keys[i], 0, at);
        CueIsKnown(s, t, 0x80, keys[i], 0, at, s');
      } else {
        CueIsKnown(s, t, 0xB0, 64, 0, at, s');
      }
    }
  }

  lemma VolumeIsHarmless(s: State, t: Track, cc7: Byte, when: real, s': State)
    requires t.name in s'.tracks && s'.tracks[t.name].part == t.part
    ensures var c := VolumeCue(s, t, cc7, when);
      KnownCue(s', c) && !Strikes(Message(c)) && !PedalDown(Message(c))
  {
    CueIsKnown(s, t, 0xB0, 7, ScaledVolume(cc7, s.master), when, s');
  }

  lemma StrikesAreKnown(s: State, t: Track, notes: seq<Note>, at: real, s': State)
    requires t.name in s'.tracks && s'.tracks[t.name].part == t.part
    requires Keys(notes) <= s'.tracks[t.name].struck
    ensures forall c :: c in StrikeCues(s, t, notes, at) ==> KnownCue(s', c)
  {
    forall c | c in StrikeCues(s, t, notes, at) ensures KnownCue(s', c) {
      var i :| 0 <= i < |notes| && c == CueFor(s, t, notes[i].status, notes[i].key, notes[i].velocity, at);
      assert notes[i].key in Keys(notes);
      CueIsKnown(s, t, notes[i].status, notes[i].key, notes[i].velocity, at, s');
    }
  }

  lemma EnableCuesAreKnown(s: State, name: string, at: real)
    requires s.Valid() && Enabled(s, name, at).Ok?
    ensures var (s', cues) := Enabled(s, name, at).value;
      forall c :: c in cues ==> KnownCue(s', c)
  {
    hide Chased;
    hide KnownCue;
    hide StrikeCues;
    hide VolumeCue;
    var (s', cues) := Enabled(s, name, at).value;
    if cues != [] {
      var t := s.tracks[name];
      var notes := Chased(t.notes, s.SnappedBeat(at), t.line.length, (s.SnappedBeat(at) / t.line.length).Floor);
      VolumeIsHarmless(s, t, t.cc7, at, s');
      StrikesAreKnown(s, t, notes, at, s');
    }
  }

  lemma MasterCuesAreKnown(s: State, level: real, at: real)
    requires s.Valid()
    ensures var (s', cues) := Mastered(s, level, at);
      forall c :: c in cues ==> KnownCue(s', c) && c.MusicCue? && !Strikes(Message(c)) && !PedalDown(Message(c))
  {
    var (s', cues) := Mastered(s, level, at);
    forall c | c in cues ensures KnownCue(s', c) && c.MusicCue? && !Strikes(Message(c)) && !PedalDown(Message(c)) {
      var i :| 0 <= i < |s.order| && c == VolumeCue(s', s.tracks[s.order[i]], s.tracks[s.order[i]].cc7, at);
      assert s.order[i] in s.order;
      hide ValidTrack;
      VolumeIsHarmless(s', s.tracks[s.order[i]], s.tracks[s.order[i]].cc7, at, s');
    }
  }

  lemma PlayOnceCuesAreKnown(s: State, name: string, at: real)
    requires s.Valid() && PlayedOnce(s, name, at).Ok?
    ensures var (s', cues) := PlayedOnce(s, name, at).value;
      forall c :: c in cues ==> KnownCue(s', c)
  {
    hide DropCues;
    hide KnownCue;
    hide VolumeCue;
    hide ValidTrack;
    var (s', cues) := PlayedOnce(s, name, at).value;
    DropCuesAreKnown(s, s.tracks[name], at, s');
    VolumeIsHarmless(s, s'.tracks[name], s'.tracks[name].cc7, s.TimeAt(s'.tracks[name].cursor), s');
  }

  /** Every cue an operation returns belongs to a track, and strikes only keys on that track's record. */
  lemma StepCuesAreKnown(s: State, op: Op)
    requires s.Valid() && Step(s, op).Ok?
    ensures forall c :: c in Step(s, op).value.1 ==> KnownCue(After(s, op), c)
  {
    hide KnownCue;
    hide Enabled;
    hide PlayedOnce;
    hide AdvancedAll;
    hide Mastered;
    hide DropCues;
    match op
    case Enable(name, at) => EnableCuesAreKnown(s, name, at);
    case Disable(name, at) =>
      if name in s.tracks {
        DropCuesAreKnown(s, s.tracks[name], at, After(s, op));
      }
    case PlayOnce(name, at) => PlayOnceCuesAreKnown(s, name, at);
    case SetMaster(level, at) => MasterCuesAreKnown(s, level, at);
    case AdvanceTo(at) => NeedsStart(s, at); AdvanceCuesAreKnown(s, at);
  }

  lemma NeedsStart(s: State, at: real)
    requires s.Valid() && AdvancedAll(s, at).Ok?
    ensures s.t0.Some?
  {
  }

  // ---- the invariant holds throughout -----------------------------------------------------

  /** What a dispatch leaves queued was queued before or is one of the cues. */
  lemma {:induction false} DispatchedItems(q: TQ.Queue<Midi>, cues: seq<Cue>, now: real)
    ensures forall x :: x in Dispatch(q, cues, now).items ==>
      x in q.items || exists c :: c in cues && c.MusicCue? && Message(c) == x.payload
    decreases |cues|
  {
    if cues != [] {
      var front, c := cues[..|cues| - 1], cues[|cues| - 1];
      var q1 := Dispatch(q, front, now);
      DispatchedItems(q, front, now);
      assert c in cues && forall d :: d in front ==> d in cues;
      forall x | x in Dispatch(q, cues, now).items
        ensures x in q.items || exists d :: d in cues && d.MusicCue? && Message(d) == x.payload
      {
        if x in q1.items {
          assert x in q.items || exists d :: d in front && d.MusicCue? && Message(d) == x.payload;
        } else {
          assert c.MusicCue? && Message(c) == x.payload;
        }
      }
    }
  }

  lemma DispatchKeepsKnown(q: TQ.Queue<Midi>, cues: seq<Cue>, now: real, s: State, s': State)
    requires Extends(s, s')
    requires forall x :: x in q.items ==> Known(s, x.payload)
    requires forall c :: c in cues ==> KnownCue(s', c)
    ensures forall x :: x in Dispatch(q, cues, now).items ==> Known(s', x.payload)
  {
    DispatchedItems(q, cues, now);
    hide Dispatch;
    forall x | x in Dispatch(q, cues, now).items ensures Known(s', x.payload) {
      if x in q.items {
        assert Known(s, x.payload);
      } else {
        var c :| c in cues && c.MusicCue? && Message(c) == x.payload;
        assert KnownCue(s', c);
      }
    }
  }

  lemma CallKeepsInv(w: World, op: Op, now: real)
    requires Inv(w)
    ensures Inv(Next(w, Call(op, now)))
  {
    var s, s' := w.sequencer, After(w.sequencer, op);
    if Step(s, op).Ok? {
      var cues := Step(s, op).value.1;
      StepIsValid(s, op);
      StepExtends(s, op);
      StepCuesAreKnown(s, op);
      hide Step;
      hide Dispatch;
      hide Known;
      hide KnownCue;
      DispatchKeepsKnown(w.queue, cues, now, s, s');
      hide Sounding;
    }
  }

  lemma {:induction false} PlayedKeysAreKnown(s: State, v: Synth, ms: seq<Midi>, name: string)
    requires DistinctParts(s) && name in s.tracks
    requires forall m :: m in ms ==> Known(s, m)
    requires Sounding(VoiceAt(v, s.tracks[name].part)) <= s.tracks[name].struck
    ensures Sounding(VoiceAt(PlayAll(v, ms), s.tracks[name].part)) <= s.tracks[name].struck
  {
    if ms != [] {
      var front, m := ms[..|ms| - 1], ms[|ms| - 1];
      PlayedKeysAreKnown(s, v, front, name);
      assert Known(s, m);
      if m.tag != name {
        assert PartOf(m) != s.tracks[name].part;
      }
    }
  }

  lemma DrainKeepsInv(w: World, now: real)
    requires Inv(w)
    ensures Inv(Next(w, Drain(now)))
  {
    var ready := w.queue.Ready(now);
    var ms := TQ.Payloads(ready);
    forall m | m in ms ensures Known(w.sequencer, m) {
      var i :| 0 <= i < |ready| && ready[i].payload == m;
      assert ready[i] in ready;
    }
    forall name | name in w.sequencer.tracks
      ensures Sounding(VoiceAt(PlayAll(w.synth, ms), w.sequencer.tracks[name].part)) <= w.sequencer.tracks[name].struck
    {
      PlayedKeysAreKnown(w.sequencer, w.synth, ms, name);
    }
  }

  lemma NextKeepsInv(w: World, e: Event)
    requires Inv(w)
    ensures Inv(Next(w, e))
  {
    match e
    case Call(op, now) => CallKeepsInv(w, op, now);
    case Drain(now) => DrainKeepsInv(w, now);
  }

  ghost predicate Sane(w: World) { w.sequencer.Valid() && w.queue.Valid() }

  lemma NextIsSane(w: World, e: Event)
    requires Sane(w)
    ensures Sane(Next(w, e))
  {
    match e
    case Call(op, now) => StepIsValid(w.sequencer, op);
    case Drain(_) => hide PlayAll;
  }

  function RunWorld(w: World, es: seq<Event>): World
    requires Sane(w)
    decreases |es|
  {
    if es == [] then w
    else
      hide Next;
      NextIsSane(w, es[0]);
      RunWorld(Next(w, es[0]), es[1..])
  }

  /** Every state reachable by calls and drains keeps its books straight. */
  lemma {:induction false} RunKeepsInv(w: World, es: seq<Event>)
    requires Inv(w)
    ensures Inv(RunWorld(w, es))
    decreases |es|
  {
    hide Next;
    if es != [] {
      NextKeepsInv(w, es[0]);
      RunKeepsInv(Next(w, es[0]), es[1..]);
    }
  }

  /** A world just after `start()`: nothing struck, nothing queued, nothing sounding. */
  ghost predicate JustStarted(w: World) {
    && w.sequencer.Valid() && DistinctParts(w.sequencer)
    && (forall name :: name in w.sequencer.tracks ==> w.sequencer.tracks[name].struck == {})
    && w.queue == TQ.Empty() && forall p: Part :: Silent(VoiceAt(w.synth, p))
  }

  // ---- a dropped track --------------------------------------------------------------------------

  /** The track's voice plays only what can quiet it. */
  predicate Harmless(m: Midi) { !Strikes(m) && !PedalDown(m) }

  predicate IsRelease(m: Midi, tag: string, key: Byte) { m.tag == tag && Releases(m) && m.d1 == key }

  predicate IsPedalUp(m: Midi, tag: string) { m.tag == tag && PedalUp(m) }

  ghost predicate QueuedRelease(w: World, name: string, key: Byte, due: real) {
    exists x :: x in w.queue.items && x.due == due && IsRelease(x.payload, name, key)
  }

  ghost predicate QueuedPedalUp(w: World, name: string, due: real) {
    exists x :: x in w.queue.items && x.due == due && IsPedalUp(x.payload, name)
  }

  /** The track is off, nothing queued can sound it, and it is silent or its releases wait at `due`. */
  ghost predicate Dropped(w: World, name: string, due: real)
    requires name in w.sequencer.tracks
  {
    var t := w.sequencer.tracks[name];
    && !t.on
    && (forall x :: x in w.queue.items && x.payload.tag == name ==> Harmless(x.payload))
    && (Silent(VoiceAt(w.synth, t.part))
        || (QueuedPedalUp(w, name, due) && forall key :: key in t.struck ==> QueuedRelease(w, name, key, due)))
  }

  /** Playing only harmless messages, with a pedal-up and a release of every key among them, silences a voice. */
  lemma {:induction false} ReleasesSilence(s: State, v: Synth, ms: seq<Midi>, name: string)
    requires DistinctParts(s) && name in s.tracks
    requires forall m :: m in ms ==> Known(s, m) && (m.tag == name ==> Harmless(m))
    ensures var before, now := VoiceAt(v, s.tracks[name].part), VoiceAt(PlayAll(v, ms), s.tracks[name].part);
      && (Silent(before) ==> Silent(now))
      && now.held <= before.held
      && (forall key: Byte, m :: m in ms && IsRelease(m, name, key) ==> key !in now.held)
      && (forall m :: m in ms && IsPedalUp(m, name) ==> !now.pedal && now.sustained == {})
  {
    if ms != [] {
      var front, m := ms[..|ms| - 1], ms[|ms| - 1];
      assert m in ms && forall x :: x in front ==> x in ms;
      assert forall x :: x in ms ==> x in front || x == m;
      ReleasesSilence(s, v, front, name);
      assert Known(s, m);
      if m.tag != name {
        assert PartOf(m) != s.tracks[name].part;
      } else {
        QuietingStep(VoiceAt(PlayAll(v, front), s.tracks[name].part), m);
      }
    }
  }

  lemma QuietingStep(v: Voice, m: Midi)
    requires Harmless(m)
    ensures var now := PlayOn(v, m);
      && now.held <= v.held && (Releases(m) ==> m.d1 !in now.held)
      && (PedalUp(m) || (!v.pedal && v.sustained == {}) ==> !now.pedal && now.sustained == {})
  {
  }

  /** What a drain does to a track's voice when nothing queued can sound it. */
  lemma DrainQuiets(w: World, name: string, now: real)
    requires Inv(w) && name in w.sequencer.tracks
    requires forall x :: x in w.queue.items && x.payload.tag == name ==> Harmless(x.payload)
    ensures var v, v' := VoiceAt(w.synth, w.sequencer.tracks[name].part),
                         VoiceAt(Next(w, Drain(now)).synth, w.sequencer.tracks[name].part);
      && (Silent(v) ==> Silent(v'))
      && v'.held <= v.held
      && (forall key: Byte, x :: x in w.queue.items && x.due <= now && IsRelease(x.payload, name, key) ==>
          key !in v'.held)
      && (forall x :: x in w.queue.items && x.due <= now && IsPedalUp(x.payload, name) ==>
          !v'.pedal && v'.sustained == {})
  {
    hide PlayAll;
    hide TQ.Sort;
    hide TQ.Select;
    hide VoiceAt;
    hide IsRelease;
    hide IsPedalUp;
    var ready := w.queue.Ready(now);
    var ms := TQ.Payloads(ready);
    forall m | m in ms ensures Known(w.sequencer, m) && (m.tag == name ==> Harmless(m)) {
      var i :| 0 <= i < |ready| && ready[i].payload == m;
      assert ready[i] in ready;
    }
    ReleasesSilence(w.sequencer, w.synth, ms, name);
    forall x | x in w.queue.items && x.due <= now ensures x.payload in ms {
      Played(ready, x);
    }
    hide TQ.Payloads;
  }

  lemma DueDrainSilences(w: World, name: string, due: real, now: real)
    requires Inv(w) && name in w.sequencer.tracks && Dropped(w, name, due) && due <= now
    ensures Silent(VoiceAt(Next(w, Drain(now)).synth, w.sequencer.tracks[name].part))
  {
    DrainQuiets(w, name, now);
    hide Next;
    var t := w.sequencer.tracks[name];
    var v, v' := VoiceAt(w.synth, t.part), VoiceAt(Next(w, Drain(now)).synth, t.part);
    if !Silent(v) {
      var up :| up in w.queue.items && up.due == due && IsPedalUp(up.payload, name);
      forall key | key in t.struck ensures key !in v'.held {
        assert QueuedRelease(w, name, key, due);
        var off :| off in w.queue.items && off.due == due && IsRelease(off.payload, name, key);
      }
      assert v'.held <= v.held <= Sounding(v) <= t.struck;
      assert v'.held == {};
    }
  }

  lemma DrainKeepsDropped(w: World, name: string, due: real, now: real)
    requires Inv(w) && name in w.sequencer.tracks && Dropped(w, name, due)
    ensures var w' := Next(w, Drain(now));
      Dropped(w', name, due) && (due <= now ==> Silent(VoiceAt(w'.synth, w'.sequencer.tracks[name].part)))
  {
    if due <= now {
      DueDrainSilences(w, name, due, now);
    } else {
      DrainQuiets(w, name, now);
      StillQueued(w, name, due, now);
    }
    hide PlayAll;
    hide Silent;
    hide Harmless;
  }

  lemma Played(ready: seq<TQ.Item<Midi>>, x: TQ.Item<Midi>)
    requires x in ready
    ensures x.payload in TQ.Payloads(ready)
  {
    var i :| 0 <= i < |ready| && ready[i] == x;
    assert TQ.Payloads(ready)[i] == x.payload;
  }

  lemma StillQueued(w: World, name: string, due: real, now: real)
    requires Inv(w) && name in w.sequencer.tracks && now < due
    ensures QueuedPedalUp(w, name, due) ==> QueuedPedalUp(Next(w, Drain(now)), name, due)
    ensures forall key :: QueuedRelease(w, name, key, due) ==> QueuedRelease(Next(w, Drain(now)), name, key, due)
  {
    hide PlayAll;
    var w' := Next(w, Drain(now));
    if QueuedPedalUp(w, name, due) {
      var up :| up in w.queue.items && up.due == due && IsPedalUp(up.payload, name);
      assert up in w'.queue.items;
    }
    forall key | QueuedRelease(w, name, key, due) ensures QueuedRelease(w', name, key, due) {
      var off :| off in w.queue.items && off.due == due && IsRelease(off.payload, name, key);
      assert off in w'.queue.items;
    }
  }

  // ---- what dispatching cues does to the queue ---------------------------------------------------

  predicate PurgesTag(c: Cue, tag: string) { c.MusicPurge? && c.tag == tag }

  lemma {:induction false} DispatchKeeps(q: TQ.Queue<Midi>, cues: seq<Cue>, now: real, x: TQ.Item<Midi>)
    requires x in q.items && forall c :: c in cues ==> !PurgesTag(c, x.payload.tag)
    ensures x in Dispatch(q, cues, now).items
    decreases |cues|
  {
    if cues != [] {
      assert cues[|cues| - 1] in cues;
      DispatchKeeps(q, cues[..|cues| - 1], now, x);
    }
  }

  ghost predicate Queued(q: TQ.Queue<Midi>, m: Midi, due: real) {
    exists x :: x in q.items && x.payload == m && x.due == due
  }

  /** Cues without a purge all end up queued, each at its own (clamped) time. */
  lemma {:induction false} DispatchQueues(q: TQ.Queue<Midi>, cues: seq<Cue>, now: real)
    requires forall c :: c in cues ==> c.MusicCue?
    ensures forall c :: c in cues ==> Queued(Dispatch(q, cues, now), Message(c), TQ.DueAt(Some(c.when), now))
    decreases |cues|
  {
    if cues != [] {
      var front, last := cues[..|cues| - 1], cues[|cues| - 1];
      assert last in cues && forall c :: c in front ==> c in cues;
      DispatchQueues(q, front, now);
      var q1, q2 := Dispatch(q, front, now), Dispatch(q, cues, now);
      var x := TQ.Item(TQ.DueAt(Some(last.when), now), q1.nextOrder, Message(last));
      assert q2.items == q1.items + [x];
      forall c | c in cues ensures Queued(q2, Message(c), TQ.DueAt(Some(c.when), now)) {
        if c in front {
          var y :| y in q1.items && y.payload == Message(c) && y.due == TQ.DueAt(Some(c.when), now);
          assert y in q2.items;
        } else {
          assert c == last && x in q2.items;
        }
      }
    }
  }

  /** Each message is queued byte for byte, under its track's tag, for its time or for now when that has passed. */
  lemma DispatchIsExact(q: TQ.Queue<Midi>, cues: seq<Cue>, now: real)
    requires forall c :: c in cues ==> c.MusicCue?
    ensures forall dev, status, d1, d2, when, tag :: MusicCue(dev, status, d1, d2, when, tag) in cues ==>
      Queued(Dispatch(q, cues, now), Midi(status, d1, d2, tag), if when < now then now else when)
  {
    DispatchQueues(q, cues, now);
    hide Dispatch;
    hide Queued;
    forall dev, status, d1, d2, when, tag | MusicCue(dev, status, d1, d2, when, tag) in cues
      ensures Queued(Dispatch(q, cues, now), Midi(status, d1, d2, tag), if when < now then now else when)
    {
      assert Message(MusicCue(dev, status, d1, d2, when, tag)) == Midi(status, d1, d2, tag);
    }
  }

  lemma {:induction false} DispatchInTwo(q: TQ.Queue<Midi>, a: seq<Cue>, b: seq<Cue>, now: real)
    ensures Dispatch(q, a + b, now) == Dispatch(Dispatch(q, a, now), b, now)
    decreases |b|
  {
    if b == [] {
      assert a + b == a;
    } else {
      assert (a + b)[..|a + b| - 1] == a + b[..|b| - 1];
      DispatchInTwo(q, a, b[..|b| - 1], now);
    }
  }

  /** What `DropCues` sends after its purge. */
  function AfterPurge(s: State, t: Track, at: real): seq<Cue> {
    ReleaseCues(s, t, SortedKeys(t.struck, 256), at) + [CueFor(s, t, 0xB0, 64, 0, at)]
  }

  lemma DropSplits(q: TQ.Queue<Midi>, s: State, t: Track, at: real, now: real)
    ensures Dispatch(q, DropCues(s, t, at), now) ==
            Dispatch(Dispatch(q, [MusicPurge(s.dev, t.name)], now), AfterPurge(s, t, at), now)
  {
    hide Dispatch;
    hide ReleaseCues;
    hide SortedKeys;
    assert DropCues(s, t, at) == [MusicPurge(s.dev, t.name)] + AfterPurge(s, t, at);
    DispatchInTwo(q, [MusicPurge(s.dev, t.name)], AfterPurge(s, t, at), now);
  }

  lemma ReleasesAfterPurge(s: State, t: Track, at: real)
    ensures forall c :: c in AfterPurge(s, t, at) ==> c.MusicCue? && c.when == at && Harmless(Message(c))
    ensures forall key :: key in t.struck ==> CueFor(s, t, 0x80, key, 0, at) in AfterPurge(s, t, at)
    ensures CueFor(s, t, 0xB0, 64, 0, at) in AfterPurge(s, t, at)
  {
    var keys := SortedKeys(t.struck, 256);
    var rest := AfterPurge(s, t, at);
    forall c | c in rest ensures c.MusicCue? && c.when == at && Harmless(Message(c)) {
      HarmlessDrop(s, t, keys, at, c);
    }
    forall key | key in t.struck ensures CueFor(s, t, 0x80, key, 0, at) in rest {
      assert key in keys;
      var i :| 0 <= i < |keys| && keys[i] == key;
      assert rest[i] == CueFor(s, t, 0x80, key, 0, at);
    }
    assert rest[|rest| - 1] == CueFor(s, t, 0xB0, 64, 0, at);
  }

  /** A dropped track's cues in the queue: its purge clears it, then each release waits at the drop's time. */
  lemma DropDispatched(q: TQ.Queue<Midi>, s: State, t: Track, at: real, now: real)
    ensures var q' := Dispatch(q, DropCues(s, t, at), now);
      && (forall x :: x in q'.items && x.payload.tag == t.name ==> Harmless(x.payload))
      && (forall key :: key in t.struck ==>
            Queued(q', Message(CueFor(s, t, 0x80, key, 0, at)), TQ.DueAt(Some(at), now)))
      && Queued(q', Message(CueFor(s, t, 0xB0, 64, 0, at)), TQ.DueAt(Some(at), now))
  {
    var purge := MusicPurge(s.dev, t.name);
    DropSplits(q, s, t, at, now);
    PurgeAlone(q, purge, now);
    ReleasesAfterPurge(s, t, at);
    hide Dispatch;
    hide AfterPurge;
    hide DropCues;
    hide CueFor;
    hide Harmless;
    hide TQ.DueAt;
    var q1, rest := Dispatch(q, [purge], now), AfterPurge(s, t, at);
    DispatchQueues(q1, rest, now);
    DispatchedItems(q1, rest, now);
  }

  lemma PurgeAlone(q: TQ.Queue<Midi>, purge: Cue, now: real)
    requires purge.MusicPurge?
    ensures forall x :: x in Dispatch(q, [purge], now).items ==> x.payload.tag != purge.tag
  {
    assert [purge][..0] == [];
    assert Dispatch(q, [], now) == q;
  }

  lemma HarmlessDrop(s: State, t: Track, keys: seq<Byte>, at: real, c: Cue)
    requires c in ReleaseCues(s, t, keys, at) + [CueFor(s, t, 0xB0, 64, 0, at)]
    ensures c.MusicCue? && c.tag == t.name && c.when == at && Harmless(Message(c))
  {
    if c in ReleaseCues(s, t, keys, at) {
      var i :| 0 <= i < |keys| && c == CueFor(s, t, 0x80, keys[i], 0, at);
    }
  }

  lemma DisableEffect(w: World, name: string, at: real, now: real)
    requires Inv(w) && name in w.sequencer.tracks && w.sequencer.tracks[name].on
    ensures var s, t := w.sequencer, w.sequencer.tracks[name];
      && t.name == name
      && Next(w, Call(Disable(name, at), now)) ==
         World(s.(tracks := s.tracks[name := t.(on := false)]), Dispatch(w.queue, DropCues(s, t, at), now), w.synth)
  {
    hide DropCues;
    hide Dispatch;
    hide ValidTrack;
  }

  /** The dropped track's releases, as the queue holds them. */
  lemma ReleasesQueued(w: World, s: State, t: Track, at: real, due: real)
    requires forall key :: key in t.struck ==> Queued(w.queue, Message(CueFor(s, t, 0x80, key, 0, at)), due)
    requires Queued(w.queue, Message(CueFor(s, t, 0xB0, 64, 0, at)), due)
    ensures QueuedPedalUp(w, t.name, due) && forall key :: key in t.struck ==> QueuedRelease(w, t.name, key, due)
  {
    forall key | key in t.struck ensures QueuedRelease(w, t.name, key, due) {
      var x :| x in w.queue.items && x.payload == Message(CueFor(s, t, 0x80, key, 0, at)) && x.due == due;
      assert IsRelease(x.payload, t.name, key);
    }
    var x :| x in w.queue.items && x.payload == Message(CueFor(s, t, 0xB0, 64, 0, at)) && x.due == due;
    assert IsPedalUp(x.payload, t.name);
  }

  lemma DisableDrops(w: World, name: string, at: real, now: real)
    requires Inv(w) && name in w.sequencer.tracks && w.sequencer.tracks[name].on
    ensures var w' := Next(w, Call(Disable(name, at), now));
      name in w'.sequencer.tracks && Dropped(w', name, TQ.DueAt(Some(at), now))
  {
    var s, t, w' := w.sequencer, w.sequencer.tracks[name], Next(w, Call(Disable(name, at), now));
    DisableEffect(w, name, at, now);
    DropDispatched(w.queue, s, t, at, now);
    hide Inv;
    hide Next;
    hide Dispatch;
    hide DropCues;
    hide CueFor;
    hide TQ.DueAt;
    ReleasesQueued(w', s, t, at, TQ.DueAt(Some(at), now));
  }

  // ---- while a track is off -----------------------------------------------------------------------

  /** Not `name`'s own enable or play_once. */
  predicate NotRestarting(op: Op, name: string) {
    !(op.Enable? && op.name == name) && !(op.PlayOnce? && op.name == name)
  }

  /** A cue that leaves a dropped track's releases queued and adds nothing that sounds it. */
  predicate SparesTrack(c: Cue, name: string) {
    !PurgesTag(c, name) && (c.MusicCue? && c.tag == name ==> Harmless(Message(c)))
  }

  lemma {:induction false} OnlyPlayingTracksEmit(s: State, n: nat, end: real)
    requires s.Valid() && s.t0.Some? && n <= |s.order|
    ensures forall x :: x in TrackByTrack(s, n, end) ==>
      x.cue.MusicCue? && x.cue.tag in s.tracks && s.tracks[x.cue.tag].on
  {
    hide TimedCues;
    hide Unrolled;
    if n > 0 {
      OnlyPlayingTracksEmit(s, n - 1, end);
      NextTrack(s, n - 1, end);
      var t := s.tracks[s.order[n - 1]];
      assert t.name == s.order[n - 1];
      hide ValidTrack;
      CuesCarryTheirTag(s, t, Pending(t, end));
      assert !t.on ==> Pending(t, end) == [];
    }
  }

  lemma SortingKeepsSparing(xs: seq<Timed>, name: string)
    requires forall x :: x in xs ==> SparesTrack(x.cue, name)
    ensures forall c :: c in Cues(SS.SortBy(xs, GridOf)) ==> SparesTrack(c, name)
  {
    hide SparesTrack;
    SS.SortByOrders(xs, GridOf);
    var sorted := SS.SortBy(xs, GridOf);
    hide SS.SortBy;
    forall c | c in Cues(sorted) ensures SparesTrack(c, name) {
      var i :| 0 <= i < |sorted| && sorted[i].cue == c;
      assert sorted[i] in xs;
    }
  }

  lemma AdvanceSpares(s: State, at: real, name: string)
    requires s.Valid() && s.t0.Some? && name in s.tracks && !s.tracks[name].on
    ensures forall c :: c in AdvancedAll(s, at).value.1 ==> SparesTrack(c, name)
  {
    OnlyPlayingTracksEmit(s, |s.order|, AdvanceEnd(s, at));
    hide TrackByTrack;
    hide Harmless;
    SortingKeepsSparing(TrackByTrack(s, |s.order|, AdvanceEnd(s, at)), name);
  }

  lemma OwnTagOnly(s: State, op: Op, name: string)
    requires s.Valid() && Step(s, op).Ok? && (op.Enable? || op.Disable? || op.PlayOnce?) && op.name != name
    ensures forall c :: c in Step(s, op).value.1 ==> c.tag == op.name
  {
    hide Chased;
    hide SortedKeys;
  }

  lemma CuesWhileOff(s: State, op: Op, name: string)
    requires s.Valid() && name in s.tracks && !s.tracks[name].on && NotRestarting(op, name)
    ensures name in After(s, op).tracks && After(s, op).tracks[name] == s.tracks[name]
    ensures Step(s, op).Ok? ==> forall c :: c in Step(s, op).value.1 ==> SparesTrack(c, name)
  {
    hide Enabled;
    hide PlayedOnce;
    hide DropCues;
    hide ValidTrack;
    match op
    case Enable(other, at) =>
      OtherUntouched(s, op, name);
      if Step(s, op).Ok? { OwnTagOnly(s, op, name); }
    case Disable(other, at) =>
      OtherUntouched(s, op, name);
      if Step(s, op).Ok? && other != name { OwnTagOnly(s, op, name); }
    case PlayOnce(other, at) =>
      OtherUntouched(s, op, name);
      if Step(s, op).Ok? { OwnTagOnly(s, op, name); }
    case SetMaster(level, at) => MasterCuesAreKnown(s, level, at);
    case AdvanceTo(at) =>
      if s.t0.Some? { AdvanceSpares(s, at, name); }
  }

  lemma OtherUntouched(s: State, op: Op, name: string)
    requires s.Valid() && name in s.tracks && !s.tracks[name].on && NotRestarting(op, name)
    requires op.Enable? || op.Disable? || op.PlayOnce?
    ensures name in After(s, op).tracks && After(s, op).tracks[name] == s.tracks[name]
  {
    hide Chased;
    hide DropCues;
    hide ValidTrack;
  }

  lemma CallKeepsDropped(w: World, name: string, due: real, op: Op, now: real)
    requires Inv(w) && name in w.sequencer.tracks && Dropped(w, name, due) && NotRestarting(op, name)
    ensures var w' := Next(w, Call(op, now)); name in w'.sequencer.tracks && Dropped(w', name, due)
  {
    var s, w' := w.sequencer, Next(w, Call(op, now));
    CuesWhileOff(s, op, name);
    if Step(s, op).Ok? {
      var cues := Step(s, op).value.1;
      hide Step;
      DispatchedItems(w.queue, cues, now);
      forall x | x in w.queue.items && x.payload.tag == name ensures x in w'.queue.items {
        DispatchKeeps(w.queue, cues, now, x);
      }
      hide Dispatch;
      KeepsQueued(w, w', name, due);
    }
  }

  lemma KeepsQueued(w: World, w': World, name: string, due: real)
    requires forall x :: x in w.queue.items && x.payload.tag == name ==> x in w'.queue.items
    ensures QueuedPedalUp(w, name, due) ==> QueuedPedalUp(w', name, due)
    ensures forall key :: QueuedRelease(w, name, key, due) ==> QueuedRelease(w', name, key, due)
  {
    if QueuedPedalUp(w, name, due) {
      var up :| up in w.queue.items && up.due == due && IsPedalUp(up.payload, name);
      assert up in w'.queue.items;
    }
    forall key | QueuedRelease(w, name, key, due) ensures QueuedRelease(w', name, key, due) {
      var off :| off in w.queue.items && off.due == due && IsRelease(off.payload, name, key);
      assert off in w'.queue.items;
    }
  }

  // ---- no hung note --------------------------------------------------------------------------------

  predicate NeverRestarts(es: seq<Event>, name: string) {
    forall e :: e in es ==> e.Call? ==> NotRestarting(e.op, name)
  }

  predicate DrainsBy(es: seq<Event>, due: real) { exists e :: e in es && e.Drain? && due <= e.now }

  lemma {:induction false} DroppedThroughout(w: World, es: seq<Event>, name: string, due: real)
    requires Inv(w) && name in w.sequencer.tracks && Dropped(w, name, due) && NeverRestarts(es, name)
    ensures var w' := RunWorld(w, es);
      && name in w'.sequencer.tracks && Dropped(w', name, due)
      && w'.sequencer.tracks[name].part == w.sequencer.tracks[name].part
      && (DrainsBy(es, due) || Silent(VoiceAt(w.synth, w.sequencer.tracks[name].part)) ==>
            Silent(VoiceAt(w'.synth, w'.sequencer.tracks[name].part)))
    decreases |es|
  {
    if es != [] {
      var e, rest := es[0], es[1..];
      assert e in es && forall x :: x in rest ==> x in es;
      assert forall x :: x in es ==> x == e || x in rest;
      var w1 := Next(w, e);
      NextKeepsInv(w, e);
      match e {
        case Call(op, now) =>
          CallKeepsDropped(w, name, due, op, now);
          StepExtends(w.sequencer, op);
        case Drain(now) =>
          DrainKeepsDropped(w, name, due, now);
          DrainQuiets(w, name, now);
      }
      hide Next;
      hide Inv;
      hide Dropped;
      DroppedThroughout(w1, rest, name, due);
    }
  }

  /** What any sequencer with its tracks on distinct parts makes of a `start()` with a silent speaker. */
  lemma StartingIsJustStarted(s: State, t0: real)
    requires s.Valid() && DistinctParts(s)
    ensures JustStarted(World(Started(s, t0), TQ.Empty(), map[]))
  {
    StartedIsValid(s, t0);
    hide ValidTrack;
  }

  lemma StartIsInv(w: World)
    requires JustStarted(w)
    ensures Inv(w)
  {
    hide ValidTrack;
  }

  // ---- where a track stands in a run ---------------------------------------------------------

  /**
   Silent with nothing waiting to sound it; on; dropped, with its releases due; or a
   one-shot that switched itself off at its end.
   */
  datatype Stage = Resting | Playing | Owes(due: real) | PlayedOut

  /** What one event makes of a track's stage. */
  function StageAfter(w: World, st: Stage, e: Event, name: string): Stage
    requires Sane(w) && name in w.sequencer.tracks
  {
    match e
    case Drain(now) => if st.Owes? && st.due <= now then Resting else st
    case Call(op, now) =>
      StillThere(w.sequencer, op, name);
      var on, on' := w.sequencer.tracks[name].on, After(w.sequencer, op).tracks[name].on;
      if on' then Playing
      else if on then (if op.Disable? then Owes(TQ.DueAt(Some(op.at), now)) else PlayedOut)
      else st
  }

  function StageAt(w: World, st: Stage, es: seq<Event>, name: string): Stage
    requires Sane(w) && name in w.sequencer.tracks
    decreases |es|
  {
    if es == [] then st
    else
      hide Next;
      hide StageAfter;
      NextIsSane(w, es[0]);
      NextHasTrack(w, es[0], name);
      StageAt(Next(w, es[0]), StageAfter(w, st, es[0], name), es[1..], name)
  }

  /** The stage of a track since `start()`. */
  function StageOf(w: World, es: seq<Event>, name: string): Stage
    requires Sane(w) && name in w.sequencer.tracks
  {
    StageAt(w, if w.sequencer.tracks[name].on then Playing else Resting, es, name)
  }

  lemma NextHasTrack(w: World, e: Event, name: string)
    requires Sane(w) && name in w.sequencer.tracks
    ensures name in Next(w, e).sequencer.tracks
    ensures Next(w, e).sequencer == if e.Call? then After(w.sequencer, e.op) else w.sequencer
  {
    if e.Call? {
      StillThere(w.sequencer, e.op, name);
    }
    hide Dispatch;
    hide PlayAll;
  }

  /** What each stage says of the world. */
  ghost predicate Stands(w: World, name: string, st: Stage)
    requires name in w.sequencer.tracks
  {
    var t := w.sequencer.tracks[name];
    match st
    case Resting => Dropped(w, name, 0.0) && Silent(VoiceAt(w.synth, t.part))
    case Playing => t.on
    case Owes(due) => Dropped(w, name, due)
    case PlayedOut => !t.on && !t.line.loop
  }

  /** A call on a track that is off leaves it off, unless it starts it. */
  lemma OffUnlessStarted(w: World, op: Op, now: real, name: string)
    requires Inv(w) && name in w.sequencer.tracks && !w.sequencer.tracks[name].on && !NotRestarting(op, name)
    ensures name in After(w.sequencer, op).tracks
    ensures After(w.sequencer, op).tracks[name].on || Next(w, Call(op, now)) == w
  {
    hide Chased;
    hide DropCues;
    hide Dispatch;
    hide ValidTrack;
  }

  /** A playing track goes off by its own `disable`, or as a one-shot by itself. */
  lemma HowATrackStops(s: State, op: Op, name: string)
    requires s.Valid() && name in s.tracks && s.tracks[name].on
    ensures name in After(s, op).tracks && After(s, op).tracks[name].line.loop == s.tracks[name].line.loop
    ensures !After(s, op).tracks[name].on ==>
      (op.Disable? && op.name == name) || (op.AdvanceTo? && !s.tracks[name].line.loop)
  {
    hide Chased;
    hide DropCues;
    hide ValidTrack;
    hide Pending;
    hide TrackByTrack;
  }

  lemma OffKeepsLine(s: State, op: Op, name: string)
    requires s.Valid() && name in s.tracks
    ensures name in After(s, op).tracks && After(s, op).tracks[name].line.loop == s.tracks[name].line.loop
  {
    hide Chased;
    hide DropCues;
    hide ValidTrack;
    hide Pending;
    hide TrackByTrack;
  }

  lemma CallStands(w: World, op: Op, now: real, name: string, st: Stage)
    requires Inv(w) && name in w.sequencer.tracks && Stands(w, name, st)
    requires w.sequencer.tracks[name].on ==> st.Playing?
    ensures name in Next(w, Call(op, now)).sequencer.tracks
    ensures Stands(Next(w, Call(op, now)), name, StageAfter(w, st, Call(op, now), name))
  {
    hide Dropped;
    hide Next;
    hide After;
    hide DistinctParts;
    hide Known;
    hide Sounding;
    var s, w' := w.sequencer, Next(w, Call(op, now));
    StillThere(s, op, name);
    NextHasTrack(w, Call(op, now), name);
    OffKeepsLine(s, op, name);
    if s.tracks[name].on {
      HowATrackStops(s, op, name);
      if op.Disable? && op.name == name {
        DisableDrops(w, name, op.at, now);
      }
    } else if NotRestarting(op, name) {
      CuesWhileOff(s, op, name);
      if st.Resting? {
        RestingStays(w, op, now, name);
      } else if st.Owes? {
        CallKeepsDropped(w, name, st.due, op, now);
      }
    } else {
      OffUnlessStarted(w, op, now, name);
    }
  }

  lemma RestingStays(w: World, op: Op, now: real, name: string)
    requires Inv(w) && name in w.sequencer.tracks && Stands(w, name, Resting) && NotRestarting(op, name)
    ensures name in Next(w, Call(op, now)).sequencer.tracks && Stands(Next(w, Call(op, now)), name, Resting)
  {
    CallKeepsDropped(w, name, 0.0, op, now);
    StepExtends(w.sequencer, op);
    hide Dropped;
    hide Dispatch;
    hide Step;
  }

  lemma DrainStands(w: World, now: real, name: string, st: Stage)
    requires Inv(w) && name in w.sequencer.tracks && Stands(w, name, st)
    ensures Stands(Next(w, Drain(now)), name, StageAfter(w, st, Drain(now), name))
  {
    match st
    case Resting =>
      DrainKeepsDropped(w, name, 0.0, now);
      DrainQuiets(w, name, now);
      hide Dropped;
      hide PlayAll;
    case Owes(due) =>
      DrainKeepsDropped(w, name, due, now);
      if due <= now {
        SilentIsDropped(Next(w, Drain(now)), name, due, 0.0);
      }
      hide Dropped;
      hide PlayAll;
    case _ =>
      hide PlayAll;
  }

  lemma SilentIsDropped(w: World, name: string, due: real, other: real)
    requires name in w.sequencer.tracks && Dropped(w, name, due)
    requires Silent(VoiceAt(w.synth, w.sequencer.tracks[name].part))
    ensures Dropped(w, name, other)
  {
  }

  ghost predicate Consistent(w: World, name: string, st: Stage)
    requires name in w.sequencer.tracks
  {
    Stands(w, name, st) && (w.sequencer.tracks[name].on <==> st.Playing?)
  }

  lemma NextStands(w: World, e: Event, name: string, st: Stage)
    requires Inv(w) && name in w.sequencer.tracks && Consistent(w, name, st)
    ensures Inv(Next(w, e)) && name in Next(w, e).sequencer.tracks
    ensures Consistent(Next(w, e), name, StageAfter(w, st, e, name))
  {
    NextKeepsInv(w, e);
    NextHasTrack(w, e, name);
    match e
    case Call(op, now) =>
      CallStands(w, op, now, name, st);
      hide Stands;
      hide Next;
      hide Inv;
    case Drain(now) =>
      DrainStands(w, now, name, st);
      hide Stands;
      hide Next;
      hide Inv;
  }

  lemma {:induction false} RunStands(w: World, es: seq<Event>, name: string, st: Stage)
    requires Inv(w) && name in w.sequencer.tracks && Consistent(w, name, st)
    ensures Inv(RunWorld(w, es)) && name in RunWorld(w, es).sequencer.tracks
    ensures Consistent(RunWorld(w, es), name, StageAt(w, st, es, name))
    decreases |es|
  {
    hide Next;
    hide StageAfter;
    hide Consistent;
    if es != [] {
      NextStands(w, es[0], name, st);
      RunStands(Next(w, es[0]), es[1..], name, StageAfter(w, st, es[0], name));
    }
  }

  lemma StartStands(w: World, name: string)
    requires JustStarted(w) && name in w.sequencer.tracks
    ensures Inv(w) && Consistent(w, name, if w.sequencer.tracks[name].on then Playing else Resting)
  {
    StartIsInv(w);
    hide Inv;
  }

  /**
   What every run since `start()` says of a track by its stage: one that rests is silent
   with its pedal up, a loop is never played out, and only a playing track is on.
   */
  lemma StagesTell(w: World, es: seq<Event>, name: string)
    requires JustStarted(w) && name in w.sequencer.tracks
    ensures var end, st := RunWorld(w, es), StageOf(w, es, name);
      && name in end.sequencer.tracks
      && (st.Resting? ==> Silent(VoiceAt(end.synth, end.sequencer.tracks[name].part)))
      && (st.PlayedOut? ==> !end.sequencer.tracks[name].line.loop)
      && (st.Playing? <==> end.sequencer.tracks[name].on)
  {
    StartStands(w, name);
    RunStands(w, es, name, if w.sequencer.tracks[name].on then Playing else Resting);
    hide Inv;
    hide Dropped;
    hide RunWorld;
    hide StageAt;
    hide JustStarted;
  }

  /**
   No hung note. Take any interleaving `before` of calls and drains since `start()`, with
   tracks on distinct parts; then a `disable` of a track, at `at`, arriving at `now`; then
   any interleaving `after` that does not start that track again. The track may be on, or
   off already: never started, or dropped before. Once `after` drains the queue at or past
   the time of the drop (or its arrival, if later), the track's voice is silent and its
   pedal up. The one stage left out is a one-shot that has played out by itself, whose
   `disable` does nothing: a loop never comes to it (`StagesTell`), and
   `OneShots.PlayedOutEndsAsItsFile` says how it ends.
   */
  lemma NoHungNote(w: World, before: seq<Event>, name: string, at: real, now: real, after: seq<Event>)
    requires JustStarted(w) && name in w.sequencer.tracks && !StageOf(w, before, name).PlayedOut?
    requires NeverRestarts(after, name)
    requires var st := StageOf(w, before, name);
      st.Resting? || DrainsBy(after, if st.Owes? then st.due else TQ.DueAt(Some(at), now))
    ensures Sane(RunWorld(w, before)) && Sane(Next(RunWorld(w, before), Call(Disable(name, at), now)))
    ensures var end := RunWorld(Next(RunWorld(w, before), Call(Disable(name, at), now)), after);
      name in end.sequencer.tracks && Silent(VoiceAt(end.synth, end.sequencer.tracks[name].part))
  {
    StartStands(w, name);
    RunStands(w, before, name, if w.sequencer.tracks[name].on then Playing else Resting);
    var w1, st := RunWorld(w, before), StageOf(w, before, name);
    NextKeepsInv(w1, Call(Disable(name, at), now));
    hide RunWorld;
    hide StageAt;
    if w1.sequencer.tracks[name].on {
      DisableDrops(w1, name, at, now);
      hide Next;
      hide Dropped;
      DroppedThroughout(Next(w1, Call(Disable(name, at), now)), after, name, TQ.DueAt(Some(at), now));
    } else {
      DisableOffIsNothing(w1, name, at, now);
      hide Next;
      hide Dropped;
      DroppedThroughout(w1, after, name, if st.Owes? then st.due else 0.0);
    }
  }

  lemma DisableOffIsNothing(w: World, name: string, at: real, now: real)
    requires Sane(w) && name in w.sequencer.tracks && !w.sequencer.tracks[name].on
    ensures Next(w, Call(Disable(name, at), now)) == w
  {
  }
}
