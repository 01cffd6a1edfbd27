/**
 control/sequencer.py: the look-ahead sequencer.

 `State` is the sequencer as a value, with one function per operation; the class
 `Sequencer` is the source's object, whose loops are proved against those functions.
 The lemmas at the end say what the operations are for: the chase strikes the right
 keys (`ChaseIsExact`), and over any run the advances emit each event of the endless
 loop exactly once (`EmittedExactlyOnce`).
 */
module Sequencers {
  import opened Wrappers
  import opened Rounding
  import opened StableSorting
  import MidiTracks
  import opened MidiFiles
  import opened Pairing
  import opened Windows

  type Byte = MidiTracks.Byte

  /** The channel nibble that selects a Room role's part. */
  type Part = p: int | 0 <= p < 16

  const DEFAULT_CC7: Byte := 100
  const CHASE_MIN_BEATS := 1.0

  datatype Cue =
    | MusicCue(dev: string, status: Byte, d1: Byte, d2: Byte, when: real, tag: string)
    | MusicPurge(dev: string, tag: string)

  datatype Track = Track(
    name: string, part: Part, line: Timeline, notes: seq<Note>, initialCc7: Byte,
    on: bool, cursor: real, cc7: Byte, struck: set<Byte>)

  ghost predicate ValidTrack(t: Track) {
    && ValidTimeline(t.line)
    && (t.line.loop ==> forall n :: n in t.notes ==> 0.0 <= n.on < t.line.length)
    && (!t.line.loop ==> forall e :: e in t.line.events ==> e.beat <= t.line.length)
  }

  function BeatOf(t0: real, bpm: real, t: real): real { (t - t0) * bpm / 60.0 }

  function TimeOf(t0: real, bpm: real, beat: real): real
    requires bpm != 0.0
  {
    t0 + beat * 60.0 / bpm
  }

  /** The sequencer; `order` is the order the tracks were added in. */
  datatype State = State(
    bpm: real, dev: string, lookahead: real, master: real, t0: Option<real>,
    order: seq<string>, tracks: map<string, Track>)
  {
    ghost predicate Valid() {
      && bpm > 0.0
      && (forall i, j :: 0 <= i < j < |order| ==> order[i] != order[j])
      && (forall name :: name in order <==> name in tracks)
      && forall name :: name in tracks ==> tracks[name].name == name && ValidTrack(tracks[name])
    }

    function TimeAt(beat: real): real
      requires t0.Some? && bpm != 0.0
    {
      TimeOf(t0.value, bpm, beat)
    }

    function SnappedBeat(t: real): real
      requires t0.Some?
    {
      Snap(BeatOf(t0.value, bpm, t))
    }
  }

  // ---- cues -------------------------------------------------------------------------

  function CueFor(s: State, t: Track, status: Byte, d1: Byte, d2: Byte, when: real): Cue {
    MusicCue(s.dev, MidiTracks.HighNibble(status) + t.part, d1, d2, when, t.name)
  }

  function ScaledVolume(cc7: Byte, master: real): Byte {
    var v := Round(cc7 as real * master);
    if v > 127 then 127 else if v < 0 then 0 else v
  }

  function VolumeCue(s: State, t: Track, cc7: Byte, when: real): Cue {
    CueFor(s, t, 0xB0, 7, ScaledVolume(cc7, s.master), when)
  }

  predicate IsVolume(e: MidiEvent) { MidiTracks.HighNibble(e.status) == 0xB0 && e.d1 == 7 }

  /** What one event becomes at `beat`: its own bytes, or its volume under the master's. */
  function EventCue(s: State, t: Track, e: MidiEvent, beat: real): Cue
    requires s.t0.Some? && s.bpm != 0.0
  {
    if IsVolume(e) then VolumeCue(s, t, e.d2, s.TimeAt(beat))
    else CueFor(s, t, e.status, e.d1, e.d2, s.TimeAt(beat))
  }

  // ---- enable --------------------------------------------------------------------------

  /** Iteration `k` of `n` began strictly before `b` and sounds at least one beat past it. */
  predicate Held(n: Note, k: int, b: real, length: real) {
    && k >= 0
    && k as real * length + n.on < b
    && k as real * length + n.off - b >= CHASE_MIN_BEATS
  }

  function Keys(notes: seq<Note>): set<Byte> { set n | n in notes :: n.key }

  /** The notes re-struck at `b`: the first of each key held in iteration `k` or the one before. */
  function Chased(notes: seq<Note>, b: real, length: real, k: int): seq<Note> {
    if notes == [] then []
    else
      var before, n := Chased(notes[..|notes| - 1], b, length, k), notes[|notes| - 1];
      if n.key !in Keys(before) && (Held(n, k, b, length) || Held(n, k - 1, b, length))
      then before + [n] else before
  }

  function StrikeCues(s: State, t: Track, notes: seq<Note>, at: real): seq<Cue> {
    seq(|notes|, i requires 0 <= i < |notes| =>
      CueFor(s, t, notes[i].status, notes[i].key, notes[i].velocity, at))
  }

  function Enabled(s: State, name: string, at: real): Result<(State, seq<Cue>)>
    requires name in s.tracks ==> (s.tracks[name].line.loop ==> s.tracks[name].line.length >= 1.0)
  {
    if name !in s.tracks || !s.tracks[name].line.loop then Err
    else if s.tracks[name].on then Ok((s, []))
    else if s.t0.None? then Err
    else
      var t := s.tracks[name];
      var b := s.SnappedBeat(at);
      var chased := Chased(t.notes, b, t.line.length, (b / t.line.length).Floor);
      Ok((s.(tracks := s.tracks[name := t.(on := true, cursor := b, struck := t.struck + Keys(chased))]),
          [VolumeCue(s, t, t.cc7, at)] + StrikeCues(s, t, chased, at)))
  }

  // ---- disable -------------------------------------------------------------------------

  /** The keys of a set below `n`, ascending. */
  function SortedKeys(keys: set<Byte>, n: nat): (r: seq<Byte>)
    requires n <= 256
    ensures forall k :: k in r <==> k in keys && k < n
  {
    if n == 0 then []
    else SortedKeys(keys, n - 1) + if n - 1 in keys then [n - 1] else []
  }

  function ReleaseCues(s: State, t: Track, keys: seq<Byte>, at: real): seq<Cue> {
    seq(|keys|, i requires 0 <= i < |keys| => CueFor(s, t, 0x80, keys[i], 0, at))
  }

  /** Purge the track's queued cues, then release every key struck since start and the pedal. */
  function DropCues(s: State, t: Track, at: real): seq<Cue> {
    [MusicPurge(s.dev, t.name)] + ReleaseCues(s, t, SortedKeys(t.struck, 256), at)
      + [CueFor(s, t, 0xB0, 64, 0, at)]
  }

  function Disabled(s: State, name: string, at: real): Result<(State, seq<Cue>)> {
    if name !in s.tracks then Err
    else if !s.tracks[name].on then Ok((s, []))
    else Ok((s.(tracks := s.tracks[name := s.tracks[name].(on := false)]), DropCues(s, s.tracks[name], at)))
  }

  // ---- play_once -------------------------------------------------------------------------

  function Ceiling(x: real): int { if x.Floor as real == x then x.Floor else x.Floor + 1 }

  function PlayedOnce(s: State, name: string, at: real): Result<(State, seq<Cue>)>
    requires s.bpm != 0.0
  {
    if name !in s.tracks || s.tracks[name].line.loop || s.t0.None? then Err
    else
      var t := s.tracks[name];
      var start := Ceiling(s.SnappedBeat(at)) as real;
      var t' := t.(on := true, line := t.line.(origin := start), cursor := start, cc7 := t.initialCc7);
      Ok((s.(tracks := s.tracks[name := t']),
          (if t.on then DropCues(s, t, at) else []) + [VolumeCue(s, t', t'.cc7, s.TimeAt(start))]))
  }

  // ---- set_master --------------------------------------------------------------------------

  function VolumeCues(s: State, order: seq<string>, at: real): seq<Cue>
    requires forall name :: name in order ==> name in s.tracks
  {
    seq(|order|, i requires 0 <= i < |order| =>
      VolumeCue(s, s.tracks[order[i]], s.tracks[order[i]].cc7, at))
  }

  function Mastered(s: State, level: real, at: real): (State, seq<Cue>)
    requires forall name :: name in s.order ==> name in s.tracks
  {
    var s' := s.(master := level);
    (s', VolumeCues(s', s'.order, at))
  }

  // ---- advance -------------------------------------------------------------------------------

  /** The occurrences a track has not emitted yet, up to grid beat `end`. */
  function Pending(t: Track, end: real): seq<Occurrence>
    requires ValidTrack(t)
  {
    if t.on && t.cursor < end then Unrolled(t.line, t.cursor, end) else []
  }

  /** A track's bookkeeping over the occurrences it emits. */
  function AfterEmitting(t: Track, os: seq<Occurrence>): (r: Track)
    ensures r == t.(cc7 := r.cc7, struck := r.struck)
    ensures t.struck <= r.struck
  {
    if os == [] then t
    else
      var r, i := AfterEmitting(t, os[..|os| - 1]), os[|os| - 1].i;
      if i >= |t.line.events| then r
      else
        var e := t.line.events[i];
        var v := if IsVolume(e) then r.(cc7 := e.d2) else r;
        if IsNoteOn(e) then v.(struck := v.struck + {e.d1}) else v
  }

  function Advanced(t: Track, end: real, now: real): Track
    requires ValidTrack(t)
  {
    if !t.on then t
    else
      var r := AfterEmitting(t, Pending(t, end)).(cursor := if t.cursor < end then end else t.cursor);
      var last := t.line.origin + t.line.length;
      if !t.line.loop && r.cursor > last && now > last then r.(on := false) else r
  }

  datatype Timed = Timed(grid: real, cue: Cue)

  function GridOf(x: Timed): real { x.grid }

  function TimedCues(s: State, t: Track, os: seq<Occurrence>): (r: seq<Timed>)
    requires s.t0.Some? && s.bpm != 0.0
    requires forall o :: o in os ==> o.i < |t.line.events|
    ensures |r| == |os|
  {
    seq(|os|, x requires 0 <= x < |os| =>
      assert os[x] in os;
      var g := Grid(t.line, os[x]);
      Timed(g, EventCue(s, t, t.line.events[os[x].i], g)))
  }

  lemma PendingExist(t: Track, end: real)
    requires ValidTrack(t)
    ensures forall o :: o in Pending(t, end) ==> o.i < |t.line.events|
  {
    UnrolledIsWindow(t.line, t.cursor, end);
  }

  /** What the first `n` tracks emit, track by track. */
  function TrackByTrack(s: State, n: nat, end: real): seq<Timed>
    requires s.Valid() && s.t0.Some? && n <= |s.order|
  {
    if n == 0 then []
    else
      assert s.order[n - 1] in s.order;
      var t := s.tracks[s.order[n - 1]];
      PendingExist(t, end);
      TrackByTrack(s, n - 1, end) + TimedCues(s, t, Pending(t, end))
  }

  lemma NextTrack(s: State, n: nat, end: real)
    requires s.Valid() && s.t0.Some? && n < |s.order|
    ensures s.order[n] in s.tracks && ValidTrack(s.tracks[s.order[n]])
    ensures var t := s.tracks[s.order[n]];
      && (forall o :: o in Pending(t, end) ==> o.i < |t.line.events|)
      && TrackByTrack(s, n + 1, end) == TrackByTrack(s, n, end) + TimedCues(s, t, Pending(t, end))
  {
    hide Pending;
    hide TimedCues;
    assert s.order[n] in s.order;
    PendingExist(s.tracks[s.order[n]], end);
  }

  function Cues(xs: seq<Timed>): seq<Cue> {
    seq(|xs|, i requires 0 <= i < |xs| => xs[i].cue)
  }

  function AdvanceEnd(s: State, at: real): real
    requires s.t0.Some?
  {
    s.SnappedBeat(at + s.lookahead)
  }

  function AdvancedAll(s: State, at: real): Result<(State, seq<Cue>)>
    requires s.Valid()
  {
    if s.t0.None? then Err
    else
      var end, now := AdvanceEnd(s, at), s.SnappedBeat(at);
      Ok((s.(tracks := map name | name in s.tracks :: Advanced(s.tracks[name], end, now)),
          Cues(SortBy(TrackByTrack(s, |s.order|, end), GridOf))))
  }

  // ---- start, add_track --------------------------------------------------------------------------

  function Started(s: State, t0: real): State {
    s.(t0 := Some(t0),
       tracks := map name | name in s.tracks :: Reset(s.tracks[name]))
  }

  /** Off, with nothing struck and the file's own opening volume. */
  function Reset(t: Track): Track { t.(on := false, struck := {}, cc7 := t.initialCc7) }

  /** After `start` has gone through the first `n` tracks. */
  ghost predicate ResetSoFar(s: State, tracks: map<string, Track>, n: nat)
    requires s.Valid()
  {
    && tracks.Keys == s.tracks.Keys && n <= |s.order|
    && (forall j :: 0 <= j < |s.order| ==> s.order[j] in tracks)
    && (forall j :: 0 <= j < n ==> tracks[s.order[j]] == Reset(s.tracks[s.order[j]]))
    && (forall j :: n <= j < |s.order| ==> tracks[s.order[j]] == s.tracks[s.order[j]])
  }

  lemma NoneReset(s: State)
    requires s.Valid()
    ensures ResetSoFar(s, s.tracks, 0)
  {
    hide ValidTrack;
  }

  lemma ResetNext(s: State, tracks: map<string, Track>, n: nat)
    requires s.Valid() && n < |s.order| && ResetSoFar(s, tracks, n)
    ensures s.order[n] in tracks && tracks[s.order[n]] == s.tracks[s.order[n]]
    ensures ResetSoFar(s, tracks[s.order[n] := Reset(s.tracks[s.order[n]])], n + 1)
  {
    hide ValidTrack;
    hide Reset;
  }

  lemma ResetAll(s: State, tracks: map<string, Track>)
    requires s.Valid() && ResetSoFar(s, tracks, |s.order|)
    ensures tracks == map name | name in s.tracks :: Reset(s.tracks[name])
  {
    hide ValidTrack;
    hide Reset;
    forall name | name in s.tracks ensures name in tracks && tracks[name] == Reset(s.tracks[name]) {
      assert name in s.order;
      var j :| 0 <= j < |s.order| && s.order[j] == name;
    }
  }

  lemma StartedIsValid(s: State, t0: real)
    requires s.Valid()
    ensures Started(s, t0).Valid()
  {
    hide ValidTimeline;
  }

  function FirstVolume(es: seq<MidiEvent>): Byte {
    if es == [] then DEFAULT_CC7 else if IsVolume(es[0]) then es[0].d2 else FirstVolume(es[1..])
  }

  /** A one-shot without its lead-in: what comes before `skip` is dropped, the rest moved down. */
  function Skipped(es: seq<MidiEvent>, skip: real): seq<MidiEvent> {
    if es == [] then []
    else
      var e := es[|es| - 1];
      Skipped(es[..|es| - 1], skip) + if e.beat >= skip then [e.(beat := e.beat - skip)] else []
  }

  function NewTimeline(midi: MidiFile, loop: bool, skip: real): Timeline {
    if loop then
      var length := LoopBeats(midi.endBeat, 4);
      Timeline(true, 0.0, length, Trim(midi.events, length))
    else
      var es := Skipped(midi.events, skip);
      Timeline(false, 0.0, if es == [] then 0.0 else es[|es| - 1].beat, es)
  }

  function NewTrack(name: string, midi: MidiFile, part: Part, loop: bool, skip: real): Track {
    var line := NewTimeline(midi, loop, skip);
    var cc7 := FirstVolume(line.events);
    Track(name, part, line, Pair(line.events).notes, cc7, false, 0.0, cc7, {})
  }

  function WithTrack(s: State, t: Track): State {
    s.(order := if t.name in s.tracks then s.order else s.order + [t.name], tracks := s.tracks[t.name := t])
  }

  lemma {:induction false} SkippedInTime(es: seq<MidiEvent>, skip: real, last: real)
    requires forall e :: e in es ==> e.beat <= last
    ensures forall x :: x in Skipped(es, skip) ==> x.beat <= last - skip
  {
    if es != [] {
      assert es == es[..|es| - 1] + [es[|es| - 1]];
      SkippedInTime(es[..|es| - 1], skip, last);
    }
  }

  lemma SkippedLast(es: seq<MidiEvent>, skip: real)
    requires es != []
    ensures var e, before := es[|es| - 1], Skipped(es[..|es| - 1], skip);
      Skipped(es, skip) == if e.beat >= skip then before + [e.(beat := e.beat - skip)] else before
  {
    var before := Skipped(es[..|es| - 1], skip);
    assert before + [] == before;
  }

  lemma {:induction false} SkippedWellFormed(es: seq<MidiEvent>, skip: real)
    requires WellFormedEvents(es)
    ensures WellFormedEvents(Skipped(es, skip))
  {
    if es != [] {
      hide Skipped;
      hide WellFormedEvents;
      FrontWellFormed(es);
      SkippedWellFormed(es[..|es| - 1], skip);
      SkippedOneMore(es, skip);
    }
  }

  lemma SkippedOneMore(es: seq<MidiEvent>, skip: real)
    requires WellFormedEvents(es) && es != [] && WellFormedEvents(Skipped(es[..|es| - 1], skip))
    ensures WellFormedEvents(Skipped(es, skip))
  {
    hide Skipped;
    hide WellFormedEvents;
    var front, e := es[..|es| - 1], es[|es| - 1];
    SkippedLast(es, skip);
    if e.beat >= skip {
      FrontWellFormed(es);
      SkippedInTime(front, skip, e.beat);
      OneAlone(es, e.(beat := e.beat - skip));
      OneLater(Skipped(front, skip), e.(beat := e.beat - skip));
    }
  }

  lemma FrontWellFormed(es: seq<MidiEvent>)
    requires WellFormedEvents(es) && es != []
    ensures WellFormedEvents(es[..|es| - 1]) && forall x :: x in es[..|es| - 1] ==> x.beat <= es[|es| - 1].beat
  {
  }

  lemma OneAlone(es: seq<MidiEvent>, later: MidiEvent)
    requires WellFormedEvents(es) && es != [] && later == es[|es| - 1].(beat := later.beat) && 0.0 <= later.beat
    ensures WellFormedEvents([later])
  {
    assert [later][0] == later;
  }

  lemma OneLater(es: seq<MidiEvent>, e: MidiEvent)
    requires WellFormedEvents(es) && WellFormedEvents([e]) && forall x :: x in es ==> x.beat <= e.beat
    ensures WellFormedEvents(es + [e])
  {
    assert [e][0] == e;
    forall i | 0 <= i < |es| ensures es[i].beat <= e.beat {
      assert es[i] in es;
    }
  }

  lemma LastIsLatest(es: seq<MidiEvent>)
    requires WellFormedEvents(es) && es != []
    ensures forall e :: e in es ==> e.beat <= es[|es| - 1].beat
  {
  }

  lemma NewTrackIsValid(name: string, midi: MidiFile, part: Part, loop: bool, skip: real)
    requires WellFormedEvents(midi.events)
    ensures ValidTrack(NewTrack(name, midi, part, loop, skip))
  {
    var t := NewTrack(name, midi, part, loop, skip);
    if loop {
      TrimKeepsOrder(midi.events, t.line.length);
      NotesComeFromEvents(t.line.events);
      forall n | n in t.notes ensures 0.0 <= n.on < t.line.length {
        var i: nat, j: nat :| ComesFrom(n, t.line.events, i, j);
        assert t.line.events[i] in t.line.events;
      }
      LoopLength(midi.endBeat);
    } else {
      SkippedWellFormed(midi.events, skip);
      if t.line.events != [] {
        LastIsLatest(t.line.events);
      }
    }
  }

  lemma LoopLength(endBeat: real)
    ensures LoopBeats(endBeat, 4) >= 4.0
  {
    var bars: nat :| LoopBeats(endBeat, 4) == BarBeats(bars, 4) && bars >= 1 &&
      (bars == 1 || BarBeats(bars - 1, 4) < endBeat);
  }

  // ---- one operation after another --------------------------------------------------------------

  datatype Op =
    | Enable(name: string, at: real)
    | Disable(name: string, at: real)
    | PlayOnce(name: string, at: real)
    | SetMaster(level: real, at: real)
    | AdvanceTo(at: real)

  /** One operation; Err is a raise, and leaves the state as it was. */
  function Step(s: State, op: Op): Result<(State, seq<Cue>)>
    requires s.Valid()
  {
    match op
    case Enable(name, at) => Enabled(s, name, at)
    case Disable(name, at) => Disabled(s, name, at)
    case PlayOnce(name, at) => PlayedOnce(s, name, at)
    case SetMaster(level, at) => Ok(Mastered(s, level, at))
    case AdvanceTo(at) => AdvancedAll(s, at)
  }

  function After(s: State, op: Op): State
    requires s.Valid()
  {
    if Step(s, op).Ok? then Step(s, op).value.0 else s
  }

  /** Changing what plays, or where from, never invalidates a track. */
  lemma TrackUpdateIsValid(s: State, name: string, t: Track)
    requires s.Valid() && name in s.tracks
    requires t.name == name && t.notes == s.tracks[name].notes
    requires t.line == s.tracks[name].line.(origin := t.line.origin)
    ensures s.(tracks := s.tracks[name := t]).Valid()
  {
  }

  lemma AdvanceIsValid(s: State, at: real)
    requires s.Valid() && AdvancedAll(s, at).Ok?
    ensures AdvancedAll(s, at).value.0.Valid()
  {
    hide Pending;
    hide TrackByTrack;
    hide ValidTimeline;
    var s' := AdvancedAll(s, at).value.0;
    forall name | name in s'.tracks ensures s'.tracks[name].name == name && ValidTrack(s'.tracks[name]) {
      assert ValidTrack(s.tracks[name]);
    }
  }

  lemma StepIsValid(s: State, op: Op)
    requires s.Valid()
    ensures After(s, op).Valid()
  {
    hide Chased;
    hide AdvancedAll;
    hide ValidTrack;
    match op
    case Enable(name, _) =>
      if name in s.tracks {
        TrackUpdateIsValid(s, name, After(s, op).tracks[name]);
      }
    case Disable(name, _) =>
      if name in s.tracks {
        TrackUpdateIsValid(s, name, After(s, op).tracks[name]);
      }
    case PlayOnce(name, _) =>
      if name in s.tracks {
        TrackUpdateIsValid(s, name, After(s, op).tracks[name]);
      }
    case SetMaster(_, _) =>
    case AdvanceTo(at) =>
      if AdvancedAll(s, at).Ok? {
        AdvanceIsValid(s, at);
      }
  }

  // ---- the class -----------------------------------------------------------------------------------

  class Sequencer {
    var bpm: real
    var dev: string
    var lookahead: real
    var master: real
    var t0: Option<real>
    var order: seq<string>
    var tracks: map<string, Track>

    ghost function View(): State
      reads this
    {
      State(bpm, dev, lookahead, master, t0, order, tracks)
    }

    ghost predicate Valid()
      reads this
    {
      View().Valid()
    }

    /** `_snap(beat_at(t))`. */
    function GridBeat(t: real): (r: real)
      requires t0.Some?
      reads this
      ensures r == View().SnappedBeat(t)
    {
      Snap(BeatOf(t0.value, bpm, t))
    }

    /** `time_at`. */
    function GridTime(beat: real): (r: real)
      requires t0.Some? && bpm != 0.0
      reads this
      ensures r == View().TimeAt(beat)
    {
      TimeOf(t0.value, bpm, beat)
    }

    /** `_cue`. */
    function MakeCue(t: Track, status: Byte, d1: Byte, d2: Byte, when: real): (r: Cue)
      reads this
      ensures r == CueFor(View(), t, status, d1, d2, when)
    {
      MusicCue(dev, MidiTracks.HighNibble(status) + t.part, d1, d2, when, t.name)
    }

    /** `_cc7_cue`. */
    function MakeVolume(t: Track, cc7: Byte, when: real): (r: Cue)
      reads this
      ensures r == VolumeCue(View(), t, cc7, when)
    {
      MakeCue(t, 0xB0, 7, ScaledVolume(cc7, master), when)
    }

    constructor (bpm: real, dev: string, lookahead: real)
      requires bpm > 0.0
      ensures Valid() && View() == State(bpm, dev, lookahead, 1.0, None, [], map[])
    {
      this.bpm, this.dev, this.lookahead, master, t0, order, tracks := bpm, dev, lookahead, 1.0, None, [], map[];
    }

    /** The timeline `add_track` builds: trimmed for a loop, without its lead-in for a one-shot. */
    static method MakeTimeline(midi: MidiFile, loop: bool, skip: real) returns (line: Timeline)
      ensures line == NewTimeline(midi, loop, skip)
    {
      hide LoopBeats;
      hide Trim;
      if loop {
        var length := LoopBeats(midi.endBeat, 4);
        var events := DropStruckAtEnd(midi.events, length);
        return Timeline(true, 0.0, length, events);
      }
      var events := [];
      for i := 0 to |midi.events|
        invariant events == Skipped(midi.events[..i], skip)
      {
        assert midi.events[..i + 1][..i] == midi.events[..i];
        var e := midi.events[i];
        if e.beat >= skip {
          events := events + [e.(beat := e.beat - skip)];
        }
      }
      assert midi.events[..|midi.events|] == midi.events;
      line := Timeline(false, 0.0, if events == [] then 0.0 else events[|events| - 1].beat, events);
    }

    /** False is the source's ValueError: a loop takes no `skip_beats`. */
    method AddTrack(name: string, midi: MidiFile, part: Part, loop: bool, skip: real) returns (ok: bool)
      requires Valid() && WellFormedEvents(midi.events)
      modifies this
      ensures Valid() && ok == !(loop && skip != 0.0)
      ensures View() == if ok then WithTrack(old(View()), NewTrack(name, midi, part, loop, skip)) else old(View())
    {
      hide ValidTrack;
      hide NewTimeline;
      hide WellFormedEvents;
      hide FirstVolume;
      if loop && skip != 0.0 {
        return false;
      }
      NewTrackIsValid(name, midi, part, loop, skip);
      var line := MakeTimeline(midi, loop, skip);
      var notes := PairNotes(line.events);
      var cc7 := FirstVolume(line.events);
      if name !in tracks {
        order := order + [name];
      }
      tracks := tracks[name := Track(name, part, line, notes, cc7, false, 0.0, cc7, {})];
      ok := true;
    }

    method Start(t0: real)
      requires Valid()
      modifies this
      ensures Valid() && View() == Started(old(View()), t0)
    {
      hide ValidTrack;
      hide ResetSoFar;
      ghost var s := View();
      NoneReset(s);
      this.t0 := Some(t0);
      for n := 0 to |order|
        invariant View() == s.(t0 := Some(t0), tracks := tracks)
        invariant ResetSoFar(s, tracks, n)
      {
        ResetNext(s, tracks, n);
        var t := tracks[order[n]];
        tracks := tracks[order[n] := t.(on := false, struck := {}, cc7 := t.initialCc7)];
      }
      ResetAll(s, tracks);
      StartedIsValid(s, t0);
    }

    /** `enable`'s inner loop: the note is under way in this iteration or the one before. */
    method UnderWay(n: Note, k: int, b: real, length: real) returns (held: bool)
      ensures held == (Held(n, k, b, length) || Held(n, k - 1, b, length))
    {
      for d := 0 to 2
        invariant d > 0 ==> !Held(n, k, b, length)
        invariant d > 1 ==> !Held(n, k - 1, b, length)
      {
        var kk := k - d;
        var base := kk as real * length;
        if kk >= 0 && base + n.on < b && base + n.off - b >= CHASE_MIN_BEATS {
          assert Held(n, k - d, b, length);
          return true;
        }
      }
      held := false;
    }

    /** `enable`'s loop: the notes under way at `b`, re-struck at `at`. */
    method Chase(t: Track, b: real, at: real) returns (out: seq<Cue>, chased: set<Byte>)
      requires t.line.length != 0.0
      ensures var notes := Chased(t.notes, b, t.line.length, (b / t.line.length).Floor);
        out == StrikeCues(View(), t, notes, at) && chased == Keys(notes)
    {
      var length := t.line.length;
      var k := (b / length).Floor;
      ghost var done: seq<Note> := [];
      out, chased := [], {};
      for i := 0 to |t.notes|
        invariant done == Chased(t.notes[..i], b, length, k) && chased == Keys(done)
        invariant out == StrikeCues(View(), t, done, at)
      {
        assert t.notes[..i + 1][..i] == t.notes[..i];
        var n := t.notes[i];
        var strikes := UnderWay(n, k, b, length);
        if n.key !in chased && strikes {
          chased := chased + {n.key};
          out := out + [MakeCue(t, n.status, n.key, n.velocity, at)];
          done := done + [n];
        }
      }
      assert t.notes[..|t.notes|] == t.notes;
    }

    method Enable(name: string, at: real) returns (r: Result<seq<Cue>>)
      requires Valid()
      modifies this
      ensures Valid()
      ensures match Enabled(old(View()), name, at)
              case Err => r == Err && View() == old(View())
              case Ok((s, cues)) => r == Ok(cues) && View() == s
    {
      hide Chased;
      hide StrikeCues;
      assert name in tracks ==> ValidTrack(tracks[name]);
      assert name in tracks && tracks[name].line.loop ==> tracks[name].line.length >= 1.0;
      hide ValidTrack;
      if name !in tracks || !tracks[name].line.loop {
        return Err;
      }
      if tracks[name].on {
        return Ok([]);
      }
      if t0.None? {
        return Err;
      }
      var t := tracks[name];
      ghost var s := View();
      var b := GridBeat(at);
      var out := [MakeVolume(t, t.cc7, at)];
      var strikes, chased := Chase(t, b, at);
      tracks := tracks[name := t.(on := true, cursor := b, struck := t.struck + chased)];
      r := Ok(out + strikes);
      TrackUpdateIsValid(s, name, tracks[name]);
    }

    method Disable(name: string, at: real) returns (r: Result<seq<Cue>>)
      requires Valid()
      modifies this
      ensures Valid()
      ensures match Disabled(old(View()), name, at)
              case Err => r == Err && View() == old(View())
              case Ok((s, cues)) => r == Ok(cues) && View() == s
    {
      hide ValidTrack;
      if name !in tracks {
        return Err;
      }
      ghost var s := View();
      var t := tracks[name];
      if !t.on {
        return Ok([]);
      }
      var out := [MusicPurge(dev, name)];
      var keys := SortedKeys(t.struck, 256);
      for i := 0 to |keys|
        invariant View() == s
        invariant out == [MusicPurge(dev, t.name)] + ReleaseCues(s, t, keys[..i], at)
      {
        out := out + [MakeCue(t, 0x80, keys[i], 0, at)];
      }
      assert keys[..|keys|] == keys;
      out := out + [MakeCue(t, 0xB0, 64, 0, at)];
      assert out == DropCues(s, t, at);
      tracks := tracks[name := t.(on := false)];
      TrackUpdateIsValid(s, name, tracks[name]);
      r := Ok(out);
    }

    method PlayOnce(name: string, at: real) returns (r: Result<seq<Cue>>)
      requires Valid()
      modifies this
      ensures Valid()
      ensures match PlayedOnce(old(View()), name, at)
              case Err => r == Err && View() == old(View())
              case Ok((s, cues)) => r == Ok(cues) && View() == s
    {
      hide ValidTrack;
      hide DropCues;
      hide Snap;
      hide TimeOf;
      ghost var s := View();
      if name !in tracks || tracks[name].line.loop || t0.None? {
        return Err;
      }
      var out := [];
      if tracks[name].on {
        var dropped := Disable(name, at);
        out := dropped.value;
      }
      var t := tracks[name];
      var start := Ceiling(GridBeat(at)) as real;
      tracks := tracks[name := t.(on := true, line := t.line.(origin := start), cursor := start, cc7 := t.initialCc7)];
      assert tracks == s.tracks[name := tracks[name]];
      TrackUpdateIsValid(s, name, tracks[name]);
      out := out + [MakeVolume(tracks[name], t.initialCc7, GridTime(start))];
      r := Ok(out);
    }

    method SetMaster(level: real, at: real) returns (out: seq<Cue>)
      requires Valid()
      modifies this
      ensures Valid() && (View(), out) == Mastered(old(View()), level, at)
    {
      master := level;
      out := [];
      for i := 0 to |order|
        invariant View() == old(View()).(master := level)
        invariant out == VolumeCues(View(), order[..i], at)
      {
        assert order[i] in order;
        var t := tracks[order[i]];
        out := out + [MakeVolume(t, t.cc7, at)];
      }
      assert order[..|order|] == order;
    }

    /** One track's share of a tick: its cues with their grid beats, and its new bookkeeping. */
    method Emit(t: Track, os: seq<Occurrence>) returns (cues: seq<Timed>, r: Track)
      requires Valid() && t0.Some?
      requires forall o :: o in os ==> o.i < |t.line.events|
      ensures cues == TimedCues(View(), t, os) && r == AfterEmitting(t, os)
    {
      cues, r := [], t;
      for x := 0 to |os|
        invariant forall o :: o in os[..x] ==> o in os
        invariant cues == TimedCues(View(), t, os[..x]) && r == AfterEmitting(t, os[..x])
      {
        assert os[..x + 1][..x] == os[..x];
        assert os[x] in os;
        var e, g := t.line.events[os[x].i], Grid(t.line, os[x]);
        var cue := if IsVolume(e) then MakeVolume(t, e.d2, GridTime(g))
                   else MakeCue(t, e.status, e.d1, e.d2, GridTime(g));
        cues := cues + [Timed(g, cue)];
        if IsVolume(e) {
          r := r.(cc7 := e.d2);
        }
        if IsNoteOn(e) {
          r := r.(struck := r.struck + {e.d1});
        }
      }
      assert os[..|os|] == os;
    }

    /** One track's turn in a tick. */
    method Tick(t: Track, end: real, now: real) returns (cues: seq<Timed>, r: Track)
      requires Valid() && t0.Some? && ValidTrack(t)
      ensures forall o :: o in Pending(t, end) ==> o.i < |t.line.events|
      ensures cues == TimedCues(View(), t, Pending(t, end)) && r == Advanced(t, end, now)
    {
      hide AfterEmitting;
      PendingExist(t, end);
      cues, r := [], t;
      if !t.on {
        return;
      }
      if t.cursor < end {
        var os := Window(t.line, t.cursor, end);
        cues, r := Emit(t, os);
        r := r.(cursor := end);
      } else {
        assert AfterEmitting(t, []) == t by { NothingEmitted(t); }
      }
      var last := r.line.origin + r.line.length;
      if !r.line.loop && r.cursor > last && now > last {
        r := r.(on := false);
      }
    }

    /** Every track's turn, in the order they were added. */
    method TickAll(end: real, now: real) returns (out: seq<Timed>)
      requires Valid() && t0.Some?
      modifies this
      ensures View() == old(View()).(tracks := map name | name in old(tracks) :: Advanced(old(tracks)[name], end, now))
      ensures out == TrackByTrack(old(View()), |old(order)|, end)
    {
      hide Pending;
      hide Advanced;
      hide ValidTrack;
      hide TimedCues;
      hide TrackByTrack;
      hide Ticked;
      ghost var s := View();
      out := [];
      NothingTicked(s, end, now);
      assert out == TrackByTrack(s, 0, end) by { NoTracks(s, end); }
      for n := 0 to |order|
        invariant View() == s.(tracks := tracks) && View().Valid()
        invariant Ticked(s, tracks, n, end, now)
        invariant out == TrackByTrack(s, n, end)
      {
        NextTrack(s, n, end);
        TickedNext(s, tracks, n, end, now);
        ghost var before := View();
        var name, t := order[n], tracks[order[n]];
        var cues, t' := Tick(t, end, now);
        SameCues(s, before, t, Pending(t, end));
        AdvancedOnly(t, end, now);
        TrackUpdateIsValid(before, name, t');
        out := out + cues;
        tracks := tracks[name := t'];
      }
      TickedAll(s, tracks, end, now);
    }

    method Advance(at: real) returns (r: Result<seq<Cue>>)
      requires Valid()
      modifies this
      ensures Valid()
      ensures match AdvancedAll(old(View()), at)
              case Err => r == Err && View() == old(View())
              case Ok((s, cues)) => r == Ok(cues) && View() == s
    {
      hide Advanced;
      hide ValidTrack;
      hide Snap;
      hide TrackByTrack;
      if t0.None? {
        return Err;
      }
      ghost var s := View();
      var end, now := GridBeat(at + lookahead), GridBeat(at);
      var out := TickAll(end, now);
      AdvanceIsValid(s, at);
      r := Ok(Cues(SortBy(out, GridOf)));
    }
  }

  lemma NothingEmitted(t: Track)
    ensures AfterEmitting(t, []) == t
  {
  }

  lemma NoTracks(s: State, end: real)
    requires s.Valid() && s.t0.Some?
    ensures TrackByTrack(s, 0, end) == []
  {
  }

  lemma AdvancedOnly(t: Track, end: real, now: real)
    requires ValidTrack(t)
    ensures Advanced(t, end, now).name == t.name && Advanced(t, end, now).notes == t.notes
    ensures Advanced(t, end, now).line == t.line
  {
    hide Pending;
  }

  /** After the first `n` tracks' turns. */
  ghost predicate Ticked(s: State, tracks: map<string, Track>, n: nat, end: real, now: real)
    requires s.Valid()
  {
    && tracks.Keys == s.tracks.Keys && n <= |s.order|
    && (forall j :: 0 <= j < |s.order| ==> s.order[j] in tracks)
    && (forall j :: 0 <= j < n ==> tracks[s.order[j]] == Advanced(s.tracks[s.order[j]], end, now))
    && (forall j :: n <= j < |s.order| ==> tracks[s.order[j]] == s.tracks[s.order[j]])
  }

  /** Cues depend on the clock, the tempo, the master and the destination, not on the other tracks. */
  lemma SameCues(s: State, s': State, t: Track, os: seq<Occurrence>)
    requires s.t0.Some? && s.bpm != 0.0 && s' == s.(tracks := s'.tracks)
    requires forall o :: o in os ==> o.i < |t.line.events|
    ensures TimedCues(s, t, os) == TimedCues(s', t, os)
  {
    assert forall e, g :: EventCue(s, t, e, g) == EventCue(s', t, e, g);
  }

  lemma NothingTicked(s: State, end: real, now: real)
    requires s.Valid()
    ensures Ticked(s, s.tracks, 0, end, now)
  {
    hide ValidTrack;
    hide Advanced;
  }

  lemma TickedNext(s: State, tracks: map<string, Track>, n: nat, end: real, now: real)
    requires s.Valid() && n < |s.order| && Ticked(s, tracks, n, end, now)
    ensures s.order[n] in tracks && tracks[s.order[n]] == s.tracks[s.order[n]]
    ensures ValidTrack(s.tracks[s.order[n]])
    ensures Ticked(s, tracks[s.order[n] := Advanced(s.tracks[s.order[n]], end, now)], n + 1, end, now)
  {
    hide Advanced;
    assert s.order[n] in s.order;
    assert ValidTrack(s.tracks[s.order[n]]);
    hide ValidTrack;
  }

  lemma TickedAll(s: State, tracks: map<string, Track>, end: real, now: real)
    requires s.Valid() && Ticked(s, tracks, |s.order|, end, now)
    ensures tracks == map name | name in s.tracks :: Advanced(s.tracks[name], end, now)
  {
    hide Advanced;
    assert forall name :: name in s.tracks ==> name in s.order;
    forall name | name in s.tracks ensures name in tracks && tracks[name] == Advanced(s.tracks[name], end, now) {
      var j :| 0 <= j < |s.order| && s.order[j] == name;
    }
  }
}
