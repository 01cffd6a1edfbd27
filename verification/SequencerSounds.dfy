/**
 control/sequencer.py: what the sequencer's calls send, byte for byte.

 Each call's cues are told here from the tracks' own events and notes, with no function
 that builds a cue: destination, status, data, time and tag. `AdvanceSounds` is the tick,
 `EnableSounds` the chase, `DisableSounds` the drop, `PlayOnceSounds` the one-shot's
 start, `MasterSounds` the master volume.
 */
module SequencerSounds {
  import opened Wrappers
  import opened Rounding
  import opened StableSorting
  import MidiTracks
  import opened MidiFiles
  import opened Pairing
  import opened Windows
  import opened Sequencers
  import opened SequencerRuns
  import opened HungNotes
  import opened OneShots

  // ---- one cue -------------------------------------------------------------------------

  /** A message of kind `kind` (its high nibble) on the track's part, to the sequencer's device, under its tag. */
  predicate Sends(s: State, t: Track, c: Cue, kind: nat, d1: Byte, d2: Byte) {
    && c.MusicCue? && c.dev == s.dev && c.tag == t.name
    && c.status / 16 == kind && c.status % 16 == t.part && c.d1 == d1 && c.d2 == d2
  }

  /** `v` is the file's volume times the master's, rounded, and kept within 0 and 127. */
  predicate Scaled(v: Byte, cc7: Byte, master: real) {
    var exact := cc7 as real * master;
    if exact <= 0.0 then v == 0
    else if exact >= 127.0 then v == 127
    else
      && v as real - 0.5 <= exact <= v as real + 0.5
      && (exact - v as real == 0.5 || v as real - exact == 0.5 ==> v % 2 == 0)
  }

  /** CC 7 on the track's part: `cc7` under the master's volume. */
  predicate SendsVolume(s: State, t: Track, c: Cue, cc7: Byte) {
    c.MusicCue? && Scaled(c.d2, cc7, s.master) && Sends(s, t, c, 0xB, 7, c.d2)
  }

  /** It is to sound at that grid beat. */
  predicate OnBeat(s: State, c: Cue, beat: real)
    requires s.t0.Some?
  {
    c.MusicCue? && (c.when - s.t0.value) * s.bpm == beat * 60.0
  }

  /** `grid` is the beat of time `t`, to the nearest thousand-millionth. */
  ghost predicate SnapsTo(s: State, t: real, grid: real)
    requires s.t0.Some?
  {
    Snapped(Beats(s, t), grid)
  }

  /** Beats from the start to time `t`. */
  function Beats(s: State, t: real): real
    requires s.t0.Some?
  {
    (t - s.t0.value) * s.bpm / 60.0
  }

  ghost predicate Snapped(x: real, grid: real) { exists n: int :: Nearest(x, grid, n) }

  /** `grid` is `n` thousand-millionths, and no multiple of one is nearer to `x`. */
  predicate Nearest(x: real, grid: real, n: int) {
    grid * 1000000000.0 == n as real && n as real - 0.5 <= x * 1000000000.0 <= n as real + 0.5
  }

  lemma SnappedSnaps(s: State, t: real)
    requires s.t0.Some?
    ensures SnapsTo(s, t, s.SnappedBeat(t))
  {
    hide Snapped;
    SnapSnaps(Beats(s, t));
    BeatsAreBeats(s, t);
  }

  lemma BeatsAreBeats(s: State, t: real)
    requires s.t0.Some?
    ensures s.SnappedBeat(t) == Snap(Beats(s, t))
  {
    var x, y := Beats(s, t), BeatOf(s.t0.value, s.bpm, t);
    assert x == y;
    assert Snap(x) == Snap(y);
  }

  lemma SnapSnaps(x: real)
    ensures Snapped(x, Snap(x))
  {
    SnapIsNearest(x);
    hide Snap;
    assert Nearest(x, Snap(x), Round(x * 1000000000.0));
  }

  lemma CueSends(s: State, t: Track, status: Byte, d1: Byte, d2: Byte, when: real)
    ensures Sends(s, t, CueFor(s, t, status, d1, d2, when), status / 16, d1, d2)
    ensures CueFor(s, t, status, d1, d2, when).when == when
  {
  }

  lemma VolumeSends(s: State, t: Track, cc7: Byte, when: real)
    ensures SendsVolume(s, t, VolumeCue(s, t, cc7, when), cc7) && VolumeCue(s, t, cc7, when).when == when
  {
    CueSends(s, t, 0xB0, 7, ScaledVolume(cc7, s.master), when);
    VolumeIsScaled(cc7, s.master);
    hide ScaledVolume;
    hide Scaled;
  }

  lemma VolumeIsScaled(cc7: Byte, master: real)
    ensures Scaled(ScaledVolume(cc7, master), cc7, master)
  {
    hide Round;
  }

  lemma TimeIsOnBeat(s: State, c: Cue, beat: real)
    requires s.t0.Some? && s.bpm != 0.0 && c.MusicCue? && c.when == s.TimeAt(beat)
    ensures OnBeat(s, c, beat)
  {
    assert beat * 60.0 / s.bpm * s.bpm == beat * 60.0;
  }

  // ---- the tick ------------------------------------------------------------------------------

  /** The beat of event `o.i` in iteration `o.k`: a loop repeats from beat 0, a one-shot starts at its origin. */
  function BeatOfEvent(t: Track, o: Occurrence): real
    requires o.i < |t.line.events|
  {
    (if t.line.loop then o.k as real * t.line.length else t.line.origin) + t.line.events[o.i].beat
  }

  /** An event of the track, of any iteration of a loop, with its beat from `lo` up to `hi`. */
  predicate FallsIn(t: Track, o: Occurrence, lo: real, hi: real) {
    o.i < |t.line.events| && (t.line.loop || o.k == 0) && lo <= BeatOfEvent(t, o) < hi
  }

  /** What an event sends when its beat comes: its own message on the track's part, or its volume under the master's. */
  predicate SendsEvent(s: State, t: Track, c: Cue, o: Occurrence)
    requires s.t0.Some? && o.i < |t.line.events|
  {
    var e := t.line.events[o.i];
    && OnBeat(s, c, BeatOfEvent(t, o))
    && if e.status / 16 == 0xB && e.d1 == 7 then SendsVolume(s, t, c, e.d2)
       else Sends(s, t, c, e.status / 16, e.d1, e.d2)
  }

  /** By beat; at one beat by iteration, then as they come in the file. */
  predicate Sooner(t: Track, a: Occurrence, b: Occurrence)
    requires a.i < |t.line.events| && b.i < |t.line.events|
  {
    || BeatOfEvent(t, a) < BeatOfEvent(t, b)
    || (BeatOfEvent(t, a) == BeatOfEvent(t, b) && (a.k < b.k || (a.k == b.k && a.i < b.i)))
  }

  /** The occurrences are those that fall in the window, each once, sooner first. */
  ghost predicate Owes(t: Track, os: seq<Occurrence>, lo: real, hi: real) {
    && (forall o :: o in os <==> FallsIn(t, o, lo, hi))
    && forall x, y :: 0 <= x < y < |os| ==>
         FallsIn(t, os[x], lo, hi) && FallsIn(t, os[y], lo, hi) && Sooner(t, os[x], os[y])
  }

  ghost predicate SendsAll(s: State, t: Track, cues: seq<Cue>, os: seq<Occurrence>)
    requires s.t0.Some?
  {
    |cues| == |os| && forall i :: 0 <= i < |os| ==> os[i].i < |t.line.events| && SendsEvent(s, t, cues[i], os[i])
  }

  /** The cues of one tag, in order. */
  function Own(cues: seq<Cue>, tag: string): seq<Cue> {
    if cues == [] then []
    else (if cues[0].MusicCue? && cues[0].tag == tag then [cues[0]] else []) + Own(cues[1..], tag)
  }

  lemma {:induction false} OwnIsFiltered(xs: seq<Timed>, tag: string)
    ensures Own(Cues(xs), tag) == Cues(Filter(xs, (x: Timed) => OfTrack(x, tag)))
  {
    if xs != [] {
      OwnIsFiltered(xs[1..], tag);
      assert Cues(xs)[1..] == Cues(xs[1..]);
      var rest := Filter(xs[1..], (x: Timed) => OfTrack(x, tag));
      assert Cues([xs[0]] + rest) == [xs[0].cue] + Cues(rest);
    }
  }

  lemma EventSends(s: State, t: Track, e: MidiEvent, beat: real)
    requires s.t0.Some? && s.bpm != 0.0
    ensures var c := EventCue(s, t, e, beat);
      && OnBeat(s, c, beat)
      && if e.status / 16 == 0xB && e.d1 == 7 then SendsVolume(s, t, c, e.d2)
         else Sends(s, t, c, e.status / 16, e.d1, e.d2)
  {
    TimeIsOnBeat(s, EventCue(s, t, e, beat), beat);
    VolumeSends(s, t, e.d2, s.TimeAt(beat));
    CueSends(s, t, e.status, e.d1, e.d2, s.TimeAt(beat));
    hide OnBeat;
    hide SendsVolume;
    hide Sends;
    hide VolumeCue;
    hide CueFor;
  }

  lemma TimedSend(s: State, t: Track, os: seq<Occurrence>)
    requires s.t0.Some? && s.bpm != 0.0 && forall o :: o in os ==> o.i < |t.line.events|
    ensures SendsAll(s, t, Cues(TimedCues(s, t, os)), os)
  {
    forall i | 0 <= i < |os|
      ensures os[i].i < |t.line.events| && SendsEvent(s, t, Cues(TimedCues(s, t, os))[i], os[i])
    {
      assert os[i] in os;
      EventSends(s, t, t.line.events[os[i].i], Grid(t.line, os[i]));
      hide EventCue;
      hide OnBeat;
      hide SendsVolume;
      hide Sends;
    }
  }

  lemma WindowMeans(t: Track, o: Occurrence, lo: real, hi: real)
    ensures InWindow(t.line, o, lo, hi) <==> FallsIn(t, o, lo, hi)
  {
  }

  lemma PlaysSooner(t: Track, a: Occurrence, b: Occurrence)
    requires a.i < |t.line.events| && b.i < |t.line.events| && PlaysBefore(t.line, a, b)
    ensures Sooner(t, a, b)
  {
  }

  lemma WindowOwes(t: Track, lo: real, hi: real)
    requires ValidTrack(t)
    ensures Owes(t, Unrolled(t.line, lo, hi), lo, hi)
  {
    hide Unrolled;
    UnrolledIsWindow(t.line, lo, hi);
    hide ValidTrack;
    hide PlaysBefore;
    hide Sooner;
    var os := Unrolled(t.line, lo, hi);
    forall o ensures InWindow(t.line, o, lo, hi) <==> FallsIn(t, o, lo, hi) {
      WindowMeans(t, o, lo, hi);
    }
    hide InWindow;
    forall x, y | 0 <= x < y < |os|
      ensures FallsIn(t, os[x], lo, hi) && FallsIn(t, os[y], lo, hi) && Sooner(t, os[x], os[y])
    {
      assert os[x] in os && os[y] in os;
      PlaysSooner(t, os[x], os[y]);
    }
  }

  /** What a track has to send up to grid beat `end`. */
  ghost predicate Due(t: Track, os: seq<Occurrence>, end: real) {
    if t.on && t.cursor < end then Owes(t, os, t.cursor, end) else os == []
  }

  /** The keys struck among them. */
  function StruckBy(t: Track, os: seq<Occurrence>): set<Byte> {
    set o | o in os && o.i < |t.line.events| && t.line.events[o.i].status / 16 == 9 :: t.line.events[o.i].d1
  }

  predicate SetsVolume(t: Track, o: Occurrence) {
    o.i < |t.line.events| && t.line.events[o.i].status / 16 == 0xB && t.line.events[o.i].d1 == 7
  }

  /** The last volume set among them, `before` when there is none. */
  ghost predicate LastVolume(t: Track, os: seq<Occurrence>, before: Byte, volume: Byte) {
    if forall o :: o in os ==> !SetsVolume(t, o) then volume == before
    else exists x :: 0 <= x < |os| && SetsVolume(t, os[x]) && volume == t.line.events[os[x].i].d2
                     && forall y :: x < y < |os| ==> !SetsVolume(t, os[y])
  }

  lemma {:induction false} EmittingKeeps(t: Track, os: seq<Occurrence>)
    ensures var r := AfterEmitting(t, os);
      r.struck == t.struck + StruckBy(t, os) && LastVolume(t, os, t.cc7, r.cc7)
  {
    if os != [] {
      var front, o := os[..|os| - 1], os[|os| - 1];
      assert os == front + [o];
      EmittingKeeps(t, front);
      StruckMore(t, front, o);
      VolumeMore(t, front, o, t.cc7, AfterEmitting(t, front).cc7);
      hide StruckBy;
      hide LastVolume;
    }
  }

  lemma StruckMore(t: Track, os: seq<Occurrence>, o: Occurrence)
    ensures StruckBy(t, os + [o]) == StruckBy(t, os)
      + if o.i < |t.line.events| && t.line.events[o.i].status / 16 == 9 then {t.line.events[o.i].d1} else {}
  {
    assert forall x :: x in os + [o] <==> x in os || x == o;
  }

  lemma VolumeMore(t: Track, os: seq<Occurrence>, o: Occurrence, before: Byte, volume: Byte)
    requires LastVolume(t, os, before, volume)
    ensures LastVolume(t, os + [o], before, if SetsVolume(t, o) then t.line.events[o.i].d2 else volume)
  {
    var all := os + [o];
    assert forall x :: x in all <==> x in os || x == o;
    if SetsVolume(t, o) {
      assert all[|os|] == o;
    } else if !(forall x :: x in os ==> !SetsVolume(t, x)) {
      var x :| 0 <= x < |os| && SetsVolume(t, os[x]) && volume == t.line.events[os[x].i].d2
               && forall y :: x < y < |os| ==> !SetsVolume(t, os[y]);
      assert all[x] == os[x] && os[x] in os;
    }
  }

  /** A one-shot is over once both it and the clock are past its last event. */
  predicate Over(t: Track, cursor: real, now: real) {
    !t.line.loop && cursor > t.line.origin + t.line.length && now > t.line.origin + t.line.length
  }

  /** What the tick makes of a track that has sent `os`, up to `end`, at grid beat `now`. */
  ghost predicate Leaves(t: Track, t': Track, os: seq<Occurrence>, end: real, now: real) {
    && t' == t.(on := t'.on, cursor := t'.cursor, cc7 := t'.cc7, struck := t'.struck)
    && t'.struck == t.struck + StruckBy(t, os) && LastVolume(t, os, t.cc7, t'.cc7)
    && t'.cursor == (if t.on && t.cursor < end then end else t.cursor)
    && t'.on == (t.on && !Over(t, t'.cursor, now))
  }

  lemma AdvanceLeaves(t: Track, end: real, now: real)
    requires ValidTrack(t)
    ensures Due(t, Pending(t, end), end) && Leaves(t, Advanced(t, end, now), Pending(t, end), end, now)
  {
    EmittingKeeps(t, Pending(t, end));
    WindowOwes(t, t.cursor, end);
    hide Owes;
    hide Unrolled;
    hide ValidTrack;
    hide AfterEmitting;
    if Pending(t, end) == [] {
      EmittingKeeps(t, []);
      assert StruckBy(t, []) == {};
    }
  }

  /** One track's part in a tick: what it sends, and how it is left. */
  ghost predicate Ticks(s: State, t: Track, t': Track, at: real, cues: seq<Cue>)
    requires s.t0.Some?
  {
    exists end, now, os ::
      && SnapsTo(s, at + s.lookahead, end) && SnapsTo(s, at, now)
      && Due(t, os, end) && SendsAll(s, t, cues, os) && Leaves(t, t', os, end, now)
  }

  /**
   The tick. Up to the beat of `at` and the look-ahead, each playing track sends its events
   since its cursor, each once, in order, as they are and when they are due; the tracks'
   cues are merged by time; and nothing else is sent.
   */
  lemma AdvanceSounds(s: State, at: real, name: string)
    requires s.Valid() && s.t0.Some? && name in s.tracks
    ensures AdvancedAll(s, at).Ok?
    ensures var (s', cues) := AdvancedAll(s, at).value;
      && s' == s.(tracks := s'.tracks) && s'.tracks.Keys == s.tracks.Keys
      && Ticks(s, s.tracks[name], s'.tracks[name], at, Own(cues, name))
      && (forall c :: c in cues ==> c.MusicCue? && c.tag in s.tracks && s.tracks[c.tag].on)
      && ByTime(cues)
  {
    hide Pending;
    hide TrackByTrack;
    hide SortBy;
    hide Filter;
    hide TimedCues;
    hide Leaves;
    hide SendsAll;
    hide Due;
    hide SnapsTo;
    hide ByTime;
    hide Own;
    hide Advanced;
    var t, end, now := s.tracks[name], AdvanceEnd(s, at), s.SnappedBeat(at);
    assert name in s.order && t.name == name && ValidTrack(t);
    var m :| 0 <= m < |s.order| && s.order[m] == name;
    AdvanceMergesTracks(s, at, m);
    AdvanceLeaves(t, end, now);
    SnappedSnaps(s, at + s.lookahead);
    SnappedSnaps(s, at);
    hide ValidTrack;
    OwnIsFiltered(SortBy(TrackByTrack(s, |s.order|, end), GridOf), name);
    TimedSend(s, t, Pending(t, end));
    PlayingOnly(s, end);
  }

  ghost predicate ByTime(cues: seq<Cue>) {
    forall i, j :: 0 <= i < j < |cues| ==> cues[i].MusicCue? && cues[j].MusicCue? && cues[i].when <= cues[j].when
  }

  lemma PlayingOnly(s: State, end: real)
    requires s.Valid() && s.t0.Some?
    ensures var cues := Cues(SortBy(TrackByTrack(s, |s.order|, end), GridOf));
      ByTime(cues) && forall c :: c in cues ==> c.MusicCue? && c.tag in s.tracks && s.tracks[c.tag].on
  {
    hide TrackByTrack;
    hide SortBy;
    var all := TrackByTrack(s, |s.order|, end);
    OnlyPlayingTracksEmit(s, |s.order|, end);
    EmittedOnTime(s, |s.order|, end);
    assert s.bpm > 0.0;
    hide State.Valid;
    SortByOrders(all, GridOf);
    var sorted := SortBy(all, GridOf);
    forall c | c in Cues(sorted) ensures c.MusicCue? && c.tag in s.tracks && s.tracks[c.tag].on {
      var i :| 0 <= i < |sorted| && sorted[i].cue == c;
      assert sorted[i] in sorted;
    }
    forall i, j | 0 <= i < j < |sorted|
      ensures Cues(sorted)[i].MusicCue? && Cues(sorted)[j].MusicCue? && Cues(sorted)[i].when <= Cues(sorted)[j].when
    {
      assert sorted[i] in sorted && sorted[j] in sorted && GridOf(sorted[i]) <= GridOf(sorted[j]);
      LaterBeatLaterTime(s, sorted[i].grid, sorted[j].grid);
    }
  }

  // ---- enable ------------------------------------------------------------------------------------

  /** In some iteration the note is struck before beat `b`, and rings a beat or more past it. */
  ghost predicate Rings(n: Note, b: real, length: real) { exists i: nat :: RingsIn(n, i, b, length) }

  predicate RingsIn(n: Note, i: nat, b: real, length: real) {
    i as real * length + n.on < b && i as real * length + n.off >= b + 1.0
  }

  /** The first of its key to ring. */
  ghost predicate Restrikes(notes: seq<Note>, i: nat, b: real, length: real) {
    && i < |notes| && Rings(notes[i], b, length)
    && forall j :: 0 <= j < i && notes[j].key == notes[i].key ==> !Rings(notes[j], b, length)
  }

  ghost predicate Ascending(at: seq<nat>) { forall x, y :: 0 <= x < y < |at| ==> at[x] < at[y] }

  /** The positions of the notes to strike again, in order. */
  ghost predicate Rung(notes: seq<Note>, at: seq<nat>, b: real, length: real) {
    Ascending(at) && forall i: nat :: i in at <==> Restrikes(notes, i, b, length)
  }

  /** Each note's own strike, at `when`. */
  ghost predicate StruckAgain(s: State, t: Track, cues: seq<Cue>, at: seq<nat>, when: real) {
    |cues| == |at| && forall x :: 0 <= x < |at| ==>
      && at[x] < |t.notes| && cues[x].MusicCue? && cues[x].when == when
      && var n := t.notes[at[x]]; Sends(s, t, cues[x], n.status / 16, n.key, n.velocity)
  }

  function KeysAt(notes: seq<Note>, at: seq<nat>): set<Byte> {
    set x | 0 <= x < |at| && at[x] < |notes| :: notes[at[x]].key
  }

  /** Where `Chased` finds its notes. */
  function ChasedAt(notes: seq<Note>, b: real, length: real, k: int): (at: seq<nat>)
    ensures forall x :: 0 <= x < |at| ==> at[x] < |notes|
  {
    if notes == [] then []
    else
      var front, n := notes[..|notes| - 1], notes[|notes| - 1];
      if n.key !in Keys(Chased(front, b, length, k)) && (Held(n, k, b, length) || Held(n, k - 1, b, length))
      then ChasedAt(front, b, length, k) + [|notes| - 1] else ChasedAt(front, b, length, k)
  }

  lemma {:induction false} ChasedFrom(notes: seq<Note>, b: real, length: real, k: int)
    ensures var at, c := ChasedAt(notes, b, length, k), Chased(notes, b, length, k);
      |at| == |c| && Ascending(at) && forall x :: 0 <= x < |at| ==> c[x] == notes[at[x]]
  {
    if notes != [] {
      var front, n := notes[..|notes| - 1], |notes| - 1;
      ChasedStep(notes, b, length, k);
      hide ChasedAt;
      hide Chased;
      ChasedFrom(front, b, length, k);
      FoundMore(notes, ChasedAt(front, b, length, k), Chased(front, b, length, k));
    }
  }

  /** Both walks take the last note, or neither does. */
  lemma ChasedStep(notes: seq<Note>, b: real, length: real, k: int)
    requires notes != []
    ensures var front := notes[..|notes| - 1];
      var at, c := ChasedAt(front, b, length, k), Chased(front, b, length, k);
      || (ChasedAt(notes, b, length, k) == at && Chased(notes, b, length, k) == c)
      || (ChasedAt(notes, b, length, k) == at + [|notes| - 1]
          && Chased(notes, b, length, k) == c + [notes[|notes| - 1]])
  {
    hide Held;
    hide Keys;
  }

  lemma FoundMore(notes: seq<Note>, at: seq<nat>, c: seq<Note>)
    requires notes != [] && |at| == |c| && Ascending(at)
    requires forall x :: 0 <= x < |at| ==> at[x] < |notes| - 1 && c[x] == notes[..|notes| - 1][at[x]]
    ensures forall x :: 0 <= x < |at| ==> c[x] == notes[at[x]]
    ensures var at', c' := at + [|notes| - 1], c + [notes[|notes| - 1]];
      Ascending(at') && forall x :: 0 <= x < |at'| ==> c'[x] == notes[at'[x]]
  {
  }

  lemma RingsExactly(n: Note, b: real, length: real)
    requires 0.0 <= n.on < length
    ensures var k := (b / length).Floor; Rings(n, b, length) <==> Held(n, k, b, length) || Held(n, k - 1, b, length)
  {
    var k := (b / length).Floor;
    if i: nat :| RingsIn(n, i, b, length) {
      assert Held(n, i, b, length);
      TwoIterationsSuffice(n, i, b, length);
    }
    if Held(n, k, b, length) {
      assert RingsIn(n, k, b, length);
    } else if Held(n, k - 1, b, length) {
      assert RingsIn(n, k - 1, b, length);
    }
  }

  lemma {:induction false} ChasedRing(notes: seq<Note>, b: real, length: real, i: nat)
    requires length > 0.0 && forall n :: n in notes ==> 0.0 <= n.on < length
    ensures i in ChasedAt(notes, b, length, (b / length).Floor) <==> Restrikes(notes, i, b, length)
  {
    var k := (b / length).Floor;
    if notes == [] {
      return;
    }
    var front, n := notes[..|notes| - 1], notes[|notes| - 1];
    assert n in notes && forall x :: x in front ==> x in notes;
    ChasedRing(front, b, length, i);
    ChasedNotes(front, b, length, k);
    RingsExactly(n, b, length);
    forall j | 0 <= j < |front|
      ensures Rings(front[j], b, length) <==> Held(front[j], k, b, length) || Held(front[j], k - 1, b, length)
    {
      assert front[j] in front;
      RingsExactly(front[j], b, length);
    }
    hide Rings;
    hide Held;
    LastRestrikes(notes, b, length, k);
    hide Keys;
    hide Chased;
    assert i < |front| ==> (Restrikes(front, i, b, length) <==> Restrikes(notes, i, b, length));
  }

  lemma LastRestrikes(notes: seq<Note>, b: real, length: real, k: int)
    requires notes != []
    requires forall n :: n in notes ==> (Rings(n, b, length) <==> Held(n, k, b, length) || Held(n, k - 1, b, length))
    ensures var front, n := notes[..|notes| - 1], notes[|notes| - 1];
      Restrikes(notes, |front|, b, length) <==>
        n.key !in Keys(Chased(front, b, length, k)) && (Held(n, k, b, length) || Held(n, k - 1, b, length))
  {
    var front, n := notes[..|notes| - 1], notes[|notes| - 1];
    ChasedNotes(front, b, length, k);
    hide Rings;
    hide Held;
    hide Chased;
    assert n in notes && forall x :: x in front ==> x in notes;
    if n.key in Keys(Chased(front, b, length, k)) {
      var m :| m in Chased(front, b, length, k) && m.key == n.key;
      var j :| 0 <= j < |front| && front[j] == m;
      assert notes[j].key == n.key && Rings(notes[j], b, length);
    } else {
      forall j | 0 <= j < |front| && notes[j].key == n.key ensures !Rings(notes[j], b, length) {
        assert notes[j] in front;
      }
    }
  }

  /**
   A loop brought in: its volume, then at the same time each note struck before and still
   held for a beat or more, once a key, with its own status, key and velocity.
   */
  lemma EnableSounds(s: State, name: string, at: real)
    requires s.Valid() && s.t0.Some? && name in s.tracks && s.tracks[name].line.loop && !s.tracks[name].on
    ensures Enabled(s, name, at).Ok?
    ensures var t := s.tracks[name]; var (s', cues) := Enabled(s, name, at).value;
      && name in s'.tracks && cues != [] && SendsVolume(s, t, cues[0], t.cc7) && cues[0].when == at
      && exists b, picks ::
           && SnapsTo(s, at, b) && Rung(t.notes, picks, b, t.line.length) && StruckAgain(s, t, cues[1..], picks, at)
           && s' == s.(tracks := s.tracks[name :=
                t.(on := true, cursor := b, struck := t.struck + KeysAt(t.notes, picks))])
  {
    hide SnapsTo;
    hide SendsVolume;
    hide Restrikes;
    hide StruckAgain;
    hide KeysAt;
    hide Enabled;
    hide VolumeCue;
    hide State.SnappedBeat;
    var t, b := s.tracks[name], s.SnappedBeat(at);
    assert ValidTrack(t) && t.line.length >= 1.0;
    var picks := ChasedAt(t.notes, b, t.line.length, (b / t.line.length).Floor);
    SnappedSnaps(s, at);
    VolumeSends(s, t, t.cc7, at);
    EnabledCues(s, name, at, picks);
    ChasedRung(t, b, picks);
  }

  lemma ChasedRung(t: Track, b: real, picks: seq<nat>)
    requires ValidTrack(t) && t.line.loop
    requires picks == ChasedAt(t.notes, b, t.line.length, (b / t.line.length).Floor)
    ensures Rung(t.notes, picks, b, t.line.length)
  {
    ChasedFrom(t.notes, b, t.line.length, (b / t.line.length).Floor);
    forall i: nat ensures i in picks <==> Restrikes(t.notes, i, b, t.line.length) {
      ChasedRing(t.notes, b, t.line.length, i);
    }
    hide Restrikes;
    hide ChasedAt;
    hide Chased;
    hide ValidTrack;
  }

  lemma EnabledCues(s: State, name: string, at: real, picks: seq<nat>)
    requires s.Valid() && s.t0.Some? && name in s.tracks && s.tracks[name].line.loop && !s.tracks[name].on
    requires var t, b := s.tracks[name], s.SnappedBeat(at);
      picks == ChasedAt(t.notes, b, t.line.length, (b / t.line.length).Floor)
    ensures Enabled(s, name, at).Ok?
    ensures var t, b := s.tracks[name], s.SnappedBeat(at); var (s', cues) := Enabled(s, name, at).value;
      && cues != [] && cues[0] == VolumeCue(s, t, t.cc7, at) && StruckAgain(s, t, cues[1..], picks, at)
      && s' == s.(tracks := s.tracks[name := t.(on := true, cursor := b, struck := t.struck + KeysAt(t.notes, picks))])
  {
    var t, b := s.tracks[name], s.SnappedBeat(at);
    hide State.SnappedBeat;
    hide ValidTimeline;
    var k := (b / t.line.length).Floor;
    var c := Chased(t.notes, b, t.line.length, k);
    ChasedFrom(t.notes, b, t.line.length, k);
    hide Chased;
    hide ChasedAt;
    StrikesAgain(s, t, c, picks, at);
    hide VolumeCue;
    hide StrikeCues;
    hide StruckAgain;
    hide KeysAt;
    hide Keys;
    assert ([VolumeCue(s, t, t.cc7, at)] + StrikeCues(s, t, c, at))[1..] == StrikeCues(s, t, c, at);
  }

  lemma StrikesAgain(s: State, t: Track, c: seq<Note>, picks: seq<nat>, at: real)
    requires |picks| == |c| && forall x :: 0 <= x < |picks| ==> picks[x] < |t.notes| && c[x] == t.notes[picks[x]]
    ensures StruckAgain(s, t, StrikeCues(s, t, c, at), picks, at) && Keys(c) == KeysAt(t.notes, picks)
  {
    forall x | 0 <= x < |c| {
      CueSends(s, t, c[x].status, c[x].key, c[x].velocity, at);
    }
    hide Sends;
    forall k ensures k in Keys(c) <==> k in KeysAt(t.notes, picks) {
      if k in Keys(c) {
        var n :| n in c && n.key == k;
        var x :| 0 <= x < |c| && c[x] == n;
        assert t.notes[picks[x]].key == k;
      }
    }
  }

  // ---- disable -----------------------------------------------------------------------------------

  /** The set's keys, each once, lowest first. */
  ghost predicate InOrderOf(keys: seq<Byte>, of: set<Byte>) {
    (forall k :: k in keys <==> k in of) && forall x, y :: 0 <= x < y < |keys| ==> keys[x] < keys[y]
  }

  /** The purge, a note-off of each key struck, and the pedal up, all at `at`. */
  ghost predicate Drops(s: State, t: Track, cues: seq<Cue>, at: real) {
    exists keys ::
      && InOrderOf(keys, t.struck) && |cues| == |keys| + 2 && cues[0] == MusicPurge(s.dev, t.name)
      && (forall i :: 1 <= i < |cues| ==> cues[i].MusicCue? && cues[i].when == at)
      && (forall i :: 0 <= i < |keys| ==> Sends(s, t, cues[i + 1], 8, keys[i], 0))
      && Sends(s, t, cues[|keys| + 1], 0xB, 64, 0)
  }

  lemma {:induction false} SortedKeysInOrder(of: set<Byte>, n: nat)
    requires n <= 256
    ensures forall x, y :: 0 <= x < y < |SortedKeys(of, n)| ==> SortedKeys(of, n)[x] < SortedKeys(of, n)[y]
  {
    if n > 0 {
      SortedKeysInOrder(of, n - 1);
      var front := SortedKeys(of, n - 1);
      forall x | 0 <= x < |front| ensures front[x] < n - 1 {
        assert front[x] in front;
      }
    }
  }

  lemma DropSounds(s: State, t: Track, at: real)
    ensures Drops(s, t, DropCues(s, t, at), at)
  {
    var keys, cues := SortedKeys(t.struck, 256), DropCues(s, t, at);
    SortedKeysInOrder(t.struck, 256);
    hide SortedKeys;
    forall i | 0 <= i < |keys| ensures cues[i + 1] == CueFor(s, t, 0x80, keys[i], 0, at) {
    }
    forall i | 0 <= i < |keys| {
      CueSends(s, t, 0x80, keys[i], 0, at);
    }
    CueSends(s, t, 0xB0, 64, 0, at);
    hide Sends;
    assert InOrderOf(keys, t.struck);
  }

  /** A track dropped: nothing when it is off, else the purge, the releases and the pedal; an unknown one is refused. */
  lemma DisableSounds(s: State, name: string, at: real)
    requires s.Valid()
    ensures Disabled(s, name, at).Ok? <==> name in s.tracks
    ensures name in s.tracks ==>
      var t := s.tracks[name]; var (s', cues) := Disabled(s, name, at).value;
      if t.on then Drops(s, t, cues, at) && s' == s.(tracks := s.tracks[name := t.(on := false)])
      else cues == [] && s' == s
  {
    if name in s.tracks {
      DropSounds(s, s.tracks[name], at);
    }
    hide Drops;
    hide DropCues;
    hide ValidTrack;
  }

  // ---- play_once -----------------------------------------------------------------------------------

  /** The first whole beat at or after `b`. */
  predicate FirstWhole(start: int, b: real) { (start - 1) as real < b <= start as real }

  /**
   A one-shot started: dropped first if it plays; lined up at the first whole beat, with
   its file's opening volume sent for then. A loop, or an unknown track, is refused.
   */
  lemma PlayOnceSounds(s: State, name: string, at: real)
    requires s.Valid() && s.t0.Some?
    ensures PlayedOnce(s, name, at).Ok? <==> name in s.tracks && !s.tracks[name].line.loop
    ensures PlayedOnce(s, name, at).Ok? ==>
      var t := s.tracks[name]; var (s', cues) := PlayedOnce(s, name, at).value;
      exists start: int, b ::
        && SnapsTo(s, at, b) && FirstWhole(start, b)
        && s' == s.(tracks := s.tracks[name :=
             t.(on := true, line := t.line.(origin := start as real), cursor := start as real, cc7 := t.initialCc7)])
        && cues != [] && SendsVolume(s, t, cues[|cues| - 1], t.initialCc7) && OnBeat(s, cues[|cues| - 1], start as real)
        && if t.on then Drops(s, t, cues[..|cues| - 1], at) else |cues| == 1
  {
    if PlayedOnce(s, name, at).Ok? {
      var t, b := s.tracks[name], s.SnappedBeat(at);
      var start := Ceiling(b);
      SnappedSnaps(s, at);
      assert FirstWhole(start, b);
      hide State.SnappedBeat;
      hide Ceiling;
      var t' := t.(on := true, line := t.line.(origin := start as real), cursor := start as real, cc7 := t.initialCc7);
      var cues, v := PlayedOnce(s, name, at).value.1, VolumeCue(s, t', t'.cc7, s.TimeAt(start as real));
      VolumeSends(s, t, t'.cc7, s.TimeAt(start as real));
      TimeIsOnBeat(s, v, start as real);
      DropSounds(s, t, at);
      assert v == VolumeCue(s, t, t'.cc7, s.TimeAt(start as real));
      hide VolumeCue;
      assert cues[|cues| - 1] == v && (t.on ==> cues[..|cues| - 1] == DropCues(s, t, at));
      hide DropCues;
      hide Drops;
      hide SendsVolume;
      hide OnBeat;
      hide SnapsTo;
      hide ValidTrack;
    }
  }

  // ---- set_master -----------------------------------------------------------------------------------

  /** The master's volume set: every track's own volume under it, in the order added, whether it plays or not. */
  lemma MasterSounds(s: State, level: real, at: real)
    requires s.Valid()
    ensures var (s', cues) := Mastered(s, level, at);
      && s' == s.(master := level) && |cues| == |s.order|
      && forall i :: 0 <= i < |cues| ==>
           && s.order[i] in s.tracks && cues[i].MusicCue? && cues[i].when == at
           && SendsVolume(s', s.tracks[s.order[i]], cues[i], s.tracks[s.order[i]].cc7)
  {
    var (s', cues) := Mastered(s, level, at);
    forall i | 0 <= i < |cues|
      ensures s.order[i] in s.tracks && cues[i].MusicCue? && cues[i].when == at
      ensures SendsVolume(s', s.tracks[s.order[i]], cues[i], s.tracks[s.order[i]].cc7)
    {
      assert s.order[i] in s.order;
      VolumeSends(s', s.tracks[s.order[i]], s.tracks[s.order[i]].cc7, at);
    }
    hide VolumeCue;
    hide SendsVolume;
    hide ValidTrack;
  }

  // ---- start, and what is refused -------------------------------------------------------------------

  /** Beat 0 is `t0`; every track is off, has nothing on record and stands at its file's opening volume. */
  lemma StartSounds(s: State, t0: real)
    requires s.Valid()
    ensures var s' := Started(s, t0);
      && s'.t0.Some? && Beats(s', t0) == 0.0
      && s' == s.(t0 := s'.t0, tracks := s'.tracks) && s'.tracks.Keys == s.tracks.Keys
      && forall name :: name in s.tracks ==>
           var t, t' := s.tracks[name], s'.tracks[name];
           && t'.on == false && t'.struck == {} && t'.cc7 == t.initialCc7
           && t' == t.(on := t'.on, struck := t'.struck, cc7 := t'.cc7)
  {
    hide ValidTrack;
  }

  /** Only a loop is brought in, once started; one that plays already goes on as it was. */
  lemma EnableRefusedExactly(s: State, name: string, at: real)
    requires s.Valid()
    ensures Enabled(s, name, at).Ok? <==>
            name in s.tracks && s.tracks[name].line.loop && (s.tracks[name].on || s.t0.Some?)
    ensures name in s.tracks && s.tracks[name].line.loop && s.tracks[name].on ==> Enabled(s, name, at) == Ok((s, []))
  {
    hide Chased;
    hide State.SnappedBeat;
  }

  // ---- add_track -----------------------------------------------------------------------------------

  /** Every event from beat `skip` on, the first of them at `from`, in order, `skip` earlier. */
  ghost predicate ShiftedFrom(es: seq<MidiEvent>, skip: real, out: seq<MidiEvent>, from: nat) {
    && from <= |es| && |out| == |es| - from
    && (forall i :: 0 <= i < from ==> es[i].beat < skip) && (forall i :: from <= i < |es| ==> es[i].beat >= skip)
    && forall i :: 0 <= i < |out| ==> out[i] == es[from + i].(beat := es[from + i].beat - skip)
  }

  ghost predicate Shifted(es: seq<MidiEvent>, skip: real, out: seq<MidiEvent>) {
    exists from: nat :: ShiftedFrom(es, skip, out, from)
  }

  lemma {:induction false} SkippedShifts(es: seq<MidiEvent>, skip: real)
    requires WellFormedEvents(es)
    ensures Shifted(es, skip, Skipped(es, skip))
  {
    if es == [] {
      assert ShiftedFrom(es, skip, [], 0);
      return;
    }
    var front, e := es[..|es| - 1], es[|es| - 1];
    SkippedShifts(front, skip);
    SkippedLast(es, skip);
    var from: nat :| ShiftedFrom(front, skip, Skipped(front, skip), from);
    hide Skipped;
    ShiftedSnoc(es, skip, Skipped(front, skip), from);
    LastIsLatest(es);
    hide WellFormedEvents;
    hide ShiftedFrom;
  }

  lemma ShiftedSnoc(es: seq<MidiEvent>, skip: real, out: seq<MidiEvent>, from: nat)
    requires es != [] && ShiftedFrom(es[..|es| - 1], skip, out, from) && WellFormedEvents(es)
    ensures var e := es[|es| - 1];
      if e.beat >= skip then ShiftedFrom(es, skip, out + [e.(beat := e.beat - skip)], from)
      else ShiftedFrom(es, skip, out, |es|)
  {
    LastIsLatest(es);
    var front, e := es[..|es| - 1], es[|es| - 1];
    forall i | 0 <= i < |front| && e.beat < skip ensures front[i].beat < skip {
      assert front[i] == es[i] && es[i] in es;
    }
    assert from < |front| ==> front[from].beat >= skip;
  }

  /** The file's first CC 7, or 100. */
  ghost predicate OpensAt(es: seq<MidiEvent>, volume: Byte) {
    if forall i :: 0 <= i < |es| ==> !(es[i].status / 16 == 0xB && es[i].d1 == 7) then volume == 100
    else exists i :: 0 <= i < |es| && es[i].status / 16 == 0xB && es[i].d1 == 7 && volume == es[i].d2
                     && forall j :: 0 <= j < i ==> !(es[j].status / 16 == 0xB && es[j].d1 == 7)
  }

  lemma {:induction false} FirstVolumeOpens(es: seq<MidiEvent>)
    ensures OpensAt(es, FirstVolume(es))
  {
    if es != [] && !IsVolume(es[0]) {
      FirstVolumeOpens(es[1..]);
      if i :| 0 <= i < |es[1..]| && es[1..][i].status / 16 == 0xB && es[1..][i].d1 == 7
              && FirstVolume(es) == es[1..][i].d2
              && forall j :: 0 <= j < i ==> !(es[1..][j].status / 16 == 0xB && es[1..][j].d1 == 7) {
        assert es[i + 1] == es[1..][i];
        assert forall j :: 1 <= j < i + 1 ==> es[j] == es[1..][j - 1];
      }
      assert forall j :: 1 <= j < |es| ==> es[j] == es[1..][j - 1];
    }
  }

  /** `length` is `bars` bars of four beats, the fewest, at least one, that reach `end`. */
  predicate WholeBars(bars: nat, length: real, end: real) {
    bars >= 1 && length == bars as real * 4.0 && end <= length && (bars == 1 || (bars - 1) as real * 4.0 < end)
  }

  /**
   A track added: a loop is as long as the file's whole bars, at least one, from beat 0,
   without what is struck past its end; a one-shot starts where its lead-in ends and is as
   long as its last event; each knows its own notes and opens at its own first volume,
   off, with nothing struck.
   */
  lemma AddTrackSounds(name: string, midi: MidiFile, part: Part, loop: bool, skip: real)
    requires WellFormedEvents(midi.events)
    ensures var t := NewTrack(name, midi, part, loop, skip);
      && t.name == name && t.part == part && !t.on && t.struck == {} && t.cc7 == t.initialCc7
      && t.line.loop == loop && OpensAt(t.line.events, t.initialCc7) && t.notes == Pair(t.line.events).notes
      && (loop ==>
            && t.line.origin == 0.0
            && (exists bars: nat :: WholeBars(bars, t.line.length, midi.endBeat))
            && exists at :: KeptAt(midi.events, t.line.length, t.line.events, at))
      && (!loop ==>
            && Shifted(midi.events, skip, t.line.events)
            && t.line.length == if t.line.events == [] then 0.0 else t.line.events[|t.line.events| - 1].beat)
  {
    var t := NewTrack(name, midi, part, loop, skip);
    FirstVolumeOpens(t.line.events);
    hide FirstVolume;
    hide OpensAt;
    if loop {
      var bars: nat :| LoopBeats(midi.endBeat, 4) == BarBeats(bars, 4) && bars >= 1 &&
        (bars == 1 || BarBeats(bars - 1, 4) < midi.endBeat);
      assert WholeBars(bars, t.line.length, midi.endBeat);
      var at := TrimFoldKeeps(midi.events, t.line.length);
    } else {
      SkippedShifts(midi.events, skip);
    }
    hide Shifted;
    hide Skipped;
  }
}
