/** control/sequencer.py: what the sequencer promises, over every operation and every run. */
module SequencerRuns {
  import opened Wrappers
  import opened StableSorting
  import opened MidiFiles
  import opened Pairing
  import opened Windows
  import opened Sequencers

  // ---- chase -----------------------------------------------------------------------

  /** Some iteration struck a note of this key strictly before `b` and holds it a beat past `b`. */
  ghost predicate UnderWay(notes: seq<Note>, key: Byte, b: real, length: real) {
    exists n, k: nat :: n in notes && n.key == key && Held(n, k, b, length)
  }

  /** Only the current iteration and the one before need looking at, however long notes ring. */
  lemma TwoIterationsSuffice(n: Note, i: nat, b: real, length: real)
    requires 0.0 <= n.on < length && Held(n, i, b, length)
    ensures var k := (b / length).Floor; Held(n, k, b, length) || Held(n, k - 1, b, length)
  {
    var q := b / length;
    var k := q.Floor;
    assert q * length == b;
    MulLe(k as real, q, length);
    if k + 1 <= i {
      MulLe(q, i as real, length);
      assert false;
    }
    var here, before := k as real * length, (k - 1) as real * length;
    OneLess(k, length);
    assert here <= b && before == here - length;
    assert before + n.on < b;
    if i <= k - 2 {
      MulLe(i as real, (k - 1) as real, length);
      assert before + n.off - b >= CHASE_MIN_BEATS;
    }
  }

  lemma OneLess(k: int, length: real)
    ensures (k - 1) as real * length == k as real * length - length
  {
    assert (k - 1) as real == k as real - 1.0;
  }

  lemma {:induction false} ChasedNotes(notes: seq<Note>, b: real, length: real, k: int)
    ensures var c := Chased(notes, b, length, k);
      && (forall i, j :: 0 <= i < j < |c| ==> c[i].key != c[j].key)
      && (forall n :: n in c ==> n in notes && (Held(n, k, b, length) || Held(n, k - 1, b, length)))
      && (forall n :: n in notes && (Held(n, k, b, length) || Held(n, k - 1, b, length)) ==> n.key in Keys(c))
  {
    if notes != [] {
      var front, n := notes[..|notes| - 1], notes[|notes| - 1];
      ChasedNotes(front, b, length, k);
      var before := Chased(front, b, length, k);
      forall i | 0 <= i < |before| && n.key !in Keys(before) ensures before[i].key != n.key {
        assert before[i] in before;
      }
      assert forall x :: x in notes ==> x in front || x == n;
      assert forall x :: x in before + [n] ==> x in before || x == n;
      assert n.key in Keys(before + [n]);
    }
  }

  /** `enable` re-strikes exactly the keys under way, each once. */
  lemma ChaseIsExact(notes: seq<Note>, b: real, length: real)
    requires forall n :: n in notes ==> 0.0 <= n.on < length
    requires 1.0 <= length
    ensures var c := Chased(notes, b, length, (b / length).Floor);
      && (forall key: Byte :: key in Keys(c) <==> UnderWay(notes, key, b, length))
      && (forall i, j :: 0 <= i < j < |c| ==> c[i].key != c[j].key)
  {
    var k := (b / length).Floor;
    var c := Chased(notes, b, length, k);
    ChasedNotes(notes, b, length, k);
    hide Chased;
    forall key: Byte ensures key in Keys(c) <==> UnderWay(notes, key, b, length) {
      if key in Keys(c) {
        var n :| n in c && n.key == key;
        assert Held(n, if Held(n, k, b, length) then k else k - 1, b, length);
      }
      if UnderWay(notes, key, b, length) {
        var n, i: nat :| n in notes && n.key == key && Held(n, i, b, length);
        TwoIterationsSuffice(n, i, b, length);
      }
    }
  }

  // ---- runs ------------------------------------------------------------------------

  function Run(s: State, ops: seq<Op>): State
    requires s.Valid()
    decreases |ops|
  {
    if ops == [] then s
    else
      StepIsValid(s, ops[0]);
      Run(After(s, ops[0]), ops[1..])
  }

  /** What one operation emits of one track's timeline. */
  function EmittedBy(s: State, name: string, op: Op): seq<Occurrence>
    requires s.Valid() && name in s.tracks
  {
    if op.AdvanceTo? && s.t0.Some? then Pending(s.tracks[name], AdvanceEnd(s, op.at)) else []
  }

  lemma StillThere(s: State, op: Op, name: string)
    requires s.Valid() && name in s.tracks
    ensures After(s, op).Valid() && name in After(s, op).tracks
  {
    StepIsValid(s, op);
    OnlyOneTrack(s, op, name);
  }

  function Emitted(s: State, name: string, ops: seq<Op>): seq<Occurrence>
    requires s.Valid() && name in s.tracks
    decreases |ops|
  {
    if ops == [] then []
    else
      hide Step;
      hide Pending;
      StillThere(s, ops[0], name);
      EmittedBy(s, name, ops[0]) + Emitted(After(s, ops[0]), name, ops[1..])
  }

  /** No operation adds or loses a track, or moves the grid; only its own operations drop or restart it. */
  lemma OnlyOneTrack(s: State, op: Op, name: string)
    requires s.Valid() && name in s.tracks
    ensures name in After(s, op).tracks
    ensures After(s, op).t0 == s.t0 && After(s, op).bpm == s.bpm && After(s, op).lookahead == s.lookahead
    ensures op.AdvanceTo? && s.t0.Some? ==>
      After(s, op).tracks[name] == Advanced(s.tracks[name], AdvanceEnd(s, op.at), s.SnappedBeat(op.at))
    ensures !op.AdvanceTo? && LeavesPlaying(op, name) && s.tracks[name].on ==>
      After(s, op).tracks[name] == s.tracks[name]
  {
    hide Chased;
    hide ValidTrack;
    hide Advanced;
    hide TrackByTrack;
    hide DropCues;
  }

  predicate LeavesPlaying(op: Op, name: string) {
    !(op.Disable? && op.name == name) && !(op.PlayOnce? && op.name == name)
  }

  function Max(x: real, y: real): real { if x < y then y else x }

  /** How far the advances of a run reach, from grid beat `from` on. */
  function Reach(s: State, ops: seq<Op>, from: real): real
    requires s.t0.Some?
  {
    if ops == [] then from
    else Reach(s, ops[1..], if ops[0].AdvanceTo? then Max(from, AdvanceEnd(s, ops[0].at)) else from)
  }

  lemma {:induction false} SameGridSameReach(s: State, s': State, ops: seq<Op>, from: real)
    requires s.t0.Some? && s'.t0 == s.t0 && s'.bpm == s.bpm && s'.lookahead == s.lookahead
    ensures Reach(s, ops, from) == Reach(s', ops, from)
  {
    if ops != [] {
      SameGridSameReach(s, s', ops[1..], if ops[0].AdvanceTo? then Max(from, AdvanceEnd(s, ops[0].at)) else from);
    }
  }

  /** One step of a playing track: what it emits is the window its cursor moves over. */
  lemma StepEmitsItsWindow(s: State, name: string, op: Op)
    requires s.Valid() && s.t0.Some? && name in s.tracks && s.tracks[name].on && LeavesPlaying(op, name)
    ensures name in After(s, op).tracks
    ensures var t, t' := s.tracks[name], After(s, op).tracks[name];
      && t'.line == t.line && t.cursor <= t'.cursor
      && IsWindow(t.line, t.cursor, t'.cursor, EmittedBy(s, name, op))
      && t'.cursor == (if op.AdvanceTo? then Max(t.cursor, AdvanceEnd(s, op.at)) else t.cursor)
      && (t.line.loop ==> t'.on)
      && (!t'.on ==> t'.cursor > t.line.origin + t.line.length)
  {
    OnlyOneTrack(s, op, name);
    var t := s.tracks[name];
    if op.AdvanceTo? {
      UnrolledIsWindow(t.line, t.cursor, AdvanceEnd(s, op.at));
    }
  }

  /** A track that has switched itself off emits nothing more. */
  lemma {:induction false} SilentOnceOff(s: State, name: string, ops: seq<Op>)
    requires s.Valid() && s.t0.Some? && name in s.tracks && !s.tracks[name].on && !s.tracks[name].line.loop
    requires forall op :: op in ops ==> LeavesPlaying(op, name)
    ensures Emitted(s, name, ops) == []
    ensures name in Run(s, ops).tracks && Run(s, ops).tracks[name] == s.tracks[name]
    decreases |ops|
  {
    if ops != [] {
      StepIsValid(s, ops[0]);
      OnlyOneTrack(s, ops[0], name);
      OffStaysOff(s, name, ops[0]);
      SilentOnceOff(After(s, ops[0]), name, ops[1..]);
    }
  }

  lemma OffStaysOff(s: State, name: string, op: Op)
    requires s.Valid() && name in s.tracks && !s.tracks[name].on && !s.tracks[name].line.loop
    requires LeavesPlaying(op, name)
    ensures name in After(s, op).tracks && After(s, op).tracks[name] == s.tracks[name]
    ensures EmittedBy(s, name, op) == []
  {
    hide Chased;
    hide ValidTrack;
    hide TrackByTrack;
    hide DropCues;
  }

  /**
   Exactly once. While a track plays, whatever else happens to the sequencer, its
   advances emit end to end exactly the events of its endless timeline from where its
   cursor stood to as far as the last advance reached: each once, in grid order. A loop
   never drops out; a one-shot switches itself off only when it has emitted everything.
   */
  lemma {:induction false} EmittedExactlyOnce(s: State, name: string, ops: seq<Op>)
    requires s.Valid() && s.t0.Some? && name in s.tracks && s.tracks[name].on
    requires forall op :: op in ops ==> LeavesPlaying(op, name)
    ensures name in Run(s, ops).tracks
    ensures var t, t' := s.tracks[name], Run(s, ops).tracks[name];
      && t.cursor <= t'.cursor && t'.line == t.line
      && IsWindow(t.line, t.cursor, t'.cursor, Emitted(s, name, ops))
      && Emitted(s, name, ops) == Unrolled(t.line, t.cursor, t'.cursor)
      && (t.line.loop ==> t'.on && t'.cursor == Reach(s, ops, t.cursor))
      && (!t'.on ==> t'.cursor > t.line.origin + t.line.length)
    decreases |ops|
  {
    var t := s.tracks[name];
    if ops == [] {
      assert IsWindow(t.line, t.cursor, t.cursor, []);
    } else {
      var op, rest := ops[0], ops[1..];
      assert op in ops && forall x :: x in rest ==> x in ops;
      StepIsValid(s, op);
      OnlyOneTrack(s, op, name);
      StepEmitsItsWindow(s, name, op);
      var s' := After(s, op);
      var t' := s'.tracks[name];
      SameGridSameReach(s, s', rest, t'.cursor);
      hide AdvanceEnd;
      if t'.on {
        EmittedExactlyOnce(s', name, rest);
        WindowsTile(t.line, t.cursor, t'.cursor, Run(s', rest).tracks[name].cursor,
                    EmittedBy(s, name, op), Emitted(s', name, rest));
      } else {
        SilentOnceOff(s', name, rest);
        assert EmittedBy(s, name, op) + [] == EmittedBy(s, name, op);
      }
    }
    EmittedIsUnrolled(s, name, ops);
  }

  lemma EmittedIsUnrolled(s: State, name: string, ops: seq<Op>)
    requires s.Valid() && name in s.tracks && name in Run(s, ops).tracks
    requires IsWindow(s.tracks[name].line, s.tracks[name].cursor,
        Run(s, ops).tracks[name].cursor, Emitted(s, name, ops))
    ensures Emitted(s, name, ops) ==
            Unrolled(s.tracks[name].line, s.tracks[name].cursor, Run(s, ops).tracks[name].cursor)
  {
    var t, end := s.tracks[name], Run(s, ops).tracks[name].cursor;
    UnrolledIsWindow(t.line, t.cursor, end);
    WindowIsUnique(t.line, t.cursor, end, Emitted(s, name, ops), Unrolled(t.line, t.cursor, end));
  }

  /** From an `enable` at `at`: everything of the loop from that beat to the last advance's end. */
  lemma EnabledLoopPlaysOnce(s: State, name: string, at: real, ops: seq<Op>)
    requires s.Valid() && s.t0.Some? && name in s.tracks && s.tracks[name].line.loop && !s.tracks[name].on
    requires forall op :: op in ops ==> LeavesPlaying(op, name)
    ensures var b, s1 := s.SnappedBeat(at), After(s, Enable(name, at));
      && s1.Valid() && name in s1.tracks
      && Emitted(s1, name, ops) == Unrolled(s.tracks[name].line, b, Reach(s, ops, b))
  {
    StepIsValid(s, Enable(name, at));
    var s1 := After(s, Enable(name, at));
    EmittedExactlyOnce(s1, name, ops);
    SameGridSameReach(s, s1, ops, s.SnappedBeat(at));
  }

  /** A one-shot that has switched itself off since `play_once` has emitted every one of its events. */
  lemma OneShotFinishes(s: State, name: string, at: real, ops: seq<Op>)
    requires s.Valid() && s.t0.Some? && name in s.tracks && !s.tracks[name].line.loop
    requires forall op :: op in ops ==> LeavesPlaying(op, name)
    ensures var s1 := After(s, PlayOnce(name, at));
      && s1.Valid() && name in s1.tracks && name in Run(s1, ops).tracks
      && (!Run(s1, ops).tracks[name].on ==>
            forall i: nat :: i < |s.tracks[name].line.events| ==> Occurrence(0, i) in Emitted(s1, name, ops))
  {
    StepIsValid(s, PlayOnce(name, at));
    var s1 := After(s, PlayOnce(name, at));
    EmittedExactlyOnce(s1, name, ops);
    var t, end := s1.tracks[name], Run(s1, ops).tracks[name].cursor;
    assert ValidTrack(t);
    if !Run(s1, ops).tracks[name].on {
      forall i: nat | i < |t.line.events| ensures Occurrence(0, i) in Emitted(s1, name, ops) {
        assert t.line.events[i] in t.line.events;
        assert InWindow(t.line, Occurrence(0, i), t.cursor, end);
      }
    }
  }

  // ---- what leaves the sequencer ---------------------------------------------------------

  predicate OfTrack(x: Timed, name: string) { x.cue.MusicCue? && x.cue.tag == name }

  lemma {:induction false} FilterAll<T(!new)>(s: seq<T>, keep: T -> bool)
    requires forall x :: x in s ==> keep(x)
    ensures Filter(s, keep) == s
  {
    if s != [] {
      FilterAll(s[1..], keep);
    }
  }

  lemma {:induction false} FilterNone<T(!new)>(s: seq<T>, keep: T -> bool)
    requires forall x :: x in s ==> !keep(x)
    ensures Filter(s, keep) == []
  {
    if s != [] {
      FilterNone(s[1..], keep);
    }
  }

  lemma TrackNamed(s: State, m: nat, k: nat)
    requires s.Valid() && m < |s.order| && k < |s.order|
    ensures s.order[k] in s.tracks && s.tracks[s.order[k]].name == s.order[k]
    ensures s.order[m] == s.order[k] <==> m == k
  {
    hide ValidTrack;
    assert s.order[k] in s.order;
  }

  /** One track's share of what the first `n` emit. */
  ghost function Share(s: State, n: nat, end: real, name: string): seq<Timed>
    requires s.Valid() && s.t0.Some? && n <= |s.order|
  {
    Filter(TrackByTrack(s, n, end), (x: Timed) => OfTrack(x, name))
  }

  ghost function CuesOf(s: State, n: nat, end: real): seq<Timed>
    requires s.Valid() && s.t0.Some? && n < |s.order|
  {
    NextTrack(s, n, end);
    TimedCues(s, s.tracks[s.order[n]], Pending(s.tracks[s.order[n]], end))
  }

  /** The last track's share is all its cues; it adds nothing to any other's. */
  lemma NextShare(s: State, n: nat, end: real, name: string)
    requires s.Valid() && s.t0.Some? && n < |s.order|
    ensures Share(s, 0, end, name) == []
    ensures Share(s, n + 1, end, name) == Share(s, n, end, name) + if s.order[n] == name then CuesOf(s, n, end) else []
  {
    NextTrack(s, n, end);
    TrackNamed(s, n, n);
    var t := s.tracks[s.order[n]];
    FilterConcat(TrackByTrack(s, n, end), TimedCues(s, t, Pending(t, end)), (x: Timed) => OfTrack(x, name));
    OneTrackFiltered(s, t, Pending(t, end), name);
    hide Pending;
    hide TimedCues;
    hide ValidTrack;
  }

  lemma {:induction false} ShareIsOwn(s: State, n: nat, end: real, m: nat)
    requires s.Valid() && s.t0.Some? && n <= |s.order| && m < |s.order|
    ensures Share(s, n, end, s.order[m]) == if m < n then CuesOf(s, m, end) else []
  {
    hide Share;
    hide CuesOf;
    if n == 0 {
      NextShare(s, m, end, s.order[m]);
    } else {
      ShareIsOwn(s, n - 1, end, m);
      TrackNamed(s, m, n - 1);
      NextShare(s, n - 1, end, s.order[m]);
    }
  }

  lemma TrackByTrackFiltered(s: State, n: nat, end: real, m: nat)
    requires s.Valid() && s.t0.Some? && n <= |s.order| && m < |s.order|
    ensures s.order[m] in s.tracks && ValidTrack(s.tracks[s.order[m]])
    ensures forall o :: o in Pending(s.tracks[s.order[m]], end) ==> o.i < |s.tracks[s.order[m]].line.events|
    ensures Filter(TrackByTrack(s, n, end), (x: Timed) => OfTrack(x, s.order[m])) ==
            if m < n then TimedCues(s, s.tracks[s.order[m]], Pending(s.tracks[s.order[m]], end)) else []
  {
    ShareIsOwn(s, n, end, m);
    NextTrack(s, m, end);
    hide Pending;
    hide TimedCues;
    hide ValidTrack;
    hide TrackByTrack;
    hide Filter;
  }

  lemma OneTrackFiltered(s: State, t: Track, os: seq<Occurrence>, name: string)
    requires s.t0.Some? && s.bpm != 0.0
    requires forall o :: o in os ==> o.i < |t.line.events|
    ensures Filter(TimedCues(s, t, os), (x: Timed) => OfTrack(x, name)) ==
            if t.name == name then TimedCues(s, t, os) else []
  {
    CuesCarryTheirTag(s, t, os);
    hide TimedCues;
    if t.name == name {
      FilterAll(TimedCues(s, t, os), (x: Timed) => OfTrack(x, name));
    } else {
      FilterNone(TimedCues(s, t, os), (x: Timed) => OfTrack(x, name));
    }
  }

  lemma CuesCarryTheirTag(s: State, t: Track, os: seq<Occurrence>)
    requires s.t0.Some? && s.bpm != 0.0
    requires forall o :: o in os ==> o.i < |t.line.events|
    ensures forall x :: x in TimedCues(s, t, os) ==> OfTrack(x, t.name)
    ensures forall i :: 0 <= i < |os| ==> TimedCues(s, t, os)[i].grid == Grid(t.line, os[i])
  {
  }

  lemma PendingIsOrdered(s: State, t: Track, end: real)
    requires ValidTrack(t) && s.t0.Some? && s.bpm != 0.0
    requires forall o :: o in Pending(t, end) ==> o.i < |t.line.events|
    ensures Ordered(TimedCues(s, t, Pending(t, end)), GridOf)
  {
    UnrolledIsWindow(t.line, t.cursor, end);
    CuesCarryTheirTag(s, t, Pending(t, end));
    var os := Pending(t, end);
    assert InGridOrder(t.line, os);
    hide TimedCues;
    var cues := TimedCues(s, t, os);
    forall i, j | 0 <= i < j < |cues| ensures GridOf(cues[i]) <= GridOf(cues[j]) {
      assert PlaysBefore(t.line, os[i], os[j]);
    }
  }

  /**
   A tick's cues, all tracks merged: in grid order, and for each track exactly the cues
   of the events it owed, in the order of its own window.
   */
  lemma AdvanceMergesTracks(s: State, at: real, m: nat)
    requires s.Valid() && s.t0.Some? && m < |s.order|
    ensures var end := AdvanceEnd(s, at);
      var sorted := SortBy(TrackByTrack(s, |s.order|, end), GridOf);
      && AdvancedAll(s, at).Ok? && AdvancedAll(s, at).value.1 == Cues(sorted)
      && Ordered(sorted, GridOf)
      && s.order[m] in s.tracks && ValidTrack(s.tracks[s.order[m]])
      && (forall o :: o in Pending(s.tracks[s.order[m]], end) ==> o.i < |s.tracks[s.order[m]].line.events|)
      && Filter(sorted, (x: Timed) => OfTrack(x, s.order[m])) ==
         TimedCues(s, s.tracks[s.order[m]], Pending(s.tracks[s.order[m]], end))
  {
    var end := AdvanceEnd(s, at);
    var all := TrackByTrack(s, |s.order|, end);
    TrackByTrackFiltered(s, |s.order|, end, m);
    PendingIsOrdered(s, s.tracks[s.order[m]], end);
    hide TrackByTrack;
    hide TimedCues;
    hide Pending;
    SortByOrders(all, GridOf);
    SortByKeeps(all, GridOf, (x: Timed) => OfTrack(x, s.order[m]));
  }
}
