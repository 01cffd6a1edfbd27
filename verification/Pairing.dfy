/**
 control/sequencer.py: which note-off belongs to which note-on, and the trimming of a
 loop's events to its length.

 `Pair` and `Trim` are the source's two loops as folds. The main result,
 `TrimmingCommutesWithPairing`, is that trimming first and pairing afterwards finds
 exactly the original pairs struck before the loop's end, in the same order.
 */
module Pairing {
  import opened MidiTracks
  import opened MidiFiles

  /** A note's span in track beats. */
  datatype Note = Note(on: real, off: real, status: Byte, key: Byte, velocity: Byte)

  predicate IsNoteOff(e: MidiEvent) { HighNibble(e.status) == 0x80 }

  /** A velocity-0 note-on never gets past the parser. */
  predicate NormalisedEvent(e: MidiEvent) { IsNoteOn(e) ==> e.d2 > 0 }

  ghost predicate NormalisedEvents(es: seq<MidiEvent>) {
    forall e :: e in es ==> NormalisedEvent(e)
  }

  function At<V>(m: map<Byte, seq<V>>, key: Byte): seq<V> { if key in m then m[key] else [] }

  // ---- pairing ---------------------------------------------------------------

  /** The notes paired so far, and per key the note-ons still open, oldest first. */
  datatype Paired = Paired(open: map<Byte, seq<MidiEvent>>, notes: seq<Note>)

  function PairOne(p: Paired, e: MidiEvent): Paired {
    var q := At(p.open, e.d1);
    if IsNoteOn(e) then p.(open := p.open[e.d1 := q + [e]])
    else if IsNoteOff(e) && q != [] then
      Paired(p.open[e.d1 := q[1..]],
             p.notes + [Note(q[0].beat, e.beat, q[0].status, q[0].d1, q[0].d2)])
    else p
  }

  function Pair(es: seq<MidiEvent>): Paired {
    if es == [] then Paired(map[], []) else PairOne(Pair(es[..|es| - 1]), es[|es| - 1])
  }

  // ---- trimming --------------------------------------------------------------

  /** The events kept so far, and per key, for each open note-on, whether it was dropped. */
  datatype Trimmed = Trimmed(open: map<Byte, seq<bool>>, out: seq<MidiEvent>)

  /** A note-on at or past the length goes, and takes the note-off it is paired with along. */
  predicate Drops(t: Trimmed, e: MidiEvent, length: real) {
    var q := At(t.open, e.d1);
    if IsNoteOn(e) && e.d2 > 0 then e.beat >= length
    else (IsNoteOn(e) || IsNoteOff(e)) && q != [] && q[0]
  }

  function TrimOne(t: Trimmed, e: MidiEvent, length: real): Trimmed {
    var q := At(t.open, e.d1);
    var out := if Drops(t, e, length) then t.out else t.out + [e];
    if IsNoteOn(e) && e.d2 > 0 then Trimmed(t.open[e.d1 := q + [e.beat >= length]], out)
    else if (IsNoteOn(e) || IsNoteOff(e)) && q != [] then Trimmed(t.open[e.d1 := q[1..]], out)
    else t.(out := out)
  }

  function TrimFold(es: seq<MidiEvent>, length: real): Trimmed {
    if es == [] then Trimmed(map[], []) else TrimOne(TrimFold(es[..|es| - 1], length), es[|es| - 1], length)
  }

  function Trim(es: seq<MidiEvent>, length: real): seq<MidiEvent> { TrimFold(es, length).out }

  // ---- the two together --------------------------------------------------------

  function NotesBefore(notes: seq<Note>, length: real): seq<Note> {
    if notes == [] then []
    else
      var n := notes[|notes| - 1];
      NotesBefore(notes[..|notes| - 1], length) + if n.on < length then [n] else []
  }

  function EventsBefore(es: seq<MidiEvent>, length: real): seq<MidiEvent> {
    if es == [] then []
    else
      var e := es[|es| - 1];
      EventsBefore(es[..|es| - 1], length) + if e.beat < length then [e] else []
  }

  function DroppedFlags(es: seq<MidiEvent>, length: real): seq<bool> {
    seq(|es|, i requires 0 <= i < |es| => es[i].beat >= length)
  }

  lemma {:induction false} EventsBeforeTail(es: seq<MidiEvent>, length: real)
    requires es != []
    ensures EventsBefore(es, length) ==
            (if es[0].beat < length then [es[0]] else []) + EventsBefore(es[1..], length)
  {
    if |es| > 1 {
      EventsBeforeTail(es[..|es| - 1], length);
      assert es[..|es| - 1][1..] == es[1..][..|es| - 2];
    }
  }

  /** How the three folds stand to one another after the same events. */
  ghost predicate InStep(original: Paired, trimmed: Trimmed, paired: Paired, length: real) {
    && paired.notes == NotesBefore(original.notes, length)
    && forall key: Byte :: KeyInStep(original, trimmed, paired, key, length)
  }

  /** `InStep` for the open queues of one key. */
  ghost predicate KeyInStep(original: Paired, trimmed: Trimmed, paired: Paired, key: Byte, length: real) {
    && At(trimmed.open, key) == DroppedFlags(At(original.open, key), length)
    && At(paired.open, key) == EventsBefore(At(original.open, key), length)
  }

  lemma StrikeStaysInStep(original: Paired, trimmed: Trimmed, paired: Paired, e: MidiEvent, length: real)
    requires InStep(original, trimmed, paired, length) && IsNoteOn(e) && e.d2 > 0
    ensures InStep(PairOne(original, e), TrimOne(trimmed, e, length),
                   if e.beat >= length then paired else PairOne(paired, e), length)
  {
    hide KeyInStep;
    var o, t := PairOne(original, e), TrimOne(trimmed, e, length);
    var p := if e.beat >= length then paired else PairOne(paired, e);
    forall key: Byte ensures KeyInStep(o, t, p, key, length) {
      StrikeKeepsQueues(original, trimmed, paired, e, key, length);
    }
  }

  lemma StrikeKeepsQueues(original: Paired, trimmed: Trimmed, paired: Paired, e: MidiEvent, key: Byte, length: real)
    requires KeyInStep(original, trimmed, paired, key, length) && IsNoteOn(e) && e.d2 > 0
    ensures KeyInStep(PairOne(original, e), TrimOne(trimmed, e, length),
                      if e.beat >= length then paired else PairOne(paired, e), key, length)
  {
    if key == e.d1 {
      QueueGrows(At(original.open, key), e, length);
    }
    hide EventsBefore;
    hide DroppedFlags;
  }

  lemma QueueGrows(q: seq<MidiEvent>, e: MidiEvent, length: real)
    ensures EventsBefore(q + [e], length)
         == if e.beat < length then EventsBefore(q, length) + [e] else EventsBefore(q, length)
    ensures DroppedFlags(q + [e], length) == DroppedFlags(q, length) + [e.beat >= length]
  {
    assert (q + [e])[..|q|] == q;
  }

  lemma ReleaseKeepsNotes(original: Paired, trimmed: Trimmed, paired: Paired, e: MidiEvent, length: real)
    requires InStep(original, trimmed, paired, length) && IsNoteOff(e) && At(original.open, e.d1) != []
    ensures var q := At(original.open, e.d1);
      (if q[0].beat >= length then paired else PairOne(paired, e)).notes
      == NotesBefore(PairOne(original, e).notes, length)
  {
    var q := At(original.open, e.d1);
    EventsBeforeTail(q, length);
    assert KeyInStep(original, trimmed, paired, e.d1, length);
    var notes, n := original.notes, Note(q[0].beat, e.beat, q[0].status, q[0].d1, q[0].d2);
    assert (notes + [n])[..|notes|] == notes;
    assert NotesBefore(notes + [n], length) == NotesBefore(notes, length) + if n.on < length then [n] else [];
  }

  lemma ReleaseKeepsQueues(original: Paired, trimmed: Trimmed, paired: Paired, e: MidiEvent, key: Byte, length: real)
    requires InStep(original, trimmed, paired, length) && IsNoteOff(e) && At(original.open, e.d1) != []
    ensures KeyInStep(PairOne(original, e), TrimOne(trimmed, e, length),
                      if At(original.open, e.d1)[0].beat >= length then paired else PairOne(paired, e), key, length)
  {
    assert KeyInStep(original, trimmed, paired, key, length);
    assert KeyInStep(original, trimmed, paired, e.d1, length);
    var q := At(original.open, e.d1);
    EventsBeforeTail(q, length);
    assert DroppedFlags(q, length)[1..] == DroppedFlags(q[1..], length);
    if q[0].beat < length {
      assert EventsBefore(q, length)[1..] == EventsBefore(q[1..], length);
    } else {
      assert EventsBefore(q, length) == EventsBefore(q[1..], length);
    }
  }

  lemma ReleaseStaysInStep(original: Paired, trimmed: Trimmed, paired: Paired, e: MidiEvent, length: real)
    requires InStep(original, trimmed, paired, length) && IsNoteOff(e) && At(original.open, e.d1) != []
    ensures InStep(PairOne(original, e), TrimOne(trimmed, e, length),
                   if At(original.open, e.d1)[0].beat >= length then paired else PairOne(paired, e), length)
  {
    ReleaseKeepsNotes(original, trimmed, paired, e, length);
    hide KeyInStep;
    var o, t := PairOne(original, e), TrimOne(trimmed, e, length);
    var p := if At(original.open, e.d1)[0].beat >= length then paired else PairOne(paired, e);
    forall key: Byte ensures KeyInStep(o, t, p, key, length) {
      ReleaseKeepsQueues(original, trimmed, paired, e, key, length);
    }
  }

  lemma OneEventStaysInStep(original: Paired, trimmed: Trimmed, paired: Paired, e: MidiEvent, length: real)
    requires InStep(original, trimmed, paired, length) && NormalisedEvent(e)
    ensures var t := TrimOne(trimmed, e, length);
      InStep(PairOne(original, e), t, if Drops(trimmed, e, length) then paired else PairOne(paired, e), length)
  {
    assert KeyInStep(original, trimmed, paired, e.d1, length);
    if IsNoteOn(e) {
      StrikeStaysInStep(original, trimmed, paired, e, length);
    } else if IsNoteOff(e) && At(original.open, e.d1) != [] {
      ReleaseStaysInStep(original, trimmed, paired, e, length);
    } else {
      forall key: Byte ensures KeyInStep(original, TrimOne(trimmed, e, length), paired, key, length) {
        assert KeyInStep(original, trimmed, paired, key, length);
      }
    }
  }

  lemma {:induction false} FoldsStayInStep(es: seq<MidiEvent>, length: real)
    requires NormalisedEvents(es)
    ensures InStep(Pair(es), TrimFold(es, length), Pair(Trim(es, length)), length)
  {
    if es != [] {
      hide InStep;
      hide PairOne;
      hide Drops;
      var front, e := es[..|es| - 1], es[|es| - 1];
      assert e in es && forall x :: x in front ==> x in es;
      FoldsStayInStep(front, length);
      var trimmed := TrimFold(front, length);
      assert (trimmed.out + [e])[..|trimmed.out|] == trimmed.out;
      OneEventStaysInStep(Pair(front), trimmed, Pair(trimmed.out), e, length);
    }
  }

  /**
   No kept note loses its release or gains another's: the pairs of the trimmed events
   are the original pairs struck before `length`, in the same order.
   */
  lemma TrimmingCommutesWithPairing(es: seq<MidiEvent>, length: real)
    requires NormalisedEvents(es)
    ensures Pair(Trim(es, length)).notes == NotesBefore(Pair(es).notes, length)
  {
    FoldsStayInStep(es, length);
  }

  /** A kept event was an event; note-ons are kept exactly when struck inside the loop. */
  lemma TrimKeepsOrder(es: seq<MidiEvent>, length: real)
    requires WellFormedEvents(es)
    ensures WellFormedEvents(Trim(es, length))
    ensures forall e :: e in Trim(es, length) ==> e in es && (IsNoteOn(e) ==> e.beat < length)
  {
    TrimKeepsSome(es, length);
    TrimKeepsBeats(es, length);
    hide Trim;
  }

  lemma {:induction false} TrimKeepsSome(es: seq<MidiEvent>, length: real)
    requires WellFormedEvents(es)
    ensures forall e :: e in Trim(es, length) ==> e in es && (IsNoteOn(e) ==> e.beat < length)
  {
    if es != [] {
      TrimKeepsSome(es[..|es| - 1], length);
    }
  }

  /** In order, and none later than the last of them. */
  lemma {:induction false} TrimKeepsBeats(es: seq<MidiEvent>, length: real)
    requires WellFormedEvents(es)
    ensures var out := Trim(es, length); forall i, j :: 0 <= i < j < |out| ==> out[i].beat <= out[j].beat
  {
    if es != [] {
      var front, e := es[..|es| - 1], es[|es| - 1];
      TrimKeepsBeats(front, length);
      TrimKeepsSome(front, length);
      var out := Trim(front, length);
      hide Drops;
      forall i | 0 <= i < |out| ensures out[i].beat <= e.beat {
        assert out[i] in out && out[i] in front;
        var j :| 0 <= j < |front| && front[j] == out[i];
        assert es[j] == out[i];
      }
    }
  }

  /** Where a note came from: a note-on of its key, and a later note-off of that key. */
  ghost predicate ComesFrom(n: Note, es: seq<MidiEvent>, i: nat, j: nat) {
    && i < j < |es| && IsNoteOn(es[i]) && IsNoteOff(es[j]) && es[i].d1 == es[j].d1
    && n == Note(es[i].beat, es[j].beat, es[i].status, es[i].d1, es[i].d2)
  }

  lemma {:induction false} OpenNotesWereStruck(es: seq<MidiEvent>, key: Byte)
    ensures forall e :: e in At(Pair(es).open, key) ==> e in es && IsNoteOn(e) && e.d1 == key
  {
    if es != [] {
      var front, last := es[..|es| - 1], es[|es| - 1];
      assert es == front + [last];
      OpenNotesWereStruck(front, key);
      var q := At(Pair(front).open, key);
      assert forall e :: e in At(Pair(es).open, key) ==> e in q || (e == last && IsNoteOn(e) && e.d1 == key);
    }
  }

  lemma {:induction false} NotesComeFromEvents(es: seq<MidiEvent>)
    ensures forall n :: n in Pair(es).notes ==> exists i: nat, j: nat :: ComesFrom(n, es, i, j)
  {
    if es != [] {
      var front, last := es[..|es| - 1], es[|es| - 1];
      NotesComeFromEvents(front);
      forall n | n in Pair(es).notes ensures exists i: nat, j: nat :: ComesFrom(n, es, i, j) {
        if n in Pair(front).notes {
          var i: nat, j: nat :| ComesFrom(n, front, i, j);
          assert ComesFrom(n, es, i, j);
        } else {
          OpenNotesWereStruck(front, last.d1);
          var e := At(Pair(front).open, last.d1)[0];
          assert e in At(Pair(front).open, last.d1);
          var i :| 0 <= i < |front| && front[i] == e;
          assert ComesFrom(n, es, i, |es| - 1);
        }
      }
    }
  }

  // ---- which note-off is whose ----------------------------------------------------

  /** A key's note-ons, in order. */
  function StrikesOf(es: seq<MidiEvent>, key: Byte): seq<MidiEvent> {
    if es == [] then []
    else
      var e := es[|es| - 1];
      StrikesOf(es[..|es| - 1], key) + if IsNoteOn(e) && e.d1 == key then [e] else []
  }

  /** A key's note-offs, in order, leaving out each that comes with every note-on of the key already released. */
  function ReleasesOf(es: seq<MidiEvent>, key: Byte): seq<MidiEvent> {
    if es == [] then []
    else
      var front, e := es[..|es| - 1], es[|es| - 1];
      var before := ReleasesOf(front, key);
      before + if IsNoteOff(e) && e.d1 == key && |before| < |StrikesOf(front, key)| then [e] else []
  }

  function NotesOf(notes: seq<Note>, key: Byte): seq<Note> {
    if notes == [] then []
    else NotesOf(notes[..|notes| - 1], key) + if notes[|notes| - 1].key == key then [notes[|notes| - 1]] else []
  }

  /** The k-th note-on with the k-th note-off. */
  function Matched(ons: seq<MidiEvent>, offs: seq<MidiEvent>): seq<Note>
    requires |offs| <= |ons|
  {
    seq(|offs|, k requires 0 <= k < |offs| => Note(ons[k].beat, offs[k].beat, ons[k].status, ons[k].d1, ons[k].d2))
  }

  lemma MatchedMore(ons: seq<MidiEvent>, offs: seq<MidiEvent>, on: MidiEvent, off: MidiEvent)
    requires |offs| <= |ons|
    ensures Matched(ons + [on], offs) == Matched(ons, offs)
    ensures |offs| < |ons| ==>
      Matched(ons, offs + [off]) == Matched(ons, offs) + Matched(ons[|offs|..], [off])
  {
  }

  lemma NotesOfMore(notes: seq<Note>, n: Note, key: Byte)
    ensures NotesOf(notes + [n], key) == NotesOf(notes, key) + if n.key == key then [n] else []
  {
    assert (notes + [n])[..|notes|] == notes;
  }

  /** A key's notes are its first note-ons with its note-offs, and the note-ons left over are open. */
  ghost predicate InOrder(p: Paired, ons: seq<MidiEvent>, offs: seq<MidiEvent>, key: Byte) {
    && |offs| <= |ons|
    && NotesOf(p.notes, key) == Matched(ons, offs)
    && At(p.open, key) == ons[|offs|..]
    && forall e :: e in ons ==> e.d1 == key
  }

  lemma StrikeInOrder(p: Paired, ons: seq<MidiEvent>, offs: seq<MidiEvent>, key: Byte, e: MidiEvent)
    requires InOrder(p, ons, offs, key) && IsNoteOn(e)
    ensures InOrder(PairOne(p, e), ons + if e.d1 == key then [e] else [], offs, key)
  {
    MatchedMore(ons, offs, e, e);
    assert ons + [] == ons;
    hide NotesOf;
    hide Matched;
  }

  lemma ReleaseInOrder(p: Paired, ons: seq<MidiEvent>, offs: seq<MidiEvent>, key: Byte, e: MidiEvent)
    requires InOrder(p, ons, offs, key) && IsNoteOff(e)
    requires forall x :: x in At(p.open, e.d1) ==> x.d1 == e.d1
    ensures InOrder(PairOne(p, e), ons, offs + if e.d1 == key && |offs| < |ons| then [e] else [], key)
  {
    var q := At(p.open, e.d1);
    assert offs + [] == offs;
    if q != [] {
      assert q[0] in q;
      var n := Note(q[0].beat, e.beat, q[0].status, q[0].d1, q[0].d2);
      NotesOfMore(p.notes, n, key);
      if e.d1 == key {
        MatchedMore(ons, offs, e, e);
        assert Matched(ons[|offs|..], [e]) == [n];
        assert ons[|offs|..][1..] == ons[|offs| + 1..];
      }
    }
    hide NotesOf;
    hide Matched;
  }

  /**
   A key's notes are its note-ons and its note-offs in order, the first with the first, the
   second with the second; a note-off with nothing of its key open belongs to no note, and
   the note-ons left over stay open.
   */
  lemma {:induction false} PairsInOrder(es: seq<MidiEvent>, key: Byte)
    ensures InOrder(Pair(es), StrikesOf(es, key), ReleasesOf(es, key), key)
  {
    if es == [] {
      return;
    }
    var front, e := es[..|es| - 1], es[|es| - 1];
    PairsInOrder(front, key);
    var ons, offs := StrikesOf(front, key), ReleasesOf(front, key);
    OpenNotesWereStruck(front, e.d1);
    if IsNoteOn(e) {
      StrikeInOrder(Pair(front), ons, offs, key, e);
    } else if IsNoteOff(e) {
      ReleaseInOrder(Pair(front), ons, offs, key, e);
    }
    assert ons + [] == ons && offs + [] == offs;
    hide InOrder;
  }

  // ---- which events are dropped ------------------------------------------------------

  /** Where a key's note-ons are. */
  function StrikesAt(es: seq<MidiEvent>, key: Byte): (at: seq<nat>)
    ensures forall x :: 0 <= x < |at| ==> at[x] < |es| && IsNoteOn(es[at[x]]) && es[at[x]].d1 == key
  {
    if es == [] then []
    else
      var n := |es| - 1;
      StrikesAt(es[..n], key) + if IsNoteOn(es[n]) && es[n].d1 == key then [n] else []
  }

  /** Where its note-offs are, leaving out each that comes with every note-on of the key already released. */
  function ReleasesAt(es: seq<MidiEvent>, key: Byte): (at: seq<nat>)
    ensures forall x :: 0 <= x < |at| ==> at[x] < |es| && IsNoteOff(es[at[x]]) && es[at[x]].d1 == key
  {
    if es == [] then []
    else
      var n := |es| - 1;
      var before := ReleasesAt(es[..n], key);
      before + if IsNoteOff(es[n]) && es[n].d1 == key && |before| < |StrikesAt(es[..n], key)| then [n] else []
  }

  lemma {:induction false} FewerReleases(es: seq<MidiEvent>, key: Byte)
    ensures |ReleasesAt(es, key)| <= |StrikesAt(es, key)|
  {
    if es != [] {
      FewerReleases(es[..|es| - 1], key);
    }
  }

  /** The event at `i` releases the note-on struck at `on`: each is the k-th of its key. */
  ghost predicate Releasing(es: seq<MidiEvent>, i: nat, on: nat) {
    exists key: Byte, k: nat :: ReleasesKth(es, i, on, key, k)
  }

  ghost predicate ReleasesKth(es: seq<MidiEvent>, i: nat, on: nat, key: Byte, k: nat) {
    && k < |ReleasesAt(es, key)| && ReleasesAt(es, key)[k] == i
    && k < |StrikesAt(es, key)| && StrikesAt(es, key)[k] == on
  }

  /** Struck at or past `length`, or the release of a note that was. */
  ghost predicate Late(es: seq<MidiEvent>, i: nat, length: real) {
    i < |es| && if IsNoteOn(es[i]) then es[i].beat >= length
                else exists on: nat :: on < |es| && Releasing(es, i, on) && es[on].beat >= length
  }

  ghost predicate Increasing(at: seq<nat>) { forall x, y :: 0 <= x < y < |at| ==> at[x] < at[y] }

  /** The events that are not late, in order. */
  ghost predicate KeptAt(es: seq<MidiEvent>, length: real, out: seq<MidiEvent>, at: seq<nat>) {
    && Increasing(at) && |out| == |at|
    && (forall i: nat :: i in at <==> i < |es| && !Late(es, i, length))
    && forall x :: 0 <= x < |at| ==> at[x] < |es| && out[x] == es[at[x]]
  }

  /** What the trim has open of a key: its note-ons not yet released, each late or not. */
  function LateFlags(es: seq<MidiEvent>, key: Byte, length: real): seq<bool>
  {
    FewerReleases(es, key);
    var ons, n := StrikesAt(es, key), |ReleasesAt(es, key)|;
    seq(|ons| - n, x requires 0 <= x < |ons| - n => es[ons[n + x]].beat >= length)
  }

  lemma StrikesMore(es: seq<MidiEvent>, e: MidiEvent, key: Byte)
    ensures StrikesAt(es + [e], key) == StrikesAt(es, key) + if IsNoteOn(e) && e.d1 == key then [|es|] else []
    ensures ReleasesAt(es + [e], key) == ReleasesAt(es, key)
      + if IsNoteOff(e) && e.d1 == key && |ReleasesAt(es, key)| < |StrikesAt(es, key)| then [|es|] else []
  {
    assert (es + [e])[..|es|] == es;
  }

  lemma FlagsMore(es: seq<MidiEvent>, e: MidiEvent, key: Byte, length: real)
    ensures var q, q' := LateFlags(es, key, length), LateFlags(es + [e], key, length);
      q' == if e.d1 != key then q
            else if IsNoteOn(e) then q + [e.beat >= length]
            else if IsNoteOff(e) && q != [] then q[1..] else q
  {
    StrikesMore(es, e, key);
    FewerReleases(es, key);
    hide StrikesAt;
    hide ReleasesAt;
  }

  lemma {:induction false} TrimOpens(es: seq<MidiEvent>, length: real, key: Byte)
    requires NormalisedEvents(es)
    ensures At(TrimFold(es, length).open, key) == LateFlags(es, key, length)
  {
    if es == [] {
      return;
    }
    var front, e := es[..|es| - 1], es[|es| - 1];
    assert es == front + [e] && e in es;
    TrimOpens(front, length, key);
    TrimOpens(front, length, e.d1);
    FlagsMore(front, e, key, length);
    hide LateFlags;
  }

  /** Later events change nothing for earlier ones. */
  lemma LateStays(es: seq<MidiEvent>, e: MidiEvent, length: real, i: nat)
    requires i < |es|
    ensures Late(es + [e], i, length) <==> Late(es, i, length)
  {
    hide Releasing;
    forall on: nat ensures Releasing(es + [e], i, on) <==> on < |es| && Releasing(es, i, on) {
      ReleasingStays(es, e, i, on);
    }
  }

  lemma ReleasingStays(es: seq<MidiEvent>, e: MidiEvent, i: nat, on: nat)
    requires i < |es|
    ensures Releasing(es + [e], i, on) <==> on < |es| && Releasing(es, i, on)
  {
    hide StrikesAt;
    hide ReleasesAt;
    if on < |es| && Releasing(es, i, on) {
      var key: Byte, k: nat :| ReleasesKth(es, i, on, key, k);
      StrikesMore(es, e, key);
      assert ReleasesKth(es + [e], i, on, key, k);
    }
    if Releasing(es + [e], i, on) {
      var key: Byte, k: nat :| ReleasesKth(es + [e], i, on, key, k);
      StrikesMore(es, e, key);
      FewerReleases(es, key);
      assert ReleasesKth(es, i, on, key, k);
    }
  }

  /** The last event is late exactly when the trim drops it. */
  lemma LastLate(es: seq<MidiEvent>, e: MidiEvent, length: real)
    requires NormalisedEvents(es) && NormalisedEvent(e)
    ensures Late(es + [e], |es|, length) <==> Drops(TrimFold(es, length), e, length)
  {
    hide TrimFold;
    hide Releasing;
    hide StrikesAt;
    hide ReleasesAt;
    var all, n := es + [e], |es|;
    TrimOpens(es, length, e.d1);
    FewerReleases(es, e.d1);
    var ons, k := StrikesAt(es, e.d1), |ReleasesAt(es, e.d1)|;
    if !IsNoteOn(e) && IsNoteOff(e) && k < |ons| {
      LastReleases(es, e, k);
      assert all[ons[k]] == es[ons[k]];
      forall on: nat | Releasing(all, n, on) ensures on == ons[k] {
        OneReleased(es, e, on, k);
      }
    } else if !IsNoteOn(e) {
      forall on: nat ensures !Releasing(all, n, on) {
        NoneReleased(es, e, on);
      }
    }
  }

  lemma LastReleases(es: seq<MidiEvent>, e: MidiEvent, k: nat)
    requires IsNoteOff(e) && k == |ReleasesAt(es, e.d1)| < |StrikesAt(es, e.d1)|
    ensures Releasing(es + [e], |es|, StrikesAt(es, e.d1)[k])
  {
    StrikesMore(es, e, e.d1);
    hide StrikesAt;
    hide ReleasesAt;
    assert ReleasesKth(es + [e], |es|, StrikesAt(es, e.d1)[k], e.d1, k);
  }

  lemma OneReleased(es: seq<MidiEvent>, e: MidiEvent, on: nat, k: nat)
    requires Releasing(es + [e], |es|, on) && k == |ReleasesAt(es, e.d1)| < |StrikesAt(es, e.d1)|
    ensures on == StrikesAt(es, e.d1)[k] && IsNoteOff(e)
  {
    var key: Byte, j: nat :| ReleasesKth(es + [e], |es|, on, key, j);
    StrikesMore(es, e, key);
    assert key == e.d1;
  }

  lemma NoneReleased(es: seq<MidiEvent>, e: MidiEvent, on: nat)
    requires !IsNoteOff(e) || |ReleasesAt(es, e.d1)| >= |StrikesAt(es, e.d1)|
    ensures !Releasing(es + [e], |es|, on)
  {
    forall key: Byte, j: nat ensures !ReleasesKth(es + [e], |es|, on, key, j) {
      StrikesMore(es, e, key);
    }
  }

  lemma {:induction false} TrimFoldKeeps(es: seq<MidiEvent>, length: real) returns (at: seq<nat>)
    requires NormalisedEvents(es)
    ensures KeptAt(es, length, Trim(es, length), at)
  {
    if es == [] {
      NothingTrimmed(length);
      return [];
    }
    hide Late;
    hide Drops;
    hide KeptAt;
    hide Trim;
    hide TrimFold;
    var front, e, n := es[..|es| - 1], es[|es| - 1], |es| - 1;
    assert es == front + [e] && e in es;
    var before := TrimFoldKeeps(front, length);
    LastLate(front, e, length);
    KeptMore(front, e, length, Trim(front, length), before);
    TrimNext(front, e, length);
    at := if Late(es, n, length) then before else before + [n];
  }

  lemma TrimNext(es: seq<MidiEvent>, e: MidiEvent, length: real)
    ensures Trim(es + [e], length)
         == Trim(es, length) + if Drops(TrimFold(es, length), e, length) then [] else [e]
  {
    assert (es + [e])[..|es|] == es;
    hide Drops;
  }

  lemma NothingTrimmed(length: real)
    ensures KeptAt([], length, Trim([], length), [])
  {
  }

  lemma KeptMore(es: seq<MidiEvent>, e: MidiEvent, length: real, out: seq<MidiEvent>, at: seq<nat>)
    requires KeptAt(es, length, out, at)
    ensures if Late(es + [e], |es|, length) then KeptAt(es + [e], length, out, at)
            else KeptAt(es + [e], length, out + [e], at + [|es|])
  {
    var all, n := es + [e], |es|;
    forall i: nat | i < n ensures Late(all, i, length) <==> Late(es, i, length) {
      LateStays(es, e, length, i);
    }
    hide Late;
    assert forall x :: 0 <= x < |at| ==> at[x] in at;
    var more := at + [n];
    assert forall i: nat :: i in more <==> i in at || i == n;
  }

  /**
   The trim keeps exactly the events that are not late, in order: a note-on struck at or
   past the length goes, and with it the note-off that releases it, and nothing else.
   */
  lemma TrimExactly(es: seq<MidiEvent>, length: real)
    requires NormalisedEvents(es)
    ensures exists at :: KeptAt(es, length, Trim(es, length), at)
  {
    var at := TrimFoldKeeps(es, length);
  }

  /** `_drop_struck_at_end`. */
  method DropStruckAtEnd(events: seq<MidiEvent>, length: real) returns (out: seq<MidiEvent>)
    ensures out == Trim(events, length)
  {
    var open: map<Byte, seq<bool>> := map[];
    out := [];
    for i := 0 to |events|
      invariant TrimFold(events[..i], length) == Trimmed(open, out)
    {
      assert events[..i + 1][..i] == events[..i];
      var e := events[i];
      if IsNoteOn(e) && e.d2 > 0 {
        var dropped := e.beat >= length;
        open := open[e.d1 := At(open, e.d1) + [dropped]];
        if dropped {
          continue;
        }
      } else if (IsNoteOff(e) || IsNoteOn(e)) && At(open, e.d1) != [] {
        var dropped := open[e.d1][0];
        open := open[e.d1 := open[e.d1][1..]];
        if dropped {
          continue;
        }
      }
      out := out + [e];
    }
    assert events[..|events|] == events;
  }

  /** `_pair_notes`. */
  method PairNotes(events: seq<MidiEvent>) returns (notes: seq<Note>)
    ensures notes == Pair(events).notes
  {
    var open: map<Byte, seq<MidiEvent>> := map[];
    notes := [];
    for i := 0 to |events|
      invariant Pair(events[..i]) == Paired(open, notes)
    {
      assert events[..i + 1][..i] == events[..i];
      var e := events[i];
      if IsNoteOn(e) {
        open := open[e.d1 := At(open, e.d1) + [e]];
      } else if IsNoteOff(e) && At(open, e.d1) != [] {
        var on := open[e.d1][0];
        open := open[e.d1 := open[e.d1][1..]];
        notes := notes + [Note(on.beat, e.beat, on.status, on.d1, on.d2)];
      }
    }
    assert events[..|events|] == events;
  }
}
