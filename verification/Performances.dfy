/**
 control/midifile.py: what a file says, told without its encoding.

 A performance is a list of commands at absolute ticks. `TrackIsPerformed`: a track that
 spells the performance's tick gaps and lengths out in base 128 parses to exactly its
 messages at exactly its ticks, a note-on of velocity 0 as the note-off of its channel and
 key, and to its end, first tempo and first name. Every legal track spells one
 (`EveryTrackPerforms`). `FileIsPerformed` is the same of whole files, in beats.
 */
module Performances {
  import opened Wrappers
  import opened StableSorting
  import opened MidiTracks
  import opened MidiFiles
  import MidiParser

  datatype Command =
    | Voice(status: Byte, d1: Byte, d2: Byte)
    | Text(mtype: Byte, body: seq<Byte>)
    | Exclusive(lead: Byte, body: seq<Byte>)

  /** A command at its absolute tick. */
  datatype Item = Item(tick: nat, command: Command)

  // ---- what is to be heard of it ----------------------------------------------------

  /** The channel message, if it is one; note-on is 0x90 to 0x9F and note-off 0x10 lower. */
  function HeardOne(p: Item): seq<Message> {
    match p.command
    case Voice(status, d1, d2) =>
      [Message(p.tick, if 0x90 <= status <= 0x9F && d2 == 0 then status - 0x10 else status, d1, d2)]
    case _ => []
  }

  function Heard(ps: seq<Item>): seq<Message> { if ps == [] then [] else HeardOne(ps[0]) + Heard(ps[1..]) }

  predicate IsEnd(p: Item) { p.command.Text? && p.command.mtype == 0x2F }

  /** The tick of the last End-of-Track, or the last tick when there is none. */
  ghost predicate EndsAt(ps: seq<Item>, t: nat) {
    if forall i :: 0 <= i < |ps| ==> !IsEnd(ps[i]) then t == if ps == [] then 0 else ps[|ps| - 1].tick
    else exists i :: 0 <= i < |ps| && IsEnd(ps[i]) && t == ps[i].tick && forall j :: i < j < |ps| ==> !IsEnd(ps[j])
  }

  predicate SetsTempo(p: Item) { p.command.Text? && p.command.mtype == 0x51 && |p.command.body| == 3 }

  /** Three bytes, most significant first. */
  function Micros(b: seq<Byte>): nat
    requires |b| == 3
  {
    var hi: nat, mid: nat, lo: nat := b[0], b[1], b[2];
    hi * 0x10000 + mid * 0x100 + lo
  }

  ghost predicate TempoIs(ps: seq<Item>, tempo: Option<nat>) {
    match tempo
    case None => forall i :: 0 <= i < |ps| ==> !SetsTempo(ps[i])
    case Some(v) =>
      exists i :: 0 <= i < |ps| && SetsTempo(ps[i]) && v == Micros(ps[i].command.body)
                  && forall j :: 0 <= j < i ==> !SetsTempo(ps[j])
  }

  predicate Names(p: Item) { p.command.Text? && p.command.mtype == 0x03 }

  ghost predicate NameIs(ps: seq<Item>, name: Option<seq<Byte>>) {
    match name
    case None => forall i :: 0 <= i < |ps| ==> !Names(ps[i])
    case Some(b) =>
      exists i :: 0 <= i < |ps| && Names(ps[i]) && b == ps[i].command.body && forall j :: 0 <= j < i ==> !Names(ps[j])
  }

  /** The track says what the performance does. */
  ghost predicate Says(t: Track, ps: seq<Item>) {
    t.messages == Heard(ps) && EndsAt(ps, t.endTick) && TempoIs(ps, t.tempo) && NameIs(ps, t.name)
  }

  // ---- writing it down -------------------------------------------------------------------

  /** The digits spell the number, in whatever width it fits. */
  predicate Spells(ds: seq<Digit>, n: nat) { Fits(n, |ds|) && ds == DigitsOf(n, |ds|) }

  predicate SameCommand(e: Event, c: Command) {
    match e
    case Channel(_, _, status, d1, d2) => c == Voice(status, d1, d2)
    case Meta(_, mtype, length, body) => c == Text(mtype, body) && Spells(length, |body|)
    case SysEx(_, lead, length, body) => c == Exclusive(lead, body) && Spells(length, |body|)
  }

  /** The events are the commands in order, each after its gap from the tick before, `from` at first. */
  predicate Writes(es: seq<Event>, ps: seq<Item>, from: nat) {
    if es == [] || ps == [] then es == [] && ps == []
    else
      && from <= ps[0].tick && Spells(es[0].delta, ps[0].tick - from) && SameCommand(es[0], ps[0].command)
      && Writes(es[1..], ps[1..], ps[0].tick)
  }

  /** Statuses, data bytes and leads are ones a writer may use, and a status left out is the running one. */
  predicate Permitted(es: seq<Event>, running: Byte) {
    es != [] ==> LegalCommand(es[0], running) && Permitted(es[1..], RunningAfter(es[0]))
  }

  lemma SpellsExactly(ds: seq<Digit>, n: nat)
    ensures Spells(ds, n) <==> LegalQuantity(ds) && Value(ds) == n
  {
    DigitsWritten(ds);
    if Spells(ds, n) {
      DigitsRead(n, |ds|);
    }
  }

  lemma {:induction false} WritingIsLegal(es: seq<Event>, ps: seq<Item>, from: nat, running: Byte)
    requires Writes(es, ps, from)
    ensures Legal(es, running) <==> Permitted(es, running)
  {
    if es != [] {
      SpellsExactly(es[0].delta, ps[0].tick - from);
      if !es[0].Channel? {
        SpellsExactly(es[0].length, |es[0].body|);
      }
      WritingIsLegal(es[1..], ps[1..], ps[0].tick, RunningAfter(es[0]));
      hide Spells;
      hide LegalCommand;
    }
  }

  /** The commands of a list of events, each at the tick its deltas come to. */
  function Performance(es: seq<Event>, from: nat): seq<Item> {
    if es == [] then []
    else
      var tick := from + Value(es[0].delta);
      var command := match es[0]
        case Channel(_, _, status, d1, d2) => Voice(status, d1, d2)
        case Meta(_, mtype, _, body) => Text(mtype, body)
        case SysEx(_, lead, _, body) => Exclusive(lead, body);
      [Item(tick, command)] + Performance(es[1..], tick)
  }

  lemma {:induction false} LegalIsWritten(es: seq<Event>, running: Byte, from: nat)
    requires Legal(es, running)
    ensures Writes(es, Performance(es, from), from)
  {
    if es != [] {
      SpellsExactly(es[0].delta, Value(es[0].delta));
      if !es[0].Channel? {
        SpellsExactly(es[0].length, |es[0].body|);
      }
      LegalIsWritten(es[1..], RunningAfter(es[0]), from + Value(es[0].delta));
      hide Spells;
    }
  }

  /** Every legal track is some performance written down. */
  lemma EveryTrackPerforms(es: seq<Event>)
    requires Legal(es, 0)
    ensures Permitted(es, 0) && exists ps :: Writes(es, ps, 0)
  {
    LegalIsWritten(es, 0, 0);
    WritingIsLegal(es, Performance(es, 0), 0, 0);
  }

  // ---- reading it back --------------------------------------------------------------------

  lemma {:induction false} WritesSplits(es: seq<Event>, ps: seq<Item>, from: nat)
    requires Writes(es, ps, from) && es != []
    ensures |es| == |ps|
    ensures var n := |es| - 1; var before := if n == 0 then from else ps[n - 1].tick;
      && Writes(es[..n], ps[..n], from)
      && before <= ps[n].tick && Spells(es[n].delta, ps[n].tick - before) && SameCommand(es[n], ps[n].command)
  {
    hide Spells;
    hide SameCommand;
    if |es| > 1 && ps[1..] != [] {
      WritesSplits(es[1..], ps[1..], ps[0].tick);
      var n := |es| - 1;
      assert es[1..][..n - 1] == es[..n][1..] && ps[1..][..n - 1] == ps[..n][1..];
    }
  }

  lemma {:induction false} HeardSnoc(ps: seq<Item>, p: Item)
    ensures Heard(ps + [p]) == Heard(ps) + HeardOne(p)
  {
    if ps == [] {
      assert [p][1..] == [] && ps + [p] == [p];
    } else {
      assert (ps + [p])[1..] == ps[1..] + [p];
      HeardSnoc(ps[1..], p);
    }
    hide HeardOne;
  }

  /** The last End-of-Track so far. */
  ghost predicate EndSoFar(ps: seq<Item>, mark: Option<nat>) {
    match mark
    case None => forall i :: 0 <= i < |ps| ==> !IsEnd(ps[i])
    case Some(t) =>
      exists i :: 0 <= i < |ps| && IsEnd(ps[i]) && t == ps[i].tick && forall j :: i < j < |ps| ==> !IsEnd(ps[j])
  }

  lemma EndSnoc(ps: seq<Item>, mark: Option<nat>, p: Item)
    requires EndSoFar(ps, mark)
    ensures EndSoFar(ps + [p], if IsEnd(p) then Some(p.tick) else mark)
  {
    var all := ps + [p];
    if IsEnd(p) {
      assert IsEnd(all[|ps|]);
    } else if mark.Some? {
      var i :| 0 <= i < |ps| && IsEnd(ps[i]) && mark.value == ps[i].tick && forall j :: i < j < |ps| ==> !IsEnd(ps[j]);
      assert all[i] == ps[i];
    }
  }

  lemma TempoSnoc(ps: seq<Item>, tempo: Option<nat>, p: Item)
    requires TempoIs(ps, tempo)
    ensures TempoIs(ps + [p],
                    if tempo.Some? then tempo else if SetsTempo(p) then Some(Micros(p.command.body)) else None)
  {
    var all := ps + [p];
    if tempo.Some? {
      var i :| 0 <= i < |ps| && SetsTempo(ps[i]) && tempo.value == Micros(ps[i].command.body)
               && forall j :: 0 <= j < i ==> !SetsTempo(ps[j]);
      assert all[i] == ps[i];
    } else if SetsTempo(p) {
      assert SetsTempo(all[|ps|]);
    }
    hide Micros;
  }

  lemma NameSnoc(ps: seq<Item>, name: Option<seq<Byte>>, p: Item)
    requires NameIs(ps, name)
    ensures NameIs(ps + [p], if name.Some? then name else if Names(p) then Some(p.command.body) else None)
  {
    var all := ps + [p];
    if name.Some? {
      var i :| 0 <= i < |ps| && Names(ps[i]) && name.value == ps[i].command.body
               && forall j :: 0 <= j < i ==> !Names(ps[j]);
      assert all[i] == ps[i];
    } else if Names(p) {
      assert Names(all[|ps|]);
    }
  }

  lemma MicrosAreBigEndian(b: seq<Byte>)
    requires |b| == 3
    ensures BigEndian(b) == Micros(b)
  {
    assert b[..2][..1] == b[..1] && b[..1][..0] == [];
    assert BigEndian(b[..1]) == b[0];
    assert BigEndian(b[..2]) == BigEndian(b[..1]) * 256 + b[1];
  }

  /** What the reader keeps as it goes through the events is what the performance says so far. */
  ghost predicate SaysSoFar(es: seq<Event>, ps: seq<Item>) {
    && TotalTicks(es) == (if ps == [] then 0 else ps[|ps| - 1].tick)
    && Messages(es) == Heard(ps)
    && EndSoFar(ps, EndMark(es)) && TempoIs(ps, Tempo(es)) && NameIs(ps, Name(es))
  }

  lemma NoneSaysNothing()
    ensures SaysSoFar([], [])
  {
  }

  lemma OneMoreSaid(es: seq<Event>, ps: seq<Item>, e: Event, p: Item)
    requires SaysSoFar(es, ps) && SameCommand(e, p.command)
    requires p.tick == TotalTicks(es) + Value(e.delta)
    ensures SaysSoFar(es + [e], ps + [p])
  {
    MidiParser.MeaningOfSnoc(es, e);
    HeardSnoc(ps, p);
    EndSnoc(ps, EndMark(es), p);
    TempoSnoc(ps, Tempo(es), p);
    NameSnoc(ps, Name(es), p);
    if IsTempo(e) {
      MicrosAreBigEndian(e.body);
    }
    hide EndSoFar;
    hide TempoIs;
    hide NameIs;
    hide Spells;
    hide Micros;
    hide Heard;
  }

  lemma {:induction false} WritingSays(es: seq<Event>, ps: seq<Item>)
    requires Writes(es, ps, 0)
    ensures SaysSoFar(es, ps)
  {
    hide SaysSoFar;
    hide Spells;
    hide SameCommand;
    hide Value;
    if es == [] {
      NoneSaysNothing();
      return;
    }
    WritesSplits(es, ps, 0);
    var n := |es| - 1;
    hide Writes;
    WritingSays(es[..n], ps[..n]);
    SpellsExactly(es[n].delta, ps[n].tick - if n == 0 then 0 else ps[n - 1].tick);
    assert es == es[..n] + [es[n]] && ps == ps[..n] + [ps[n]];
    SaidTicks(es[..n], ps[..n]);
    OneMoreSaid(es[..n], ps[..n], es[n], ps[n]);
  }

  lemma SaidTicks(es: seq<Event>, ps: seq<Item>)
    requires SaysSoFar(es, ps)
    ensures TotalTicks(es) == if ps == [] then 0 else ps[|ps| - 1].tick
  {
  }

  lemma SaidAll(es: seq<Event>, ps: seq<Item>)
    requires SaysSoFar(es, ps)
    ensures Says(Meaning(es), ps) && TempoIs(ps, Tempo(es))
  {
    hide TempoIs;
    hide NameIs;
    hide Heard;
  }

  /**
   A track that writes a performance down parses to what the performance says: each channel
   message at its tick, the end, the first tempo and the first name. Only a tempo of zero
   is refused.
   */
  lemma TrackIsPerformed(es: seq<Event>, ps: seq<Item>)
    requires Writes(es, ps, 0) && Permitted(es, 0)
    ensures TempoIs(ps, Some(0)) ==> Parsed(Encode(es)).Err?
    ensures !TempoIs(ps, Some(0)) ==> Parsed(Encode(es)).Ok? && Says(Parsed(Encode(es)).value, ps)
  {
    hide Writes;
    hide Permitted;
    hide Legal;
    hide TempoIs;
    hide SaysSoFar;
    hide Says;
    hide ReadEvents;
    hide Meaning;
    WritingIsLegal(es, ps, 0, 0);
    WritingSays(es, ps);
    SaidAll(es, ps);
    EventsReadBack(es, 0);
    if TempoIs(ps, Some(0)) {
      OneTempo(ps, Tempo(es), Some(0));
    }
  }

  lemma OneTempo(ps: seq<Item>, a: Option<nat>, b: Option<nat>)
    requires TempoIs(ps, a) && TempoIs(ps, b)
    ensures a == b
  {
    if a.Some? && b.Some? {
      var i :| 0 <= i < |ps| && SetsTempo(ps[i]) && a.value == Micros(ps[i].command.body)
               && forall j :: 0 <= j < i ==> !SetsTempo(ps[j]);
      var k :| 0 <= k < |ps| && SetsTempo(ps[k]) && b.value == Micros(ps[k].command.body)
               && forall j :: 0 <= j < k ==> !SetsTempo(ps[j]);
      assert i == k;
    }
    hide Micros;
  }

  // ---- whole files -----------------------------------------------------------------------------

  function AllHeard(pss: seq<seq<Item>>): seq<Message> {
    if pss == [] then [] else Heard(pss[0]) + AllHeard(pss[1..])
  }

  /** All the tracks' messages by tick, those of one tick by track and then as they come in it. */
  ghost predicate Merges(ms: seq<Message>, pss: seq<seq<Item>>) {
    && (forall i, j :: 0 <= i < j < |ms| ==> ms[i].tick <= ms[j].tick)
    && multiset(ms) == multiset(AllHeard(pss))
    && forall tick: nat :: OfTick(ms, tick) == OfTick(AllHeard(pss), tick)
  }

  /** The same messages with beats for ticks. */
  ghost predicate InBeats(es: seq<MidiEvent>, ms: seq<Message>, division: nat) {
    && |es| == |ms|
    && forall i :: 0 <= i < |es| ==>
         && es[i].beat * division as real == ms[i].tick as real
         && es[i].status == ms[i].status && es[i].d1 == ms[i].d1 && es[i].d2 == ms[i].d2
  }

  /** The latest of the tracks' ends; 0 when there is no track. */
  ghost predicate LatestEnd(pss: seq<seq<Item>>, t: nat) {
    && (pss == [] ==> t == 0)
    && (pss != [] ==> exists i :: 0 <= i < |pss| && EndsAt(pss[i], t))
    && forall i, u: nat :: 0 <= i < |pss| && EndsAt(pss[i], u) ==> u <= t
  }

  /** Each track of the file writes its performance down, by permitted means. */
  ghost predicate WritesFile(f: File, pss: seq<seq<Item>>) {
    && |f.tracks| == |pss|
    && forall i :: 0 <= i < |pss| ==>
         Writes(f.tracks[i], pss[i], 0) && Permitted(f.tracks[i], 0) && !TempoIs(pss[i], Some(0))
  }

  /** The first track's that has one. */
  ghost predicate FirstTempoIs(pss: seq<seq<Item>>, tempo: Option<nat>) {
    match tempo
    case None => forall i :: 0 <= i < |pss| ==> TempoIs(pss[i], None)
    case Some(_) =>
      exists i :: 0 <= i < |pss| && TempoIs(pss[i], tempo) && forall j :: 0 <= j < i ==> TempoIs(pss[j], None)
  }

  ghost predicate FirstNameIs(pss: seq<seq<Item>>, name: Option<seq<Byte>>) {
    match name
    case None => forall i :: 0 <= i < |pss| ==> NameIs(pss[i], None)
    case Some(_) =>
      exists i :: 0 <= i < |pss| && NameIs(pss[i], name) && forall j :: 0 <= j < i ==> NameIs(pss[j], None)
  }

  /** The file says what its tracks' performances do together. */
  ghost predicate FileSays(m: MidiFile, pss: seq<seq<Item>>, division: nat) {
    && m.ticksPerBeat == division
    && (exists ms :: Merges(ms, pss) && InBeats(m.events, ms, division))
    && (exists t: nat :: LatestEnd(pss, t) && m.endBeat * division as real == t as real)
    && FirstTempoIs(pss, m.tempo) && FirstNameIs(pss, m.name)
  }

  /** The parts of a file around its tracks: a legal header, header bytes of the length it declares, short chunks. */
  predicate WellPacked(f: File) {
    && f.header.Legal() && f.header.tracks == |f.tracks|
    && (if f.tracks == [] then f.extra == [] else |f.extra| == f.header.length - 6)
    && ShortBodies(Bodies(f.tracks))
  }

  ghost predicate EachSays(ts: seq<Track>, pss: seq<seq<Item>>) {
    |ts| == |pss| && forall i :: 0 <= i < |ts| ==> Says(ts[i], pss[i])
  }

  lemma EachSaysSplits(ts: seq<Track>, pss: seq<seq<Item>>)
    requires EachSays(ts, pss) && ts != []
    ensures var n := |ts| - 1;
      && EachSays(ts[..n], pss[..n]) && Says(ts[n], pss[n])
      && ts == ts[..n] + [ts[n]] && pss == pss[..n] + [pss[n]]
  {
    hide Says;
  }

  lemma {:induction false} AllHeardSnoc(pss: seq<seq<Item>>, ps: seq<Item>)
    ensures AllHeard(pss + [ps]) == AllHeard(pss) + Heard(ps)
  {
    if pss == [] {
      assert [ps][1..] == [] && pss + [ps] == [ps];
    } else {
      assert (pss + [ps])[1..] == pss[1..] + [ps];
      AllHeardSnoc(pss[1..], ps);
    }
    hide Heard;
  }

  lemma {:induction false} AllMessagesHeard(ts: seq<Track>, pss: seq<seq<Item>>)
    requires EachSays(ts, pss)
    ensures AllMessages(ts) == AllHeard(pss)
  {
    if ts != [] {
      var n := |ts| - 1;
      EachSaysSplits(ts, pss);
      AllMessagesHeard(ts[..n], pss[..n]);
      AllHeardSnoc(pss[..n], pss[n]);
      hide Heard;
      hide TempoIs;
      hide NameIs;
      hide EndsAt;
      hide AllHeard;
    }
  }

  lemma EndIsOne(ps: seq<Item>, t: nat, u: nat)
    requires EndsAt(ps, t) && EndsAt(ps, u)
    ensures t == u
  {
    if !(forall i :: 0 <= i < |ps| ==> !IsEnd(ps[i])) {
      var i :| 0 <= i < |ps| && IsEnd(ps[i]) && t == ps[i].tick && forall j :: i < j < |ps| ==> !IsEnd(ps[j]);
      var k :| 0 <= k < |ps| && IsEnd(ps[k]) && u == ps[k].tick && forall j :: k < j < |ps| ==> !IsEnd(ps[j]);
      assert i == k;
    }
  }

  lemma {:induction false} LastEndIsLatest(ts: seq<Track>, pss: seq<seq<Item>>)
    requires EachSays(ts, pss)
    ensures LatestEnd(pss, LastEnd(ts))
  {
    if ts != [] {
      var n := |ts| - 1;
      EachSaysSplits(ts, pss);
      LastEndIsLatest(ts[..n], pss[..n]);
      LatestSnoc(pss[..n], LastEnd(ts[..n]), pss[n], ts[n].endTick);
      hide LatestEnd;
      hide EndsAt;
      hide TempoIs;
      hide NameIs;
      hide Heard;
    }
  }

  lemma LatestSnoc(pss: seq<seq<Item>>, t: nat, ps: seq<Item>, u: nat)
    requires LatestEnd(pss, t) && EndsAt(ps, u)
    ensures LatestEnd(pss + [ps], if t < u then u else t)
  {
    hide EndsAt;
    var all, latest := pss + [ps], if t < u then u else t;
    if pss != [] && latest == t {
      var i :| 0 <= i < |pss| && EndsAt(pss[i], t);
      assert all[i] == pss[i];
    } else {
      assert all[|pss|] == ps && EndsAt(all[|pss|], latest);
    }
    forall i, x: nat | 0 <= i < |all| && EndsAt(all[i], x) ensures x <= latest {
      if i == |pss| {
        EndIsOne(ps, u, x);
      } else {
        assert all[i] == pss[i];
      }
    }
  }

  lemma {:induction false} FirstTempoFound(ts: seq<Track>, pss: seq<seq<Item>>)
    requires EachSays(ts, pss)
    ensures FirstTempoIs(pss, FirstTempo(ts))
  {
    if ts != [] {
      var n := |ts| - 1;
      EachSaysSplits(ts, pss);
      FirstTempoFound(ts[..n], pss[..n]);
      FirstTempoSnoc(pss[..n], FirstTempo(ts[..n]), pss[n], ts[n].tempo);
      hide FirstTempoIs;
      hide EndsAt;
      hide TempoIs;
      hide NameIs;
      hide Heard;
    }
  }

  lemma FirstTempoSnoc(pss: seq<seq<Item>>, tempo: Option<nat>, ps: seq<Item>, last: Option<nat>)
    requires FirstTempoIs(pss, tempo) && TempoIs(ps, last)
    ensures FirstTempoIs(pss + [ps], if tempo.Some? then tempo else last)
  {
    hide TempoIs;
    var all := pss + [ps];
    if tempo.Some? {
      var i :| 0 <= i < |pss| && TempoIs(pss[i], tempo) && forall j :: 0 <= j < i ==> TempoIs(pss[j], None);
      assert all[i] == pss[i];
    } else if last.Some? {
      assert all[|pss|] == ps && TempoIs(all[|pss|], last);
    }
  }

  lemma {:induction false} FirstNameFound(ts: seq<Track>, pss: seq<seq<Item>>)
    requires EachSays(ts, pss)
    ensures FirstNameIs(pss, FirstName(ts))
  {
    if ts != [] {
      var n := |ts| - 1;
      EachSaysSplits(ts, pss);
      FirstNameFound(ts[..n], pss[..n]);
      FirstNameSnoc(pss[..n], FirstName(ts[..n]), pss[n], ts[n].name);
      hide FirstNameIs;
      hide EndsAt;
      hide TempoIs;
      hide NameIs;
      hide Heard;
    }
  }

  lemma FirstNameSnoc(pss: seq<seq<Item>>, name: Option<seq<Byte>>, ps: seq<Item>, last: Option<seq<Byte>>)
    requires FirstNameIs(pss, name) && NameIs(ps, last)
    ensures FirstNameIs(pss + [ps], if name.Some? then name else last)
  {
    hide NameIs;
    var all := pss + [ps];
    if name.Some? {
      var i :| 0 <= i < |pss| && NameIs(pss[i], name) && forall j :: 0 <= j < i ==> NameIs(pss[j], None);
      assert all[i] == pss[i];
    } else if last.Some? {
      assert all[|pss|] == ps && NameIs(all[|pss|], last);
    }
  }

  lemma BeatsTimesDivision(ms: seq<Message>, division: nat)
    requires division > 0
    ensures InBeats(AtBeats(ms, division), ms, division)
  {
  }

  lemma MergedMerges(ts: seq<Track>, pss: seq<seq<Item>>)
    requires AllMessages(ts) == AllHeard(pss)
    ensures Merges(SortBy(AllMessages(ts), Key), pss)
  {
    var ms := SortBy(AllMessages(ts), Key);
    forall tick: nat ensures OfTick(ms, tick) == OfTick(AllHeard(pss), tick) {
      MergingIsStable(ts, tick);
    }
    MergingIsStable(ts, 0);
    hide SortBy;
    hide OfTick;
    forall i, j | 0 <= i < j < |ms| ensures ms[i].tick <= ms[j].tick {
      assert Key(ms[i]) <= Key(ms[j]);
    }
  }

  lemma MergedSays(ts: seq<Track>, pss: seq<seq<Item>>, division: nat)
    requires EachSays(ts, pss) && division > 0
    ensures FileSays(Merged(ts, division), pss, division)
  {
    hide EachSays;
    hide Merges;
    hide InBeats;
    hide LatestEnd;
    hide FirstTempoIs;
    hide FirstNameIs;
    hide SortBy;
    hide AllMessages;
    hide AllHeard;
    hide AtBeats;
    hide LastEnd;
    hide FirstTempo;
    hide FirstName;
    AllMessagesHeard(ts, pss);
    MergedMerges(ts, pss);
    BeatsTimesDivision(SortBy(AllMessages(ts), Key), division);
    LastEndIsLatest(ts, pss);
    FirstTempoFound(ts, pss);
    FirstNameFound(ts, pss);
    assert LastEnd(ts) as real / division as real * division as real == LastEnd(ts) as real;
  }

  /**
   A file whose tracks write performances down parses to what they say together: their
   messages on one timeline in beats, the latest end, the first track's tempo and name.
   */
  lemma FileIsPerformed(f: File, pss: seq<seq<Item>>)
    requires WellPacked(f) && WritesFile(f, pss)
    ensures ParsedFile(EncodeFile(f)).Ok? && FileSays(ParsedFile(EncodeFile(f)).value, pss, f.header.division)
  {
    hide Writes;
    hide Permitted;
    hide TempoIs;
    hide Says;
    hide ParsedFile;
    hide FileSays;
    hide Legal;
    hide Meaning;
    forall i | 0 <= i < |pss| ensures LegalTrack(f.tracks[i]) && Says(Meaning(f.tracks[i]), pss[i]) {
      WritingIsLegal(f.tracks[i], pss[i], 0, 0);
      WritingSays(f.tracks[i], pss[i]);
      SaidAll(f.tracks[i], pss[i]);
    }
    FileReadBack(f);
    MergedSays(Meanings(f.tracks), pss, f.header.division);
  }
}
