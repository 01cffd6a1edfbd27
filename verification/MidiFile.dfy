/**
 control/midifile.py: whole files. `EncodeFile` writes the chunks of RP-001;
 `MidiFiles.ParseMidi` is the source's `parse_midi`, and `FileAccepted` says the two
 are inverse.
 */
module MidiFiles {
  import opened Wrappers
  import opened StableSorting
  import opened MidiTracks
  import MidiParser

  /** "MThd" and "MTrk". */
  const MTHD: seq<Byte> := [0x4D, 0x54, 0x68, 0x64]
  const MTRK: seq<Byte> := [0x4D, 0x54, 0x72, 0x6B]

  // ---- fixed-width big-endian numbers --------------------------------------

  function Power256(n: nat): nat { if n == 0 then 1 else 256 * Power256(n - 1) }

  function Put(v: nat, width: nat): (r: seq<Byte>)
    ensures |r| == width
  {
    if width == 0 then [] else Put(v / 256, width - 1) + [v % 256]
  }

  lemma {:induction false} PutReadBack(v: nat, width: nat)
    requires v < Power256(width)
    ensures BigEndian(Put(v, width)) == v
  {
    if width > 0 {
      PutReadBack(v / 256, width - 1);
      assert Put(v, width)[..width - 1] == Put(v / 256, width - 1);
    }
  }

  lemma {:induction false} PutWasWritten(s: seq<Byte>)
    ensures Put(BigEndian(s), |s|) == s && BigEndian(s) < Power256(|s|)
  {
    if s != [] {
      PutWasWritten(s[..|s| - 1]);
      assert s == s[..|s| - 1] + [s[|s| - 1]];
    }
  }

  // ---- chunks ---------------------------------------------------------------

  const FOUR_BYTES := 0x1_0000_0000

  function Chunk(body: seq<Byte>): seq<Byte> { MTRK + Put(|body|, 4) + body }

  function EncodeChunks(bodies: seq<seq<Byte>>): seq<Byte> {
    if bodies == [] then [] else Chunk(bodies[0]) + EncodeChunks(bodies[1..])
  }

  predicate ShortBodies(bodies: seq<seq<Byte>>) {
    forall i :: 0 <= i < |bodies| ==> |bodies[i]| < FOUR_BYTES
  }

  /** The first chunk's body, when there is a whole MTrk chunk. */
  function ReadChunk(s: seq<Byte>): (r: Result<seq<Byte>>)
    ensures r.Ok? ==> 8 + |r.value| <= |s|
  {
    if |s| < 8 || 8 + BigEndian(s[4..8]) > |s| || s[..4] != MTRK then Err
    else Ok(s[8..8 + BigEndian(s[4..8])])
  }

  function ReadChunks(s: seq<Byte>, n: nat): (r: Result<seq<seq<Byte>>>)
    ensures r.Ok? ==> |r.value| == n
  {
    if n == 0 then Ok([])
    else match ReadChunk(s)
      case Err => Err
      case Ok(body) =>
        match ReadChunks(s[8 + |body|..], n - 1)
        case Err => Err
        case Ok(rest) => Ok([body] + rest)
  }

  lemma FourBytes()
    ensures Power256(4) == FOUR_BYTES && Power256(2) == 0x1_0000
  {
    assert Power256(2) == 256 * Power256(1);
    assert Power256(4) == 256 * Power256(3) && Power256(3) == 256 * Power256(2);
  }

  lemma ChunkReadBack(body: seq<Byte>, rest: seq<Byte>)
    requires |body| < FOUR_BYTES
    ensures ReadChunk(Chunk(body) + rest) == Ok(body)
  {
    FourBytes();
    PutReadBack(|body|, 4);
    var s := Chunk(body) + rest;
    assert s[..4] == MTRK;
    assert s[4..8] == Put(|body|, 4);
    assert s[8..8 + |body|] == body;
  }

  lemma ChunkWasWritten(s: seq<Byte>)
    requires ReadChunk(s).Ok?
    ensures var body := ReadChunk(s).value; |body| < FOUR_BYTES && s == Chunk(body) + s[8 + |body|..]
  {
    FourBytes();
    PutWasWritten(s[4..8]);
    var body := ReadChunk(s).value;
    assert s == s[..4] + s[4..8] + body + s[8 + |body|..];
  }

  lemma {:induction false} ChunksReadBack(bodies: seq<seq<Byte>>, trailing: seq<Byte>)
    requires ShortBodies(bodies)
    ensures ReadChunks(EncodeChunks(bodies) + trailing, |bodies|) == Ok(bodies)
  {
    hide ReadChunk;
    if bodies != [] {
      var body, rest := bodies[0], EncodeChunks(bodies[1..]) + trailing;
      ChunkReadBack(body, rest);
      ChunksReadBack(bodies[1..], trailing);
      SplitChunk(bodies, trailing);
      assert [body] + bodies[1..] == bodies;
    }
  }

  lemma SplitChunk(bodies: seq<seq<Byte>>, trailing: seq<Byte>)
    requires bodies != []
    ensures var s, rest := EncodeChunks(bodies) + trailing, EncodeChunks(bodies[1..]) + trailing;
      s == Chunk(bodies[0]) + rest && |s| >= 8 + |bodies[0]| && s[8 + |bodies[0]|..] == rest
  {
    var c, rest := Chunk(bodies[0]), EncodeChunks(bodies[1..]) + trailing;
    assert EncodeChunks(bodies) + trailing == c + rest;
    assert (c + rest)[|c|..] == rest;
  }

  lemma {:induction false} ChunksWereWritten(s: seq<Byte>, n: nat)
    requires ReadChunks(s, n).Ok?
    ensures var bodies := ReadChunks(s, n).value;
      ShortBodies(bodies) && StartsWith(s, EncodeChunks(bodies))
  {
    if n > 0 {
      hide ReadChunk;
      ChunkWasWritten(s);
      var body := ReadChunk(s).value;
      var rest := s[8 + |body|..];
      ChunksWereWritten(rest, n - 1);
      var bodies := ReadChunks(s, n).value;
      assert bodies[1..] == ReadChunks(rest, n - 1).value;
      StartsAfter(Chunk(body), rest, EncodeChunks(bodies[1..]));
    }
  }

  // ---- the header -------------------------------------------------------------

  /** The 14 bytes every file starts with. */
  datatype Header = Header(length: nat, format: nat, tracks: nat, division: nat) {
    /** No SMPTE division, no zero division, at least the six standard header bytes. */
    predicate Legal() {
      && 6 <= length < FOUR_BYTES && format < 0x1_0000 && tracks < 0x1_0000
      && 0 < division < 0x8000
    }

    function Encode(): (r: seq<Byte>)
      ensures |r| == 14
    {
      MTHD + Put(length, 4) + Put(format, 2) + Put(tracks, 2) + Put(division, 2)
    }
  }

  function ReadHeader(s: seq<Byte>): (r: Result<Header>)
    ensures r.Ok? ==> |s| >= 14 && 0 < r.value.division
  {
    if |s| < 14 || s[..4] != MTHD then Err
    else
      var h := Header(BigEndian(s[4..8]), BigEndian(s[8..10]), BigEndian(s[10..12]), BigEndian(s[12..14]));
      if h.length < 6 || h.division >= 0x8000 || h.division == 0 then Err else Ok(h)
  }

  lemma HeaderReadBack(h: Header, rest: seq<Byte>)
    requires h.Legal()
    ensures ReadHeader(h.Encode() + rest) == Ok(h)
  {
    FourBytes();
    PutReadBack(h.length, 4);
    PutReadBack(h.format, 2);
    PutReadBack(h.tracks, 2);
    PutReadBack(h.division, 2);
    var s := h.Encode() + rest;
    assert s[..4] == MTHD && s[4..8] == Put(h.length, 4) && s[8..10] == Put(h.format, 2);
    assert s[10..12] == Put(h.tracks, 2) && s[12..14] == Put(h.division, 2);
  }

  lemma HeaderWasWritten(s: seq<Byte>)
    requires ReadHeader(s).Ok?
    ensures ReadHeader(s).value.Legal() && s[..14] == ReadHeader(s).value.Encode()
  {
    FourBytes();
    PutWasWritten(s[4..8]);
    PutWasWritten(s[8..10]);
    PutWasWritten(s[10..12]);
    PutWasWritten(s[12..14]);
    assert s[..14] == s[..4] + s[4..8] + s[8..10] + s[10..12] + s[12..14];
  }

  // ---- what a file means --------------------------------------------------------

  /** A channel message at its beat. */
  datatype MidiEvent = MidiEvent(beat: real, status: Byte, d1: Byte, d2: Byte)

  datatype MidiFile = MidiFile(ticksPerBeat: nat, tempo: Option<nat>, events: seq<MidiEvent>,
                               endBeat: real, name: Option<seq<Byte>>)

  function Key(m: Message): real { m.tick as real }

  function AllMessages(ts: seq<Track>): seq<Message> {
    if ts == [] then [] else AllMessages(ts[..|ts| - 1]) + ts[|ts| - 1].messages
  }

  function LastEnd(ts: seq<Track>): nat {
    if ts == [] then 0
    else
      var before, last := LastEnd(ts[..|ts| - 1]), ts[|ts| - 1].endTick;
      if before < last then last else before
  }

  function FirstTempo(ts: seq<Track>): Option<nat> {
    if ts == [] then None
    else if FirstTempo(ts[..|ts| - 1]).Some? then FirstTempo(ts[..|ts| - 1])
    else ts[|ts| - 1].tempo
  }

  function FirstName(ts: seq<Track>): Option<seq<Byte>> {
    if ts == [] then None
    else if FirstName(ts[..|ts| - 1]).Some? then FirstName(ts[..|ts| - 1])
    else ts[|ts| - 1].name
  }

  function AtBeats(ms: seq<Message>, division: nat): seq<MidiEvent>
    requires division > 0
  {
    seq(|ms|, i requires 0 <= i < |ms| =>
      MidiEvent(ms[i].tick as real / division as real, ms[i].status, ms[i].d1, ms[i].d2))
  }

  /** The tracks merged onto one timeline: by tick, then track order, then file order. */
  function Merged(ts: seq<Track>, division: nat): MidiFile
    requires division > 0
  {
    MidiFile(division, FirstTempo(ts), AtBeats(SortBy(AllMessages(ts), Key), division),
             LastEnd(ts) as real / division as real, FirstName(ts))
  }

  datatype File = File(header: Header, extra: seq<Byte>, tracks: seq<seq<Event>>, trailing: seq<Byte>)

  function Bodies(tracks: seq<seq<Event>>): seq<seq<Byte>> {
    seq(|tracks|, i requires 0 <= i < |tracks| => Encode(tracks[i]))
  }

  function EncodeFile(f: File): seq<Byte> {
    f.header.Encode() + f.extra + EncodeChunks(Bodies(f.tracks)) + f.trailing
  }

  /**
   The declared header length is honoured, except that a file declaring no track is
   never read past its first fourteen bytes.
   */
  predicate LegalFile(f: File) {
    && f.header.Legal() && f.header.tracks == |f.tracks|
    && (if f.tracks == [] then f.extra == [] else |f.extra| == f.header.length - 6)
    && ShortBodies(Bodies(f.tracks))
    && forall i :: 0 <= i < |f.tracks| ==> LegalTrack(f.tracks[i])
  }

  function Meanings(tracks: seq<seq<Event>>): seq<Track> {
    seq(|tracks|, i requires 0 <= i < |tracks| => Meaning(tracks[i]))
  }

  function FileMeaning(f: File): MidiFile
    requires f.header.Legal()
  {
    Merged(Meanings(f.tracks), f.header.division)
  }

  // ---- reading, as a function -----------------------------------------------------

  function ParsedTracks(bodies: seq<seq<Byte>>): (r: Result<seq<Track>>)
    ensures r.Ok? <==> forall i :: 0 <= i < |bodies| ==> Parsed(bodies[i]).Ok?
    ensures r.Ok? ==> |r.value| == |bodies| && forall i :: 0 <= i < |bodies| ==> Parsed(bodies[i]) == Ok(r.value[i])
  {
    if forall i :: 0 <= i < |bodies| ==> Parsed(bodies[i]).Ok?
    then Ok(seq(|bodies|, i requires 0 <= i < |bodies| && Parsed(bodies[i]).Ok? => Parsed(bodies[i]).value))
    else Err
  }

  function BodiesOf(data: seq<Byte>, h: Header): Result<seq<seq<Byte>>> {
    if h.tracks == 0 then Ok([])
    else if 8 + h.length > |data| then Err
    else ReadChunks(data[8 + h.length..], h.tracks)
  }

  function ParsedFile(data: seq<Byte>): Result<MidiFile> {
    match ReadHeader(data)
    case Err => Err
    case Ok(h) =>
      match BodiesOf(data, h)
      case Err => Err
      case Ok(bodies) =>
        match ParsedTracks(bodies)
        case Err => Err
        case Ok(ts) => Ok(Merged(ts, h.division))
  }

  lemma BodiesReadBack(f: File)
    requires LegalFile(f)
    ensures BodiesOf(EncodeFile(f), f.header) == Ok(Bodies(f.tracks))
  {
    hide LegalTrack;
    hide Encode;
    hide EncodeChunks;
    hide ReadChunks;
    var data, bodies := EncodeFile(f), Bodies(f.tracks);
    if f.tracks == [] {
      assert bodies == [];
    } else {
      var front, back := f.header.Encode() + f.extra, EncodeChunks(bodies) + f.trailing;
      assert |front| == 8 + f.header.length;
      assert data == front + back;
      assert data[|front|..] == back;
      ChunksReadBack(bodies, f.trailing);
    }
  }

  lemma TracksReadBack(tracks: seq<seq<Event>>)
    requires forall i :: 0 <= i < |tracks| ==> LegalTrack(tracks[i])
    ensures ParsedTracks(Bodies(tracks)) == Ok(Meanings(tracks))
  {
    hide Parsed;
    hide LegalTrack;
    hide Encode;
    hide Meaning;
    var bodies := Bodies(tracks);
    forall i | 0 <= i < |bodies| ensures Parsed(bodies[i]) == Ok(Meanings(tracks)[i]) {
      TrackAccepted(bodies[i]);
    }
    assert ParsedTracks(bodies).value == Meanings(tracks);
  }

  lemma FileReadBack(f: File)
    requires LegalFile(f)
    ensures ParsedFile(EncodeFile(f)) == Ok(FileMeaning(f))
  {
    hide LegalTrack;
    hide BodiesOf;
    hide ParsedTracks;
    hide ReadHeader;
    hide Merged;
    var tail := f.extra + EncodeChunks(Bodies(f.tracks)) + f.trailing;
    assert EncodeFile(f) == f.header.Encode() + tail;
    HeaderReadBack(f.header, tail);
    BodiesReadBack(f);
    TracksReadBack(f.tracks);
  }

  lemma TracksWereWritten(bodies: seq<seq<Byte>>) returns (tracks: seq<seq<Event>>)
    requires forall i :: 0 <= i < |bodies| ==> Parsed(bodies[i]).Ok?
    ensures Bodies(tracks) == bodies && forall i :: 0 <= i < |tracks| ==> LegalTrack(tracks[i])
  {
    hide Parsed;
    hide LegalTrack;
    hide Encode;
    tracks := [];
    while |tracks| < |bodies|
      invariant |tracks| <= |bodies|
      invariant forall i :: 0 <= i < |tracks| ==> LegalTrack(tracks[i]) && Encode(tracks[i]) == bodies[i]
    {
      TrackAccepted(bodies[|tracks|]);
      var es :| LegalTrack(es) && Encode(es) == bodies[|tracks|];
      tracks := tracks + [es];
    }
  }

  /** The bytes of a file around the chunk bodies found in it. */
  lemma FileSplits(data: seq<Byte>, h: Header) returns (extra: seq<Byte>, trailing: seq<Byte>)
    requires ReadHeader(data) == Ok(h) && BodiesOf(data, h).Ok?
    ensures var bodies := BodiesOf(data, h).value;
      && |bodies| == h.tracks && ShortBodies(bodies)
      && (if h.tracks == 0 then extra == [] else |extra| == h.length - 6)
      && data == data[..14] + extra + EncodeChunks(bodies) + trailing
  {
    hide ReadChunks;
    var bodies := BodiesOf(data, h).value;
    if h.tracks == 0 {
      extra, trailing := [], data[14..];
    } else {
      hide EncodeChunks;
      assert h.length >= 6;
      hide ReadHeader;
      var rest := data[8 + h.length..];
      ChunksWereWritten(rest, h.tracks);
      var n := |EncodeChunks(bodies)|;
      extra, trailing := data[14..8 + h.length], rest[n..];
      assert data == data[..14] + extra + rest;
      assert rest == EncodeChunks(bodies) + trailing;
    }
  }

  lemma FileWasWritten(data: seq<Byte>) returns (f: File)
    requires ParsedFile(data).Ok?
    ensures LegalFile(f) && EncodeFile(f) == data
  {
    hide Parsed;
    hide LegalTrack;
    hide Encode;
    hide ReadHeader;
    hide BodiesOf;
    hide EncodeChunks;
    hide Merged;
    HeaderWasWritten(data);
    var h := ReadHeader(data).value;
    var bodies := BodiesOf(data, h).value;
    var tracks := TracksWereWritten(bodies);
    var extra, trailing := FileSplits(data, h);
    f := File(h, extra, tracks, trailing);
  }

  /** Exactly the encodings of legal files parse, each to its own meaning. */
  lemma FileAccepted(data: seq<Byte>)
    ensures ParsedFile(data).Ok? <==> exists f :: LegalFile(f) && EncodeFile(f) == data
    ensures forall f :: LegalFile(f) && EncodeFile(f) == data ==> ParsedFile(data) == Ok(FileMeaning(f))
  {
    hide ParsedFile;
    if ParsedFile(data).Ok? {
      var f := FileWasWritten(data);
    }
    forall f | LegalFile(f) && EncodeFile(f) == data ensures ParsedFile(data) == Ok(FileMeaning(f)) {
      FileReadBack(f);
    }
  }

  // ---- the merged timeline ----------------------------------------------------------

  predicate IsNoteOn(e: MidiEvent) { HighNibble(e.status) == 0x90 }

  /** What every consumer of a parsed file relies on. */
  ghost predicate WellFormedEvents(es: seq<MidiEvent>) {
    && (forall i, j :: 0 <= i < j < |es| ==> es[i].beat <= es[j].beat)
    && (forall i :: 0 <= i < |es| ==>
          && 0.0 <= es[i].beat && 0x80 <= es[i].status < 0xF0
          && es[i].d1 < 0x80 && es[i].d2 < 0x80
          && (IsNoteOn(es[i]) ==> es[i].d2 > 0))
  }

  ghost predicate SoundMessage(m: Message) {
    && 0x80 <= m.status < 0xF0 && m.d1 < 0x80 && m.d2 < 0x80
    && (HighNibble(m.status) == 0x90 ==> m.d2 > 0)
  }

  lemma {:induction false} LegalSnoc(es: seq<Event>, running: Byte) returns (before: Byte)
    requires es != [] && Legal(es, running)
    ensures Legal(es[..|es| - 1], running) && LegalEvent(es[|es| - 1], before)
  {
    if |es| == 1 {
      before := running;
    } else {
      before := LegalSnoc(es[1..], RunningAfter(es[0]));
      assert es[1..][..|es| - 2] == es[..|es| - 1][1..];
    }
  }

  lemma {:induction false} MessagesAreSound(es: seq<Event>)
    requires Legal(es, 0)
    ensures forall m :: m in Messages(es) ==> SoundMessage(m)
  {
    if es != [] {
      var before := LegalSnoc(es, 0);
      MessagesAreSound(es[..|es| - 1]);
    }
  }

  lemma {:induction false} AllMessagesAreSound(ts: seq<Track>)
    requires forall i :: 0 <= i < |ts| ==> forall m :: m in ts[i].messages ==> SoundMessage(m)
    ensures forall m :: m in AllMessages(ts) ==> SoundMessage(m)
  {
    if ts != [] {
      AllMessagesAreSound(ts[..|ts| - 1]);
    }
  }

  /**
   The events of an accepted file are in beat order from beat 0, are channel messages
   with seven-bit data, and hold no velocity-0 note-on.
   */
  lemma ParsedEvents(data: seq<Byte>)
    requires ParsedFile(data).Ok?
    ensures WellFormedEvents(ParsedFile(data).value.events)
  {
    hide ParsedFile;
    hide LegalFile;
    hide WellFormedEvents;
    FileAccepted(data);
    var f :| LegalFile(f) && EncodeFile(f) == data;
    FileEventsWellFormed(f);
  }

  lemma OfOneTick(ms: seq<Message>, tick: nat)
    requires forall m :: m in ms ==> m.tick == tick
    ensures Ordered(ms, Key)
  {
    forall i, j | 0 <= i < j < |ms| ensures Key(ms[i]) <= Key(ms[j]) {
      assert ms[i] in ms && ms[j] in ms;
    }
  }

  function OfTick(ms: seq<Message>, tick: nat): seq<Message> { Filter(ms, (m: Message) => m.tick == tick) }

  /** Merging only re-orders: the messages of one tick keep track order, then file order. */
  lemma MergingIsStable(ts: seq<Track>, tick: nat)
    ensures Ordered(SortBy(AllMessages(ts), Key), Key)
    ensures multiset(SortBy(AllMessages(ts), Key)) == multiset(AllMessages(ts))
    ensures OfTick(SortBy(AllMessages(ts), Key), tick) == OfTick(AllMessages(ts), tick)
  {
    hide SortBy;
    SortByOrders(AllMessages(ts), Key);
    OfOneTick(Filter(AllMessages(ts), (m: Message) => m.tick == tick), tick);
    SortByKeeps(AllMessages(ts), Key, (m: Message) => m.tick == tick);
  }

  lemma FileEventsWellFormed(f: File)
    requires LegalFile(f)
    ensures WellFormedEvents(FileMeaning(f).events)
  {
    var ts := Meanings(f.tracks);
    forall i | 0 <= i < |ts| ensures forall m :: m in ts[i].messages ==> SoundMessage(m) {
      MessagesAreSound(f.tracks[i]);
    }
    AllMessagesAreSound(ts);
    var all := AllMessages(ts);
    var sorted := SortBy(all, Key);
    SortByOrders(all, Key);
    AtBeatsWellFormed(sorted, f.header.division);
  }

  lemma AtBeatsWellFormed(ms: seq<Message>, division: nat)
    requires division > 0 && Ordered(ms, Key)
    requires forall m :: m in ms ==> SoundMessage(m)
    ensures WellFormedEvents(AtBeats(ms, division))
  {
    var es := AtBeats(ms, division);
    forall i, j | 0 <= i < j < |es| ensures es[i].beat <= es[j].beat {
      Divides(Key(ms[i]), Key(ms[j]), division as real);
    }
    forall i | 0 <= i < |es| ensures 0.0 <= es[i].beat && SoundMessage(ms[i]) {
      Divides(0.0, Key(ms[i]), division as real);
      assert ms[i] in ms;
    }
  }

  lemma Divides(a: real, b: real, c: real)
    requires a <= b && c > 0.0
    ensures a / c <= b / c
  {
  }

  function BarBeats(bars: nat, beatsPerBar: nat): real { bars as real * beatsPerBar as real }

  /** `MidiFile.loop_beats`: the fewest whole bars, at least one, that reach the end. */
  function LoopBeats(endBeat: real, beatsPerBar: nat): (r: real)
    requires beatsPerBar > 0
    ensures endBeat <= r
    ensures exists bars: nat :: r == BarBeats(bars, beatsPerBar) && bars >= 1 &&
              (bars == 1 || BarBeats(bars - 1, beatsPerBar) < endBeat)
  {
    var b := beatsPerBar as real;
    var q := endBeat / b;
    var up := if q.Floor as real == q then q.Floor else q.Floor + 1;
    var bars: nat := if up > 1 then up else 1;
    BarsReach(endBeat, beatsPerBar, up, bars);
    BarBeats(bars, beatsPerBar)
  }

  lemma BarsReach(endBeat: real, beatsPerBar: nat, up: int, bars: nat)
    requires beatsPerBar > 0 && bars == if up > 1 then up else 1
    requires (up - 1) as real < endBeat / beatsPerBar as real <= up as real
    ensures endBeat <= BarBeats(bars, beatsPerBar)
    ensures bars == 1 || BarBeats(bars - 1, beatsPerBar) < endBeat
  {
    var b := beatsPerBar as real;
    var q := endBeat / b;
    assert endBeat == q * b;
    Times(q, bars as real, b);
    if bars > 1 {
      TimesStrict((bars - 1) as real, q, b);
    }
  }

  lemma TimesStrict(x: real, y: real, c: real)
    requires x < y && 0.0 < c
    ensures x * c < y * c
  {
  }

  lemma Times(x: real, y: real, c: real)
    requires x <= y && 0.0 < c
    ensures x * c <= y * c
  {
  }

  // ---- parse_midi -----------------------------------------------------------------------

  /** Where the chunk loop stands after `k` chunks. Before the first, `pos` may be past the end. */
  ghost predicate ChunksSoFar(data: seq<Byte>, h: Header, pos: nat, k: nat, bodies: seq<seq<Byte>>) {
    && |bodies| == k <= h.tracks
    && (k == 0 ==> pos == 8 + h.length)
    && (0 < k ==> pos <= |data|)
    && (pos <= |data| ==> BodiesOf(data, h) == PrependBodies(bodies, ReadChunks(data[pos..], h.tracks - k)))
  }

  lemma NoMoreChunks(data: seq<Byte>, h: Header, pos: nat, k: nat, bodies: seq<seq<Byte>>)
    requires ChunksSoFar(data, h, pos, k, bodies) && k < h.tracks
    requires pos + 8 > |data| || ReadChunk(data[pos..]).Err?
    ensures BodiesOf(data, h) == Err
  {
    if pos <= |data| {
      assert ReadChunks(data[pos..], h.tracks - k) == Err;
    }
  }

  lemma NextChunk(data: seq<Byte>, h: Header, pos: nat, k: nat, bodies: seq<seq<Byte>>, body: seq<Byte>)
    requires ChunksSoFar(data, h, pos, k, bodies) && k < h.tracks
    requires pos + 8 + |body| <= |data| && ReadChunk(data[pos..]) == Ok(body)
    ensures ChunksSoFar(data, h, pos + 8 + |body|, k + 1, bodies + [body])
  {
    hide ReadChunk;
    var rest := data[pos + 8 + |body|..];
    assert data[pos..][8 + |body|..] == rest;
    PrependBody(bodies, body, ReadChunks(rest, h.tracks - k - 1));
  }

  method ParseMidi(data: seq<Byte>) returns (r: Result<MidiFile>)
    ensures r == ParsedFile(data)
  {
    hide Parsed;
    hide ReadChunk;
    hide ReadHeader;
    hide ReadChunks;
    var hr := ReadHeader(data);
    if hr.Err? {
      return Err;
    }
    var h := hr.value;
    var pos: nat := 8 + h.length;
    var all: seq<Message>, end: nat := [], 0;
    var tempo: Option<nat>, name: Option<seq<Byte>> := None, None;
    ghost var bodies: seq<seq<Byte>>, ts: seq<Track> := [], [];
    FirstChunks(data, h);
    for k := 0 to h.tracks
      invariant ChunksSoFar(data, h, pos, k, bodies) && |ts| == k
      invariant forall i :: 0 <= i < k ==> Parsed(bodies[i]) == Ok(ts[i])
      invariant all == AllMessages(ts) && end == LastEnd(ts) && tempo == FirstTempo(ts) && name == FirstName(ts)
    {
      if pos + 8 > |data| {
        NoMoreChunks(data, h, pos, k, bodies);
        return Err;
      }
      var clen := BigEndian(data[pos + 4..pos + 8]);
      var from := pos + 8;
      var to := from + clen;
      ChunkAt(data, pos);
      if to > |data| || data[pos..pos + 4] != MTRK {
        NoMoreChunks(data, h, pos, k, bodies);
        return Err;
      }
      ghost var body := data[from..to];
      NextChunk(data, h, pos, k, bodies, body);
      pos := to;
      var t := MidiParser.ParseTrack(data, from, to);
      bodies := bodies + [body];
      if t.Err? {
        BadBody(data, h, bodies, k, ReadChunks(data[pos..], h.tracks - k - 1));
        return Err;
      }
      ts := ts + [t.value];
      assert ts[..|ts| - 1] == ts[..k];
      all := all + t.value.messages;
      end := if end < t.value.endTick then t.value.endTick else end;
      if tempo.None? {
        tempo := t.value.tempo;
      }
      if name.None? {
        name := t.value.name;
      }
    }
    AllChunks(data, h, pos, bodies);
    assert ParsedTracks(bodies).value == ts;
    r := Ok(MidiFile(h.division, tempo, AtBeats(SortBy(all, Key), h.division),
                     end as real / h.division as real, name));
  }

  lemma FirstChunks(data: seq<Byte>, h: Header)
    ensures ChunksSoFar(data, h, 8 + h.length, 0, [])
  {
    var r := BodiesOf(data, h);
    assert r.Ok? ==> [] + r.value == r.value;
  }

  lemma AllChunks(data: seq<Byte>, h: Header, pos: nat, bodies: seq<seq<Byte>>)
    requires ChunksSoFar(data, h, pos, h.tracks, bodies)
    ensures BodiesOf(data, h) == Ok(bodies)
  {
    assert bodies + [] == bodies;
  }

  ghost function PrependBodies(bodies: seq<seq<Byte>>, r: Result<seq<seq<Byte>>>): Result<seq<seq<Byte>>> {
    if r.Ok? then Ok(bodies + r.value) else Err
  }

  lemma PrependBody(bodies: seq<seq<Byte>>, body: seq<Byte>, r: Result<seq<seq<Byte>>>)
    ensures PrependBodies(bodies, PrependBodies([body], r)) == PrependBodies(bodies + [body], r)
  {
    if r.Ok? {
      assert bodies + ([body] + r.value) == bodies + [body] + r.value;
    }
  }

  /** `ReadChunk` in positions of the whole file. */
  lemma ChunkAt(data: seq<Byte>, pos: nat)
    requires pos + 8 <= |data|
    ensures var to := pos + 8 + BigEndian(data[pos + 4..pos + 8]);
      ReadChunk(data[pos..]) ==
      if to > |data| || data[pos..pos + 4] != MTRK then Err else Ok(data[pos + 8..to])
  {
    var s := data[pos..];
    assert s[4..8] == data[pos + 4..pos + 8] && s[..4] == data[pos..pos + 4];
    var n := BigEndian(s[4..8]);
    if 8 + n <= |s| {
      assert s[8..8 + n] == data[pos + 8..pos + 8 + n];
    }
  }

  lemma BadBody(data: seq<Byte>, h: Header, bodies: seq<seq<Byte>>, k: nat, rest: Result<seq<seq<Byte>>>)
    requires ReadHeader(data) == Ok(h) && k < |bodies| && Parsed(bodies[k]).Err?
    requires BodiesOf(data, h) == PrependBodies(bodies, rest)
    ensures ParsedFile(data) == Err
  {
    hide Parsed;
    hide BodiesOf;
    hide ReadHeader;
    if rest.Ok? {
      assert (bodies + rest.value)[k] == bodies[k];
    }
  }
}
