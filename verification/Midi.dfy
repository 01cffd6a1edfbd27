/**
 control/midifile.py: Standard MIDI File track chunks.

 A track is described twice. `Encode` is the writer of RP-001: a list of delta-timed
 channel messages, meta events and SysEx events, each channel message with its status
 byte written out or left to running status, each quantity with any permitted number
 of leading zero digits. `Parser.ParseTrack` is the source's loop over the bytes. The
 two are inverse: `TrackAccepted` says which byte strings parse, and to what.
 */
module MidiTracks {
  import opened Wrappers

  type Byte = b: int | 0 <= b < 256
  type Digit = d: int | 0 <= d < 128

  // ---- variable-length quantities ----------------------------------------

  /** Most significant base-128 digit first. */
  function Value(ds: seq<Digit>): nat {
    if ds == [] then 0 else Value(ds[..|ds| - 1]) * 128 + ds[|ds| - 1]
  }

  /** One to four digits; leading zeros are allowed. */
  predicate LegalQuantity(ds: seq<Digit>) { 1 <= |ds| <= 4 }

  /** Every byte but the last carries the continuation bit. */
  function EncodeQuantity(ds: seq<Digit>): (r: seq<Byte>)
    ensures |r| == |ds|
  {
    seq(|ds|, i requires 0 <= i < |ds| =>
      var d: int := ds[i];
      if i < |ds| - 1 then d + 128 else d)
  }

  /** How many bytes from `i` on make up a quantity; None if it is cut off or too long. */
  function QuantityEnd(s: seq<Byte>, i: nat): (r: Option<nat>)
    requires i <= |s| && i <= 4
    ensures r.Some? ==> i < r.value <= |s| && r.value <= 4 && s[r.value - 1] < 128
    ensures r.Some? ==> forall j :: i <= j < r.value - 1 ==> s[j] >= 128
    decreases 4 - i
  {
    if i == 4 || i == |s| then None
    else if s[i] < 128 then Some(i + 1)
    else QuantityEnd(s, i + 1)
  }

  function Digits(s: seq<Byte>): seq<Digit> {
    seq(|s|, i requires 0 <= i < |s| => s[i] % 128)
  }

  function ReadQuantity(s: seq<Byte>): (r: Result<seq<Digit>>)
    ensures r.Ok? ==> LegalQuantity(r.value) && |r.value| <= |s|
  {
    match QuantityEnd(s, 0)
    case None => Err
    case Some(n) => Ok(Digits(s[..n]))
  }

  lemma QuantityReadBack(ds: seq<Digit>, rest: seq<Byte>)
    requires LegalQuantity(ds)
    ensures ReadQuantity(EncodeQuantity(ds) + rest) == Ok(ds)
  {
    var s := EncodeQuantity(ds) + rest;
    QuantityEndAt(s, 0, |ds|);
    assert Digits(s[..|ds|]) == ds;
  }

  lemma {:induction false} QuantityEndAt(s: seq<Byte>, i: nat, n: nat)
    requires i < n <= |s| && n <= 4
    requires s[n - 1] < 128 && forall j :: i <= j < n - 1 ==> s[j] >= 128
    ensures QuantityEnd(s, i) == Some(n)
    decreases n - i
  {
    if i < n - 1 {
      QuantityEndAt(s, i + 1, n);
    }
  }

  lemma QuantityWasWritten(s: seq<Byte>)
    requires ReadQuantity(s).Ok?
    ensures var ds := ReadQuantity(s).value;
      LegalQuantity(ds) && s == EncodeQuantity(ds) + s[|ds|..]
  {
    var ds := ReadQuantity(s).value;
    assert s[..|ds|] == EncodeQuantity(ds);
  }

  // ---- the numbers they stand for ------------------------------------------

  function Power128(n: nat): (p: nat)
    ensures p > 0
  {
    if n == 0 then 1 else 128 * Power128(n - 1)
  }

  /** A writer of numbers: the base-128 digits of `n`, with leading zeros up to `width`. */
  function DigitsOf(n: nat, width: nat): (ds: seq<Digit>)
    ensures |ds| == width
  {
    if width == 0 then [] else DigitsOf(n / 128, width - 1) + [n % 128]
  }

  /** Its bytes: each digit by its place, all but the last with the continuation bit. */
  function NumberBytes(n: nat, width: nat): (s: seq<Byte>)
    ensures |s| == width
  {
    seq(width, i requires 0 <= i < width =>
      n / Power128(width - 1 - i) % 128 + if i < width - 1 then 128 else 0)
  }

  /** A number and a width it can be written in. */
  predicate Fits(n: nat, width: nat) { 1 <= width <= 4 && n < Power128(width) }

  lemma {:induction false} DigitsRead(n: nat, width: nat)
    requires n < Power128(width)
    ensures Value(DigitsOf(n, width)) == n
  {
    if width > 0 {
      DigitsRead(n / 128, width - 1);
      assert DigitsOf(n, width)[..width - 1] == DigitsOf(n / 128, width - 1);
    }
  }

  lemma {:induction false} DigitsWritten(ds: seq<Digit>)
    ensures Value(ds) < Power128(|ds|) && DigitsOf(Value(ds), |ds|) == ds
  {
    if ds != [] {
      DigitsWritten(ds[..|ds| - 1]);
      assert ds == ds[..|ds| - 1] + [ds[|ds| - 1]];
    }
  }

  lemma DivideTwice(n: nat, p: nat)
    requires p > 0
    ensures n / 128 / p == n / (128 * p)
  {
    var q, r := n / 128, n % 128;
    var a, b := q / p, q % p;
    assert n == 128 * (a * p + b) + r == (128 * p) * a + (128 * b + r);
    assert 0 <= 128 * b + r < 128 * p;
    QuotientIs(n, 128 * p, a, 128 * b + r);
  }

  lemma QuotientIs(n: nat, d: nat, q: nat, r: nat)
    requires d > 0 && n == d * q + r && r < d
    ensures n / d == q
  {
    Multiple(d, q - n / d);
    assert d * (q - n / d) == n % d - r;
  }

  lemma Multiple(d: nat, k: int)
    ensures k == 0 || d * k >= d || d * k <= 0 - d
  {
    if k > 0 {
      assert d * (k - 1) >= 0;
    } else if k < 0 {
      assert d * (-k - 1) >= 0;
    }
  }

  lemma {:induction false} DigitAt(n: nat, width: nat, i: nat)
    requires i < width
    ensures DigitsOf(n, width)[i] == n / Power128(width - 1 - i) % 128
  {
    if i < width - 1 {
      DigitAt(n / 128, width - 1, i);
      DivideTwice(n, Power128(width - 2 - i));
    }
  }

  lemma BytesOfDigits(n: nat, width: nat)
    ensures EncodeQuantity(DigitsOf(n, width)) == NumberBytes(n, width)
  {
    forall i | 0 <= i < width ensures EncodeQuantity(DigitsOf(n, width))[i] == NumberBytes(n, width)[i] {
      DigitAt(n, width, i);
    }
  }

  /**
   The number read is the number written: `n`'s bytes read as `n`, in whatever width it
   fits, and bytes that read at all are those of the number they read as.
   */
  lemma NumberReadBack(s: seq<Byte>)
    ensures forall n: nat, width: nat :: Fits(n, width) && StartsWith(s, NumberBytes(n, width)) ==>
              ReadQuantity(s).Ok? && Value(ReadQuantity(s).value) == n && |ReadQuantity(s).value| == width
    ensures ReadQuantity(s).Ok? ==>
              var ds := ReadQuantity(s).value;
              Fits(Value(ds), |ds|) && StartsWith(s, NumberBytes(Value(ds), |ds|))
  {
    forall n: nat, width: nat | Fits(n, width) && StartsWith(s, NumberBytes(n, width))
      ensures ReadQuantity(s) == Ok(DigitsOf(n, width)) && Value(DigitsOf(n, width)) == n
    {
      BytesOfDigits(n, width);
      DigitsRead(n, width);
      QuantityReadBack(DigitsOf(n, width), s[width..]);
      assert s == EncodeQuantity(DigitsOf(n, width)) + s[width..];
    }
    if ReadQuantity(s).Ok? {
      var ds := ReadQuantity(s).value;
      QuantityWasWritten(s);
      DigitsWritten(ds);
      BytesOfDigits(Value(ds), |ds|);
    }
  }

  // ---- track events ------------------------------------------------------

  datatype Event =
    /** `d2` is 0 for the one-byte messages 0xCn and 0xDn; `explicit` writes the status byte. */
    | Channel(delta: seq<Digit>, explicit: bool, status: Byte, d1: Byte, d2: Byte)
    | Meta(delta: seq<Digit>, mtype: Byte, length: seq<Digit>, body: seq<Byte>)
    | SysEx(delta: seq<Digit>, lead: Byte, length: seq<Digit>, body: seq<Byte>)

  function HighNibble(b: Byte): Byte { b / 16 * 16 }

  predicate OneByte(status: Byte) { HighNibble(status) == 0xC0 || HighNibble(status) == 0xD0 }

  function Data(e: Event): seq<Byte>
    requires e.Channel?
  {
    if OneByte(e.status) then [e.d1] else [e.d1, e.d2]
  }

  function EncodeEvent(e: Event): seq<Byte> { EncodeQuantity(e.delta) + EncodeTail(e) }

  function EncodeTail(e: Event): seq<Byte> {
    match e
    case Channel(_, explicit, status, _, _) => (if explicit then [status] else []) + Data(e)
    case Meta(_, mtype, length, body) => [0xFF, mtype] + EncodeQuantity(length) + body
    case SysEx(_, lead, length, body) => [lead] + EncodeQuantity(length) + body
  }

  /** `running` is the status a message may leave out, 0 when there is none. */
  predicate LegalEvent(e: Event, running: Byte) {
    && LegalQuantity(e.delta) && LegalCommand(e, running)
    && (!e.Channel? ==> LegalQuantity(e.length) && Value(e.length) == |e.body|)
  }

  predicate LegalCommand(e: Event, running: Byte) {
    match e
    case Channel(_, explicit, status, d1, d2) =>
      && 0x80 <= status < 0xF0 && d1 < 0x80 && d2 < 0x80
      && (OneByte(status) ==> d2 == 0)
      && (!explicit ==> running == status)
    case Meta(_, _, _, _) => true
    case SysEx(_, lead, _, _) => lead in {0xF0, 0xF7}
  }

  /** Meta and SysEx events cancel running status. */
  function RunningAfter(e: Event): Byte { if e.Channel? then e.status else 0 }

  function Encode(es: seq<Event>): seq<Byte> {
    if es == [] then [] else EncodeEvent(es[0]) + Encode(es[1..])
  }

  predicate Legal(es: seq<Event>, running: Byte) {
    es != [] ==> LegalEvent(es[0], running) && Legal(es[1..], RunningAfter(es[0]))
  }

  // ---- what a track means --------------------------------------------------

  datatype Message = Message(tick: nat, status: Byte, d1: Byte, d2: Byte)

  function TotalTicks(es: seq<Event>): nat {
    if es == [] then 0 else TotalTicks(es[..|es| - 1]) + Value(es[|es| - 1].delta)
  }

  /** A note-on with velocity 0 is a note-off. */
  function Normalised(status: Byte, d2: Byte): Byte {
    if HighNibble(status) == 0x90 && d2 == 0 then 0x80 + status % 16 else status
  }

  /** The channel messages, each at the sum of the deltas up to and including its own. */
  function Messages(es: seq<Event>): seq<Message> {
    if es == [] then []
    else
      var e := es[|es| - 1];
      Messages(es[..|es| - 1]) +
      if e.Channel? then [Message(TotalTicks(es), Normalised(e.status, e.d2), e.d1, e.d2)] else []
  }

  /** The tick of the last End-of-Track, or of the last event when there is none. */
  function EndMark(es: seq<Event>): Option<nat> {
    if es == [] then None
    else if es[|es| - 1].Meta? && es[|es| - 1].mtype == 0x2F then Some(TotalTicks(es))
    else EndMark(es[..|es| - 1])
  }

  function BigEndian(s: seq<Byte>): nat {
    if s == [] then 0 else BigEndian(s[..|s| - 1]) * 256 + s[|s| - 1]
  }

  predicate IsTempo(e: Event) { e.Meta? && e.mtype == 0x51 && |e.body| == 3 }

  /** The first three-byte tempo event's microseconds per beat. */
  function Tempo(es: seq<Event>): Option<nat> {
    if es == [] then None
    else if Tempo(es[..|es| - 1]).Some? then Tempo(es[..|es| - 1])
    else if IsTempo(es[|es| - 1]) then Some(BigEndian(es[|es| - 1].body))
    else None
  }

  function Name(es: seq<Event>): Option<seq<Byte>> {
    if es == [] then None
    else if Name(es[..|es| - 1]).Some? then Name(es[..|es| - 1])
    else if es[|es| - 1].Meta? && es[|es| - 1].mtype == 0x03 then Some(es[|es| - 1].body)
    else None
  }

  datatype Track = Track(messages: seq<Message>, endTick: nat, tempo: Option<nat>, name: Option<seq<Byte>>)

  function Meaning(es: seq<Event>): Track {
    Track(Messages(es), if EndMark(es).Some? then EndMark(es).value else TotalTicks(es), Tempo(es), Name(es))
  }

  /** A writer may not declare a zero tempo where it would count. */
  predicate LegalTrack(es: seq<Event>) { Legal(es, 0) && Tempo(es) != Some(0) }

  // ---- reading, as a function ----------------------------------------------

  function ReadBody(s: seq<Byte>): (r: Result<(seq<Digit>, seq<Byte>)>)
    ensures r.Ok? ==> LegalQuantity(r.value.0) && Value(r.value.0) == |r.value.1|
                      && |r.value.0| + |r.value.1| <= |s|
  {
    match ReadQuantity(s)
    case Err => Err
    case Ok(length) =>
      if |length| + Value(length) > |s| then Err
      else Ok((length, s[|length|..|length| + Value(length)]))
  }

  function ReadEvent(s: seq<Byte>, running: Byte): Result<Event> {
    match ReadQuantity(s)
    case Err => Err
    case Ok(delta) => ReadTail(delta, s[|delta|..], running)
  }

  function ReadTail(delta: seq<Digit>, t: seq<Byte>, running: Byte): (r: Result<Event>)
    ensures r.Ok? ==> r.value.delta == delta
  {
    if t == [] then Err
    else if t[0] < 0x80 then
      if running == 0 then Err else ReadChannel(delta, false, running, t)
    else if t[0] == 0xFF then
      if |t| < 2 then Err
      else match ReadBody(t[2..]) case Err => Err case Ok((n, body)) => Ok(Meta(delta, t[1], n, body))
    else if t[0] == 0xF0 || t[0] == 0xF7 then
      match ReadBody(t[1..]) case Err => Err case Ok((n, body)) => Ok(SysEx(delta, t[0], n, body))
    else if t[0] >= 0xF0 then Err
    else ReadChannel(delta, true, t[0], t[1..])
  }

  function ReadChannel(delta: seq<Digit>, explicit: bool, status: Byte, t: seq<Byte>): (r: Result<Event>)
    ensures r.Ok? ==> r.value.delta == delta
  {
    var need := if OneByte(status) then 1 else 2;
    if |t| < need then Err
    else
      var d2 := if need == 2 then t[1] else 0;
      if t[0] > 0x7F || d2 > 0x7F then Err else Ok(Channel(delta, explicit, status, t[0], d2))
  }

  predicate LegalRunning(running: Byte) { running == 0 || 0x80 <= running < 0xF0 }

  predicate StartsWith(s: seq<Byte>, p: seq<Byte>) { |p| <= |s| && s[..|p|] == p }

  lemma BodyWasWritten(s: seq<Byte>)
    requires ReadBody(s).Ok?
    ensures var (n, body) := ReadBody(s).value; StartsWith(s, EncodeQuantity(n) + body)
  {
    QuantityWasWritten(s);
    var (n, body) := ReadBody(s).value;
    assert s[..|n|] == EncodeQuantity(n);
  }

  lemma BodyReadBack(n: seq<Digit>, body: seq<Byte>, rest: seq<Byte>)
    requires LegalQuantity(n) && Value(n) == |body|
    ensures ReadBody(EncodeQuantity(n) + body + rest) == Ok((n, body))
  {
    var s := EncodeQuantity(n) + (body + rest);
    assert EncodeQuantity(n) + body + rest == s;
    QuantityReadBack(n, body + rest);
    assert s[|n|..|n| + |body|] == body;
  }

  lemma StartsAfter(x: seq<Byte>, u: seq<Byte>, p: seq<Byte>)
    requires StartsWith(u, p)
    ensures StartsWith(x + u, x + p)
  {
    assert (x + u)[..|x + p|] == x + u[..|p|];
  }

  lemma MetaWasWritten(delta: seq<Digit>, t: seq<Byte>, running: Byte)
    requires LegalQuantity(delta) && t != [] && t[0] == 0xFF && ReadTail(delta, t, running).Ok?
    ensures var e := ReadTail(delta, t, running).value;
      LegalEvent(e, running) && StartsWith(t, EncodeTail(e))
  {
    hide ReadBody;
    hide EncodeQuantity;
    var e := ReadTail(delta, t, running).value;
    BodyWasWritten(t[2..]);
    assert t == [0xFF, t[1]] + t[2..];
    StartsAfter([0xFF, t[1]], t[2..], EncodeQuantity(e.length) + e.body);
    assert EncodeTail(e) == [0xFF, t[1]] + (EncodeQuantity(e.length) + e.body);
  }

  lemma SysExWasWritten(delta: seq<Digit>, t: seq<Byte>, running: Byte)
    requires LegalQuantity(delta) && t != [] && t[0] in {0xF0, 0xF7} && ReadTail(delta, t, running).Ok?
    ensures var e := ReadTail(delta, t, running).value;
      LegalEvent(e, running) && StartsWith(t, EncodeTail(e))
  {
    hide ReadBody;
    hide EncodeQuantity;
    var e := ReadTail(delta, t, running).value;
    BodyWasWritten(t[1..]);
    assert t == [t[0]] + t[1..];
    StartsAfter([t[0]], t[1..], EncodeQuantity(e.length) + e.body);
    assert EncodeTail(e) == [t[0]] + (EncodeQuantity(e.length) + e.body);
  }

  lemma TailWasWritten(delta: seq<Digit>, t: seq<Byte>, running: Byte)
    requires LegalQuantity(delta) && LegalRunning(running) && ReadTail(delta, t, running).Ok?
    ensures var e := ReadTail(delta, t, running).value;
      LegalEvent(e, running) && StartsWith(t, EncodeTail(e))
  {
    var e := ReadTail(delta, t, running).value;
    if t[0] < 0x80 {
      assert EncodeTail(e) == Data(e);
    } else if t[0] == 0xFF {
      MetaWasWritten(delta, t, running);
    } else if t[0] == 0xF0 || t[0] == 0xF7 {
      SysExWasWritten(delta, t, running);
    } else {
      assert t == [t[0]] + t[1..];
      StartsAfter([t[0]], t[1..], Data(e));
    }
  }

  lemma ChannelReadBack(e: Event, running: Byte, rest: seq<Byte>)
    requires e.Channel? && LegalRunning(running) && LegalEvent(e, running)
    ensures ReadTail(e.delta, EncodeTail(e) + rest, running) == Ok(e)
  {
    var d := Data(e) + rest;
    assert ReadChannel(e.delta, e.explicit, e.status, d) == Ok(e);
    if e.explicit {
      var t := [e.status] + d;
      assert EncodeTail(e) + rest == t;
      assert t[1..] == d;
    } else {
      assert EncodeTail(e) + rest == d;
    }
  }

  lemma MetaReadBack(e: Event, running: Byte, rest: seq<Byte>)
    requires e.Meta? && LegalEvent(e, running)
    ensures ReadTail(e.delta, EncodeTail(e) + rest, running) == Ok(e)
  {
    var u := EncodeQuantity(e.length) + e.body + rest;
    var t := [0xFF, e.mtype] + u;
    assert EncodeTail(e) + rest == t;
    assert t[2..] == u;
    BodyReadBack(e.length, e.body, rest);
  }

  lemma SysExReadBack(e: Event, running: Byte, rest: seq<Byte>)
    requires e.SysEx? && LegalEvent(e, running)
    ensures ReadTail(e.delta, EncodeTail(e) + rest, running) == Ok(e)
  {
    var u := EncodeQuantity(e.length) + e.body + rest;
    var t := [e.lead] + u;
    assert EncodeTail(e) + rest == t;
    assert t[1..] == u;
    BodyReadBack(e.length, e.body, rest);
  }

  lemma TailReadBack(e: Event, running: Byte, rest: seq<Byte>)
    requires LegalRunning(running) && LegalEvent(e, running)
    ensures ReadTail(e.delta, EncodeTail(e) + rest, running) == Ok(e)
  {
    match e
    case Channel(_, _, _, _, _) => ChannelReadBack(e, running, rest);
    case Meta(_, _, _, _) => MetaReadBack(e, running, rest);
    case SysEx(_, _, _, _) => SysExReadBack(e, running, rest);
  }

  lemma EventWasWritten(s: seq<Byte>, running: Byte)
    requires LegalRunning(running) && ReadEvent(s, running).Ok?
    ensures var e := ReadEvent(s, running).value;
      LegalEvent(e, running) && EncodeEvent(e) != [] && StartsWith(s, EncodeEvent(e))
  {
    var delta := ReadQuantity(s).value;
    QuantityWasWritten(s);
    TailWasWritten(delta, s[|delta|..], running);
    assert s == EncodeQuantity(delta) + s[|delta|..];
  }

  lemma EventReadBack(e: Event, running: Byte, rest: seq<Byte>)
    requires LegalRunning(running) && LegalEvent(e, running)
    ensures ReadEvent(EncodeEvent(e) + rest, running) == Ok(e)
  {
    var t := EncodeTail(e) + rest;
    assert EncodeEvent(e) + rest == EncodeQuantity(e.delta) + t;
    QuantityReadBack(e.delta, t);
    assert (EncodeQuantity(e.delta) + t)[|e.delta|..] == t;
    TailReadBack(e, running, rest);
  }

  lemma RunningStaysLegal(e: Event, running: Byte)
    requires LegalEvent(e, running)
    ensures LegalRunning(RunningAfter(e))
  {
  }

  function ReadEvents(s: seq<Byte>, running: Byte): Result<seq<Event>>
    requires LegalRunning(running)
    decreases |s|
  {
    if s == [] then Ok([])
    else match ReadEvent(s, running)
      case Err => Err
      case Ok(e) =>
        EventWasWritten(s, running);
        RunningStaysLegal(e, running);
        match ReadEvents(s[|EncodeEvent(e)|..], RunningAfter(e))
        case Err => Err
        case Ok(es) => Ok([e] + es)
  }

  lemma {:induction false} EventsWereWritten(s: seq<Byte>, running: Byte)
    requires LegalRunning(running) && ReadEvents(s, running).Ok?
    ensures var es := ReadEvents(s, running).value; Legal(es, running) && Encode(es) == s
    decreases |s|
  {
    hide ReadEvent;
    hide EncodeEvent;
    hide LegalEvent;
    if s != [] {
      EventWasWritten(s, running);
      var e := ReadEvent(s, running).value;
      RunningStaysLegal(e, running);
      var rest := s[|EncodeEvent(e)|..];
      EventsWereWritten(rest, RunningAfter(e));
      var es := ReadEvents(s, running).value;
      assert es[1..] == ReadEvents(rest, RunningAfter(e)).value;
      assert s == EncodeEvent(e) + rest;
    }
  }

  lemma {:induction false} EventsReadBack(es: seq<Event>, running: Byte)
    requires LegalRunning(running) && Legal(es, running)
    ensures ReadEvents(Encode(es), running) == Ok(es)
  {
    hide ReadEvent;
    hide EncodeEvent;
    hide LegalEvent;
    if es != [] {
      var e, rest := es[0], Encode(es[1..]);
      RunningStaysLegal(e, running);
      EventReadBack(e, running, rest);
      EventWasWritten(Encode(es), running);
      EventsReadBack(es[1..], RunningAfter(e));
      assert Encode(es)[|EncodeEvent(e)|..] == rest;
      assert [e] + es[1..] == es;
    }
  }

  function Parsed(s: seq<Byte>): Result<Track> {
    match ReadEvents(s, 0)
    case Err => Err
    case Ok(es) => if Tempo(es) == Some(0) then Err else Ok(Meaning(es))
  }

  /**
   Which byte strings are tracks, and what they say: exactly the encodings of legal
   event lists, and each of those reads back as its own meaning.
   */
  lemma TrackAccepted(s: seq<Byte>)
    ensures Parsed(s).Ok? <==> exists es :: LegalTrack(es) && Encode(es) == s
    ensures forall es :: LegalTrack(es) && Encode(es) == s ==> Parsed(s) == Ok(Meaning(es))
  {
    if Parsed(s).Ok? {
      EventsWereWritten(s, 0);
      assert LegalTrack(ReadEvents(s, 0).value);
    }
    forall es | LegalTrack(es) && Encode(es) == s ensures Parsed(s) == Ok(Meaning(es)) {
      EventsReadBack(es, 0);
    }
  }
}
