/** control/midifile.py: the parsing loops, proved against `MidiTracks`. */
module MidiParser {
  import opened Wrappers
  import opened MidiTracks

  /** `_vlq`: the value and the position after it. Nothing at or past `end` is read. */
  method Vlq(buf: seq<Byte>, pos: nat, end: nat) returns (r: Result<(nat, nat)>)
    requires pos <= end <= |buf|
    ensures r == match ReadQuantity(buf[pos..end])
                 case Err => Err
                 case Ok(ds) => Ok((Value(ds), pos + |ds|))
    ensures forall n: nat, width: nat :: Fits(n, width) && StartsWith(buf[pos..end], NumberBytes(n, width)) ==>
              r == Ok((n, pos + width))
    ensures r.Ok? ==>
              var (n, p) := r.value;
              pos <= p && Fits(n, p - pos) && StartsWith(buf[pos..end], NumberBytes(n, p - pos))
  {
    ghost var s := buf[pos..end];
    NumberReadBack(s);
    hide NumberBytes;
    hide Fits;
    hide StartsWith;
    var value: nat, p: nat := 0, pos;
    for k := 0 to 4
      invariant p == pos + k <= end
      invariant value == Value(Digits(s[..k]))
      invariant QuantityEnd(s, 0) == QuantityEnd(s, k)
    {
      if p >= end {
        return Err;
      }
      var b := buf[p];
      p := p + 1;
      value := value * 128 + b % 128;
      assert Digits(s[..k + 1])[..k] == Digits(s[..k]);
      if b < 128 {
        return Ok((value, p));
      }
    }
    return Err;
  }

  ghost function Prepend(es: seq<Event>, r: Result<seq<Event>>): Result<seq<Event>> {
    if r.Ok? then Ok(es + r.value) else Err
  }

  lemma MeaningOfSnoc(es: seq<Event>, e: Event)
    ensures TotalTicks(es + [e]) == TotalTicks(es) + Value(e.delta)
    ensures Messages(es + [e]) == Messages(es) +
      if e.Channel? then [Message(TotalTicks(es) + Value(e.delta), Normalised(e.status, e.d2), e.d1, e.d2)] else []
    ensures EndMark(es + [e]) ==
      if e.Meta? && e.mtype == 0x2F then Some(TotalTicks(es) + Value(e.delta)) else EndMark(es)
    ensures Tempo(es + [e]) ==
      if Tempo(es).Some? then Tempo(es) else if IsTempo(e) then Some(BigEndian(e.body)) else None
    ensures Name(es + [e]) ==
      if Name(es).Some? then Name(es) else if e.Meta? && e.mtype == 0x03 then Some(e.body) else None
  {
    assert (es + [e])[..|es|] == es;
  }

  lemma {:induction false} TempoIsFirst(es: seq<Event>, more: seq<Event>)
    requires Tempo(es).Some?
    ensures Tempo(es + more) == Tempo(es)
  {
    if more == [] {
      assert es + more == es;
    } else {
      assert (es + more)[..|es + more| - 1] == es + more[..|more| - 1];
      TempoIsFirst(es, more[..|more| - 1]);
    }
  }

  /** One event read: what is left to read after it is read from just past its bytes. */
  lemma Consumed(s: seq<Byte>, running: Byte, e: Event)
    requires LegalRunning(running) && s != [] && ReadEvent(s, running) == Ok(e)
    ensures LegalEvent(e, running) && 0 < |EncodeEvent(e)| <= |s|
    ensures ReadEvents(s, running) == Prepend([e], ReadEvents(s[|EncodeEvent(e)|..], RunningAfter(e)))
  {
    EventWasWritten(s, running);
  }

  lemma PrependTwice(es: seq<Event>, e: Event, r: Result<seq<Event>>)
    ensures Prepend(es, Prepend([e], r)) == Prepend(es + [e], r)
  {
    if r.Ok? {
      assert es + ([e] + r.value) == es + [e] + r.value;
    }
  }

  /** What the loop has established when it has read `done` and stands at `pos`. */
  ghost predicate ReadSoFar(buf: seq<Byte>, start: nat, pos: nat, end: nat, running: Byte, done: seq<Event>,
                            events: seq<Message>, tick: nat, endTick: Option<nat>,
                            tempo: Option<nat>, name: Option<seq<Byte>>)
  {
    && start <= pos <= end <= |buf|
    && LegalRunning(running)
    && ReadEvents(buf[start..end], 0) == Prepend(done, ReadEvents(buf[pos..end], running))
    && events == Messages(done) && tick == TotalTicks(done) && endTick == EndMark(done)
    && tempo == Tempo(done) && tempo != Some(0) && name == Name(done)
  }

  /** `ReadSoFar` across one event. */
  lemma OneMore(buf: seq<Byte>, start: nat, pos: nat, end: nat, running: Byte, done: seq<Event>, e: Event)
    requires start <= pos < end <= |buf| && LegalRunning(running)
    requires ReadEvents(buf[start..end], 0) == Prepend(done, ReadEvents(buf[pos..end], running))
    requires ReadEvent(buf[pos..end], running) == Ok(e)
    ensures LegalEvent(e, running) && 0 < |EncodeEvent(e)| && pos + |EncodeEvent(e)| <= end
    ensures ReadEvents(buf[start..end], 0) ==
            Prepend(done + [e], ReadEvents(buf[pos + |EncodeEvent(e)|..end], RunningAfter(e)))
  {
    var s := buf[pos..end];
    Consumed(s, running, e);
    PrependTwice(done, e, ReadEvents(s[|EncodeEvent(e)|..], RunningAfter(e)));
    assert s[|EncodeEvent(e)|..] == buf[pos + |EncodeEvent(e)|..end];
  }

  lemma SliceOfSlice(buf: seq<Byte>, lo: nat, hi: nat, i: nat, j: nat)
    requires lo <= i <= j <= hi <= |buf|
    ensures buf[lo..hi][i - lo..j - lo] == buf[i..j]
  {
    var a, b := buf[lo..hi][i - lo..j - lo], buf[i..j];
    assert |a| == |b| && forall k :: 0 <= k < |a| ==> a[k] == buf[i + k] == b[k];
  }

  /** The body of a meta or SysEx event at `pos`: its bytes and the position after them. */
  method Body(buf: seq<Byte>, pos: nat, end: nat) returns (r: Result<(seq<Byte>, nat)>)
    requires pos <= end <= |buf|
    ensures match ReadBody(buf[pos..end])
            case Err => r == Err
            case Ok((n, body)) => r == Ok((body, pos + |n| + |body|))
  {
    var q := Vlq(buf, pos, end);
    if q.Err? {
      return Err;
    }
    var (length, p) := q.value;
    if p + length > end {
      return Err;
    }
    SliceOfSlice(buf, pos, end, p, p + length);
    r := Ok((buf[p..p + length], p + length));
  }

  /** What one turn of the track loop has in hand once it has read its bytes. */
  datatype Read = ReadMeta(mtype: Byte, body: seq<Byte>) | ReadSysEx | ReadVoice(status: Byte, d1: Byte, d2: Byte)

  ghost predicate Reads(e: Event, x: Read) {
    match e
    case Meta(_, mtype, _, body) => x == ReadMeta(mtype, body)
    case SysEx(_, _, _, _) => x == ReadSysEx
    case Channel(_, _, status, d1, d2) => x == ReadVoice(status, d1, d2)
  }

  /** The bytes after a delta time and a status byte: the reading half of `_parse_track`'s loop body. */
  method ParseTail(buf: seq<Byte>, at: nat, end: nat, running: Byte, ghost delta: seq<Digit>)
    returns (r: Result<(Read, nat)>, ghost e: Event)
    requires at <= end <= |buf| && LegalRunning(running)
    ensures r.Err? <==> ReadTail(delta, buf[at..end], running).Err?
    ensures r.Ok? ==> ReadTail(delta, buf[at..end], running) == Ok(e) && Reads(e, r.value.0)
    ensures r.Ok? ==> r.value.1 == at + |EncodeTail(e)|
  {
    e := SysEx(delta, 0, [], []);
    ghost var t := buf[at..end];
    if at >= end {
      return Err, e;
    }
    var pos, status: Byte := at, buf[at];
    if status < 0x80 {
      if running == 0 {
        return Err, e;
      }
      status := running;
    } else {
      pos := pos + 1;
    }
    if status == 0xFF {
      if pos >= end {
        return Err, e;
      }
      var mtype := buf[pos];
      assert t[2..] == buf[pos + 1..end];
      var b := Body(buf, pos + 1, end);
      if b.Err? {
        return Err, e;
      }
      e := Meta(delta, mtype, ReadBody(t[2..]).value.0, b.value.0);
      return Ok((ReadMeta(mtype, b.value.0), b.value.1)), e;
    } else if status == 0xF0 || status == 0xF7 {
      assert t[1..] == buf[pos..end];
      var b := Body(buf, pos, end);
      if b.Err? {
        return Err, e;
      }
      e := SysEx(delta, status, ReadBody(t[1..]).value.0, b.value.0);
      return Ok((ReadSysEx, b.value.1)), e;
    } else if status >= 0xF0 {
      return Err, e;
    } else {
      ghost var u := if buf[at] >= 0x80 then t[1..] else t;
      assert u == buf[pos..end];
      var need := if HighNibble(status) == 0xC0 || HighNibble(status) == 0xD0 then 1 else 2;
      if pos + need > end {
        return Err, e;
      }
      var d1 := buf[pos];
      var d2: Byte := if need == 2 then buf[pos + 1] else 0;
      assert u[0] == d1 && (need == 2 ==> u[1] == d2);
      if d1 > 0x7F || d2 > 0x7F {
        return Err, e;
      }
      e := Channel(delta, buf[at] >= 0x80, status, d1, d2);
      return Ok((ReadVoice(status, d1, d2), pos + need)), e;
    }
  }

  /** One whole event, delta time first: `_vlq`, then `ParseTail`. */
  method ParseEvent(buf: seq<Byte>, at: nat, end: nat, running: Byte)
    returns (r: Result<(nat, Read, nat)>, ghost e: Event)
    requires at <= end <= |buf| && LegalRunning(running)
    ensures r.Err? <==> ReadEvent(buf[at..end], running).Err?
    ensures r.Ok? ==> ReadEvent(buf[at..end], running) == Ok(e) && Reads(e, r.value.1)
    ensures r.Ok? ==> r.value.0 == Value(e.delta) && r.value.2 == at + |EncodeEvent(e)|
  {
    hide ReadTail;
    e := SysEx([], 0, [], []);
    var q := Vlq(buf, at, end);
    if q.Err? {
      return Err, e;
    }
    ghost var s := buf[at..end];
    ghost var delta := ReadQuantity(s).value;
    assert s[|delta|..] == buf[q.value.1..end];
    var x;
    x, e := ParseTail(buf, q.value.1, end, running, delta);
    if x.Err? {
      return Err, e;
    }
    r := Ok((q.value.0, x.value.0, x.value.1));
  }

  lemma Refused(buf: seq<Byte>, start: nat, pos: nat, end: nat, running: Byte, done: seq<Event>)
    requires start <= pos < end <= |buf| && LegalRunning(running)
    requires ReadEvents(buf[start..end], 0) == Prepend(done, ReadEvents(buf[pos..end], running))
    requires ReadEvent(buf[pos..end], running).Err?
    ensures Parsed(buf[start..end]) == Err
  {
    hide ReadEvent;
    assert ReadEvents(buf[pos..end], running).Err?;
  }

  lemma ZeroTempoRefused(s: seq<Byte>, done: seq<Event>, rest: Result<seq<Event>>)
    requires ReadEvents(s, 0) == Prepend(done, rest) && Tempo(done) == Some(0)
    ensures Parsed(s) == Err
  {
    hide ReadEvents;
    if rest.Ok? {
      TempoIsFirst(done, rest.value);
    }
  }

  lemma AllRead(s: seq<Byte>, done: seq<Event>, running: Byte)
    requires LegalRunning(running)
    requires ReadEvents(s, 0) == Prepend(done, ReadEvents([], running)) && Tempo(done) != Some(0)
    ensures Parsed(s) == Ok(Meaning(done))
  {
    assert ReadEvents([], running) == Ok([]);
    assert done + [] == done;
  }

  /** `_parse_track`. */
  method ParseTrack(buf: seq<Byte>, start: nat, end: nat) returns (r: Result<Track>)
    requires start <= end <= |buf|
    ensures r == Parsed(buf[start..end])
  {
    hide Parsed;
    hide ReadEvents;
    hide ReadEvent;
    var pos := start;
    var events: seq<Message> := [];
    var tick: nat, running: Byte := 0, 0;
    var tempo: Option<nat>, name: Option<seq<Byte>>, endTick: Option<nat> := None, None, None;
    ghost var done: seq<Event>, all := [], ReadEvents(buf[start..end], 0);
    assert all.Ok? ==> [] + all.value == all.value;
    while pos < end
      invariant ReadSoFar(buf, start, pos, end, running, done, events, tick, endTick, tempo, name)
      decreases end - pos
    {
      var x, e := ParseEvent(buf, pos, end, running);
      if x.Err? {
        Refused(buf, start, pos, end, running, done);
        return Err;
      }
      OneMore(buf, start, pos, end, running, done, e);
      MeaningOfSnoc(done, e);
      done := done + [e];
      tick := tick + x.value.0;
      pos := x.value.2;
      match x.value.1 {
        case ReadMeta(mtype, body) =>
          running := 0;
          if mtype == 0x2F {
            endTick := Some(tick);
          } else if mtype == 0x51 && tempo.None? && |body| == 3 {
            tempo := Some(BigEndian(body));
            if tempo.value == 0 {
              ZeroTempoRefused(buf[start..end], done, ReadEvents(buf[pos..end], running));
              return Err;
            }
          } else if mtype == 0x03 && name.None? {
            name := Some(body);
          }
        case ReadSysEx =>
          running := 0;
        case ReadVoice(status, d1, d2) =>
          running := status;
          events := events + [Message(tick, Normalised(status, d2), d1, d2)];
      }
    }
    assert buf[pos..end] == [];
    AllRead(buf[start..end], done, running);
    r := Ok(Track(events, if endTick.Some? then endTick.value else tick, tempo, name));
  }
}
