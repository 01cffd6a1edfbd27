/**
 control/engine.py, devicelink/agent.py: the mute latch, kept at both ends.

 The engine latches a mute under one canonical name and tells the agent with calls; the
 agent keeps its own set under its own reading of the same names. A device may bind to a
 fixture in between, which changes what is canonical. `LatchesAgree` is the result over
 every run: each latched name is canonical and the agent holds exactly what the engine
 holds.
 */
module Mutes {
  import opened Registrations
  import opened Engines

  /** What a cue may name: a fixture's own token, or a device. */
  datatype Surface = Token(fixture: Fixture) | Device(dev: Dev)

  /** `room.bound`, in insertion order: the order `_mute_key` searches in. */
  type Bindings = seq<(Fixture, Dev)>

  /** One call of `on_mute_change`. */
  datatype Call = Call(surface: Surface, muted: bool)

  predicate IsBound(bound: Bindings, dev: Dev) { exists i :: 0 <= i < |bound| && bound[i].1 == dev }

  function KeyOf(bound: Bindings, dev: Dev): (k: Surface)
    ensures if IsBound(bound, dev) then k.Token? else k == Device(dev)
    ensures k.Token? ==> (k.fixture, dev) in bound
  {
    if bound == [] then Device(dev)
    else if bound[0].1 == dev then Token(bound[0].0)
    else
      assert bound == [bound[0]] + bound[1..];
      KeyOf(bound[1..], dev)
  }

  function MuteKey(bound: Bindings, s: Surface): Surface {
    if s.Token? then s else KeyOf(bound, s.dev)
  }

  predicate IsMuted(bound: Bindings, muted: set<Surface>, s: Surface) { MuteKey(bound, s) in muted }

  predicate Dictionary(bound: Bindings) { forall i, j :: 0 <= i < j < |bound| ==> bound[i].0 != bound[j].0 }

  function Slot(bound: Bindings, fixture: Fixture): (i: nat)
    ensures i <= |bound| && (i < |bound| ==> bound[i].0 == fixture)
    ensures forall j :: 0 <= j < i ==> bound[j].0 != fixture
  {
    if bound == [] || bound[0].0 == fixture then 0 else 1 + Slot(bound[1..], fixture)
  }

  /** Writing one fixture's entry: in place when it is there, at the end when it is new. */
  function Rebound(bound: Bindings, fixture: Fixture, dev: Dev): Bindings {
    var i := Slot(bound, fixture);
    if i < |bound| then bound[i := (fixture, dev)] else bound + [(fixture, dev)]
  }

  // ---- the engine's half -------------------------------------------------------------

  /** The engine's latch and the agent's, with the bindings both read. */
  datatype Latches = Latches(bound: Bindings, muted: set<Surface>, heard: set<Surface>)

  function KeysOf(bound: Bindings, devs: seq<Surface>): set<Surface> { set s | s in devs :: MuteKey(bound, s) }

  function Shouted(devs: seq<Surface>, muted: bool): (calls: seq<Call>)
    ensures |calls| == |devs| && forall i :: 0 <= i < |devs| ==> calls[i] == Call(devs[i], muted)
  {
    seq(|devs|, i requires 0 <= i < |devs| => Call(devs[i], muted))
  }

  /** `_migrate_mute_on_bind`, after the entry is written. */
  function Migrated(muted: set<Surface>, fixture: Fixture, dev: Dev): (set<Surface>, seq<Call>) {
    if Device(dev) !in muted then (muted, [])
    else (muted - {Device(dev)} + {Token(fixture)}, [Call(Device(dev), false), Call(Token(fixture), true)])
  }

  /** `_clear_mutes`. */
  function Cleared(bound: Bindings, muted: set<Surface>, devs: seq<Surface>): (set<Surface>, seq<Call>)
    decreases |devs|
  {
    if devs == [] then (muted, [])
    else
      var s, k := devs[0], MuteKey(bound, devs[0]);
      var (rest, calls) := Cleared(bound, muted - {k, s}, devs[1..]);
      (rest, (if k in muted || s in muted then [Call(s, false)] else []) + calls)
  }

  // ---- the agent's half ------------------------------------------------------------------

  /** `_on_mute_change`: a lift drops both the name as given and what it now stands for. */
  function Hear(bound: Bindings, heard: set<Surface>, call: Call): set<Surface> {
    if call.muted then heard + {MuteKey(bound, call.surface)}
    else heard - {MuteKey(bound, call.surface), call.surface}
  }

  function HearAll(bound: Bindings, heard: set<Surface>, calls: seq<Call>): set<Surface>
    decreases |calls|
  {
    if calls == [] then heard else HearAll(bound, Hear(bound, heard, calls[0]), calls[1..])
  }

  // ---- runs --------------------------------------------------------------------------------

  datatype Op =
    | Mute(devs: seq<Surface>)
    | Bind(fixture: Fixture, dev: Dev)
    | Clear(devs: seq<Surface>)
    | Unload(order: seq<Surface>)
    | EnterRoom(bound: Bindings)

  /** An unload clears a listing of the latch; the Room changes only with no Bit, so with nothing muted. */
  predicate Allowed(l: Latches, op: Op) {
    match op
    case Unload(order) => (forall s :: s in l.muted ==> s in order)
    case EnterRoom(bound) => l.muted == {} && Dictionary(bound)
    case _ => true
  }

  function Step(l: Latches, op: Op): Latches {
    match op
    case Mute(devs) =>
      l.(muted := l.muted + KeysOf(l.bound, devs), heard := HearAll(l.bound, l.heard, Shouted(devs, true)))
    case Bind(fixture, dev) =>
      var bound := Rebound(l.bound, fixture, dev);
      var (muted, calls) := Migrated(l.muted, fixture, dev);
      Latches(bound, muted, HearAll(bound, l.heard, calls))
    case Clear(devs) =>
      var (muted, calls) := Cleared(l.bound, l.muted, devs);
      l.(muted := muted, heard := HearAll(l.bound, l.heard, calls))
    case Unload(order) =>
      var (muted, calls) := Cleared(l.bound, l.muted, order);
      l.(muted := muted, heard := HearAll(l.bound, l.heard, calls))
    case EnterRoom(bound) => l.(bound := bound)
  }

  predicate Canonical(bound: Bindings, muted: set<Surface>) { forall s :: s in muted ==> MuteKey(bound, s) == s }

  predicate Agreeing(l: Latches) {
    Dictionary(l.bound) && Canonical(l.bound, l.muted) && l.heard == l.muted
  }

  /** A mute is heard as it was latched. */
  lemma {:induction false} MutesHeard(bound: Bindings, heard: set<Surface>, devs: seq<Surface>)
    ensures HearAll(bound, heard, Shouted(devs, true)) == heard + KeysOf(bound, devs)
    decreases |devs|
  {
    if devs == [] {
      assert KeysOf(bound, devs) == {};
    } else {
      assert Shouted(devs, true)[1..] == Shouted(devs[1..], true);
      MutesHeard(bound, heard + {MuteKey(bound, devs[0])}, devs[1..]);
      assert devs == [devs[0]] + devs[1..];
      assert KeysOf(bound, devs) == {MuteKey(bound, devs[0])} + KeysOf(bound, devs[1..]);
    }
  }

  /** A lift is heard as it was cleared, by however many names a surface was listed. */
  lemma {:induction false} ClearsHeard(bound: Bindings, muted: set<Surface>, devs: seq<Surface>)
    ensures var (left, calls) := Cleared(bound, muted, devs);
      HearAll(bound, muted, calls) == left && left <= muted
    decreases |devs|
  {
    if devs != [] {
      var s, k := devs[0], MuteKey(bound, devs[0]);
      ClearsHeard(bound, muted - {k, s}, devs[1..]);
      var (left, calls) := Cleared(bound, muted - {k, s}, devs[1..]);
      if k in muted || s in muted {
        assert ([Call(s, false)] + calls)[1..] == calls;
      } else {
        assert muted - {k, s} == muted && [] + calls == calls;
      }
    }
  }

  /** Clearing the surfaces listed takes exactly those, under either name. */
  lemma {:induction false} ClearedExactly(bound: Bindings, muted: set<Surface>, devs: seq<Surface>)
    requires Canonical(bound, muted)
    ensures var left := Cleared(bound, muted, devs).0;
      forall s :: s in left <==> s in muted && forall d :: d in devs ==> MuteKey(bound, d) != s
    decreases |devs|
  {
    if devs != [] {
      var k := MuteKey(bound, devs[0]);
      ClearedExactly(bound, muted - {k, devs[0]}, devs[1..]);
      assert devs == [devs[0]] + devs[1..];
    }
  }

  /** A device goes under the first fixture bound to it, and under its own name when there is none. */
  lemma {:induction false} KeyIsFirst(bound: Bindings, dev: Dev)
    ensures match MuteKey(bound, Device(dev))
            case Device(d) => d == dev && forall i :: 0 <= i < |bound| ==> bound[i].1 != dev
            case Token(f) =>
              exists i :: 0 <= i < |bound| && bound[i] == (f, dev) && forall j :: 0 <= j < i ==> bound[j].1 != dev
  {
    if bound != [] && bound[0].1 != dev {
      var rest := bound[1..];
      KeyIsFirst(rest, dev);
      assert forall j :: 1 <= j < |bound| ==> bound[j] == rest[j - 1];
      if MuteKey(rest, Device(dev)).Token? {
        var f := MuteKey(rest, Device(dev)).fixture;
        var i :| 0 <= i < |rest| && rest[i] == (f, dev) && forall j :: 0 <= j < i ==> rest[j].1 != dev;
        assert bound[i + 1] == (f, dev) && forall j :: 0 <= j < i + 1 ==> bound[j].1 != dev;
      }
    }
  }

  /** After a mute, a surface reads muted exactly when it did or it goes under the same name as one listed. */
  lemma MutedExactly(l: Latches, devs: seq<Surface>, s: Surface)
    ensures var l' := Step(l, Mute(devs));
      IsMuted(l'.bound, l'.muted, s)
      <==> IsMuted(l.bound, l.muted, s) || exists d :: d in devs && MuteKey(l.bound, d) == MuteKey(l.bound, s)
  {
    hide HearAll;
    hide KeyOf;
  }

  lemma ReboundDictionary(bound: Bindings, fixture: Fixture, dev: Dev)
    requires Dictionary(bound)
    ensures Dictionary(Rebound(bound, fixture, dev))
    ensures forall g, d :: (g, d) in Rebound(bound, fixture, dev) <==>
      if g == fixture then d == dev else (g, d) in bound
  {
    var i, b := Slot(bound, fixture), Rebound(bound, fixture, dev);
    assert b[i] == (fixture, dev);
    forall g, d | g != fixture && (g, d) in bound ensures (g, d) in b {
      var j :| 0 <= j < |bound| && bound[j] == (g, d);
      assert b[j] == (g, d);
    }
  }

  /** A device that stood for nothing now stands for the fixture it bound to, and only newcomers are bound. */
  lemma ReboundKeys(bound: Bindings, fixture: Fixture, dev: Dev)
    requires Dictionary(bound)
    ensures !IsBound(bound, dev) ==> KeyOf(Rebound(bound, fixture, dev), dev) == Token(fixture)
    ensures forall d :: d != dev && !IsBound(bound, d) ==> !IsBound(Rebound(bound, fixture, dev), d)
  {
    ReboundDictionary(bound, fixture, dev);
    var b := Rebound(bound, fixture, dev);
    assert (fixture, dev) in b;
    assert IsBound(b, dev);
    hide Rebound;
    var k := KeyOf(b, dev);
    assert k.fixture != fixture ==> (k.fixture, dev) in bound;
    forall d | d != dev && IsBound(b, d) ensures IsBound(bound, d) {
      var i :| 0 <= i < |b| && b[i].1 == d;
      assert (b[i].0, d) in b;
    }
  }

  lemma BindAgrees(l: Latches, fixture: Fixture, dev: Dev)
    requires Agreeing(l)
    ensures Agreeing(Step(l, Bind(fixture, dev)))
  {
    ReboundDictionary(l.bound, fixture, dev);
    ReboundKeys(l.bound, fixture, dev);
    var b := Rebound(l.bound, fixture, dev);
    hide Rebound;
    hide Dictionary;
    var (muted, calls) := Migrated(l.muted, fixture, dev);
    if Device(dev) in l.muted {
      assert MuteKey(l.bound, Device(dev)) == Device(dev);
      assert calls[1..] == [calls[1]] && calls[1..][1..] == [];
      assert HearAll(b, Hear(b, l.heard, calls[0]), [calls[1]]) == Hear(b, Hear(b, l.heard, calls[0]), calls[1]);
      assert HearAll(b, l.heard, calls) == Hear(b, Hear(b, l.heard, calls[0]), calls[1]);
      assert MuteKey(b, Device(dev)) == Token(fixture);
    }
    hide Hear;
    forall s | s in muted ensures MuteKey(b, s) == s {
      if s.Device? {
        assert s in l.muted && MuteKey(l.bound, s) == s && s.dev != dev;
      }
    }
  }

  lemma StepAgrees(l: Latches, op: Op)
    requires Agreeing(l) && Allowed(l, op)
    ensures Agreeing(Step(l, op))
    ensures op.Unload? ==> Step(l, op).muted == {} == Step(l, op).heard
  {
    match op
    case Mute(devs) =>
      MutesHeard(l.bound, l.heard, devs);
      hide KeyOf;
    case Bind(fixture, dev) => BindAgrees(l, fixture, dev);
    case Clear(devs) => ClearsHeard(l.bound, l.muted, devs);
    case Unload(order) =>
      ClearsHeard(l.bound, l.muted, order);
      ClearedExactly(l.bound, l.muted, order);
    case EnterRoom(_) =>
  }

  ghost function Run(l: Latches, ops: seq<Op>): Latches
    decreases |ops|
  {
    if ops == [] then l else Run(Step(l, ops[0]), ops[1..])
  }

  ghost predicate AllAllowed(l: Latches, ops: seq<Op>)
    decreases |ops|
  {
    ops == [] || (Allowed(l, ops[0]) && AllAllowed(Step(l, ops[0]), ops[1..]))
  }

  /**
   Over every mix of mutes, binds, clears, unloads and changes of Room: each latched name
   is the canonical one, and the agent, resolving each call by its own reading of the
   bindings, holds exactly the engine's set.
   */
  lemma {:induction false} LatchesAgree(l: Latches, ops: seq<Op>)
    requires Agreeing(l) && AllAllowed(l, ops)
    ensures Agreeing(Run(l, ops))
    decreases |ops|
  {
    if ops != [] {
      StepAgrees(l, ops[0]);
      hide Step;
      hide Agreeing;
      LatchesAgree(Step(l, ops[0]), ops[1..]);
    }
  }

  // ---- what a bind and a query mean ----------------------------------------------------------

  lemma {:induction false} KeyAfterWrite(bound: Bindings, i: nat, fixture: Fixture, dev: Dev, d: Dev)
    requires i < |bound| && bound[i].0 == fixture && d != dev && KeyOf(bound, d) != Token(fixture)
    ensures KeyOf(bound[i := (fixture, dev)], d) == KeyOf(bound, d)
  {
    if bound[0].1 != d && i > 0 {
      assert bound[i := (fixture, dev)][1..] == bound[1..][i - 1 := (fixture, dev)];
      KeyAfterWrite(bound[1..], i - 1, fixture, dev, d);
    }
  }

  lemma {:induction false} KeyAfterAppend(bound: Bindings, fixture: Fixture, dev: Dev, d: Dev)
    requires d != dev
    ensures KeyOf(bound + [(fixture, dev)], d) == KeyOf(bound, d)
  {
    if bound != [] && bound[0].1 != d {
      assert (bound + [(fixture, dev)])[1..] == bound[1..] + [(fixture, dev)];
      KeyAfterAppend(bound[1..], fixture, dev, d);
    }
  }

  /**
   What a bind does to every surface's mute. The fixture takes over the mute of a player
   that binds to it; that player stays muted; a device displaced from the fixture leaves
   the mute behind; every other surface reads as before.
   */
  lemma BindCarriesTheMute(l: Latches, fixture: Fixture, dev: Dev)
    requires Agreeing(l)
    ensures var l' := Step(l, Bind(fixture, dev));
      && (IsMuted(l'.bound, l'.muted, Token(fixture)) <==> Token(fixture) in l.muted || Device(dev) in l.muted)
      && (!IsBound(l.bound, dev) ==>
            (IsMuted(l'.bound, l'.muted, Device(dev)) <==> Token(fixture) in l.muted || Device(dev) in l.muted))
      && (forall g :: g != fixture ==> (IsMuted(l'.bound, l'.muted, Token(g)) <==> IsMuted(l.bound, l.muted, Token(g))))
      && (forall d :: d != dev && IsBound(l.bound, d) && !IsBound(l'.bound, d) ==>
          !IsMuted(l'.bound, l'.muted, Device(d)))
      && (forall d :: d != dev && KeyOf(l.bound, d) != Token(fixture) ==>
            (IsMuted(l'.bound, l'.muted, Device(d)) <==> IsMuted(l.bound, l.muted, Device(d))))
  {
    ReboundKeys(l.bound, fixture, dev);
    var b := Rebound(l.bound, fixture, dev);
    forall d | d != dev && KeyOf(l.bound, d) != Token(fixture) ensures KeyOf(b, d) == KeyOf(l.bound, d) {
      var i := Slot(l.bound, fixture);
      if i < |l.bound| {
        KeyAfterWrite(l.bound, i, fixture, dev, d);
      } else {
        KeyAfterAppend(l.bound, fixture, dev, d);
      }
    }
    hide Rebound;
    hide HearAll;
    hide KeyOf;
    forall d | d != dev && IsBound(l.bound, d) ensures Device(d) !in l.muted {
      assert MuteKey(l.bound, Device(d)) == KeyOf(l.bound, d);
    }
  }

  /** No device stands for two fixtures. */
  predicate Injective(bound: Bindings) { forall i, j :: 0 <= i < j < |bound| ==> bound[i].1 != bound[j].1 }

  lemma {:induction false} KeyWhenInjective(bound: Bindings, i: nat)
    requires i < |bound| && Injective(bound)
    ensures KeyOf(bound, bound[i].1) == Token(bound[i].0)
  {
    if i > 0 {
      assert bound[0].1 != bound[i].1;
      KeyWhenInjective(bound[1..], i - 1);
    }
  }

  predicate ReadsAlike(bound: Bindings, muted: set<Surface>, i: nat)
    requires i < |bound|
  {
    IsMuted(bound, muted, Device(bound[i].1)) == IsMuted(bound, muted, Token(bound[i].0))
  }

  /**
   A bound device and its fixture's token read the same, whatever is muted, exactly when
   no device stands for two fixtures.
   */
  lemma DeviceAndTokenAgreeExactly(bound: Bindings)
    requires Dictionary(bound)
    ensures Injective(bound) <==> forall i, muted: set<Surface> :: 0 <= i < |bound| ==> ReadsAlike(bound, muted, i)
  {
    if Injective(bound) {
      forall i, muted: set<Surface> | 0 <= i < |bound| ensures ReadsAlike(bound, muted, i) {
        KeyWhenInjective(bound, i);
      }
    } else {
      var i, j :| 0 <= i < j < |bound| && bound[i].1 == bound[j].1;
      assert bound[i].0 != bound[j].0;
      assert !ReadsAlike(bound, {Token(bound[i].0)}, i) || !ReadsAlike(bound, {Token(bound[j].0)}, j) by {
        assert KeyOf(bound, bound[i].1) != Token(bound[i].0) || KeyOf(bound, bound[j].1) != Token(bound[j].0);
      }
    }
  }

  // ---- the two objects ------------------------------------------------------------------------

  /** The part of GameServer that latches mutes. `calls` is what `on_mute_change` is called with. */
  class MuteLatch {
    var bound: Bindings
    var muted: set<Surface>

    constructor (bound: Bindings)
      ensures this.bound == bound && muted == {}
    {
      this.bound, muted := bound, {};
    }

    method Key(s: Surface) returns (k: Surface)
      ensures k == MuteKey(bound, s)
    {
      if s.Token? {
        return s;
      }
      for i := 0 to |bound|
        invariant KeyOf(bound, s.dev) == KeyOf(bound[i..], s.dev)
      {
        assert bound[i..][1..] == bound[i + 1..];
        if bound[i].1 == s.dev {
          return Token(bound[i].0);
        }
      }
      k := s;
    }

    /** The MuteCue branch of `_dispatch_cues`. */
    method Mute(devs: seq<Surface>) returns (calls: seq<Call>)
      modifies this`muted
      ensures muted == old(muted) + KeysOf(bound, devs) && calls == Shouted(devs, true)
    {
      for i := 0 to |devs|
        invariant muted == old(muted) + KeysOf(bound, devs[..i])
      {
        assert devs[..i + 1] == devs[..i] + [devs[i]];
        assert KeysOf(bound, devs[..i + 1]) == KeysOf(bound, devs[..i]) + {MuteKey(bound, devs[i])};
        var k := Key(devs[i]);
        muted := muted + {k};
      }
      assert devs[..|devs|] == devs;
      calls := [];
      for i := 0 to |devs|
        invariant calls == Shouted(devs[..i], true)
      {
        calls := calls + [Call(devs[i], true)];
      }
    }

    method Bind(fixture: Fixture, dev: Dev) returns (calls: seq<Call>)
      modifies this
      ensures bound == Rebound(old(bound), fixture, dev)
      ensures (muted, calls) == Migrated(old(muted), fixture, dev)
    {
      var i := 0;
      while i < |bound| && bound[i].0 != fixture
        invariant i <= |bound| && forall j :: 0 <= j < i ==> bound[j].0 != fixture
      {
        i := i + 1;
      }
      bound := if i < |bound| then bound[i := (fixture, dev)] else bound + [(fixture, dev)];
      calls := [];
      if Device(dev) !in muted {
        return;
      }
      muted := muted - {Device(dev)} + {Token(fixture)};
      calls := [Call(Device(dev), false), Call(Token(fixture), true)];
    }

    method Clear(devs: seq<Surface>) returns (calls: seq<Call>)
      modifies this`muted
      ensures (muted, calls) == Cleared(bound, old(muted), devs)
    {
      calls := [];
      assert devs[0..] == devs;
      for i := 0 to |devs|
        invariant Cleared(bound, old(muted), devs).0 == Cleared(bound, muted, devs[i..]).0
        invariant Cleared(bound, old(muted), devs).1 == calls + Cleared(bound, muted, devs[i..]).1
      {
        assert devs[i..][1..] == devs[i + 1..];
        var k := Key(devs[i]);
        var found := k in muted || devs[i] in muted;
        ghost var was := muted;
        muted := muted - {k};
        muted := muted - {devs[i]};
        assert muted == was - {k, devs[i]};
        if found {
          calls := calls + [Call(devs[i], false)];
        }
      }
      assert Cleared(bound, muted, devs[|devs|..]) == (muted, []);
      assert calls + [] == calls;
      assert (muted, calls) == (Cleared(bound, old(muted), devs).0, Cleared(bound, old(muted), devs).1);
    }
  }
}
