/**
 control/audio.py over harness/arco_synth.py: who holds which of the sixteen channels.

 A channel is free, a device's part has it, or a note waiting for its end has it.
 `Conserved` says each is in exactly one of those places. A call into a voice may raise,
 and so may a lane that does not parse; `bad` is the set of channels whose voice raises
 during one call on the bridge. `StepConservesExactly` says for every call precisely when
 conservation survives it, `RunsConserve` and `ShutdownFreesExactly` follow it over runs
 and to the end.
 */
module Voices {
  import opened Wrappers

  const CHANNELS := 16
  const DRUM_CHANNEL := 9

  datatype Dev = Dev(name: string)

  /** A declared instrument: does it ask for drums, do its lanes parse, does it set a program. */
  datatype Decl = Decl(drums: bool, lanesParse: bool, program: bool, drone: bool)

  datatype Part = Part(channel: nat, drums: bool)

  /** A device's voices; `drone`: its first instrument declares one. */
  datatype Entry = Entry(dev: Dev, parts: seq<Part>, drone: bool, sounding: bool)

  datatype Note = Note(due: real, channel: nat)

  // ---- the pool's free list ----------------------------------------------------------

  ghost predicate Increasing(s: seq<nat>) { forall i, j :: 0 <= i < j < |s| ==> s[i] < s[j] }

  lemma ConsIncreasing(x: nat, s: seq<nat>)
    requires Increasing(s) && forall y :: y in s ==> x < y
    ensures Increasing([x] + s)
  {
    forall i, j | 0 <= i < j < |[x] + s| ensures ([x] + s)[i] < ([x] + s)[j] {
      assert s[j - 1] in s;
    }
  }

  lemma TailIncreasing(s: seq<nat>)
    requires Increasing(s) && s != []
    ensures Increasing(s[1..]) && forall y :: y in s[1..] ==> s[0] < y
  {
    forall y | y in s[1..] ensures s[0] < y {
      var i :| 1 <= i < |s| && s[i] == y;
    }
  }

  function Remove(free: seq<nat>, c: nat): (r: seq<nat>)
    requires c in free
    ensures multiset(r) == multiset(free) - multiset{c}
    ensures forall x :: x in r ==> x in free
  {
    assert free == [free[0]] + free[1..];
    if free[0] == c then free[1..] else [free[0]] + Remove(free[1..], c)
  }

  lemma {:induction false} RemoveIncreasing(free: seq<nat>, c: nat)
    requires c in free && Increasing(free)
    ensures Increasing(Remove(free, c))
  {
    TailIncreasing(free);
    if free[0] != c {
      RemoveIncreasing(free[1..], c);
      ConsIncreasing(free[0], Remove(free[1..], c));
    }
  }

  /** Appended and sorted, unless it is there already. */
  function Returned(free: seq<nat>, c: nat): (r: seq<nat>)
    ensures multiset(r) == if c in free then multiset(free) else multiset(free) + multiset{c}
  {
    if c in free then free else Insert(free, c)
  }

  function Insert(free: seq<nat>, c: nat): (r: seq<nat>)
    ensures multiset(r) == multiset(free) + multiset{c}
    ensures forall x :: x in r <==> x in free || x == c
  {
    if free == [] then [c]
    else
      assert free == [free[0]] + free[1..];
      if c < free[0] then [c] + free else [free[0]] + Insert(free[1..], c)
  }

  lemma {:induction false} InsertIncreasing(free: seq<nat>, c: nat)
    requires c !in free && Increasing(free)
    ensures Increasing(Insert(free, c))
  {
    if free != [] {
      TailIncreasing(free);
      if c < free[0] {
        assert free == [free[0]] + free[1..];
        ConsIncreasing(c, free);
      } else {
        InsertIncreasing(free[1..], c);
        ConsIncreasing(free[0], Insert(free[1..], c));
      }
    }
  }

  function FirstMelodic(free: seq<nat>): (c: Option<nat>)
    ensures c.None? ==> forall x :: x in free ==> x == DRUM_CHANNEL
    ensures c.Some? ==> c.value in free && c.value != DRUM_CHANNEL
    ensures c.Some? && Increasing(free) ==> forall x :: x in free && x != DRUM_CHANNEL ==> c.value <= x
  {
    if free == [] then None
    else
      assert free == [free[0]] + free[1..] && free[0] in free;
      if free[0] != DRUM_CHANNEL then Some(free[0]) else FirstMelodic(free[1..])
  }

  /** The channel `acquire` takes, if it does not raise. */
  function Pick(live: bool, free: seq<nat>, drums: bool): (c: Option<nat>)
    ensures c.Some? ==> c.value in free && (c.value == DRUM_CHANNEL <==> drums)
  {
    if !live then None
    else if drums then (if DRUM_CHANNEL in free then Some(DRUM_CHANNEL) else None)
    else FirstMelodic(free)
  }

  // ---- the bridge ----------------------------------------------------------------------

  datatype Bridge = Bridge(live: bool, free: seq<nat>, devices: seq<Entry>, pending: seq<Note>, shut: bool)

  function Channels(parts: seq<Part>): (cs: seq<nat>)
    ensures |cs| == |parts|
  {
    seq(|parts|, i requires 0 <= i < |parts| => parts[i].channel)
  }

  /** Every channel the devices hold, in order. */
  function Held(devices: seq<Entry>): seq<nat> {
    if devices == [] then [] else Channels(devices[0].parts) + Held(devices[1..])
  }

  function Waiting(pending: seq<Note>): (cs: seq<nat>)
    ensures |cs| == |pending|
  {
    seq(|pending|, i requires 0 <= i < |pending| => pending[i].channel)
  }

  function Find(devices: seq<Entry>, dev: Dev): (i: nat)
    ensures i <= |devices| && (i < |devices| ==> devices[i].dev == dev)
    ensures i == |devices| <==> forall e :: e in devices ==> e.dev != dev
  {
    if devices == [] then 0
    else
      assert devices == [devices[0]] + devices[1..];
      if devices[0].dev == dev then 0 else 1 + Find(devices[1..], dev)
  }

  predicate Has(b: Bridge, dev: Dev) { Find(b.devices, dev) < |b.devices| }

  function GiveBack(free: seq<nat>, cs: seq<nat>): seq<nat>
    decreases |cs|
  {
    if cs == [] then free else GiveBack(Returned(free, cs[0]), cs[1..])
  }

  datatype Taking = Took(free: seq<nat>, parts: seq<Part>) | Failed(free: seq<nat>)

  /** `on_grant`'s loop, with the voices taken so far. */
  function Taken(live: bool, free: seq<nat>, decls: seq<Decl>, bad: set<nat>, parts: seq<Part>): Taking
    decreases |decls|
  {
    if decls == [] then Took(free, parts)
    else
      var c := Pick(live, free, decls[0].drums);
      if c.None? then Failed(GiveBack(free, Channels(parts)))
      else
        var rest, mine := Remove(free, c.value), parts + [Part(c.value, decls[0].drums)];
        if !decls[0].lanesParse then Failed(GiveBack(rest, Channels(parts)))
        else if decls[0].program && c.value in bad then Failed(GiveBack(rest, Channels(mine)))
        else Taken(live, rest, decls[1..], bad, mine)
  }

  /** Some instrument whose turn comes gets its channel and then has a lane that does not parse. */
  predicate LaneFault(live: bool, free: seq<nat>, decls: seq<Decl>, bad: set<nat>)
    decreases |decls|
  {
    && decls != []
    && var c := Pick(live, free, decls[0].drums);
    && c.Some?
    && (!decls[0].lanesParse
        || (!(decls[0].program && c.value in bad) && LaneFault(live, Remove(free, c.value), decls[1..], bad)))
  }

  /** Writing one device's entry: in place when it has one. */
  function Stored(devices: seq<Entry>, e: Entry): seq<Entry> {
    var i := Find(devices, e.dev);
    if i < |devices| then devices[i := e] else devices + [e]
  }

  function Played(b: Bridge, due: real, bad: set<nat>): Bridge {
    var c := Pick(b.live, b.free, false);
    if b.shut || c.None? then b
    else
      b.(free := Remove(b.free, c.value),
         pending := if c.value in bad then b.pending else b.pending + [Note(due, c.value)])
  }

  /** `on_grant`; the welcome, when there is one, ends at `welcome`. */
  function Granted(b: Bridge, dev: Dev, decls: seq<Decl>, welcome: Option<real>, bad: set<nat>): Bridge {
    if b.shut then b
    else
      var t := Taken(b.live, b.free, decls, bad, []);
      if t.Failed? then b.(free := t.free)
      else
        var b1 := b.(free := t.free,
                     devices := if decls == [] then b.devices
                                else Stored(b.devices, Entry(dev, t.parts, decls[0].drone, false)));
        if welcome.None? then b1 else Played(b1, welcome.value, bad)
  }

  /** Notes ended one by one: each voice goes back, up to the first that raises. */
  function Ended(free: seq<nat>, cs: seq<nat>, bad: set<nat>): (seq<nat>, bool)
    decreases |cs|
  {
    if cs == [] then (free, false)
    else if cs[0] in bad then (free, true)
    else Ended(Returned(free, cs[0]), cs[1..], bad)
  }

  function Due(pending: seq<Note>, now: real): seq<Note> {
    if pending == [] then []
    else (if pending[0].due <= now then [pending[0]] else []) + Due(pending[1..], now)
  }

  function StillSounding(pending: seq<Note>, now: real): seq<Note> {
    if pending == [] then []
    else (if pending[0].due <= now then [] else [pending[0]]) + StillSounding(pending[1..], now)
  }

  /** `tick`: a raise leaves the waiting list as it was. */
  function Ticked(b: Bridge, now: real, bad: set<nat>): Bridge {
    var (free, raised) := Ended(b.free, Waiting(Due(b.pending, now)), bad);
    b.(free := free, pending := if raised then b.pending else StillSounding(b.pending, now))
  }

  /** Its drone sounds on a voice that raises, so the release stops before any voice is given back. */
  predicate DroneStuck(e: Entry, bad: set<nat>) { e.sounding && e.parts != [] && e.parts[0].channel in bad }

  predicate AnyBad(e: Entry, bad: set<nat>) { exists p :: p in e.parts && p.channel in bad }

  function ReleasedAt(b: Bridge, i: nat, bad: set<nat>): Bridge
    requires i < |b.devices|
  {
    b.(devices := b.devices[..i] + b.devices[i + 1..],
       free := if DroneStuck(b.devices[i], bad) then b.free else GiveBack(b.free, Channels(b.devices[i].parts)))
  }

  function Released(b: Bridge, dev: Dev, bad: set<nat>): Bridge {
    if Has(b, dev) then ReleasedAt(b, Find(b.devices, dev), bad) else b
  }

  /** `shutdown`'s walk over the devices: the first release that raises is the last. */
  function Emptied(b: Bridge, bad: set<nat>): Bridge
    decreases |b.devices|
  {
    if b.devices == [] then b
    else
      var b1 := ReleasedAt(b, 0, bad);
      if AnyBad(b.devices[0], bad) then b1 else Emptied(b1, bad)
  }

  function ShutDown(b: Bridge, bad: set<nat>): Bridge {
    var (free, raised) := Ended(b.free, Waiting(b.pending), bad);
    var b1 := b.(shut := true, live := false, free := free, pending := if raised then b.pending else []);
    if raised then b1 else Emptied(b1, bad)
  }

  /** `start_drone` and `stop_drone`: only a declared drone starts. */
  function Sounding(b: Bridge, dev: Dev, on: bool): Bridge {
    if !Has(b, dev) || (on && !b.devices[Find(b.devices, dev)].drone) then b
    else
      var i := Find(b.devices, dev);
      b.(devices := b.devices[i := b.devices[i].(sounding := on)])
  }

  function AllChannels(): (s: seq<nat>)
    ensures Increasing(s) && |s| == CHANNELS && forall i :: 0 <= i < |s| ==> s[i] == i
  {
    seq(CHANNELS, i => i)
  }

  // ---- conservation ---------------------------------------------------------------------

  /** In how many places channel `c` is. */
  ghost function Places(b: Bridge, c: nat): nat {
    multiset(b.free)[c] + multiset(Held(b.devices))[c] + multiset(Waiting(b.pending))[c]
  }

  ghost predicate Distinct(devices: seq<Entry>) {
    forall i, j :: 0 <= i < j < |devices| ==> devices[i].dev != devices[j].dev
  }

  /** Channel 9 and drums go together, in parts; a waiting note never has it. */
  ghost predicate DrumsApart(b: Bridge) {
    && (forall e, p :: e in b.devices && p in e.parts ==> (p.channel == DRUM_CHANNEL <==> p.drums))
    && (forall n :: n in b.pending ==> n.channel != DRUM_CHANNEL)
  }

  ghost predicate Shaped(b: Bridge) {
    Increasing(b.free) && Distinct(b.devices) && DrumsApart(b) && forall e :: e in b.devices ==> e.parts != []
  }

  ghost predicate Each(b: Bridge) { forall c: nat :: Places(b, c) == if c < CHANNELS then 1 else 0 }

  ghost predicate Conserved(b: Bridge) { Shaped(b) && Each(b) }

  lemma {:induction false} GiveBackCounts(free: seq<nat>, cs: seq<nat>)
    requires Increasing(free) && forall c: nat :: multiset(free)[c] + multiset(cs)[c] <= 1
    ensures Increasing(GiveBack(free, cs)) && multiset(GiveBack(free, cs)) == multiset(free) + multiset(cs)
    decreases |cs|
  {
    if cs != [] {
      assert cs == [cs[0]] + cs[1..];
      assert multiset(cs)[cs[0]] >= 1;
      assert cs[0] !in free;
      InsertIncreasing(free, cs[0]);
      GiveBackCounts(Returned(free, cs[0]), cs[1..]);
    }
  }

  lemma {:induction false} SameIncreasing(a: seq<nat>, b: seq<nat>)
    requires Increasing(a) && Increasing(b) && multiset(a) == multiset(b)
    ensures a == b
  {
    if a == [] || b == [] {
      assert |a| == |multiset(a)| && |b| == |multiset(b)|;
    } else {
      TailIncreasing(a);
      TailIncreasing(b);
      assert a[0] in multiset(b) && b[0] in multiset(a);
      assert a == [a[0]] + a[1..] && b == [b[0]] + b[1..];
      assert a[0] == b[0];
      assert multiset(a[1..]) == multiset(a) - multiset{a[0]};
      SameIncreasing(a[1..], b[1..]);
    }
  }

  lemma ChannelsAppend(parts: seq<Part>, p: Part)
    ensures Channels(parts + [p]) == Channels(parts) + [p.channel]
  {
  }

  ghost predicate PartsDrums(parts: seq<Part>) { forall p :: p in parts ==> (p.channel == DRUM_CHANNEL <==> p.drums) }

  ghost function Pool(free: seq<nat>, parts: seq<Part>): multiset<nat> { multiset(free) + multiset(Channels(parts)) }

  ghost predicate Single(m: multiset<nat>) { forall c: nat :: m[c] <= 1 }

  /** What a grant's loop must come to, from the channels it may use. */
  ghost predicate Settles(t: Taking, all: multiset<nat>, fault: bool) {
    && Increasing(t.free)
    && match t
       case Took(free, parts) => !fault && Pool(free, parts) == all && PartsDrums(parts)
       case Failed(free) => multiset(free) <= all && (fault <==> multiset(free) != all)
  }

  lemma MoveOne(free: seq<nat>, parts: seq<Part>, part: Part)
    requires part.channel in free && Increasing(free) && Single(Pool(free, parts))
    ensures var rest := Remove(free, part.channel);
      && Increasing(rest) && Pool(rest, parts + [part]) == Pool(free, parts)
      && multiset(rest) + multiset(Channels(parts)) < Pool(free, parts)
  {
    RemoveIncreasing(free, part.channel);
    ChannelsAppend(parts, part);
    assert Pool(free, parts)[part.channel] <= 1;
  }

  lemma GivesAllBack(free: seq<nat>, parts: seq<Part>)
    requires Increasing(free) && Single(Pool(free, parts))
    ensures Increasing(GiveBack(free, Channels(parts)))
        && multiset(GiveBack(free, Channels(parts))) == Pool(free, parts)
  {
    forall c: nat ensures multiset(free)[c] + multiset(Channels(parts))[c] <= 1 {
      assert Pool(free, parts)[c] <= 1;
    }
    GiveBackCounts(free, Channels(parts));
  }

  /**
   A grant's loop moves channels from the free list to its parts; failing, it gives them all
   back but a lane fault's.
   */
  lemma {:induction false} TakenSettles(live: bool, free: seq<nat>, decls: seq<Decl>, bad: set<nat>, parts: seq<Part>)
    requires Increasing(free) && PartsDrums(parts) && Single(Pool(free, parts))
    ensures var t := Taken(live, free, decls, bad, parts);
      Settles(t, Pool(free, parts), LaneFault(live, free, decls, bad)) && (t.Took? ==> |t.parts| == |parts| + |decls|)
    decreases |decls|
  {
    hide Increasing;
    hide Single;
    hide Channels;
    hide FirstMelodic;
    if decls != [] {
      var c := Pick(live, free, decls[0].drums);
      if c.None? {
        GivesAllBack(free, parts);
      } else {
        var part := Part(c.value, decls[0].drums);
        MoveOne(free, parts, part);
        var rest := Remove(free, c.value);
        hide Remove;
        hide GiveBack;
        if !decls[0].lanesParse {
          FewerIsSingle(rest, parts, Pool(free, parts));
          GivesAllBack(rest, parts);
        } else if decls[0].program && c.value in bad {
          GivesAllBack(rest, parts + [part]);
        } else {
          TakenSettles(live, rest, decls[1..], bad, parts + [part]);
        }
      }
    }
  }

  lemma FewerIsSingle(free: seq<nat>, parts: seq<Part>, all: multiset<nat>)
    requires Pool(free, parts) <= all && Single(all)
    ensures Single(Pool(free, parts))
  {
  }

  // ---- each call ---------------------------------------------------------------------------

  lemma {:induction false} HeldAt(devices: seq<Entry>, i: nat)
    requires i < |devices|
    ensures multiset(Held(devices)) == multiset(Channels(devices[i].parts))
        + multiset(Held(devices[..i] + devices[i + 1..]))
  {
    var rest := devices[..i] + devices[i + 1..];
    if i == 0 {
      assert rest == devices[1..];
    } else {
      HeldAt(devices[1..], i - 1);
      assert rest[1..] == devices[1..][..i - 1] + devices[1..][i..];
    }
  }

  lemma {:induction false} HeldWritten(devices: seq<Entry>, i: nat, e: Entry)
    requires i < |devices|
    ensures multiset(Held(devices[i := e])) + multiset(Channels(devices[i].parts))
         == multiset(Held(devices)) + multiset(Channels(e.parts))
  {
    var now := devices[i := e];
    HeldAt(devices, i);
    HeldAt(now, i);
    assert now[..i] + now[i + 1..] == devices[..i] + devices[i + 1..];
  }

  lemma {:induction false} HeldAppended(devices: seq<Entry>, e: Entry)
    ensures multiset(Held(devices + [e])) == multiset(Held(devices)) + multiset(Channels(e.parts))
  {
    HeldAt(devices + [e], |devices|);
    assert (devices + [e])[..|devices|] + (devices + [e])[|devices| + 1..] == devices;
  }

  /** The welcome or bell note: it leaks its channel exactly when the voice it gets raises. */
  predicate PlaySafe(b: Bridge, bad: set<nat>) {
    b.shut || Pick(b.live, b.free, false).None? || Pick(b.live, b.free, false).value !in bad
  }

  lemma PlayedPlaces(b: Bridge, due: real, bad: set<nat>)
    ensures forall c :: Places(Played(b, due, bad), c) <= Places(b, c)
    ensures PlaySafe(b, bad) ==> forall c :: Places(Played(b, due, bad), c) == Places(b, c)
    ensures !PlaySafe(b, bad) ==> exists c :: Places(Played(b, due, bad), c) < Places(b, c)
  {
    var c := Pick(b.live, b.free, false);
    if !b.shut && c.Some? {
      var note := Note(due, c.value);
      assert Waiting(b.pending + [note]) == Waiting(b.pending) + [c.value];
      assert multiset(b.free)[c.value] >= 1;
      assert !PlaySafe(b, bad) ==> Places(Played(b, due, bad), c.value) < Places(b, c.value);
    }
  }

  lemma PlayedShape(b: Bridge, due: real, bad: set<nat>)
    requires Shaped(b)
    ensures Shaped(Played(b, due, bad))
  {
    var c := Pick(b.live, b.free, false);
    if !b.shut && c.Some? {
      RemoveIncreasing(b.free, c.value);
    }
    hide Increasing;
    hide Distinct;
    hide Remove;
    hide FirstMelodic;
  }

  lemma PlayConservesExactly(b: Bridge, due: real, bad: set<nat>)
    requires Conserved(b)
    ensures Conserved(Played(b, due, bad)) <==> PlaySafe(b, bad)
    ensures Shaped(Played(b, due, bad))
  {
    PlayedPlaces(b, due, bad);
    PlayedShape(b, due, bad);
    hide Places;
    hide Shaped;
    hide Played;
    hide PlaySafe;
  }

  /** The grant before its welcome. */
  function GrantStored(b: Bridge, dev: Dev, decls: seq<Decl>, bad: set<nat>): Bridge {
    match Taken(b.live, b.free, decls, bad, [])
    case Failed(free) => b.(free := free)
    case Took(free, parts) =>
      b.(free := free,
         devices := if decls == [] then b.devices else Stored(b.devices, Entry(dev, parts, decls[0].drone, false)))
  }

  /** No lane fault, and a grant that goes through is not of a device holding parts already. */
  predicate StoreSafe(b: Bridge, dev: Dev, decls: seq<Decl>, bad: set<nat>) {
    && !LaneFault(b.live, b.free, decls, bad)
    && (Taken(b.live, b.free, decls, bad, []).Took? && decls != [] ==> !Has(b, dev))
  }

  lemma FreeIsSingle(b: Bridge)
    requires Each(b)
    ensures Single(Pool(b.free, [])) && Pool(b.free, []) == multiset(b.free)
  {
    assert Channels([]) == [];
    forall c: nat ensures multiset(b.free)[c] <= 1 {
      assert Places(b, c) <= 1;
    }
  }

  lemma StoredHeld(devices: seq<Entry>, e: Entry)
    ensures var i := Find(devices, e.dev);
      multiset(Held(Stored(devices, e))) + (if i < |devices| then multiset(Channels(devices[i].parts)) else multiset{})
      == multiset(Held(devices)) + multiset(Channels(e.parts))
  {
    var i := Find(devices, e.dev);
    if i < |devices| {
      HeldWritten(devices, i, e);
    } else {
      HeldAppended(devices, e);
    }
  }

  lemma StoredPlaces(b: Bridge, free: seq<nat>, e: Entry, c: nat)
    requires multiset(free) + multiset(Channels(e.parts)) == multiset(b.free)
    ensures var i := Find(b.devices, e.dev);
      Places(b.(free := free, devices := Stored(b.devices, e)), c)
      + (if i < |b.devices| then multiset(Channels(b.devices[i].parts))[c] else 0) == Places(b, c)
  {
    StoredHeld(b.devices, e);
    var i := Find(b.devices, e.dev);
    var dropped := if i < |b.devices| then multiset(Channels(b.devices[i].parts)) else multiset{};
    hide Held;
    hide Stored;
    hide Channels;
    assert (multiset(free) + multiset(Channels(e.parts)))[c] == multiset(b.free)[c];
    assert (multiset(Held(Stored(b.devices, e))) + dropped)[c]
        == (multiset(Held(b.devices)) + multiset(Channels(e.parts)))[c];
  }

  lemma {:induction false} StoredShape(devices: seq<Entry>, e: Entry)
    requires Distinct(devices)
    ensures Distinct(Stored(devices, e))
    ensures forall x :: x in Stored(devices, e) ==> x == e || x in devices
  {
  }

  lemma StoreShaped(b: Bridge, free: seq<nat>, e: Entry)
    requires Shaped(b) && Increasing(free) && PartsDrums(e.parts) && e.parts != []
    ensures Shaped(b.(free := free, devices := Stored(b.devices, e)))
  {
    StoredShape(b.devices, e);
    hide Stored;
    hide Increasing;
    hide Distinct;
  }

  /** A call loses nothing, or it loses some channel for good. */
  ghost predicate Keeps(b: Bridge, b': Bridge) { forall c :: Places(b', c) == Places(b, c) }

  ghost predicate Loses(b: Bridge, b': Bridge) {
    && (forall c :: Places(b', c) <= Places(b, c))
    && exists c :: Places(b', c) < Places(b, c)
  }

  lemma KeepsOrLoses(b: Bridge, b': Bridge)
    requires Each(b)
    ensures Keeps(b, b') ==> Each(b')
    ensures Loses(b, b') ==> !Each(b')
  {
    hide Places;
    if Loses(b, b') {
      var c: nat :| Places(b', c) < Places(b, c);
      assert Places(b', c) != if c < CHANNELS then 1 else 0;
    }
  }

  lemma GrantStoredOutcome(b: Bridge, dev: Dev, decls: seq<Decl>, bad: set<nat>)
    requires Conserved(b)
    ensures var b' := GrantStored(b, dev, decls, bad);
      && Shaped(b') && (if StoreSafe(b, dev, decls, bad) then Keeps(b, b') else Loses(b, b'))
      && (Taken(b.live, b.free, decls, bad, []).Failed? && !LaneFault(b.live, b.free, decls, bad) ==> b' == b)
  {
    FreeIsSingle(b);
    TakenSettles(b.live, b.free, decls, bad, []);
    hide Each;
    hide Single;
    hide LaneFault;
    match Taken(b.live, b.free, decls, bad, []) {
      case Failed(free) =>
        FailedOutcome(b, free, LaneFault(b.live, b.free, decls, bad));
      case Took(free, parts) =>
        if decls == [] {
          SameIncreasing(free, b.free) by {
            assert Channels(parts) == [];
          }
        } else {
          TookOutcome(b, free, Entry(dev, parts, decls[0].drone, false));
        }
    }
    hide Shaped;
    hide Keeps;
    hide Loses;
    hide Taken;
    hide Stored;
  }

  lemma Extensional(m: multiset<nat>, n: multiset<nat>)
    requires forall c :: m[c] == n[c]
    ensures m == n
  {
  }

  lemma FailedOutcome(b: Bridge, free: seq<nat>, fault: bool)
    requires Shaped(b) && Settles(Failed(free), multiset(b.free), fault)
    ensures Shaped(b.(free := free))
    ensures if fault then Loses(b, b.(free := free)) else free == b.free
  {
    if fault {
      forall c ensures multiset(free)[c] <= multiset(b.free)[c] {
        assert multiset(free) <= multiset(b.free);
      }
      if forall c :: multiset(free)[c] == multiset(b.free)[c] {
        Extensional(multiset(free), multiset(b.free));
      }
      var c :| multiset(free)[c] != multiset(b.free)[c];
      assert Places(b.(free := free), c) < Places(b, c);
    } else {
      SameIncreasing(free, b.free);
    }
  }

  lemma TookOutcome(b: Bridge, free: seq<nat>, e: Entry)
    requires Shaped(b) && Settles(Took(free, e.parts), multiset(b.free), false) && e.parts != []
    ensures var b' := b.(free := free, devices := Stored(b.devices, e));
      Shaped(b') && if Has(b, e.dev) then Loses(b, b') else Keeps(b, b')
  {
    var b' := b.(free := free, devices := Stored(b.devices, e));
    StoreShaped(b, free, e);
    forall c {
      StoredPlaces(b, free, e, c);
    }
    hide Places;
    if Has(b, e.dev) {
      var was := b.devices[Find(b.devices, e.dev)];
      assert was in b.devices;
      assert Channels(was.parts)[0] in multiset(Channels(was.parts));
      assert Places(b', Channels(was.parts)[0]) < Places(b, Channels(was.parts)[0]);
    }
  }

  predicate GrantSafe(b: Bridge, dev: Dev, decls: seq<Decl>, welcome: Option<real>, bad: set<nat>) {
    b.shut || (StoreSafe(b, dev, decls, bad)
               && (Taken(b.live, b.free, decls, bad, []).Took? && welcome.Some? ==>
                     PlaySafe(GrantStored(b, dev, decls, bad), bad)))
  }

  /**
   A grant keeps every channel accounted for exactly when no instrument's turn meets an
   unparsable lane, it does not overwrite parts the device still holds, and its welcome's
   voice does not raise. A grant failing partway, by anything but a lane, changes nothing.
   */
  lemma GrantConservesExactly(b: Bridge, dev: Dev, decls: seq<Decl>, welcome: Option<real>, bad: set<nat>)
    requires Conserved(b)
    ensures Conserved(Granted(b, dev, decls, welcome, bad)) <==> GrantSafe(b, dev, decls, welcome, bad)
    ensures Taken(b.live, b.free, decls, bad, []).Failed? && !LaneFault(b.live, b.free, decls, bad) ==>
      Granted(b, dev, decls, welcome, bad) == b
  {
    GrantStoredOutcome(b, dev, decls, bad);
    var b1 := GrantStored(b, dev, decls, bad);
    KeepsOrLoses(b, b1);
    var t := Taken(b.live, b.free, decls, bad, []);
    if !b.shut && t.Took? && welcome.Some? {
      var b2 := Played(b1, welcome.value, bad);
      assert Granted(b, dev, decls, welcome, bad) == b2;
      PlayedPlaces(b1, welcome.value, bad);
      if StoreSafe(b, dev, decls, bad) {
        PlayConservesExactly(b1, welcome.value, bad);
      } else {
        hide Played;
        hide Places;
        var c :| Places(b1, c) < Places(b, c);
        assert Places(b2, c) < Places(b, c);
        KeepsOrLoses(b, b2);
      }
    }
    hide Played;
    hide Taken;
    hide StoreSafe;
    hide Each;
    hide Shaped;
    hide Stored;
  }

  // ---- notes that end ------------------------------------------------------------------------

  lemma WaitingCons(n: Note, rest: seq<Note>)
    ensures multiset(Waiting([n] + rest)) == multiset{n.channel} + multiset(Waiting(rest))
  {
    assert Waiting([n] + rest) == [n.channel] + Waiting(rest);
  }

  lemma OneMore(c: nat, d: multiset<nat>, s: multiset<nat>)
    ensures multiset{c} + (d + s) == (multiset{c} + d) + s == d + (multiset{c} + s)
  {
  }

  lemma {:induction false} DueSplits(pending: seq<Note>, now: real)
    ensures multiset(Waiting(pending)) == multiset(Waiting(Due(pending, now)))
        + multiset(Waiting(StillSounding(pending, now)))
    ensures forall n :: n in StillSounding(pending, now) ==> n in pending
  {
    if pending != [] {
      var n, rest := pending[0], pending[1..];
      var d, s := Due(rest, now), StillSounding(rest, now);
      DueSplits(rest, now);
      assert pending == [n] + rest && [] + d == d && [] + s == s;
      WaitingCons(n, rest);
      WaitingCons(n, d);
      WaitingCons(n, s);
      hide Waiting;
      assert Due(pending, now) == if n.due <= now then [n] + d else d;
      assert StillSounding(pending, now) == if n.due <= now then s else [n] + s;
      hide Due;
      hide StillSounding;
      OneMore(n.channel, multiset(Waiting(d)), multiset(Waiting(s)));
    }
  }

  predicate NoneBad(cs: seq<nat>, bad: set<nat>) { forall c :: c in cs ==> c !in bad }

  lemma {:induction false} EndedCounts(free: seq<nat>, cs: seq<nat>, bad: set<nat>)
    requires Increasing(free) && Single(multiset(free) + multiset(cs))
    ensures var (f, raised) := Ended(free, cs, bad);
      && Increasing(f) && multiset(free) <= multiset(f) && (raised <==> !NoneBad(cs, bad))
      && (!raised ==> multiset(f) == multiset(free) + multiset(cs))
      && (raised ==> exists c :: c in cs && c !in f)
      && (cs != [] && cs[0] in bad ==> f == free)
      && (cs != [] && cs[0] !in bad ==> cs[0] in f)
    decreases |cs|
  {
    if cs != [] {
      assert cs == [cs[0]] + cs[1..];
      assert (multiset(free) + multiset(cs))[cs[0]] <= 1;
      assert multiset(cs)[cs[0]] >= 1;
      if cs[0] !in bad {
        InsertIncreasing(free, cs[0]);
        assert multiset(Insert(free, cs[0])) + multiset(cs[1..]) == multiset(free) + multiset(cs);
        EndedCounts(Returned(free, cs[0]), cs[1..], bad);
        assert cs[0] in multiset(Returned(free, cs[0]));
        assert cs[0] in multiset(Ended(free, cs, bad).0);
      } else {
        assert cs[0] in cs && cs[0] !in multiset(free);
      }
    }
  }

  /** No due note's voice raises, or the first one's does: then nothing has been given back yet. */
  predicate TickSafe(b: Bridge, now: real, bad: set<nat>) {
    var cs := Waiting(Due(b.pending, now));
    NoneBad(cs, bad) || cs[0] in bad
  }

  lemma WaitingIsSingle(b: Bridge, cs: seq<nat>)
    requires Each(b) && multiset(cs) <= multiset(Waiting(b.pending))
    ensures Single(multiset(b.free) + multiset(cs))
  {
    forall c: nat ensures (multiset(b.free) + multiset(cs))[c] <= 1 {
      assert Places(b, c) <= 1;
      assert multiset(cs)[c] <= multiset(Waiting(b.pending))[c];
    }
  }

  lemma TickConservesExactly(b: Bridge, now: real, bad: set<nat>)
    requires Conserved(b)
    ensures Conserved(Ticked(b, now, bad)) <==> TickSafe(b, now, bad)
  {
    hide Ended;
    hide Increasing;
    hide Distinct;
    hide Single;
    hide Due;
    hide StillSounding;
    hide Waiting;
    hide Places;
    var cs := Waiting(Due(b.pending, now));
    DueSplits(b.pending, now);
    WaitingIsSingle(b, cs);
    EndedCounts(b.free, cs, bad);
    var b' := Ticked(b, now, bad);
    var (f, raised) := Ended(b.free, cs, bad);
    if !raised {
      TickKeeps(b, b', multiset(cs));
    } else if cs[0] in bad {
      assert b' == b;
    } else {
      TickDoubles(b, b', cs[0]);
    }
  }

  lemma TickKeeps(b: Bridge, b': Bridge, cs: multiset<nat>)
    requires Each(b) && b'.devices == b.devices && multiset(b'.free) == multiset(b.free) + cs
    requires multiset(Waiting(b.pending)) == cs + multiset(Waiting(b'.pending))
    ensures Each(b')
  {
    forall c: nat ensures Places(b', c) == Places(b, c) {
      assert multiset(b'.free)[c] == multiset(b.free)[c] + cs[c];
      assert multiset(Waiting(b.pending))[c] == cs[c] + multiset(Waiting(b'.pending))[c];
    }
  }

  /** A voice given back while its note still waits is in two places. */
  lemma TickDoubles(b: Bridge, b': Bridge, c: nat)
    requires c in multiset(Waiting(b.pending)) && c in b'.free && b'.pending == b.pending
    ensures !Each(b')
  {
    assert c in multiset(b'.free);
    assert Places(b', c) >= 2;
  }

  // ---- releases -----------------------------------------------------------------------------

  lemma PartsAreSingle(b: Bridge, i: nat)
    requires Each(b) && i < |b.devices|
    ensures Single(Pool(b.free, b.devices[i].parts))
  {
    HeldAt(b.devices, i);
    forall c: nat ensures Pool(b.free, b.devices[i].parts)[c] <= 1 {
      assert Places(b, c) <= 1;
      assert multiset(Held(b.devices))[c] >= multiset(Channels(b.devices[i].parts))[c];
    }
  }

  lemma WithoutShape(b: Bridge, i: nat)
    requires Shaped(b) && i < |b.devices|
    ensures Shaped(b.(devices := b.devices[..i] + b.devices[i + 1..]))
  {
    var rest := b.devices[..i] + b.devices[i + 1..];
    forall e | e in rest ensures e in b.devices {
    }
  }

  lemma ReleasedAtShape(b: Bridge, i: nat, bad: set<nat>)
    requires Conserved(b) && i < |b.devices|
    ensures Shaped(ReleasedAt(b, i, bad))
  {
    WithoutShape(b, i);
    PartsAreSingle(b, i);
    GivesAllBack(b.free, b.devices[i].parts);
    hide GiveBack;
    hide Increasing;
    hide Distinct;
    hide Each;
  }

  /** A release gives every voice back, unless its drone's voice raises first: then it loses them all. */
  lemma ReleasedAtOutcome(b: Bridge, i: nat, bad: set<nat>)
    requires Conserved(b) && i < |b.devices|
    ensures var b' := ReleasedAt(b, i, bad);
      && Shaped(b') && (if DroneStuck(b.devices[i], bad) then Loses(b, b') else Keeps(b, b'))
      && b'.pending == b.pending
  {
    var e, b' := b.devices[i], ReleasedAt(b, i, bad);
    ReleasedAtShape(b, i, bad);
    HeldAt(b.devices, i);
    PartsAreSingle(b, i);
    GivesAllBack(b.free, e.parts);
    hide GiveBack;
    hide Shaped;
    hide Each;
    hide Held;
    if DroneStuck(e, bad) {
      var c0 := Channels(e.parts)[0];
      assert c0 in multiset(Channels(e.parts));
      GivenUp(b, b', multiset(Channels(e.parts)), c0);
    } else {
      GivenBack(b, b', multiset(Channels(e.parts)));
    }
    hide Keeps;
    hide Loses;
  }

  lemma GivenBack(b: Bridge, b': Bridge, parts: multiset<nat>)
    requires multiset(Held(b.devices)) == parts + multiset(Held(b'.devices))
    requires multiset(b'.free) == multiset(b.free) + parts && b'.pending == b.pending
    ensures Keeps(b, b')
  {
    forall c ensures Places(b', c) == Places(b, c) {
      assert multiset(Held(b.devices))[c] == parts[c] + multiset(Held(b'.devices))[c];
      assert multiset(b'.free)[c] == multiset(b.free)[c] + parts[c];
    }
  }

  lemma GivenUp(b: Bridge, b': Bridge, parts: multiset<nat>, c0: nat)
    requires multiset(Held(b.devices)) == parts + multiset(Held(b'.devices)) && c0 in parts
    requires b'.free == b.free && b'.pending == b.pending
    ensures Loses(b, b')
  {
    forall c ensures Places(b', c) + parts[c] == Places(b, c) {
      assert multiset(Held(b.devices))[c] == parts[c] + multiset(Held(b'.devices))[c];
    }
    assert Places(b', c0) < Places(b, c0);
  }

  lemma ReleaseConservesExactly(b: Bridge, dev: Dev, bad: set<nat>)
    requires Conserved(b)
    ensures Conserved(Released(b, dev, bad)) <==> !Has(b, dev) || !DroneStuck(b.devices[Find(b.devices, dev)], bad)
  {
    if Has(b, dev) {
      var i := Find(b.devices, dev);
      ReleasedAtOutcome(b, i, bad);
      KeepsOrLoses(b, ReleasedAt(b, i, bad));
    }
    hide Shaped;
    hide Each;
    hide ReleasedAt;
    hide DroneStuck;
  }

  // ---- the end --------------------------------------------------------------------------------

  /** The first device with a voice that raises, if any, does not have its drone on it. */
  predicate EmptySafe(devices: seq<Entry>, bad: set<nat>) {
    forall i :: 0 <= i < |devices| && DroneStuck(devices[i], bad) ==> exists j :: 0 <= j < i && AnyBad(devices[j], bad)
  }

  /** No voice raises, except in the last device, and not under its drone. */
  predicate EmptyClean(devices: seq<Entry>, bad: set<nat>) {
    forall i :: 0 <= i < |devices| ==> !DroneStuck(devices[i], bad) && (i < |devices| - 1 ==> !AnyBad(devices[i], bad))
  }

  lemma StuckIsBad(e: Entry, bad: set<nat>)
    ensures DroneStuck(e, bad) ==> AnyBad(e, bad)
  {
    if DroneStuck(e, bad) {
      assert e.parts[0] in e.parts;
    }
  }

  lemma SafeTail(devices: seq<Entry>, bad: set<nat>)
    requires devices != []
    ensures EmptySafe(devices, bad) <==>
            !DroneStuck(devices[0], bad) && (AnyBad(devices[0], bad) || EmptySafe(devices[1..], bad))
    ensures EmptyClean(devices, bad) <==>
      !DroneStuck(devices[0], bad) && (|devices| == 1 || !AnyBad(devices[0], bad)) && EmptyClean(devices[1..], bad)
  {
    StuckIsBad(devices[0], bad);
    hide DroneStuck;
    hide AnyBad;
    var tail := devices[1..];
    assert forall i :: 0 <= i < |tail| ==> tail[i] == devices[i + 1];
    assert forall i :: 0 < i < |devices| ==> devices[i] == tail[i - 1];
    if EmptySafe(devices, bad) && !AnyBad(devices[0], bad) {
      forall i | 0 <= i < |tail| && DroneStuck(tail[i], bad) ensures exists j :: 0 <= j < i && AnyBad(tail[j], bad) {
        var j :| 0 <= j < i + 1 && AnyBad(devices[j], bad);
        assert AnyBad(tail[j - 1], bad);
      }
    }
    if EmptySafe(tail, bad) && !DroneStuck(devices[0], bad) {
      forall i | 0 <= i < |devices| && DroneStuck(devices[i], bad)
        ensures exists j :: 0 <= j < i && AnyBad(devices[j], bad)
      {
        assert DroneStuck(tail[i - 1], bad);
        var j :| 0 <= j < i - 1 && AnyBad(tail[j], bad);
        assert AnyBad(devices[j + 1], bad);
      }
    }
  }

  lemma FirstReleased(b: Bridge, bad: set<nat>)
    requires Conserved(b) && b.devices != []
    ensures var b1, mine := ReleasedAt(b, 0, bad), multiset(Channels(b.devices[0].parts));
      && b1.devices == b.devices[1..] && b1.pending == b.pending && Increasing(b1.free)
      && (Conserved(b1) <==> !DroneStuck(b.devices[0], bad))
      && multiset(b1.free) == (if DroneStuck(b.devices[0], bad) then multiset(b.free) else multiset(b.free) + mine)
      && multiset(Held(b.devices)) == mine + multiset(Held(b.devices[1..])) && mine != multiset{}
  {
    var b1, parts := ReleasedAt(b, 0, bad), b.devices[0].parts;
    assert b.devices[..0] + b.devices[1..] == b.devices[1..];
    ReleasedAtOutcome(b, 0, bad);
    KeepsOrLoses(b, b1);
    assert b.devices[0] in b.devices;
    assert Channels(parts)[0] in multiset(Channels(parts));
    PartsAreSingle(b, 0);
    GivesAllBack(b.free, parts);
    hide Each;
    hide Keeps;
    hide Loses;
    hide GiveBack;
    hide DroneStuck;
    hide Channels;
    hide Distinct;
    hide Increasing;
    hide DrumsApart;
  }

  lemma {:induction false} EmptiedConserves(b: Bridge, bad: set<nat>)
    requires Conserved(b)
    ensures var b' := Emptied(b, bad);
      (Conserved(b') <==> EmptySafe(b.devices, bad)) && b'.pending == b.pending
    decreases |b.devices|
  {
    if b.devices != [] {
      SafeTail(b.devices, bad);
      StuckIsBad(b.devices[0], bad);
      FirstReleased(b, bad);
      hide EmptySafe;
      hide ReleasedAt;
      if !AnyBad(b.devices[0], bad) {
        EmptiedConserves(ReleasedAt(b, 0, bad), bad);
      }
      hide Conserved;
      hide AnyBad;
      hide DroneStuck;
      hide EmptyClean;
      hide Held;
    }
  }

  lemma {:induction false} EmptiedFrees(b: Bridge, bad: set<nat>)
    requires Conserved(b)
    ensures var b' := Emptied(b, bad);
      && Increasing(b'.free)
      && (multiset(b'.free) == multiset(b.free) + multiset(Held(b.devices)) <==> EmptyClean(b.devices, bad))
      && (EmptyClean(b.devices, bad) ==> b'.devices == [])
    decreases |b.devices|
  {
    if b.devices != [] {
      SafeTail(b.devices, bad);
      StuckIsBad(b.devices[0], bad);
      FirstReleased(b, bad);
      TailHeldNone(b);
      Grouping(multiset(b.free), multiset(Channels(b.devices[0].parts)), multiset(Held(b.devices[1..])));
      hide Held;
      hide EmptyClean;
      hide EmptySafe;
      hide ReleasedAt;
      hide AnyBad;
      hide DroneStuck;
      hide Channels;
      if !AnyBad(b.devices[0], bad) {
        EmptiedFrees(ReleasedAt(b, 0, bad), bad);
      }
      hide Conserved;
      hide Increasing;
    } else {
      assert multiset(Held(b.devices)) == multiset{};
    }
  }

  lemma Grouping(free: multiset<nat>, mine: multiset<nat>, rest: multiset<nat>)
    ensures mine != multiset{} ==> free != free + (mine + rest)
    ensures free + mine == free + (mine + rest) <==> rest == multiset{}
    ensures (free + mine) + rest == free + (mine + rest)
  {
    assert |free + (mine + rest)| == |free| + |mine| + |rest|;
    assert |free + mine| == |free| + |mine|;
  }

  lemma TailHeldNone(b: Bridge)
    requires Shaped(b) && b.devices != []
    ensures multiset(Held(b.devices[1..])) == multiset{} <==> b.devices[1..] == []
  {
    assert forall e :: e in b.devices[1..] ==> e in b.devices;
    HeldNone(b.devices[1..]);
  }

  lemma HeldNone(devices: seq<Entry>)
    requires forall e :: e in devices ==> e.parts != []
    ensures multiset(Held(devices)) == multiset{} <==> devices == []
  {
    if devices != [] {
      assert devices[0] in devices;
      assert Held(devices)[0] in multiset(Held(devices));
    }
  }

  /** Every waiting note ended, before the devices are walked. */
  function NotesEnded(b: Bridge, free: seq<nat>): Bridge {
    b.(shut := true, live := false, free := free, pending := [])
  }

  predicate ShutSafe(b: Bridge, bad: set<nat>) {
    var cs := Waiting(b.pending);
    if NoneBad(cs, bad) then EmptySafe(b.devices, bad) else cs[0] in bad
  }

  predicate ShutClean(b: Bridge, bad: set<nat>) { NoneBad(Waiting(b.pending), bad) && EmptyClean(b.devices, bad) }

  lemma NotesEndedConserves(b: Bridge, bad: set<nat>)
    requires Conserved(b)
    ensures var (f, raised) := Ended(b.free, Waiting(b.pending), bad);
      && (raised <==> !NoneBad(Waiting(b.pending), bad))
      && (!raised ==> Conserved(NotesEnded(b, f)) && multiset(f) == multiset(b.free) + multiset(Waiting(b.pending)))
      && (raised && Waiting(b.pending)[0] in bad ==> f == b.free)
      && (raised && Waiting(b.pending)[0] !in bad ==> Waiting(b.pending)[0] in f)
      && (raised ==> exists c :: c in Waiting(b.pending) && c !in f)
  {
    hide Ended;
    hide Single;
    hide Increasing;
    hide Distinct;
    hide Waiting;
    var cs := Waiting(b.pending);
    WaitingIsSingle(b, cs);
    EndedCounts(b.free, cs, bad);
    var (f, raised) := Ended(b.free, cs, bad);
    if !raised {
      TickKeeps(b, NotesEnded(b, f), multiset(cs));
    }
  }

  lemma ShutdownConservesExactly(b: Bridge, bad: set<nat>)
    requires Conserved(b)
    ensures Conserved(ShutDown(b, bad)) <==> ShutSafe(b, bad)
  {
    NotesEndedConserves(b, bad);
    var (f, raised) := Ended(b.free, Waiting(b.pending), bad);
    hide Ended;
    hide EmptySafe;
    if !raised {
      EmptiedConserves(NotesEnded(b, f), bad);
    } else if Waiting(b.pending)[0] in bad {
      LiveMatters(b, false, true);
    } else {
      TickDoubles(b, ShutDown(b, bad), Waiting(b.pending)[0]);
    }
    hide Shaped;
    hide Each;
    hide Emptied;
    hide NoneBad;
    hide Waiting;
  }

  lemma LiveMatters(b: Bridge, live: bool, shut: bool)
    requires Conserved(b)
    ensures Conserved(b.(live := live, shut := shut))
  {
    var b' := b.(live := live, shut := shut);
    assert forall c :: Places(b', c) == Places(b, c);
  }

  lemma AllIsSixteen(b: Bridge)
    requires Each(b) && b.pending == []
    ensures multiset(b.free) + multiset(Held(b.devices)) == multiset(AllChannels())
  {
    assert Waiting(b.pending) == [];
    forall c: nat ensures (multiset(b.free) + multiset(Held(b.devices)))[c] == multiset(AllChannels())[c] {
      assert Places(b, c) == if c < CHANNELS then 1 else 0;
      OneOfEach(AllChannels(), c);
      assert c < CHANNELS ==> AllChannels()[c] == c;
    }
  }

  lemma {:induction false} OneOfEach(s: seq<nat>, c: nat)
    requires Increasing(s)
    ensures multiset(s)[c] == if c in s then 1 else 0
  {
    if s != [] {
      TailIncreasing(s);
      OneOfEach(s[1..], c);
      assert s == [s[0]] + s[1..];
    }
  }

  /**
   After `shutdown` all sixteen channels are free, with no device and no note left,
   exactly when no waiting note's voice raised and no device's did, but for the last
   device's away from its drone.
   */
  lemma ShutdownFreesExactly(b: Bridge, bad: set<nat>)
    requires Conserved(b)
    ensures ShutDown(b, bad).free == AllChannels() <==> ShutClean(b, bad)
    ensures ShutClean(b, bad) ==> ShutDown(b, bad).devices == [] && ShutDown(b, bad).pending == []
  {
    NotesEndedConserves(b, bad);
    var (f, raised) := Ended(b.free, Waiting(b.pending), bad);
    hide Ended;
    hide EmptyClean;
    hide NoneBad;
    if !raised {
      var b1 := NotesEnded(b, f);
      EmptiedFrees(b1, bad);
      EmptiedConserves(b1, bad);
      AllIsSixteen(b1);
      hide Emptied;
      if EmptyClean(b1.devices, bad) {
        SameIncreasing(Emptied(b1, bad).free, AllChannels());
      }
    } else {
      var c :| c in Waiting(b.pending) && c !in f;
      assert c in multiset(Waiting(b.pending));
      assert Places(b, c) >= 1;
      assert AllChannels()[c] == c;
    }
    hide Shaped;
    hide Held;
    hide EmptySafe;
  }

  // ---- runs ------------------------------------------------------------------------------------

  datatype Op =
    | Grant(dev: Dev, decls: seq<Decl>, welcome: Option<real>)
    | Play(due: real)
    | Tick(now: real)
    | Drone(dev: Dev, on: bool)
    | Release(dev: Dev)
    | Shut
    | StartPool
    | Quiesce

  function Step(b: Bridge, op: Op, bad: set<nat>): Bridge {
    match op
    case Grant(dev, decls, welcome) => Granted(b, dev, decls, welcome, bad)
    case Play(due) => Played(b, due, bad)
    case Tick(now) => Ticked(b, now, bad)
    case Drone(dev, on) => Sounding(b, dev, on)
    case Release(dev) => Released(b, dev, bad)
    case Shut => ShutDown(b, bad)
    case StartPool => b.(live := true)
    case Quiesce => b.(live := false, free := AllChannels())
  }

  predicate Safe(b: Bridge, op: Op, bad: set<nat>) {
    match op
    case Grant(dev, decls, welcome) => GrantSafe(b, dev, decls, welcome, bad)
    case Play(_) => PlaySafe(b, bad)
    case Tick(now) => TickSafe(b, now, bad)
    case Drone(_, _) => true
    case Release(dev) => !Has(b, dev) || !DroneStuck(b.devices[Find(b.devices, dev)], bad)
    case Shut => ShutSafe(b, bad)
    case StartPool => true
    case Quiesce => b.devices == [] && b.pending == []
  }

  lemma DroneHeld(devices: seq<Entry>, i: nat, on: bool)
    requires i < |devices|
    ensures multiset(Held(devices[i := devices[i].(sounding := on)])) == multiset(Held(devices))
  {
    var e := devices[i].(sounding := on);
    HeldWritten(devices, i, e);
    var mine := multiset(Channels(e.parts));
    assert multiset(Held(devices[i := e])) == (multiset(Held(devices[i := e])) + mine) - mine;
    assert multiset(Held(devices)) == (multiset(Held(devices)) + mine) - mine;
  }

  lemma DroneShape(b: Bridge, i: nat, on: bool)
    requires Shaped(b) && i < |b.devices|
    ensures Shaped(b.(devices := b.devices[i := b.devices[i].(sounding := on)]))
  {
    var e := b.devices[i].(sounding := on);
    assert b.devices[i] in b.devices;
    assert forall x :: x in b.devices[i := e] ==> x == e || x in b.devices;
    hide Increasing;
  }

  lemma DroneConserves(b: Bridge, dev: Dev, on: bool)
    requires Conserved(b)
    ensures Conserved(Sounding(b, dev, on))
  {
    if Has(b, dev) {
      DroneHeld(b.devices, Find(b.devices, dev), on);
      DroneShape(b, Find(b.devices, dev), on);
      hide Shaped;
      hide Held;
      KeepsOrLoses(b, Sounding(b, dev, on));
      hide Waiting;
    }
  }

  lemma TwicePlaced(b: Bridge, c: nat)
    requires Each(b) && (c in Held(b.devices) || c in Waiting(b.pending))
    ensures !Each(b.(live := false, free := AllChannels()))
  {
    assert c in multiset(Held(b.devices)) || c in multiset(Waiting(b.pending));
    assert Places(b, c) >= 1;
    OneOfEach(AllChannels(), c);
    assert AllChannels()[c] == c;
    assert Places(b.(live := false, free := AllChannels()), c) >= 2;
  }

  /** Dropping the pool's state is right exactly when nobody holds a voice. */
  lemma QuiesceConservesExactly(b: Bridge)
    requires Conserved(b)
    ensures Conserved(b.(live := false, free := AllChannels())) <==> b.devices == [] && b.pending == []
  {
    var b' := b.(live := false, free := AllChannels());
    if b.devices != [] || b.pending != [] {
      if b.devices != [] {
        assert b.devices[0] in b.devices;
        TwicePlaced(b, Held(b.devices)[0]);
      } else {
        TwicePlaced(b, Waiting(b.pending)[0]);
      }
    } else {
      forall c: nat ensures Places(b', c) == if c < CHANNELS then 1 else 0 {
        OneOfEach(AllChannels(), c);
        assert c < CHANNELS ==> AllChannels()[c] == c;
        assert Waiting(b.pending) == [];
      }
    }
  }

  /** Each call keeps every channel in exactly one place precisely when it is `Safe`. */
  lemma StepConservesExactly(b: Bridge, op: Op, bad: set<nat>)
    requires Conserved(b)
    ensures Conserved(Step(b, op, bad)) <==> Safe(b, op, bad)
  {
    match op
    case Grant(dev, decls, welcome) =>
      GrantConservesExactly(b, dev, decls, welcome, bad);
      hide Granted; hide GrantSafe; hide Conserved;
    case Play(due) => PlayConservesExactly(b, due, bad); hide Played; hide Conserved;
    case Tick(now) => TickConservesExactly(b, now, bad); hide Ticked; hide Conserved;
    case Drone(dev, on) => DroneConserves(b, dev, on); hide Sounding; hide Conserved;
    case Release(dev) => ReleaseConservesExactly(b, dev, bad); hide Released; hide Conserved;
    case Shut => ShutdownConservesExactly(b, bad); hide ShutDown; hide Conserved;
    case StartPool => LiveMatters(b, true, b.shut); hide Conserved;
    case Quiesce => QuiesceConservesExactly(b); hide Conserved;
  }

  ghost function Run(b: Bridge, ops: seq<(Op, set<nat>)>): Bridge
    decreases |ops|
  {
    if ops == [] then b else Run(Step(b, ops[0].0, ops[0].1), ops[1..])
  }

  ghost predicate AllSafe(b: Bridge, ops: seq<(Op, set<nat>)>)
    decreases |ops|
  {
    ops == [] || (Safe(b, ops[0].0, ops[0].1) && AllSafe(Step(b, ops[0].0, ops[0].1), ops[1..]))
  }

  lemma {:induction false} RunsConserve(b: Bridge, ops: seq<(Op, set<nat>)>)
    requires Conserved(b) && AllSafe(b, ops)
    ensures Conserved(Run(b, ops))
    decreases |ops|
  {
    if ops != [] {
      StepConservesExactly(b, ops[0].0, ops[0].1);
      hide Conserved;
      hide Step;
      hide Safe;
      RunsConserve(Step(b, ops[0].0, ops[0].1), ops[1..]);
    }
  }

  /** A fresh bridge over a fresh pool, from which any safe run and a clean shutdown end with sixteen free channels. */
  lemma VoicesAreConserved(ops: seq<(Op, set<nat>)>, bad: set<nat>)
    requires AllSafe(Bridge(false, AllChannels(), [], [], false), ops)
    ensures var b := Run(Bridge(false, AllChannels(), [], [], false), ops);
      && (forall c: nat :: Places(b, c) == if c < CHANNELS then 1 else 0)
      && DrumsApart(b)
      && (ShutClean(b, bad) <==> ShutDown(b, bad).free == AllChannels())
  {
    var b0 := Bridge(false, AllChannels(), [], [], false);
    forall c: nat ensures Places(b0, c) == if c < CHANNELS then 1 else 0 {
      OneOfEach(AllChannels(), c);
      assert c < CHANNELS ==> AllChannels()[c] == c;
      assert Waiting(b0.pending) == [];
    }
    RunsConserve(b0, ops);
    ShutdownFreesExactly(Run(b0, ops), bad);
    hide ShutDown;
    hide ShutClean;
    hide Places;
  }
}
