/**
 control/audio.py over harness/arco_synth.py: who gets which channel, and which notes wait.

 `AcquireExactly` says which channel an instrument gets, `GrantExactly` when a grant goes
 through and what the device holds then, `PlayExactly` and `TickExactly` which notes wait
 for their end. Conservation (`Voices`) says that no channel is lost on the way.
 */
module VoiceCalls {
  import opened Wrappers
  import opened Voices

  // ---- one channel ----------------------------------------------------------------------

  /** The channel an instrument gets of those left: channel 9 for drums, else the lowest of the others. */
  ghost predicate Gets(left: set<nat>, drums: bool, c: nat) {
    c in left && if drums then c == 9 else c != 9 && forall d :: d in left && d != 9 ==> c <= d
  }

  ghost function SetOf(free: seq<nat>): set<nat> { set c | c in free }

  /** An instrument gets a channel exactly when the synthesizer runs and one of its kind is free. */
  lemma AcquireExactly(live: bool, free: seq<nat>, drums: bool)
    requires Increasing(free)
    ensures match Pick(live, free, drums)
            case Some(c) => live && Gets(SetOf(free), drums, c)
            case None => !live || forall c :: !Gets(SetOf(free), drums, c)
  {
    hide Increasing;
  }

  lemma {:induction false} LeftAfter(free: seq<nat>, c: nat)
    requires Increasing(free) && c in free
    ensures Increasing(Remove(free, c)) && SetOf(Remove(free, c)) == SetOf(free) - {c}
  {
    RemoveIncreasing(free, c);
    forall d ensures d in Remove(free, c) <==> d in free && d != c {
      OnceEach(free, d);
      assert d in Remove(free, c) <==> multiset(Remove(free, c))[d] > 0;
    }
    hide Remove;
    hide Increasing;
  }

  lemma {:induction false} OnceEach(s: seq<nat>, x: nat)
    requires Increasing(s)
    ensures multiset(s)[x] == if x in s then 1 else 0
  {
    if s != [] {
      assert s == [s[0]] + s[1..];
      TailIncreasing(s);
      OnceEach(s[1..], x);
    }
  }

  // ---- a grant ------------------------------------------------------------------------------

  /** The channels left when the first `k` instruments have theirs. */
  ghost function LeftBy(free: set<nat>, parts: seq<Part>, k: nat): set<nat>
    requires k <= |parts|
  {
    set c | c in free && forall j :: 0 <= j < k ==> parts[j].channel != c
  }

  /** The k-th instrument has its channel, its lanes parse, and its program is set. */
  ghost predicate Served(free: set<nat>, decls: seq<Decl>, bad: set<nat>, parts: seq<Part>, k: nat)
    requires k < |parts| && k < |decls|
  {
    && parts[k].drums == decls[k].drums && Gets(LeftBy(free, parts, k), decls[k].drums, parts[k].channel)
    && decls[k].lanesParse && (decls[k].program ==> parts[k].channel !in bad)
  }

  ghost predicate AllServed(live: bool, free: set<nat>, decls: seq<Decl>, bad: set<nat>, parts: seq<Part>) {
    && |parts| == |decls| && (decls != [] ==> live)
    && forall k: nat :: k < |parts| ==> Served(free, decls, bad, parts, k)
  }

  /** Every instrument can be served in its turn. */
  ghost predicate Servable(live: bool, free: set<nat>, decls: seq<Decl>, bad: set<nat>) {
    exists parts :: AllServed(live, free, decls, bad, parts)
  }

  lemma GetsOne(left: set<nat>, drums: bool, c: nat, d: nat)
    requires Gets(left, drums, c) && Gets(left, drums, d)
    ensures c == d
  {
  }

  lemma SameLeft(free: set<nat>, a: seq<Part>, b: seq<Part>, k: nat)
    requires k <= |a| && k <= |b| && a[..k] == b[..k]
    ensures LeftBy(free, a, k) == LeftBy(free, b, k)
  {
    assert forall j :: 0 <= j < k ==> a[j] == a[..k][j] && b[j] == b[..k][j];
  }

  lemma LeftByNext(free: set<nat>, parts: seq<Part>, p: Part)
    ensures LeftBy(free, parts + [p], |parts| + 1) == LeftBy(free, parts, |parts|) - {p.channel}
  {
    var more := parts + [p];
    assert more[|parts|] == p && forall j :: 0 <= j < |parts| ==> more[j] == parts[j];
  }

  /** One more instrument served. */
  lemma ServedNext(free: set<nat>, decls: seq<Decl>, bad: set<nat>, mine: seq<Part>, p: Part)
    requires |mine| < |decls| && forall k: nat :: k < |mine| ==> Served(free, decls, bad, mine, k)
    requires Served(free, decls, bad, mine + [p], |mine|)
    ensures forall k: nat :: k < |mine| + 1 ==> Served(free, decls, bad, mine + [p], k)
  {
    forall k: nat | k < |mine| ensures Served(free, decls, bad, mine + [p], k) {
      SameLeft(free, mine + [p], mine, k);
      assert Served(free, decls, bad, mine, k) && (mine + [p])[k] == mine[k];
    }
  }

  /** Whoever is served like `mine` so far has the same next channel. */
  lemma NextIsForced(free: set<nat>, decls: seq<Decl>, bad: set<nat>, mine: seq<Part>, parts: seq<Part>, left: set<nat>)
    requires |mine| < |decls| && |parts| == |decls| && mine == parts[..|mine|] && left == LeftBy(free, mine, |mine|)
    requires Served(free, decls, bad, parts, |mine|)
    ensures Gets(left, decls[|mine|].drums, parts[|mine|].channel)
    ensures forall c :: Gets(left, decls[|mine|].drums, c) ==> parts[|mine|] == Part(c, decls[|mine|].drums)
  {
    SameLeft(free, parts, mine, |mine|);
  }

  ghost predicate Begins(mine: seq<Part>, parts: seq<Part>) { |mine| <= |parts| && mine == parts[..|mine|] }

  ghost predicate ServedFrom(live: bool, free: set<nat>, decls: seq<Decl>, bad: set<nat>, mine: seq<Part>, t: Taking) {
    if t.Took? then AllServed(live, free, decls, bad, t.parts) && Begins(mine, t.parts)
    else forall parts :: AllServed(live, free, decls, bad, parts) ==> !Begins(mine, parts)
  }

  /** The loop, with the instruments before the `|mine|`-th served. */
  lemma {:induction false} TakenServes(live: bool, free: set<nat>, rest: seq<nat>, decls: seq<Decl>, bad: set<nat>,
                                       mine: seq<Part>)
    requires |mine| <= |decls| && Increasing(rest) && SetOf(rest) == LeftBy(free, mine, |mine|)
    requires (mine != [] ==> live) && forall k: nat :: k < |mine| ==> Served(free, decls, bad, mine, k)
    ensures ServedFrom(live, free, decls, bad, mine, Taken(live, rest, decls[|mine|..], bad, mine))
    decreases |decls| - |mine|
  {
    hide Served;
    hide ServedFrom;
    hide Increasing;
    hide SetOf;
    var n := |mine|;
    if n == |decls| {
      NothingLeft(live, free, rest, decls, bad, mine);
    } else {
      var d, c := decls[n], Pick(live, rest, decls[n].drums);
      TakenStep(live, rest, decls, bad, mine);
      AcquireExactly(live, rest, d.drums);
      hide Taken;
      hide Pick;
      if c.Some? && d.lanesParse && !(d.program && c.value in bad) {
        var p := Part(c.value, d.drums);
        LeftAfter(rest, c.value);
        LeftByNext(free, mine, p);
        OneMoreServed(free, decls, bad, mine, p);
        TakenServes(live, free, Remove(rest, c.value), decls, bad, mine + [p]);
        ServedEarlier(live, free, decls, bad, mine, p, Taken(live, rest, decls[n..], bad, mine));
      } else {
        NoneServed(live, free, rest, decls, bad, mine, c);
        NobodyServed(live, free, decls, bad, mine, Taken(live, rest, decls[n..], bad, mine));
      }
    }
  }

  lemma NothingLeft(live: bool, free: set<nat>, rest: seq<nat>, decls: seq<Decl>, bad: set<nat>, mine: seq<Part>)
    requires |mine| == |decls| && (mine != [] ==> live)
    requires forall k: nat :: k < |mine| ==> Served(free, decls, bad, mine, k)
    ensures ServedFrom(live, free, decls, bad, mine, Taken(live, rest, decls[|mine|..], bad, mine))
  {
    assert mine == mine[..|mine|];
    hide Served;
  }

  lemma NobodyServed(live: bool, free: set<nat>, decls: seq<Decl>, bad: set<nat>, mine: seq<Part>, t: Taking)
    requires t.Failed? && forall parts :: AllServed(live, free, decls, bad, parts) ==> !Begins(mine, parts)
    ensures ServedFrom(live, free, decls, bad, mine, t)
  {
  }

  lemma TakenStep(live: bool, rest: seq<nat>, decls: seq<Decl>, bad: set<nat>, mine: seq<Part>)
    requires |mine| < |decls|
    ensures var n := |mine|; var d, c := decls[n], Pick(live, rest, decls[n].drums);
      var t := Taken(live, rest, decls[n..], bad, mine);
      if c.Some? && d.lanesParse && !(d.program && c.value in bad)
      then t == Taken(live, Remove(rest, c.value), decls[n + 1..], bad, mine + [Part(c.value, d.drums)])
      else t.Failed?
  {
    assert decls[|mine|..][0] == decls[|mine|] && decls[|mine|..][1..] == decls[|mine| + 1..];
    hide Pick;
    hide Remove;
    hide GiveBack;
  }

  lemma OneMoreServed(free: set<nat>, decls: seq<Decl>, bad: set<nat>, mine: seq<Part>, p: Part)
    requires |mine| < |decls| && forall k: nat :: k < |mine| ==> Served(free, decls, bad, mine, k)
    requires p.drums == decls[|mine|].drums && Gets(LeftBy(free, mine, |mine|), p.drums, p.channel)
    requires decls[|mine|].lanesParse && !(decls[|mine|].program && p.channel in bad)
    ensures forall k: nat :: k < |mine| + 1 ==> Served(free, decls, bad, mine + [p], k)
  {
    SameLeft(free, mine + [p], mine, |mine|);
    ServedNext(free, decls, bad, mine, p);
    hide LeftBy;
    hide Gets;
  }

  lemma NextBegins(free: set<nat>, decls: seq<Decl>, bad: set<nat>, mine: seq<Part>, parts: seq<Part>, p: Part)
    requires |mine| < |decls| == |parts| && Served(free, decls, bad, parts, |mine|)
    requires p.drums == decls[|mine|].drums && Gets(LeftBy(free, mine, |mine|), p.drums, p.channel)
    ensures Begins(mine, parts) ==> Begins(mine + [p], parts)
  {
    if Begins(mine, parts) {
      NextIsForced(free, decls, bad, mine, parts, LeftBy(free, mine, |mine|));
      assert parts[..|mine| + 1] == parts[..|mine|] + [parts[|mine|]];
    }
  }

  /** What holds with one more instrument served holds without it, its channel being forced. */
  lemma ServedEarlier(live: bool, free: set<nat>, decls: seq<Decl>, bad: set<nat>, mine: seq<Part>, p: Part, t: Taking)
    requires |mine| < |decls| && p.drums == decls[|mine|].drums
    requires Gets(LeftBy(free, mine, |mine|), p.drums, p.channel)
    requires ServedFrom(live, free, decls, bad, mine + [p], t)
    ensures ServedFrom(live, free, decls, bad, mine, t)
  {
    var n := |mine|;
    if t.Took? {
      assert t.parts[..n] == t.parts[..n + 1][..n] == mine;
    } else {
      forall parts | AllServed(live, free, decls, bad, parts)
        ensures Begins(mine, parts) ==> Begins(mine + [p], parts)
      {
        assert Served(free, decls, bad, parts, n);
        NextBegins(free, decls, bad, mine, parts, p);
      }
    }
  }

  lemma NoneServed(live: bool, free: set<nat>, rest: seq<nat>, decls: seq<Decl>, bad: set<nat>,
                   mine: seq<Part>, c: Option<nat>)
    requires |mine| < |decls| && SetOf(rest) == LeftBy(free, mine, |mine|)
    requires match c
             case Some(c) =>
               && Gets(SetOf(rest), decls[|mine|].drums, c)
               && (!decls[|mine|].lanesParse || (decls[|mine|].program && c in bad))
             case None => !live || forall c :: !Gets(SetOf(rest), decls[|mine|].drums, c)
    ensures forall parts :: AllServed(live, free, decls, bad, parts) ==> !Begins(mine, parts)
  {
    var n := |mine|;
    forall parts | AllServed(live, free, decls, bad, parts) ensures !Begins(mine, parts) {
      assert Served(free, decls, bad, parts, n);
      if mine == parts[..n] {
        NextIsForced(free, decls, bad, mine, parts, SetOf(rest));
      }
    }
  }

  /** The grant's loop goes through exactly when every instrument can be served in its turn. */
  lemma TakenExactly(live: bool, free: seq<nat>, decls: seq<Decl>, bad: set<nat>)
    requires Increasing(free)
    ensures var t := Taken(live, free, decls, bad, []);
      if t.Took? then AllServed(live, SetOf(free), decls, bad, t.parts) else !Servable(live, SetOf(free), decls, bad)
  {
    assert decls[0..] == decls;
    TakenServes(live, SetOf(free), free, decls, bad, []);
    hide Taken;
    hide AllServed;
    forall parts ensures Begins([], parts) {
    }
  }

  /** Everyone else's entries are as they were. */
  ghost predicate OthersStay(devices: seq<Entry>, devices': seq<Entry>, dev: Dev) {
    forall e: Entry :: e.dev != dev ==> (e in devices' <==> e in devices)
  }

  lemma StoredExactly(devices: seq<Entry>, e: Entry)
    requires Distinct(devices)
    ensures OthersStay(devices, Stored(devices, e), e.dev)
    ensures forall f :: f in Stored(devices, e) && f.dev == e.dev ==> f == e
    ensures e in Stored(devices, e)
  {
    var i, after := Find(devices, e.dev), Stored(devices, e);
    if i < |devices| {
      assert after[i] == e;
      forall f: Entry | f.dev != e.dev && f in devices ensures f in after {
        var j :| 0 <= j < |devices| && devices[j] == f;
        assert after[j] == f;
      }
    } else {
      assert after[|devices|] == e;
    }
    hide Find;
  }

  /** What a grant that goes through leaves the device with: the parts served, sounding nothing yet. */
  ghost predicate GivesParts(b: Bridge, b': Bridge, dev: Dev, decls: seq<Decl>, parts: seq<Part>) {
    if decls == [] then b'.devices == b.devices
    else
      && OthersStay(b.devices, b'.devices, dev)
      && forall e: Entry :: e.dev == dev ==> (e in b'.devices <==> e == Entry(dev, parts, decls[0].drone, false))
  }

  ghost predicate GivesChannels(b: Bridge, b': Bridge, dev: Dev, decls: seq<Decl>, bad: set<nat>) {
    && b' == b.(free := b'.free, devices := b'.devices)
    && exists parts :: AllServed(b.live, SetOf(b.free), decls, bad, parts) && GivesParts(b, b', dev, decls, parts)
  }

  /**
   A grant goes through exactly when the bridge is up and each instrument, in its turn, can
   have a channel of its kind, parses and sets its program. Then the device has those
   channels, its welcome is played if there is one, and otherwise nobody's parts change.
   */
  lemma GrantExactly(b: Bridge, dev: Dev, decls: seq<Decl>, welcome: Option<real>, bad: set<nat>)
    requires Shaped(b)
    ensures var b' := Granted(b, dev, decls, welcome, bad);
      if !b.shut && Servable(b.live, SetOf(b.free), decls, bad) then
        exists b1 :: GivesChannels(b, b1, dev, decls, bad)
                     && b' == if welcome.None? then b1 else Played(b1, welcome.value, bad)
      else b' == b.(free := b'.free) && (b.shut ==> b' == b)
  {
    TakenExactly(b.live, b.free, decls, bad);
    var t := Taken(b.live, b.free, decls, bad, []);
    if !b.shut && t.Took? {
      var e := Entry(dev, t.parts, if decls == [] then false else decls[0].drone, false);
      StoredExactly(b.devices, e);
      var b1 := b.(free := t.free, devices := if decls == [] then b.devices else Stored(b.devices, e));
      hide Stored;
      assert GivesParts(b, b1, dev, decls, t.parts);
      assert GivesChannels(b, b1, dev, decls, bad);
    }
    hide Taken;
    hide AllServed;
    hide Shaped;
    hide Played;
    hide GivesParts;
  }

  // ---- notes ------------------------------------------------------------------------------------

  /** A note takes the lowest free melodic channel and waits on it, unless that voice raises and the channel is gone. */
  lemma PlayExactly(b: Bridge, due: real, bad: set<nat>)
    requires Shaped(b)
    ensures var b' := Played(b, due, bad);
      && (forall c :: !b.shut && b.live && Gets(SetOf(b.free), false, c) ==>
            && SetOf(b'.free) == SetOf(b.free) - {c}
            && b' == b.(free := b'.free, pending := if c in bad then b.pending else b.pending + [Note(due, c)]))
      && ((b.shut || !b.live || forall c :: !Gets(SetOf(b.free), false, c)) ==> b' == b)
  {
    AcquireExactly(b.live, b.free, false);
    forall c | !b.shut && b.live && Gets(SetOf(b.free), false, c)
      ensures Pick(b.live, b.free, false) == Some(c) && SetOf(Remove(b.free, c)) == SetOf(b.free) - {c}
    {
      GetsOne(SetOf(b.free), false, c, Pick(b.live, b.free, false).value);
      LeftAfter(b.free, c);
    }
    hide Remove;
    hide Increasing;
    hide Gets;
    hide Pick;
  }

  /** `kept` lists, in order, the notes of `pending` at the places `at`: those that end after `now`. */
  ghost predicate StillAt(pending: seq<Note>, kept: seq<Note>, now: real, at: seq<nat>) {
    && |at| == |kept| && (forall x, y :: 0 <= x < y < |at| ==> at[x] < at[y])
    && (forall x :: 0 <= x < |at| ==> at[x] < |pending| && kept[x] == pending[at[x]])
    && forall i: nat :: i in at <==> i < |pending| && now < pending[i].due
  }

  function Later(at: seq<nat>): seq<nat> { seq(|at|, x requires 0 <= x < |at| => at[x] + 1) }

  lemma LaterHas(at: seq<nat>, i: nat)
    ensures i in Later(at) <==> i > 0 && i - 1 in at
  {
    if i > 0 && i - 1 in at {
      var x :| 0 <= x < |at| && at[x] == i - 1;
      assert Later(at)[x] == i;
    }
  }

  /** One more note at the front, over or not. */
  lemma StillCons(pending: seq<Note>, kept: seq<Note>, now: real, at: seq<nat>)
    requires pending != [] && StillAt(pending[1..], kept, now, at)
    ensures pending[0].due <= now ==> StillAt(pending, kept, now, Later(at))
    ensures now < pending[0].due ==> StillAt(pending, [pending[0]] + kept, now, [0] + Later(at))
  {
    forall i: nat {
      LaterHas(at, i);
    }
    if pending[0].due <= now {
      assert forall x :: 0 <= x < |at| ==> pending[1..][at[x]] == pending[at[x] + 1];
    } else {
      StillFirst(pending, kept, now, at);
    }
  }

  lemma StillFirst(pending: seq<Note>, kept: seq<Note>, now: real, at: seq<nat>)
    requires pending != [] && StillAt(pending[1..], kept, now, at) && now < pending[0].due
    ensures StillAt(pending, [pending[0]] + kept, now, [0] + Later(at))
  {
    FirstAscends(at);
    FirstListed(pending, kept, at);
    forall i: nat ensures i in [0] + Later(at) <==> i < |pending| && now < pending[i].due {
      FirstHas(at, i);
      assert i > 0 ==> (i - 1 in at <==> i - 1 < |pending[1..]| && now < pending[1..][i - 1].due);
    }
    hide Later;
  }

  lemma FirstAscends(at: seq<nat>)
    requires forall x, y :: 0 <= x < y < |at| ==> at[x] < at[y]
    ensures var all := [0] + Later(at); forall x, y :: 0 <= x < y < |all| ==> all[x] < all[y]
  {
  }

  lemma FirstListed(pending: seq<Note>, kept: seq<Note>, at: seq<nat>)
    requires pending != [] && |at| == |kept|
    requires forall x :: 0 <= x < |at| ==> at[x] < |pending[1..]| && kept[x] == pending[1..][at[x]]
    ensures var all, notes := [0] + Later(at), [pending[0]] + kept;
      forall x :: 0 <= x < |all| ==> all[x] < |pending| && notes[x] == pending[all[x]]
  {
  }

  lemma FirstHas(at: seq<nat>, i: nat)
    ensures i in [0] + Later(at) <==> i == 0 || i - 1 in at
  {
    LaterHas(at, i);
    hide Later;
  }

  lemma {:induction false} StillInOrder(pending: seq<Note>, now: real) returns (at: seq<nat>)
    ensures StillAt(pending, StillSounding(pending, now), now, at)
  {
    at := [];
    if pending != [] {
      hide StillAt;
      at := StillInOrder(pending[1..], now);
      StillCons(pending, StillSounding(pending[1..], now), now, at);
      assert [] + StillSounding(pending[1..], now) == StillSounding(pending[1..], now);
      at := if pending[0].due <= now then Later(at) else [0] + Later(at);
    }
  }

  /** A note that is over by `now` and whose voice raises. */
  ghost predicate Jams(b: Bridge, now: real, bad: set<nat>) {
    exists n :: n in b.pending && n.due <= now && n.channel in bad
  }

  lemma {:induction false} EndedRaises(free: seq<nat>, cs: seq<nat>, bad: set<nat>)
    ensures var (free', raised) := Ended(free, cs, bad);
      && (raised <==> exists c :: c in cs && c in bad)
      && (!raised ==> forall c :: c in free' <==> c in free || c in cs)
    decreases |cs|
  {
    if cs != [] {
      assert cs == [cs[0]] + cs[1..];
      EndedRaises(Returned(free, cs[0]), cs[1..], bad);
      forall c ensures c in Returned(free, cs[0]) <==> c in free || c == cs[0] {
        assert c in Returned(free, cs[0]) <==> multiset(Returned(free, cs[0]))[c] > 0;
      }
      hide Returned;
    }
  }

  lemma {:induction false} DueAre(pending: seq<Note>, now: real)
    ensures forall n :: n in Due(pending, now) <==> n in pending && n.due <= now
  {
    if pending != [] {
      assert pending == [pending[0]] + pending[1..];
      DueAre(pending[1..], now);
    }
  }

  /** The channel of a note that is over by `now`. */
  ghost predicate EndsOn(pending: seq<Note>, now: real, c: nat) {
    exists n :: n in pending && n.due <= now && n.channel == c
  }

  lemma WaitingOf(notes: seq<Note>, c: nat)
    ensures c in Waiting(notes) <==> exists n :: n in notes && n.channel == c
  {
    if c in Waiting(notes) {
      var i :| 0 <= i < |Waiting(notes)| && Waiting(notes)[i] == c;
      assert notes[i] in notes;
    }
    if n :| n in notes && n.channel == c {
      var i :| 0 <= i < |notes| && notes[i] == n;
      assert Waiting(notes)[i] == c;
    }
  }

  /**
   A tick ends the notes that are over, and no other: their channels are free again and the
   rest wait on, in order. When the voice of one of them raises, every note goes on waiting.
   */
  lemma TickExactly(b: Bridge, now: real, bad: set<nat>)
    ensures var b' := Ticked(b, now, bad);
      && b' == b.(free := b'.free, pending := b'.pending)
      && if Jams(b, now, bad) then b'.pending == b.pending
         else
           && (exists at :: StillAt(b.pending, b'.pending, now, at))
           && forall c :: c in b'.free <==> c in b.free || EndsOn(b.pending, now, c)
  {
    var over := Due(b.pending, now);
    EndedRaises(b.free, Waiting(over), bad);
    DueAre(b.pending, now);
    var at := StillInOrder(b.pending, now);
    forall c {
      WaitingOf(over, c);
    }
    hide Due;
    hide Ended;
    hide Waiting;
    hide StillSounding;
    hide StillAt;
  }

  // ---- a release, a drone -----------------------------------------------------------------------

  /** A release takes the device's entry, whatever its drone does, and touches no other and no note. */
  lemma ReleaseExactly(b: Bridge, dev: Dev, bad: set<nat>)
    requires Distinct(b.devices)
    ensures var b' := Released(b, dev, bad);
      && b' == b.(free := b'.free, devices := b'.devices)
      && (forall e: Entry :: e in b'.devices <==> e in b.devices && e.dev != dev)
      && ((forall e: Entry :: e in b.devices ==> e.dev != dev) ==> b' == b)
  {
    if Has(b, dev) {
      var i, ds := Find(b.devices, dev), b.devices;
      var rest := ds[..i] + ds[i + 1..];
      forall e: Entry | e in ds && e.dev != dev ensures e in rest {
        var j :| 0 <= j < |ds| && ds[j] == e;
        assert rest[if j < i then j else j - 1] == e;
      }
    }
    hide Find;
    hide GiveBack;
  }

  /** A drone starts only where one is declared, stops anywhere, and changes nothing else. */
  lemma SoundingExactly(b: Bridge, dev: Dev, on: bool)
    requires Distinct(b.devices)
    ensures var b' := Sounding(b, dev, on);
      && b' == b.(devices := b'.devices) && |b'.devices| == |b.devices|
      && forall i :: 0 <= i < |b.devices| ==>
           var e := b.devices[i];
           b'.devices[i] == if e.dev == dev && (on ==> e.drone) then e.(sounding := on) else e
  {
    hide Find;
  }
}
