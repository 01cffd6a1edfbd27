/**
 control/terrarium.py: taking a Room up, down, and up again.

 Everything a load starts is one `Session`: what it started, in order, and what has been
 stopped since, in order. `RunsLeaveNoOrphanExactly` is the result over any run of loads,
 unloads and recycles: of every session that is over, every process has been stopped,
 once and the simulators before Arco, which started first, exactly when no exception of
 the run fell between a spawn and the push of its teardown step. `LoadOrphansExactly`
 says of one load which process that leaves running, and `UnloadStrandsExactly` when an
 unload does not come to its end.
 */
module Terrariums {
  import opened Wrappers
  import opened Teardowns

  datatype Proc = Arco | Simulator(fixture: nat)

  /** Started and stopped processes of one load, in order. */
  datatype Session = Session(started: seq<Proc>, stopped: seq<Proc>)

  datatype Phase = NoRoom | Ready | Unloading

  datatype Terrarium = Terrarium(
    phase: Phase, room: Option<string>, bound: set<nat>, stack: Option<seq<Proc>>, sessions: seq<Session>)

  /**
   How a process's start comes out: nothing was spawned; it was spawned and an exception
   came before its teardown step was pushed (the spawn record could not be written, or an
   interrupt); or it was spawned and its step pushed.
   */
  datatype Start = NotSpawned | Unpushed | Pushed

  /**
   What the fast path comes to for one fixture: an [[artnet]] output, a simulator (`binds`:
   nothing interrupts it once pushed), a recorded device, none, or a lookup that raises.
   */
  datatype Fixture = Covered | Simulated(start: Start, binds: bool) | Reconnected | Unbound | LookupRaises

  /** Whatever can go wrong while a Room loads. */
  datatype Attempt = Attempt(
    name: string, refused: bool, arco: Start, arcoReady: bool, storeLoads: bool,
    fixtures: seq<Fixture>, tapped: set<nat>, waitRaises: bool)

  datatype Outcome = Loaded | Refused | Failed | Raised

  /** The fast path goes on to the next fixture. */
  predicate GoesOn(f: Fixture) { !f.LookupRaises? && (f.Simulated? ==> f.start.Pushed? && f.binds) }

  predicate Binds(f: Fixture) { f.Reconnected? || (f.Simulated? && GoesOn(f)) }

  /** Started and pushed, then started and not pushed, for one fixture. */
  function Mine(f: Fixture, i: nat): seq<Proc> { if f.Simulated? && f.start.Pushed? then [Simulator(i)] else [] }

  function Stray(f: Fixture, i: nat): seq<Proc> { if f.Simulated? && f.start.Unpushed? then [Simulator(i)] else [] }

  /** What a load started: with its teardown steps pushed, and without; and whether it got to the end. */
  datatype Begun = Begun(pushed: seq<Proc>, strays: seq<Proc>, ok: bool)

  /** `_bind_room_fast_path` from fixture `i` on. */
  function Wired(fs: seq<Fixture>, i: nat): (r: Begun)
    ensures forall p :: p in r.pushed + r.strays ==> p.Simulator? && i <= p.fixture < |fs|
    ensures var all := r.pushed + r.strays; forall k, l :: 0 <= k < l < |all| ==> all[k].fixture < all[l].fixture
    ensures r.ok ==> r.strays == []
    decreases |fs| - i
  {
    if i >= |fs| then Begun([], [], true)
    else if !GoesOn(fs[i]) then Begun(Mine(fs[i], i), Stray(fs[i], i), false)
    else
      var rest := Wired(fs, i + 1);
      assert (Mine(fs[i], i) + rest.pushed) + rest.strays == Mine(fs[i], i) + (rest.pushed + rest.strays);
      rest.(pushed := Mine(fs[i], i) + rest.pushed)
  }

  function BoundBefore(fs: seq<Fixture>, n: nat): set<nat>
    requires n <= |fs|
  {
    set i | 0 <= i < n && Binds(fs[i])
  }

  function FastBound(fs: seq<Fixture>): set<nat> { BoundBefore(fs, |fs|) }

  function Needed(fs: seq<Fixture>): set<nat> { set i | 0 <= i < |fs| && !fs[i].Covered? }

  /** Everything bound once the wait is over; the wait is skipped when nothing is left to bind. */
  function AllBound(a: Attempt): set<nat> {
    var fast := FastBound(a.fixtures);
    if Needed(a.fixtures) <= fast then fast else fast + a.tapped * Needed(a.fixtures)
  }

  /** `wait_for_room_binding` raises its timeout only when nothing bound and no output drives a fixture. */
  predicate WaitFails(a: Attempt) {
    && !(Needed(a.fixtures) <= FastBound(a.fixtures))
    && (a.waitRaises || (AllBound(a) == {} && forall i :: 0 <= i < |a.fixtures| ==> !a.fixtures[i].Covered?))
  }

  /** What a load past its checks comes to. */
  function Brought(a: Attempt): Begun {
    if a.arco.NotSpawned? then Begun([], [], false)
    else if a.arco.Unpushed? then Begun([], [Arco], false)
    else if !a.arcoReady || !a.storeLoads then Begun([Arco], [], false)
    else
      var w := Wired(a.fixtures, 0);
      Begun([Arco] + w.pushed, w.strays, w.ok && !WaitFails(a))
  }

  function Emptied(t: Terrarium): Terrarium { t.(phase := NoRoom, room := None, bound := {}, stack := None) }

  function Load(t: Terrarium, a: Attempt): (Terrarium, Outcome) {
    if !t.phase.NoRoom? then (t, Refused)
    else if a.refused then (Emptied(t), Failed)
    else
      var b := Brought(a);
      if b.ok then
        (Terrarium(Ready, Some(a.name), AllBound(a), Some(b.pushed), t.sessions + [Session(b.pushed, [])]), Loaded)
      else (Emptied(t).(sessions := t.sessions + [Session(b.pushed + b.strays, Reversed(b.pushed))]), Failed)
  }

  /** The last session with its stack unwound. */
  function Unwound(t: Terrarium): Terrarium {
    if t.stack.None? || t.sessions == [] then t
    else
      var last := t.sessions[|t.sessions| - 1];
      t.(stack := Some([]),
         sessions := t.sessions[..|t.sessions| - 1] + [last.(stopped := last.stopped + Reversed(t.stack.value))])
  }

  /** `busy`: a Bit is running. The binding store may fail to save, and clearing the devices may raise. */
  function Unload(t: Terrarium, busy: bool, force: bool, saveRaises: bool, clearRaises: bool): (Terrarium, Outcome) {
    if !t.phase.Ready? || (busy && !force) then (t, Refused)
    else if saveRaises then (t.(phase := Unloading), Raised)
    else if clearRaises then (Unwound(t).(phase := Unloading), Raised)
    else (Emptied(Unwound(t)), Loaded)
  }

  function Recycle(t: Terrarium, a: Attempt, saveRaises: bool, clearRaises: bool): (Terrarium, Outcome) {
    if !t.phase.Ready? then (t, Refused)
    else
      var (t1, o) := Unload(t, true, true, saveRaises, clearRaises);
      if o.Loaded? then Load(t1, a) else (t1, o)
  }

  // ---- what every run keeps ---------------------------------------------------------------

  /** Everything but what `left` lists last has been stopped, each once, the last started first. */
  ghost predicate StoppedBut(s: Session, left: seq<Proc>) {
    |left| <= |s.started| && left == s.started[|s.started| - |left|..]
    && s.stopped == Reversed(s.started[..|s.started| - |left|])
  }

  /** All but perhaps the process started last. */
  ghost predicate Over(s: Session) { StoppedBut(s, []) || exists p :: StoppedBut(s, [p]) }

  /** Every process stopped. */
  ghost predicate AllStopped(s: Session) { forall p :: p in s.started ==> p in s.stopped }

  /** Arco started first, then simulators, each for its own fixture, in declaration order. */
  ghost predicate HubFirst(s: Session) {
    && (s.started != [] ==> s.started[0] == Arco)
    && (forall i :: 1 <= i < |s.started| ==> s.started[i].Simulator?)
    && (forall i, j :: 1 <= i < j < |s.started| ==> s.started[i].fixture < s.started[j].fixture)
  }

  /** The sessions that are over: all of them but one whose stack is still held. */
  function Past(t: Terrarium): seq<Session> {
    if t.stack.Some? && t.sessions != [] then t.sessions[..|t.sessions| - 1] else t.sessions
  }

  ghost predicate Inv(t: Terrarium) {
    && (forall s :: s in Past(t) ==> HubFirst(s) && Over(s))
    && (t.phase.NoRoom? ==> t.room.None? && t.stack.None? && t.bound == {})
    && (t.phase.Ready? ==>
          t.room.Some? && t.stack.Some? && t.sessions != [] && Open(t.sessions[|t.sessions| - 1], t.stack.value))
    && (t.phase.Unloading? ==> t.stack.Some?)
  }

  /** A session whose every process is on the stack. */
  ghost predicate Open(s: Session, stack: seq<Proc>) { s == Session(stack, []) && HubFirst(s) && stack != [] }

  lemma BroughtHubFirst(a: Attempt)
    ensures var b := Brought(a);
      HubFirst(Session(b.pushed + b.strays, Reversed(b.pushed))) && (b.ok ==> b.pushed != [] && b.strays == [])
  {
    var b, w := Brought(a), Wired(a.fixtures, 0);
    var all, sims := b.pushed + b.strays, w.pushed + w.strays;
    hide Wired;
    if a.arco.Pushed? && a.arcoReady && a.storeLoads {
      assert all == [Arco] + sims;
      assert forall i :: 1 <= i < |all| ==> all[i] == sims[i - 1] && sims[i - 1] in sims;
    }
  }

  lemma {:induction false} WiredOneStray(fs: seq<Fixture>, i: nat)
    ensures |Wired(fs, i).strays| <= 1
    decreases |fs| - i
  {
    if i < |fs| {
      WiredOneStray(fs, i + 1);
    }
  }

  /** An exception of the load falls between the spawn of `p` and the push of its teardown step. */
  ghost predicate Strays(a: Attempt, p: Proc) {
    && !a.refused
    && match p
       case Arco => a.arco.Unpushed?
       case Simulator(i) =>
         && a.arco.Pushed? && a.arcoReady && a.storeLoads
         && i < |a.fixtures| && a.fixtures[i].Simulated? && a.fixtures[i].start.Unpushed?
         && forall j :: 0 <= j < i ==> GoesOn(a.fixtures[j])
  }

  lemma {:induction false} WiredStrays(fs: seq<Fixture>, i: nat, p: Proc)
    ensures p in Wired(fs, i).strays <==>
      && p.Simulator? && i <= p.fixture < |fs| && fs[p.fixture].Simulated? && fs[p.fixture].start.Unpushed?
      && forall j :: i <= j < p.fixture ==> GoesOn(fs[j])
    decreases |fs| - i
  {
    if i < |fs| && GoesOn(fs[i]) {
      WiredStrays(fs, i + 1, p);
    }
  }

  lemma BroughtStrays(a: Attempt)
    requires !a.refused
    ensures |Brought(a).strays| <= 1 && forall p :: p in Brought(a).strays <==> Strays(a, p)
  {
    WiredOneStray(a.fixtures, 0);
    forall p {
      WiredStrays(a.fixtures, 0, p);
    }
    hide Wired;
  }

  lemma StoppedAre(s: Session, left: seq<Proc>)
    requires StoppedBut(s, left)
    ensures var n := |s.started| - |left|;
      && |s.stopped| == n
      && (forall j :: 0 <= j < n ==> s.stopped[j] == s.started[n - 1 - j])
      && (forall k :: n <= k < |s.started| ==> s.started[k] == left[k - n])
  {
  }

  lemma StartedOnce(s: Session)
    requires HubFirst(s)
    ensures forall i, j :: 0 <= i < j < |s.started| ==> s.started[i] != s.started[j]
  {
    forall i, j | 0 <= i < j < |s.started| ensures s.started[i] != s.started[j] {
      assert s.started[j].Simulator?;
    }
  }

  /** What a session that is over has left running is what it lists last. */
  lemma LeftRunning(s: Session, left: seq<Proc>)
    requires HubFirst(s) && StoppedBut(s, left)
    ensures forall p :: p in left <==> p in s.started && p !in s.stopped
  {
    hide HubFirst;
    hide StoppedBut;
    var n := |s.started| - |left|;
    StartedOnce(s);
    StoppedAre(s, left);
    forall p | p in left ensures p in s.started && p !in s.stopped {
      var k :| 0 <= k < |left| && left[k] == p;
      assert s.started[n + k] == p;
    }
    forall p | p in s.started && p !in left ensures p in s.stopped {
      var k :| 0 <= k < |s.started| && s.started[k] == p;
      assert s.stopped[n - 1 - k] == p;
    }
  }

  /** Where in a session that is over a process was stopped. */
  lemma StoppedOnceHubLast(s: Session)
    requires HubFirst(s) && Over(s)
    ensures forall i, j :: 0 <= i < j < |s.stopped| ==> s.stopped[i] != s.stopped[j]
    ensures forall i :: 0 <= i < |s.stopped| && s.stopped[i] == Arco ==> i == |s.stopped| - 1
  {
    var left :| StoppedBut(s, left);
    StartedOnce(s);
    StoppedAre(s, left);
    hide StoppedBut;
  }

  /** The session of a load that failed. */
  lemma FailedSession(a: Attempt)
    requires !a.refused
    ensures var b := Brought(a); var s := Session(b.pushed + b.strays, Reversed(b.pushed));
      HubFirst(s) && Over(s) && LeavesStrays(s, a)
  {
    var b := Brought(a);
    var s := Session(b.pushed + b.strays, Reversed(b.pushed));
    BroughtHubFirst(a);
    BroughtStrays(a);
    hide Brought;
    hide HubFirst;
    hide Strays;
    assert s.started[..|b.pushed|] == b.pushed && s.started[|b.pushed|..] == b.strays;
    assert StoppedBut(s, b.strays);
    assert b.strays == [] || b.strays == [b.strays[0]];
    LeftRunning(s, b.strays);
  }

  /** What is left running is the process parted from its push. */
  ghost predicate LeavesStrays(s: Session, a: Attempt) {
    forall p :: p in s.started && p !in s.stopped <==> Strays(a, p)
  }

  /**
   A load that fails ends with no Room, and leaves running exactly the process whose spawn
   an exception parted from the push of its teardown step; a load that goes ahead leaves
   everything it started on the stack.
   */
  lemma LoadOrphansExactly(t: Terrarium, a: Attempt)
    requires Inv(t)
    ensures var (t', o) := Load(t, a);
      && Inv(t') && (o.Refused? ==> t' == t)
      && (o.Failed? ==> t'.phase.NoRoom?)
      && (o.Failed? && a.refused ==> t'.sessions == t.sessions)
      && (o.Failed? && !a.refused ==>
            exists s :: t'.sessions == t.sessions + [s] && LeavesStrays(s, a))
      && (o.Loaded? ==> !a.refused && t'.phase.Ready? && Past(t') == t.sessions && forall p :: !Strays(a, p))
  {
    if !t.phase.NoRoom? || a.refused {
      hide HubFirst;
      hide Over;
      return;
    }
    hide HubFirst;
    hide Over;
    hide Strays;
    hide LeavesStrays;
    hide AllBound;
    hide Brought;
    hide Reversed;
    FailedSession(a);
    BroughtHubFirst(a);
    BroughtStrays(a);
    var b := Brought(a);
    if b.ok {
      assert b.pushed + [] == b.pushed;
      LoadedOpen(t, a, b);
    } else {
      LoadFailed(t, a, b);
    }
    hide Load;
    hide Inv;
  }

  // ---- when a load succeeds, and what it leaves -----------------------------------------------

  /** A fixture the fast path passes: its lookup answers, and a simulator started for it came to be bound. */
  ghost predicate Passed(f: Fixture) {
    match f
    case LookupRaises => false
    case Simulated(start, binds) => start == Pushed && binds
    case _ => true
  }

  /** A fixture that has a device when everything went well: found, simulated, or tapped while the load waited. */
  ghost predicate HasDevice(a: Attempt, i: nat) {
    i < |a.fixtures| && (a.fixtures[i].Reconnected? || a.fixtures[i].Simulated? || (Waited(a, i) && i in a.tapped))
  }

  ghost predicate Waited(a: Attempt, i: nat) { i < |a.fixtures| && a.fixtures[i].Unbound? }

  /** A fixture driven without a device. */
  ghost predicate Driven(a: Attempt, i: nat) { i < |a.fixtures| && a.fixtures[i].Covered? }

  /** Nothing refuses or raises, and whoever waits for a tap does not wait in vain for all of them. */
  ghost predicate Succeeds(a: Attempt) {
    && !a.refused && a.arco == Pushed && a.arcoReady && a.storeLoads
    && (forall i :: 0 <= i < |a.fixtures| ==> Passed(a.fixtures[i]))
    && ((exists i :: Waited(a, i)) ==> !a.waitRaises && exists i :: HasDevice(a, i) || Driven(a, i))
  }

  ghost predicate Runs(a: Attempt, p: Proc) {
    p.Simulator? ==> p.fixture < |a.fixtures| && a.fixtures[p.fixture].Simulated?
  }

  lemma {:induction false} WiredExactly(fs: seq<Fixture>, i: nat)
    ensures var w := Wired(fs, i);
      && (w.ok <==> forall j :: i <= j < |fs| ==> Passed(fs[j]))
      && (w.ok ==> forall p :: p in w.pushed <==> p.Simulator? && i <= p.fixture < |fs| && fs[p.fixture].Simulated?)
    decreases |fs| - i
  {
    if i < |fs| {
      WiredExactly(fs, i + 1);
    }
  }

  lemma BoundExactly(a: Attempt)
    requires forall i :: 0 <= i < |a.fixtures| ==> Passed(a.fixtures[i])
    ensures forall i: nat :: i in AllBound(a) <==> HasDevice(a, i)
    ensures WaitFails(a) <==>
      (exists i :: Waited(a, i)) && (a.waitRaises || forall i :: !HasDevice(a, i) && !Driven(a, i))
  {
    var fs := a.fixtures;
    forall i: nat
      ensures i in Needed(fs) <==> i < |fs| && !fs[i].Covered?
      ensures i in FastBound(fs) <==> i < |fs| && (fs[i].Reconnected? || fs[i].Simulated?)
    {
      assert i < |fs| ==> Passed(fs[i]);
    }
    if Needed(fs) <= FastBound(fs) {
      forall i: nat ensures !Waited(a, i) {
        assert i in Needed(fs) ==> i in FastBound(fs);
      }
    } else {
      var i :| i in Needed(fs) && i !in FastBound(fs);
      assert Passed(fs[i]) && Waited(a, i);
    }
    hide FastBound;
    hide Needed;
    forall i: nat ensures i in AllBound(a) <==> HasDevice(a, i) {
      assert i < |fs| ==> Passed(fs[i]);
    }
    assert AllBound(a) == {} <==> forall i: nat :: !HasDevice(a, i);
    forall i: nat ensures Driven(a, i) <==> i < |fs| && fs[i].Covered? {
    }
    hide AllBound;
    hide HasDevice;
    hide Passed;
  }

  /**
   A load goes ahead only with no Room held, and succeeds exactly when nothing refuses or
   raises and the wait is not in vain. Then the Room is the one asked for; Arco runs, with
   the simulators it called for; and a fixture is bound exactly when it has a device.
   */
  lemma LoadsExactly(t: Terrarium, a: Attempt)
    ensures var (t', o) := Load(t, a);
      && (o.Refused? <==> !t.phase.NoRoom?)
      && (o.Loaded? <==> t.phase.NoRoom? && Succeeds(a))
      && (o.Loaded? ==>
            && t'.phase.Ready? && t'.room == Some(a.name) && (forall i: nat :: i in t'.bound <==> HasDevice(a, i))
            && t'.stack.Some? && t'.sessions == t.sessions + [Session(t'.stack.value, [])]
            && forall p :: p in t'.stack.value <==> Runs(a, p))
  {
    WiredExactly(a.fixtures, 0);
    if forall i :: 0 <= i < |a.fixtures| ==> Passed(a.fixtures[i]) {
      BoundExactly(a);
    }
    hide Wired;
    hide WaitFails;
    hide AllBound;
    hide Reversed;
    hide HasDevice;
    hide Passed;
  }

  /** An unload goes ahead exactly with a Room held, and no Bit running unless forced. */
  lemma UnloadRefusedExactly(t: Terrarium, busy: bool, force: bool, saveRaises: bool, clearRaises: bool)
    ensures var (t', o) := Unload(t, busy, force, saveRaises, clearRaises);
      && (o.Refused? <==> t.phase != Ready || (busy && !force))
      && (o.Refused? ==> t' == t)
  {
    hide Unwound;
  }

  lemma LoadFailed(t: Terrarium, a: Attempt, b: Begun)
    requires Inv(t) && t.phase.NoRoom? && !a.refused && b == Brought(a) && !b.ok
    requires var s := Session(b.pushed + b.strays, Reversed(b.pushed)); HubFirst(s) && Over(s)
    ensures var (t', o) := Load(t, a);
      o.Failed? && Inv(t') && t'.phase.NoRoom?
          && t'.sessions == t.sessions + [Session(b.pushed + b.strays, Reversed(b.pushed))]
  {
    hide HubFirst;
    hide Over;
    hide AllBound;
    hide Brought;
    hide Reversed;
  }

  lemma LoadedOpen(t: Terrarium, a: Attempt, b: Begun)
    requires Inv(t) && t.phase.NoRoom? && !a.refused && b == Brought(a) && b.ok
    requires HubFirst(Session(b.pushed, Reversed(b.pushed))) && b.pushed != []
    ensures var (t', o) := Load(t, a); o.Loaded? && Inv(t') && t'.phase.Ready? && Past(t') == t.sessions
  {
    hide Over;
    hide Brought;
    hide AllBound;
    hide Reversed;
    assert HubFirst(Session(b.pushed, []));
    hide HubFirst;
  }

  /** The last session, unwound. */
  lemma UnwoundOver(t: Terrarium)
    requires t.phase.Ready? && Inv(t)
    ensures var u := Unwound(t);
      && |u.sessions| == |t.sessions| > 0 && u.sessions[..|t.sessions| - 1] == Past(t) && u.stack == Some([])
      && var last := u.sessions[|t.sessions| - 1];
         HubFirst(last) && Over(last) && last.stopped == Reversed(t.stack.value)
             && AllStopped(last) && last.stopped != []
  {
    var u, was := Unwound(t), t.sessions[|t.sessions| - 1];
    assert [] + Reversed(was.started) == Reversed(was.started);
    var last := u.sessions[|u.sessions| - 1];
    assert was.started[..|was.started|] == was.started;
    assert last == Session(was.started, Reversed(was.started));
    assert HubFirst(last);
    assert StoppedBut(last, []);
    LeftRunning(last, []);
    hide HubFirst;
  }

  /**
   An unload that goes ahead ends with no Room exactly when neither the binding store nor
   the device clearing raises; otherwise it ends in UNLOADING, with everything still
   running when the store raised and nothing when the clearing did.
   */
  lemma UnloadStrandsExactly(t: Terrarium, busy: bool, force: bool, saveRaises: bool, clearRaises: bool)
    requires Inv(t) && t.phase.Ready? && (busy ==> force)
    ensures var (t', o) := Unload(t, busy, force, saveRaises, clearRaises);
      && Inv(t') && |t'.sessions| == |t.sessions| > 0 && t'.sessions[..|t.sessions| - 1] == Past(t)
      && (t'.phase.NoRoom? <==> o.Loaded?) && (o.Loaded? <==> !saveRaises && !clearRaises)
      && (!t'.phase.NoRoom? ==> t'.phase.Unloading? && o.Raised?)
      && var last := t'.sessions[|t'.sessions| - 1];
         if saveRaises then last.stopped == [] && last.started != []
         else AllStopped(last) && last.stopped == Reversed(t.stack.value)
  {
    UnwoundOver(t);
    var u := Unwound(t);
    hide Unwound;
    var n := |t.sessions|;
    assert u.sessions == Past(t) + [u.sessions[n - 1]];
    hide HubFirst;
    hide Over;
    hide AllStopped;
  }

  datatype Op =
    | DoLoad(a: Attempt)
    | DoUnload(busy: bool, force: bool, saveRaises: bool, clearRaises: bool)
    | DoRecycle(a: Attempt, saveRaises: bool, clearRaises: bool)

  function Step(t: Terrarium, op: Op): Terrarium {
    match op
    case DoLoad(a) => Load(t, a).0
    case DoUnload(busy, force, saveRaises, clearRaises) => Unload(t, busy, force, saveRaises, clearRaises).0
    case DoRecycle(a, saveRaises, clearRaises) => Recycle(t, a, saveRaises, clearRaises).0
  }

  /** A load of this call goes ahead, and an exception of it parts a spawn from its push. */
  ghost predicate Parts(t: Terrarium, op: Op) {
    match op
    case DoLoad(a) => t.phase.NoRoom? && exists p :: Strays(a, p)
    case DoUnload(_, _, _, _) => false
    case DoRecycle(a, saveRaises, clearRaises) =>
      t.phase.Ready? && !saveRaises && !clearRaises && exists p :: Strays(a, p)
  }

  ghost predicate NoOrphan(sessions: seq<Session>) { forall s :: s in sessions ==> AllStopped(s) }

  lemma NoOrphanMore(sessions: seq<Session>, s: Session)
    ensures NoOrphan(sessions + [s]) <==> NoOrphan(sessions) && AllStopped(s)
  {
    assert s in sessions + [s];
    assert forall x :: x in sessions ==> x in sessions + [s];
    hide AllStopped;
  }

  lemma LoadStep(t: Terrarium, a: Attempt)
    requires Inv(t)
    ensures var t' := Load(t, a).0;
      Inv(t') && (NoOrphan(Past(t')) <==> NoOrphan(Past(t)) && !(t.phase.NoRoom? && exists p :: Strays(a, p)))
  {
    LoadOrphansExactly(t, a);
    var (t', o) := Load(t, a);
    hide Load;
    if o.Failed? && !a.refused {
      var s :| t'.sessions == t.sessions + [s] && LeavesStrays(s, a);
      NoOrphanMore(t.sessions, s);
    }
    hide NoOrphan;
    hide HubFirst;
    hide Over;
  }

  lemma UnloadStep(t: Terrarium, busy: bool, force: bool, saveRaises: bool, clearRaises: bool)
    requires Inv(t)
    ensures var t' := Unload(t, busy, force, saveRaises, clearRaises).0;
      Inv(t') && (NoOrphan(Past(t')) <==> NoOrphan(Past(t)))
  {
    var (t', o) := Unload(t, busy, force, saveRaises, clearRaises);
    if t.phase.Ready? && (busy ==> force) {
      UnloadStrandsExactly(t, busy, force, saveRaises, clearRaises);
      hide Unload;
      var n := |t.sessions|;
      assert t'.sessions == t'.sessions[..n - 1] + [t'.sessions[n - 1]];
      NoOrphanMore(Past(t), t'.sessions[n - 1]);
    }
    hide NoOrphan;
    hide HubFirst;
    hide Over;
    hide AllStopped;
  }

  /** One call leaves nothing running of the sessions that are over, exactly when it parts no spawn from its push. */
  lemma StepKeepsInv(t: Terrarium, op: Op)
    requires Inv(t)
    ensures Inv(Step(t, op)) && (t.phase.Unloading? ==> Step(t, op) == t)
    ensures NoOrphan(Past(Step(t, op))) <==> NoOrphan(Past(t)) && !Parts(t, op)
  {
    match op {
      case DoLoad(a) => LoadStep(t, a);
      case DoUnload(busy, force, saveRaises, clearRaises) => UnloadStep(t, busy, force, saveRaises, clearRaises);
      case DoRecycle(a, saveRaises, clearRaises) =>
        if t.phase.Ready? {
          UnloadStrandsExactly(t, true, true, saveRaises, clearRaises);
          UnloadStep(t, true, true, saveRaises, clearRaises);
          LoadStep(Unload(t, true, true, saveRaises, clearRaises).0, a);
          hide Unload;
          hide Load;
        }
    }
    hide Inv;
    hide NoOrphan;
    hide Strays;
    hide AllStopped;
    hide Past;
  }

  function Run(t: Terrarium, ops: seq<Op>): Terrarium
    decreases |ops|
  {
    if ops == [] then t else Run(Step(t, ops[0]), ops[1..])
  }

  /** No call of the run parts a spawn from its push. */
  ghost predicate PartsNothing(t: Terrarium, ops: seq<Op>)
    decreases |ops|
  {
    ops != [] ==> !Parts(t, ops[0]) && PartsNothing(Step(t, ops[0]), ops[1..])
  }

  lemma {:induction false} RunKeepsInv(t: Terrarium, ops: seq<Op>)
    requires Inv(t)
    ensures Inv(Run(t, ops)) && (t.phase.Unloading? ==> Run(t, ops) == t)
    ensures NoOrphan(Past(Run(t, ops))) <==> NoOrphan(Past(t)) && PartsNothing(t, ops)
    decreases |ops|
  {
    if ops != [] {
      StepKeepsInv(t, ops[0]);
      RunKeepsInv(Step(t, ops[0]), ops[1..]);
    }
    hide Step;
    hide Inv;
    hide NoOrphan;
    hide Parts;
  }

  /**
   From an empty Terrarium, through any loads, unloads and recycles failing anywhere: with
   no Room, no stack is held; of the sessions that are over nothing is stopped twice and
   nothing after Arco, and every process has been stopped exactly when no exception of the
   run fell between a spawn and the push of its step. A call that raises out of an unload
   strands the Terrarium for good.
   */
  lemma RunsLeaveNoOrphanExactly(ops: seq<Op>, more: seq<Op>)
    ensures var empty := Terrarium(NoRoom, None, {}, None, []); var t := Run(empty, ops);
      && (t.phase.NoRoom? ==> t.room.None? && t.stack.None? && Past(t) == t.sessions)
      && (forall s :: s in Past(t) ==>
            && (forall i, j :: 0 <= i < j < |s.stopped| ==> s.stopped[i] != s.stopped[j])
            && (forall i :: 0 <= i < |s.stopped| && s.stopped[i] == Arco ==> i == |s.stopped| - 1))
      && ((forall s :: s in Past(t) ==> forall p :: p in s.started ==> p in s.stopped) <==> PartsNothing(empty, ops))
      && (t.phase.Unloading? ==> Run(t, more) == t)
  {
    var empty := Terrarium(NoRoom, None, {}, None, []);
    RunKeepsInv(empty, ops);
    var t := Run(empty, ops);
    RunKeepsInv(t, more);
    hide Run;
    hide PartsNothing;
    forall s | s in Past(t)
      ensures (forall i, j :: 0 <= i < j < |s.stopped| ==> s.stopped[i] != s.stopped[j])
              && (forall i :: 0 <= i < |s.stopped| && s.stopped[i] == Arco ==> i == |s.stopped| - 1)
    {
      StoppedOnceHubLast(s);
    }
    hide HubFirst;
    hide Over;
  }

  /** A spawn record that cannot be written leaves Arco running with no Room, and nothing that knows of it. */
  lemma UnwrittenRecordOrphans(fixtures: seq<Fixture>)
    ensures var t := Run(Terrarium(NoRoom, None, {}, None, []),
                         [DoLoad(Attempt("lab", false, Unpushed, true, true, fixtures, {}, false))]);
      t.phase.NoRoom? && t.stack.None? && t.sessions == [Session([Arco], [])]
  {
    var empty := Terrarium(NoRoom, None, {}, None, []);
    var op := DoLoad(Attempt("lab", false, Unpushed, true, true, fixtures, {}, false));
    assert [op][1..] == [];
    assert Brought(op.a) == Begun([], [Arco], false) && [] + [Arco] == [Arco];
    assert Run(empty, [op]) == Run(Step(empty, op), []) == Step(empty, op);
  }
}
