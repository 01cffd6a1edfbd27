/** control/engine.py: the GameServer methods that move devices in and out of roles. */
module GameServers {
  import opened Wrappers
  import opened Registrations
  import opened RegistrationStates
  import opened Engines

  /** `reap_stale` over its list of silent devices. */
  function ReapedAll(e: Engine, devs: seq<Dev>): (r: Engine)
    requires Formed(e)
    ensures Formed(r)
    decreases |devs|
  {
    if devs == [] then e else ReapedAll(Reaped(e, devs[0]), devs[1..])
  }

  /** Holds a role and stands for no fixture. */
  predicate Holds(e: Engine, dev: Dev) {
    e.registration.Some? && dev in e.registration.value.assignments && dev !in Bound(e)
  }

  predicate Once(devs: seq<Dev>) { forall i, j :: 0 <= i < j < |devs| ==> devs[i] != devs[j] }

  lemma ReapedHolders(e: Engine, dev: Dev)
    requires Formed(e)
    ensures forall d :: Holds(Reaped(e, dev), d) <==> Holds(e, d) && d != dev
  {
    if e.registration.Some? {
      ReleasedValue(e.registration.value, dev);
      hide Released;
    }
    hide Coherent;
    assert Bound(Reaped(e, dev)) == Bound(e);
    hide Bound;
  }

  class GameServer {
    var phase: Phase
    var registration: RegistrationState?
    var pool: seq<Dev>
    var room: Option<map<Fixture, Dev>>
    var admins: set<Dev>
    var round: nat

    ghost function View(): Engine
      reads this, registration
    {
      Engine(phase, if registration == null then None else Some(registration.View()), pool, room, admins, round)
    }

    ghost predicate Valid()
      reads this, registration
    {
      Formed(View())
    }

    constructor (admins: set<Dev>)
      ensures Valid() && View() == Engine(Idle, None, [], None, admins, 0)
    {
      phase, registration, pool, room, this.admins, round := Idle, null, [], None, admins, 0;
    }

    method IsRoomNodeNow(node: Node) returns (found: bool)
      requires Valid() && registration != null
      ensures WellFormed(registration.table) && found == IsRoomNode(registration.table, node)
    {
      FormedTable(View());
      hide Coherent;
      var t := registration.table;
      var candidates := if node in t.nodes then t.nodes[node] else [];
      for i := 0 to |candidates|
        invariant FirstRoom(t, candidates) == FirstRoom(t, candidates[i..])
      {
        assert candidates[i..][1..] == candidates[i + 1..];
        if t.roles[candidates[i]].roleClass == ROOM {
          return true;
        }
      }
      found := false;
    }

    method Handshake(dev: Dev, round: nat, node: Option<Node>, scene: Scene) returns (answer: Answer)
      requires Valid()
      modifies this, registration
      ensures Valid() && registration == old(registration)
      ensures (View(), answer) == Handshaken(old(View()), dev, round, node, scene)
    {
      hide Coherent;
      hide RoomHandshake;
      hide ScoredHandshake;
      if dev !in pool {
        return NotConnected;
      }
      if registration == null {
        return NoBit;
      }
      FormedTable(View());
      if node.Some? {
        hide IsRoomNode;
        var roomNode := IsRoomNodeNow(node.value);
        if roomNode {
          answer := JoinRoom(dev, node.value, scene);
          return;
        }
      }
      if room.Some? && dev in room.value.Values {
        BoundIsValues(View());
        return IsFixture;
      }
      if room.Some? {
        BoundIsValues(View());
      }
      hide Bound;
      if phase != Setup {
        return NotInSetup;
      }
      if round != this.round {
        return StaleRound;
      }
      var target := if node.Some? then node else scene.defaultNode;
      if target.None? {
        return NoScoredNode;
      }
      answer := Validate(dev, target.value, scene);
    }

    /** `handshake`'s Room branch, with `_bind_room`, which reads the arming window again. */
    method JoinRoom(dev: Dev, node: Node, scene: Scene) returns (answer: Answer)
      requires Valid() && registration != null
      modifies this, registration
      ensures Valid() && registration == old(registration)
      ensures (View(), answer) == RoomHandshake(old(View()), dev, node, scene)
    {
      hide Coherent;
      hide RoomJoined;
      if !scene.open || room.None? {
        return NotArmed;
      }
      RoomDenied(registration.View(), dev, node);
      var join := registration.JoinRoom(dev, node);
      if join.Denied? {
        return Refused(join.reason);
      }
      if scene.armed.Some? {
        room := Some(room.value[scene.armed.value := dev]);
      }
      answer := Accepted(join.role);
    }

    /** `handshake`'s scored branch: validate, then the instrument gate. */
    method Validate(dev: Dev, node: Node, scene: Scene) returns (answer: Answer)
      requires Valid() && registration != null
      modifies this, registration
      ensures Valid() && registration == old(registration)
      ensures (View(), answer) == ScoredHandshake(old(View()), dev, node, scene)
    {
      GrantedIsDeclared(registration.View(), dev, node);
      hide Coherent;
      hide Validated;
      hide Released;
      var already := dev in registration.validated;
      var join := registration.Validate(dev, node);
      if join.Denied? {
        return Refused(join.reason);
      }
      if already {
        return Accepted(join.role);
      }
      var role := registration.table.roles[join.role];
      if role.slot.Some? && !scene.satisfies(dev, role.slot.value) {
        var _ := registration.Release(dev);
        return GateRefused;
      }
      answer := Accepted(join.role);
    }

    method Hello(dev: Dev, c: Crowd)
      requires Valid()
      modifies this, registration
      ensures Valid() && registration == old(registration)
      ensures View() == Helloed(old(View()), dev, c)
    {
      hide Coherent;
      hide Jammed;
      if room.Some? {
        BoundIsValues(View());
        BoundIsValues(Pooled(View(), dev));
      }
      if dev !in pool {
        pool := pool + [dev];
      }
      if phase == Running && dev !in admins
         && dev !in registration.assignments && (room.None? || dev !in room.value.Values) {
        var _ := registration.JamOne(dev, c);
      }
    }

    /** Every silent device is dropped, but for bound fixtures; `released` names once each that held a role. */
    method ReapStale(stale: seq<Dev>) returns (released: seq<Dev>)
      requires Valid()
      modifies this, registration
      ensures Valid() && registration == old(registration)
      ensures View() == ReapedAll(old(View()), stale)
      ensures Once(released) && forall d :: d in released <==> d in stale && Holds(old(View()), d)
    {
      hide Coherent;
      hide Holds;
      released := [];
      ghost var e := View();
      assert stale[0..] == stale;
      for i := 0 to |stale|
        invariant Valid() && registration == old(registration)
        invariant ReapedAll(e, stale) == ReapedAll(View(), stale[i..])
        invariant Once(released) && forall d :: d in released <==> d in stale[..i] && Holds(e, d)
        invariant forall d :: Holds(View(), d) <==> Holds(e, d) && d !in stale[..i]
      {
        assert stale[i..][1..] == stale[i + 1..];
        assert stale[..i + 1] == stale[..i] + [stale[i]];
        ReapedHolders(View(), stale[i]);
        var held := ReapOne(stale[i]);
        if held {
          released := released + [stale[i]];
        }
      }
    }

    method ReapOne(dev: Dev) returns (held: bool)
      requires Valid()
      modifies this, registration
      ensures Valid() && registration == old(registration)
      ensures View() == Reaped(old(View()), dev) && held == Holds(old(View()), dev)
    {
      hide Coherent;
      if room.Some? {
        BoundIsValues(View());
      } else {
        UnroomedIsUnbound(View(), dev);
      }
      hide Bound;
      held := false;
      if room.None? || dev !in room.value.Values {
        if registration != null {
          held := dev in registration.assignments;
          hide Released;
          var _ := registration.Release(dev);
        }
        pool := Without(pool, dev);
      }
    }

    /** False: a Bit is already loaded, or this one is refused; None stands for the refusals outside registration. */
    method LoadBit(table: Option<BitTable>, maxScored: Option<nat>) returns (ok: bool)
      requires Valid()
      modifies this
      ensures Valid() && View() == Loaded(old(View()), table, maxScored)
      ensures ok == (old(phase) == Idle && table.Some? && !Overcapped(table.value, maxScored))
      ensures ok <==> round != old(round)
    {
      hide Coherent;
      hide ScoredCap;
      if phase != Idle || table.None? {
        return false;
      }
      if maxScored.Some? {
        var bounded := RegistrationState.CapOf(table.value, None);
        if bounded.Some? && maxScored.value > bounded.value {
          return false;
        }
      }
      registration := new RegistrationState(table.value, maxScored);
      phase, round := Setup, round + 1;
      ok := true;
    }

    /** False: not in SETUP. `granted` names each newly assigned device once, scored before jam. */
    method Run(c: Crowd) returns (ok: bool, granted: seq<(Dev, RoleName)>)
      requires Valid()
      modifies this, registration
      ensures Valid() && registration == old(registration) && ok == (old(phase) == Setup)
      ensures View() == Started(old(View()), c)
      ensures ok ==> registration != null
                     && Granting(Staying(old(registration.View())), registration.assignments, granted)
    {
      hide Coherent;
      hide Bound;
      hide Granting;
      hide Moved;
      hide JammedAll;
      hide CandidatesOf;
      granted, ok := [], phase == Setup;
      if ok {
        var jam := JamCandidates(pool);
        granted := registration.Materialize(jam, c);
        phase := Running;
      }
    }

    method JamCandidates(devs: seq<Dev>) returns (jam: seq<Dev>)
      requires registration != null && forall d :: d in devs ==> d in pool
      ensures jam == CandidatesOf(View(), devs)
    {
      hide CandidatesOf;
      hide Candidate;
      ghost var e := View();
      jam := [];
      assert devs[0..] == devs;
      for i := 0 to |devs|
        invariant CandidatesOf(e, devs) == jam + CandidatesOf(e, devs[i..])
      {
        CandidatesStep(e, devs, i, jam);
        CandidateMeans(e, devs[i]);
        if devs[i] !in registration.assignments && devs[i] !in admins && (room.None? || devs[i] !in room.value.Values) {
          jam := jam + [devs[i]];
        }
      }
      CandidatesStop(e, devs[|devs|..]);
    }

    /** `abort` and completion. Each device that held a role is released exactly once; right counts end at zero. */
    method Unload() returns (released: seq<Dev>)
      requires Valid() && phase != Idle
      modifies this, registration
      ensures Valid() && View() == Ended(old(View()))
      ensures old(registration) != null
              && SetOf(released) == old(registration.assignments).Keys && |released| == |old(registration.assignments)|
              && old(registration).assignments == map[] && old(registration).validated == map[]
      ensures Balanced(old(registration.View())) ==>
                forall n :: n in old(registration).counts ==> old(registration).counts[n] == 0
    {
      hide Coherent;
      hide Balanced;
      hide SetOf;
      released := registration.ReleaseAll();
      registration := null;
      phase := Idle;
    }
  }

  lemma RoomDenied(r: Registration, dev: Dev, node: Node)
    requires Coherent(r)
    ensures RoomJoined(r, dev, node).1.Denied? ==> RoomJoined(r, dev, node).0 == r
  {
  }

  lemma CandidatesStep(e: Engine, devs: seq<Dev>, i: nat, jam: seq<Dev>)
    requires e.registration.Some? && (forall d :: d in devs ==> d in e.pool) && i < |devs|
    ensures jam + CandidatesOf(e, devs[i..])
         == (if Candidate(e, devs[i]) then jam + [devs[i]] else jam) + CandidatesOf(e, devs[i + 1..])
  {
    assert devs[i..][1..] == devs[i + 1..];
    hide Candidate;
  }

  lemma CandidateMeans(e: Engine, dev: Dev)
    requires e.registration.Some? && dev in e.pool
    ensures Candidate(e, dev) <==>
      dev !in e.registration.value.assignments && dev !in e.admins && (e.room.None? || dev !in e.room.value.Values)
  {
    if e.room.Some? {
      BoundIsValues(e);
    }
  }

  lemma CandidatesStop(e: Engine, devs: seq<Dev>)
    requires e.registration.Some? && devs == []
    ensures CandidatesOf(e, devs) == []
  {
  }

  lemma UnroomedIsUnbound(e: Engine, dev: Dev)
    requires e.room.None?
    ensures dev !in Bound(e)
  {
  }
}
