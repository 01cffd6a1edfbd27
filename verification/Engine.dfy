/**
 control/engine.py: a Bit's life as far as registration goes.

 `Engine` is the part of GameServer that decides who holds what; `Step` is one call on
 it. `Sound` is balanced books, no device both reserving and holding a role, and while
 the Bit is in SETUP every assignment a ROOM one of a bound fixture. A step keeps it
 exactly when it is `Proper` (`StepKeepsSoundExactly`, `LivesAreSoundExactly`): a jam
 finds a place, and a join of SETUP leaves every ROOM holder bound, which re-arming a
 held fixture and a window that expires during the join do not
 (`BindKeepsRoomHoldersExactly`, `StrandedDeviceLeaks`, `UnsafeJoinsLeakACount`).
 */
module Engines {
  import opened Wrappers
  import opened Registrations
  import opened RegistrationStates

  datatype Fixture = Fixture(name: string)

  /** The states a call can leave the engine in; the others are passed through inside a call. */
  datatype Phase = Idle | Setup | Running

  datatype Engine = Engine(
    phase: Phase, registration: Option<Registration>, pool: seq<Dev>, room: Option<map<Fixture, Dev>>,
    admins: set<Dev>, round: nat)

  function Bound(e: Engine): set<Dev> {
    if e.room.None? then {} else set f | f in e.room.value :: e.room.value[f]
  }

  datatype Answer =
    | Accepted(role: RoleName)
    | NotConnected | NoBit | NotArmed | IsFixture | NotInSetup | StaleRound | NoScoredNode | GateRefused
    | Refused(reason: Reason)

  /**
   What surrounds one handshake: the arming window as `_room_armed` reads it, the fixture
   armed when `_bind_room` reads the window again, the default node, the instrument gate.
   */
  datatype Scene = Scene(
    open: bool, armed: Option<Fixture>, defaultNode: Option<Node>, satisfies: (Dev, string) -> bool)

  /** A Bit is loaded or not, and its registration is one the operations can work on. */
  ghost predicate Formed(e: Engine) {
    (e.phase == Idle <==> e.registration.None?) && (e.registration.Some? ==> Coherent(e.registration.value))
  }

  predicate IsRoomNode(t: Table, node: Node)
    requires WellFormed(t)
  {
    FirstRoom(t, Candidates(t, node)).Some?
  }

  predicate GatePasses(role: Role, dev: Dev, scene: Scene) { role.slot.None? || scene.satisfies(dev, role.slot.value) }

  // ---- handshake -------------------------------------------------------------------

  /** A granted join binds the fixture armed by now, if one still is. */
  function Bind(e: Engine, dev: Dev, scene: Scene): Engine
    requires e.room.Some?
  {
    if scene.armed.None? then e else e.(room := Some(e.room.value[scene.armed.value := dev]))
  }

  /** A join against the Room's node. */
  function RoomHandshake(e: Engine, dev: Dev, node: Node, scene: Scene): (o: (Engine, Answer))
    requires Formed(e) && e.registration.Some?
    ensures Formed(o.0)
  {
    if !scene.open || e.room.None? then (e, NotArmed)
    else
      var (r, join) := RoomJoined(e.registration.value, dev, node);
      if join.Denied? then (e, Refused(join.reason))
      else (Bind(e.(registration := Some(r)), dev, scene), Accepted(join.role))
  }

  /** A validation, undone when the carried instrument fails the role's requirement. */
  function ScoredHandshake(e: Engine, dev: Dev, node: Node, scene: Scene): (o: (Engine, Answer))
    requires Formed(e) && e.registration.Some?
    ensures Formed(o.0)
  {
    var r0 := e.registration.value;
    var (r, join) := Validated(r0, dev, node);
    if join.Denied? then (e, Refused(join.reason))
    else if dev in r0.validated then (e, Accepted(join.role))
    else
      GrantedIsDeclared(r0, dev, node);
      if GatePasses(r.table.roles[join.role], dev, scene) then (e.(registration := Some(r)), Accepted(join.role))
      else (e.(registration := Some(Released(r, dev))), GateRefused)
  }

  lemma GrantedIsDeclared(r: Registration, dev: Dev, node: Node)
    requires Coherent(r)
    ensures var (r', join) := Validated(r, dev, node); join.Granted? ==> join.role in r'.table.roles
  {
    hide ScoredCap;
  }

  function Handshaken(e: Engine, dev: Dev, round: nat, node: Option<Node>, scene: Scene): (o: (Engine, Answer))
    requires Formed(e)
    ensures Formed(o.0)
  {
    if dev !in e.pool then (e, NotConnected)
    else if e.registration.None? then (e, NoBit)
    else if node.Some? && IsRoomNode(e.registration.value.table, node.value)
    then RoomHandshake(e, dev, node.value, scene)
    else if dev in Bound(e) then (e, IsFixture)
    else if e.phase != Setup then (e, NotInSetup)
    else if round != e.round then (e, StaleRound)
    else if node.None? && scene.defaultNode.None? then (e, NoScoredNode)
    else ScoredHandshake(e, dev, if node.Some? then node.value else scene.defaultNode.value, scene)
  }

  // ---- the rest of a Bit's life --------------------------------------------------------

  /** `_jam_candidates`. */
  predicate Candidate(e: Engine, dev: Dev)
    requires e.registration.Some?
  {
    dev in e.pool && dev !in Bound(e) && dev !in e.registration.value.assignments && dev !in e.admins
  }

  function CandidatesOf(e: Engine, pool: seq<Dev>): (c: seq<Dev>)
    requires e.registration.Some? && forall d :: d in pool ==> d in e.pool
    ensures forall d :: d in c <==> d in pool && Candidate(e, d)
  {
    if pool == [] then []
    else
      assert pool == [pool[0]] + pool[1..];
      (if Candidate(e, pool[0]) then [pool[0]] else []) + CandidatesOf(e, pool[1..])
  }

  function Pooled(e: Engine, dev: Dev): Engine { if dev in e.pool then e else e.(pool := e.pool + [dev]) }

  /** First contact, and in RUNNING a jam role at once. */
  function Helloed(e: Engine, dev: Dev, c: Crowd): (e': Engine)
    requires Formed(e)
    ensures Formed(e')
  {
    var e1 := Pooled(e, dev);
    if e1.phase == Running && Candidate(e1, dev)
    then e1.(registration := Some(Jammed(e1.registration.value, dev, c)))
    else e1
  }

  function Without(pool: seq<Dev>, dev: Dev): (r: seq<Dev>)
    ensures forall d :: d in r <==> d in pool && d != dev
  {
    if pool == [] then []
    else
      assert pool == [pool[0]] + pool[1..];
      (if pool[0] == dev then [] else [pool[0]]) + Without(pool[1..], dev)
  }

  /** One silent device reaped; a bound fixture is left alone. */
  function Reaped(e: Engine, dev: Dev): (e': Engine)
    requires Formed(e)
    ensures Formed(e')
  {
    if dev in Bound(e) then e
    else if e.registration.None? then e.(pool := Without(e.pool, dev))
    else e.(pool := Without(e.pool, dev), registration := Some(Released(e.registration.value, dev)))
  }

  /** More scored places promised than the scored roles have. */
  predicate Overcapped(t: BitTable, maxScored: Option<nat>) {
    maxScored.Some? && ScoredCap(t, None).Some? && maxScored.value > ScoredCap(t, None).value
  }

  /** `load_bit`, refused unless idle; None stands for a Bit whose construction or whose other checks raise. */
  function Loaded(e: Engine, t: Option<BitTable>, maxScored: Option<nat>): (e': Engine)
    requires Formed(e)
    ensures Formed(e')
  {
    if e.phase != Idle || t.None? || Overcapped(t.value, maxScored) then e
    else e.(phase := Setup, registration := Some(NewRegistration(t.value, maxScored)), round := e.round + 1)
  }

  /** `run`: reservations, then jam roles. */
  function Started(e: Engine, c: Crowd): (e': Engine)
    requires Formed(e)
    ensures Formed(e')
  {
    if e.phase != Setup then e
    else
      e.(phase := Running,
         registration := Some(JammedAll(Moved(e.registration.value), CandidatesOf(e, e.pool), c)))
  }

  /** `abort` or completion: both end in `_unload`. */
  function Ended(e: Engine): Engine { if e.phase == Idle then e else e.(phase := Idle, registration := None) }

  // ---- what every step keeps --------------------------------------------------------------

  /** Every device holding a ROOM role stands for a fixture right now. */
  ghost predicate RoomHoldersBound(e: Engine) {
    e.registration.Some? ==>
      forall d :: d in e.registration.value.assignments && e.registration.value.assignments[d].roleClass == ROOM ==>
        d in Bound(e)
  }

  /** In SETUP only ROOM roles are held, each by a bound fixture, and reservations are of nobody holding one. */
  ghost predicate SetupSound(e: Engine)
    requires e.registration.Some?
  {
    && RoomHoldersBound(e)
    && (forall d :: d in e.registration.value.assignments ==> e.registration.value.assignments[d].roleClass == ROOM)
    && Disjoint(e.registration.value)
    && forall d :: d in e.registration.value.validated ==> d in e.pool
  }

  ghost predicate Sound(e: Engine) {
    && Formed(e)
    && (e.registration.Some? ==> Balanced(e.registration.value))
    && (e.phase == Setup ==> SetupSound(e))
    && (e.phase == Running ==> e.registration.value.validated == map[])
  }

  /** Binding `dev` to `fixture` drops no other device that still holds a ROOM role. */
  predicate SafeBind(e: Engine, dev: Dev, fixture: Fixture)
    requires e.registration.Some? && e.room.Some?
  {
    || fixture !in e.room.value
    || e.room.value[fixture] == dev
    || BoundElsewhere(e.room.value, fixture, e.room.value[fixture])
    || !HoldsRoomRole(e.registration.value, e.room.value[fixture])
  }

  /** With a fixture still armed the bind is safe; without one the device is bound already. */
  predicate SafeJoin(e: Engine, dev: Dev, scene: Scene)
    requires e.registration.Some? && e.room.Some?
  {
    if scene.armed.Some? then SafeBind(e, dev, scene.armed.value) else dev in e.room.value.Values
  }

  predicate HoldsRoomRole(r: Registration, dev: Dev) { dev in r.assignments && r.assignments[dev].roleClass == ROOM }

  predicate BoundElsewhere(room: map<Fixture, Dev>, fixture: Fixture, dev: Dev) {
    exists f :: f in room && f != fixture && room[f] == dev
  }

  lemma BoundAfter(room: map<Fixture, Dev>, dev: Dev, fixture: Fixture, d: Dev)
    ensures d in room[fixture := dev].Values <==> d == dev || BoundElsewhere(room, fixture, d)
  {
    var room' := room[fixture := dev];
    assert room'[fixture] == dev;
    if BoundElsewhere(room, fixture, d) {
      var f :| f in room && f != fixture && room[f] == d;
      assert room'[f] == d;
    }
  }

  lemma BoundIsValues(e: Engine)
    requires e.room.Some?
    ensures Bound(e) == e.room.value.Values
  {
    forall d ensures d in Bound(e) <==> d in e.room.value.Values {
    }
  }

  lemma StillBound(room: map<Fixture, Dev>, fixture: Fixture, d: Dev)
    requires d in room.Values
    ensures BoundElsewhere(room, fixture, d) || (fixture in room && room[fixture] == d)
  {
    var f :| f in room && room[f] == d;
  }

  /** What a granted Room join does to the registration: `dev` has a ROOM role, and nobody else's changes. */
  ghost predicate RoomTaken(r: Registration, r': Registration, dev: Dev) {
    && r'.table == r.table && r'.maxScored == r.maxScored
    && HoldsRoomRole(r', dev) && r'.assignments.Keys == r.assignments.Keys + {dev}
    && (forall d :: d in r.assignments && d != dev ==> r'.assignments[d] == r.assignments[d])
    && r'.validated == (if dev in r.assignments then r'.validated else r.validated - {dev})
    && r'.validated.Keys <= r.validated.Keys
  }

  lemma RoomGrant(e: Engine, dev: Dev, node: Node, scene: Scene)
    requires Formed(e) && e.registration.Some? && Balanced(e.registration.value)
    requires RoomHandshake(e, dev, node, scene).1.Accepted?
    ensures scene.open && e.room.Some?
    ensures var e' := RoomHandshake(e, dev, node, scene).0;
      && e'.registration.Some? && e' == Bind(e.(registration := e'.registration), dev, scene)
      && Balanced(e'.registration.value) && RoomTaken(e.registration.value, e'.registration.value, dev)
  {
    hide Coherent;
    hide RoomTaken;
    hide RoomJoined;
    hide Balanced;
    RoomJoinTakes(e.registration.value, dev, node);
  }

  lemma RoomJoinTakes(r: Registration, dev: Dev, node: Node)
    requires Coherent(r) && Balanced(r)
    ensures var (r', join) := RoomJoined(r, dev, node); Balanced(r') && (join.Granted? ==> RoomTaken(r, r', dev))
  {
    RoomJoinBalances(r, dev, node);
    var (r', join) := RoomJoined(r, dev, node);
    hide RoomJoined;
    if join.Granted? {
      GrantedHolds(r, r', dev, node, r.table.roles[join.role]);
    }
    hide Balanced;
    hide Coherent;
    hide AssignedTo;
    hide RoomTaken;
  }

  lemma GrantedHolds(r: Registration, r': Registration, dev: Dev, node: Node, role: Role)
    requires Coherent(r) && Balanced(r) && role.roleClass == ROOM
    requires role.name in r.table.roles && role == r.table.roles[role.name] && AssignedTo(r, r', dev, node, role)
    ensures RoomTaken(r, r', dev)
  {
    hide Coherent;
    hide WellFormed;
    hide Counted;
    hide WithinCapacity;
  }

  /** Who is bound once a granted join has bound the fixture it found armed. */
  lemma BoundAfterJoin(e: Engine, e': Engine, dev: Dev, scene: Scene, d: Dev)
    requires e.room.Some? && e' == Bind(e.(registration := e'.registration), dev, scene)
    ensures scene.armed.None? ==> (d in Bound(e') <==> d in Bound(e))
    ensures scene.armed.Some? ==> (d in Bound(e') <==> d == dev || BoundElsewhere(e.room.value, scene.armed.value, d))
  {
    BoundIsValues(e);
    BoundIsValues(e');
    hide Bound;
    if scene.armed.Some? {
      BoundAfter(e.room.value, dev, scene.armed.value, d);
    }
    hide BoundElsewhere;
  }

  /**
   A granted Room join leaves every ROOM holder bound exactly when it is safe. With a
   fixture still armed as the join binds: the fixture was free, already this device's, its
   device is bound elsewhere too, or its device holds no ROOM role. With the window
   expired since the join was let in: the device was bound already.
   */
  lemma BindKeepsRoomHoldersExactly(e: Engine, dev: Dev, node: Node, scene: Scene)
    requires Formed(e) && e.registration.Some? && Balanced(e.registration.value) && RoomHoldersBound(e)
    requires RoomHandshake(e, dev, node, scene).1.Accepted?
    ensures scene.open && e.room.Some?
    ensures RoomHoldersBound(RoomHandshake(e, dev, node, scene).0) <==> SafeJoin(e, dev, scene)
  {
    RoomGrant(e, dev, node, scene);
    var r, e' := e.registration.value, RoomHandshake(e, dev, node, scene).0;
    hide RoomHandshake;
    hide Balanced;
    hide Formed;
    var r' := e'.registration.value;
    forall d {
      BoundAfterJoin(e, e', dev, scene, d);
    }
    BoundIsValues(e);
    hide Bound;
    if scene.armed.None? {
      assert forall d :: d in Bound(e') <==> d in Bound(e);
      if SafeJoin(e, dev, scene) {
        forall d | d in r'.assignments && r'.assignments[d].roleClass == ROOM ensures d in Bound(e') {
          assert d == dev || HoldsRoomRole(r, d);
        }
      }
      return;
    }
    var fixture, room := scene.armed.value, e.room.value;
    forall d | d in Bound(e) ensures BoundElsewhere(room, fixture, d) || (fixture in room && room[fixture] == d) {
      StillBound(room, fixture, d);
    }
    if SafeBind(e, dev, fixture) {
      forall d | d in r'.assignments && r'.assignments[d].roleClass == ROOM ensures d in Bound(e') {
        assert d == dev || HoldsRoomRole(r, d);
      }
    } else {
      var d := room[fixture];
      assert HoldsRoomRole(r', d) && d !in Bound(e');
    }
  }

  // ---- refusals ------------------------------------------------------------------------

  lemma ReservedThenReleased(r: Registration, dev: Dev, node: Node, name: RoleName)
    requires Coherent(r) && name in r.counts && dev !in r.validated && dev !in r.assignments
    ensures Coherent(Reserved(r, dev, node, name)) && Released(Reserved(r, dev, node, name), dev) == r
  {
    hide WellFormed;
    var r1 := Reserved(r, dev, node, name);
    assert r1.validated - {dev} == r.validated;
    assert r1.counts[name := r1.counts[name] - 1] == r.counts;
  }

  /** In SETUP a device that stands for no fixture holds nothing. */
  lemma UnboundHoldsNothing(e: Engine, dev: Dev)
    requires Sound(e) && e.phase == Setup && dev !in Bound(e)
    ensures dev !in e.registration.value.assignments
  {
    hide Balanced;
    hide Coherent;
  }

  /** A scored handshake: refused without a trace, or repeated without one, or one more reservation. */
  lemma ScoredOutcome(e: Engine, dev: Dev, node: Node, scene: Scene)
    requires Formed(e) && e.registration.Some? && Balanced(e.registration.value)
    requires dev !in e.registration.value.assignments
    ensures var (e', answer) := ScoredHandshake(e, dev, node, scene);
      && (!answer.Accepted? || dev in e.registration.value.validated ==> e' == e)
      && (answer.Accepted? && dev !in e.registration.value.validated ==>
            var r' := Validated(e.registration.value, dev, node).0;
            && e' == e.(registration := Some(r'))
            && Balanced(r') && r'.table == e.registration.value.table
            && r'.assignments == e.registration.value.assignments
            && r'.validated == e.registration.value.validated[dev := Reservation(node, answer.role)])
  {
    var r := e.registration.value;
    ValidateBalances(r, dev, node);
    ReservedValue(r, dev, node);
    var (r1, join) := Validated(r, dev, node);
    if join.Granted? && dev !in r.validated {
      ReservedThenReleased(r, dev, node, join.role);
    }
    hide Validated;
    hide Balanced;
    hide Released;
    hide Reserved;
    hide Coherent;
  }

  lemma RoomRefusal(e: Engine, dev: Dev, node: Node, scene: Scene)
    requires Formed(e) && e.registration.Some?
    ensures !RoomHandshake(e, dev, node, scene).1.Accepted? ==> RoomHandshake(e, dev, node, scene).0 == e
  {
    hide RoomJoined;
    hide Coherent;
  }

  /** A handshake that is not accepted leaves the engine exactly as it was, the instrument gate's included. */
  lemma RefusalChangesNothing(e: Engine, dev: Dev, round: nat, node: Option<Node>, scene: Scene)
    requires Sound(e) && !Handshaken(e, dev, round, node, scene).1.Accepted?
    ensures Handshaken(e, dev, round, node, scene).0 == e
  {
    hide ScoredHandshake;
    hide RoomHandshake;
    if e.registration.Some? {
      if node.Some? {
        RoomRefusal(e, dev, node.value, scene);
      }
      if e.phase == Setup && dev !in Bound(e) && (node.Some? || scene.defaultNode.Some?) {
        UnboundHoldsNothing(e, dev);
        ScoredOutcome(e, dev, if node.Some? then node.value else scene.defaultNode.value, scene);
      }
    }
    hide SetupSound;
    hide Balanced;
    hide Coherent;
    hide IsRoomNode;
  }

  lemma ReservedValue(r: Registration, dev: Dev, node: Node)
    requires Coherent(r)
    ensures var (r', join) := Validated(r, dev, node);
      join.Granted? && dev !in r.validated ==> join.role in r.counts && r' == Reserved(r, dev, node, join.role)
  {
    hide ScoredCap;
  }

  // ---- when each step keeps Sound ------------------------------------------------------------

  /** What a granted Room join leaves of SETUP's condition, once its holders are all bound. */
  lemma JoinedSetup(e: Engine, e': Engine, dev: Dev)
    requires e.registration.Some? && SetupSound(e) && e'.registration.Some? && RoomHoldersBound(e') && e'.pool == e.pool
    requires var r, r' := e.registration.value, e'.registration.value;
      && HoldsRoomRole(r', dev) && r'.assignments.Keys == r.assignments.Keys + {dev}
      && (forall d :: d in r.assignments && d != dev ==> r'.assignments[d] == r.assignments[d])
      && r'.validated.Keys <= r.validated.Keys
      && (dev !in r.assignments ==> dev !in r'.validated)
    ensures SetupSound(e')
  {
    hide RoomHoldersBound;
  }

  /** A Room join keeps Sound exactly when, granted in SETUP, it is safe; in RUNNING it always does. */
  lemma RoomHandshakeIsSoundExactly(e: Engine, dev: Dev, node: Node, scene: Scene)
    requires Sound(e) && e.registration.Some?
    ensures RoomHandshake(e, dev, node, scene).1.Accepted? ==> e.room.Some?
    ensures Sound(RoomHandshake(e, dev, node, scene).0) <==>
            (RoomHandshake(e, dev, node, scene).1.Accepted? && e.phase == Setup ==> SafeJoin(e, dev, scene))
  {
    RoomRefusal(e, dev, node, scene);
    var (e', answer) := RoomHandshake(e, dev, node, scene);
    if !answer.Accepted? {
      hide Sound;
      return;
    }
    RoomGrant(e, dev, node, scene);
    hide RoomHandshake;
    hide Balanced;
    hide Coherent;
    hide HoldsRoomRole;
    if e.phase == Setup {
      BindKeepsRoomHoldersExactly(e, dev, node, scene);
      hide RoomHoldersBound;
      if SafeJoin(e, dev, scene) {
        JoinedSetup(e, e', dev);
        hide SetupSound;
      }
    } else {
      assert e'.registration.value.validated.Keys == {};
      hide SetupSound;
    }
    hide SafeJoin;
  }

  lemma ScoredHandshakeIsSound(e: Engine, dev: Dev, node: Node, scene: Scene)
    requires Sound(e) && e.phase == Setup && dev !in Bound(e) && dev in e.pool
    ensures Sound(ScoredHandshake(e, dev, node, scene).0)
  {
    UnboundHoldsNothing(e, dev);
    ScoredOutcome(e, dev, node, scene);
    var e' := ScoredHandshake(e, dev, node, scene).0;
    hide ScoredHandshake;
    hide Validated;
    hide Balanced;
    hide Coherent;
    if e' != e {
      assert Bound(e') == Bound(e);
      hide Bound;
      assert SetupSound(e');
    }
    hide SetupSound;
  }

  /**
   A Room join that is granted: the window is open, the node has a ROOM role, and the first
   has a place or is the device's already.
   */
  predicate Joins(e: Engine, dev: Dev, node: Option<Node>, scene: Scene)
    requires Formed(e)
  {
    && dev in e.pool && e.registration.Some? && node.Some? && scene.open && e.room.Some?
    && var first := FirstRoom(e.registration.value.table, Candidates(e.registration.value.table, node.value));
       && first.Some?
       && (HoldsRole(e.registration.value, dev, first.value)
           || !Full(e.registration.value, e.registration.value.table.roles[first.value]))
  }

  lemma JoinsMeans(e: Engine, dev: Dev, node: Option<Node>, scene: Scene)
    requires Formed(e)
    ensures Joins(e, dev, node, scene) <==>
      && dev in e.pool && e.registration.Some? && node.Some? && IsRoomNode(e.registration.value.table, node.value)
      && RoomHandshake(e, dev, node.value, scene).1.Accepted?
  {
    hide CountedRoles;
    hide Assigned;
    hide FirstRoom;
    hide Full;
    hide HoldsRole;
  }

  /** A handshake keeps Sound exactly when it joins the Room in SETUP only safely. */
  lemma HandshakeIsSoundExactly(e: Engine, dev: Dev, round: nat, node: Option<Node>, scene: Scene)
    requires Sound(e)
    ensures Joins(e, dev, node, scene) ==> e.room.Some?
    ensures Sound(Handshaken(e, dev, round, node, scene).0) <==>
            (Joins(e, dev, node, scene) && e.phase == Setup ==> SafeJoin(e, dev, scene))
  {
    var (e', answer) := Handshaken(e, dev, round, node, scene);
    JoinsMeans(e, dev, node, scene);
    hide Joins;
    if dev in e.pool && e.registration.Some? && node.Some? && IsRoomNode(e.registration.value.table, node.value) {
      RoomHandshakeIsSoundExactly(e, dev, node.value, scene);
    } else if !answer.Accepted? {
      RefusalChangesNothing(e, dev, round, node, scene);
    } else {
      ScoredHandshakeIsSound(e, dev, if node.Some? then node.value else scene.defaultNode.value, scene);
    }
    hide Balanced;
    hide Coherent;
    hide SetupSound;
    hide RoomHandshake;
    hide ScoredHandshake;
    hide SafeJoin;
    hide IsRoomNode;
  }

  /** A hello keeps Sound exactly when the jam role it brings, if it brings one, has a place. */
  lemma HelloIsSoundExactly(e: Engine, dev: Dev, c: Crowd)
    requires Sound(e)
    ensures Sound(Helloed(e, dev, c)) <==> JamsOnHello(e, dev, c)
  {
    hide Jammed;
    hide Coherent;
    var e1 := Pooled(e, dev);
    assert Bound(e1) == Bound(e);
    assert e.phase == Setup ==> SetupSound(e1);
    if e1.phase == Running && Candidate(e1, dev) {
      var r := e1.registration.value;
      JammedStep(r, dev, c);
      JamBalancesExactly(r, dev, c);
      assert Jammed(r, dev, c).validated.Keys == {};
    }
    hide Balanced;
    hide SetupSound;
    hide JamFits;
    hide GrownBySolos;
    hide NewlyJammed;
  }

  predicate JamsOnHello(e: Engine, dev: Dev, c: Crowd)
    requires Formed(e)
  {
    e.phase == Running && Candidate(Pooled(e, dev), dev) ==> JamFits(e.registration.value, dev, c)
  }

  lemma ReapedSetup(e: Engine, e': Engine, dev: Dev)
    requires e.registration.Some? && SetupSound(e) && dev !in e.registration.value.assignments
    requires e'.registration.Some? && e'.room == e.room && e'.pool == Without(e.pool, dev)
    requires e'.registration.value.assignments == e.registration.value.assignments - {dev}
    requires e'.registration.value.validated == e.registration.value.validated - {dev}
    ensures SetupSound(e')
  {
    assert Bound(e') == Bound(e);
  }

  lemma ReapIsSound(e: Engine, dev: Dev)
    requires Sound(e)
    ensures Sound(Reaped(e, dev))
  {
    hide Without;
    if e.registration.Some? && dev !in Bound(e) {
      var r := e.registration.value;
      ReleaseBalances(r, dev);
      if e.phase == Setup {
        UnboundHoldsNothing(e, dev);
        ReapedSetup(e, Reaped(e, dev), dev);
      }
      hide Released;
    }
    hide Balanced;
    hide Coherent;
    hide SetupSound;
    hide Bound;
  }

  /** Every jam role that `run` gives has a place. */
  predicate JamsOnStart(e: Engine, c: Crowd)
    requires Formed(e)
  {
    e.phase == Setup ==> JamsFit(Moved(e.registration.value), CandidatesOf(e, e.pool), c)
  }

  /** What the registration is after `run`, and when its books balance. */
  lemma StartAssigns(e: Engine, c: Crowd)
    requires Sound(e) && e.phase == Setup
    ensures var r, e' := e.registration.value, Started(e, c);
      && e'.phase == Running && e'.registration.Some? && e' == e.(phase := Running, registration := e'.registration)
      && Moved(r).validated == map[] && Moved(r).table == r.table
      && Jamming(Moved(r), e'.registration.value, SetOf(CandidatesOf(e, e.pool)), c)
      && (Balanced(e'.registration.value) <==> JamsOnStart(e, c))
  {
    var r := e.registration.value;
    MovedBalancesExactly(r);
    MovedElsewhere(r);
    JammedAllAssigns(Moved(r), CandidatesOf(e, e.pool), c);
    JammedAllBalancesExactly(Moved(r), CandidatesOf(e, e.pool), c);
    hide Balanced;
    hide Coherent;
    hide Moved;
    hide JammedAll;
    hide JamsFit;
    hide Jamming;
    hide CandidatesOf;
    hide SetOf;
  }

  lemma StartIsSoundExactly(e: Engine, c: Crowd)
    requires Sound(e)
    ensures Sound(Started(e, c)) <==> JamsOnStart(e, c)
  {
    if e.phase == Setup {
      StartAssigns(e, c);
      assert Started(e, c).registration.value.validated.Keys == {};
      hide Started;
      hide Balanced;
      hide Coherent;
      hide JamsOnStart;
      hide NewlyJammed;
      hide GrownBySolos;
    }
  }

  /**
   After `run`: every device that had validated holds its reserved role; every other
   pooled device that stands for no fixture and is no admin holds one jam or solo role;
   ROOM roles are as they were; and nobody else holds anything. The books balance, so no
   bounded role is over its capacity, exactly when each jam role has a place.
   */
  lemma StartAssignsEveryone(e: Engine, c: Crowd)
    requires Sound(e) && e.phase == Setup
    ensures var r := e.registration.value; var e' := Started(e, c);
      && e'.phase == Running && e'.registration.Some? && (Balanced(e'.registration.value) <==> JamsOnStart(e, c))
      && var a := e'.registration.value.assignments;
         && (forall d :: d in r.validated ==> d in a && a[d].role == r.validated[d].role)
         && (forall d :: d in e.pool && d !in Bound(e) && d !in e.admins && d !in r.validated ==>
               d in a && JamRole(r.table, a[d].role, d, c))
         && (forall d :: d in r.assignments ==> d in a && a[d] == r.assignments[d])
         && (forall d :: d in a ==>
               d in r.assignments || d in r.validated || (d in e.pool && d !in Bound(e) && d !in e.admins))
         && e'.registration.value.validated == map[]
  {
    StartAssigns(e, c);
    var r, e' := e.registration.value, Started(e, c);
    hide Started;
    hide Balanced;
    hide Coherent;
    hide JamsOnStart;
    hide JamRole;
    hide GrownBySolos;
    var r1 := Moved(r);
    forall d | d in e.pool && d !in Bound(e) && d !in e.admins && d !in r.validated
      ensures d in SetOf(CandidatesOf(e, e.pool)) && d !in r1.assignments
    {
      UnboundHoldsNothing(e, d);
      assert Candidate(e, d);
    }
    forall d | d in SetOf(CandidatesOf(e, e.pool)) ensures d in e.pool && d !in Bound(e) && d !in e.admins {
      assert Candidate(e, d);
    }
    forall d | d in r.validated ensures d in r1.assignments && r1.assignments[d].role == r.validated[d].role {
    }
    forall d | d in r.assignments ensures d in r1.assignments && r1.assignments[d] == r.assignments[d] {
      assert d !in r.validated;
    }
    assert e'.registration.value.validated.Keys == {};
    hide Moved;
    hide CandidatesOf;
    hide SetOf;
  }

  // ---- whole lives -----------------------------------------------------------------------

  datatype Op =
    | Hello(dev: Dev, crowd: Crowd)
    | Reap(dev: Dev)
    | Load(table: Option<BitTable>, maxScored: Option<nat>)
    | Shake(dev: Dev, round: nat, node: Option<Node>, scene: Scene)
    | Start(crowd: Crowd)
    | End
    | EnterRoom(room: Option<map<Fixture, Dev>>)

  function Step(e: Engine, op: Op): (e': Engine)
    requires Formed(e)
    ensures Formed(e')
  {
    match op
    case Hello(dev, crowd) => Helloed(e, dev, crowd)
    case Reap(dev) => Reaped(e, dev)
    case Load(table, maxScored) => Loaded(e, table, maxScored)
    case Shake(dev, round, node, scene) => Handshaken(e, dev, round, node, scene).0
    case Start(crowd) => Started(e, crowd)
    case End => Ended(e)
    // the Terrarium changes the Room only between Bits
    case EnterRoom(room) => if e.phase == Idle then e.(room := room) else e
  }

  /** Jam roles have places, and a join of SETUP is safe. */
  predicate Proper(e: Engine, op: Op)
    requires Formed(e)
  {
    match op
    case Hello(dev, crowd) => JamsOnHello(e, dev, crowd)
    case Start(crowd) => JamsOnStart(e, crowd)
    case Shake(dev, _, node, scene) => SafeShake(e, dev, node, scene)
    case _ => true
  }

  predicate SafeShake(e: Engine, dev: Dev, node: Option<Node>, scene: Scene)
    requires Formed(e)
  {
    Joins(e, dev, node, scene) && e.phase == Setup ==> e.room.Some? && SafeJoin(e, dev, scene)
  }

  lemma LoadIsSound(e: Engine, t: Option<BitTable>, maxScored: Option<nat>)
    requires Sound(e)
    ensures Sound(Loaded(e, t, maxScored))
  {
    if t.Some? {
      NewRegistrationBalances(t.value, maxScored);
    }
    hide Overcapped;
    hide Balanced;
    hide Coherent;
    hide WellFormed;
  }

  /** Each step keeps the invariant exactly when it is proper. */
  lemma StepKeepsSoundExactly(e: Engine, op: Op)
    requires Sound(e)
    ensures Sound(Step(e, op)) <==> Proper(e, op)
  {
    match op
    case Hello(dev, crowd) => HelloIsSoundExactly(e, dev, crowd);
    case Reap(dev) => ReapIsSound(e, dev);
    case Load(table, maxScored) => LoadIsSound(e, table, maxScored);
    case Shake(dev, round, node, scene) => HandshakeIsSoundExactly(e, dev, round, node, scene);
    case Start(crowd) => StartIsSoundExactly(e, crowd);
    case End => hide Balanced;
    case EnterRoom(room) => hide Balanced;
  }

  function Life(e: Engine, ops: seq<Op>): (e': Engine)
    requires Formed(e)
    ensures Formed(e')
    decreases |ops|
  {
    if ops == [] then e else Life(Step(e, ops[0]), ops[1..])
  }

  ghost predicate SoundThroughout(e: Engine, ops: seq<Op>)
    decreases |ops|
  {
    Sound(e) && (ops != [] ==> SoundThroughout(Step(e, ops[0]), ops[1..]))
  }

  predicate ProperThroughout(e: Engine, ops: seq<Op>)
    requires Formed(e)
    decreases |ops|
  {
    ops != [] ==> Proper(e, ops[0]) && ProperThroughout(Step(e, ops[0]), ops[1..])
  }

  /** A server with no Bit yet, whatever its devices, Room and admins. */
  lemma IdleIsSound(e: Engine)
    requires e.phase == Idle && e.registration.None?
    ensures Sound(e) && Life(e, []) == e
  {
  }

  /** A life is sound at every moment exactly when each of its steps is proper. */
  lemma {:induction false} LivesAreSoundExactly(e: Engine, ops: seq<Op>)
    requires Sound(e)
    ensures SoundThroughout(e, ops) <==> ProperThroughout(e, ops)
    decreases |ops|
  {
    if ops == [] {
      hide Sound;
      return;
    }
    StepKeepsSoundExactly(e, ops[0]);
    if Proper(e, ops[0]) {
      LivesAreSoundExactly(Step(e, ops[0]), ops[1..]);
    }
    hide Step;
    hide Balanced;
    hide Coherent;
    hide SetupSound;
    hide Proper;
  }

  // ---- Bits whose tables no jam can overfill ---------------------------------------------------

  /** A Bit that declares no role under a solo role's name but unbounded JAM ones. */
  ghost predicate SafeBit(e: Engine) { e.registration.Some? ==> SoloSafe(e.registration.value.table) }

  /** Every table loaded is one no jam can overfill, and every join of SETUP is safe. */
  ghost predicate SafelyRun(e: Engine, ops: seq<Op>)
    requires Formed(e)
    decreases |ops|
  {
    ops != [] ==>
      && (ops[0].Load? && ops[0].table.Some? ==> SoloSafe(ops[0].table.value))
      && (ops[0].Shake? ==> SafeShake(e, ops[0].dev, ops[0].node, ops[0].scene))
      && SafelyRun(Step(e, ops[0]), ops[1..])
  }

  lemma SafeBitIsProper(e: Engine, op: Op)
    requires Sound(e) && SafeBit(e) && (op.Shake? ==> SafeShake(e, op.dev, op.node, op.scene))
    ensures Proper(e, op)
  {
    hide Balanced;
    hide Coherent;
    hide SetupSound;
    match op {
      case Hello(dev, crowd) =>
        if e.phase == Running {
          SafeTableFits(e.registration.value, dev, crowd);
        }
        hide JamFits;
      case Start(crowd) =>
        if e.phase == Setup {
          SafeTableJamsFit(Moved(e.registration.value), CandidatesOf(e, e.pool), crowd);
        }
        hide JamsFit;
        hide CandidatesOf;
      case _ =>
    }
  }

  /** The same Bit's table, or no Bit. */
  ghost predicate SameTable(e: Engine, e': Engine) {
    e.registration.Some? ==> e'.registration.Some? && e'.registration.value.table == e.registration.value.table
  }

  lemma RoomHandshakeTable(e: Engine, dev: Dev, node: Node, scene: Scene)
    requires Formed(e) && e.registration.Some? && Balanced(e.registration.value)
    ensures SameTable(e, RoomHandshake(e, dev, node, scene).0)
  {
    hide Coherent;
    hide Balanced;
    RoomRefusal(e, dev, node, scene);
    if RoomHandshake(e, dev, node, scene).1.Accepted? {
      RoomGrant(e, dev, node, scene);
    }
    hide RoomHandshake;
    hide HoldsRoomRole;
  }

  lemma ScoredHandshakeTable(e: Engine, dev: Dev, node: Node, scene: Scene)
    requires Sound(e) && e.phase == Setup && dev !in Bound(e)
    ensures SameTable(e, ScoredHandshake(e, dev, node, scene).0)
  {
    UnboundHoldsNothing(e, dev);
    ScoredOutcome(e, dev, node, scene);
    hide Coherent;
    hide Balanced;
    hide ScoredHandshake;
    hide Validated;
    hide SetupSound;
  }

  lemma FormedTable(e: Engine)
    requires Formed(e)
    ensures e.registration.Some? ==> WellFormed(e.registration.value.table)
  {
  }

  lemma SameTableAfterShake(e: Engine, dev: Dev, round: nat, node: Option<Node>, scene: Scene)
    requires Sound(e) && e.registration.Some?
    ensures SameTable(e, Handshaken(e, dev, round, node, scene).0)
  {
    hide Balanced;
    hide Coherent;
    FormedTable(e);
    hide WellFormed;
    hide Bound;
    hide SetupSound;
    hide IsRoomNode;
    hide ScoredHandshake;
    hide RoomHandshake;
    if dev in e.pool && node.Some? && IsRoomNode(e.registration.value.table, node.value) {
      RoomHandshakeTable(e, dev, node.value, scene);
    } else if e.phase == Setup && dev !in Bound(e) && (node.Some? || scene.defaultNode.Some?) {
      ScoredHandshakeTable(e, dev, if node.Some? then node.value else scene.defaultNode.value, scene);
    }
  }

  lemma SafeBitStays(e: Engine, op: Op)
    requires Sound(e) && SafeBit(e) && (op.Load? && op.table.Some? ==> SoloSafe(op.table.value))
    ensures SafeBit(Step(e, op))
  {
    hide Balanced;
    hide Coherent;
    hide SetupSound;
    hide SoloSafe;
    match op {
      case Hello(dev, crowd) =>
        var e1 := Pooled(e, dev);
        if e1.phase == Running && Candidate(e1, dev) {
          JammedStep(e.registration.value, dev, crowd);
          SafeTableStays(e.registration.value.table, Jammed(e.registration.value, dev, crowd).table);
        }
        hide Jammed;
        hide GrownBySolos;
        hide NewlyJammed;
      case Reap(dev) =>
        if e.registration.Some? {
          ReleasedValue(e.registration.value, dev);
        }
        hide Released;
      case Start(crowd) =>
        if e.phase == Setup {
          StartAssigns(e, crowd);
          SafeTableStays(e.registration.value.table, Started(e, crowd).registration.value.table);
        }
        hide Started;
        hide GrownBySolos;
        hide NewlyJammed;
        hide JamsOnStart;
      case Shake(dev, round, node, scene) =>
        if e.registration.Some? {
          SameTableAfterShake(e, dev, round, node, scene);
        }
        hide RoomHandshake;
        hide ScoredHandshake;
      case _ =>
    }
  }

  /**
   Count conservation over whole lives: whatever mix of hellos, handshakes, reaps, loads,
   starts and ends, with tables a load can check and safe joins, each role's count is at
   every moment the number of devices reserving or holding it, no bounded role and not the
   scored cap is exceeded, and in SETUP nobody both reserves and holds a role.
   */
  lemma {:induction false} LivesAreBalanced(e: Engine, ops: seq<Op>)
    requires Sound(e) && SafeBit(e) && SafelyRun(e, ops)
    ensures SoundThroughout(e, ops) && ProperThroughout(e, ops)
    ensures var e' := Life(e, ops);
      && Sound(e') && SafeBit(e')
      && (e'.registration.Some? ==> Balanced(e'.registration.value))
      && (e'.phase == Setup ==> Disjoint(e'.registration.value))
    decreases |ops|
  {
    if ops == [] {
      hide Balanced;
      return;
    }
    SafeBitIsProper(e, ops[0]);
    StepKeepsSoundExactly(e, ops[0]);
    SafeBitStays(e, ops[0]);
    LivesAreBalanced(Step(e, ops[0]), ops[1..]);
    hide Step;
    hide Balanced;
    hide Coherent;
    hide SetupSound;
    hide SafeShake;
    hide Proper;
    hide SafeBit;
    hide SoloSafe;
    hide Disjoint;
  }

  // ---- joins that are not safe -----------------------------------------------------------------

  /** The device an unsafe join leaves with a ROOM role and no fixture. */
  function Stranded(e: Engine, dev: Dev, scene: Scene): Dev
    requires e.registration.Some? && e.room.Some? && !SafeJoin(e, dev, scene)
  {
    if scene.armed.Some? then e.room.value[scene.armed.value] else dev
  }

  /** A holder that stands for no fixture, in SETUP. */
  ghost predicate HoldsUnbound(e: Engine, dev: Dev) {
    Formed(e) && e.phase == Setup && e.registration.Some? && Balanced(e.registration.value)
    && dev in e.registration.value.assignments && dev !in Bound(e)
  }

  lemma UnsafeJoinStrands(e: Engine, dev: Dev, node: Node, scene: Scene)
    requires Sound(e) && e.phase == Setup
    requires RoomHandshake(e, dev, node, scene).1.Accepted?
    requires e.room.Some? && !SafeJoin(e, dev, scene)
    ensures HoldsUnbound(RoomHandshake(e, dev, node, scene).0, Stranded(e, dev, scene))
  {
    hide Coherent;
    hide Balanced;
    hide SetupSound;
    RoomGrant(e, dev, node, scene);
    var e1, stranded := RoomHandshake(e, dev, node, scene).0, Stranded(e, dev, scene);
    hide RoomHandshake;
    BoundAfterJoin(e, e1, dev, scene, stranded);
    BoundIsValues(e);
    hide Bound;
  }

  /** The books are right, and `run` leaves the counts wrong, whoever it jams. */
  ghost predicate LeaksOnRun(e: Engine, c: Crowd) {
    && Formed(e) && e.registration.Some? && Balanced(e.registration.value)
    && Started(e, c).phase == Running && Started(e, c).registration.Some? && !Counted(Started(e, c).registration.value)
  }

  /** Such a device may validate, and the `run` that follows leaves the counts wrong. */
  lemma UnboundHolderLeaks(e: Engine, dev: Dev, node: Node, scene: Scene, c: Crowd)
    requires HoldsUnbound(e, dev)
    ensures var (e', answer) := ScoredHandshake(e, dev, node, scene); answer.Accepted? ==> LeaksOnRun(e', c)
  {
    hide Balanced;
    hide Coherent;
    var (e', answer) := ScoredHandshake(e, dev, node, scene);
    if answer.Accepted? {
      ScoredKeepsHolder(e, dev, node, scene);
      hide ScoredHandshake;
      BothBreaksRun(e', dev, c);
    }
    hide Released;
    hide Validated;
    hide LeaksOnRun;
  }

  /** A device that both reserves and holds a role leaves the counts of a `run` wrong. */
  lemma BothBreaksRun(e: Engine, dev: Dev, c: Crowd)
    requires Formed(e) && e.phase == Setup && Balanced(e.registration.value)
    requires dev in e.registration.value.validated && dev in e.registration.value.assignments
    ensures LeaksOnRun(e, c)
  {
    var r := e.registration.value;
    assert Counted(r) && Declared(r);
    hide Balanced;
    LeakedCount(r, dev);
    MovedElsewhere(r);
    hide Moved;
    hide Counted;
    hide Declared;
    hide Coherent;
    JamsKeepWrongCounts(Moved(r), CandidatesOf(e, e.pool), c);
    hide JammedAll;
    hide CandidatesOf;
  }

  /**
   What an unsafe join costs, as a general fact: the device it leaves with a ROOM role and
   no fixture may then validate, and the `run` that follows leaves the counts wrong.
   */
  lemma StrandedDeviceLeaks(e: Engine, dev: Dev, node: Node, scene: Scene, at: Node, scene': Scene, c: Crowd)
    requires Sound(e) && e.phase == Setup
    requires RoomHandshake(e, dev, node, scene).1.Accepted?
    requires e.room.Some? && !SafeJoin(e, dev, scene)
    ensures var e1, stranded := RoomHandshake(e, dev, node, scene).0, Stranded(e, dev, scene);
      && HoldsUnbound(e1, stranded)
      && var (e2, answer) := ScoredHandshake(e1, stranded, at, scene'); answer.Accepted? ==> LeaksOnRun(e2, c)
  {
    hide Balanced;
    hide Coherent;
    hide SetupSound;
    hide Bound;
    UnsafeJoinStrands(e, dev, node, scene);
    UnboundHolderLeaks(RoomHandshake(e, dev, node, scene).0, Stranded(e, dev, scene), at, scene', c);
    hide RoomHandshake;
    hide ScoredHandshake;
    hide LeaksOnRun;
    hide SafeJoin;
    hide Stranded;
  }

  lemma ScoredKeepsHolder(e: Engine, dev: Dev, node: Node, scene: Scene)
    requires Formed(e) && e.registration.Some? && Balanced(e.registration.value)
    requires ScoredHandshake(e, dev, node, scene).1.Accepted?
    ensures var e' := ScoredHandshake(e, dev, node, scene).0;
      && e'.phase == e.phase && e'.registration.Some? && Balanced(e'.registration.value)
      && e'.registration.value.assignments == e.registration.value.assignments
      && dev in e'.registration.value.validated
  {
    ValidateBalances(e.registration.value, dev, node);
    hide Validated;
    hide Balanced;
    hide Released;
    hide Coherent;
  }

  const ROOM_NODE := Node("room")
  const PLAY_NODE := Node("play")
  const ROOM_ROLE := Role(Plain("room_demo"), ROOM, Some(2), false, None)
  const PLAY_ROLE := Role(Plain("player"), UNIQUE, Some(1), true, None)
  const LAMP := Fixture("lamp")

  /** A Room of two fixtures, its first held by device "a", while a one-player Bit is in SETUP. */
  function LampHeldByA(): Engine {
    var t := Table([ROOM_ROLE.name, PLAY_ROLE.name],
                   map[ROOM_ROLE.name := ROOM_ROLE, PLAY_ROLE.name := PLAY_ROLE],
                   map[ROOM_NODE := [ROOM_ROLE.name], PLAY_NODE := [PLAY_ROLE.name]]);
    Engine(Setup,
           Some(Registration(t, None, map[Dev("a") := Assignment(ROOM_NODE, ROOM_ROLE.name, ROOM)], map[],
                             map[ROOM_ROLE.name := 1, PLAY_ROLE.name := 0])),
           [Dev("a"), Dev("b")], Some(map[LAMP := Dev("a")]), {}, 1)
  }

  lemma LampTable()
    ensures var t := LampHeldByA().registration.value.table; WellFormed(t) && ScoredCap(t, None) == Some(1)
  {
    var t := LampHeldByA().registration.value.table;
    assert t.order[..1] == [ROOM_ROLE.name] && t.order[..1][..0] == [];
    assert CapacitySum(t.roles, []) == Some(0);
    assert CapacitySum(t.roles, t.order[..1]) == Some(0);
    assert CapacitySum(t.roles, t.order) == Some(1);
  }

  lemma LampCounts()
    ensures Counted(LampHeldByA().registration.value) && Declared(LampHeldByA().registration.value)
  {
    var r := LampHeldByA().registration.value;
    assert Holding(r.assignments, ROOM_ROLE.name) == {Dev("a")};
    assert Holding(r.assignments, PLAY_ROLE.name) == {};
    assert Reserving(r.validated, ROOM_ROLE.name) == {} && Reserving(r.validated, PLAY_ROLE.name) == {};
  }

  lemma LampIsBalanced()
    ensures Balanced(LampHeldByA().registration.value)
  {
    LampTable();
    LampCounts();
    hide WellFormed;
    hide ScoredCap;
    hide Counted;
    hide Declared;
  }

  lemma LampBound()
    ensures Bound(LampHeldByA()) == {Dev("a")}
  {
    var e := LampHeldByA();
    assert LAMP in e.room.value && e.room.value[LAMP] == Dev("a");
  }

  lemma LampIsSound()
    ensures Sound(LampHeldByA())
  {
    hide Balanced;
    hide Coherent;
    hide SetupSound;
    LampIsBalanced();
    BalancedIsCoherent(LampHeldByA().registration.value);
    LampSetup();
  }

  lemma LampSetup()
    ensures SetupSound(LampHeldByA())
  {
    hide Bound;
    LampBound();
  }

  /** A tap by "b" at the Room's node: the lamp armed all along, or its window expired as the tap was handled. */
  predicate LampTap(scene: Scene) { scene.open && (scene.armed == Some(LAMP) || scene.armed.None?) }

  lemma LampTapStrands(scene: Scene)
    requires LampTap(scene)
    ensures LampHeldByA().registration.Some? && LampHeldByA().room.Some? && !SafeJoin(LampHeldByA(), Dev("b"), scene)
    ensures Stranded(LampHeldByA(), Dev("b"), scene) == if scene.armed.Some? then Dev("a") else Dev("b")
  {
    assert Dev("a") != Dev("b") by { assert "a"[0] != "b"[0]; }
  }

  lemma LampTapped(scene: Scene)
    requires LampTap(scene)
    ensures Sound(LampHeldByA()) && RoomHandshake(LampHeldByA(), Dev("b"), ROOM_NODE, scene).1.Accepted?
  {
    hide Balanced;
    hide Coherent;
    hide SetupSound;
    LampIsSound();
    LampJoins(scene);
    hide Joins;
    hide RoomHandshake;
    JoinsMeans(LampHeldByA(), Dev("b"), Some(ROOM_NODE), scene);
  }

  lemma LampJoins(scene: Scene)
    requires LampTap(scene)
    ensures Formed(LampHeldByA()) && Joins(LampHeldByA(), Dev("b"), Some(ROOM_NODE), scene)
  {
    hide Balanced;
    hide Coherent;
    hide SetupSound;
    hide WellFormed;
    hide Candidates;
    hide FirstRoom;
    LampIsSound();
    LampFirstRoom();
  }

  lemma LampFirstRoom()
    ensures var t := LampHeldByA().registration.value.table;
      WellFormed(t) && FirstRoom(t, Candidates(t, ROOM_NODE)) == Some(ROOM_ROLE.name)
  {
    LampTable();
    hide WellFormed;
    hide ScoredCap;
    var t := LampHeldByA().registration.value.table;
    assert Candidates(t, ROOM_NODE) == [ROOM_ROLE.name];
    assert FirstRoom(t, [ROOM_ROLE.name]) == Some(ROOM_ROLE.name);
  }

  /** The Bit's table and an empty lobby, ROOM roles apart. */
  ghost predicate LobbyEmpty(r: Registration) {
    && Balanced(r) && r.table == LampHeldByA().registration.value.table && r.maxScored == None && r.validated == map[]
    && forall d :: d in r.assignments ==> r.assignments[d].roleClass == ROOM
  }

  lemma LampAfterTap(scene: Scene)
    requires LampTap(scene)
    ensures Sound(LampHeldByA())
    ensures var e1 := RoomHandshake(LampHeldByA(), Dev("b"), ROOM_NODE, scene).0;
      e1.registration.Some? && LobbyEmpty(e1.registration.value)
  {
    LampTapped(scene);
    RoomGrant(LampHeldByA(), Dev("b"), ROOM_NODE, scene);
    var r1 := RoomHandshake(LampHeldByA(), Dev("b"), ROOM_NODE, scene).0.registration.value;
    hide RoomHandshake;
    hide Balanced;
    hide Coherent;
    hide SetupSound;
    assert r1.validated.Keys == {};
    assert r1.validated == map[];
  }

  /** With the lobby empty the play node still has its one slot, for whoever comes. */
  lemma ThenPlays(e: Engine, dev: Dev, scene: Scene)
    requires Formed(e) && e.registration.Some? && LobbyEmpty(e.registration.value)
    ensures ScoredHandshake(e, dev, PLAY_NODE, scene).1 == Accepted(PLAY_ROLE.name)
  {
    var r := e.registration.value;
    NobodyPlays(r);
    PlaySlotIsOpen(r, dev);
    ValidateBalances(r, dev, PLAY_NODE);
    hide Balanced;
    hide Coherent;
    hide Validated;
    hide Released;
  }

  lemma NobodyPlays(r: Registration)
    requires LobbyEmpty(r)
    ensures PLAY_ROLE.name in r.counts && r.counts[PLAY_ROLE.name] == 0
  {
    hide WellFormed;
    hide WithinCapacity;
    assert Holding(r.assignments, PLAY_ROLE.name) == {};
    assert Reserving(r.validated, PLAY_ROLE.name) == {};
  }

  lemma PlaySlotIsOpen(r: Registration, dev: Dev)
    requires LobbyEmpty(r) && PLAY_ROLE.name in r.counts && r.counts[PLAY_ROLE.name] == 0
    ensures Coherent(r) && Validated(r, dev, PLAY_NODE).1 == Granted(PLAY_ROLE.name)
  {
    BalancedIsCoherent(r);
    LampTable();
    hide Balanced;
    hide CountedRoles;
    hide ScoredCap;
    assert r.table.nodes[PLAY_NODE] == [PLAY_ROLE.name] && r.table.roles[PLAY_ROLE.name] == PLAY_ROLE;
    assert FirstOpen(r, [PLAY_ROLE.name]) == Some(PLAY_ROLE.name);
    hide WellFormed;
  }

  function FirstTap(scene: Scene): Op { Shake(Dev("b"), 0, Some(ROOM_NODE), scene) }

  function ThenPlay(dev: Dev, scene: Scene): Op { Shake(dev, 1, Some(PLAY_NODE), scene) }

  lemma LampRoomNode()
    ensures Formed(LampHeldByA()) && WellFormed(LampHeldByA().registration.value.table)
    ensures IsRoomNode(LampHeldByA().registration.value.table, ROOM_NODE)
  {
    hide SetupSound;
    hide Balanced;
    hide Coherent;
    hide WellFormed;
    LampIsSound();
    LampFirstRoom();
  }

  lemma FirstTapStep(scene: Scene)
    requires LampTap(scene)
    ensures Sound(LampHeldByA())
    ensures var e1 := RoomHandshake(LampHeldByA(), Dev("b"), ROOM_NODE, scene).0;
      && Step(LampHeldByA(), FirstTap(scene)) == e1
      && e1.registration.Some? && LobbyEmpty(e1.registration.value)
      && e1.pool == LampHeldByA().pool && e1.phase == Setup && e1.round == 1
  {
    hide Balanced;
    hide Coherent;
    hide SetupSound;
    hide LobbyEmpty;
    hide RoomTaken;
    hide RoomHandshake;
    hide IsRoomNode;
    hide WellFormed;
    hide LampTap;
    LampTapped(scene);
    LampAfterTap(scene);
    LampRoomNode();
    RoomGrant(LampHeldByA(), Dev("b"), ROOM_NODE, scene);
  }

  lemma ThenPlayStep(e: Engine, dev: Dev, scene: Scene)
    requires Formed(e) && e.registration.Some? && LobbyEmpty(e.registration.value)
    requires e.pool == LampHeldByA().pool && e.phase == Setup && e.round == 1 && dev in e.pool && dev !in Bound(e)
    ensures Step(e, ThenPlay(dev, scene)) == ScoredHandshake(e, dev, PLAY_NODE, scene).0
  {
    hide Balanced;
    hide Coherent;
    hide Bound;
    hide ScoredHandshake;
    var t := e.registration.value.table;
    LampTable();
    hide WellFormed;
    hide ScoredCap;
    assert Candidates(t, PLAY_NODE) == [PLAY_ROLE.name];
    assert FirstRoom(t, [PLAY_ROLE.name]) == FirstRoom(t, []) == None by { assert [PLAY_ROLE.name][1..] == []; }
  }

  /**
   An unsafe join leaks a count. "b" taps at the Room whose lamp "a" stands for. Armed
   again, the lamp goes to "b" and "a" is left with its ROOM role; with the window expired
   as the tap was handled, "b" is left with one and no fixture. Whoever is left takes the
   scored slot, and `run` overwrites its ROOM assignment without giving the count back.
   */
  lemma UnsafeJoinsLeakACount(scene: Scene, scene': Scene, c: Crowd)
    requires LampTap(scene)
    ensures Sound(LampHeldByA())
    ensures var stranded := if scene.armed.Some? then Dev("a") else Dev("b");
      var e := Life(LampHeldByA(), [FirstTap(scene), ThenPlay(stranded, scene'), Start(c)]);
      e.phase == Running && e.registration.Some? && !Counted(e.registration.value)
  {
    var e0, stranded := LampHeldByA(), if scene.armed.Some? then Dev("a") else Dev("b");
    hide Balanced;
    hide Coherent;
    hide SetupSound;
    hide LobbyEmpty;
    hide Bound;
    hide RoomHandshake;
    hide ScoredHandshake;
    hide SafeJoin;
    hide Stranded;
    hide Counted;
    hide Started;
    hide LampTap;
    hide Life;
    LampIsSound();
    LampTapped(scene);
    LampTapStrands(scene);
    FirstTapStep(scene);
    var e1 := RoomHandshake(e0, Dev("b"), ROOM_NODE, scene).0;
    ThenPlays(e1, stranded, scene');
    StrandedDeviceLeaks(e0, Dev("b"), ROOM_NODE, scene, PLAY_NODE, scene', c);
    ThenPlayStep(e1, stranded, scene');
    LifeOfThree(e0, FirstTap(scene), ThenPlay(stranded, scene'), Start(c));
  }

  lemma LifeOfThree(e: Engine, a: Op, b: Op, c: Op)
    requires Formed(e)
    ensures Life(e, [a, b, c]) == Step(Step(Step(e, a), b), c)
  {
    hide Step;
    hide Formed;
    assert [a, b, c][1..] == [b, c] && [b, c][1..] == [c] && [c][1..] == [];
    var e3 := Step(Step(Step(e, a), b), c);
    assert Life(Step(Step(e, a), b), [c]) == Life(e3, []) == e3;
    assert Life(Step(e, a), [b, c]) == e3;
  }
}
