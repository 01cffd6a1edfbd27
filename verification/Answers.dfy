/**
 control/registration.py, control/jam_role.py and control/engine.py: what a join, a jam or a
 handshake comes to, told from the roles a Bit declares and from who holds what.

 `ValidateExactly` says when a device is granted a scored role, which one, and why it is
 refused one otherwise; `RoomJoinExactly` the same of a Room's node, `JamExactly` of the
 role a walk-up gets, `HandshakeMeansExactly` of a whole handshake. `CapIsPlaces` is what the
 scored cap counts.
 */
module Answers {
  import opened Wrappers
  import opened Registrations
  import opened Engines

  // ---- the scored places of a Bit -------------------------------------------------------

  ghost predicate Bounded(role: Role) { role.scored && role.roleClass != ROOM ==> role.capacity.Some? }

  ghost predicate AllBounded(t: Table) { forall n :: n in t.roles ==> Bounded(t.roles[n]) }

  /** The k-th place of a scored role. */
  ghost predicate Place(role: Role, k: int) {
    role.scored && role.roleClass != ROOM && role.capacity.Some? && 0 <= k < role.capacity.value
  }

  ghost function PlacesOf(role: Role): set<(RoleName, int)> {
    if role.capacity.None? then {} else set k | 0 <= k < role.capacity.value && Place(role, k) :: (role.name, k)
  }

  ghost function PlacesIn(roles: map<RoleName, Role>, names: set<RoleName>): set<(RoleName, int)>
    requires names <= roles.Keys
  {
    set n, p | n in names && p in PlacesOf(roles[n]) :: p
  }

  /** Every place of every scored role that is bounded. */
  ghost function Places(t: Table): set<(RoleName, int)> { PlacesIn(t.roles, t.roles.Keys) }

  /** `n` devices may be validated at once: no more than the Bit says, and than its scored roles have places. */
  ghost predicate Allowed(t: Table, maxScored: Option<nat>, n: nat) {
    && (maxScored.Some? ==> n <= maxScored.value)
    && (AllBounded(t) ==> n <= |Places(t)|)
  }

  lemma {:induction false} Numbered(name: RoleName, m: nat)
    ensures |set k | 0 <= k < m :: (name, k)| == m
  {
    if m > 0 {
      Numbered(name, m - 1);
      assert (set k | 0 <= k < m :: (name, k)) == (set k | 0 <= k < m - 1 :: (name, k)) + {(name, m - 1)};
    }
  }

  lemma PlacesOfSize(role: Role)
    ensures |PlacesOf(role)| == if Scoring(role) && role.capacity.Some? then role.capacity.value else 0
  {
    if role.capacity.Some? {
      Numbered(role.name, role.capacity.value);
      if Scoring(role) {
        assert PlacesOf(role) == set k | 0 <= k < role.capacity.value :: (role.name, k);
      } else {
        assert PlacesOf(role) == {};
      }
    }
  }

  lemma PlacesWith(roles: map<RoleName, Role>, names: set<RoleName>, name: RoleName)
    requires names + {name} <= roles.Keys && name !in names && forall n :: n in roles ==> roles[n].name == n
    ensures |PlacesIn(roles, names + {name})| == |PlacesIn(roles, names)| + |PlacesOf(roles[name])|
  {
    assert PlacesIn(roles, names + {name}) == PlacesIn(roles, names) + PlacesOf(roles[name]);
    forall p | p in PlacesIn(roles, names) ensures p !in PlacesOf(roles[name]) {
      assert p.0 in names;
    }
  }

  lemma {:induction false} SumIsPlaces(roles: map<RoleName, Role>, order: seq<RoleName>)
    requires forall n :: n in roles ==> roles[n].name == n
    requires forall i, j :: 0 <= i < j < |order| ==> order[i] != order[j]
    requires forall n :: n in order ==> n in roles
    ensures var names := set n | n in order;
      match CapacitySum(roles, order)
      case Some(sum) => sum == |PlacesIn(roles, names)| && forall n :: n in order ==> Bounded(roles[n])
      case None => exists n :: n in order && !Bounded(roles[n])
  {
    var names := set n | n in order;
    if order == [] {
      assert names == {};
      assert PlacesIn(roles, names) == {};
    } else {
      var rest, last := order[..|order| - 1], order[|order| - 1];
      assert order == rest + [last];
      SumIsPlaces(roles, rest);
      var before := set n | n in rest;
      assert names == before + {last};
      PlacesOfSize(roles[last]);
      PlacesWith(roles, before, last);
      hide PlacesIn;
      hide PlacesOf;
    }
  }

  /** The cap is what the Bit allows and its scored roles have places for. */
  lemma CapIsPlaces(t: Table, maxScored: Option<nat>, n: nat)
    requires WellFormed(t)
    ensures (ScoredCap(t, maxScored).Some? ==> n <= ScoredCap(t, maxScored).value) <==> Allowed(t, maxScored, n)
  {
    SumIsPlaces(t.roles, t.order);
    assert (set n | n in t.order) == t.roles.Keys;
    hide PlacesIn;
    hide CapacitySum;
    hide Bounded;
  }

  // ---- validate -------------------------------------------------------------------------------

  /** A declared role some place of which is free. */
  ghost predicate Free(r: Registration, n: RoleName) {
    n in r.table.roles && n in r.counts
    && (r.table.roles[n].capacity.Some? ==> r.counts[n] < r.table.roles[n].capacity.value)
  }

  ghost predicate IsScored(t: Table, n: RoleName) { n in t.roles && t.roles[n].scored && t.roles[n].roleClass != ROOM }

  /** What a node lists, nothing when the Bit declares no such node. */
  ghost predicate Lists(t: Table, node: Node, i: int, n: RoleName) {
    node in t.nodes && 0 <= i < |t.nodes[node]| && t.nodes[node][i] == n
  }

  /** The i-th role a node lists, scored and with a place free. */
  ghost predicate Offers(r: Registration, node: Node, i: int, n: RoleName) {
    Lists(r.table, node, i, n) && IsScored(r.table, n) && Free(r, n)
  }

  ghost predicate OffersFirst(r: Registration, node: Node, i: int, n: RoleName) {
    Offers(r, node, i, n) && forall j, m :: Offers(r, node, j, m) ==> i <= j
  }

  ghost predicate OffersAny(r: Registration, node: Node) { exists i, n :: Offers(r, node, i, n) }

  ghost predicate ListsNothing(t: Table, node: Node) { forall i, n :: !Lists(t, node, i, n) }

  ghost predicate ListsScored(t: Table, node: Node) { exists i, n :: Lists(t, node, i, n) && IsScored(t, n) }

  lemma {:induction false} FirstOpenMeans(r: Registration, candidates: seq<RoleName>)
    requires Coherent(r) && forall n :: n in candidates ==> n in r.table.roles
    ensures match FirstOpen(r, candidates)
            case Some(n) =>
              exists i :: 0 <= i < |candidates| && candidates[i] == n && IsScored(r.table, n) && Free(r, n)
                          && forall j :: 0 <= j < i ==> !(IsScored(r.table, candidates[j]) && Free(r, candidates[j]))
            case None =>
              forall j :: 0 <= j < |candidates| ==> !(IsScored(r.table, candidates[j]) && Free(r, candidates[j]))
  {
    if candidates != [] {
      var n, rest := candidates[0], candidates[1..];
      FullMeans(r, n);
      FirstOpenMeans(r, rest);
      hide Coherent;
      hide IsScored;
      hide Free;
      hide Full;
      hide Scoring;
      if FirstOpen(r, rest).Some? && FirstOpen(r, candidates) != Some(n) {
        var i :| 0 <= i < |rest| && rest[i] == FirstOpen(r, rest).value && IsScored(r.table, rest[i])
          && Free(r, rest[i]) && forall j :: 0 <= j < i ==> !(IsScored(r.table, rest[j]) && Free(r, rest[j]));
        assert candidates[i + 1] == rest[i];
        forall j | 0 <= j < i + 1 ensures !(IsScored(r.table, candidates[j]) && Free(r, candidates[j])) {
          assert j > 0 ==> candidates[j] == rest[j - 1];
        }
      }
    }
  }

  lemma FullMeans(r: Registration, n: RoleName)
    requires Coherent(r) && n in r.table.roles
    ensures Scoring(r.table.roles[n]) <==> IsScored(r.table, n)
    ensures Full(r, r.table.roles[n]) <==> !Free(r, n)
  {
    assert r.table.roles[n].name == n;
  }

  lemma FirstOpenOffers(r: Registration, node: Node)
    requires Coherent(r) && node in r.table.nodes
    ensures match FirstOpen(r, r.table.nodes[node])
            case Some(n) => n in r.counts && OffersAny(r, node) && exists i :: OffersFirst(r, node, i, n)
            case None => !OffersAny(r, node)
  {
    var listed := r.table.nodes[node];
    FirstOpenMeans(r, listed);
    hide Coherent;
    hide IsScored;
    hide Free;
    hide FirstOpen;
    if FirstOpen(r, listed).Some? {
      var n := FirstOpen(r, listed).value;
      var i :| 0 <= i < |listed| && listed[i] == n && IsScored(r.table, n) && Free(r, n)
        && forall j :: 0 <= j < i ==> !(IsScored(r.table, listed[j]) && Free(r, listed[j]));
      assert OffersFirst(r, node, i, n);
    }
  }

  lemma ListsNothingMeans(r: Registration, node: Node)
    ensures ListsNothing(r.table, node) <==> node !in r.table.nodes || r.table.nodes[node] == []
    ensures ListsNothing(r.table, node) ==> !OffersAny(r, node)
  {
    if node in r.table.nodes && r.table.nodes[node] != [] {
      assert Lists(r.table, node, 0, r.table.nodes[node][0]);
    }
  }

  lemma AnyScoringMeans(t: Table, node: Node)
    requires WellFormed(t) && node in t.nodes
    ensures AnyScoring(t, t.nodes[node]) <==> ListsScored(t, node)
  {
    if AnyScoring(t, t.nodes[node]) {
      var n :| n in t.nodes[node] && Scoring(t.roles[n]);
      var i :| 0 <= i < |t.nodes[node]| && t.nodes[node][i] == n;
      assert Lists(t, node, i, n) && IsScored(t, n);
    }
  }

  /** Why a device is refused: scored roles are full, unless the node has none and the Bit would allow one more. */
  ghost function Why(r: Registration, node: Node): Reason {
    if ListsNothing(r.table, node) then NoSuchNode
    else if Allowed(r.table, r.maxScored, |r.validated| + 1) && !ListsScored(r.table, node) then NoSuchNode
    else ScoredFull
  }

  /** The answer to a device that has not validated yet, and what it changes. */
  ghost predicate Judged(r: Registration, dev: Dev, node: Node, r': Registration, join: Join) {
    && (join.Granted? <==> OffersAny(r, node) && Allowed(r.table, r.maxScored, |r.validated| + 1))
    && match join
       case Granted(n) => ReservesAs(r, r', dev, node, n) && exists i :: OffersFirst(r, node, i, n)
       case Denied(reason) => r' == r && reason == Why(r, node)
  }

  /** One place of the role is the device's reservation now. */
  ghost predicate ReservesAs(r: Registration, r': Registration, dev: Dev, node: Node, n: RoleName) {
    && n in r.counts
    && r' == r.(validated := r.validated[dev := Reservation(node, n)], counts := r.counts[n := r.counts[n] + 1])
  }

  /** Refused before the node's roles are looked at. */
  lemma RefusedAtOnce(r: Registration, dev: Dev, node: Node)
    requires Coherent(r) && dev !in r.validated
    requires ListsNothing(r.table, node) || !Allowed(r.table, r.maxScored, |r.validated| + 1)
    ensures var (r', join) := Validated(r, dev, node); Judged(r, dev, node, r', join)
  {
    ListsNothingMeans(r, node);
    CapIsPlaces(r.table, r.maxScored, |r.validated| + 1);
    hide Coherent;
    hide ScoredCap;
    hide Allowed;
    hide FirstOpen;
    hide AnyScoring;
    hide OffersAny;
    hide ListsNothing;
    hide ListsScored;
  }

  /** Decided by the roles the node lists. */
  lemma DecidedBySearch(r: Registration, dev: Dev, node: Node)
    requires Coherent(r) && dev !in r.validated
    requires !ListsNothing(r.table, node) && Allowed(r.table, r.maxScored, |r.validated| + 1)
    ensures var (r', join) := Validated(r, dev, node); Judged(r, dev, node, r', join)
  {
    ListsNothingMeans(r, node);
    CapIsPlaces(r.table, r.maxScored, |r.validated| + 1);
    FirstOpenOffers(r, node);
    AnyScoringMeans(r.table, node);
    hide Coherent;
    hide ScoredCap;
    hide Allowed;
    hide FirstOpen;
    hide AnyScoring;
    hide OffersFirst;
    hide OffersAny;
    hide ListsNothing;
    hide ListsScored;
  }

  /**
   A device that has not validated yet is granted a scored role exactly when its node lists
   one with a place free and the Bit allows one more device; it gets the first such role the
   node lists, one place of it is taken, and nothing else changes. A refused one is told
   that scored roles are full, unless the node lists none and the Bit would allow one more.
   */
  lemma ValidateExactly(r: Registration, dev: Dev, node: Node)
    requires Coherent(r)
    ensures var (r', join) := Validated(r, dev, node);
      if dev in r.validated then r' == r && join == Granted(r.validated[dev].role)
      else Judged(r, dev, node, r', join)
  {
    if dev in r.validated {
      hide ScoredCap;
    } else if ListsNothing(r.table, node) || !Allowed(r.table, r.maxScored, |r.validated| + 1) {
      hide Judged;
      RefusedAtOnce(r, dev, node);
    } else {
      hide Judged;
      DecidedBySearch(r, dev, node);
    }
  }

  // ---- assign and release -----------------------------------------------------------------------

  /** How many places of a role a device takes up, reserving it and holding it. */
  ghost function TakenBy(r: Registration, dev: Dev, n: RoleName): nat {
    (if dev in r.validated && r.validated[dev].role == n then 1 else 0)
    + if dev in r.assignments && r.assignments[dev].role == n then 1 else 0
  }

  ghost function CountOf(r: Registration, n: RoleName): int { if n in r.counts then r.counts[n] else 0 }

  /** A release takes the device out of both maps and gives its places back. */
  lemma ReleaseExactly(r: Registration, dev: Dev)
    requires Coherent(r)
    ensures var r' := Released(r, dev);
      && r' == r.(validated := r'.validated, assignments := r'.assignments, counts := r'.counts)
      && r'.validated == r.validated - {dev} && r'.assignments == r.assignments - {dev}
      && r'.counts.Keys == r.counts.Keys && forall n :: CountOf(r', n) == CountOf(r, n) - TakenBy(r, dev, n)
  {
    ReleasedValue(r, dev);
    hide WellFormed;
  }

  /** The table once a role is assigned: its own role of that name, or else this one, declared last. */
  ghost function TableWith(t: Table, role: Role): Table {
    if role.name in t.roles then t else Table(t.order + [role.name], t.roles[role.name := role], t.nodes)
  }

  /**
   An assignment changes nothing for a device that holds the role already. Otherwise the
   device's places are given back, and it holds this role and takes one place of it.
   */
  lemma AssignExactly(r: Registration, dev: Dev, node: Node, role: Role)
    requires Coherent(r)
    ensures var r' := Assigned(r, dev, node, role);
      if dev in r.assignments && r.assignments[dev].role == role.name then r' == r
      else
        && r'.table == TableWith(r.table, role) && r'.maxScored == r.maxScored
        && r'.validated == r.validated - {dev}
        && r'.assignments == r.assignments[dev := Assignment(node, role.name, role.roleClass)]
        && r'.counts.Keys == r.counts.Keys + {role.name}
        && forall n :: CountOf(r', n) == CountOf(r, n) - TakenBy(r, dev, n) + if n == role.name then 1 else 0
  {
    hide Released;
    hide WithRole;
    hide Added;
    hide Coherent;
    hide TakenBy;
    ReleaseExactly(r, dev);
    var r1 := Released(r, dev);
    WithRoleExactly(r1, role);
    AddedExactly(WithRole(r1, role), dev, node, role);
    AddedAgain(r.assignments, dev, Assignment(node, role.name, role.roleClass));
  }

  lemma WithRoleExactly(r: Registration, role: Role)
    requires Coherent(r)
    ensures var r' := WithRole(r, role);
      && r' == r.(table := TableWith(r.table, role), counts := r'.counts)
      && r'.counts.Keys == r.counts.Keys + {role.name} && forall n :: CountOf(r', n) == CountOf(r, n)
  {
    hide WellFormed;
    hide CountedRoles;
  }

  lemma AddedExactly(r: Registration, dev: Dev, node: Node, role: Role)
    requires Coherent(r) && role.name in r.counts
    ensures var r' := Added(r, dev, node, role);
      && r' == r.(assignments := r.assignments[dev := Assignment(node, role.name, role.roleClass)], counts := r'.counts)
      && r'.counts.Keys == r.counts.Keys
      && forall n :: CountOf(r', n) == CountOf(r, n) + if n == role.name then 1 else 0
  {
    hide Coherent;
  }

  // ---- join_room --------------------------------------------------------------------------------

  ghost predicate IsRoom(t: Table, n: RoleName) { n in t.roles && t.roles[n].roleClass == ROOM }

  /** The first ROOM role a node lists. */
  ghost predicate RoomFirst(t: Table, node: Node, i: int, n: RoleName) {
    Lists(t, node, i, n) && IsRoom(t, n) && forall j, m :: Lists(t, node, j, m) && IsRoom(t, m) ==> i <= j
  }

  ghost predicate ListsRoom(t: Table, node: Node) { exists i, n :: Lists(t, node, i, n) && IsRoom(t, n) }

  lemma {:induction false} FirstRoomMeans(t: Table, candidates: seq<RoleName>)
    requires forall n :: n in candidates ==> n in t.roles
    ensures match FirstRoom(t, candidates)
            case Some(n) =>
              exists i :: 0 <= i < |candidates| && candidates[i] == n && IsRoom(t, n)
                          && forall j :: 0 <= j < i ==> !IsRoom(t, candidates[j])
            case None => forall j :: 0 <= j < |candidates| ==> !IsRoom(t, candidates[j])
  {
    if candidates != [] {
      var rest := candidates[1..];
      FirstRoomMeans(t, rest);
      if FirstRoom(t, rest).Some? && !IsRoom(t, candidates[0]) {
        var i :| 0 <= i < |rest| && rest[i] == FirstRoom(t, rest).value && IsRoom(t, rest[i])
          && forall j :: 0 <= j < i ==> !IsRoom(t, rest[j]);
        assert candidates[i + 1] == rest[i];
        forall j | 0 <= j < i + 1 ensures !IsRoom(t, candidates[j]) {
          assert j > 0 ==> candidates[j] == rest[j - 1];
        }
      }
    }
  }

  lemma FirstRoomIsFirst(t: Table, node: Node)
    requires WellFormed(t)
    ensures match FirstRoom(t, Candidates(t, node))
            case Some(n) => ListsRoom(t, node) && exists i :: RoomFirst(t, node, i, n)
            case None => !ListsRoom(t, node)
  {
    var listed := Candidates(t, node);
    FirstRoomMeans(t, listed);
    hide WellFormed;
    hide IsRoom;
    hide FirstRoom;
    if FirstRoom(t, listed).Some? {
      var n := FirstRoom(t, listed).value;
      var i :| 0 <= i < |listed| && listed[i] == n && IsRoom(t, n) && forall j :: 0 <= j < i ==> !IsRoom(t, listed[j]);
      assert RoomFirst(t, node, i, n);
    }
  }

  /** Two readings of a node's first ROOM role agree. */
  lemma OneRoomFirst(t: Table, node: Node, i: int, j: int, m: RoleName, n: RoleName)
    requires RoomFirst(t, node, i, m) && RoomFirst(t, node, j, n)
    ensures m == n
  {
  }

  /**
   A join of a Room's node is decided by the first ROOM role the node lists: without one
   there is no such node; a device that does not hold it already needs a place of it free.
   */
  lemma RoomJoinExactly(r: Registration, dev: Dev, node: Node)
    requires Coherent(r)
    ensures var (r', join) := RoomJoined(r, dev, node);
      && (join == Denied(NoSuchNode) <==> !ListsRoom(r.table, node))
      && (join.Denied? ==> r' == r)
      && forall i, n :: RoomFirst(r.table, node, i, n) ==>
        if HoldsRole(r, dev, n) || Free(r, n) then
          join == Granted(n) && r' == Assigned(r, dev, node, r.table.roles[n])
        else join == Denied(RegistrationClosed)
  {
    hide FirstRoom;
    hide RoomFirst;
    hide ListsRoom;
    hide Free;
    hide Full;
    hide HoldsRole;
    hide Assigned;
    hide CountedRoles;
    FirstRoomIsFirst(r.table, node);
    var found := FirstRoom(r.table, Candidates(r.table, node));
    if found.Some? {
      FullMeans(r, found.value);
      var i :| RoomFirst(r.table, node, i, found.value);
      forall j, n | RoomFirst(r.table, node, j, n) ensures n == found.value {
        OneRoomFirst(r.table, node, j, i, n, found.value);
      }
    } else {
      forall i, n ensures !RoomFirst(r.table, node, i, n) {
        RoomFirstLists(r.table, node, i, n);
      }
    }
    hide WellFormed;
  }

  lemma RoomFirstLists(t: Table, node: Node, i: int, n: RoleName)
    ensures RoomFirst(t, node, i, n) ==> ListsRoom(t, node)
  {
  }

  // ---- jam roles --------------------------------------------------------------------------------

  /** A role of the Bit's own that may be given to a walk-up: unscored, no Room's, free, and fit for the device. */
  ghost predicate Suits(r: Registration, dev: Dev, c: Crowd, n: RoleName) {
    && n.Plain? && n in r.table.roles && !r.table.roles[n].scored && r.table.roles[n].roleClass != ROOM
    && Free(r, n) && c.fits(dev, r.table.roles[n])
  }

  ghost predicate IsJam(t: Table, n: RoleName) { n in t.roles && t.roles[n].roleClass == JAM }

  /** Of two declared roles the i-th goes before the j-th: JAM roles first, then in the order declared. */
  ghost predicate Ahead(t: Table, i: int, j: int)
    requires 0 <= i < |t.order| && 0 <= j < |t.order|
  {
    if IsJam(t, t.order[i]) == IsJam(t, t.order[j]) then i <= j else IsJam(t, t.order[i])
  }

  /** The first suiting role of a stretch of the declared order, of the JAM class or of the others. */
  ghost predicate FirstOf(r: Registration, dev: Dev, c: Crowd, order: seq<RoleName>, jam: bool, o: Option<Role>) {
    match o
    case Some(role) =>
      exists i :: 0 <= i < |order| && FirstAt(r, dev, c, order, jam, i) && role == r.table.roles[order[i]]
    case None => forall i :: 0 <= i < |order| ==> !SuitsAs(r, dev, c, order[i], jam)
  }

  ghost predicate SuitsAs(r: Registration, dev: Dev, c: Crowd, n: RoleName, jam: bool) {
    Suits(r, dev, c, n) && IsJam(r.table, n) == jam
  }

  ghost predicate FirstAt(r: Registration, dev: Dev, c: Crowd, order: seq<RoleName>, jam: bool, i: int)
    requires 0 <= i < |order|
  {
    SuitsAs(r, dev, c, order[i], jam) && forall j :: 0 <= j < i ==> !SuitsAs(r, dev, c, order[j], jam)
  }

  lemma {:induction false} FittingOf(r: Registration, dev: Dev, c: Crowd, order: seq<RoleName>, jam: bool)
    requires Coherent(r) && forall n :: n in order ==> n in r.table.roles
    ensures FirstOf(r, dev, c, order, jam, FirstFitting(r, dev, UnscoredOf(r.table, order, jam), c.fits))
  {
    if order != [] {
      var n, rest := order[0], order[1..];
      FittingOf(r, dev, c, rest, jam);
      FullMeans(r, n);
      assert r.table.roles[n].name == n;
      FittingStep(r, dev, c, order, jam);
      hide Coherent;
      var o := FirstFitting(r, dev, UnscoredOf(r.table, rest, jam), c.fits);
      if !SuitsAs(r, dev, c, n, jam) {
        FirstLater(r, dev, c, order, jam, o);
      } else {
        assert FirstAt(r, dev, c, order, jam, 0);
      }
    }
  }

  /** The head of the order, when it suits, and else what its rest gives. */
  lemma FittingStep(r: Registration, dev: Dev, c: Crowd, order: seq<RoleName>, jam: bool)
    requires Coherent(r) && order != [] && forall n :: n in order ==> n in r.table.roles
    ensures FirstFitting(r, dev, UnscoredOf(r.table, order, jam), c.fits)
            == if SuitsAs(r, dev, c, order[0], jam) then Some(r.table.roles[order[0]])
               else FirstFitting(r, dev, UnscoredOf(r.table, order[1..], jam), c.fits)
  {
    var n := order[0];
    FullMeans(r, n);
    assert r.table.roles[n].name == n;
    var role, later := r.table.roles[n], UnscoredOf(r.table, order[1..], jam);
    assert ([role] + later)[1..] == later;
    assert [] + later == later;
    hide Free;
    hide Full;
    hide Coherent;
  }

  lemma FirstLater(r: Registration, dev: Dev, c: Crowd, order: seq<RoleName>, jam: bool, o: Option<Role>)
    requires order != [] && !SuitsAs(r, dev, c, order[0], jam) && FirstOf(r, dev, c, order[1..], jam, o)
    ensures FirstOf(r, dev, c, order, jam, o)
  {
    var rest := order[1..];
    if o.Some? {
      var i :| 0 <= i < |rest| && FirstAt(r, dev, c, rest, jam, i) && o.value == r.table.roles[rest[i]];
      hide Suits;
      assert order[i + 1] == rest[i];
      forall j | 0 <= j < i + 1 ensures !SuitsAs(r, dev, c, order[j], jam) {
        assert j > 0 ==> order[j] == rest[j - 1];
      }
      assert FirstAt(r, dev, c, order, jam, i + 1);
    } else {
      forall i | 0 <= i < |order| ensures !SuitsAs(r, dev, c, order[i], jam) {
        assert i > 0 ==> order[i] == rest[i - 1];
      }
    }
  }

  lemma {:induction false} FittingJoins(r: Registration, dev: Dev, a: seq<Role>, b: seq<Role>, c: Crowd)
    ensures FirstFitting(r, dev, a + b, c.fits)
            == if FirstFitting(r, dev, a, c.fits).Some? then FirstFitting(r, dev, a, c.fits)
               else FirstFitting(r, dev, b, c.fits)
  {
    if a == [] {
      assert a + b == b;
    } else {
      assert (a + b)[1..] == a[1..] + b;
      FittingJoins(r, dev, a[1..], b, c);
    }
  }

  /** The suiting role that goes before every other. */
  ghost predicate Leads(r: Registration, dev: Dev, c: Crowd, i: int) {
    && 0 <= i < |r.table.order| && Suits(r, dev, c, r.table.order[i])
    && forall j :: 0 <= j < |r.table.order| && Suits(r, dev, c, r.table.order[j]) ==> Ahead(r.table, i, j)
  }

  ghost predicate NoneSuits(r: Registration, dev: Dev, c: Crowd) {
    forall i :: 0 <= i < |r.table.order| ==> !Suits(r, dev, c, r.table.order[i])
  }

  /**
   A walk-up gets the suiting role that goes before all others, JAM ones first and each
   group as declared; when none suits, the solo role of the instrument it carries: unscored,
   of the JAM class, unbounded, asking nothing of who fills it.
   */
  lemma JamExactly(r: Registration, dev: Dev, c: Crowd)
    requires Coherent(r)
    ensures var role := JamFor(r, dev, c);
      if NoneSuits(r, dev, c) then role == Role(Solo(c.carried(dev)), JAM, None, false, None)
      else exists i :: Leads(r, dev, c, i) && role == r.table.roles[r.table.order[i]]
  {
    var order := r.table.order;
    FittingOf(r, dev, c, order, true);
    FittingOf(r, dev, c, order, false);
    var jams, others := UnscoredOf(r.table, order, true), UnscoredOf(r.table, order, false);
    FittingJoins(r, dev, jams, others, c);
    hide UnscoredOf;
    hide FirstFitting;
    hide Coherent;
    hide Suits;
    hide IsJam;
    var first, second := FirstFitting(r, dev, jams, c.fits), FirstFitting(r, dev, others, c.fits);
    if first.Some? {
      var i :| 0 <= i < |order| && FirstAt(r, dev, c, order, true, i) && first.value == r.table.roles[order[i]];
      assert Leads(r, dev, c, i);
    } else if second.Some? {
      var i :| 0 <= i < |order| && FirstAt(r, dev, c, order, false, i) && second.value == r.table.roles[order[i]];
      assert SuitsAs(r, dev, c, order[i], false);
      forall j | 0 <= j < |order| && Suits(r, dev, c, order[j]) ensures Ahead(r.table, i, j) {
        assert !SuitsAs(r, dev, c, order[j], true);
      }
      assert Leads(r, dev, c, i);
    } else {
      forall j | 0 <= j < |order| ensures !Suits(r, dev, c, order[j]) {
        assert !SuitsAs(r, dev, c, order[j], true) && !SuitsAs(r, dev, c, order[j], false);
      }
    }
  }

  // ---- a handshake ------------------------------------------------------------------------------

  /** A connected device, and a Bit loaded. */
  ghost predicate Live(e: Engine, dev: Dev) { dev in e.pool && e.registration.Some? }

  /** The handshake names a node of the Room. */
  ghost predicate AtRoom(e: Engine, node: Option<Node>)
    requires e.registration.Some?
  {
    node.Some? && ListsRoom(e.registration.value.table, node.value)
  }

  ghost predicate StandsFor(e: Engine, dev: Dev, f: Fixture) {
    e.room.Some? && f in e.room.value && e.room.value[f] == dev
  }

  ghost predicate Fixed(e: Engine, dev: Dev) { exists f :: StandsFor(e, dev, f) }

  /** The node a handshake is for: the one it names, else the default one. */
  ghost predicate Targets(node: Option<Node>, scene: Scene, target: Node) {
    node == Some(target) || (node.None? && scene.defaultNode == Some(target))
  }

  /** All that is asked of a device before it may validate. */
  ghost predicate MayValidate(e: Engine, dev: Dev, round: nat, node: Option<Node>) {
    Live(e, dev) && !AtRoom(e, node) && !Fixed(e, dev) && e.phase == Setup && round == e.round
  }

  ghost predicate Passes(r: Registration, dev: Dev, n: RoleName, scene: Scene) {
    n in r.table.roles && match r.table.roles[n].slot
                          case None => true
                          case Some(slot) => scene.satisfies(dev, slot)
  }

  ghost predicate ValidatesTo(r: Registration, dev: Dev, node: Node, n: RoleName) {
    if dev in r.validated then n == r.validated[dev].role
    else Allowed(r.table, r.maxScored, |r.validated| + 1) && exists i :: OffersFirst(r, node, i, n)
  }

  ghost predicate JoinsAs(r: Registration, dev: Dev, node: Node, n: RoleName) {
    (HoldsRole(r, dev, n) || Free(r, n)) && exists i :: RoomFirst(r.table, node, i, n)
  }

  ghost predicate RoomMeans(e: Engine, dev: Dev, node: Node, scene: Scene, answer: Answer)
    requires e.registration.Some?
  {
    var r := e.registration.value;
    if !scene.open || e.room.None? then answer == NotArmed
    else match answer
         case Accepted(n) => JoinsAs(r, dev, node, n)
         case Refused(reason) => reason == RegistrationClosed && forall n :: !JoinsAs(r, dev, node, n)
         case _ => false
  }

  ghost predicate ScoredMeans(e: Engine, dev: Dev, node: Node, scene: Scene, answer: Answer)
    requires e.registration.Some?
  {
    var r := e.registration.value;
    match answer
    case Accepted(n) => ValidatesTo(r, dev, node, n) && (dev in r.validated || Passes(r, dev, n, scene))
    case GateRefused =>
      dev !in r.validated && exists n :: ValidatesTo(r, dev, node, n) && !Passes(r, dev, n, scene)
    case Refused(reason) =>
      && dev !in r.validated && !(OffersAny(r, node) && Allowed(r.table, r.maxScored, |r.validated| + 1))
      && reason == Why(r, node)
    case _ => false
  }

  /** What each answer to a handshake tells of the engine it was given in. */
  ghost predicate Means(e: Engine, dev: Dev, round: nat, node: Option<Node>, scene: Scene, answer: Answer) {
    if dev !in e.pool then answer == NotConnected
    else if e.registration.None? then answer == NoBit
    else if AtRoom(e, node) then RoomMeans(e, dev, node.value, scene, answer)
    else match answer
         case IsFixture => Fixed(e, dev)
         case NotInSetup => !Fixed(e, dev) && e.phase != Setup
         case StaleRound => !Fixed(e, dev) && e.phase == Setup && round != e.round
         case NoScoredNode => MayValidate(e, dev, round, node) && forall target :: !Targets(node, scene, target)
         case _ =>
           MayValidate(e, dev, round, node)
           && exists target :: Targets(node, scene, target) && ScoredMeans(e, dev, target, scene, answer)
  }

  lemma RoomHandshakeMeans(e: Engine, dev: Dev, node: Node, scene: Scene)
    requires Formed(e) && e.registration.Some? && ListsRoom(e.registration.value.table, node)
    ensures RoomMeans(e, dev, node, scene, RoomHandshake(e, dev, node, scene).1)
  {
    var r := e.registration.value;
    hide RoomJoined;
    hide RoomFirst;
    hide HoldsRole;
    hide Free;
    hide Assigned;
    RoomJoinExactly(r, dev, node);
    FirstRoomIsFirst(r.table, node);
    hide FirstRoom;
    hide ListsRoom;
    hide Coherent;
    forall i, n | RoomFirst(r.table, node, i, n)
      ensures RoomJoined(r, dev, node).1.Granted? ==> RoomJoined(r, dev, node).1.role == n
    {
    }
  }

  lemma ScoredHandshakeMeans(e: Engine, dev: Dev, node: Node, scene: Scene)
    requires Formed(e) && e.registration.Some?
    ensures ScoredMeans(e, dev, node, scene, ScoredHandshake(e, dev, node, scene).1)
  {
    var r := e.registration.value;
    hide Validated;
    hide Released;
    hide ValidatesTo;
    hide OffersAny;
    hide Allowed;
    hide ListsScored;
    hide Coherent;
    ValidationMeans(r, dev, node);
  }

  lemma ScoredAnswers(e: Engine, dev: Dev, node: Node, scene: Scene)
    requires Formed(e) && e.registration.Some?
    ensures var answer := ScoredHandshake(e, dev, node, scene).1;
      answer.Accepted? || answer.GateRefused? || answer.Refused?
  {
    hide Validated;
    hide Released;
    hide Coherent;
  }

  lemma ValidationMeans(r: Registration, dev: Dev, node: Node)
    requires Coherent(r)
    ensures var (r', join) := Validated(r, dev, node);
      && r'.table == r.table
      && match join
         case Granted(n) => ValidatesTo(r, dev, node, n) && n in r.table.roles
         case Denied(reason) =>
           && dev !in r.validated && !(OffersAny(r, node) && Allowed(r.table, r.maxScored, |r.validated| + 1))
           && reason == Why(r, node)
  {
    ValidateExactly(r, dev, node);
    hide Validated;
    hide Allowed;
    hide OffersFirst;
    hide OffersAny;
    hide Why;
  }

  lemma OneValidation(r: Registration, dev: Dev, node: Node, m: RoleName, n: RoleName)
    requires ValidatesTo(r, dev, node, m) && ValidatesTo(r, dev, node, n)
    ensures m == n
  {
    if dev !in r.validated {
      var i :| OffersFirst(r, node, i, m);
      var j :| OffersFirst(r, node, j, n);
      hide Free;
      hide IsScored;
      assert i == j;
    }
  }

  lemma ValidationIsOffered(r: Registration, dev: Dev, node: Node, n: RoleName)
    requires ValidatesTo(r, dev, node, n) && dev !in r.validated
    ensures OffersAny(r, node) && Allowed(r.table, r.maxScored, |r.validated| + 1)
  {
    hide Allowed;
    hide Offers;
  }

  /** Two answers with the same meaning are the same answer. */
  lemma OneScoredAnswer(e: Engine, dev: Dev, node: Node, scene: Scene, a: Answer, b: Answer)
    requires e.registration.Some? && ScoredMeans(e, dev, node, scene, a) && ScoredMeans(e, dev, node, scene, b)
    ensures a == b
  {
    var r := e.registration.value;
    hide ValidatesTo;
    hide Why;
    hide Passes;
    hide OffersAny;
    hide Allowed;
    forall m, n | ValidatesTo(r, dev, node, m) && ValidatesTo(r, dev, node, n) ensures m == n {
      OneValidation(r, dev, node, m, n);
    }
    forall n | ValidatesTo(r, dev, node, n) && dev !in r.validated
      ensures OffersAny(r, node) && Allowed(r.table, r.maxScored, |r.validated| + 1)
    {
      ValidationIsOffered(r, dev, node, n);
    }
  }

  lemma OneRoomAnswer(e: Engine, dev: Dev, node: Node, scene: Scene, a: Answer, b: Answer)
    requires e.registration.Some? && RoomMeans(e, dev, node, scene, a) && RoomMeans(e, dev, node, scene, b)
    ensures a == b
  {
    var r := e.registration.value;
    hide JoinsAs;
    forall m, n | JoinsAs(r, dev, node, m) && JoinsAs(r, dev, node, n) ensures m == n {
      OneJoin(r, dev, node, m, n);
    }
  }

  lemma OneJoin(r: Registration, dev: Dev, node: Node, m: RoleName, n: RoleName)
    requires JoinsAs(r, dev, node, m) && JoinsAs(r, dev, node, n)
    ensures m == n
  {
    hide RoomFirst;
    var i :| RoomFirst(r.table, node, i, m);
    var j :| RoomFirst(r.table, node, j, n);
    OneRoomFirst(r.table, node, i, j, m, n);
  }

  ghost predicate BeforeScored(answer: Answer) {
    answer.IsFixture? || answer.NotInSetup? || answer.StaleRound? || answer.NoScoredNode?
  }

  /** No two answers to a handshake mean the same. */
  lemma OneAnswer(e: Engine, dev: Dev, round: nat, node: Option<Node>, scene: Scene, a: Answer, b: Answer)
    requires Means(e, dev, round, node, scene, a) && Means(e, dev, round, node, scene, b)
    ensures a == b
  {
    hide ScoredMeans;
    hide RoomMeans;
    hide AtRoom;
    hide Fixed;
    if Live(e, dev) {
      if AtRoom(e, node) {
        NamesNode(e, node);
        OneRoomAnswer(e, dev, node.value, scene, a, b);
      } else if !BeforeScored(a) && !BeforeScored(b) {
        var m :| Targets(node, scene, m) && ScoredMeans(e, dev, m, scene, a);
        var n :| Targets(node, scene, n) && ScoredMeans(e, dev, n, scene, b);
        assert m == n;
        OneScoredAnswer(e, dev, m, scene, a, b);
      }
    }
  }

  lemma NamesNode(e: Engine, node: Option<Node>)
    requires e.registration.Some? && AtRoom(e, node)
    ensures node.Some?
  {
  }

  /** A handshake's answer is the one that means what is so: each is given exactly in its own case. */
  lemma HandshakeMeansExactly(e: Engine, dev: Dev, round: nat, node: Option<Node>, scene: Scene, answer: Answer)
    requires Formed(e)
    ensures Handshaken(e, dev, round, node, scene).1 == answer <==> Means(e, dev, round, node, scene, answer)
  {
    HandshakeMeans(e, dev, round, node, scene);
    hide Means;
    hide Handshaken;
    if Means(e, dev, round, node, scene, answer) {
      OneAnswer(e, dev, round, node, scene, answer, Handshaken(e, dev, round, node, scene).1);
    }
  }

  lemma HandshakeMeans(e: Engine, dev: Dev, round: nat, node: Option<Node>, scene: Scene)
    requires Formed(e)
    ensures Means(e, dev, round, node, scene, Handshaken(e, dev, round, node, scene).1)
  {
    hide RoomHandshake;
    hide ScoredHandshake;
    hide RoomMeans;
    hide ScoredMeans;
    hide ListsRoom;
    hide FirstRoom;
    if Live(e, dev) {
      if node.Some? {
        FirstRoomIsFirst(e.registration.value.table, node.value);
        if ListsRoom(e.registration.value.table, node.value) {
          RoomHandshakeMeans(e, dev, node.value, scene);
        }
      }
      FixedIsBound(e, dev);
      if node.Some? || scene.defaultNode.Some? {
        var target := if node.Some? then node.value else scene.defaultNode.value;
        assert Targets(node, scene, target);
        ScoredHandshakeMeans(e, dev, target, scene);
        ScoredAnswers(e, dev, target, scene);
      }
    }
    hide Coherent;
    hide Bound;
    hide Fixed;
  }

  lemma FixedIsBound(e: Engine, dev: Dev)
    ensures Fixed(e, dev) <==> dev in Bound(e)
  {
    if dev in Bound(e) {
      var f :| f in e.room.value && e.room.value[f] == dev;
      assert StandsFor(e, dev, f);
    }
  }

  /** The fixture still armed is bound to the device. */
  ghost predicate BindsAs(e: Engine, e': Engine, dev: Dev, armed: Option<Fixture>) {
    match armed
    case None => e'.room == e.room
    case Some(f) => e.room.Some? && e'.room == Some(e.room.value[f := dev])
  }

  /** What an accepted handshake does: a Room's role and the fixture armed, or a reservation, or nothing new. */
  ghost predicate Does(e: Engine, e': Engine, dev: Dev, node: Option<Node>, scene: Scene, n: RoleName)
    requires e.registration.Some?
  {
    var r := e.registration.value;
    && e'.registration.Some? && e' == e.(registration := e'.registration, room := e'.room)
    && if AtRoom(e, node) then
         && BindsAs(e, e', dev, scene.armed)
         && n in r.table.roles && Coherent(r) && e'.registration.value == Assigned(r, dev, node.value, r.table.roles[n])
       else if dev in r.validated then e' == e
       else
         && e'.room == e.room
         && exists target :: Targets(node, scene, target) && ReservesAs(r, e'.registration.value, dev, target, n)
  }

  lemma RoomJoinDoes(r: Registration, dev: Dev, node: Node)
    requires Coherent(r)
    ensures var (r', join) := RoomJoined(r, dev, node);
      join.Granted? ==> join.role in r.table.roles && r' == Assigned(r, dev, node, r.table.roles[join.role])
  {
    hide Assigned;
    hide CountedRoles;
  }

  lemma RoomHandshakeDoes(e: Engine, dev: Dev, node: Node, scene: Scene)
    requires Formed(e) && e.registration.Some? && ListsRoom(e.registration.value.table, node)
    ensures var (e', answer) := RoomHandshake(e, dev, node, scene);
      answer.Accepted? ==> Does(e, e', dev, Some(node), scene, answer.role)
  {
    hide RoomJoined;
    hide Assigned;
    hide ListsRoom;
    hide Coherent;
    RoomJoinDoes(e.registration.value, dev, node);
  }

  lemma ValidationDoes(r: Registration, dev: Dev, node: Node)
    requires Coherent(r)
    ensures var (r', join) := Validated(r, dev, node);
      join.Granted? && dev !in r.validated ==> ReservesAs(r, r', dev, node, join.role)
  {
    ValidateExactly(r, dev, node);
    hide Validated;
    hide OffersFirst;
    hide OffersAny;
    hide Allowed;
    hide ListsNothing;
    hide ListsScored;
    hide Coherent;
  }

  lemma ScoredHandshakeDoes(e: Engine, dev: Dev, node: Option<Node>, target: Node, scene: Scene)
    requires Formed(e) && e.registration.Some? && !AtRoom(e, node) && Targets(node, scene, target)
    ensures var (e', answer) := ScoredHandshake(e, dev, target, scene);
      answer.Accepted? ==> Does(e, e', dev, node, scene, answer.role)
  {
    hide Validated;
    hide Released;
    hide AtRoom;
    hide Targets;
    hide ReservesAs;
    hide Coherent;
    ValidationDoes(e.registration.value, dev, target);
  }

  lemma HandshakeDoes(e: Engine, dev: Dev, round: nat, node: Option<Node>, scene: Scene)
    requires Formed(e)
    ensures var (e', answer) := Handshaken(e, dev, round, node, scene);
      answer.Accepted? ==> e.registration.Some? && Does(e, e', dev, node, scene, answer.role)
  {
    hide RoomHandshake;
    hide ScoredHandshake;
    hide Does;
    hide ListsRoom;
    hide FirstRoom;
    if Live(e, dev) {
      if node.Some? {
        FirstRoomIsFirst(e.registration.value.table, node.value);
        if ListsRoom(e.registration.value.table, node.value) {
          RoomHandshakeDoes(e, dev, node.value, scene);
        }
      }
      if !AtRoom(e, node) && (node.Some? || scene.defaultNode.Some?) {
        ScoredHandshakeDoes(e, dev, node, if node.Some? then node.value else scene.defaultNode.value, scene);
      }
    }
    hide Coherent;
    hide Bound;
  }

  // ---- first contact and silence ------------------------------------------------------------------

  /** A device that gets a jam role the moment it comes: no fixture, no admin, and without a role. */
  ghost predicate WalksUp(e: Engine, dev: Dev) {
    e.phase == Running && e.registration.Some? && dev !in e.registration.value.assignments
    && dev !in e.admins && !Fixed(e, dev)
  }

  /** First contact pools the device, last; a walk-up is assigned the role `JamExactly` finds; nothing else changes. */
  lemma HelloExactly(e: Engine, dev: Dev, c: Crowd)
    requires Formed(e)
    ensures var e' := Helloed(e, dev, c);
      && e'.pool == (if dev in e.pool then e.pool else e.pool + [dev])
      && e' == e.(pool := e'.pool, registration := e'.registration)
      && if WalksUp(e, dev) then
           var r := e.registration.value;
           e'.registration == Some(Assigned(r, dev, Node(""), JamFor(r, dev, c)))
         else e'.registration == e.registration
  {
    FixedIsBound(e, dev);
    assert Bound(Pooled(e, dev)) == Bound(e);
    hide Fixed;
    hide Bound;
    hide Assigned;
    hide JamFor;
    hide CountedRoles;
    hide WellFormed;
  }

  /** A silent device leaves the pool and gives back all it has, unless it stands for a fixture; no other is touched. */
  lemma ReapExactly(e: Engine, dev: Dev)
    requires Formed(e)
    ensures var e' := Reaped(e, dev);
      if Fixed(e, dev) then e' == e
      else
        && (forall d :: d in e'.pool <==> d in e.pool && d != dev)
        && e' == e.(pool := e'.pool, registration := e'.registration)
        && e'.registration.Some? == e.registration.Some?
        && (e.registration.Some? ==>
              var r, r' := e.registration.value, e'.registration.value;
              && r'.validated == r.validated - {dev} && r'.assignments == r.assignments - {dev} && r'.table == r.table
              && forall n :: CountOf(r', n) == CountOf(r, n) - TakenBy(r, dev, n))
  {
    FixedIsBound(e, dev);
    hide Fixed;
    hide Bound;
    hide Released;
    if e.registration.Some? {
      ReleaseExactly(e.registration.value, dev);
    }
    hide Coherent;
    hide TakenBy;
    hide CountOf;
  }

  /** A Bit is overcapped when it allows more than its scored roles, all bounded, have places for. */
  lemma OvercappedExactly(t: BitTable, maxScored: Option<nat>)
    ensures Overcapped(t, maxScored) <==> maxScored.Some? && AllBounded(t) && maxScored.value > |Places(t)|
  {
    if maxScored.Some? {
      CapIsPlaces(t, None, maxScored.value);
    }
    hide ScoredCap;
    hide Places;
    hide AllBounded;
  }

  /** A load goes ahead only from IDLE, of a Bit that does not allow more than it has places for; then all is new. */
  lemma LoadExactly(e: Engine, t: BitTable, maxScored: Option<nat>)
    requires Formed(e)
    ensures var e' := Loaded(e, Some(t), maxScored);
      if e.phase != Idle || (maxScored.Some? && AllBounded(t) && maxScored.value > |Places(t)|) then e' == e
      else
        && e'.phase == Setup && e'.round == e.round + 1 && e'.registration.Some?
        && e' == e.(phase := Setup, round := e'.round, registration := e'.registration)
        && var r := e'.registration.value;
           && r.table == t && r.maxScored == maxScored && r.assignments == map[] && r.validated == map[]
           && r.counts.Keys == t.roles.Keys && forall n :: CountOf(r, n) == 0
  {
    OvercappedExactly(t, maxScored);
    hide Overcapped;
    hide Places;
    hide AllBounded;
    hide WellFormed;

  }
}
