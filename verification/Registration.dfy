/**
 control/registration.py: who holds which role of the loaded Bit.

 `Registration` is the state as a value, one function per operation; the class
 `RegistrationState` is the source's object. `Coherent` is all an operation asks of the
 state it works on, and every operation keeps it. `Balanced` is the book-keeping: each
 role's count is the number of devices reserving or holding it, and no bounded role, nor
 the scored cap, is exceeded. Three operations keep it always (`ValidateBalances`,
 `RoomJoinBalances`, `ReleaseBalances`), the others exactly under a condition
 (`AssignBalancesExactly`, `MovedBalancesExactly`, `JamBalancesExactly`).
 */
module Registrations {
  import opened Wrappers

  datatype Dev = Dev(id: string)

  datatype Node = Node(id: string)

  /** A role's name; `Solo(i)` is the name "solo:" + i, the role synthesized for instrument i. */
  datatype RoleName = Plain(text: string) | Solo(instrument: string)

  datatype RoleClass = UNIQUE | SHARED | JAM | ROOM

  /** The fields of `control/roles.py`'s Role that registration reads; `slot` is `requires`. */
  datatype Role = Role(name: RoleName, roleClass: RoleClass, capacity: Option<nat>, scored: bool, slot: Option<string>)

  datatype Reservation = Reservation(node: Node, role: RoleName)

  datatype Assignment = Assignment(node: Node, role: RoleName, roleClass: RoleClass)

  datatype Reason = NoSuchNode | ScoredFull | RegistrationClosed

  datatype Join = Granted(role: RoleName) | Denied(reason: Reason)

  /** `control/roles.py`'s RoleTable; `order` is the order the roles were declared in. */
  datatype Table = Table(order: seq<RoleName>, roles: map<RoleName, Role>, nodes: map<Node, seq<RoleName>>)

  datatype Registration = Registration(
    table: Table, maxScored: Option<nat>,
    assignments: map<Dev, Assignment>, validated: map<Dev, Reservation>, counts: map<RoleName, int>)

  // ---- the invariant ---------------------------------------------------------------

  /** A Bit's table: roles under their own names, nodes naming declared roles. */
  ghost predicate WellFormed(t: Table) {
    && (forall i, j :: 0 <= i < j < |t.order| ==> t.order[i] != t.order[j])
    && (forall n :: n in t.order <==> n in t.roles)
    && (forall n :: n in t.roles ==> t.roles[n].name == n)
    && (forall node :: node in t.nodes ==> forall n :: n in t.nodes[node] ==> n in t.roles)
  }

  predicate Scoring(role: Role) { role.scored && role.roleClass != ROOM }

  ghost function Reserving(v: map<Dev, Reservation>, role: RoleName): set<Dev> { set d | d in v && v[d].role == role }

  ghost function Holding(a: map<Dev, Assignment>, role: RoleName): set<Dev> { set d | d in a && a[d].role == role }

  /** Reservations are of scored roles, assignments of roles as the table has them. */
  ghost predicate Declared(r: Registration) {
    && (forall d :: d in r.validated ==>
          r.validated[d].role in r.table.roles && Scoring(r.table.roles[r.validated[d].role]))
    && forall d :: d in r.assignments ==>
         r.assignments[d].role in r.table.roles
         && r.assignments[d].roleClass == r.table.roles[r.assignments[d].role].roleClass
  }

  /** Each role's count is the number of devices reserving or holding it. */
  ghost predicate Counted(r: Registration) {
    && r.counts.Keys == r.table.roles.Keys
    && forall n :: n in r.counts ==> r.counts[n] == |Reserving(r.validated, n)| + |Holding(r.assignments, n)|
  }

  /** No bounded role holds more than its capacity, and no more devices validate than the cap. */
  ghost predicate WithinCapacity(r: Registration)
    requires r.counts.Keys == r.table.roles.Keys && WellFormed(r.table)
  {
    && (forall n :: n in r.counts && r.table.roles[n].capacity.Some? ==> r.counts[n] <= r.table.roles[n].capacity.value)
    && (ScoredCap(r.table, r.maxScored).Some? ==> |r.validated| <= ScoredCap(r.table, r.maxScored).value)
  }

  ghost predicate Balanced(r: Registration) {
    WellFormed(r.table) && Declared(r) && Counted(r) && WithinCapacity(r)
  }

  /** Every role in use is one of the table's, and every one of the table's has a count. */
  ghost predicate Coherent(r: Registration) {
    WellFormed(r.table) && r.counts.Keys == r.table.roles.Keys && CountedRoles(r)
  }

  ghost predicate CountedRoles(r: Registration) {
    && (forall d :: d in r.validated ==> r.validated[d].role in r.counts)
    && (forall d :: d in r.assignments ==> r.assignments[d].role in r.counts)
  }

  /** What a Bit declares. */
  type BitTable = t: Table | WellFormed(t) ghost witness Table([], map[], map[])

  /** A Bit just loaded. */
  function NewRegistration(t: Table, maxScored: Option<nat>): (r: Registration)
    requires WellFormed(t)
    ensures Coherent(r)
  {
    Registration(t, maxScored, map[], map[], map n | n in t.roles :: 0)
  }

  predicate Full(r: Registration, role: Role) {
    role.capacity.Some? && role.name in r.counts && r.counts[role.name] >= role.capacity.value
  }

  // ---- scored_cap --------------------------------------------------------------------

  /** The scored roles' capacities summed; None once one is unbounded. */
  function CapacitySum(roles: map<RoleName, Role>, order: seq<RoleName>): Option<nat>
    requires forall n :: n in order ==> n in roles
  {
    if order == [] then Some(0)
    else
      var rest, role := CapacitySum(roles, order[..|order| - 1]), roles[order[|order| - 1]];
      if rest.None? || !Scoring(role) then rest
      else if role.capacity.None? then None
      else Some(rest.value + role.capacity.value)
  }

  function ScoredCap(t: Table, maxScored: Option<nat>): Option<nat>
    requires WellFormed(t)
  {
    var sum := CapacitySum(t.roles, t.order);
    if sum.None? then maxScored
    else if maxScored.Some? && maxScored.value < sum.value then maxScored
    else sum
  }

  // ---- validate ------------------------------------------------------------------------

  /** The first role of a node that scores and has room. */
  function FirstOpen(r: Registration, candidates: seq<RoleName>): (o: Option<RoleName>)
    requires forall n :: n in candidates ==> n in r.table.roles
    ensures o.Some? ==> o.value in candidates && Scoring(r.table.roles[o.value]) && !Full(r, r.table.roles[o.value])
  {
    if candidates == [] then None
    else if Scoring(r.table.roles[candidates[0]]) && !Full(r, r.table.roles[candidates[0]]) then Some(candidates[0])
    else FirstOpen(r, candidates[1..])
  }

  predicate AnyScoring(t: Table, candidates: seq<RoleName>)
    requires forall n :: n in candidates ==> n in t.roles
  {
    exists n :: n in candidates && Scoring(t.roles[n])
  }

  function Reserved(r: Registration, dev: Dev, node: Node, name: RoleName): Registration
    requires name in r.counts
  {
    r.(validated := r.validated[dev := Reservation(node, name)], counts := r.counts[name := r.counts[name] + 1])
  }

  function Validated(r: Registration, dev: Dev, node: Node): (o: (Registration, Join))
    requires Coherent(r)
    ensures Coherent(o.0)
  {
    if dev in r.validated then (r, Granted(r.validated[dev].role))
    else if node !in r.table.nodes || r.table.nodes[node] == [] then (r, Denied(NoSuchNode))
    else if ScoredCap(r.table, r.maxScored).Some? && |r.validated| >= ScoredCap(r.table, r.maxScored).value
    then (r, Denied(ScoredFull))
    else
      match FirstOpen(r, r.table.nodes[node])
      case Some(name) => (Reserved(r, dev, node, name), Granted(name))
      case None => (r, Denied(if AnyScoring(r.table, r.table.nodes[node]) then ScoredFull else NoSuchNode))
  }

  // ---- release ---------------------------------------------------------------------------

  function Unreserved(r: Registration, dev: Dev): (r': Registration)
    requires Coherent(r)
    ensures Coherent(r')
  {
    if dev !in r.validated then r
    else
      var n := r.validated[dev].role;
      r.(validated := r.validated - {dev}, counts := r.counts[n := r.counts[n] - 1])
  }

  function Unassigned(r: Registration, dev: Dev): (r': Registration)
    requires Coherent(r)
    ensures Coherent(r')
  {
    if dev !in r.assignments then r
    else
      var n := r.assignments[dev].role;
      r.(assignments := r.assignments - {dev}, counts := r.counts[n := r.counts[n] - 1])
  }

  function Released(r: Registration, dev: Dev): (r': Registration)
    requires Coherent(r)
    ensures Coherent(r')
  {
    Unassigned(Unreserved(r, dev), dev)
  }

  // ---- assign ------------------------------------------------------------------------------

  predicate HoldsRole(r: Registration, dev: Dev, role: RoleName) {
    dev in r.assignments && r.assignments[dev].role == role
  }

  function WithRole(r: Registration, role: Role): (r': Registration)
    requires Coherent(r)
    ensures Coherent(r') && role.name in r'.counts
  {
    if role.name in r.table.roles then r
    else
      NewRoleWellFormed(r.table, role);
      r.(table := r.table.(roles := r.table.roles[role.name := role], order := r.table.order + [role.name]),
         counts := r.counts[role.name := 0])
  }

  function Added(r: Registration, dev: Dev, node: Node, role: Role): (r': Registration)
    requires Coherent(r) && role.name in r.counts
    ensures Coherent(r')
  {
    r.(assignments := r.assignments[dev := Assignment(node, role.name, role.roleClass)],
       counts := r.counts[role.name := r.counts[role.name] + 1])
  }

  function Assigned(r: Registration, dev: Dev, node: Node, role: Role): (r': Registration)
    requires Coherent(r)
    ensures Coherent(r')
  {
    if HoldsRole(r, dev, role.name) then r
    else Added(WithRole(Released(r, dev), role), dev, node, role)
  }

  // ---- join_room ------------------------------------------------------------------------------

  function FirstRoom(t: Table, candidates: seq<RoleName>): (o: Option<RoleName>)
    requires forall n :: n in candidates ==> n in t.roles
    ensures o.Some? ==> o.value in t.roles && t.roles[o.value].roleClass == ROOM
  {
    if candidates == [] then None
    else if t.roles[candidates[0]].roleClass == ROOM then Some(candidates[0])
    else FirstRoom(t, candidates[1..])
  }

  function Candidates(t: Table, node: Node): (c: seq<RoleName>)
    requires WellFormed(t)
    ensures forall n :: n in c ==> n in t.roles
  {
    if node in t.nodes then t.nodes[node] else []
  }

  function RoomJoined(r: Registration, dev: Dev, node: Node): (o: (Registration, Join))
    requires Coherent(r)
    ensures Coherent(o.0)
  {
    match FirstRoom(r.table, Candidates(r.table, node))
    case None => (r, Denied(NoSuchNode))
    case Some(name) =>
      var role := r.table.roles[name];
      if !HoldsRole(r, dev, name) && Full(r, role) then (r, Denied(RegistrationClosed))
      else (Assigned(r, dev, node, role), Granted(name))
  }

  // ---- what each operation keeps ----------------------------------------------------------------

  lemma BalancedIsCoherent(r: Registration)
    requires Balanced(r)
    ensures Coherent(r) && WellFormed(r.table) && CountedRoles(r) && r.counts.Keys == r.table.roles.Keys
  {
    hide WellFormed;
    hide WithinCapacity;
    hide Reserving;
    hide Holding;
  }

  lemma ReservingWithout(v: map<Dev, Reservation>, dev: Dev, n: RoleName)
    ensures |Reserving(v - {dev}, n)| == |Reserving(v, n)| - (if dev in v && v[dev].role == n then 1 else 0)
  {
    assert Reserving(v - {dev}, n) == Reserving(v, n) - {dev};
  }

  lemma ReservingWith(v: map<Dev, Reservation>, dev: Dev, held: Reservation, n: RoleName)
    requires dev !in v
    ensures |Reserving(v[dev := held], n)| == |Reserving(v, n)| + (if held.role == n then 1 else 0)
  {
    assert Reserving(v[dev := held], n) == Reserving(v, n) + if held.role == n then {dev} else {};
  }

  lemma HoldingWithout(a: map<Dev, Assignment>, dev: Dev, n: RoleName)
    ensures |Holding(a - {dev}, n)| == |Holding(a, n)| - (if dev in a && a[dev].role == n then 1 else 0)
  {
    assert Holding(a - {dev}, n) == Holding(a, n) - {dev};
  }

  lemma HoldingWith(a: map<Dev, Assignment>, dev: Dev, held: Assignment, n: RoleName)
    requires dev !in a
    ensures |Holding(a[dev := held], n)| == |Holding(a, n)| + (if held.role == n then 1 else 0)
  {
    assert Holding(a[dev := held], n) == Holding(a, n) + if held.role == n then {dev} else {};
  }

  lemma SizeWithout<V>(v: map<Dev, V>, dev: Dev)
    ensures |v - {dev}| == |v| - if dev in v then 1 else 0
  {
    assert (v - {dev}).Keys == v.Keys - {dev};
    assert |(v - {dev}).Keys| == |v.Keys| - if dev in v then 1 else 0;
  }

  lemma SizeWith<V>(v: map<Dev, V>, dev: Dev, held: V)
    requires dev !in v
    ensures |v[dev := held]| == |v| + 1
  {
    assert v[dev := held].Keys == v.Keys + {dev};
    assert |v[dev := held].Keys| == |v.Keys| + 1;
  }

  lemma UnreservedCounts(r: Registration, dev: Dev)
    requires Coherent(r) && Counted(r)
    ensures Counted(Unreserved(r, dev))
  {
    hide Reserving;
    hide Holding;
    hide WellFormed;
    forall n { ReservingWithout(r.validated, dev, n); }
  }

  lemma UnassignedCounts(r: Registration, dev: Dev)
    requires Coherent(r) && Counted(r)
    ensures Counted(Unassigned(r, dev))
  {
    hide Reserving;
    hide Holding;
    hide WellFormed;
    forall n { HoldingWithout(r.assignments, dev, n); }
  }

  /** How many places of a role a device's own reservation takes. */
  function PlacesReserved(r: Registration, dev: Dev, n: RoleName): nat {
    if dev in r.validated && r.validated[dev].role == n then 1 else 0
  }

  function PlacesHeld(r: Registration, dev: Dev, n: RoleName): nat { if HoldsRole(r, dev, n) then 1 else 0 }

  /** What is left when a device's reservation and assignment are gone. */
  lemma ReleasedValue(r: Registration, dev: Dev)
    requires Coherent(r)
    ensures var r' := Released(r, dev);
      && r'.table == r.table && r'.maxScored == r.maxScored && r'.counts.Keys == r.counts.Keys
      && r'.validated == r.validated - {dev} && r'.assignments == r.assignments - {dev}
      && forall n :: n in r.counts ==> r'.counts[n] == r.counts[n] - PlacesReserved(r, dev, n) - PlacesHeld(r, dev, n)
  {
    hide WellFormed;
    assert r.validated - {dev} == if dev in r.validated then r.validated - {dev} else r.validated;
    assert r.assignments - {dev} == if dev in r.assignments then r.assignments - {dev} else r.assignments;
  }

  lemma ReleaseBalances(r: Registration, dev: Dev)
    requires Balanced(r)
    ensures Coherent(r)
    ensures var r' := Released(r, dev);
      && Balanced(r') && r'.table == r.table && r'.maxScored == r.maxScored
      && r'.validated == r.validated - {dev} && r'.assignments == r.assignments - {dev}
  {
    hide Reserving;
    hide Holding;
    hide WellFormed;
    hide ScoredCap;
    BalancedIsCoherent(r);
    ReleasedValue(r, dev);
    ReleasedCounts(r, dev);
    hide Counted;
    hide Released;
    hide Coherent;
    hide CountedRoles;
    SizeWithout(r.validated, dev);
    FewerDeclared(r, Released(r, dev));
    hide Declared;
  }

  lemma ReleasedCounts(r: Registration, dev: Dev)
    requires Coherent(r) && Counted(r)
    ensures Counted(Released(r, dev))
  {
    hide Counted;
    hide Coherent;
    UnreservedCounts(r, dev);
    UnassignedCounts(Unreserved(r, dev), dev);
  }

  lemma FewerDeclared(r: Registration, r': Registration)
    requires Declared(r) && r'.table == r.table
    requires forall d :: d in r'.validated ==> d in r.validated && r'.validated[d] == r.validated[d]
    requires forall d :: d in r'.assignments ==> d in r.assignments && r'.assignments[d] == r.assignments[d]
    ensures Declared(r')
  {
  }

  lemma ReservedCounts(r: Registration, dev: Dev, node: Node, name: RoleName)
    requires Counted(r) && dev !in r.validated && name in r.counts
    ensures Counted(Reserved(r, dev, node, name))
  {
    hide Reserving;
    hide Holding;
    forall n { ReservingWith(r.validated, dev, Reservation(node, name), n); }
  }

  lemma ReservedBalances(r: Registration, dev: Dev, node: Node, name: RoleName)
    requires Balanced(r) && dev !in r.validated && name in r.table.roles
    requires Scoring(r.table.roles[name]) && !Full(r, r.table.roles[name]) && r.table.roles[name].name == name
    requires ScoredCap(r.table, r.maxScored).Some? ==> |r.validated| < ScoredCap(r.table, r.maxScored).value
    ensures name in r.counts && Balanced(Reserved(r, dev, node, name))
  {
    hide Reserving;
    hide Holding;
    BalancedIsCoherent(r);
    hide Counted;
    hide WellFormed;
    hide ScoredCap;
    ReservedCounts(r, dev, node, name);
    SizeWith(r.validated, dev, Reservation(node, name));
  }

  /** `validate` keeps the books, denies without a trace, and grants a scored role to that device only. */
  lemma ValidateBalances(r: Registration, dev: Dev, node: Node)
    requires Balanced(r)
    ensures Coherent(r)
    ensures var (r', join) := Validated(r, dev, node);
      && Balanced(r') && r'.table == r.table && r'.maxScored == r.maxScored && r'.assignments == r.assignments
      && (join.Denied? ==> r' == r)
      && (join.Granted? && dev in r.validated ==> r' == r && join.role == r.validated[dev].role)
      && (join.Granted? && dev !in r.validated ==>
            node in r.table.nodes && join.role in r.table.nodes[node]
            && r'.validated == r.validated[dev := Reservation(node, join.role)]
            && join.role in r.table.roles && Scoring(r.table.roles[join.role]))
  {
    BalancedIsCoherent(r);
    var (r', join) := Validated(r, dev, node);
    if r' != r {
      assert r.table.roles[join.role].name == join.role;
      ReservedBalances(r, dev, node, join.role);
    }
    hide Balanced;
    hide ScoredCap;
  }

  lemma {:induction false} NewRoleSum(roles: map<RoleName, Role>, order: seq<RoleName>, role: Role)
    requires forall n :: n in order ==> n in roles
    requires role.name !in order
    ensures CapacitySum(roles[role.name := role], order) == CapacitySum(roles, order)
  {
    if order != [] {
      assert order[|order| - 1] in order;
      NewRoleSum(roles, order[..|order| - 1], role);
    }
  }

  lemma SumWithLast(roles: map<RoleName, Role>, order: seq<RoleName>, name: RoleName)
    requires name in roles && forall n :: n in order ==> n in roles
    ensures forall n :: n in order + [name] ==> n in roles
    ensures var rest, sum := CapacitySum(roles, order), CapacitySum(roles, order + [name]);
      sum.Some? ==> rest.Some? && rest.value <= sum.value
  {
    assert (order + [name])[..|order|] == order;
  }

  lemma CapGrows(t: Table, t': Table, role: Role, maxScored: Option<nat>)
    requires WellFormed(t) && WellFormed(t') && role.name !in t.roles
    requires t'.roles == t.roles[role.name := role] && t'.order == t.order + [role.name]
    ensures var cap, cap' := ScoredCap(t, maxScored), ScoredCap(t', maxScored);
      cap'.Some? ==> cap.Some? && cap.value <= cap'.value
  {
    NewRoleSum(t.roles, t.order, role);
    SumWithLast(t'.roles, t.order, role.name);
    hide WellFormed;
    hide CapacitySum;
  }

  /** A role that joins the table never lowers the scored cap. */
  lemma NewRoleTable(r: Registration, role: Role)
    requires Coherent(r) && role.name !in r.table.roles
    ensures var cap, cap' := ScoredCap(r.table, r.maxScored), ScoredCap(WithRole(r, role).table, r.maxScored);
      cap'.Some? ==> cap.Some? && cap.value <= cap'.value
  {
    hide WellFormed;
    hide CountedRoles;
    hide ScoredCap;
    CapGrows(r.table, WithRole(r, role).table, role, r.maxScored);
  }

  lemma NewRoleWellFormed(t: Table, role: Role)
    requires WellFormed(t) && role.name !in t.roles
    ensures WellFormed(t.(roles := t.roles[role.name := role], order := t.order + [role.name]))
  {
    var order := t.order + [role.name];
    forall n ensures n in order <==> n in t.order || n == role.name {
    }
    assert role.name !in t.order;
  }

  /** A role assigned from outside the table joins it, held by nobody. */
  lemma NewRoleBalances(r: Registration, role: Role)
    requires Balanced(r)
    ensures Coherent(r) && Balanced(WithRole(r, role))
  {
    hide Reserving;
    hide Holding;
    hide WellFormed;
    hide ScoredCap;
    BalancedIsCoherent(r);
    if role.name !in r.table.roles {
      NewRoleCounts(r, role);
      NewRoleCapacity(r, role);
      NewRoleDeclared(r, role);
      hide Counted;
      hide Declared;
      hide WithinCapacity;
    }
  }

  lemma NewRoleDeclared(r: Registration, role: Role)
    requires Coherent(r) && Declared(r) && role.name !in r.table.roles
    ensures Declared(WithRole(r, role))
  {
    hide WellFormed;
  }

  lemma NewRoleCapacity(r: Registration, role: Role)
    requires Coherent(r) && WithinCapacity(r) && role.name !in r.table.roles
    ensures var r' := WithRole(r, role);
      r'.counts.Keys == r'.table.roles.Keys && WellFormed(r'.table) && WithinCapacity(r')
  {
    NewRoleTable(r, role);
    hide WellFormed;
    hide ScoredCap;
  }

  lemma NewRoleCounts(r: Registration, role: Role)
    requires Coherent(r) && Declared(r) && Counted(r) && role.name !in r.table.roles
    ensures Counted(WithRole(r, role))
  {
    hide WellFormed;
    assert Reserving(r.validated, role.name) == {};
    assert Holding(r.assignments, role.name) == {};
    hide Reserving;
    hide Holding;
  }

  lemma AddedCounts(r: Registration, dev: Dev, node: Node, role: Role)
    requires Coherent(r) && dev !in r.assignments && role.name in r.counts
    ensures Counted(Added(r, dev, node, role)) <==> Counted(r)
  {
    hide Reserving;
    hide Holding;
    hide WellFormed;
    hide CountedRoles;
    forall n { HoldingWith(r.assignments, dev, Assignment(node, role.name, role.roleClass), n); }
  }

  /** The table's own role of that name is of that class and has a place left. */
  predicate OwnRoleTakes(r: Registration, role: Role)
    requires role.name in r.table.roles
  {
    var own := r.table.roles[role.name];
    own.roleClass == role.roleClass && !Full(r, own)
  }

  lemma AddedDeclared(r: Registration, dev: Dev, node: Node, role: Role)
    requires Coherent(r) && Declared(r) && dev !in r.assignments && role.name in r.counts
    ensures Declared(Added(r, dev, node, role)) <==> r.table.roles[role.name].roleClass == role.roleClass
  {
    hide WellFormed;
    hide CountedRoles;
    var r' := Added(r, dev, node, role);
    assert r'.assignments[dev].roleClass == role.roleClass && r'.assignments[dev].role == role.name;
  }

  lemma AddedCapacity(r: Registration, dev: Dev, node: Node, role: Role)
    requires Coherent(r) && WithinCapacity(r) && role.name in r.counts
    ensures var r' := Added(r, dev, node, role);
      && r'.counts.Keys == r'.table.roles.Keys && WellFormed(r'.table)
      && (WithinCapacity(r') <==> !Full(r, r.table.roles[role.name]))
  {
    hide ScoredCap;
    hide CountedRoles;
    assert r.table.roles[role.name].name == role.name;
    hide WellFormed;
  }

  lemma AddedBalancesExactly(r: Registration, dev: Dev, node: Node, role: Role)
    requires Balanced(r) && dev !in r.assignments && role.name in r.table.roles
    ensures Coherent(r) && (Balanced(Added(r, dev, node, role)) <==> OwnRoleTakes(r, role))
  {
    BalancedIsCoherent(r);
    AddedCounts(r, dev, node, role);
    AddedDeclared(r, dev, node, role);
    AddedCapacity(r, dev, node, role);
    hide Declared;
    hide Counted;
    hide WellFormed;
    hide WithinCapacity;
    hide CountedRoles;
    hide Full;
  }

  /**
   There is a place for `dev`: it holds the role already; or the table's own role of that
   name is of the same class and not full, `dev`'s own reservation of it apart; or the
   table has none of that name and the newcomer is not of capacity 0.
   */
  predicate Accommodates(r: Registration, dev: Dev, role: Role) {
    || HoldsRole(r, dev, role.name)
    || if role.name !in r.table.roles then role.capacity != Some(0) else PlaceFor(r, dev, role)
  }

  predicate PlaceFor(r: Registration, dev: Dev, role: Role)
    requires role.name in r.table.roles
  {
    var own := r.table.roles[role.name];
    && own.roleClass == role.roleClass
    && (own.capacity.Some? && role.name in r.counts ==>
          r.counts[role.name] - PlacesReserved(r, dev, role.name) < own.capacity.value)
  }

  /** What an assignment of `role` to `dev` does. */
  ghost predicate AssignedTo(r: Registration, r': Registration, dev: Dev, node: Node, role: Role)
    requires Coherent(r)
  {
    if HoldsRole(r, dev, role.name) then r' == r
    else
      && r'.assignments == r.assignments[dev := Assignment(node, role.name, role.roleClass)]
      && r'.validated == r.validated - {dev}
      && r'.maxScored == r.maxScored
      && r'.table.nodes == r.table.nodes
      && r'.table.roles == (if role.name in r.table.roles then r.table.roles else r.table.roles[role.name := role])
      && (role.name in r.table.roles ==> r'.table == r.table)
  }

  lemma AddedAgain(a: map<Dev, Assignment>, dev: Dev, held: Assignment)
    ensures (a - {dev})[dev := held] == a[dev := held]
  {
  }

  lemma AssignedValue(r: Registration, dev: Dev, node: Node, role: Role)
    requires Coherent(r)
    ensures AssignedTo(r, Assigned(r, dev, node, role), dev, node, role)
  {
    if HoldsRole(r, dev, role.name) {
      return;
    }
    ReleasedValue(r, dev);
    hide Released;
    var held := Assignment(node, role.name, role.roleClass);
    AddedAgain(r.assignments, dev, held);
    var r2 := WithRole(Released(r, dev), role);
    assert r2.table.nodes == r.table.nodes && r2.validated == r.validated - {dev}
        && r2.assignments == r.assignments - {dev}
      by { hide Coherent; }
    assert Assigned(r, dev, node, role) == Added(r2, dev, node, role);
    assert Added(r2, dev, node, role).assignments == r2.assignments[dev := held] by { hide Coherent; hide WithRole; }
    hide Coherent;
    hide Assigned;
  }

  /** What `WithRole` leaves to be asked of the role's own entry. */
  lemma WithRoleTakes(r: Registration, role: Role)
    requires Coherent(r)
    ensures var r' := WithRole(r, role);
      && role.name in r'.table.roles && r'.assignments == r.assignments
      && (OwnRoleTakes(r', role) <==>
            if role.name in r.table.roles then OwnRoleTakes(r, role) else role.capacity != Some(0))
  {
    hide WellFormed;
    hide CountedRoles;
  }

  lemma PlaceAfterRelease(r: Registration, dev: Dev, role: Role)
    requires Coherent(r) && role.name in r.table.roles && !HoldsRole(r, dev, role.name)
    ensures Released(r, dev).table == r.table
    ensures OwnRoleTakes(Released(r, dev), role) <==> PlaceFor(r, dev, role)
  {
    ReleasedValue(r, dev);
    assert r.table.roles[role.name].name == role.name;
    hide Released;
    hide WellFormed;
    hide CountedRoles;
  }

  /** `assign` asks nothing of the role it is given; it keeps the books exactly when there is a place. */
  lemma AssignBalancesExactly(r: Registration, dev: Dev, node: Node, role: Role)
    requires Balanced(r)
    ensures Coherent(r) && (Balanced(Assigned(r, dev, node, role)) <==> Accommodates(r, dev, role))
  {
    BalancedIsCoherent(r);
    if !HoldsRole(r, dev, role.name) {
      ReleaseBalances(r, dev);
      var r1 := Released(r, dev);
      NewRoleBalances(r1, role);
      WithRoleTakes(r1, role);
      if role.name in r.table.roles {
        PlaceAfterRelease(r, dev, role);
      }
      AddedBalancesExactly(WithRole(r1, role), dev, node, role);
    }
    hide Balanced;
    hide Coherent;
    hide CountedRoles;
    hide WellFormed;
    hide Released;
    hide WithRole;
    hide Added;
    hide OwnRoleTakes;
    hide PlaceFor;
  }

  lemma RoomJoinBalances(r: Registration, dev: Dev, node: Node)
    requires Balanced(r)
    ensures Coherent(r)
    ensures var (r', join) := RoomJoined(r, dev, node);
      && Balanced(r')
      && (join.Denied? ==> r' == r)
      && (join.Granted? ==>
            && join.role in r.table.roles && r.table.roles[join.role].roleClass == ROOM
            && r.table.roles[join.role].name == join.role
            && AssignedTo(r, r', dev, node, r.table.roles[join.role]))
  {
    BalancedIsCoherent(r);
    var (r', join) := RoomJoined(r, dev, node);
    if join.Granted? {
      var role := r.table.roles[join.role];
      assert role.name == join.role by { hide RoomJoined; }
      AssignBalancesExactly(r, dev, node, role);
      AssignedValue(r, dev, node, role);
      assert Accommodates(r, dev, role) by { hide Assigned; }
    }
    hide Balanced;
    hide Coherent;
    hide AssignedTo;
    hide Accommodates;
    hide Assigned;
  }

  // ---- materialize: reservations become assignments ------------------------------------------------

  function Moved(r: Registration): (r': Registration)
    requires Coherent(r)
    ensures Coherent(r')
  {
    hide WellFormed;
    r.(validated := map[],
       assignments := r.assignments + map d | d in r.validated ::
         Assignment(r.validated[d].node, r.validated[d].role, r.table.roles[r.validated[d].role].roleClass))
  }

  ghost predicate Disjoint(r: Registration) { r.validated.Keys !! r.assignments.Keys }

  lemma MovedHolding(r: Registration, n: RoleName)
    requires Coherent(r)
    ensures Holding(Moved(r).assignments, n) == (Holding(r.assignments, n) - r.validated.Keys)
        + Reserving(r.validated, n)
  {
    hide Moved;
    hide Coherent;
    MovedRoles(r);
    RolesMoved(r.assignments, r.validated, Moved(r).assignments, n);
  }

  lemma RolesMoved(a: map<Dev, Assignment>, v: map<Dev, Reservation>, a': map<Dev, Assignment>, n: RoleName)
    requires a'.Keys == a.Keys + v.Keys
    requires forall d :: d in a' ==> a'[d].role == if d in v then v[d].role else a[d].role
    ensures Holding(a', n) == (Holding(a, n) - v.Keys) + Reserving(v, n)
  {
    forall d ensures d in a' <==> d in a || d in v {
      assert d in a' <==> d in a'.Keys;
    }
  }

  lemma MovedRoles(r: Registration)
    requires Coherent(r)
    ensures var a := Moved(r).assignments;
      && a.Keys == r.assignments.Keys + r.validated.Keys
      && forall d :: d in a ==> a[d].role == if d in r.validated then r.validated[d].role else r.assignments[d].role
  {
    hide WellFormed;
    hide CountedRoles;
  }

  /** The books survive `materialize` exactly when nobody both reserves and holds a role. */
  lemma MovedBalancesExactly(r: Registration)
    requires Balanced(r)
    ensures Coherent(r) && (Balanced(Moved(r)) <==> Disjoint(r))
  {
    BalancedIsCoherent(r);
    hide WellFormed;
    hide ScoredCap;
    if Disjoint(r) {
      MovedCounts(r);
      hide Counted;
    } else {
      var d :| d in r.validated && d in r.assignments;
      LeakedCount(r, d);
      hide Balanced;
    }
  }

  lemma DisjointUnionSize(a: set<Dev>, b: set<Dev>)
    requires a !! b
    ensures |a + b| == |a| + |b|
  {
  }

  lemma HoldersApart(r: Registration, n: RoleName)
    requires Disjoint(r)
    ensures Holding(r.assignments, n) - r.validated.Keys == Holding(r.assignments, n)
    ensures Holding(r.assignments, n) !! Reserving(r.validated, n)
  {
  }

  lemma NobodyReserves(n: RoleName)
    ensures Reserving(map[], n) == {}
  {
  }

  lemma MovedCount(r: Registration, n: RoleName)
    requires Coherent(r) && Declared(r) && Disjoint(r)
    ensures |Reserving(Moved(r).validated, n)| + |Holding(Moved(r).assignments, n)|
            == |Reserving(r.validated, n)| + |Holding(r.assignments, n)|
  {
    hide Reserving;
    hide Holding;
    MovedHolding(r, n);
    HoldersApart(r, n);
    NobodyReserves(n);
    MovedDeclared(r);
    hide Moved;
    hide Disjoint;
    hide Declared;
    DisjointUnionSize(Holding(r.assignments, n), Reserving(r.validated, n));
  }

  lemma MovedDeclared(r: Registration)
    requires Coherent(r) && Declared(r)
    ensures Declared(Moved(r)) && Moved(r).counts == r.counts
        && Moved(r).table == r.table && Moved(r).validated == map[]
  {
  }

  lemma MovedCounts(r: Registration)
    requires Coherent(r) && Counted(r) && Declared(r) && Disjoint(r)
    ensures Counted(Moved(r)) && Declared(Moved(r))
  {
    hide Reserving;
    hide Holding;
    MovedDeclared(r);
    hide Moved;
    var r' := Moved(r);
    forall n | n in r.counts ensures r'.counts[n] == |Reserving(r'.validated, n)| + |Holding(r'.assignments, n)| {
      MovedCount(r, n);
    }
    hide Declared;
  }

  lemma LeakedCount(r: Registration, d: Dev)
    requires Coherent(r) && Counted(r) && Declared(r) && d in r.validated && d in r.assignments
    ensures !Counted(Moved(r))
  {
    hide WellFormed;
    hide CountedRoles;
    var n := r.assignments[d].role;
    MovedHolding(r, n);
    var holds, reserves, after := Holding(r.assignments, n), Reserving(r.validated, n),
        Holding(Moved(r).assignments, n);
    assert d in holds;
    assert after <= (holds - {d}) + reserves;
    SubsetSize(after, (holds - {d}) + reserves);
    UnionSize(holds - {d}, reserves);
    assert Reserving(Moved(r).validated, n) == {};
  }

  lemma {:induction false} SubsetSize(a: set<Dev>, b: set<Dev>)
    requires a <= b
    ensures |a| <= |b|
  {
    if a != {} {
      var x :| x in a;
      SubsetSize(a - {x}, b - {x});
    }
  }

  lemma UnionSize(a: set<Dev>, b: set<Dev>)
    ensures |a + b| <= |a| + |b|
  {
    assert a + b == a + (b - a);
    SubsetSize(b - a, b);
  }

  // ---- jam roles (control/jam_role.py) -----------------------------------------------------------------

  function SoloRole(instrument: string): Role { Role(Solo(instrument), JAM, None, false, None) }

  predicate JamCandidate(role: Role) { !role.scored && role.roleClass != ROOM && role.name.Plain? }

  /** The table's candidate jam roles, in declaration order, of the JAM class or of the others. */
  function UnscoredOf(t: Table, order: seq<RoleName>, jam: bool): (c: seq<Role>)
    requires forall n :: n in order ==> n in t.roles
    ensures forall role :: role in c ==> JamCandidate(role) && exists n :: n in order && t.roles[n] == role
  {
    if order == [] then []
    else
      var role := t.roles[order[0]];
      (if JamCandidate(role) && (role.roleClass == JAM) == jam then [role] else []) + UnscoredOf(t, order[1..], jam)
  }

  function UnscoredRoles(t: Table): (c: seq<Role>)
    requires WellFormed(t)
  {
    UnscoredOf(t, t.order, true) + UnscoredOf(t, t.order, false)
  }

  /** The first candidate with room that `fits` (the requirement gate and the Bit's own admission). */
  function FirstFitting(r: Registration, dev: Dev, candidates: seq<Role>, fits: (Dev, Role) -> bool): (o: Option<Role>)
    ensures o.Some? ==> o.value in candidates && !Full(r, o.value) && fits(dev, o.value)
  {
    if candidates == [] then None
    else if !Full(r, candidates[0]) && fits(dev, candidates[0]) then Some(candidates[0])
    else FirstFitting(r, dev, candidates[1..], fits)
  }

  /** What a device carries, and which roles it may fill: the parts of the engine `_jam_for` consults. */
  datatype Crowd = Crowd(carried: Dev -> string, fits: (Dev, Role) -> bool)

  /** `_jam_for`. */
  function JamFor(r: Registration, dev: Dev, c: Crowd): Role
    requires WellFormed(r.table)
  {
    match FirstFitting(r, dev, UnscoredRoles(r.table), c.fits)
    case Some(role) => role
    case None => SoloRole(c.carried(dev))
  }

  /** One walk-up, or one device of `materialize`'s second half. */
  function Jammed(r: Registration, dev: Dev, c: Crowd): (r': Registration)
    requires Coherent(r)
    ensures Coherent(r')
  {
    Assigned(r, dev, Node(""), JamFor(r, dev, c))
  }

  /** A jam role of the table, or the solo role of the instrument carried. */
  ghost predicate JamRole(t: Table, n: RoleName, dev: Dev, c: Crowd) {
    n == Solo(c.carried(dev)) || (n in t.roles && n.Plain? && JamCandidate(t.roles[n]) && c.fits(dev, t.roles[n]))
  }

  lemma JamForMeans(r: Registration, dev: Dev, c: Crowd)
    requires Coherent(r)
    ensures var role := JamFor(r, dev, c);
      && JamRole(r.table, role.name, dev, c)
      && (role.name.Plain? ==> role.name in r.table.roles && r.table.roles[role.name] == role && !Full(r, role))
      && (role.name.Solo? ==> role == SoloRole(c.carried(dev)))
      && (role.name.Plain? <==> FirstFitting(r, dev, UnscoredRoles(r.table), c.fits).Some?)
  {
    hide CountedRoles;
  }

  /**
   The jam role found has a place: one of the Bit's own candidates fits, or the table has
   no role under the solo role's name, or the one it has is a JAM one and not full.
   */
  predicate JamFits(r: Registration, dev: Dev, c: Crowd)
    requires Coherent(r)
  {
    || FirstFitting(r, dev, UnscoredRoles(r.table), c.fits).Some?
    || Solo(c.carried(dev)) !in r.table.roles
    || PlaceFor(r, dev, SoloRole(c.carried(dev)))
  }

  /** A jam keeps the books exactly when its role has a place: the solo role is taken without asking. */
  lemma JamBalancesExactly(r: Registration, dev: Dev, c: Crowd)
    requires Balanced(r) && dev !in r.assignments
    ensures Coherent(r) && (Balanced(Jammed(r, dev, c)) <==> JamFits(r, dev, c))
  {
    BalancedIsCoherent(r);
    var role := JamFor(r, dev, c);
    JamForMeans(r, dev, c);
    AssignBalancesExactly(r, dev, Node(""), role);
    assert role.name.Plain? ==> PlaceFor(r, dev, role);
    hide Balanced;
    hide Assigned;
    hide JamFor;
    hide JamRole;
    hide WellFormed;
    hide CountedRoles;
    hide FirstFitting;
    hide UnscoredRoles;
    hide PlaceFor;
  }

  /** A table grown by solo roles only. */
  ghost predicate GrownBySolos(t: Table, t': Table) {
    && (forall n :: n in t.roles ==> n in t'.roles && t'.roles[n] == t.roles[n])
    && (forall n :: n in t'.roles && n !in t.roles ==> n.Solo? && t'.roles[n] == SoloRole(n.instrument))
  }

  /** `devs` have jam or solo roles now; everyone who held a role holds the same one. */
  ghost predicate NewlyJammed(r: Registration, r': Registration, devs: set<Dev>, c: Crowd) {
    && r'.assignments.Keys == r.assignments.Keys + devs
    && (forall d :: d in r.assignments ==> r'.assignments[d] == r.assignments[d])
    && (forall d :: d in devs && d !in r.assignments ==> JamRole(r.table, r'.assignments[d].role, d, c))
  }

  ghost predicate Jamming(r: Registration, r': Registration, devs: set<Dev>, c: Crowd) {
    GrownBySolos(r.table, r'.table) && r'.validated.Keys <= r.validated.Keys && NewlyJammed(r, r', devs, c)
  }

  lemma AssignedNewly(r: Registration, r': Registration, dev: Dev, role: Role, c: Crowd)
    requires Coherent(r) && AssignedTo(r, r', dev, Node(""), role)
    requires dev !in r.assignments && JamRole(r.table, role.name, dev, c)
    ensures NewlyJammed(r, r', {dev}, c) && r'.validated.Keys <= r.validated.Keys
  {
    hide Coherent;
    hide JamRole;
  }

  lemma AssignedGrows(r: Registration, r': Registration, dev: Dev, role: Role)
    requires Coherent(r) && AssignedTo(r, r', dev, Node(""), role)
    requires role.name in r.table.roles || (role.name.Solo? && role == SoloRole(role.name.instrument))
    ensures GrownBySolos(r.table, r'.table)
  {
    hide Coherent;
  }

  lemma JammedStep(r: Registration, dev: Dev, c: Crowd)
    requires Coherent(r) && dev !in r.assignments
    ensures Jamming(r, Jammed(r, dev, c), {dev}, c)
  {
    var role := JamFor(r, dev, c);
    JamForMeans(r, dev, c);
    AssignedValue(r, dev, Node(""), role);
    hide JamFor;
    hide Assigned;
    AssignedGrows(r, Jammed(r, dev, c), dev, role);
    AssignedNewly(r, Jammed(r, dev, c), dev, role, c);
    hide Coherent;
    hide AssignedTo;
    hide GrownBySolos;
    hide NewlyJammed;
    hide JamRole;
  }

  /** `materialize`'s second half. */
  function JammedAll(r: Registration, devs: seq<Dev>, c: Crowd): (r': Registration)
    requires Coherent(r)
    ensures Coherent(r')
    decreases |devs|
  {
    if devs == [] then r
    else if devs[0] in r.assignments then JammedAll(r, devs[1..], c)
    else JammedAll(Jammed(r, devs[0], c), devs[1..], c)
  }

  lemma JammingContinues(r: Registration, r1: Registration, r2: Registration, a: set<Dev>, b: set<Dev>, c: Crowd)
    requires Jamming(r, r1, a, c) && Jamming(r1, r2, b, c)
    ensures Jamming(r, r2, a + b, c)
  {
    forall d | d in a + b && d !in r.assignments ensures JamRole(r.table, r2.assignments[d].role, d, c) {
      if d in a {
        assert r2.assignments[d] == r1.assignments[d];
      } else {
        assert JamRole(r1.table, r2.assignments[d].role, d, c);
      }
    }
    assert r2.assignments.Keys == r.assignments.Keys + (a + b);
  }

  lemma AlreadyHolding(r: Registration, r': Registration, devs: set<Dev>, d: Dev, c: Crowd)
    requires Jamming(r, r', devs, c) && d in r.assignments
    ensures Jamming(r, r', {d} + devs, c)
  {
    hide GrownBySolos;
    assert r'.assignments.Keys == r.assignments.Keys + ({d} + devs);
  }

  function SetOf(devs: seq<Dev>): set<Dev> { set d | d in devs }

  /** Everyone on the list not already holding a role gets one jam or solo role, and nobody else changes. */
  lemma {:induction false} JammedAllAssigns(r: Registration, devs: seq<Dev>, c: Crowd)
    requires Coherent(r)
    ensures Jamming(r, JammedAll(r, devs, c), SetOf(devs), c)
    decreases |devs|
  {
    if devs == [] {
      return;
    }
    var d0, rest := devs[0], devs[1..];
    assert SetOf(devs) == {d0} + SetOf(rest) by { assert devs == [d0] + rest; }
    if d0 in r.assignments {
      JammedAllAssigns(r, rest, c);
      AlreadyHolding(r, JammedAll(r, rest, c), SetOf(rest), d0, c);
    } else {
      JammedStep(r, d0, c);
      var r1 := Jammed(r, d0, c);
      JammedAllAssigns(r1, rest, c);
      JammingContinues(r, r1, JammedAll(r1, rest, c), {d0}, SetOf(rest), c);
    }
    hide Coherent;
    hide Jamming;
    hide Jammed;
    hide SetOf;
  }

  // ---- when a jam overfills a role ----------------------------------------------------------------------

  /** Each jam on the list finds a place. */
  predicate JamsFit(r: Registration, devs: seq<Dev>, c: Crowd)
    requires Coherent(r)
    decreases |devs|
  {
    if devs == [] then true
    else if devs[0] in r.assignments then JamsFit(r, devs[1..], c)
    else JamFits(r, devs[0], c) && JamsFit(Jammed(r, devs[0], c), devs[1..], c)
  }

  /** With nobody reserving, books that balance after a jam balanced before it. */
  lemma UnjammedBalances(r: Registration, dev: Dev, c: Crowd)
    requires Coherent(r) && r.validated == map[] && dev !in r.assignments
    requires Balanced(Jammed(r, dev, c))
    ensures Balanced(r) && Jammed(r, dev, c).validated == map[]
  {
    var role := JamFor(r, dev, c);
    AssignedValue(r, dev, Node(""), role);
    hide JamFor;
    NothingToRelease(r, dev);
    var r2 := WithRole(r, role);
    AddedCounts(r2, dev, Node(""), role);
    hide Counted;
    UnassignedDeclared(r, dev, role);
    UnassignedCounted(r, role);
    UnassignedCapacity(r, dev, role);
    hide Declared;
    hide WithinCapacity;
    hide WellFormed;
    hide CountedRoles;
    hide Released;
    hide WithRole;
    hide Added;
  }

  lemma UnjammedCounts(r: Registration, dev: Dev, c: Crowd)
    requires Coherent(r) && r.validated == map[] && dev !in r.assignments
    requires Counted(Jammed(r, dev, c))
    ensures Counted(r) && Jammed(r, dev, c).validated == map[]
  {
    var role := JamFor(r, dev, c);
    AssignedValue(r, dev, Node(""), role);
    hide JamFor;
    NothingToRelease(r, dev);
    AddedCounts(WithRole(r, role), dev, Node(""), role);
    hide Counted;
    UnassignedCounted(r, role);
    hide WellFormed;
    hide CountedRoles;
    hide Released;
    hide WithRole;
    hide Added;
  }

  /** Counts that were wrong before the jams of a start are wrong after them. */
  lemma {:induction false} JamsKeepWrongCounts(r: Registration, devs: seq<Dev>, c: Crowd)
    requires Coherent(r) && r.validated == map[] && !Counted(r)
    ensures !Counted(JammedAll(r, devs, c))
    decreases |devs|
  {
    if devs == [] {
      return;
    }
    if devs[0] in r.assignments {
      JamsKeepWrongCounts(r, devs[1..], c);
    } else {
      var r1 := Jammed(r, devs[0], c);
      JammedStep(r, devs[0], c);
      assert r1.validated.Keys == {};
      if Counted(r1) {
        UnjammedCounts(r, devs[0], c);
      }
      JamsKeepWrongCounts(r1, devs[1..], c);
    }
    hide Counted;
    hide Coherent;
    hide Jammed;
    hide NewlyJammed;
    hide GrownBySolos;
  }

  lemma NothingToRelease(r: Registration, dev: Dev)
    requires Coherent(r) && dev !in r.validated && dev !in r.assignments
    ensures Released(r, dev) == r
  {
    hide Coherent;
  }

  lemma UnassignedDeclared(r: Registration, dev: Dev, role: Role)
    requires Coherent(r) && r.validated == map[] && dev !in r.assignments
    requires Declared(Added(WithRole(r, role), dev, Node(""), role))
    ensures Declared(r)
  {
    hide WellFormed;
    var r2 := WithRole(r, role);
    assert r2.assignments == r.assignments && r2.validated == map[] by { hide CountedRoles; }
    var r' := Added(r2, dev, Node(""), role);
    assert r'.table == r2.table && forall d :: d in r2.assignments ==> r'.assignments[d] == r2.assignments[d]
      by { hide WithRole; hide CountedRoles; }
    hide Added;
    assert Declared(r2) by { hide WithRole; hide CountedRoles; }
    UngrownDeclared(r, role);
  }

  lemma UngrownDeclared(r: Registration, role: Role)
    requires Coherent(r) && r.validated == map[] && Declared(WithRole(r, role))
    ensures Declared(r)
  {
    hide WellFormed;
  }

  lemma UnassignedCounted(r: Registration, role: Role)
    requires Coherent(r) && Counted(WithRole(r, role))
    ensures Counted(r)
  {
    hide WellFormed;
    hide CountedRoles;
    hide Reserving;
    hide Holding;
  }

  lemma UnassignedCapacity(r: Registration, dev: Dev, role: Role)
    requires Coherent(r) && r.validated == map[]
    requires var r' := Added(WithRole(r, role), dev, Node(""), role);
      r'.counts.Keys == r'.table.roles.Keys && WellFormed(r'.table) && WithinCapacity(r')
    ensures WithinCapacity(r)
  {
    hide WellFormed;
    hide CountedRoles;
    hide ScoredCap;
    var r' := Added(WithRole(r, role), dev, Node(""), role);
    FewerCounted(r, r', dev, role);
    hide WithRole;
    hide Added;
    assert |r.validated| == 0;
  }

  lemma FewerCounted(r: Registration, r': Registration, dev: Dev, role: Role)
    requires Coherent(r) && r' == Added(WithRole(r, role), dev, Node(""), role)
    ensures forall n :: n in r.counts ==>
              n in r'.table.roles && n in r'.counts && r'.table.roles[n] == r.table.roles[n]
                  && r.counts[n] <= r'.counts[n]
  {
    hide WellFormed;
    hide CountedRoles;
  }

  /** `materialize`'s second half, which finds no reservations left, keeps the books exactly when each jam fits. */
  lemma {:induction false} JammedAllBalancesExactly(r: Registration, devs: seq<Dev>, c: Crowd)
    requires Coherent(r) && r.validated == map[]
    ensures Balanced(JammedAll(r, devs, c)) <==> Balanced(r) && JamsFit(r, devs, c)
    decreases |devs|
  {
    if devs == [] {
      return;
    }
    if devs[0] in r.assignments {
      JammedAllBalancesExactly(r, devs[1..], c);
    } else {
      JammedStep(r, devs[0], c);
      var r1 := Jammed(r, devs[0], c);
      assert r1.validated.Keys == {};
      JammedAllBalancesExactly(r1, devs[1..], c);
      if Balanced(r) {
        JamBalancesExactly(r, devs[0], c);
      } else if Balanced(r1) {
        UnjammedBalances(r, devs[0], c);
      }
    }
    hide Balanced;
    hide Coherent;
    hide JamFits;
    hide Jammed;
    hide NewlyJammed;
    hide GrownBySolos;
  }

  /** No role of the table has a solo role's name, unless it is an unbounded JAM one. */
  ghost predicate SoloSafe(t: Table) {
    forall i :: Solo(i) in t.roles ==> t.roles[Solo(i)].roleClass == JAM && t.roles[Solo(i)].capacity.None?
  }

  lemma SafeTableFits(r: Registration, dev: Dev, c: Crowd)
    requires Coherent(r) && SoloSafe(r.table)
    ensures JamFits(r, dev, c)
  {
    hide Coherent;
    hide FirstFitting;
    hide UnscoredRoles;
  }

  lemma SafeTableStays(t: Table, t': Table)
    requires SoloSafe(t) && GrownBySolos(t, t')
    ensures SoloSafe(t')
  {
  }

  lemma {:induction false} SafeTableJamsFit(r: Registration, devs: seq<Dev>, c: Crowd)
    requires Coherent(r) && SoloSafe(r.table)
    ensures JamsFit(r, devs, c)
    decreases |devs|
  {
    if devs == [] {
      return;
    }
    if devs[0] in r.assignments {
      SafeTableJamsFit(r, devs[1..], c);
    } else {
      SafeTableFits(r, devs[0], c);
      JammedStep(r, devs[0], c);
      SafeTableStays(r.table, Jammed(r, devs[0], c).table);
      SafeTableJamsFit(Jammed(r, devs[0], c), devs[1..], c);
    }
    hide Coherent;
    hide JamFits;
    hide Jammed;
    hide SoloSafe;
    hide GrownBySolos;
    hide NewlyJammed;
  }

  /** Whoever walks up and whatever they carry, no jam overfills a role of a Bit just loaded. */
  ghost predicate AlwaysJams(t: Table)
    requires WellFormed(t)
  {
    forall maxScored, devs, c :: Balanced(JammedAll(NewRegistration(t, maxScored), devs, c))
  }

  lemma NewRegistrationBalances(t: Table, maxScored: Option<nat>)
    requires WellFormed(t)
    ensures Balanced(NewRegistration(t, maxScored))
  {
    hide WellFormed;
    hide ScoredCap;
    forall n | n in t.roles ensures Reserving(map[], n) == {} && Holding(map[], n) == {} {
    }
  }

  /** The condition on the table a load could check: with it no jam breaks the books, without it some jam does. */
  lemma SoloSafeExactly(t: Table)
    requires WellFormed(t)
    ensures AlwaysJams(t) <==> SoloSafe(t)
  {
    if SoloSafe(t) {
      forall maxScored, devs, c ensures Balanced(JammedAll(NewRegistration(t, maxScored), devs, c)) {
        NewRegistrationBalances(t, maxScored);
        SafeTableJamsFit(NewRegistration(t, maxScored), devs, c);
        JammedAllBalancesExactly(NewRegistration(t, maxScored), devs, c);
      }
    } else {
      var i :| Solo(i) in t.roles && !(t.roles[Solo(i)].roleClass == JAM && t.roles[Solo(i)].capacity.None?);
      var own := t.roles[Solo(i)];
      var crowd := if own.capacity.Some? then Walkers(own.capacity.value + 1) else Walkers(1);
      SoloOverflows(t, i, crowd);
    }
    hide Balanced;
    hide JammedAll;
    hide JamsFit;
    hide WellFormed;
  }

  function Tally(n: nat): (s: string)
    ensures |s| == n
  {
    if n == 0 then "" else Tally(n - 1) + "|"
  }

  /** `n` devices, told apart by the length of their names. */
  function Walkers(n: nat): (devs: seq<Dev>)
    ensures |devs| == n && forall k :: 0 <= k < n ==> |devs[k].id| == k
  {
    if n == 0 then [] else Walkers(n - 1) + [Dev(Tally(n - 1))]
  }

  /** Everyone carries instrument `i` and fits no role of the Bit's. */
  function Soloists(i: string): Crowd { Crowd((d: Dev) => i, (d: Dev, role: Role) => false) }

  lemma {:induction false} NobodyFits(r: Registration, dev: Dev, roles: seq<Role>, i: string)
    ensures FirstFitting(r, dev, roles, Soloists(i).fits).None?
  {
    if roles != [] {
      NobodyFits(r, dev, roles[1..], i);
    }
  }

  lemma SoloJam(r: Registration, dev: Dev, i: string)
    requires Coherent(r) && r.validated == map[] && dev !in r.assignments && Solo(i) in r.table.roles
    ensures var r' := Jammed(r, dev, Soloists(i));
      && r'.assignments == r.assignments[dev := Assignment(Node(""), Solo(i), JAM)]
      && r'.table == r.table && r'.validated == map[] && r'.counts == r.counts[Solo(i) := r.counts[Solo(i)] + 1]
    ensures JamFits(r, dev, Soloists(i)) <==> PlaceFor(r, dev, SoloRole(i))
  {
    NobodyFits(r, dev, UnscoredRoles(r.table), i);
    NothingToRelease(r, dev);
    hide Released;
    hide WellFormed;
    hide CountedRoles;
    hide FirstFitting;
    hide UnscoredRoles;
  }

  /** More soloists than the table's own role of that name has places for do not all fit. */
  lemma {:induction false} SoloistsOverflow(r: Registration, devs: seq<Dev>, i: string)
    requires Coherent(r) && r.validated == map[] && Solo(i) in r.table.roles && devs != []
    requires forall j, k :: 0 <= j < k < |devs| ==> devs[j] != devs[k]
    requires forall d :: d in devs ==> d !in r.assignments
    requires var own := r.table.roles[Solo(i)];
      own.roleClass != JAM || (own.capacity.Some? && r.counts[Solo(i)] + |devs| > own.capacity.value)
    ensures !JamsFit(r, devs, Soloists(i))
    decreases |devs|
  {
    SoloJam(r, devs[0], i);
    if JamFits(r, devs[0], Soloists(i)) {
      var r1 := Jammed(r, devs[0], Soloists(i));
      assert |devs| > 1;
      forall d | d in devs[1..] ensures d !in r1.assignments {
      }
      SoloistsOverflow(r1, devs[1..], i);
    }
    hide Coherent;
    hide JamFits;
    hide Jammed;
  }

  lemma SoloOverflows(t: Table, i: string, crowd: seq<Dev>)
    requires WellFormed(t) && Solo(i) in t.roles && crowd == Walkers(|crowd|) && |crowd| > 0
    requires var own := t.roles[Solo(i)]; own.roleClass != JAM || (own.capacity.Some? && |crowd| > own.capacity.value)
    ensures !AlwaysJams(t)
  {
    var r := NewRegistration(t, None);
    SoloistsOverflow(r, crowd, i);
    JammedAllBalancesExactly(r, crowd, Soloists(i));
    hide Balanced;
    hide JamsFit;
    hide JammedAll;
    hide WellFormed;
  }

  const ONE_SOLO := Role(Solo("lumi"), JAM, Some(1), false, None)
  const ONE_SOLO_TABLE := Table([ONE_SOLO.name], map[ONE_SOLO.name := ONE_SOLO], map[])

  /** Two devices carrying a lumi jam into a Bit's own one-place "solo:lumi" role. */
  lemma SoloRoleOverfills()
    ensures WellFormed(ONE_SOLO_TABLE)
    ensures var r := JammedAll(NewRegistration(ONE_SOLO_TABLE, None), Walkers(2), Soloists("lumi"));
      && r.table == ONE_SOLO_TABLE && r.counts == map[ONE_SOLO.name := 2] && r.assignments.Keys == SetOf(Walkers(2))
      && !Balanced(r)
  {
    assert WellFormed(ONE_SOLO_TABLE);
    var r, devs, c := NewRegistration(ONE_SOLO_TABLE, None), Walkers(2), Soloists("lumi");
    SoloJam(r, devs[0], "lumi");
    var r1 := Jammed(r, devs[0], c);
    SoloJam(r1, devs[1], "lumi");
    var r2 := Jammed(r1, devs[1], c);
    hide Coherent;
    hide Jammed;
    assert devs == [devs[0], devs[1]];
    TwoJams(r, r1, r2, devs, c);
    hide JammedAll;
    hide Counted;
    hide Declared;
    hide WellFormed;
    hide ScoredCap;
  }

  lemma TwoJams(r: Registration, r1: Registration, r2: Registration, devs: seq<Dev>, c: Crowd)
    requires Coherent(r) && Coherent(r1) && |devs| == 2
    requires devs[0] !in r.assignments && r1 == Jammed(r, devs[0], c)
    requires devs[1] !in r1.assignments && r2 == Jammed(r1, devs[1], c)
    ensures JammedAll(r, devs, c) == r2
  {
    hide Coherent;
    hide Jammed;
    assert devs[1..][1..] == [] && devs[1..][0] == devs[1];
    assert JammedAll(r, devs, c) == JammedAll(r1, devs[1..], c) == JammedAll(r2, [], c) == r2;
  }

  // ---- release_all --------------------------------------------------------------------------------------

  lemma EmptyCountsAreZero(r: Registration)
    requires Balanced(r) && r.validated == map[] && r.assignments == map[]
    ensures forall n :: n in r.counts ==> r.counts[n] == 0
  {
    forall n | n in r.counts ensures r.counts[n] == 0 {
      assert Reserving(r.validated, n) == {} && Holding(r.assignments, n) == {};
    }
  }
}
