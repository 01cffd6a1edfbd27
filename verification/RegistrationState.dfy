/** control/registration.py: the class, proved against `Registrations`. */
module RegistrationStates {
  import opened Wrappers
  import opened Registrations

  lemma {:induction false} UnboundedStaysUnbounded(t: Table, a: seq<RoleName>, b: seq<RoleName>)
    requires forall n :: n in a + b ==> n in t.roles
    requires forall n :: n in a ==> n in t.roles
    requires CapacitySum(t.roles, a).None?
    ensures CapacitySum(t.roles, a + b).None?
  {
    if b == [] {
      assert a + b == a;
    } else {
      assert (a + b)[..|a + b| - 1] == a + b[..|b| - 1];
      assert forall n :: n in a + b[..|b| - 1] ==> n in a + b;
      assert (a + b)[|a + b| - 1] in a + b;
      UnboundedStaysUnbounded(t, a, b[..|b| - 1]);
    }
  }

  class RegistrationState {
    var table: Table
    var maxScored: Option<nat>
    var assignments: map<Dev, Assignment>
    var validated: map<Dev, Reservation>
    var counts: map<RoleName, int>

    ghost function View(): Registration
      reads this
    {
      Registration(table, maxScored, assignments, validated, counts)
    }

    ghost predicate Valid()
      reads this
    {
      Coherent(View())
    }

    constructor (table: Table, maxScored: Option<nat>)
      requires WellFormed(table)
      ensures Valid() && View() == NewRegistration(table, maxScored)
    {
      this.table, this.maxScored, assignments, validated := table, maxScored, map[], map[];
      counts := map n | n in table.roles :: 0;
    }

    /** `scored_cap`. */
    static method CapOf(table: Table, maxScored: Option<nat>) returns (cap: Option<nat>)
      requires WellFormed(table)
      ensures cap == ScoredCap(table, maxScored)
    {
      var total: nat := 0;
      for i := 0 to |table.order|
        invariant forall n :: n in table.order[..i] ==> n in table.roles
        invariant CapacitySum(table.roles, table.order[..i]) == Some(total)
      {
        assert table.order[i] in table.order;
        CapacityStep(table, i);
        var role := table.roles[table.order[i]];
        if !role.scored || role.roleClass == ROOM {
          continue;
        }
        if role.capacity.None? {
          assert table.order[..i + 1] + table.order[i + 1..] == table.order;
          UnboundedStaysUnbounded(table, table.order[..i + 1], table.order[i + 1..]);
          return maxScored;
        }
        total := total + role.capacity.value;
      }
      assert table.order[..|table.order|] == table.order;
      cap := if maxScored.Some? && maxScored.value < total then maxScored else Some(total);
    }

    method Validate(dev: Dev, node: Node) returns (join: Join)
      requires Valid()
      modifies this
      ensures Valid() && (View(), join) == Validated(old(View()), dev, node)
    {
      CoherentMeans(View());
      hide Coherent;
      hide ScoredCap;
      hide WellFormed;
      hide FirstOpen;
      hide AnyScoring;
      if dev in validated {
        join := Granted(validated[dev].role);
      } else if node !in table.nodes || table.nodes[node] == [] {
        join := Denied(NoSuchNode);
      } else {
        var cap := CapOf(table, maxScored);
        if cap.Some? && |validated| >= cap.value {
          join := Denied(ScoredFull);
        } else {
          join := Reserve(dev, node);
        }
      }
    }

    /** `validate` past its refusals: the first open scored role of the node is reserved. */
    method Reserve(dev: Dev, node: Node) returns (join: Join)
      requires Valid() && node in table.nodes
      modifies this
      ensures Valid()
      ensures match FirstOpen(old(View()), old(table).nodes[node])
              case Some(name) =>
                name in old(counts) && View() == Reserved(old(View()), dev, node, name) && join == Granted(name)
              case None =>
                View() == old(View())
                && join == Denied(if AnyScoring(old(table), old(table).nodes[node]) then ScoredFull else NoSuchNode)
    {
      var open, sawScored := Search(table.nodes[node]);
      if open.Some? {
        validated := validated[dev := Reservation(node, open.value)];
        counts := counts[open.value := counts[open.value] + 1];
        return Granted(open.value);
      }
      join := Denied(if sawScored then ScoredFull else NoSuchNode);
    }

    /** `validate`'s walk over a node's roles. */
    method Search(candidates: seq<RoleName>) returns (open: Option<RoleName>, sawScored: bool)
      requires WellFormed(table) && counts.Keys == table.roles.Keys
      requires forall n :: n in candidates ==> n in table.roles
      ensures open == FirstOpen(View(), candidates)
      ensures open.None? ==> sawScored == AnyScoring(table, candidates)
    {
      sawScored := false;
      for i := 0 to |candidates|
        invariant FirstOpen(View(), candidates) == FirstOpen(View(), candidates[i..])
        invariant sawScored == AnyScoring(table, candidates[..i])
      {
        var name := candidates[i];
        var role := table.roles[name];
        assert role.name == name;
        assert candidates[..i + 1] == candidates[..i] + [name];
        assert candidates[i..][1..] == candidates[i + 1..];
        if !role.scored || role.roleClass == ROOM {
          continue;
        }
        sawScored := true;
        if role.capacity.Some? && counts[name] >= role.capacity.value {
          continue;
        }
        return Some(name), true;
      }
      assert candidates[..|candidates|] == candidates;
      open := None;
    }

    method JoinRoom(dev: Dev, node: Node) returns (join: Join)
      requires Valid()
      modifies this
      ensures Valid() && (View(), join) == RoomJoined(old(View()), dev, node)
    {
      var candidates := if node in table.nodes then table.nodes[node] else [];
      for i := 0 to |candidates|
        invariant View() == old(View())
        invariant FirstRoom(table, candidates) == FirstRoom(table, candidates[i..])
      {
        assert candidates[i..][1..] == candidates[i + 1..];
        var role := table.roles[candidates[i]];
        assert role.name == candidates[i];
        if role.roleClass != ROOM {
          continue;
        }
        var held := dev in assignments && assignments[dev].role == role.name;
        if !held && role.capacity.Some? && counts[role.name] >= role.capacity.value {
          return Denied(RegistrationClosed);
        }
        var _ := Assign(dev, node, role);
        return Granted(role.name);
      }
      join := Denied(NoSuchNode);
    }

    /** Whatever role it is given, full or not, the table's own or not: the source asks nothing. */
    method Assign(dev: Dev, node: Node, role: Role) returns (changed: bool)
      requires Valid()
      modifies this
      ensures Valid() && View() == Assigned(old(View()), dev, node, role)
      ensures changed == !HoldsRole(old(View()), dev, role.name)
      ensures Balanced(old(View())) ==> (Balanced(View()) <==> Accommodates(old(View()), dev, role))
    {
      ghost var r := View();
      if Balanced(r) {
        AssignBalancesExactly(r, dev, node, role);
      }
      hide Balanced;
      hide Coherent;
      hide Accommodates;
      if dev in assignments && assignments[dev].role == role.name {
        return false;
      }
      hide Released;
      hide WithRole;
      hide Added;
      var _ := Drop(dev);
      Place(dev, node, role);
      changed := true;
    }

    /** The second half of `assign`, with the device holding nothing. */
    method Place(dev: Dev, node: Node, role: Role)
      requires Valid()
      modifies this
      ensures View() == Added(WithRole(old(View()), role), dev, node, role)
    {
      hide WellFormed;
      hide CountedRoles;
      if role.name !in table.roles {
        table := table.(roles := table.roles[role.name := role], order := table.order + [role.name]);
      }
      if role.name !in counts {
        counts := counts[role.name := 0];
      }
      assignments := assignments[dev := Assignment(node, role.name, role.roleClass)];
      counts := counts[role.name := counts[role.name] + 1];
    }

    /** `release` without its invariant: also a step of `assign`. */
    method Drop(dev: Dev) returns (held: bool)
      requires Valid()
      modifies this
      ensures View() == Released(old(View()), dev)
      ensures held <==> dev in old(validated) || dev in old(assignments)
    {
      hide WellFormed;
      held := false;
      if dev in validated {
        var n := validated[dev].role;
        validated := validated - {dev};
        counts := counts[n := counts[n] - 1];
        held := true;
      }
      if dev in assignments {
        var n := assignments[dev].role;
        assignments := assignments - {dev};
        counts := counts[n := counts[n] - 1];
        held := true;
      }
    }

    method Release(dev: Dev) returns (held: bool)
      requires Valid()
      modifies this
      ensures Valid() && View() == Released(old(View()), dev)
      ensures held <==> dev in old(validated) || dev in old(assignments)
    {
      hide Coherent;
      held := Drop(dev);
    }

    /** `list(self.assignments)`. */
    method Holders() returns (devs: seq<Dev>)
      ensures SetOf(devs) == assignments.Keys && |devs| == |assignments|
    {
      devs := [];
      var left := assignments.Keys;
      while left != {}
        invariant left <= assignments.Keys && SetOf(devs) == assignments.Keys - left
        invariant |devs| + |left| == |assignments.Keys|
      {
        var d :| d in left;
        assert SetOf(devs + [d]) == SetOf(devs) + {d};
        devs := devs + [d];
        left := left - {d};
      }
    }

    /** Every device; each that held an assignment is named once. Counts that were right come back to zero. */
    method ReleaseAll() returns (devs: seq<Dev>)
      requires Valid()
      modifies this
      ensures Valid() && table == old(table) && maxScored == old(maxScored)
      ensures assignments == map[] && validated == map[]
      ensures Balanced(old(View())) ==> Balanced(View()) && forall n :: n in counts ==> counts[n] == 0
      ensures SetOf(devs) == old(assignments).Keys && |devs| == |old(assignments)|
    {
      ghost var r0 := View();
      hide Balanced;
      hide Coherent;
      hide SetOf;
      devs := Holders();
      DropReservations();
      DropHolders(devs);
      if Balanced(r0) {
        EmptyCountsAreZero(View());
      }
    }

    /** `release_all`'s first loop. */
    method DropReservations()
      requires Valid()
      modifies this
      ensures Valid() && table == old(table) && maxScored == old(maxScored)
      ensures Balanced(old(View())) ==> Balanced(View())
      ensures validated == map[] && assignments.Keys <= old(assignments).Keys
    {
      ghost var r0 := View();
      hide Balanced;
      hide Coherent;
      while validated != map[]
        invariant Valid() && table == r0.table && maxScored == r0.maxScored
        invariant Balanced(r0) ==> Balanced(View())
        invariant assignments.Keys <= r0.assignments.Keys
        decreases |validated|
      {
        var d :| d in validated;
        SizeWithout(validated, d);
        DropValue(d);
        var _ := Release(d);
      }
    }

    /** `release_all`'s second. */
    method DropHolders(devs: seq<Dev>)
      requires Valid() && validated == map[] && assignments.Keys <= SetOf(devs)
      modifies this
      ensures Valid() && table == old(table) && maxScored == old(maxScored)
      ensures Balanced(old(View())) ==> Balanced(View())
      ensures validated == map[] && assignments == map[]
    {
      ghost var r0 := View();
      hide Balanced;
      hide Coherent;
      hide SetOf;
      assert devs[0..] == devs;
      for i := 0 to |devs|
        invariant Valid() && table == r0.table && maxScored == r0.maxScored
        invariant Balanced(r0) ==> Balanced(View())
        invariant validated == map[] && assignments.Keys <= SetOf(devs[i..])
      {
        SetOfHead(devs[i..]);
        assert devs[i..][1..] == devs[i + 1..];
        DropValue(devs[i]);
        var _ := Release(devs[i]);
      }
      SetOfNone(devs[|devs|..]);
      assert assignments.Keys == {};
    }

    lemma DropValue(dev: Dev)
      requires Valid()
      ensures var r, r' := View(), Released(View(), dev);
        && r'.table == r.table && r'.maxScored == r.maxScored
        && r'.validated == r.validated - {dev} && r'.assignments == r.assignments - {dev}
        && (Balanced(r) ==> Balanced(r'))
    {
      ReleasedValue(View(), dev);
      if Balanced(View()) {
        ReleaseBalances(View(), dev);
      }
      hide Balanced;
      hide Coherent;
      hide Released;
    }

    /** A reservation becomes an assignment; it counted already. */
    method Hold(dev: Dev, reserved: Reservation)
      requires reserved.role in table.roles
      modifies this`assignments
      ensures assignments == old(assignments)[dev :=
                Assignment(reserved.node, reserved.role, table.roles[reserved.role].roleClass)]
    {
      var role := table.roles[reserved.role];
      assignments := assignments[dev := Assignment(reserved.node, reserved.role, role.roleClass)];
    }

    /** `materialize`'s first half; `named` lists the reserving devices with their roles, once each. */
    method TakeReservations() returns (named: seq<(Dev, RoleName)>)
      requires Valid()
      modifies this
      ensures View() == Moved(old(View()))
      ensures Naming(old(validated), old(validated).Keys, named)
    {
      named := [];
      ghost var r0 := View();
      MoveNoneAndAll(r0);
      hide Coherent;
      hide Moved;
      hide MovedSoFar;
      var reserved := validated;
      var left := reserved.Keys;
      NameNone(reserved);
      hide Naming;
      validated := map[];
      while left != {}
        invariant left <= reserved.Keys && View() == MovedSoFar(r0, left)
        invariant Naming(reserved, reserved.Keys - left, named)
      {
        var d :| d in left;
        MoveOne(r0, left, d);
        NameOne(reserved, left, named, d);
        Hold(d, reserved[d]);
        named := named + [(d, reserved[d].role)];
        left := left - {d};
      }
      assert reserved.Keys - left == reserved.Keys;
    }

    /**
     Reservations become assignments, then everyone listed without a role gets a jam role.
     `granted` names each newly assigned device once, with its role.
     */
    method Materialize(jamDevs: seq<Dev>, c: Crowd) returns (granted: seq<(Dev, RoleName)>)
      requires Valid()
      modifies this
      ensures Valid() && View() == JammedAll(Moved(old(View())), jamDevs, c)
      ensures Granting(Staying(old(View())), assignments, granted)
    {
      ghost var r0 := View();
      var named := TakeReservations();
      MovedIsGranting(r0, named);
      hide Coherent;
      hide Moved;
      hide Granting;
      hide JammedAll;
      granted := JamAll(jamDevs, c, named, Staying(r0));
    }

    /** `materialize`'s second loop. */
    method JamAll(devs: seq<Dev>, c: Crowd, named: seq<(Dev, RoleName)>, ghost before: map<Dev, Assignment>)
      returns (granted: seq<(Dev, RoleName)>)
      requires Valid() && Granting(before, assignments, named)
      modifies this
      ensures Valid() && View() == JammedAll(old(View()), devs, c)
      ensures Granting(before, assignments, granted)
    {
      hide Coherent;
      hide Granting;
      hide JammedAll;
      ghost var r1 := View();
      granted := named;
      assert devs[0..] == devs;
      for i := 0 to |devs|
        invariant Valid() && JammedAll(r1, devs, c) == JammedAll(View(), devs[i..], c)
        invariant Granting(before, assignments, granted)
      {
        assert devs[i..][1..] == devs[i + 1..];
        JammedAllHead(View(), devs[i..], c);
        ghost var now := assignments;
        var role := JamOne(devs[i], c);
        if role.Some? {
          GrantOne(before, now, granted, assignments, devs[i]);
          granted := granted + [(devs[i], role.value)];
        }
      }
      JammedNone(View(), devs[|devs|..], c);
    }

    /** One device of the list: skipped when it holds a role, else given its jam role. */
    method JamOne(dev: Dev, c: Crowd) returns (role: Option<RoleName>)
      requires Valid()
      modifies this
      ensures Valid() && (role.None? <==> dev in old(assignments))
      ensures View() == if role.None? then old(View()) else Jammed(old(View()), dev, c)
      ensures old(assignments).Keys <= assignments.Keys
      ensures forall d :: d in old(assignments) ==> assignments[d] == old(assignments)[d]
      ensures role.Some? ==> assignments.Keys == old(assignments).Keys + {dev} && assignments[dev].role == role.value
    {
      if dev in assignments {
        return None;
      }
      var jam := JamFor(Registration(table, maxScored, assignments, validated, counts), dev, c);
      AssignedValue(View(), dev, Node(""), jam);
      hide Coherent;
      hide JamFor;
      hide Assigned;
      var _ := Assign(dev, Node(""), jam);
      role := Some(jam.name);
    }
  }

  lemma CoherentMeans(r: Registration)
    requires Coherent(r)
    ensures WellFormed(r.table) && forall d :: d in r.validated ==> r.validated[d].role in r.table.roles
    ensures forall node :: node in r.table.nodes ==> forall n :: n in r.table.nodes[node] ==> n in r.table.roles
  {
  }

  /** `materialize`'s first loop, with `left` still to move. */
  ghost function MovedSoFar(r: Registration, left: set<Dev>): Registration
    requires Coherent(r)
  {
    r.(validated := map[],
       assignments := r.assignments + map d | d in r.validated && d !in left ::
         Assignment(r.validated[d].node, r.validated[d].role, r.table.roles[r.validated[d].role].roleClass))
  }

  lemma MoveOne(r: Registration, left: set<Dev>, d: Dev)
    requires Coherent(r) && d in left && left <= r.validated.Keys
    ensures r.validated[d].role in r.table.roles
    ensures var now := MovedSoFar(r, left);
      && now.table == r.table
      && MovedSoFar(r, left - {d}) == now.(assignments := now.assignments[d :=
           Assignment(r.validated[d].node, r.validated[d].role, r.table.roles[r.validated[d].role].roleClass)])
  {
    hide WellFormed;
  }

  lemma MoveNoneAndAll(r: Registration)
    requires Coherent(r)
    ensures MovedSoFar(r, r.validated.Keys) == r.(validated := map[]) && MovedSoFar(r, {}) == Moved(r)
  {
    hide WellFormed;
  }

  lemma MovedElsewhere(r: Registration)
    requires Coherent(r)
    ensures Moved(r) == r.(validated := map[], assignments := Moved(r).assignments)
  {
  }

  lemma JammedNone(r: Registration, devs: seq<Dev>, c: Crowd)
    requires Coherent(r) && devs == []
    ensures JammedAll(r, devs, c) == r
  {
  }

  lemma JammedAllHead(r: Registration, devs: seq<Dev>, c: Crowd)
    requires Coherent(r) && devs != []
    ensures JammedAll(r, devs, c)
         == JammedAll(if devs[0] in r.assignments then r else Jammed(r, devs[0], c), devs[1..], c)
  {
    hide Coherent;
    hide Jammed;
  }

  /** The reservations of `devs`, each listed once with its role. */
  ghost predicate Naming(reserved: map<Dev, Reservation>, devs: set<Dev>, named: seq<(Dev, RoleName)>) {
    && (forall d :: d in devs && d in reserved ==> (d, reserved[d].role) in named)
    && (forall g :: g in named ==> g.0 in devs && g.0 in reserved && g.1 == reserved[g.0].role)
    && NamedOnce(named)
  }

  predicate NamedOnce(granted: seq<(Dev, RoleName)>) {
    forall i, j :: 0 <= i < j < |granted| ==> granted[i].0 != granted[j].0
  }

  lemma NameNone(reserved: map<Dev, Reservation>)
    ensures Naming(reserved, reserved.Keys - reserved.Keys, [])
  {
  }

  lemma NameOne(reserved: map<Dev, Reservation>, left: set<Dev>, named: seq<(Dev, RoleName)>, d: Dev)
    requires Naming(reserved, reserved.Keys - left, named) && d in reserved && d in left
    ensures Naming(reserved, reserved.Keys - (left - {d}), named + [(d, reserved[d].role)])
  {
    var more := named + [(d, reserved[d].role)];
    assert forall g :: g in more <==> g in named || g == (d, reserved[d].role);
    assert forall i :: 0 <= i < |named| ==> named[i] in named;
  }

  /** The assignments `materialize` leaves alone. */
  ghost function Staying(r: Registration): map<Dev, Assignment> { r.assignments - r.validated.Keys }

  /** Who has been granted a role between two registrations, each device once. */
  ghost predicate Granting(before: map<Dev, Assignment>, now: map<Dev, Assignment>, granted: seq<(Dev, RoleName)>) {
    && before.Keys <= now.Keys
    && (forall d :: d in now && d !in before ==> (d, now[d].role) in granted)
    && (forall g :: g in granted ==> g.0 in now && g.0 !in before && now[g.0].role == g.1)
    && NamedOnce(granted)
  }

  lemma GrantOne(before: map<Dev, Assignment>, now: map<Dev, Assignment>, granted: seq<(Dev, RoleName)>,
                 later: map<Dev, Assignment>, dev: Dev)
    requires Granting(before, now, granted) && dev !in now && later.Keys == now.Keys + {dev}
    requires forall d :: d in now ==> later[d] == now[d]
    ensures Granting(before, later, granted + [(dev, later[dev].role)])
  {
    var more := granted + [(dev, later[dev].role)];
    assert forall g :: g in more <==> g in granted || g == (dev, later[dev].role);
    assert forall i :: 0 <= i < |granted| ==> granted[i] in granted;
  }

  lemma MovedIsGranting(r: Registration, named: seq<(Dev, RoleName)>)
    requires Coherent(r) && Naming(r.validated, r.validated.Keys, named)
    ensures Granting(Staying(r), Moved(r).assignments, named)
  {
    hide WellFormed;
    hide NamedOnce;
  }

  lemma SetOfHead(devs: seq<Dev>)
    requires devs != []
    ensures SetOf(devs) == {devs[0]} + SetOf(devs[1..])
  {
    assert devs == [devs[0]] + devs[1..];
  }

  lemma SetOfNone(devs: seq<Dev>)
    requires devs == []
    ensures SetOf(devs) == {}
  {
  }

  lemma CapacityStep(t: Table, i: nat)
    requires WellFormed(t) && i < |t.order|
    ensures forall n :: n in t.order[..i + 1] ==> n in t.roles
    ensures forall n :: n in t.order[..i] ==> n in t.roles
    ensures var rest, role := CapacitySum(t.roles, t.order[..i]), t.roles[t.order[i]];
      CapacitySum(t.roles, t.order[..i + 1]) ==
      if rest.None? || !Scoring(role) then rest
      else if role.capacity.None? then None
      else Some(rest.value + role.capacity.value)
  {
    assert t.order[..i + 1][..i] == t.order[..i];
    assert forall n :: n in t.order[..i + 1] ==> n in t.order;
  }
}
