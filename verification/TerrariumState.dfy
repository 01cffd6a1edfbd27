/** control/terrarium.py: the object, over a real teardown stack, proved against `Terrariums`. */
module TerrariumStates {
  import opened Wrappers
  import opened Teardowns
  import opened Terrariums

  lemma WiredStep(fs: seq<Fixture>, i: nat, so: seq<Proc>)
    requires i < |fs|
    ensures var w := Wired(fs, i);
      if !GoesOn(fs[i]) then !w.ok && so + w.pushed == so + Mine(fs[i], i) && w.strays == Stray(fs[i], i)
      else
        var rest := Wired(fs, i + 1);
        Stray(fs[i], i) == [] && so + w.pushed == (so + Mine(fs[i], i)) + rest.pushed
            && w == Begun(w.pushed, rest.strays, rest.ok)
  {
  }

  lemma WiredEnd(fs: seq<Fixture>, so: seq<Proc>)
    ensures Wired(fs, |fs|) == Begun([], [], true) && so + Wired(fs, |fs|).pushed == so
  {
  }

  /** Since then, `pushed` have been started in the open session and put on the stack, and then `strays` started. */
  ghost predicate Extends(
    sessions: seq<Session>, steps: seq<Proc>, sessions': seq<Session>, steps': seq<Proc>,
    pushed: seq<Proc>, strays: seq<Proc>)
  {
    && sessions != [] && |sessions'| == |sessions| && steps' == steps + pushed
    && sessions'[..|sessions| - 1] == sessions[..|sessions| - 1]
    && var was := sessions[|sessions| - 1];
       sessions'[|sessions| - 1] == was.(started := was.started + (pushed + strays))
  }

  lemma ExtendsNone(sessions: seq<Session>, steps: seq<Proc>)
    requires sessions != []
    ensures Extends(sessions, steps, sessions, steps, [], [])
  {
    assert steps + [] == steps;
    assert sessions[|sessions| - 1].started + ([] + []) == sessions[|sessions| - 1].started;
  }

  lemma ExtendsMore(sessions: seq<Session>, steps: seq<Proc>, sessions1: seq<Session>, steps1: seq<Proc>, so: seq<Proc>,
                    sessions2: seq<Session>, steps2: seq<Proc>, more: seq<Proc>, strays: seq<Proc>)
    requires Extends(sessions, steps, sessions1, steps1, so, [])
        && Extends(sessions1, steps1, sessions2, steps2, more, strays)
    ensures Extends(sessions, steps, sessions2, steps2, so + more, strays)
  {
    assert (steps + so) + more == steps + (so + more);
    var was := sessions[|sessions| - 1].started;
    assert (was + (so + [])) + (more + strays) == was + ((so + more) + strays);
  }

  lemma WiredStart(fs: seq<Fixture>)
    ensures [] + Wired(fs, 0).pushed == Wired(fs, 0).pushed
  {
  }

  class TerrariumState {
    var phase: Phase
    var room: Option<string>
    var bound: set<nat>
    var stack: TeardownStack?<Proc>
    var sessions: seq<Session>

    ghost function View(): Terrarium
      reads this, stack
    {
      Terrarium(phase, room, bound, if stack == null then None else Some(stack.steps), sessions)
    }

    ghost predicate Valid()
      reads this, stack
    {
      && (stack != null ==> sessions != [] && (!phase.Unloading? ==> !stack.closed))
      && (phase.Ready? ==> stack != null)
    }

    constructor ()
      ensures Valid() && View() == Terrarium(NoRoom, None, {}, None, [])
    {
      phase, room, bound, stack, sessions := NoRoom, None, {}, null, [];
    }

    /** A process is spawned: written to the open session. */
    method Spawned(p: Proc)
      requires sessions != []
      modifies this`sessions
      ensures forall steps :: Extends(old(sessions), steps, sessions, steps, [], [p])
    {
      var i := |sessions| - 1;
      sessions := sessions[i := sessions[i].(started := sessions[i].started + [p])];
      assert [] + [p] == [p];
      assert forall steps: seq<Proc> :: steps + [] == steps;
    }

    /** A process is started as its start comes out: spawned or not, pushed or not. */
    method Start(p: Proc, start: Start)
      requires stack != null && !stack.closed && sessions != []
      modifies this`sessions, stack
      ensures !stack.closed && Extends(old(sessions), old(stack.steps), sessions, stack.steps,
                                       if start.Pushed? then [p] else [], if start.Unpushed? then [p] else [])
    {
      ExtendsNone(sessions, stack.steps);
      if start.NotSpawned? {
        return;
      }
      Spawned(p);
      if start.Unpushed? {
        return;
      }
      PushedAfter(old(sessions), stack.steps, sessions, p);
      var _ := stack.Push(p);
    }

    /** One fixture of the fast path. False: something raised. */
    method BindOne(f: Fixture, i: nat) returns (ok: bool)
      requires stack != null && !stack.closed && sessions != []
      modifies this`bound, this`sessions, stack
      ensures !stack.closed && ok == GoesOn(f)
      ensures Extends(old(sessions), old(stack.steps), sessions, stack.steps, Mine(f, i), Stray(f, i))
      ensures ok ==> bound == old(bound) + if Binds(f) then {i} else {}
    {
      hide Extends;
      ExtendsNone(sessions, stack.steps);
      if f.LookupRaises? {
        return false;
      }
      if f.Simulated? {
        Start(Simulator(i), f.start);
        if !f.start.Pushed? || !f.binds {
          return false;
        }
      }
      if f.Simulated? || f.Reconnected? {
        bound := bound + {i};
      }
      ok := true;
    }

    /** `_bind_room_fast_path`, fixture by fixture in declaration order. */
    method FastPath(fs: seq<Fixture>) returns (ok: bool)
      requires stack != null && !stack.closed && sessions != []
      modifies this`bound, this`sessions, stack
      ensures var w := Wired(fs, 0);
        && !stack.closed && ok == w.ok
        && Extends(old(sessions), old(stack.steps), sessions, stack.steps, w.pushed, w.strays)
      ensures ok ==> bound == old(bound) + FastBound(fs)
    {
      hide BoundBefore;
      hide Wired;
      hide Mine;
      hide Stray;
      hide Extends;
      hide GoesOn;
      hide Binds;
      ghost var steps, old0 := stack.steps, sessions;
      ghost var so: seq<Proc> := [];
      BoundStep(fs, 0);
      ExtendsNone(old0, steps);
      WiredStart(fs);
      for i := 0 to |fs|
        invariant !stack.closed && sessions != [] && Extends(old0, steps, sessions, stack.steps, so, [])
        invariant Wired(fs, 0) == Begun(so + Wired(fs, i).pushed, Wired(fs, i).strays, Wired(fs, i).ok)
        invariant bound == old(bound) + BoundBefore(fs, i)
      {
        BoundStep(fs, i);
        WiredStep(fs, i, so);
        ghost var steps1, sessions1 := stack.steps, sessions;
        var bindsOn := BindOne(fs[i], i);
        ExtendsMore(old0, steps, sessions1, steps1, so, sessions, stack.steps, Mine(fs[i], i), Stray(fs[i], i));
        so := so + Mine(fs[i], i);
        if !bindsOn {
          return false;
        }
        ExtendsSome(old0, steps, sessions, stack.steps, so);
      }
      WiredEnd(fs, so);
      ok := true;
    }

    /** Past the checks: Arco, the fixtures, the wait. False: something raised on the way. */
    method Bring(a: Attempt) returns (ok: bool)
      requires stack != null && !stack.closed && stack.steps == [] && bound == {}
      requires sessions != [] && sessions[|sessions| - 1] == Session([], [])
      modifies this`bound, this`sessions, stack
      ensures var b := Brought(a);
        !stack.closed && ok == b.ok && Extends(old(sessions), [], sessions, stack.steps, b.pushed, b.strays)
      ensures ok ==> bound == AllBound(a)
    {
      hide Wired;
      hide BoundBefore;
      hide WaitFails;
      hide AllBound;
      hide Extends;
      Start(Arco, a.arco);
      ExtendsSome(old(sessions), [], sessions, stack.steps, if a.arco.Pushed? then [Arco] else []);
      if !a.arco.Pushed? || !a.arcoReady || !a.storeLoads {
        return false;
      }
      ghost var sessions1, steps1 := sessions, stack.steps;
      var wired := FastPath(a.fixtures);
      ExtendsMore(old(sessions), [], sessions1, steps1, [Arco], sessions, stack.steps,
                  Wired(a.fixtures, 0).pushed, Wired(a.fixtures, 0).strays);
      if wired {
        ok := Wait(a);
      } else {
        ok := false;
      }
    }

    method Wait(a: Attempt) returns (ok: bool)
      requires bound == FastBound(a.fixtures)
      modifies this`bound
      ensures ok == !WaitFails(a) && bound == AllBound(a)
    {
      var needed := set i | 0 <= i < |a.fixtures| && !a.fixtures[i].Covered?;
      if needed <= bound {
        return true;
      }
      bound := bound + a.tapped * needed;
      if a.waitRaises || (bound == {} && forall i :: 0 <= i < |a.fixtures| ==> !a.fixtures[i].Covered?) {
        return false;
      }
      ok := true;
    }

    /** The stack unwound, whatever its steps raise, and the session closed. */
    method Unwind(raises: set<Proc>)
      requires stack != null && !stack.closed && sessions != []
      modifies this`sessions, stack
      ensures stack.closed && sessions != [] && View() == Unwound(old(View()))
    {
      var i := |sessions| - 1;
      var ran, _ := stack.Close(raises);
      sessions := sessions[..i] + [sessions[i].(stopped := sessions[i].stopped + ran)];
    }

    /** A fresh stack and a session of its own, and everything the load brings up. */
    method BringUp(a: Attempt) returns (ok: bool)
      requires stack == null && bound == {}
      modifies this`stack, this`bound, this`sessions
      ensures stack != null && fresh(stack) && !stack.closed && ok == Brought(a).ok
      ensures stack.steps == Brought(a).pushed
      ensures sessions == old(sessions) + [Session(stack.steps + Brought(a).strays, [])]
      ensures ok ==> bound == AllBound(a) && stack.steps + Brought(a).strays == stack.steps
    {
      hide Brought;
      hide Extends;
      hide AllBound;
      stack := new TeardownStack<Proc>();
      sessions := sessions + [Session([], [])];
      assert sessions[..|sessions| - 1] == old(sessions);
      ghost var begun := sessions;
      ok := Bring(a);
      BegunSession(old(sessions), begun, sessions, stack.steps, a);
    }

    method LoadRoom(a: Attempt, raises: set<Proc>) returns (o: Outcome)
      requires Valid()
      modifies this
      ensures Valid() && (View(), o) == Load(old(View()), a)
    {
      hide Brought;
      hide AllBound;
      hide Reversed;
      if phase != NoRoom {
        return Refused;
      }
      room, bound, stack := None, {}, null;
      if a.refused {
        return Failed;
      }
      ghost var was := sessions;
      var ok := BringUp(a);
      if ok {
        room, phase := Some(a.name), Ready;
        return Loaded;
      }
      UnwoundFailed(View(), was, Brought(a).strays);
      hide Unwound;
      Unwind(raises);
      room, bound, stack := None, {}, null;
      o := Failed;
    }

    method UnloadRoom(busy: bool, force: bool, saveRaises: bool, clearRaises: bool, raises: set<Proc>)
      returns (o: Outcome)
      requires Valid()
      modifies this, stack
      ensures Valid() && (View(), o) == Unload(old(View()), busy, force, saveRaises, clearRaises)
    {
      if phase != Ready || (busy && !force) {
        return Refused;
      }
      phase := Unloading;
      if saveRaises {
        return Raised;
      }
      Unwind(raises);
      if clearRaises {
        return Raised;
      }
      room, bound, stack, phase := None, {}, null, NoRoom;
      o := Loaded;
    }

    method RecycleRoom(a: Attempt, saveRaises: bool, clearRaises: bool, raises: set<Proc>) returns (o: Outcome)
      requires Valid()
      modifies this, stack
      ensures Valid() && (View(), o) == Recycle(old(View()), a, saveRaises, clearRaises)
    {
      if phase != Ready {
        return Refused;
      }
      hide Load;
      o := UnloadRoom(true, true, saveRaises, clearRaises, raises);
      if o == Loaded {
        o := LoadRoom(a, raises);
      }
    }
  }

  lemma PushedAfter(sessions: seq<Session>, steps: seq<Proc>, sessions': seq<Session>, p: Proc)
    requires Extends(sessions, steps, sessions', steps, [], [p])
    ensures Extends(sessions, steps, sessions', steps + [p], [p], [])
  {
    assert [] + [p] == [p] + [];
  }

  /** An open session is still open to the next process when none strayed. */
  lemma ExtendsSome(sessions: seq<Session>, steps: seq<Proc>, sessions': seq<Session>, steps': seq<Proc>, so: seq<Proc>)
    ensures forall strays :: Extends(sessions, steps, sessions', steps', so, strays) ==> sessions' != []
  {
  }

  /** The session begun for a load, once the load has come out. */
  lemma BegunSession(was: seq<Session>, begun: seq<Session>, sessions: seq<Session>, steps: seq<Proc>, a: Attempt)
    requires begun == was + [Session([], [])]
    requires Extends(begun, [], sessions, steps, Brought(a).pushed, Brought(a).strays)
    ensures steps == Brought(a).pushed && sessions == was + [Session(steps + Brought(a).strays, [])]
    ensures Brought(a).ok ==> steps + Brought(a).strays == steps
  {
    assert [] + Brought(a).pushed == Brought(a).pushed;
    assert [] + (Brought(a).pushed + Brought(a).strays) == Brought(a).pushed + Brought(a).strays;
    assert begun[..|begun| - 1] == was;
    assert sessions == sessions[..|begun| - 1] + [sessions[|begun| - 1]];
    BroughtHubFirst(a);
  }

  lemma UnwoundFailed(t: Terrarium, was: seq<Session>, strays: seq<Proc>)
    requires t.stack.Some? && t.sessions == was + [Session(t.stack.value + strays, [])]
    ensures Unwound(t).sessions == was + [Session(t.stack.value + strays, Reversed(t.stack.value))]
  {
    assert [] + Reversed(t.stack.value) == Reversed(t.stack.value);
    assert t.sessions[..|t.sessions| - 1] == was;
  }

  lemma BoundStep(fs: seq<Fixture>, i: nat)
    requires i <= |fs|
    ensures BoundBefore(fs, 0) == {}
    ensures i < |fs| ==> BoundBefore(fs, i + 1) == BoundBefore(fs, i) + if Binds(fs[i]) then {i} else {}
  {
  }
}
