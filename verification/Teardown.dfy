/** control/teardown.py: named steps, run once each, last pushed first, whatever they raise. */
module Teardowns {

  function Reversed<T>(s: seq<T>): (r: seq<T>)
    ensures |r| == |s| && forall i :: 0 <= i < |s| ==> r[i] == s[|s| - 1 - i]
  {
    if s == [] then [] else [s[|s| - 1]] + Reversed(s[..|s| - 1])
  }

  function Raising<T(==,!new)>(ran: seq<T>, raises: set<T>): (r: seq<T>)
    ensures forall x :: x in r <==> x in ran && x in raises
  {
    if ran == [] then []
    else
      assert ran == ran[..|ran| - 1] + [ran[|ran| - 1]];
      Raising(ran[..|ran| - 1], raises) + if ran[|ran| - 1] in raises then [ran[|ran| - 1]] else []
  }

  class TeardownStack<T(==,!new)> {
    var steps: seq<T>
    var closed: bool

    constructor ()
      ensures steps == [] && !closed
    {
      steps, closed := [], false;
    }

    /** False: refused, the stack is closed and the step would never run. */
    method Push(step: T) returns (ok: bool)
      modifies this`steps
      ensures ok == !closed && steps == if ok then old(steps) + [step] else old(steps)
    {
      if closed {
        return false;
      }
      steps := steps + [step];
      ok := true;
    }

    /** Every step once, in reverse push order, however many raise; a second call does nothing. */
    method Close(raises: set<T>) returns (ran: seq<T>, failures: seq<T>)
      modifies this
      ensures closed && (old(closed) ==> steps == old(steps)) && (!old(closed) ==> steps == [])
      ensures ran == (if old(closed) then [] else Reversed(old(steps))) && failures == Raising(ran, raises)
    {
      ran, failures := [], [];
      if closed {
        return;
      }
      closed := true;
      while steps != []
        invariant closed && steps <= old(steps)
        invariant Reversed(old(steps)) == ran + Reversed(steps) && failures == Raising(ran, raises)
        decreases |steps|
      {
        var step := steps[|steps| - 1];
        steps := steps[..|steps| - 1];
        assert (ran + [step])[..|ran|] == ran;
        ran := ran + [step];
        if step in raises {
          failures := failures + [step];
        }
      }
    }
  }
}
