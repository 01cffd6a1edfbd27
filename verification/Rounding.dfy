/** Python's `round`, half to even, on reals. */
module Rounding {

  function Round(x: real): (n: int)
    ensures x - 0.5 <= n as real <= x + 0.5
    ensures n as real == x + 0.5 || n as real == x - 0.5 ==> n % 2 == 0
  {
    var f := x.Floor;
    var d := x - f as real;
    if d < 0.5 then f
    else if d > 0.5 then f + 1
    else if f % 2 == 0 then f
    else f + 1
  }

  lemma RoundIsMonotone(x: real, y: real)
    requires x <= y
    ensures Round(x) <= Round(y)
  {
    var m, n := Round(x), Round(y);
    if n < m {
      // both would be the half-way case of one real, hence both even, yet one apart
      assert false;
    }
  }

  lemma RoundOfInteger(n: int)
    ensures Round(n as real) == n
  {
  }

  const BILLION := 1000000000.0

  /** `_snap`: a beat rounded to nine decimal places. */
  function Snap(beat: real): real { Round(beat * BILLION) as real / BILLION }

  /** The nearest multiple of a thousand-millionth. */
  lemma SnapIsNearest(beat: real)
    ensures Snap(beat) * 1000000000.0 == Round(beat * 1000000000.0) as real
    ensures -0.5 <= (beat - Snap(beat)) * 1000000000.0 <= 0.5
  {
  }

  lemma SnapIsMonotone(x: real, y: real)
    requires x <= y
    ensures Snap(x) <= Snap(y)
  {
    RoundIsMonotone(x * BILLION, y * BILLION);
  }

  lemma SnapIsIdempotent(x: real)
    ensures Snap(Snap(x)) == Snap(x)
  {
    RoundOfInteger(Round(x * BILLION));
  }

  /** A whole beat stays where it is. */
  lemma SnapOfWholeBeat(n: int)
    ensures Snap(n as real) == n as real
  {
    RoundOfInteger(n * 1000000000);
    assert n as real * BILLION == (n * 1000000000) as real;
  }
}
