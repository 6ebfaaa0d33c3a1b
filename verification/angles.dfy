/** Headings and the Python numeric conversions the engine relies on.
    Headings are degrees held as reals; Python's float `%` with the positive
    divisor 360 always yields a value in [0, 360). */
module Angles {

  /** A measure that shrinks as `Mod360` brings `x` towards [0, 360). */
  function Distance360(x: real): nat {
    if x >= 360.0 then x.Floor else if x < 0.0 then (-x).Floor + 1 else 0
  }

  /** Python `x % 360` on a float, by adding or removing whole turns. */
  function Mod360(x: real): (r: real)
    ensures 0.0 <= r < 360.0
    decreases Distance360(x)
  {
    if x >= 360.0 then Mod360(x - 360.0)
    else if x < 0.0 then Mod360(x + 360.0)
    else x
  }

  /** Python defines the float remainder through the floor of the quotient;
      the turn-by-turn definition agrees with it everywhere. */
  lemma {:induction false} Mod360IsFloorRemainder(x: real)
    ensures Mod360(x) == x - 360.0 * (x / 360.0).Floor as real
  {
    var k := Mod360Turns(x);
    var r := Mod360(x);
    assert x / 360.0 == k as real + r / 360.0;
    FloorOfWholePlusFraction(k, r / 360.0);
  }

  lemma FloorOfWholePlusFraction(k: int, f: real)
    requires 0.0 <= f < 1.0
    ensures (k as real + f).Floor == k
  {
  }

  /** `Mod360(x)` differs from `x` by whole turns. */
  lemma {:induction false} Mod360Turns(x: real) returns (k: int)
    ensures x == Mod360(x) + 360.0 * k as real
    decreases Distance360(x)
  {
    if x >= 360.0 {
      var k' := Mod360Turns(x - 360.0);
      k := k' + 1;
    } else if x < 0.0 {
      var k' := Mod360Turns(x + 360.0);
      k := k' - 1;
    } else {
      k := 0;
    }
  }

  lemma {:induction false} Mod360ShiftOne(x: real)
    ensures Mod360(x + 360.0) == Mod360(x)
  {
  }

  /** Adding whole turns does not change a heading. */
  lemma {:induction false} Mod360Shift(x: real, k: int)
    ensures Mod360(x + 360.0 * k as real) == Mod360(x)
    decreases if k >= 0 then k else -k
  {
    if k > 0 {
      Mod360Shift(x, k - 1);
      Mod360ShiftOne(x + 360.0 * (k - 1) as real);
    } else if k < 0 {
      Mod360Shift(x, k + 1);
      Mod360ShiftOne(x + 360.0 * k as real);
    }
  }

  lemma Mod360OfNormal(x: real)
    requires 0.0 <= x < 360.0
    ensures Mod360(x) == x
  {
  }

  /** Reducing before adding is the same as reducing after. */
  lemma Mod360Add(x: real, y: real)
    ensures Mod360(Mod360(x) + y) == Mod360(x + y)
  {
    var k := Mod360Turns(x);
    Mod360Shift(Mod360(x) + y, k);
    assert Mod360(x) + y + 360.0 * k as real == x + y;
  }

  /** Python `int(x)` on a float: truncation towards zero. */
  function Trunc(x: real): (n: int)
    ensures x >= 0.0 ==> n as real <= x < n as real + 1.0
    ensures x < 0.0 ==> n as real - 1.0 < x <= n as real
  {
    if x >= 0.0 then x.Floor else -((-x).Floor)
  }

  /** Python `round(x)` on a float: to the nearest integer, ties to even. */
  function RoundHalfEven(x: real): (n: int)
    ensures x - 0.5 <= n as real <= x + 0.5
    ensures n as real == x - 0.5 || n as real == x + 0.5 ==> n % 2 == 0
  {
    var f := x.Floor;
    var frac := x - f as real;
    if frac < 0.5 then f
    else if frac > 0.5 then f + 1
    else if f % 2 == 0 then f
    else f + 1
  }
}
