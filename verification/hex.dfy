/** Axial hex-lattice arithmetic of hex.py: cells `Hex(q, r)` with the derived
    third coordinate `s`, the odd-r offset grid conversion, the six direction
    vectors, neighbourhoods, the two-segment `hop` chooser and 60-degree
    rotation. Python's `&1` on an int agrees with Dafny's Euclidean `% 2`
    (both give 1 for odd negatives), and the halving in `to_grid` is exact. */
module HexGrid {

  /** Equality of two cells is equality of `(q, r)`, as the source's `__eq__`
      and `__hash__` define it. */
  datatype Hex = Hex(q: int, r: int) {
    /** The derived cube coordinate. */
    function S(): (s: int)
      ensures q + r + s == 0
    {
      -q - r
    }
  }

  /** `axial_direction_vectors`, in list order. */
  const Directions: seq<Hex> := [Hex(1, 0), Hex(1, -1), Hex(0, -1), Hex(-1, 0), Hex(-1, 1), Hex(0, 1)]

  function Add(a: Hex, b: Hex): (c: Hex)
    ensures c.S() == a.S() + b.S()
  {
    Hex(a.q + b.q, a.r + b.r)
  }

  function Sub(a: Hex, b: Hex): (c: Hex)
    ensures c.S() == a.S() - b.S()
  {
    Hex(a.q - b.q, a.r - b.r)
  }

  lemma AddSub(a: Hex, b: Hex)
    ensures Sub(Add(a, b), b) == a && Add(Sub(a, b), b) == a
  {
  }

  function Abs(x: int): nat {
    if x < 0 then -x else x
  }

  function Max3(x: int, y: int, z: int): int {
    if x >= y && x >= z then x else if y >= z then y else z
  }

  /** Hex distance from the origin. */
  function Norm(h: Hex): nat {
    Max3(Abs(h.q), Abs(h.r), Abs(h.S()))
  }

  /** `seg` inside `hop`: the hex distance between two cells. */
  function Seg(a: Hex, b: Hex): (d: nat)
    ensures d == Norm(Sub(a, b))
    ensures d == 0 <==> a == b
  {
    Max3(Abs(a.q - b.q), Abs(a.r - b.r), Abs(a.S() - b.S()))
  }

  // ---------------------------------------------------------------- offset grid

  /** `to_grid`: axial to odd-r offset `(col, row)`. */
  function ToGrid(h: Hex): (int, int) {
    (h.q + (h.r - h.r % 2) / 2, h.r)
  }

  /** The integer half of `from_xy`: offset `(col, row)` back to axial. */
  function FromGrid(col: int, row: int): Hex {
    Hex(col - (row - row % 2) / 2, row)
  }

  lemma GridRoundTrip(h: Hex, col: int, row: int)
    ensures FromGrid(ToGrid(h).0, ToGrid(h).1) == h
    ensures ToGrid(FromGrid(col, row)) == (col, row)
  {
  }

  // ---------------------------------------------------------------- neighbours

  /** `neighbors()`: the cell itself, then one step along each direction vector. */
  function Neighbors(h: Hex): (n: seq<Hex>)
    ensures |n| == 7 && n[0] == h
    ensures forall i :: 0 <= i < 6 ==> n[i + 1] == Add(h, Directions[i])
  {
    [h] + seq(6, i requires 0 <= i < 6 => Add(h, Directions[i]))
  }

  /** The six direction vectors are exactly the offsets of length one. */
  lemma UnitOffsets(d: Hex)
    ensures Norm(d) == 1 <==> d in Directions
  {
    if Norm(d) == 1 {
      assert -1 <= d.q <= 1 && -1 <= d.r <= 1;
      if d.q == 1 {
        assert d.r == 0 || d.r == -1;
      } else if d.q == 0 {
        assert d.r == -1 || d.r == 1;
      } else {
        assert d.r == 0 || d.r == 1;
      }
    }
  }

  /** The seven cells of `Neighbors` are distinct. */
  lemma NeighborsDistinct(h: Hex)
    ensures forall i, j :: 0 <= i < j < 7 ==> Neighbors(h)[i] != Neighbors(h)[j]
  {
    var n := Neighbors(h);
    forall i, j | 0 <= i < j < 7 ensures n[i] != n[j] {
      var dj := Directions[j - 1];
      assert Sub(n[j], h) == dj;
      DirectionsDistinct(i, j);
      if i > 0 {
        var di := Directions[i - 1];
        assert Sub(n[i], h) == di;
        DirectionsDistinct(i, j);
      }
    }
  }

  /** No direction vector is zero, and no two coincide. */
  lemma DirectionsDistinct(i: int, j: int)
    requires 0 <= i < j < 7
    ensures Directions[j - 1] != Hex(0, 0)
    ensures i > 0 ==> Directions[i - 1] != Directions[j - 1]
  {
  }

  /** The six cells of `Neighbors` other than the cell itself are exactly the
      cells at distance one from it. */
  lemma NeighborsAdjacent(h: Hex, x: Hex)
    ensures Seg(x, h) == 1 <==> x in Neighbors(h)[1..]
  {
    var n := Neighbors(h);
    var d := Sub(x, h);
    UnitOffsets(d);
    if Seg(x, h) == 1 {
      assert Add(h, d) == x;
      var k :| 0 <= k < 6 && Directions[k] == d;
      assert n[1..][k] == x;
    }
  }

  // ---------------------------------------------------------------- neighbourhood

  /** Innermost loop of `neighborhood`: `s` runs from `s` up to `R - 1`. */
  function SLoop(h: Hex, R: int, q: int, r: int, s: int): seq<Hex>
    decreases R - s
  {
    if s >= R then []
    else (if q + r + s == 0 then [Add(h, Hex(q, r))] else []) + SLoop(h, R, q, r, s + 1)
  }

  /** Middle loop of `neighborhood`: `r` runs from `r` up to `R - 1`. */
  function RLoop(h: Hex, R: int, q: int, r: int): seq<Hex>
    decreases R - r
  {
    if r >= R then [] else SLoop(h, R, q, r, -R) + RLoop(h, R, q, r + 1)
  }

  /** Outer loop of `neighborhood`: `q` runs from `q` up to `R - 1`. */
  function QLoop(h: Hex, R: int, q: int): seq<Hex>
    decreases R - q
  {
    if q >= R then [] else RLoop(h, R, q, -R) + QLoop(h, R, q + 1)
  }

  /** `neighborhood(R)`. Each coordinate ranges over Python's `range(-R, R)`,
      which stops short of `R`. */
  function Neighborhood(h: Hex, R: int): seq<Hex> {
    QLoop(h, R, -R)
  }

  /** The offset box `neighborhood` draws from: every cube coordinate in `[-R, R)`. */
  predicate InBox(o: Hex, R: int) {
    -R <= o.q < R && -R <= o.r < R && -R <= o.S() < R
  }

  predicate Distinct(xs: seq<Hex>) {
    forall i, j :: 0 <= i < j < |xs| ==> xs[i] != xs[j]
  }

  lemma DistinctConcat(xs: seq<Hex>, ys: seq<Hex>)
    requires Distinct(xs) && Distinct(ys)
    requires forall x :: x in xs ==> x !in ys
    ensures Distinct(xs + ys)
  {
    var zs := xs + ys;
    forall i, j | 0 <= i < j < |zs| ensures zs[i] != zs[j] {
      if j >= |xs| && i < |xs| {
        assert zs[i] in xs && zs[j] == ys[j - |xs|];
      }
      if i >= |xs| {
        assert zs[i] == ys[i - |xs|] && zs[j] == ys[j - |xs|];
      }
    }
  }

  lemma {:induction false} SLoopFacts(h: Hex, R: int, q: int, r: int, s: int)
    ensures Distinct(SLoop(h, R, q, r, s))
    ensures forall x :: x in SLoop(h, R, q, r, s) <==> Sub(x, h) == Hex(q, r) && s <= -q - r < R
    decreases R - s
  {
    if s < R {
      SLoopFacts(h, R, q, r, s + 1);
      var head := if q + r + s == 0 then [Add(h, Hex(q, r))] else [];
      assert SLoop(h, R, q, r, s) == head + SLoop(h, R, q, r, s + 1);
      forall x | x in head ensures x !in SLoop(h, R, q, r, s + 1) {
        AddSub(h, Hex(q, r));
      }
      DistinctConcat(head, SLoop(h, R, q, r, s + 1));
      forall x ensures x in SLoop(h, R, q, r, s) <==> Sub(x, h) == Hex(q, r) && s <= -q - r < R {
        AddSub(x, h);
        AddSub(h, Hex(q, r));
        assert x in SLoop(h, R, q, r, s) <==> x in head || x in SLoop(h, R, q, r, s + 1);
      }
    }
  }

  lemma {:induction false} RLoopFacts(h: Hex, R: int, q: int, r: int)
    ensures Distinct(RLoop(h, R, q, r))
    ensures forall x :: x in RLoop(h, R, q, r) <==>
      Sub(x, h).q == q && r <= Sub(x, h).r < R && -R <= Sub(x, h).S() < R
    decreases R - r
  {
    if r < R {
      SLoopFacts(h, R, q, r, -R);
      RLoopFacts(h, R, q, r + 1);
      DistinctConcat(SLoop(h, R, q, r, -R), RLoop(h, R, q, r + 1));
      forall x ensures x in RLoop(h, R, q, r) <==>
        Sub(x, h).q == q && r <= Sub(x, h).r < R && -R <= Sub(x, h).S() < R
      {
        assert x in RLoop(h, R, q, r) <==> x in SLoop(h, R, q, r, -R) || x in RLoop(h, R, q, r + 1);
      }
    }
  }

  lemma {:induction false} QLoopFacts(h: Hex, R: int, q: int)
    ensures Distinct(QLoop(h, R, q))
    ensures forall x :: x in QLoop(h, R, q) <==>
      q <= Sub(x, h).q < R && -R <= Sub(x, h).r < R && -R <= Sub(x, h).S() < R
    decreases R - q
  {
    if q < R {
      RLoopFacts(h, R, q, -R);
      QLoopFacts(h, R, q + 1);
      DistinctConcat(RLoop(h, R, q, -R), QLoop(h, R, q + 1));
      forall x ensures x in QLoop(h, R, q) <==>
        q <= Sub(x, h).q < R && -R <= Sub(x, h).r < R && -R <= Sub(x, h).S() < R
      {
        assert x in QLoop(h, R, q) <==> x in RLoop(h, R, q, -R) || x in QLoop(h, R, q + 1);
      }
    }
  }

  /** A cell is yielded by `neighborhood(R)` exactly when its offset lies in the
      box, and no cell is yielded twice. */
  lemma NeighborhoodMembers(h: Hex, R: int)
    ensures Distinct(Neighborhood(h, R))
    ensures forall x :: x in Neighborhood(h, R) <==> InBox(Sub(x, h), R)
  {
    QLoopFacts(h, R, -R);
  }

  // ---------------------------------------------------------------- route and hop

  /** `route(goal)`: the breadth-first search after its first `return` is dead
      code, so the route is the two endpoints. */
  function Route(a: Hex, goal: Hex): (p: seq<Hex>)
    ensures |p| == 2 && p[0] == a && p[|p| - 1] == goal
  {
    [a, goal]
  }

  /** `ll` inside `hop`: summed hex length of consecutive segments. */
  function PathLength(p: seq<Hex>): nat {
    if |p| < 2 then 0 else Seg(p[0], p[1]) + PathLength(p[1..])
  }

  /** The four candidate paths of `hop`, in the order the source builds them. */
  function HopCandidates(a: Hex, o: Hex): (cs: seq<seq<Hex>>)
    ensures |cs| == 4
    ensures forall k :: 0 <= k < 4 ==> |cs[k]| == 3 && cs[k][0] == a && cs[k][2] == o
  {
    var x := o.S() - a.S();
    [[a, Hex(o.q, a.r), o], [a, Hex(a.q, o.r), o], [a, Hex(a.q - x, a.r), o], [a, Hex(a.q, a.r - x), o]]
  }

  /** The dictionary `{ll(p): p}` built over `cs[..i]` followed by a lookup of
      the least key: a later candidate of equal length overwrites an earlier one. */
  function Ranked(cs: seq<seq<Hex>>, i: nat): (k: nat)
    requires 1 <= i <= |cs|
    ensures k < i
    ensures forall j :: 0 <= j < i ==> PathLength(cs[k]) <= PathLength(cs[j])
    ensures forall j :: k < j < i ==> PathLength(cs[j]) > PathLength(cs[k])
  {
    if i == 1 then 0
    else
      var k := Ranked(cs, i - 1);
      if PathLength(cs[i - 1]) <= PathLength(cs[k]) then i - 1 else k
  }

  /** `hop(other)`: the shortest of the four candidates, the last one on a tie. */
  function Hop(a: Hex, o: Hex): (p: seq<Hex>)
    ensures |p| == 3 && p[0] == a && p[2] == o
    ensures exists k :: (0 <= k < 4 && p == HopCandidates(a, o)[k]
      && (forall j :: 0 <= j < 4 ==> PathLength(p) <= PathLength(HopCandidates(a, o)[j]))
      && (forall j :: k < j < 4 ==> PathLength(HopCandidates(a, o)[j]) > PathLength(p)))
  {
    var cs := HopCandidates(a, o);
    var k := Ranked(cs, 4);
    cs[k]
  }

  // ---------------------------------------------------------------- rotation

  /** `rot(a)`: rotation about the origin by `a` sixths of a turn. Python's
      `a %= 6` agrees with Dafny's `%` for a positive modulus. */
  function Rot(h: Hex, a: int): Hex {
    Sixths(h, a % 6)
  }

  /** The six cases of `rot` after `a %= 6`. */
  function Sixths(h: Hex, k: int): Hex
    requires 0 <= k < 6
  {
    if k == 0 then h
    else if k == 1 then Hex(-h.r, -h.S())
    else if k == 2 then Hex(h.S(), h.q)
    else if k == 3 then Hex(-h.q, -h.r)
    else if k == 4 then Hex(h.r, h.S())
    else Hex(-h.S(), -h.q)
  }

  /** Rotation keeps the distance from the origin (the measure `seg` uses). */
  lemma RotNorm(h: Hex, a: int)
    ensures Norm(Rot(h, a)) == Norm(h)
  {
    var k := a % 6;
    var x, y, z := Abs(h.q), Abs(h.r), Abs(h.S());
    assert Norm(h) == Max3(x, y, z);
    if k == 1 || k == 4 {
      assert Norm(Rot(h, a)) == Max3(y, z, x);
    } else if k == 2 || k == 5 {
      assert Norm(Rot(h, a)) == Max3(z, x, y);
    }
  }

  lemma RotFacts(h: Hex, a: int)
    ensures Rot(h, a) == Rot(h, a % 6) == Rot(h, a + 6)
    ensures Rot(h, 0) == h
    ensures Rot(h, 3) == Hex(-h.q, -h.r)
    ensures Rot(Rot(h, 1), 1) == Rot(h, 2)
  {
    assert (a + 6) % 6 == a % 6;
  }

  /** One sixth more is one more application of the first case. */
  lemma SixthsSucc(h: Hex, k: int)
    requires 0 <= k < 6
    ensures Sixths(h, if k == 5 then 0 else k + 1) == Sixths(Sixths(h, k), 1)
  {
  }

  lemma {:induction false} SixthsCompose(h: Hex, i: int, j: int)
    requires 0 <= i < 6 && 0 <= j < 6
    ensures Sixths(Sixths(h, i), j) == Sixths(h, if i + j >= 6 then i + j - 6 else i + j)
  {
    if j > 0 {
      var m := if i + j - 1 >= 6 then i + j - 7 else i + j - 1;
      calc {
        Sixths(Sixths(h, i), j);
        { SixthsSucc(Sixths(h, i), j - 1); }
        Sixths(Sixths(Sixths(h, i), j - 1), 1);
        { SixthsCompose(h, i, j - 1); }
        Sixths(Sixths(h, m), 1);
        { SixthsSucc(h, m); }
        Sixths(h, if i + j >= 6 then i + j - 6 else i + j);
      }
    }
  }

  /** Rotations compose by adding their sixths. */
  lemma RotCompose(h: Hex, a: int, b: int)
    ensures Rot(Rot(h, a), b) == Rot(h, a + b)
  {
    var i, j := a % 6, b % 6;
    assert (a + b) % 6 == if i + j >= 6 then i + j - 6 else i + j;
    SixthsCompose(h, i, j);
  }

  /** Rotation is linear: it commutes with `Add`. */
  lemma RotAdd(x: Hex, y: Hex, a: int)
    ensures Rot(Add(x, y), a) == Add(Rot(x, a), Rot(y, a))
  {
    var i := a % 6;
    if i == 0 {
    } else if i == 1 {
    } else if i == 2 {
    } else if i == 3 {
    } else if i == 4 {
    } else {
    }
  }
}
