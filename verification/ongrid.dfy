/** How hexboard.py joins a cursor or a river to the hex lattice.
    `river_ongrid` demands a lattice heading, shimmies the river sideways
    onto the lattice and steps every member forward onto its cell;
    `wire_ongrid` moves a cursor onto the lattice, wires it and snaps its
    heading to the nearest lattice heading. The lattice's six headings point
    from a cell to its neighbours in a pointy-top layout. `best_forward` is
    shapely geometry and enters as a parameter. */
module OnGrid {
  import opened Results
  import opened Angles
  import opened Turtle
  import opened Rivers

  /** The six headings accepted by `river_ongrid`. */
  const GridHeadings: set<real> := {30.0, 90.0, 150.0, 210.0, 270.0, 330.0}

  /** `best_forward(p)`: the offset `(dx, dy)` of the lattice neighbour
      ahead of `p` with the least `|dx|`, or `None` when no neighbour lies
      ahead and `min` gets an empty list. */
  type Seeker = Draw -> Option<(real, real)>

  const NoCandidate: string := "ValueError: min() arg is an empty sequence"

  /** The assertion at the top of `river_ongrid`. */
  predicate OnLattice(rv: River) {
    |rv.tt| > 0 && rv.tt[0].dir in GridHeadings
  }

  /** A member that `best_forward` finds a neighbour for, at most 0.010
      to the side: the `assert dx < 0.010` of `river_ongrid`. */
  predicate Seated(best: Seeker, t: Draw) {
    best(t).Some? && best(t).value.0 < 0.010
  }

  /** The forward offset of a seated member. */
  function Dy(best: Seeker, t: Draw): real
    requires Seated(best, t)
  {
    best(t).value.1
  }

  /** Every member stepped forward by its own `dy`. */
  function Advance(tt: seq<Draw>, step: Stepper, best: Seeker): (moved: seq<Draw>)
    requires forall i :: 0 <= i < |tt| ==> Seated(best, tt[i])
    ensures |moved| == |tt|
    ensures forall i :: 0 <= i < |tt| ==> moved[i] == Forward(tt[i], step, Dy(best, tt[i]))
  {
    seq(|tt|, i requires 0 <= i < |tt| => Forward(tt[i], step, Dy(best, tt[i])))
  }

  /** The loop `for t in rr.tt: … assert dx < 0.010; t.forward(dy).wire()`.
      Forwarding and wiring one member at a time comes to the same as
      forwarding them all and then wiring the river. */
  function ForwardAll(tt: seq<Draw>, b: Board, step: Stepper, best: Seeker): (r: Result<(seq<Draw>, Board)>)
    requires b.Valid()
    ensures r.Ok? <==> forall i :: 0 <= i < |tt| ==> Seated(best, tt[i])
    ensures r.Err? ==> r.error == NoCandidate || r.error == "AssertionError"
    ensures r.Ok? ==> r.value == WireAll(Advance(tt, step, best), b)
  {
    if tt == [] then Ok(([], b))
    else
      var o := best(tt[0]);
      if o.None? then Err(NoCandidate)
      else if !(o.value.0 < 0.010) then Err("AssertionError")
      else
        var (t0, b1) := Wire(Forward(tt[0], step, o.value.1), b, GTL).value;
        var rest :- ForwardAll(tt[1..], b1, step, best);
        AdvanceTail(tt, step, best);
        Ok(([t0] + rest.0, rest.1))
  }

  /** After the loop every member has stepped forward by its own `dy` on
      its own heading and holds a fresh one-point path. */
  lemma ForwardAllFacts(tt: seq<Draw>, b: Board, step: Stepper, best: Seeker)
    requires b.Valid() && ForwardAll(tt, b, step, best).Ok?
    ensures var out := ForwardAll(tt, b, step, best).value.0;
      |out| == |tt| && forall i :: 0 <= i < |tt| ==>
        && out[i].xy == step(tt[i].xy, tt[i].dir, Dy(best, tt[i]))
        && out[i].dir == tt[i].dir && out[i].stack == tt[i].stack
        && out[i].path == [out[i].xy]
  {
    var moved := Advance(tt, step, best);
    var out := WireAll(moved, b).0;
    forall i | 0 <= i < |tt|
      ensures out[i].xy == step(tt[i].xy, tt[i].dir, Dy(best, tt[i]))
      ensures out[i].dir == tt[i].dir && out[i].stack == tt[i].stack && out[i].path == [out[i].xy]
    {
      assert moved[i] == Forward(tt[i], step, Dy(best, tt[i]));
      assert |moved[i].path| >= 1;
    }
  }

  lemma AdvanceTail(tt: seq<Draw>, step: Stepper, best: Seeker)
    requires |tt| > 0 && forall i :: 0 <= i < |tt| ==> Seated(best, tt[i])
    ensures Advance(tt, step, best)[1..] == Advance(tt[1..], step, best)
  {
  }

  lemma ShimmyHeadings(rv: River, sh: River, step: Stepper, d: real, acosDeg: real -> real)
    requires Shimmy(rv, step, d, acosDeg) == Ok(sh)
    ensures NormalHeadings(rv) ==> forall i :: 0 <= i < |rv.tt| ==> sh.tt[i].dir == rv.tt[i].dir
  {
    if NormalHeadings(rv) {
      ShimmyKeepsHeadings(rv, step, d, acosDeg);
    }
  }

  /** The closing loop of `river_ongrid` on the shimmied river `sh`. */
  function SeatRiver(sh: River, b: Board, step: Stepper, best: Seeker): (r: Result<(River, Board)>)
    requires b.Valid()
    ensures r.Ok? <==> forall i :: 0 <= i < |sh.tt| ==> Seated(best, sh.tt[i])
    ensures r.Ok? ==> r.value.0.c == sh.c && |r.value.0.tt| == |sh.tt|
    ensures r.Ok? ==> forall i :: 0 <= i < |sh.tt| ==>
      && r.value.0.tt[i].xy == step(sh.tt[i].xy, sh.tt[i].dir, Dy(best, sh.tt[i]))
      && r.value.0.tt[i].dir == sh.tt[i].dir
      && r.value.0.tt[i].path == [r.value.0.tt[i].xy]
    ensures r.Ok? ==> r.value.1.Valid() && r.value.1.parts == b.parts && r.value.1.C() == b.C()
    ensures r.Ok? ==> forall n :: n in b.layers && n != GTL ==> r.value.1.layers[n] == b.layers[n]
    ensures r.Ok? ==> b.layers[GTL].polys <= r.value.1.layers[GTL].polys
  {
    var fw :- ForwardAll(sh.tt, b, step, best);
    ForwardAllFacts(sh.tt, b, step, best);
    Ok((River(fw.0, sh.c), fw.1))
  }

  /** `river_ongrid(rr)`: the heading assertion, a shimmy by `-dx` of the
      first member's offset, then every member forward onto its cell and
      wired. The river comes back with the board its wiring drew on. */
  function RiverOnGrid(rv: River, b: Board, step: Stepper, best: Seeker, acosDeg: real -> real): (r: Result<(River, Board)>)
    requires b.Valid()
    ensures |rv.tt| == 0 ==> r == Err("IndexError: list index out of range")
    ensures |rv.tt| > 0 && !OnLattice(rv) ==> r == Err("AssertionError")
    ensures OnLattice(rv) && best(rv.tt[0]).None? ==> r == Err(NoCandidate)
    ensures r.Ok? ==> OnLattice(rv)
    ensures r.Ok? ==> r.value.0.c == rv.c && |r.value.0.tt| == |rv.tt|
    ensures r.Ok? ==> forall i :: 0 <= i < |rv.tt| ==> r.value.0.tt[i].path == [r.value.0.tt[i].xy]
    ensures r.Ok? && NormalHeadings(rv) ==> forall i :: 0 <= i < |rv.tt| ==> r.value.0.tt[i].dir == rv.tt[i].dir
    ensures r.Ok? ==> r.value.1.Valid() && r.value.1.parts == b.parts && r.value.1.C() == b.C()
    ensures r.Ok? ==> forall n :: n in b.layers && n != GTL ==> r.value.1.layers[n] == b.layers[n]
    ensures r.Ok? ==> b.layers[GTL].polys <= r.value.1.layers[GTL].polys
  {
    if |rv.tt| == 0 then Err("IndexError: list index out of range")
    else if rv.tt[0].dir !in GridHeadings then Err("AssertionError")
    else
      var o := best(rv.tt[0]);
      if o.None? then Err(NoCandidate)
      else
        var shimmied := Shimmy(rv, step, -o.value.0, acosDeg);
        if shimmied.Err? then Err(shimmied.error)
        else
          var sh := shimmied.value;
          ShimmyHeadings(rv, sh, step, -o.value.0, acosDeg);
          SeatRiver(sh, b, step, best)
  }

  /** The last line of `wire_ongrid`: `30 + 60 * round((dir - 30) / 60)`. */
  function Snap(dir: real): real {
    30.0 + 60.0 * RoundHalfEven((dir - 30.0) / 60.0) as real
  }

  /** A normalised heading snaps onto one of the six lattice headings, at
      most 30 degrees away. */
  lemma SnapOnGrid(dir: real)
    requires 0.0 <= dir < 360.0
    ensures Snap(dir) in GridHeadings
    ensures -30.0 <= Snap(dir) - dir <= 30.0
  {
    var x := (dir - 30.0) / 60.0;
    var n := RoundHalfEven(x);
    assert -0.5 <= x < 5.5;
    assert 0 <= n <= 5;
    assert Snap(dir) == 30.0 + 60.0 * n as real;
    assert n == 0 || n == 1 || n == 2 || n == 3 || n == 4 || n == 5;
  }

  /** A lattice heading is left where it is. */
  lemma SnapFixesGrid(dir: real)
    requires dir in GridHeadings
    ensures Snap(dir) == dir
  {
    var x := (dir - 30.0) / 60.0;
    assert x == 0.0 || x == 1.0 || x == 2.0 || x == 3.0 || x == 4.0 || x == 5.0;
    assert RoundHalfEven(x) as real == x;
  }

  /** `wire_ongrid(p)` from the point where `goyx(dx, dy)` has moved the
      cursor onto the lattice: `wire()` strokes the path onto the top
      copper and starts a new one, then the heading is snapped, which for
      a normalised heading gives the nearest lattice heading. */
  function WireOnGrid(moved: Draw, b: Board): (r: (Draw, Board))
    requires b.Valid()
    ensures r.0.dir == Snap(moved.dir)
    ensures 0.0 <= moved.dir < 360.0 ==> r.0.dir in GridHeadings && -30.0 <= r.0.dir - moved.dir <= 30.0
    ensures r.0.xy == moved.xy && r.0.stack == moved.stack
    ensures r.0.path == if |moved.path| > 1 then [moved.xy] else moved.path
    ensures r.1.Valid() && r.1.parts == b.parts && r.1.C() == b.C()
    ensures r.1.layers[GTL].polys == b.layers[GTL].polys + (if |moved.path| > 1 then [Stroke(moved.path, b.trace)] else [])
    ensures forall n :: n in b.layers && n != GTL ==> r.1.layers[n] == b.layers[n]
  {
    var (t, b2) := Wire(moved, b, GTL).value;
    if 0.0 <= moved.dir < 360.0 then
      SnapOnGrid(moved.dir);
      (t.(dir := Snap(t.dir)), b2)
    else
      (t.(dir := Snap(t.dir)), b2)
  }

  /** A river whose first member went through `wire_ongrid` (from any
      heading `left`/`right` can leave) passes the assertion of
      `river_ongrid`. */
  lemma WireThenRiverOnGrid(rv: River, b: Board)
    requires b.Valid() && |rv.tt| > 0 && 0.0 <= rv.tt[0].dir < 360.0
    ensures OnLattice(rv.(tt := rv.tt[0 := WireOnGrid(rv.tt[0], b).0]))
  {
    SnapOnGrid(rv.tt[0].dir);
  }
}
