/** The drawing cursor of cuflow.py (`Draw`), the board bookkeeping it writes
    into (`Board`, its ten `Layer`s and its per-family part registry) and the
    part-id / pad registration of `Part`.

    Positions are kept abstract: going forward `d` from `xy` on heading `dir`
    reaches `step(xy, dir, d)`, where `step` is a parameter standing for the
    source's sin/cos arithmetic. Polygons are opaque `Shape` entries. */
module Turtle {
  import opened Results
  import opened Angles
  import Text

  datatype Pt = Pt(x: real, y: real)

  /** Stands for `forward`'s trigonometry: the point `d` ahead of `xy` on heading `dir`. */
  type Stepper = (Pt, real, real) -> Pt

  /** An opaque polygon as a layer holds it, recording only what produced it. */
  datatype Shape =
    | Stroke(line: seq<Pt>, width: real)   // a path buffered by half the trace width
    | Disc(center: Pt, diameter: real)     // a via pad
    | Region(outline: seq<Pt>)             // a pad outline

  datatype Layer = Layer(desc: string, polys: seq<Shape>)

  const GTL := "GTL"
  const GL2 := "GL2"
  const GL3 := "GL3"
  const GBL := "GBL"
  const GTS := "GTS"
  const GTP := "GTP"

  /** The ten layers the board constructor creates, with their descriptions. */
  const InitialLayers: map<string, Layer> := map[
    "GTP" := Layer("Top Paste", []), "GTO" := Layer("Top Silkscreen", []),
    "GTS" := Layer("Top Solder Mask", []), "GTL" := Layer("Top Copper", []),
    "GL2" := Layer("Inner Layer 2", []), "GL3" := Layer("Inner Layer 3", []),
    "GBL" := Layer("Bottom Copper", []), "GBO" := Layer("Bottom Silkscreen", []),
    "GBS" := Layer("Bottom Solder Mask", []), "GBP" := Layer("Bottom Paste", [])]

  const LayerIds: set<string> :=
    {"GTP", "GTO", "GTS", "GTL", "GL2", "GL3", "GBL", "GBO", "GBS", "GBP"}

  /** The four copper layers a via pierces. */
  const CopperLayers: set<string> := {GTL, GL2, GL3, GBL}

  datatype Board = Board(
    size: (real, real),
    trace: real,
    space: real,
    viaHole: real,
    via: real,
    viaSpace: real,
    silk: real,
    parts: map<string, nat>,        // number of parts assigned so far, per family
    layers: map<string, Layer>)
  {
    /** Track pitch, used everywhere: trace width plus clearance. */
    function C(): real {
      trace + space
    }

    /** The board always holds exactly its ten layers. */
    predicate Valid() {
      layers.Keys == LayerIds
    }

    function Count(layer: string): nat {
      if layer in layers then |layers[layer].polys| else 0
    }
  }

  function NewBoard(size: (real, real), trace: real, space: real, viaHole: real,
                    via: real, viaSpace: real, silk: real): (b: Board)
    ensures b.Valid() && b.parts == map[]
    ensures forall id :: id in b.layers ==> b.layers[id].polys == []
    ensures b.C() == trace + space
  {
    Board(size, trace, space, viaHole, via, viaSpace, silk, map[], InitialLayers)
  }

  /** `Layer.add`: the geometry is appended (its self-repair is not modelled). */
  function AddShape(b: Board, layer: string, g: Shape): (b': Board)
    requires layer in b.layers
    ensures b'.layers.Keys == b.layers.Keys
    ensures b'.layers[layer].polys == b.layers[layer].polys + [g]
    ensures b'.layers[layer].desc == b.layers[layer].desc
    ensures forall n :: n in b.layers && n != layer ==> b'.layers[n] == b.layers[n]
    ensures b'.parts == b.parts && b'.C() == b.C() && b'.via == b.via
  {
    var l := b.layers[layer];
    b.(layers := b.layers[layer := l.(polys := l.polys + [g])])
  }

  /** The cursor: position, heading, push/pop stack and the path being drawn. */
  datatype Draw = Draw(xy: Pt, dir: real, stack: seq<(Pt, real)>, path: seq<Pt>) {
    /** Every cursor operation leaves at least the current point in the path. */
    predicate HasPath() {
      |path| >= 1
    }
  }

  /** `Draw(board, xy, dir)`; also `Board.DC`. */
  function NewDraw(xy: Pt, dir: real): (t: Draw)
    ensures t.xy == xy && t.dir == dir
    ensures t.stack == [] && t.path == [xy]
  {
    Draw(xy, dir, [], [xy])
  }

  function NewPath(t: Draw): (t': Draw)
    ensures t'.path == [t.xy]
    ensures t'.xy == t.xy && t'.dir == t.dir && t'.stack == t.stack
  {
    t.(path := [t.xy])
  }

  function Push(t: Draw): (t': Draw)
    ensures |t'.stack| == |t.stack| + 1 && t'.stack[..|t.stack|] == t.stack
    ensures t'.stack[|t.stack|] == (t.xy, t.dir)
    ensures t'.xy == t.xy && t'.dir == t.dir && t'.path == t.path
  {
    t.(stack := t.stack + [(t.xy, t.dir)])
  }

  /** `pop`; popping an empty stack is Python's `IndexError`. */
  function Pop(t: Draw): (r: Result<Draw>)
    ensures t.stack == [] <==> r.Err?
    ensures r.Ok? ==> var n := |t.stack|;
      && r.value.stack == t.stack[..n - 1]
      && (r.value.xy, r.value.dir) == t.stack[n - 1]
      && r.value.path == t.path
  {
    if t.stack == [] then Err("IndexError: pop from empty list")
    else
      var (xy, dir) := t.stack[|t.stack| - 1];
      Ok(t.(xy := xy, dir := dir, stack := t.stack[..|t.stack| - 1]))
  }

  /** `copy`: same position and heading, nothing else carried over. */
  function Copy(t: Draw): (t': Draw)
    ensures t'.xy == t.xy && t'.dir == t.dir
    ensures t'.stack == [] && t'.path == [t.xy]
  {
    NewDraw(t.xy, t.dir)
  }

  function Forward(t: Draw, step: Stepper, d: real): (t': Draw)
    ensures t'.xy == step(t.xy, t.dir, d)
    ensures t'.path == t.path + [t'.xy]
    ensures t'.dir == t.dir && t'.stack == t.stack
  {
    var xy := step(t.xy, t.dir, d);
    t.(xy := xy, path := t.path + [xy])
  }

  function Left(t: Draw, a: real): (t': Draw)
    ensures 0.0 <= t'.dir < 360.0 && t'.dir == Mod360(t.dir - a)
    ensures t'.xy == t.xy && t'.stack == t.stack && t'.path == t.path
  {
    t.(dir := Mod360(t.dir - a))
  }

  function Right(t: Draw, a: real): (t': Draw)
    ensures 0.0 <= t'.dir < 360.0 && t'.dir == Mod360(t.dir + a)
    ensures t'.xy == t.xy && t'.stack == t.stack && t'.path == t.path
  {
    t.(dir := Mod360(t.dir + a))
  }

  /** A turn by `a` followed by the opposite turn restores any normalised heading. */
  lemma LeftThenRight(t: Draw, a: real)
    requires 0.0 <= t.dir < 360.0
    ensures Right(Left(t, a), a) == t
    ensures Left(Right(t, a), a) == t
  {
    Mod360Add(t.dir - a, a);
    Mod360Add(t.dir + a, -a);
    Mod360OfNormal(t.dir);
  }

  /** Two turns compose into one. */
  lemma RightRight(t: Draw, a: real, b: real)
    ensures Right(Right(t, a), b) == Right(t, a + b)
  {
    Mod360Add(t.dir + a, b);
  }

  /** Any single cursor operation, for statements about arbitrary sequences of them. */
  datatype Op = FwdOp(d: real) | LeftOp(a: real) | RightOp(a: real)
              | PushOp | PopOp | NewPathOp

  function Apply(t: Draw, step: Stepper, op: Op): Result<Draw> {
    match op
    case FwdOp(d) => Ok(Forward(t, step, d))
    case LeftOp(a) => Ok(Left(t, a))
    case RightOp(a) => Ok(Right(t, a))
    case PushOp => Ok(Push(t))
    case PopOp => Pop(t)
    case NewPathOp => Ok(NewPath(t))
  }

  /** Runs `ops` in order, stopping at the first failing `pop`. */
  function Run(t: Draw, step: Stepper, ops: seq<Op>): Result<Draw>
  {
    if ops == [] then Ok(t)
    else
      match Run(t, step, ops[..|ops| - 1])
      case Err(e) => Err(e)
      case Ok(u) => Apply(u, step, ops[|ops| - 1])
  }

  /** Pushes minus pops. */
  function Depth(ops: seq<Op>): int {
    if ops == [] then 0 else Depth(ops[..|ops| - 1]) + OpDepth(ops[|ops| - 1])
  }

  /** What one operation does to the stack depth. */
  function OpDepth(op: Op): int {
    match op
    case PushOp => 1
    case PopOp => -1
    case _ => 0
  }

  /** No prefix of `ops` pops more than it pushed. */
  predicate NeverUnderflows(ops: seq<Op>) {
    forall k :: 0 <= k <= |ops| ==> Depth(ops[..k]) >= 0
  }

  /** Operations that never pop below their starting depth leave the stack
      underneath untouched and grow it by exactly their net depth. */
  lemma {:induction false} RunKeepsStackBase(t: Draw, step: Stepper, ops: seq<Op>)
    requires NeverUnderflows(ops)
    ensures Run(t, step, ops).Ok?
    ensures var u := Run(t, step, ops).value;
      |u.stack| >= |t.stack| && |u.stack| == |t.stack| + Depth(ops) && u.stack[..|t.stack|] == t.stack
  {
    if ops != [] {
      var n := |ops|;
      var init := ops[..n - 1];
      assert NeverUnderflows(init) by {
        forall k | 0 <= k <= |init| ensures Depth(init[..k]) >= 0 {
          assert init[..k] == ops[..k];
        }
      }
      RunKeepsStackBase(t, step, init);
      assert ops[..n] == ops;
      var u := Run(t, step, init).value;
      StepKeepsStackBase(u, step, ops[n - 1], t.stack);
    }
  }

  lemma StepKeepsStackBase(u: Draw, step: Stepper, op: Op, base: seq<(Pt, real)>)
    requires |u.stack| >= |base| && u.stack[..|base|] == base
    requires |u.stack| + OpDepth(op) >= |base|
    ensures Apply(u, step, op).Ok?
    ensures var v := Apply(u, step, op).value;
      |v.stack| == |u.stack| + OpDepth(op) && v.stack[..|base|] == base
  {
    if op.PopOp? {
      assert u.stack[..|u.stack| - 1][..|base|] == u.stack[..|base|];
    } else if op.PushOp? {
      assert Push(u).stack[..|u.stack|][..|base|] == u.stack[..|base|];
    }
  }

  /** `push`, then any operations that keep their own pushes and pops
      balanced, then `pop`: the exact pre-push position and heading come back,
      the stack is as before, and the path is whatever the operations left. */
  lemma PushRunPop(t: Draw, step: Stepper, ops: seq<Op>)
    requires NeverUnderflows(ops) && Depth(ops) == 0
    ensures Run(Push(t), step, ops).Ok?
    ensures var u := Run(Push(t), step, ops).value;
      Pop(u) == Ok(t.(path := u.path))
  {
    RunKeepsStackBase(Push(t), step, ops);
    var u := Run(Push(t), step, ops).value;
    assert u.stack == Push(t).stack;
  }

  /** Perpendicularity demanded by `approach`: headings 90 or 270 degrees apart. */
  predicate Perpendicular(t: Draw, other: Draw) {
    var delta := Mod360(t.dir - other.dir);
    delta == 90.0 || delta == 270.0
  }

  /** Distance from `p0` to the line through `p1` and `p2` when |p2 - p1| is 1,
      as the source's cross-product formula computes it. */
  function LineDistance(p0: Pt, p1: Pt, p2: Pt): (r: real)
    ensures r >= 0.0
    ensures var cross := (p2.x - p1.x) * (p0.y - p1.y) - (p2.y - p1.y) * (p0.x - p1.x);
      r == cross || r == -cross
    ensures p0 == p1 || p0 == p2 ==> r == 0.0
  {
    var v := (p2.y - p1.y) * p0.x - (p2.x - p1.x) * p0.y + p2.x * p1.y - p2.y * p1.x;
    if v >= 0.0 then v else -v
  }

  /** `approach(d, other)`: go forward until `d` short of the infinite line
      along `other`; fails unless the headings are perpendicular. */
  function Approach(t: Draw, step: Stepper, d: real, other: Draw): (r: Result<Draw>)
    ensures r.Ok? <==> Perpendicular(t, other)
    ensures r.Ok? ==> r.value.dir == t.dir && r.value.stack == t.stack
    ensures r.Ok? ==> r.value.path == t.path + [r.value.xy]
    ensures r.Ok? ==> r.value.xy == step(t.xy, t.dir,
      LineDistance(t.xy, other.xy, step(other.xy, other.dir, 1.0)) - d)
  {
    if !Perpendicular(t, other) then Err("AssertionError")
    else
      var o2 := Forward(Copy(other), step, 1.0);
      Ok(Forward(t, step, LineDistance(t.xy, other.xy, o2.xy) - d))
  }

  /** `rect(w, h)`: the outline of a w x h rectangle centred on the cursor,
      leaving position, heading and stack as they were. */
  function Rect(t: Draw, step: Stepper, w: real, h: real): (t': Draw)
    ensures t'.xy == t.xy && t'.dir == t.dir && t'.stack == t.stack
    ensures |t'.path| == 5
  {
    var t1 := Push(t);
    var t2 := Forward(Right(Forward(t1, step, h / 2.0), 90.0), step, w / 2.0);
    var t3 := NewPath(t2);
    var t4 := Forward(Right(t3, 90.0), step, h);
    var t5 := Forward(Right(t4, 90.0), step, w);
    var t6 := Forward(Right(t5, 90.0), step, h);
    var t7 := Forward(Right(t6, 90.0), step, w);
    assert t7.stack == t1.stack;
    Pop(t7).value
  }

  function Square(t: Draw, step: Stepper, w: real): (t': Draw)
    ensures t'.xy == t.xy && t'.dir == t.dir && t'.stack == t.stack
    ensures |t'.path| == 5
  {
    Rect(t, step, w, w)
  }

  /** The layers a via stamps: every copper layer except `connect`. */
  function ViaLayers(connect: Option<string>): (s: set<string>)
    ensures s <= CopperLayers
    ensures connect.Some? && connect.value in CopperLayers ==> |s| == 3 && connect.value !in s
    ensures connect.None? || connect.value !in CopperLayers ==> s == CopperLayers
  {
    match connect
    case None => CopperLayers
    case Some(l) => CopperLayers - {l}
  }

  /** `via(connect)`: one via pad on each layer of `ViaLayers(connect)`, then a fresh path. */
  function Via(t: Draw, b: Board, connect: Option<string>): (r: (Draw, Board))
    requires b.Valid()
    ensures r.1.Valid() && r.1.parts == b.parts && r.1.C() == b.C()
    ensures forall n :: n in b.layers ==>
      r.1.layers[n].polys == b.layers[n].polys + (if n in ViaLayers(connect) then [Disc(t.xy, b.via)] else [])
    ensures forall n :: n in b.layers ==> r.1.layers[n].desc == b.layers[n].desc
    ensures r.0 == NewPath(t)
  {
    var g := Disc(t.xy, b.via);
    var layers := map n | n in b.layers ::
      if n in ViaLayers(connect) then b.layers[n].(polys := b.layers[n].polys + [g]) else b.layers[n];
    (NewPath(t), b.(layers := layers))
  }

  /** `wire(layer)`: a path of two or more points becomes one stroke on
      `layer` and the path restarts; a shorter path leaves everything alone. */
  function Wire(t: Draw, b: Board, layer: string): (r: Result<(Draw, Board)>)
    ensures |t.path| <= 1 ==> r == Ok((t, b))
    ensures |t.path| > 1 ==> (r.Ok? <==> layer in b.layers)
    ensures |t.path| > 1 && r.Ok? ==>
      && r.value.0 == NewPath(t)
      && r.value.1 == AddShape(b, layer, Stroke(t.path, b.trace))
  {
    if |t.path| > 1 then
      if layer !in b.layers then Err("KeyError: " + layer)
      else Ok((NewPath(t), AddShape(b, layer, Stroke(t.path, b.trace))))
    else Ok((t, b))
  }

  /** A second `wire` with no movement in between changes nothing. */
  lemma WireTwice(t: Draw, b: Board, layer: string, layer2: string)
    requires Wire(t, b, layer).Ok?
    ensures var (t1, b1) := Wire(t, b, layer).value; Wire(t1, b1, layer2) == Ok((t1, b1))
  {
  }

  /** `Draw.pad`: the path's outline lands on top copper, solder mask and paste. */
  function DrawPad(t: Draw, b: Board): (b': Board)
    requires b.Valid()
    ensures b'.Valid() && b'.parts == b.parts
    ensures forall n :: n in b.layers ==>
      b'.layers[n].polys == b.layers[n].polys + (if n in {GTL, GTS, GTP} then [Region(t.path)] else [])
  {
    AddShape(AddShape(AddShape(b, GTL, Region(t.path)), GTS, Region(t.path)), GTP, Region(t.path))
  }

  /** `Board.assign`: the part joins its family's list and is named after its
      1-based position in it. */
  function Assign(b: Board, family: string): (r: (Board, string))
    ensures var n := if family in b.parts then b.parts[family] else 0;
      && r.0.parts == b.parts[family := n + 1]
      && r.1 == family + Text.NatToString(n + 1)
    ensures r.0.layers == b.layers && r.0.C() == b.C()
  {
    var n := if family in b.parts then b.parts[family] else 0;
    (b.(parts := b.parts[family := n + 1]), family + Text.NatToString(n + 1))
  }

  /** Two parts of one family never share an id, however many parts of
      any family are placed between them. */
  lemma AssignDistinct(b: Board, family: string, b2: Board)
    requires family in b2.parts
    requires b2.parts[family] > (if family in b.parts then b.parts[family] else 0)
    ensures Assign(b, family).1 != Assign(b2, family).1
  {
    var n1 := (if family in b.parts then b.parts[family] else 0) + 1;
    var n2 := b2.parts[family] + 1;
    var s1 := Text.NatToString(n1);
    var s2 := Text.NatToString(n2);
    if family + s1 == family + s2 {
      assert s1 == (family + s1)[|family|..];
      assert s2 == (family + s2)[|family|..];
      Text.NatToStringInjective(n1, n2);
    }
  }

  datatype Part = Part(id: string, val: Option<string>, pads: seq<Draw>)

  /** `Part.__init__` up to the footprint's own placement procedure. */
  function NewPart(b: Board, family: string, val: Option<string>): (r: (Board, Part))
    ensures r.1.pads == [] && r.1.val == val
    ensures (r.0, r.1.id) == Assign(b, family)
  {
    var (b', id) := Assign(b, family);
    (b', Part(id, val, []))
  }

  /** `Part.pad`: stamps the cursor's outline and records a snapshot of it. */
  function PartPad(p: Part, t: Draw, b: Board): (r: (Part, Board))
    requires b.Valid()
    ensures r.0.pads == p.pads + [Copy(t)] && r.0.id == p.id
    ensures r.1 == DrawPad(t, b)
  {
    (p.(pads := p.pads + [Copy(t)]), DrawPad(t, b))
  }
}
