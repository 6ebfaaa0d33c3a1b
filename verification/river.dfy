/** `River`, a bundle of cursors moved as one group at track pitch `c`, and
    `Board.enriver`, which fans a bank of pads into such a bundle. */
module Rivers {
  import opened Results
  import opened Angles
  import opened Turtle

  /** Python's `math.pi`. */
  const Pi: real := 3.141592653589793

  datatype River = River(tt: seq<Draw>, c: real)

  /** `River(board, tt)`: the pitch is the board's trace width plus clearance. */
  function NewRiver(b: Board, tt: seq<Draw>): (rv: River)
    ensures rv.tt == tt && rv.c == b.trace + b.space
  {
    River(tt, b.C())
  }

  /** `r()`: the bundle's turning radius. */
  function Radius(rv: River): real {
    rv.c * |rv.tt| as real
  }

  /** `River.forward(d)`: every member steps `d` along its own heading. */
  function RiverForward(rv: River, step: Stepper, d: real): (rv': River)
    ensures |rv'.tt| == |rv.tt| && rv'.c == rv.c
    ensures forall i :: 0 <= i < |rv.tt| ==>
      && rv'.tt[i].xy == step(rv.tt[i].xy, rv.tt[i].dir, d)
      && rv'.tt[i].path == rv.tt[i].path + [rv'.tt[i].xy]
      && rv'.tt[i].dir == rv.tt[i].dir && rv'.tt[i].stack == rv.tt[i].stack
  {
    River(seq(|rv.tt|, i requires 0 <= i < |rv.tt| => Forward(rv.tt[i], step, d)), rv.c)
  }

  function Turn(t: Draw, right: bool, a: real): Draw {
    if right then Right(t, a) else Left(t, a)
  }

  /** `n` sub-steps, each a turn by `a` then a move of `dist`. */
  function Arc(t: Draw, step: Stepper, right: bool, a: real, dist: real, n: nat): Draw
  {
    if n == 0 then t else Forward(Turn(Arc(t, step, right, a, dist, n - 1), right, a), step, dist)
  }

  /** `int(a + 1)`: the number of sub-steps a turn by `a` is split into. */
  function SubSteps(a: real): int {
    Trunc(a + 1.0)
  }

  lemma SubStepsPositive(a: real)
    ensures SubSteps(a) >= 1 <==> a >= 0.0
  {
  }

  /** Length of the arc of radius `radius` subtending `a` degrees. */
  function ArcLength(radius: real, a: real): real {
    2.0 * Pi * radius * a / 360.0
  }

  /** One member's share of a bundle turn: `int(a + 1)` equal sub-turns along
      an arc of radius `c * k`. */
  function MemberTurn(t: Draw, step: Stepper, right: bool, a: real, c: real, k: nat): Draw {
    var n := SubSteps(a);
    if n <= 0 then t
    else Arc(t, step, right, a / n as real, ArcLength(c * k as real, a) / n as real, n)
  }

  /** `River.right(a)`: member `i` turns on an arc of radius `c * i`. */
  function RiverRight(rv: River, step: Stepper, a: real): (rv': River)
    ensures |rv'.tt| == |rv.tt| && rv'.c == rv.c
    ensures forall i :: 0 <= i < |rv.tt| ==> rv'.tt[i] == MemberTurn(rv.tt[i], step, true, a, rv.c, i)
  {
    River(seq(|rv.tt|, i requires 0 <= i < |rv.tt| =>
      MemberTurn(rv.tt[i], step, true, a, rv.c, i)), rv.c)
  }

  /** `River.left(a)`: the members are enumerated in reverse, so the last
      member pivots and member `i` turns on radius `c * (len - 1 - i)`. */
  function RiverLeft(rv: River, step: Stepper, a: real): (rv': River)
    ensures |rv'.tt| == |rv.tt| && rv'.c == rv.c
    ensures forall i :: 0 <= i < |rv.tt| ==>
      rv'.tt[i] == MemberTurn(rv.tt[i], step, false, a, rv.c, |rv.tt| - 1 - i)
  {
    River(seq(|rv.tt|, i requires 0 <= i < |rv.tt| =>
      MemberTurn(rv.tt[i], step, false, a, rv.c, |rv.tt| - 1 - i)), rv.c)
  }

  function Signed(right: bool, a: real): real {
    if right then a else -a
  }

  /** `n` copies of `a` added up, the way `n` equal sub-turns accumulate. */
  function Repeat(n: nat, a: real): real {
    if n == 0 then 0.0 else Repeat(n - 1, a) + a
  }

  lemma {:induction false} RepeatEqualParts(n: nat, a: real)
    requires n >= 1
    ensures Repeat(n, a / n as real) == a
  {
    RepeatIsProduct(n, a / n as real);
    assert n as real * (a / n as real) == a;
  }

  lemma {:induction false} RepeatIsProduct(n: nat, x: real)
    ensures Repeat(n, x) == n as real * x
  {
    if n > 0 {
      RepeatIsProduct(n - 1, x);
      assert (n - 1) as real * x + x == n as real * x;
    }
  }

  lemma {:induction false} ArcFacts(t: Draw, step: Stepper, right: bool, a: real, dist: real, n: nat)
    requires n >= 1
    ensures var u := Arc(t, step, right, a, dist, n);
      && u.dir == Mod360(t.dir + Signed(right, Repeat(n, a)))
      && u.stack == t.stack
      && |u.path| == |t.path| + n && u.path[..|t.path|] == t.path
  {
    var v := Arc(t, step, right, a, dist, n - 1);
    if n == 1 {
      assert v == t;
      assert Repeat(1, a) == a;
    } else {
      ArcFacts(t, step, right, a, dist, n - 1);
      Mod360Add(t.dir + Signed(right, Repeat(n - 1, a)), Signed(right, a));
      assert t.dir + Signed(right, Repeat(n - 1, a)) + Signed(right, a)
          == t.dir + Signed(right, Repeat(n, a));
    }
  }

  lemma {:induction false} ArcStill(t: Draw, step: Stepper, right: bool, a: real, n: nat)
    requires forall p, h :: step(p, h, 0.0) == p
    ensures Arc(t, step, right, a, 0.0, n).xy == t.xy
  {
    if n > 0 {
      ArcStill(t, step, right, a, n - 1);
    }
  }

  /** A member's turn changes its heading by exactly `a` when `a >= 0`; a
      negative `a` gives `int(a + 1) <= 0` sub-steps, so nothing moves. */
  lemma MemberTurnFacts(t: Draw, step: Stepper, right: bool, a: real, c: real, k: nat)
    ensures var u := MemberTurn(t, step, right, a, c, k);
      && (a >= 0.0 ==> u.dir == Mod360(t.dir + Signed(right, a)))
      && (a >= 0.0 ==> |u.path| == |t.path| + SubSteps(a) && u.path[..|t.path|] == t.path)
      && (a < 0.0 ==> u == t)
      && u.stack == t.stack
  {
    var n := SubSteps(a);
    if n >= 1 {
      ArcFacts(t, step, right, a / n as real, ArcLength(c * k as real, a) / n as real, n);
      RepeatEqualParts(n, a);
    }
  }

  /** `River.right(a)` turns every member by `a` (for `a >= 0`) in `int(a+1)`
      sub-steps, each adding one path point; the stacks are untouched. */
  lemma RiverRightTurns(rv: River, step: Stepper, a: real)
    ensures var rv' := RiverRight(rv, step, a);
      forall i :: 0 <= i < |rv.tt| ==>
        && rv'.tt[i].stack == rv.tt[i].stack
        && (a >= 0.0 ==>
              rv'.tt[i].dir == Mod360(rv.tt[i].dir + a) && |rv'.tt[i].path| == |rv.tt[i].path| + SubSteps(a))
        && (a < 0.0 ==> rv'.tt[i] == rv.tt[i])
  {
    forall i | 0 <= i < |rv.tt| {
      MemberTurnFacts(rv.tt[i], step, true, a, rv.c, i);
    }
  }

  /** `River.left(a)`: the same, turning the other way. */
  lemma RiverLeftTurns(rv: River, step: Stepper, a: real)
    ensures var rv' := RiverLeft(rv, step, a);
      forall i :: 0 <= i < |rv.tt| ==>
        && rv'.tt[i].stack == rv.tt[i].stack
        && (a >= 0.0 ==>
              rv'.tt[i].dir == Mod360(rv.tt[i].dir - a) && |rv'.tt[i].path| == |rv.tt[i].path| + SubSteps(a))
        && (a < 0.0 ==> rv'.tt[i] == rv.tt[i])
  {
    forall i | 0 <= i < |rv.tt| {
      MemberTurnFacts(rv.tt[i], step, false, a, rv.c, |rv.tt| - 1 - i);
    }
  }

  /** The pivot of `right` is member 0 and the pivot of `left` is the last
      member: their arcs have radius 0, so where a zero-length step stays
      put, they turn in place. */
  lemma RiverPivots(rv: River, step: Stepper, a: real)
    requires |rv.tt| > 0
    requires forall p, h :: step(p, h, 0.0) == p
    ensures RiverRight(rv, step, a).tt[0].xy == rv.tt[0].xy
    ensures RiverLeft(rv, step, a).tt[|rv.tt| - 1].xy == rv.tt[|rv.tt| - 1].xy
  {
    var n := SubSteps(a);
    if n >= 1 {
      assert ArcLength(rv.c * 0 as real, a) / n as real == 0.0;
      assert ArcLength(rv.c * (|rv.tt| - 1 - (|rv.tt| - 1)) as real, a) / n as real == 0.0;
      ArcStill(rv.tt[0], step, true, a / n as real, n);
      ArcStill(rv.tt[|rv.tt| - 1], step, false, a / n as real, n);
    }
  }

  predicate NormalHeadings(rv: River) {
    forall i :: 0 <= i < |rv.tt| ==> 0.0 <= rv.tt[i].dir < 360.0
  }

  /** Turning a member one way and then the other by the same angle gives
      its heading back, whatever the two arc radii. */
  lemma MemberTurnBack(t: Draw, step: Stepper, right: bool, a: real, c: real, k1: nat, k2: nat)
    requires 0.0 <= t.dir < 360.0
    ensures MemberTurn(MemberTurn(t, step, right, a, c, k1), step, !right, a, c, k2).dir == t.dir
  {
    var u := MemberTurn(t, step, right, a, c, k1);
    MemberTurnFacts(t, step, right, a, c, k1);
    MemberTurnFacts(u, step, !right, a, c, k2);
    if a >= 0.0 {
      TurnBackHeading(t.dir, Signed(right, a));
    }
  }

  lemma TurnBackHeading(d: real, x: real)
    requires 0.0 <= d < 360.0
    ensures Mod360(Mod360(d + x) - x) == d
  {
    Mod360Add(d + x, -x);
    assert d + x + -x == d;
    Mod360OfNormal(d);
  }

  /** `right(a)` then `left(a)` (or the reverse) gives every member its heading back. */
  lemma RiverTurnBack(rv: River, step: Stepper, a: real)
    requires NormalHeadings(rv)
    ensures var back := RiverLeft(RiverRight(rv, step, a), step, a);
      |back.tt| == |rv.tt| && forall i :: 0 <= i < |rv.tt| ==> back.tt[i].dir == rv.tt[i].dir
    ensures var back := RiverRight(RiverLeft(rv, step, a), step, a);
      |back.tt| == |rv.tt| && forall i :: 0 <= i < |rv.tt| ==> back.tt[i].dir == rv.tt[i].dir
  {
    var n := |rv.tt|;
    forall i | 0 <= i < n
      ensures RiverLeft(RiverRight(rv, step, a), step, a).tt[i].dir == rv.tt[i].dir
      ensures RiverRight(RiverLeft(rv, step, a), step, a).tt[i].dir == rv.tt[i].dir
    {
      MemberTurnBack(rv.tt[i], step, true, a, rv.c, i, n - 1 - i);
      MemberTurnBack(rv.tt[i], step, false, a, rv.c, n - 1 - i, i);
    }
  }

  /** The turn and straight run of a `shimmy(d)`: a quarter turn and a run of
      `|d| - r` when the offset exceeds the radius `r`, otherwise the arc angle
      `acosDeg(1 - |d| / r)` (the source's `180 * acos(...) / pi`) and no run. */
  function ShimmyPlan(d: real, r: real, acosDeg: real -> real): (p: Result<(real, real)>)
    ensures p.Err? <==> d == 0.0 && r == 0.0
    ensures p.Ok? && (if d >= 0.0 then d else -d) > r ==> p.value == (90.0, (if d >= 0.0 then d else -d) - r)
    ensures p.Ok? && (if d >= 0.0 then d else -d) <= r ==> p.value.1 == 0.0
    ensures p.Ok? ==> (p.value.1 > 0.0 <==> (if d >= 0.0 then d else -d) > r)
  {
    var ad := if d >= 0.0 then d else -d;
    if ad > r then Ok((90.0, ad - r))
    else if r == 0.0 then Err("ZeroDivisionError: float division by zero")
    else Ok((acosDeg(1.0 - ad / r), 0.0))
  }

  /** `shimmy(d)`: a lane change, turning away, running straight, turning back. */
  function Shimmy(rv: River, step: Stepper, d: real, acosDeg: real -> real): (r: Result<River>)
    ensures r.Err? <==> d == 0.0 && Radius(rv) == 0.0
    ensures r.Ok? ==> |r.value.tt| == |rv.tt| && r.value.c == rv.c
  {
    var (a, f) :- ShimmyPlan(d, Radius(rv), acosDeg);
    if d > 0.0 then Ok(RiverRight(RiverForward(RiverLeft(rv, step, a), step, f), step, a))
    else Ok(RiverLeft(RiverForward(RiverRight(rv, step, a), step, f), step, a))
  }

  /** A shimmy leaves every member's heading as it found it. */
  lemma ShimmyKeepsHeadings(rv: River, step: Stepper, d: real, acosDeg: real -> real)
    requires NormalHeadings(rv)
    requires Shimmy(rv, step, d, acosDeg).Ok?
    ensures var rv' := Shimmy(rv, step, d, acosDeg).value;
      forall i :: 0 <= i < |rv.tt| ==> rv'.tt[i].dir == rv.tt[i].dir
  {
    var (a, f) := ShimmyPlan(d, Radius(rv), acosDeg).value;
    var l1 := RiverLeft(rv, step, a);
    var r1 := RiverRight(rv, step, a);
    RiverLeftTurns(rv, step, a);
    RiverRightTurns(rv, step, a);
    RiverRightTurns(RiverForward(l1, step, f), step, a);
    RiverLeftTurns(RiverForward(r1, step, f), step, a);
    forall i | 0 <= i < |rv.tt| && a >= 0.0 {
      LeftThenRight(rv.tt[i], a);
    }
  }

  /** Wires the members one after another onto the top copper layer. */
  function WireAll(tt: seq<Draw>, b: Board): (r: (seq<Draw>, Board))
    requires b.Valid()
    ensures r.1.Valid() && r.1.parts == b.parts && r.1.C() == b.C()
    ensures |r.0| == |tt|
    ensures forall i :: 0 <= i < |tt| ==>
      r.0[i] == (if |tt[i].path| > 1 then NewPath(tt[i]) else tt[i])
    ensures r.1.layers[GTL].polys == b.layers[GTL].polys + Strokes(tt, b.trace)
    ensures forall n :: n in b.layers && n != GTL ==> r.1.layers[n] == b.layers[n]
  {
    if tt == [] then ([], b)
    else
      var (t0, b1) := Wire(tt[0], b, GTL).value;
      var (rest, b2) := WireAll(tt[1..], b1);
      ([t0] + rest, b2)
  }

  /** The strokes wiring `tt` adds: one per member whose path has two or more points. */
  function Strokes(tt: seq<Draw>, width: real): seq<Shape> {
    if tt == [] then []
    else (if |tt[0].path| > 1 then [Stroke(tt[0].path, width)] else []) + Strokes(tt[1..], width)
  }

  /** `River.wire`: every member with a path of two or more points leaves
      one stroke on the top copper, in member order, and starts a new path. */
  function RiverWire(rv: River, b: Board): (r: (River, Board))
    requires b.Valid()
    ensures r.0.c == rv.c && |r.0.tt| == |rv.tt|
    ensures forall i :: 0 <= i < |rv.tt| ==>
      && r.0.tt[i].xy == rv.tt[i].xy && r.0.tt[i].dir == rv.tt[i].dir && r.0.tt[i].stack == rv.tt[i].stack
      && r.0.tt[i].path == if |rv.tt[i].path| > 1 then [rv.tt[i].xy] else rv.tt[i].path
    ensures r.1.Valid() && r.1.parts == b.parts && r.1.C() == b.C()
    ensures r.1.layers[GTL].polys == b.layers[GTL].polys + Strokes(rv.tt, b.trace)
    ensures forall n :: n in b.layers && n != GTL ==> r.1.layers[n] == b.layers[n]
  {
    var (tt, b') := WireAll(rv.tt, b);
    (River(tt, rv.c), b')
  }

  function Reverse<T>(s: seq<T>): (r: seq<T>)
    ensures |r| == |s| && forall i :: 0 <= i < |s| ==> r[i] == s[|s| - 1 - i]
  {
    if s == [] then [] else Reverse(s[1..]) + [s[0]]
  }

  /** One non-pivot member of `enriver`: turn away by `a`, approach to `gap`
      from the pivot's line, turn by `2a`. */
  function Fan(t: Draw, pivot: Draw, step: Stepper, a: real, gap: real): (r: Result<Draw>)
    ensures r.Ok? <==> Perpendicular(Left(t, a), pivot)
    ensures r.Ok? ==> r.value.dir == Mod360(t.dir + a) && |r.value.path| > |t.path|
  {
    var t1 :- Approach(Left(t, a), step, gap, pivot);
    Mod360Add(t.dir - a, 2.0 * a);
    Ok(Right(t1, 2.0 * a))
  }

  /** `Fan` applied to `bank[i..]`, member `j` at gap `c * j`. */
  function FanAll(bank: seq<Draw>, pivot: Draw, step: Stepper, a: real, c: real, i: nat): (r: Result<seq<Draw>>)
    requires i <= |bank|
    decreases |bank| - i
    ensures r.Ok? ==> |r.value| == |bank| - i
    ensures r.Ok? ==> forall j :: i <= j < |bank| ==>
      r.value[j - i].dir == Mod360(bank[j].dir + a) && |r.value[j - i].path| > |bank[j].path|
  {
    if i == |bank| then Ok([])
    else
      var t :- Fan(bank[i], pivot, step, a, c * i as real);
      var rest :- FanAll(bank, pivot, step, a, c, i + 1);
      Ok([t] + rest)
  }

  /** The final pass of `enriver`: every member approaches the finish line and is wired. */
  function FinishAll(ts: seq<Draw>, finish: Draw, step: Stepper, b: Board): (r: Result<(seq<Draw>, Board)>)
    requires b.Valid()
    requires forall j :: 0 <= j < |ts| ==> ts[j].HasPath()
    ensures r.Ok? ==> r.value.1.Valid() && |r.value.0| == |ts| && r.value.1.C() == b.C()
    ensures r.Ok? ==> forall j :: 0 <= j < |ts| ==> r.value.0[j].dir == ts[j].dir
    ensures r.Ok? ==> |r.value.1.layers[GTL].polys| == |b.layers[GTL].polys| + |ts|
    ensures (forall j :: 0 <= j < |ts| ==> Perpendicular(ts[j], finish)) ==> r.Ok?
  {
    if ts == [] then Ok(([], b))
    else
      var t1 :- Approach(ts[0], step, 0.0, finish);
      assert ts[0].HasPath();
      assert t1.path == ts[0].path + [t1.xy];
      assert |t1.path| > 1;
      assert GTL in b.layers;
      var (t2, b1) := Wire(t1, b, GTL).value;
      assert |b1.layers[GTL].polys| == |b.layers[GTL].polys| + 1;
      var (rest, b2) :- FinishAll(ts[1..], finish, step, b1);
      Ok(([t2] + rest, b2))
  }

  /** The bank in the order `enriver` works on it: reversed for a right turn. */
  function Bank(ibank: seq<Draw>, a: real): (bank: seq<Draw>)
    ensures |bank| == |ibank|
    ensures forall j :: 0 <= j < |ibank| ==> bank[j] == if a > 0.0 then ibank[|ibank| - 1 - j] else ibank[j]
  {
    if a > 0.0 then Reverse(ibank) else ibank
  }

  /** The fan-out stage of `enriver`: the pivot turns by `a`, member `j`
      lines up at gap `c * j` beside it. */
  function FanOut(bank: seq<Draw>, step: Stepper, a: real, c: real): (r: Result<seq<Draw>>)
    requires |bank| > 0
    ensures r.Ok? ==> |r.value| == |bank|
    ensures r.Ok? ==> forall j :: 0 <= j < |bank| ==>
      r.value[j].dir == Mod360(bank[j].dir + a) && |r.value[j].path| >= |bank[j].path|
  {
    var pivot := Right(bank[0], a);
    var others :- FanAll(bank, pivot, step, a, c, 1);
    Ok([pivot] + others)
  }

  /** `Board.enriver(ibank, a)`: member 0 of the bank (the last pad when
      `a > 0`) turns by `a`, the others fan out to pitch `c` beside it and
      turn parallel, all meet a common finish line and are wired. The river
      comes back in the caller's order. */
  function Enriver(b: Board, ibank: seq<Draw>, step: Stepper, a: real): (r: Result<(River, Board)>)
    requires b.Valid()
    requires forall k :: 0 <= k < |ibank| ==> ibank[k].HasPath()
    ensures |ibank| == 0 ==> r.Err?
    ensures r.Ok? ==>
      && r.value.0.c == b.C() && |r.value.0.tt| == |ibank| && r.value.1.Valid()
      && |r.value.1.layers[GTL].polys| == |b.layers[GTL].polys| + |ibank|
      && forall k :: 0 <= k < |ibank| ==> r.value.0.tt[k].dir == Mod360(ibank[k].dir + a)
  {
    if |ibank| == 0 then Err("IndexError: list index out of range")
    else
      var bank := Bank(ibank, a);
      assert forall j :: 0 <= j < |bank| ==> bank[j].HasPath();
      var fan := FanOut(bank, step, a, b.C());
      if fan.Err? then Err(fan.error)
      else
        var fanned := fan.value;
        assert forall j :: 0 <= j < |fanned| ==> fanned[j].HasPath();
        var finish := Left(Copy(fanned[|fanned| - 1]), 90.0);
        var fin := FinishAll(fanned, finish, step, b);
        if fin.Err? then Err(fin.error)
        else
          EnriverOrder(ibank, bank, fanned, fin.value.0, a);
          Ok((River(Bank(fin.value.0, a), b.C()), fin.value.1))
  }

  lemma EnriverOrder(ibank: seq<Draw>, bank: seq<Draw>, fanned: seq<Draw>, done: seq<Draw>, a: real)
    requires bank == Bank(ibank, a) && |done| == |bank| && |fanned| == |bank|
    requires forall j :: 0 <= j < |bank| ==> fanned[j].dir == Mod360(bank[j].dir + a)
    requires forall j :: 0 <= j < |bank| ==> done[j].dir == fanned[j].dir
    ensures Bank(bank, a) == ibank
    ensures forall k :: 0 <= k < |ibank| ==> Bank(done, a)[k].dir == Mod360(ibank[k].dir + a)
  {
    BankTwice(ibank, a);
  }

  /** Reordering the bank twice gives back the caller's order. */
  lemma BankTwice(s: seq<Draw>, a: real)
    ensures Bank(Bank(s, a), a) == s
  {
    var once := Bank(s, a);
    var twice := Bank(once, a);
    forall k | 0 <= k < |s| ensures twice[k] == s[k] {
      if a > 0.0 {
        assert twice[k] == once[|s| - 1 - k];
      }
    }
  }

  lemma Mod360Diff(x: real, y: real)
    ensures Mod360(Mod360(x) - Mod360(y)) == Mod360(x - y)
  {
    Mod360Add(x, -Mod360(y));
    var k := Mod360Turns(y);
    Mod360Shift(x - y, k);
    assert x - Mod360(y) == (x - y) + 360.0 * k as real;
  }

  /** With all headings equal, `enriver` succeeds for the 45-degree fans
      the board scripts use: every `approach` it makes is perpendicular. */
  lemma EnriverAt45(b: Board, ibank: seq<Draw>, step: Stepper, a: real)
    requires b.Valid() && |ibank| > 0
    requires forall k :: 0 <= k < |ibank| ==> ibank[k].HasPath()
    requires a == 45.0 || a == -45.0
    requires forall k :: 0 <= k < |ibank| ==> ibank[k].dir == ibank[0].dir
    ensures Enriver(b, ibank, step, a).Ok?
  {
    var h := ibank[0].dir;
    var bank := Bank(ibank, a);
    BankHeadings(ibank, a, h);
    FanOutAt45(bank, step, a, b.C(), h);
    var fanned := FanOut(bank, step, a, b.C()).value;
    FannedFacts(bank, step, a, b.C(), h);
    var finish := Left(Copy(fanned[|fanned| - 1]), 90.0);
    FinishAllOk(fanned, finish, step, b, Mod360(h + a));
    EnriverOfStages(b, ibank, step, a);
  }

  /** `Enriver` fails only when one of its two stages fails. */
  lemma EnriverOfStages(b: Board, ibank: seq<Draw>, step: Stepper, a: real)
    requires b.Valid() && |ibank| > 0
    requires forall k :: 0 <= k < |ibank| ==> ibank[k].HasPath()
    requires FanOut(Bank(ibank, a), step, a, b.C()).Ok?
    requires forall j :: 0 <= j < |ibank| ==> FanOut(Bank(ibank, a), step, a, b.C()).value[j].HasPath()
    requires
      var fanned := FanOut(Bank(ibank, a), step, a, b.C()).value;
      FinishAll(fanned, Left(Copy(fanned[|fanned| - 1]), 90.0), step, b).Ok?
    ensures Enriver(b, ibank, step, a).Ok?
  {
  }

  lemma BankHeadings(ibank: seq<Draw>, a: real, h: real)
    requires forall k :: 0 <= k < |ibank| ==> ibank[k].HasPath() && ibank[k].dir == h
    ensures forall j :: 0 <= j < |Bank(ibank, a)| ==> Bank(ibank, a)[j].dir == h && Bank(ibank, a)[j].HasPath()
  {
  }

  lemma FannedFacts(bank: seq<Draw>, step: Stepper, a: real, c: real, h: real)
    requires |bank| > 0 && FanOut(bank, step, a, c).Ok?
    requires forall j :: 0 <= j < |bank| ==> bank[j].dir == h && bank[j].HasPath()
    ensures forall j :: 0 <= j < |bank| ==>
      FanOut(bank, step, a, c).value[j].HasPath() && FanOut(bank, step, a, c).value[j].dir == Mod360(h + a)
  {
  }

  lemma FinishAllOk(fanned: seq<Draw>, finish: Draw, step: Stepper, b: Board, x: real)
    requires b.Valid() && |fanned| > 0
    requires forall j :: 0 <= j < |fanned| ==> fanned[j].HasPath() && fanned[j].dir == x
    requires 0.0 <= x < 360.0
    requires finish == Left(Copy(fanned[|fanned| - 1]), 90.0)
    ensures FinishAll(fanned, finish, step, b).Ok?
  {
    forall j | 0 <= j < |fanned| ensures Perpendicular(fanned[j], finish) {
      Mod360OfNormal(x);
      FinishPerpendicular(x);
    }
  }

  lemma FinishPerpendicular(x: real)
    ensures Mod360(Mod360(x) - Mod360(Mod360(x) - 90.0)) == 90.0
  {
    Mod360Add(x, -90.0);
    Mod360Diff(x, x - 90.0);
    assert x - (x - 90.0) == 90.0;
    Mod360OfNormal(90.0);
  }

  lemma FanOutAt45(bank: seq<Draw>, step: Stepper, a: real, c: real, h: real)
    requires |bank| > 0
    requires a == 45.0 || a == -45.0
    requires forall j :: 0 <= j < |bank| ==> bank[j].dir == h
    ensures FanOut(bank, step, a, c).Ok?
  {
    var pivot := Right(bank[0], a);
    Mod360Diff(h - a, h + a);
    assert h - a - (h + a) == -2.0 * a;
    assert Mod360(-90.0) == 270.0 by { Mod360Shift(270.0, -1); Mod360OfNormal(270.0); }
    assert Mod360(90.0) == 90.0 by { Mod360OfNormal(90.0); }
    FanAllOk(bank, pivot, step, a, c, 1);
  }

  lemma {:induction false} FanAllOk(bank: seq<Draw>, pivot: Draw, step: Stepper, a: real, c: real, i: nat)
    requires i <= |bank|
    requires forall j :: i <= j < |bank| ==> Perpendicular(Left(bank[j], a), pivot)
    decreases |bank| - i
    ensures FanAll(bank, pivot, step, a, c, i).Ok?
  {
    if i < |bank| {
      FanAllOk(bank, pivot, step, a, c, i + 1);
    }
  }
}
