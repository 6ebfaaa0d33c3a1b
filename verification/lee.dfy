/** The rectangular two-layer router of router.py (`lees_algorithm`): a
    cost grid over two copper layers is relaxed until the end cell holds a
    finite cost, and a path is then walked back from the end along the
    cheapest neighbouring cells. Moving along a layer costs `COST_H` or
    `COST_V` depending on the layer and the axis; changing layer costs
    `COST_VIA`. Grids are nested sequences indexed `[layer][t][u]`, exactly
    like the numpy arrays of shape `(2, w, h)` they stand for. */
module LeeRouter {
  import opened Results

  const EMPTY: nat := 0xffff
  const COST_VIA: nat := 100

  /** The outcome where the relaxation loop would run for ever because the
      end cell never gets a cost; `Diverges` is kept for the backtrack. */
  const Unreached: string := "does not terminate: the end cell is never reached"

  /** Cost of a step along the `u` axis (the source's `COST_H`). */
  function CostH(s: nat): nat { if s == 0 then 5 else 1 }

  /** Cost of a step along the `t` axis (the source's `COST_V`). */
  function CostV(s: nat): nat { if s == 0 then 1 else 5 }

  function Min(a: nat, b: nat): nat { if a <= b then a else b }

  /** A cell of the grid: layer `s`, row `t`, column `u`. */
  datatype Cell = Cell(s: nat, t: nat, u: nat)

  type Grid = seq<seq<seq<nat>>>
  type Mask = seq<seq<seq<bool>>>

  /** `g` has numpy shape `(2, w, h)`. */
  predicate Shaped<T>(g: seq<seq<seq<T>>>, w: nat, h: nat) {
    |g| == 2 && forall s :: 0 <= s < 2 ==> |g[s]| == w && forall t :: 0 <= t < w ==> |g[s][t]| == h
  }

  predicate InGrid(c: Cell, w: nat, h: nat) {
    c.s < 2 && c.t < w && c.u < h
  }

  function At<T>(g: seq<seq<seq<T>>>, w: nat, h: nat, c: Cell): T
    requires Shaped(g, w, h) && InGrid(c, w, h)
  {
    g[c.s][c.t][c.u]
  }

  /** A grid holding `x` everywhere. */
  function Full<T>(w: nat, h: nat, x: T): (g: seq<seq<seq<T>>>)
    ensures Shaped(g, w, h)
    ensures forall c :: InGrid(c, w, h) ==> At(g, w, h, c) == x
  {
    seq(2, s requires 0 <= s < 2 => seq(w, t requires 0 <= t < w => seq(h, u requires 0 <= u < h => x)))
  }

  /** The grid with cell `c` overwritten by `x`. */
  function Put<T>(g: seq<seq<seq<T>>>, w: nat, h: nat, c: Cell, x: T): (g': seq<seq<seq<T>>>)
    requires Shaped(g, w, h) && InGrid(c, w, h)
    ensures Shaped(g', w, h)
    ensures forall d :: InGrid(d, w, h) ==> At(g', w, h, d) == if d == c then x else At(g, w, h, d)
  {
    g[c.s := g[c.s][c.t := g[c.s][c.t][c.u := x]]]
  }

  /** The grid before the relaxation: 1 at the start, `EMPTY` elsewhere. */
  function Initial(w: nat, h: nat, start: Cell): (g: Grid)
    requires InGrid(start, w, h)
    ensures Shaped(g, w, h)
    ensures forall c :: InGrid(c, w, h) ==> At(g, w, h, c) == if c == start then 1 else EMPTY
  {
    Put(Full(w, h, EMPTY), w, h, start, 1)
  }

  // ---------------------------------------------------------------- one cell's candidate

  /** `hb` of `spreadxy`: the offer a cell makes to its `u`-axis neighbours. */
  function OfferH(g: Grid, w: nat, h: nat, s: nat, t: nat, u: nat): nat
    requires Shaped(g, w, h) && s < 2 && t < w && u < h
  {
    if g[s][t][u] != EMPTY then g[s][t][u] + CostH(s) else EMPTY
  }

  /** `vb` of `spreadxy`: the offer a cell makes to its `t`-axis neighbours. */
  function OfferV(g: Grid, w: nat, h: nat, s: nat, t: nat, u: nat): nat
    requires Shaped(g, w, h) && s < 2 && t < w && u < h
  {
    if g[s][t][u] != EMPTY then g[s][t][u] + CostV(s) else EMPTY
  }

  /** `spreadxy`: the least of the four shifted offer arrays `l`, `r`, `u`
      and `d`, whose edge rows and columns are `EMPTY`. */
  function Spread(g: Grid, w: nat, h: nat, c: Cell): nat
    requires Shaped(g, w, h) && InGrid(c, w, h)
  {
    var l := if c.u + 1 < h then OfferH(g, w, h, c.s, c.t, c.u + 1) else EMPTY;
    var r := if c.u >= 1 then OfferH(g, w, h, c.s, c.t, c.u - 1) else EMPTY;
    var up := if c.t + 1 < w then OfferV(g, w, h, c.s, c.t + 1, c.u) else EMPTY;
    var d := if c.t >= 1 then OfferV(g, w, h, c.s, c.t - 1, c.u) else EMPTY;
    Min(Min(Min(l, r), up), d)
  }

  /** `tb`: the offer of the same `(t, u)` on the other layer. */
  function Through(g: Grid, w: nat, h: nat, c: Cell): nat
    requires Shaped(g, w, h) && InGrid(c, w, h)
  {
    var o := g[1 - c.s][c.t][c.u];
    if o != EMPTY then o + COST_VIA else EMPTY
  }

  /** `b = np.minimum(sp, tb)`: the candidate cost of a cell. */
  function Best(g: Grid, w: nat, h: nat, c: Cell): nat
    requires Shaped(g, w, h) && InGrid(c, w, h)
  {
    Min(Spread(g, w, h, c), Through(g, w, h, c))
  }

  /** The cost of one move from `n` to `c`, if `n` is a cell `c` takes offers
      from: a `u`-axis neighbour on the same layer, a `t`-axis neighbour on
      the same layer, or the same `(t, u)` on the other layer. */
  function MoveCost(n: Cell, c: Cell): Option<nat> {
    if n.s == c.s && n.t == c.t && (n.u == c.u + 1 || n.u + 1 == c.u) then Some(CostH(c.s))
    else if n.s == c.s && n.u == c.u && (n.t == c.t + 1 || n.t + 1 == c.t) then Some(CostV(c.s))
    else if n.s < 2 && c.s < 2 && n.s != c.s && n.t == c.t && n.u == c.u then Some(COST_VIA)
    else None
  }

  /** `n` holds a finite cost and can move to `c`, for `k` in total. */
  predicate Offers(g: Grid, w: nat, h: nat, n: Cell, c: Cell, k: nat)
    requires Shaped(g, w, h)
  {
    InGrid(n, w, h) && At(g, w, h, n) != EMPTY && MoveCost(n, c).Some?
      && k == At(g, w, h, n) + MoveCost(n, c).value
  }

  /** The candidate of a cell is the cheapest offer any finite neighbour
      makes it, or `EMPTY` when that is cheaper or no neighbour makes one:
      grid edges and unreached cells contribute nothing. */
  lemma BestIsCheapestOffer(g: Grid, w: nat, h: nat, c: Cell)
    requires Shaped(g, w, h) && InGrid(c, w, h)
    ensures forall n, k :: Offers(g, w, h, n, c, k) ==> Best(g, w, h, c) <= k
    ensures Best(g, w, h, c) == EMPTY || exists n :: Offers(g, w, h, n, c, Best(g, w, h, c))
  {
    var b := Best(g, w, h, c);
    forall n, k | Offers(g, w, h, n, c, k) ensures b <= k {
      if n.s == c.s && n.t == c.t && n.u == c.u + 1 {
      } else if n.s == c.s && n.t == c.t && n.u + 1 == c.u {
      } else if n.s == c.s && n.u == c.u && n.t == c.t + 1 {
      } else if n.s == c.s && n.u == c.u && n.t + 1 == c.t {
      } else {
        assert n == Cell(1 - c.s, c.t, c.u);
      }
    }
    if b != EMPTY {
      var other := Cell(1 - c.s, c.t, c.u);
      if b == Through(g, w, h, c) {
        assert Offers(g, w, h, other, c, b);
      } else if c.u + 1 < h && b == OfferH(g, w, h, c.s, c.t, c.u + 1) {
        assert Offers(g, w, h, Cell(c.s, c.t, c.u + 1), c, b);
      } else if c.u >= 1 && b == OfferH(g, w, h, c.s, c.t, c.u - 1) {
        assert Offers(g, w, h, Cell(c.s, c.t, c.u - 1), c, b);
      } else if c.t + 1 < w && b == OfferV(g, w, h, c.s, c.t + 1, c.u) {
        assert Offers(g, w, h, Cell(c.s, c.t + 1, c.u), c, b);
      } else {
        assert Offers(g, w, h, Cell(c.s, c.t - 1, c.u), c, b);
      }
    }
  }

  // ---------------------------------------------------------------- one relaxation sweep

  /** `b | keepout` on an occupied cell: the low 16 bits of `x` all set. */
  function OrEmpty(x: nat): (y: nat)
    ensures y % 0x10000 == EMPTY && y / 0x10000 == x / 0x10000
    ensures y >= EMPTY
  {
    x - x % 0x10000 + EMPTY
  }

  /** The new cost of one cell: `np.minimum(cost_grid, b | keepout)`. */
  function NewCost(g: Grid, occ: Mask, w: nat, h: nat, c: Cell): (k: nat)
    requires Shaped(g, w, h) && Shaped(occ, w, h) && InGrid(c, w, h)
    ensures k <= At(g, w, h, c)
    ensures At(occ, w, h, c) && At(g, w, h, c) <= EMPTY ==> k == At(g, w, h, c)
    ensures !At(occ, w, h, c) ==> k <= Best(g, w, h, c) && (k == At(g, w, h, c) || k == Best(g, w, h, c))
  {
    var b := Best(g, w, h, c);
    Min(At(g, w, h, c), if At(occ, w, h, c) then OrEmpty(b) else b)
  }

  /** One pass of the `while` loop over the cost grid: no cost rises, an
      occupied cell keeps a cost up to `EMPTY`, and a free cell drops to its
      candidate when that is cheaper. */
  function Sweep(g: Grid, occ: Mask, w: nat, h: nat): (g2: Grid)
    requires Shaped(g, w, h) && Shaped(occ, w, h)
    ensures Shaped(g2, w, h)
    ensures forall c :: InGrid(c, w, h) ==> At(g2, w, h, c) == NewCost(g, occ, w, h, c)
    ensures forall c :: InGrid(c, w, h) ==> At(g2, w, h, c) <= At(g, w, h, c)
    ensures forall c :: InGrid(c, w, h) && At(occ, w, h, c) && At(g, w, h, c) <= EMPTY ==> At(g2, w, h, c) == At(g, w, h, c)
    ensures forall c :: InGrid(c, w, h) && !At(occ, w, h, c) ==>
      At(g2, w, h, c) <= Best(g, w, h, c) && (At(g2, w, h, c) == At(g, w, h, c) || At(g2, w, h, c) == Best(g, w, h, c))
  {
    seq(2, s requires 0 <= s < 2 => seq(w, t requires 0 <= t < w => seq(h, u requires 0 <= u < h => NewCost(g, occ, w, h, Cell(s, t, u)))))
  }

  /** `via` of one pass: an unfilled cell whose candidate came (possibly in
      a tie) from the other layer. */
  predicate ViaWins(g: Grid, w: nat, h: nat, c: Cell)
    requires Shaped(g, w, h) && InGrid(c, w, h)
  {
    At(g, w, h, c) == EMPTY && Through(g, w, h, c) != EMPTY && Through(g, w, h, c) == Best(g, w, h, c)
  }

  /** `vias |= via`, one cell at a time. */
  predicate Marked(g: Grid, v: Mask, w: nat, h: nat, c: Cell)
    requires Shaped(g, w, h) && Shaped(v, w, h) && InGrid(c, w, h)
  {
    At(v, w, h, c) || ViaWins(g, w, h, c)
  }

  /** `vias |= via` over the whole grid: the mask only grows, and a cell is
      newly marked exactly when it is unfilled and the other layer's offer
      is not `EMPTY` and at least as cheap as every same-layer offer. */
  function MarkVias(g: Grid, v: Mask, w: nat, h: nat): (v2: Mask)
    requires Shaped(g, w, h) && Shaped(v, w, h)
    ensures Shaped(v2, w, h)
    ensures forall c :: InGrid(c, w, h) ==> At(v2, w, h, c) == Marked(g, v, w, h, c)
    ensures forall c :: InGrid(c, w, h) ==>
      (At(v2, w, h, c) <==>
        At(v, w, h, c) || (At(g, w, h, c) == EMPTY && Through(g, w, h, c) != EMPTY && Through(g, w, h, c) <= Spread(g, w, h, c)))
  {
    seq(2, s requires 0 <= s < 2 => seq(w, t requires 0 <= t < w => seq(h, u requires 0 <= u < h =>
      Marked(g, v, w, h, Cell(s, t, u)))))
  }

  // ---------------------------------------------------------------- termination

  function Sum1(xs: seq<nat>): nat {
    if |xs| == 0 then 0 else xs[0] + Sum1(xs[1..])
  }

  function Sum2(xs: seq<seq<nat>>): nat {
    if |xs| == 0 then 0 else Sum1(xs[0]) + Sum2(xs[1..])
  }

  function Sum3(xs: Grid): nat {
    if |xs| == 0 then 0 else Sum2(xs[0]) + Sum3(xs[1..])
  }

  lemma {:induction false} Shrink1(a: seq<nat>, b: seq<nat>)
    requires |a| == |b| && forall i :: 0 <= i < |a| ==> a[i] <= b[i]
    ensures Sum1(a) <= Sum1(b)
    ensures a != b ==> Sum1(a) < Sum1(b)
  {
    if |a| > 0 {
      Shrink1(a[1..], b[1..]);
      if a != b && a[0] == b[0] {
        assert a == [a[0]] + a[1..] && b == [b[0]] + b[1..];
      }
    }
  }

  lemma {:induction false} Shrink2(a: seq<seq<nat>>, b: seq<seq<nat>>)
    requires |a| == |b|
    requires forall i :: 0 <= i < |a| ==> |a[i]| == |b[i]| && forall j :: 0 <= j < |a[i]| ==> a[i][j] <= b[i][j]
    ensures Sum2(a) <= Sum2(b)
    ensures a != b ==> Sum2(a) < Sum2(b)
  {
    if |a| > 0 {
      Shrink1(a[0], b[0]);
      Shrink2(a[1..], b[1..]);
      if a != b && a[0] == b[0] {
        assert a == [a[0]] + a[1..] && b == [b[0]] + b[1..];
      }
    }
  }

  lemma {:induction false} Shrink3(a: Grid, b: Grid)
    requires |a| == |b|
    requires forall i :: 0 <= i < |a| ==> |a[i]| == |b[i]| && forall j :: 0 <= j < |a[i]| ==>
      |a[i][j]| == |b[i][j]| && forall k :: 0 <= k < |a[i][j]| ==> a[i][j][k] <= b[i][j][k]
    ensures Sum3(a) <= Sum3(b)
    ensures a != b ==> Sum3(a) < Sum3(b)
  {
    if |a| > 0 {
      Shrink2(a[0], b[0]);
      Shrink3(a[1..], b[1..]);
      if a != b && a[0] == b[0] {
        assert a == [a[0]] + a[1..] && b == [b[0]] + b[1..];
      }
    }
  }

  /** A pass that changes the grid lowers the sum of its costs. */
  lemma SweepShrinks(g: Grid, occ: Mask, w: nat, h: nat)
    requires Shaped(g, w, h) && Shaped(occ, w, h)
    ensures Sweep(g, occ, w, h) != g ==> Sum3(Sweep(g, occ, w, h)) < Sum3(g)
  {
    var g2 := Sweep(g, occ, w, h);
    forall i, j, k | 0 <= i < 2 && 0 <= j < w && 0 <= k < h ensures g2[i][j][k] <= g[i][j][k] {
      assert At(g2, w, h, Cell(i, j, k)) <= At(g, w, h, Cell(i, j, k));
    }
    Shrink3(g2, g);
  }

  // ---------------------------------------------------------------- the relaxation loop

  /** Every cost is finite-or-`EMPTY` and at least the start's 1. */
  ghost predicate Bounded(g: Grid, w: nat, h: nat)
    requires Shaped(g, w, h)
  {
    forall c :: InGrid(c, w, h) ==> 1 <= At(g, w, h, c) <= EMPTY
  }

  /** Some finite neighbour of `c` reaches it for no more than `c`'s cost. */
  ghost predicate Supported(g: Grid, w: nat, h: nat, c: Cell)
    requires Shaped(g, w, h) && InGrid(c, w, h)
  {
    exists n :: InGrid(n, w, h) && At(g, w, h, n) != EMPTY && MoveCost(n, c).Some?
      && At(g, w, h, n) + MoveCost(n, c).value <= At(g, w, h, c)
  }

  /** Every finite cost other than the start's is backed by a neighbour. */
  ghost predicate Grounded(g: Grid, w: nat, h: nat, start: Cell)
    requires Shaped(g, w, h)
  {
    forall c :: InGrid(c, w, h) && At(g, w, h, c) != EMPTY && c != start ==> Supported(g, w, h, c)
  }

  /** What a pass keeps: the start's cost of 1, the bounds, the backing of
      every finite cost, and the `EMPTY` of every occupied cell. */
  lemma SweepKeeps(g: Grid, occ: Mask, w: nat, h: nat, start: Cell)
    requires Shaped(g, w, h) && Shaped(occ, w, h) && InGrid(start, w, h)
    requires Bounded(g, w, h) && At(g, w, h, start) == 1 && Grounded(g, w, h, start)
    ensures Bounded(Sweep(g, occ, w, h), w, h)
    ensures At(Sweep(g, occ, w, h), w, h, start) == 1
    ensures Grounded(Sweep(g, occ, w, h), w, h, start)
    ensures forall c :: InGrid(c, w, h) && At(occ, w, h, c) ==> At(Sweep(g, occ, w, h), w, h, c) == At(g, w, h, c)
  {
    var g2 := Sweep(g, occ, w, h);
    forall c | InGrid(c, w, h) ensures 1 <= At(g2, w, h, c) <= EMPTY {
      BestIsCheapestOffer(g, w, h, c);
    }
    forall c | InGrid(c, w, h) && At(g2, w, h, c) != EMPTY && c != start ensures Supported(g2, w, h, c) {
      if At(g2, w, h, c) == At(g, w, h, c) {
        var n :| InGrid(n, w, h) && At(g, w, h, n) != EMPTY && MoveCost(n, c).Some?
          && At(g, w, h, n) + MoveCost(n, c).value <= At(g, w, h, c);
        assert At(g2, w, h, n) <= At(g, w, h, n);
      } else {
        BestIsCheapestOffer(g, w, h, c);
        var n :| Offers(g, w, h, n, c, Best(g, w, h, c));
        assert At(g2, w, h, n) <= At(g, w, h, n);
      }
    }
  }

  // ---------------------------------------------------------------- what the relaxation reaches

  /** `p` walks from `start` to `end` inside the grid by moves `MoveCost`
      prices, entering no occupied cell. */
  ghost predicate Route(occ: Mask, w: nat, h: nat, start: Cell, end: Cell, p: seq<Cell>)
    requires Shaped(occ, w, h)
  {
    && |p| >= 1 && p[0] == start && p[|p| - 1] == end
    && (forall j :: 0 <= j < |p| ==> InGrid(p[j], w, h) && (j > 0 ==> !At(occ, w, h, p[j])))
    && (forall j :: 0 <= j < |p| - 1 ==> MoveCost(p[j], p[j + 1]).Some?)
  }

  /** The move costs along `p`, added up. */
  function Steps(p: seq<Cell>): nat
    requires forall j :: 0 <= j < |p| - 1 ==> MoveCost(p[j], p[j + 1]).Some?
  {
    if |p| <= 1 then 0 else Steps(p[..|p| - 1]) + MoveCost(p[|p| - 2], p[|p| - 1]).value
  }

  /** Some route reaches `end` for a total, the start's 1 included, below
      `EMPTY`: a cost the grid can hold as finite. */
  ghost predicate CheapRoute(occ: Mask, w: nat, h: nat, start: Cell, end: Cell)
    requires Shaped(occ, w, h)
  {
    exists p :: Route(occ, w, h, start, end, p) && 1 + Steps(p) < EMPTY
  }

  /** No free cell's candidate undercuts its cost: what a grid no pass
      changes satisfies. */
  ghost predicate Settled(g: Grid, occ: Mask, w: nat, h: nat)
    requires Shaped(g, w, h) && Shaped(occ, w, h)
  {
    forall c :: InGrid(c, w, h) && !At(occ, w, h, c) ==> At(g, w, h, c) <= Best(g, w, h, c)
  }

  lemma FixpointSettled(g: Grid, occ: Mask, w: nat, h: nat)
    requires Shaped(g, w, h) && Shaped(occ, w, h) && Sweep(g, occ, w, h) == g
    ensures Settled(g, occ, w, h)
  {
    forall c | InGrid(c, w, h) && !At(occ, w, h, c) ensures At(g, w, h, c) <= Best(g, w, h, c) {
      assert At(Sweep(g, occ, w, h), w, h, c) <= Best(g, w, h, c);
    }
  }

  /** Adding one priced move into a free cell extends a route, and its cost
      by that move. */
  lemma RouteOn(occ: Mask, w: nat, h: nat, start: Cell, n: Cell, c: Cell, p: seq<Cell>)
    requires Shaped(occ, w, h) && Route(occ, w, h, start, n, p)
    requires InGrid(c, w, h) && !At(occ, w, h, c) && MoveCost(n, c).Some?
    ensures Route(occ, w, h, start, c, p + [c])
    ensures Steps(p + [c]) == Steps(p) + MoveCost(n, c).value
  {
    assert (p + [c])[..|p|] == p;
  }

  /** In a settled grid with the start at 1, the last cell of a cheap walk
      from the start costs no more than the walk. */
  lemma {:induction false} SettledBound(g: Grid, occ: Mask, w: nat, h: nat, start: Cell, end: Cell, p: seq<Cell>)
    requires Shaped(g, w, h) && Shaped(occ, w, h)
    requires Settled(g, occ, w, h) && InGrid(start, w, h) && At(g, w, h, start) == 1
    requires Route(occ, w, h, start, end, p) && 1 + Steps(p) < EMPTY
    ensures At(g, w, h, end) <= 1 + Steps(p)
    decreases |p|
  {
    if |p| > 1 {
      var q, n := RouteBack(occ, w, h, start, end, p);
      SettledBound(g, occ, w, h, start, n, q);
      SettledStep(g, occ, w, h, n, end);
    }
  }

  /** A route of two or more cells is a shorter route plus its last move. */
  lemma RouteBack(occ: Mask, w: nat, h: nat, start: Cell, end: Cell, p: seq<Cell>) returns (q: seq<Cell>, n: Cell)
    requires Shaped(occ, w, h) && Route(occ, w, h, start, end, p) && |p| > 1
    ensures Route(occ, w, h, start, n, q) && |q| < |p|
    ensures InGrid(n, w, h) && InGrid(end, w, h) && !At(occ, w, h, end) && MoveCost(n, end).Some?
    ensures Steps(p) == Steps(q) + MoveCost(n, end).value
  {
    q, n := p[..|p| - 1], p[|p| - 2];
  }

  /** In a settled grid a free cell costs no more than any finite
      neighbour's cost plus the move. */
  lemma SettledStep(g: Grid, occ: Mask, w: nat, h: nat, n: Cell, c: Cell)
    requires Shaped(g, w, h) && Shaped(occ, w, h) && Settled(g, occ, w, h)
    requires InGrid(n, w, h) && InGrid(c, w, h) && !At(occ, w, h, c)
    requires At(g, w, h, n) != EMPTY && MoveCost(n, c).Some?
    ensures At(g, w, h, c) <= At(g, w, h, n) + MoveCost(n, c).value
  {
    BestIsCheapestOffer(g, w, h, c);
    assert Offers(g, w, h, n, c, At(g, w, h, n) + MoveCost(n, c).value);
  }

  /** A pass that changes nothing while the end is still `EMPTY` shows that
      no cheap route exists, so every later pass changes nothing too. */
  lemma FixpointUnreached(g: Grid, occ: Mask, w: nat, h: nat, start: Cell, end: Cell)
    requires Shaped(g, w, h) && Shaped(occ, w, h) && InGrid(start, w, h) && InGrid(end, w, h)
    requires Sweep(g, occ, w, h) == g && At(g, w, h, start) == 1 && At(g, w, h, end) == EMPTY
    ensures !CheapRoute(occ, w, h, start, end)
  {
    FixpointSettled(g, occ, w, h);
    if CheapRoute(occ, w, h, start, end) {
      var p :| Route(occ, w, h, start, end, p) && 1 + Steps(p) < EMPTY;
      SettledBound(g, occ, w, h, start, end, p);
    }
  }

  /** Every occupied cell other than the start is still `EMPTY`. */
  ghost predicate KeptOut(g: Grid, occ: Mask, w: nat, h: nat, start: Cell)
    requires Shaped(g, w, h) && Shaped(occ, w, h)
  {
    forall c :: InGrid(c, w, h) && At(occ, w, h, c) && c != start ==> At(g, w, h, c) == EMPTY
  }

  /** Following the supporting neighbours back from a finite cell gives a
      route from the start that costs no more than the cell. */
  lemma {:induction false} GroundedRoute(g: Grid, occ: Mask, w: nat, h: nat, start: Cell, c: Cell)
    returns (p: seq<Cell>)
    requires Shaped(g, w, h) && Shaped(occ, w, h) && InGrid(start, w, h) && InGrid(c, w, h)
    requires Bounded(g, w, h) && At(g, w, h, start) == 1 && Grounded(g, w, h, start)
    requires KeptOut(g, occ, w, h, start)
    requires At(g, w, h, c) < EMPTY
    ensures Route(occ, w, h, start, c, p) && 1 + Steps(p) <= At(g, w, h, c)
    decreases At(g, w, h, c)
  {
    if c == start {
      p := [start];
    } else {
      var n := SupportOf(g, w, h, c);
      var q := GroundedRoute(g, occ, w, h, start, n);
      RouteOn(occ, w, h, start, n, c, q);
      p := q + [c];
    }
  }

  /** A neighbour backing a supported cell, strictly cheaper than it. */
  lemma SupportOf(g: Grid, w: nat, h: nat, c: Cell) returns (n: Cell)
    requires Shaped(g, w, h) && InGrid(c, w, h) && Supported(g, w, h, c) && Bounded(g, w, h)
    ensures InGrid(n, w, h) && At(g, w, h, n) < At(g, w, h, c) && MoveCost(n, c).Some?
    ensures At(g, w, h, n) + MoveCost(n, c).value <= At(g, w, h, c)
  {
    n :| InGrid(n, w, h) && At(g, w, h, n) != EMPTY && MoveCost(n, c).Some?
      && At(g, w, h, n) + MoveCost(n, c).value <= At(g, w, h, c);
  }

  /** The relaxation loop unrolled: from grid `g` and via mask `v`, keep
      sweeping until the end cell is finite, or answer `Unreached` at the
      first sweep that changes nothing. */
  function RelaxFrom(g: Grid, v: Mask, occ: Mask, w: nat, h: nat, end: Cell): (r: Result<(Grid, Mask)>)
    requires Shaped(g, w, h) && Shaped(v, w, h) && Shaped(occ, w, h) && InGrid(end, w, h)
    ensures r.Err? ==> r.error == Unreached
    ensures r.Ok? ==> Shaped(r.value.0, w, h) && Shaped(r.value.1, w, h) && At(r.value.0, w, h, end) != EMPTY
    ensures r.Ok? ==> forall c :: InGrid(c, w, h) ==> At(r.value.0, w, h, c) <= At(g, w, h, c)
    decreases Sum3(g)
  {
    if At(g, w, h, end) != EMPTY then Ok((g, v))
    else
      var g2 := Sweep(g, occ, w, h);
      if g2 == g then Err(Unreached)
      else
        SweepShrinks(g, occ, w, h);
        RelaxFrom(g2, MarkVias(g, v, w, h), occ, w, h, end)
  }

  /** The `while cost_grid[end] == EMPTY` loop. It returns the relaxed cost
      grid and the via mask, or `Unreached` once a pass changes nothing,
      after which the source would repeat that pass for ever. That happens
      exactly when no route reaches the end for less than `EMPTY`. */
  method Relax(occ: Mask, w: nat, h: nat, start: Cell, end: Cell) returns (r: Result<(Grid, Mask)>)
    requires Shaped(occ, w, h) && InGrid(start, w, h) && InGrid(end, w, h)
    ensures r.Err? ==> r.error == Unreached
    ensures r == RelaxFrom(Initial(w, h, start), Full(w, h, false), occ, w, h, end)
    ensures r.Ok? <==> CheapRoute(occ, w, h, start, end)
    ensures start == end ==> r.Ok?
    ensures r.Ok? ==> Shaped(r.value.0, w, h) && Shaped(r.value.1, w, h)
    ensures r.Ok? ==> At(r.value.0, w, h, end) < EMPTY
    ensures r.Ok? ==> Bounded(r.value.0, w, h) && At(r.value.0, w, h, start) == 1
    ensures r.Ok? ==> Grounded(r.value.0, w, h, start)
    ensures r.Ok? ==> forall c :: InGrid(c, w, h) && At(occ, w, h, c) && c != start ==> At(r.value.0, w, h, c) == EMPTY
  {
    var g := Initial(w, h, start);
    var vias := Full(w, h, false);
    while At(g, w, h, end) == EMPTY
      invariant Shaped(g, w, h) && Shaped(vias, w, h)
      invariant Bounded(g, w, h) && At(g, w, h, start) == 1 && Grounded(g, w, h, start)
      invariant forall c :: InGrid(c, w, h) && At(occ, w, h, c) && c != start ==> At(g, w, h, c) == EMPTY
      invariant RelaxFrom(g, vias, occ, w, h, end) == RelaxFrom(Initial(w, h, start), Full(w, h, false), occ, w, h, end)
      decreases Sum3(g)
    {
      var g2 := Sweep(g, occ, w, h);
      ghost var before := vias;
      vias := MarkVias(g, vias, w, h);
      assert RelaxFrom(g, before, occ, w, h, end) == if g2 == g then Err(Unreached) else RelaxFrom(g2, vias, occ, w, h, end);
      if g2 == g {
        FixpointUnreached(g, occ, w, h, start, end);
        return Err(Unreached);
      }
      SweepShrinks(g, occ, w, h);
      SweepKeeps(g, occ, w, h, start);
      g := g2;
    }
    var p := GroundedRoute(g, occ, w, h, start, end);
    assert Route(occ, w, h, start, end, p) && 1 + Steps(p) < EMPTY;
    return Ok((g, vias));
  }

  // ---------------------------------------------------------------- the backtrack

  /** One entry of `options`: `((cost_grid[nb], pref), nb)`. */
  datatype Choice = Choice(cost: nat, pref: nat, cell: Cell)

  /** Python's ordering of cell tuples `(s, t, u)`. */
  predicate CellBelow(a: Cell, b: Cell) {
    a.s < b.s || (a.s == b.s && (a.t < b.t || (a.t == b.t && a.u < b.u)))
  }

  /** Python's ordering of the `options` tuples. */
  predicate Below(a: Choice, b: Choice) {
    a.cost < b.cost || (a.cost == b.cost && (a.pref < b.pref || (a.pref == b.pref && CellBelow(a.cell, b.cell))))
  }

  /** `Below` is a strict total order, as Python's tuple comparison is. */
  lemma BelowOrder(a: Choice, b: Choice, c: Choice)
    ensures a == b || Below(a, b) || Below(b, a)
    ensures !(Below(a, b) && Below(b, a))
    ensures Below(a, b) && Below(b, c) ==> Below(a, c)
  {
  }

  /** `min(options)`: the one entry below every other. */
  function Lowest(cs: seq<Choice>): (m: Choice)
    requires |cs| > 0
    ensures m in cs
    ensures forall c :: c in cs ==> c == m || Below(m, c)
  {
    if |cs| == 1 then cs[0]
    else
      var m := Lowest(cs[1..]);
      if Below(m, cs[0]) then m
      else
        assert forall c :: c in cs[1..] ==> c == cs[0] || Below(cs[0], c) by {
          forall c | c in cs[1..] ensures c == cs[0] || Below(cs[0], c) {
            BelowOrder(cs[0], m, c);
          }
        }
        cs[0]
  }

  /** `(s, t + j, u + k)` for `(j, k)` in `conn4`, the cell itself included. */
  predicate Near(n: Cell, c: Cell) {
    n.s == c.s && ((n.t == c.t && (n.u == c.u + 1 || n.u + 1 == c.u || n.u == c.u))
      || (n.u == c.u && (n.t == c.t + 1 || n.t + 1 == c.t)))
  }

  /** The in-bounds `conn4` cells around `cp`, in `conn4` order. */
  function Conn4(cp: Cell, w: nat, h: nat): (near: seq<Cell>)
    requires InGrid(cp, w, h)
    ensures cp in near
    ensures forall n :: n in near <==> InGrid(n, w, h) && Near(n, cp)
  {
    (if cp.u + 1 < h then [Cell(cp.s, cp.t, cp.u + 1)] else [])
      + (if cp.u >= 1 then [Cell(cp.s, cp.t, cp.u - 1)] else [])
      + (if cp.t + 1 < w then [Cell(cp.s, cp.t + 1, cp.u)] else [])
      + (if cp.t >= 1 then [Cell(cp.s, cp.t - 1, cp.u)] else [])
      + [cp]
  }

  /** The `options` of one backtrack step from `cp`: the in-bounds `conn4`
      cells in `conn4` order with preference 0, then the other layer with
      preference `COST_VIA` where the via mask is set. */
  function Choices(g: Grid, v: Mask, w: nat, h: nat, cp: Cell): (cs: seq<Choice>)
    requires Shaped(g, w, h) && Shaped(v, w, h) && InGrid(cp, w, h)
    ensures forall c :: c in cs ==> InGrid(c.cell, w, h) && c.cost == At(g, w, h, c.cell)
    ensures forall c :: c in cs ==>
      ((c.pref == 0 && Near(c.cell, cp)) || (c.pref == COST_VIA && c.cell == Cell(1 - cp.s, cp.t, cp.u) && At(v, w, h, cp)))
    ensures forall n :: InGrid(n, w, h) && Near(n, cp) ==> Choice(At(g, w, h, n), 0, n) in cs
    ensures At(v, w, h, cp) <==> Choice(At(g, w, h, Cell(1 - cp.s, cp.t, cp.u)), COST_VIA, Cell(1 - cp.s, cp.t, cp.u)) in cs
  {
    var near := Conn4(cp, w, h);
    var other := Cell(1 - cp.s, cp.t, cp.u);
    var own := seq(|near|, i requires 0 <= i < |near| => Choice(At(g, w, h, near[i]), 0, near[i]));
    assert forall n :: n in near ==> Choice(At(g, w, h, n), 0, n) in own by {
      forall n | n in near ensures Choice(At(g, w, h, n), 0, n) in own {
        var i :| 0 <= i < |near| && near[i] == n;
        assert own[i] == Choice(At(g, w, h, n), 0, n);
      }
    }
    own + (if At(v, w, h, cp) then [Choice(At(g, w, h, other), COST_VIA, other)] else [])
  }

  /** `a` comes before `b` in the backtrack's order: cheaper, or as cheap
      and a smaller cell tuple. */
  predicate Ahead(g: Grid, w: nat, h: nat, a: Cell, b: Cell)
    requires Shaped(g, w, h) && InGrid(a, w, h) && InGrid(b, w, h)
  {
    At(g, w, h, a) < At(g, w, h, b) || (At(g, w, h, a) == At(g, w, h, b) && CellBelow(a, b))
  }

  /** A step that does not stay put moves strictly ahead. */
  lemma StepAhead(g: Grid, v: Mask, w: nat, h: nat, cp: Cell)
    requires Shaped(g, w, h) && Shaped(v, w, h) && InGrid(cp, w, h)
    ensures var m := Lowest(Choices(g, v, w, h, cp));
      m.cell != cp ==> Ahead(g, w, h, m.cell, cp)
  {
    var cs := Choices(g, v, w, h, cp);
    var m := Lowest(cs);
    assert Choice(At(g, w, h, cp), 0, cp) in cs;
  }

  /** One backtrack step: the cell of the lowest option around `cp`. */
  function Next(g: Grid, v: Mask, w: nat, h: nat, cp: Cell): (n: Cell)
    requires Shaped(g, w, h) && Shaped(v, w, h) && InGrid(cp, w, h)
    ensures InGrid(n, w, h)
    ensures Near(n, cp) || n == Cell(1 - cp.s, cp.t, cp.u)
    ensures n != cp ==> Ahead(g, w, h, n, cp)
  {
    StepAhead(g, v, w, h, cp);
    Lowest(Choices(g, v, w, h, cp)).cell
  }

  /** `path` is a prefix of the backtrack from `end`: each cell is the lowest
      option of the one before. */
  ghost predicate Walk(g: Grid, v: Mask, w: nat, h: nat, end: Cell, path: seq<Cell>)
    requires Shaped(g, w, h) && Shaped(v, w, h)
  {
    && |path| >= 1 && path[0] == end
    && (forall i :: 0 <= i < |path| ==> InGrid(path[i], w, h))
    && (forall i :: 0 <= i < |path| - 1 ==> path[i + 1] == Next(g, v, w, h, path[i]))
  }

  /** The cells of `path` move strictly ahead. */
  ghost predicate Climbs(g: Grid, w: nat, h: nat, path: seq<Cell>)
    requires Shaped(g, w, h)
  {
    && (forall i :: 0 <= i < |path| ==> InGrid(path[i], w, h))
    && (forall i, j :: 0 <= i < j < |path| ==> Ahead(g, w, h, path[j], path[i]))
  }

  lemma WalkOn(g: Grid, v: Mask, w: nat, h: nat, end: Cell, path: seq<Cell>)
    requires Shaped(g, w, h) && Shaped(v, w, h) && Walk(g, v, w, h, end, path)
    ensures Walk(g, v, w, h, end, path + [Next(g, v, w, h, path[|path| - 1])])
  {
  }

  lemma ClimbOn(g: Grid, w: nat, h: nat, path: seq<Cell>, m: Cell)
    requires Shaped(g, w, h) && Climbs(g, w, h, path) && |path| > 0
    requires InGrid(m, w, h) && Ahead(g, w, h, m, path[|path| - 1])
    ensures Climbs(g, w, h, path + [m])
  {
    var p2 := path + [m];
    forall i, j | 0 <= i < j < |p2| ensures Ahead(g, w, h, p2[j], p2[i]) {
      if j == |path| && i < |path| - 1 {
        assert Ahead(g, w, h, path[|path| - 1], path[i]);
      }
    }
  }

  /** A climbing path visits no cell twice and never gets dearer. */
  lemma ClimbFacts(g: Grid, w: nat, h: nat, path: seq<Cell>)
    requires Shaped(g, w, h) && Climbs(g, w, h, path)
    ensures forall i, j :: 0 <= i < j < |path| ==> At(g, w, h, path[j]) <= At(g, w, h, path[i])
    ensures forall i, j :: 0 <= i < j < |path| ==> path[i] != path[j]
  {
    forall i, j | 0 <= i < j < |path| ensures At(g, w, h, path[j]) <= At(g, w, h, path[i]) {
      assert Ahead(g, w, h, path[j], path[i]);
    }
  }

  /** `used[cp] = 1` keeps `used` the indicator of the path. */
  lemma MarkUsed(used: Grid, w: nat, h: nat, path: seq<Cell>, m: Cell)
    requires Shaped(used, w, h) && InGrid(m, w, h)
    requires forall c :: InGrid(c, w, h) ==> At(used, w, h, c) == if c in path then 1 else 0
    ensures forall c :: InGrid(c, w, h) ==> At(Put(used, w, h, m, 1), w, h, c) == if c in path + [m] then 1 else 0
  {
  }

  /** `used` is 1 exactly on the cells of `path` and 0 elsewhere. */
  ghost predicate Marks(used: Grid, w: nat, h: nat, path: seq<Cell>) {
    Shaped(used, w, h) && forall c :: InGrid(c, w, h) ==> At(used, w, h, c) == if c in path then 1 else 0
  }

  /** What the backtrack loop keeps: the path walked so far from `end`,
      not yet through `start`, and its `used` mask. */
  ghost predicate Trail(g: Grid, v: Mask, w: nat, h: nat, start: Cell, end: Cell, path: seq<Cell>, used: Grid)
    requires Shaped(g, w, h) && Shaped(v, w, h)
  {
    && Walk(g, v, w, h, end, path) && Climbs(g, w, h, path) && Marks(used, w, h, path)
    && (forall i :: 0 <= i < |path| - 1 ==> path[i] != start)
    && (start == end ==> |path| == 1)
  }

  lemma TrailOn(g: Grid, v: Mask, w: nat, h: nat, start: Cell, end: Cell, path: seq<Cell>, used: Grid)
    requires Shaped(g, w, h) && Shaped(v, w, h) && Trail(g, v, w, h, start, end, path, used)
    requires path[|path| - 1] != start
    requires Next(g, v, w, h, path[|path| - 1]) != path[|path| - 1]
    ensures var m := Next(g, v, w, h, path[|path| - 1]);
      Trail(g, v, w, h, start, end, path + [m], Put(used, w, h, m, 1))
  {
    var m := Next(g, v, w, h, path[|path| - 1]);
    WalkOn(g, v, w, h, end, path);
    ClimbOn(g, w, h, path, m);
    MarkUsed(used, w, h, path, m);
    AvoidsOn(path, start, m);
  }

  lemma AvoidsOn(path: seq<Cell>, start: Cell, m: Cell)
    requires |path| >= 1 && path[|path| - 1] != start
    requires forall i :: 0 <= i < |path| - 1 ==> path[i] != start
    ensures forall i :: 0 <= i < |path + [m]| - 1 ==> (path + [m])[i] != start
  {
  }

  lemma TrailStart(g: Grid, v: Mask, w: nat, h: nat, start: Cell, end: Cell)
    requires Shaped(g, w, h) && Shaped(v, w, h) && InGrid(end, w, h)
    ensures Trail(g, v, w, h, start, end, [end], Put(Full(w, h, 0), w, h, end, 1))
  {
  }

  /** `path` is a prefix of the backtrack that never meets `start` and
      ends on a cell whose lowest option is the cell itself. */
  ghost predicate StallsAlong(g: Grid, v: Mask, w: nat, h: nat, start: Cell, end: Cell, path: seq<Cell>)
    requires Shaped(g, w, h) && Shaped(v, w, h)
  {
    && Walk(g, v, w, h, end, path)
    && (forall i :: 0 <= i < |path| ==> path[i] != start)
    && Next(g, v, w, h, path[|path| - 1]) == path[|path| - 1]
  }

  /** The greedy walk from `end` gets stuck on some cell before it meets
      `start`: the source's loop then appends that cell for ever. */
  ghost predicate Stalls(g: Grid, v: Mask, w: nat, h: nat, start: Cell, end: Cell)
    requires Shaped(g, w, h) && Shaped(v, w, h)
  {
    exists path :: StallsAlong(g, v, w, h, start, end, path)
  }

  /** The backtrack is deterministic: two walks from `end` agree where both
      are defined. */
  lemma {:induction false} WalksAgree(g: Grid, v: Mask, w: nat, h: nat, end: Cell, p: seq<Cell>, q: seq<Cell>, i: nat)
    requires Shaped(g, w, h) && Shaped(v, w, h)
    requires Walk(g, v, w, h, end, p) && Walk(g, v, w, h, end, q)
    requires i < |p| && i < |q|
    ensures p[i] == q[i]
  {
    if i > 0 {
      WalksAgree(g, v, w, h, end, p, q, i - 1);
      assert p[i] == Next(g, v, w, h, p[i - 1]);
    }
  }

  /** Every cell of a climbing walk but the last moves on. */
  lemma MovesOn(g: Grid, v: Mask, w: nat, h: nat, end: Cell, path: seq<Cell>, k: nat)
    requires Shaped(g, w, h) && Shaped(v, w, h)
    requires Walk(g, v, w, h, end, path) && Climbs(g, w, h, path) && k + 1 < |path|
    ensures Next(g, v, w, h, path[k]) != path[k]
  {
    assert path[k + 1] == Next(g, v, w, h, path[k]);
    assert Ahead(g, w, h, path[k + 1], path[k]);
  }

  /** A trail that reaches `start` rules out every stall: a shorter stalled
      walk would make the trail stay put, and a longer one would meet
      `start`. */
  lemma ReachedNoStall(g: Grid, v: Mask, w: nat, h: nat, start: Cell, end: Cell, path: seq<Cell>)
    requires Shaped(g, w, h) && Shaped(v, w, h)
    requires Walk(g, v, w, h, end, path) && Climbs(g, w, h, path) && path[|path| - 1] == start
    ensures !Stalls(g, v, w, h, start, end)
  {
    forall q | StallsAlong(g, v, w, h, start, end, q) ensures false {
      if |q| >= |path| {
        WalksAgree(g, v, w, h, end, path, q, |path| - 1);
      } else {
        MovesOn(g, v, w, h, end, path, |q| - 1);
        WalksAgree(g, v, w, h, end, path, q, |q| - 1);
      }
    }
  }

  /** The `while cp != start` loop itself. */
  method WalkBack(g: Grid, v: Mask, w: nat, h: nat, start: Cell, end: Cell) returns (r: Result<(seq<Cell>, Grid)>)
    requires Shaped(g, w, h) && Shaped(v, w, h) && InGrid(start, w, h) && InGrid(end, w, h)
    ensures r.Err? ==> r.error == Diverges
    ensures r.Err? <==> Stalls(g, v, w, h, start, end)
    ensures start == end ==> r.Ok? && |r.value.0| == 1
    ensures r.Ok? ==> Trail(g, v, w, h, start, end, r.value.0, r.value.1) && r.value.0[|r.value.0| - 1] == start
  {
    var cp := end;
    var used := Put(Full(w, h, 0), w, h, end, 1);
    var path := [end];
    TrailStart(g, v, w, h, start, end);
    while cp != start
      invariant Trail(g, v, w, h, start, end, path, used) && path[|path| - 1] == cp
      decreases At(g, w, h, cp), cp.s, cp.t, cp.u
    {
      var m := Next(g, v, w, h, cp);
      if m == cp {
        assert StallsAlong(g, v, w, h, start, end, path);
        return Err(Diverges);
      }
      TrailOn(g, v, w, h, start, end, path, used);
      path := path + [m];
      used := Put(used, w, h, m, 1);
      cp := m;
    }
    ReachedNoStall(g, v, w, h, start, end, path);
    return Ok((path, used));
  }

  /** The backtrack of router.py (its second `while` loop), returning `path`
      and the `used` mask. The walk stalls when the lowest option is the
      current cell itself; the source then appends that cell for ever, and
      the model answers `Diverges`. */
  method Backtrack(g: Grid, v: Mask, w: nat, h: nat, start: Cell, end: Cell) returns (r: Result<(seq<Cell>, Grid)>)
    requires Shaped(g, w, h) && Shaped(v, w, h) && InGrid(start, w, h) && InGrid(end, w, h)
    ensures r.Err? ==> r.error == Diverges
    ensures r.Err? <==> Stalls(g, v, w, h, start, end)
    ensures start == end ==> r.Ok? && r.value.0 == [end]
    ensures r.Ok? ==> var path := r.value.0;
      && |path| >= 1 && path[0] == end && path[|path| - 1] == start
      && (forall i :: 0 <= i < |path| ==> InGrid(path[i], w, h))
      && (forall i :: 0 <= i < |path| - 1 ==> path[i] != start)
      && (forall i :: 0 <= i < |path| - 1 ==> path[i + 1] == Next(g, v, w, h, path[i]))
    ensures r.Ok? ==> var path := r.value.0;
      (forall i, j :: 0 <= i < j < |path| ==> At(g, w, h, path[j]) <= At(g, w, h, path[i]))
      && (forall i, j :: 0 <= i < j < |path| ==> path[i] != path[j])
    ensures r.Ok? ==> var (path, used) := r.value;
      Shaped(used, w, h) && forall c :: InGrid(c, w, h) ==> At(used, w, h, c) == if c in path then 1 else 0
  {
    r := WalkBack(g, v, w, h, start, end);
    if r.Ok? {
      ClimbFacts(g, w, h, r.value.0);
    }
  }

  // ---------------------------------------------------------------- lees_algorithm

  /** `lees_algorithm(occupied, start, end)`: relax, then walk back. An
      index outside the grid is numpy's `IndexError`. The returned path runs
      from `end` to `start`, each step to a `conn4` neighbour on the same
      layer or through a via, never through an occupied cell other than the
      start, and `used` marks exactly its cells. */
  method LeesAlgorithm(occ: Mask, w: nat, h: nat, start: Cell, end: Cell) returns (r: Result<(seq<Cell>, Grid)>)
    requires Shaped(occ, w, h)
    ensures !InGrid(start, w, h) || !InGrid(end, w, h) ==> r == Err("IndexError: index out of bounds")
    ensures start == end && InGrid(start, w, h) ==> r.Ok? && r.value.0 == [end]
    ensures r.Ok? ==> var path := r.value.0;
      && |path| >= 1 && path[0] == end && path[|path| - 1] == start
      && (forall i :: 0 <= i < |path| ==> InGrid(path[i], w, h))
      && (forall i :: 0 <= i < |path| - 1 ==> Near(path[i + 1], path[i]) || path[i + 1] == Cell(1 - path[i].s, path[i].t, path[i].u))
      && (forall i, j :: 0 <= i < j < |path| ==> path[i] != path[j])
    ensures r.Ok? ==> var path := r.value.0;
      forall i :: 0 <= i < |path| && path[i] != start ==> !At(occ, w, h, path[i])
    ensures r.Ok? ==> var (path, used) := r.value;
      Shaped(used, w, h) && forall c :: InGrid(c, w, h) ==> At(used, w, h, c) == if c in path then 1 else 0
    ensures InGrid(start, w, h) && InGrid(end, w, h) ==>
      (r.Err? && r.error == Unreached <==> !CheapRoute(occ, w, h, start, end))
    ensures r.Err? && InGrid(start, w, h) && InGrid(end, w, h) ==> r.error == Unreached || r.error == Diverges
    ensures InGrid(start, w, h) && InGrid(end, w, h) ==>
      var relaxed := RelaxFrom(Initial(w, h, start), Full(w, h, false), occ, w, h, end);
      (r.Err? && r.error == Diverges <==> relaxed.Ok? && Stalls(relaxed.value.0, relaxed.value.1, w, h, start, end))
  {
    if !InGrid(start, w, h) || !InGrid(end, w, h) {
      return Err("IndexError: index out of bounds");
    }
    var relaxed := Relax(occ, w, h, start, end);
    if relaxed.Err? {
      return Err(relaxed.error);
    }
    var (g, vias) := relaxed.value;
    r := Backtrack(g, vias, w, h, start, end);
    if r.Ok? {
      var path := r.value.0;
      forall i | 0 <= i < |path| && path[i] != start ensures !At(occ, w, h, path[i]) {
        assert i > 0 ==> At(g, w, h, path[i]) <= At(g, w, h, path[0]);
      }
    }
  }
}
