/** The wavefront router of hexboard.py (`HexBoard.hex_route`): a
    breadth-first search over the hex lattice from the start cell, stamping
    each newly reached cell with its iteration number, followed by a
    backtrack from the goal along decreasing stamps. The board's valid cells
    and per-layer blocked cells are sets of `Hex`; numpy's grid storage (and
    its wrap-around on negative indices) is not modelled. */
module HexRouting {
  import opened Results
  import opened HexGrid

  // ---------------------------------------------------------------- set sizes

  lemma {:induction false} SubsetCard<T>(A: set<T>, B: set<T>)
    requires A <= B
    ensures |A| <= |B|
    decreases |B|
  {
    if A != {} {
      var x :| x in A;
      SubsetCard(A - {x}, B - {x});
    }
  }

  lemma StrictSubsetCard<T>(A: set<T>, B: set<T>)
    requires A < B
    ensures |A| < |B|
  {
    var x :| x in B && x !in A;
    SubsetCard(A, B - {x});
  }

  // ---------------------------------------------------------------- one sweep

  /** The cells one sweep of the expansion adds: every valid, unblocked cell
      one direction vector away from a wavefront cell. */
  function Expand(W: set<Hex>, valid: set<Hex>, blocked: set<Hex>): (W2: set<Hex>)
    ensures W2 <= valid - blocked
  {
    set h, k | h in W && 0 <= k < 6 && Add(h, Directions[k]) in valid && Add(h, Directions[k]) !in blocked
      :: Add(h, Directions[k])
  }

  /** The cells the inner `for d in dirs` loop adds for one wavefront cell,
      after its first `k` directions. */
  function Reach(h: Hex, k: int, valid: set<Hex>, blocked: set<Hex>): set<Hex> {
    set j | 0 <= j < k && 0 <= j < 6 && Add(h, Directions[j]) in valid && Add(h, Directions[j]) !in blocked
      :: Add(h, Directions[j])
  }

  /** Records iteration `i` as the distance of every cell of `W2`. */
  function Stamp(dist: map<Hex, nat>, W2: set<Hex>, i: nat): (d: map<Hex, nat>)
    ensures d.Keys == dist.Keys + W2
    ensures forall c :: c in d ==> d[c] == if c in W2 then i else dist[c]
  {
    map c | c in dist.Keys + W2 :: if c in W2 then i else dist[c]
  }

  lemma ExpandInsert(done: set<Hex>, p: Hex, valid: set<Hex>, blocked: set<Hex>)
    ensures Expand(done + {p}, valid, blocked) == Expand(done, valid, blocked) + Reach(p, 6, valid, blocked)
  {
  }

  lemma ReachStep(p: Hex, k: int, valid: set<Hex>, blocked: set<Hex>)
    requires 0 <= k < 6
    ensures Reach(p, k + 1, valid, blocked) ==
      Reach(p, k, valid, blocked)
      + (if Add(p, Directions[k]) in valid && Add(p, Directions[k]) !in blocked then {Add(p, Directions[k])} else {})
  {
  }

  lemma InnerStep(done: set<Hex>, p: Hex, k: int, valid: set<Hex>, blocked: set<Hex>, W2: set<Hex>)
    requires 0 <= k < 6
    requires W2 == Expand(done, valid, blocked) + Reach(p, k, valid, blocked)
    ensures W2 <= valid - blocked
    ensures var n := Add(p, Directions[k]);
      (if n in valid && n !in blocked + W2 then W2 + {n} else W2)
      == Expand(done, valid, blocked) + Reach(p, k + 1, valid, blocked)
  {
    ReachStep(p, k, valid, blocked);
  }

  lemma StampInsert(dist: map<Hex, nat>, W2: set<Hex>, n: Hex, i: nat)
    ensures Stamp(dist, W2 + {n}, i) == Stamp(dist, W2, i)[n := i]
  {
  }

  /** One pass of the `while` body of `hex_route`, cell by cell as the
      source does it. */
  method ExpandPass(W: set<Hex>, valid: set<Hex>, blocked: set<Hex>, dist: map<Hex, nat>, i: nat)
    returns (W2: set<Hex>, blocked2: set<Hex>, dist2: map<Hex, nat>)
    ensures W2 == Expand(W, valid, blocked)
    ensures blocked2 == blocked + W2
    ensures dist2 == Stamp(dist, W2, i)
  {
    W2, blocked2, dist2 := {}, blocked, dist;
    var rest, done := W, {};
    while rest != {}
      invariant rest + done == W && rest !! done
      invariant W2 == Expand(done, valid, blocked)
      invariant blocked2 == blocked + W2
      invariant dist2 == Stamp(dist, W2, i)
      decreases |rest|
    {
      var p :| p in rest;
      W2, blocked2, dist2 := ExpandCell(done, p, valid, blocked, dist, i, W2);
      ExpandInsert(done, p, valid, blocked);
      PassStep(W, rest, done, p);
      rest, done := rest - {p}, done + {p};
    }
  }

  lemma PassStep(W: set<Hex>, rest: set<Hex>, done: set<Hex>, p: Hex)
    requires rest + done == W && rest !! done && p in rest
    ensures (rest - {p}) + (done + {p}) == W && (rest - {p}) !! (done + {p})
    ensures |rest - {p}| < |rest|
  {
  }

  /** The inner `for d in dirs` loop for wavefront cell `p`, direction by
      direction, blocking and stamping each cell as it is added. Checking the
      growing `blocked` rather than the one at the start of the pass gives the
      same set. */
  method ExpandCell(done: set<Hex>, p: Hex, valid: set<Hex>, blocked: set<Hex>, dist: map<Hex, nat>, i: nat,
                    W: set<Hex>)
    returns (W2: set<Hex>, blocked2: set<Hex>, dist2: map<Hex, nat>)
    requires W == Expand(done, valid, blocked)
    ensures W2 == Expand(done, valid, blocked) + Reach(p, 6, valid, blocked)
    ensures blocked2 == blocked + W2
    ensures dist2 == Stamp(dist, W2, i)
  {
    W2, blocked2, dist2 := W, blocked + W, Stamp(dist, W, i);
    var k := 0;
    while k < 6
      invariant 0 <= k <= 6
      invariant W2 == Expand(done, valid, blocked) + Reach(p, k, valid, blocked)
      invariant blocked2 == blocked + W2
      invariant dist2 == Stamp(dist, W2, i)
    {
      InnerStep(done, p, k, valid, blocked, W2);
      var n := Add(p, Directions[k]);
      if n in valid && n !in blocked2 {
        StampInsert(dist, W2, n, i);
        W2 := W2 + {n};
        blocked2 := blocked2 + {n};
        dist2 := dist2[n := i];
      }
      k := k + 1;
    }
  }

  // ---------------------------------------------------------------- the search

  /** A cell's entry in the `distance` grid; cells never reached read 0. */
  function Dist(d: map<Hex, nat>, c: Hex): nat {
    if c in d then d[c] else 0
  }

  /** `y` is one direction vector away from `x`. */
  predicate Adjacent(x: Hex, y: Hex) {
    exists k :: 0 <= k < 6 && y == Add(x, Directions[k])
  }

  /** Index of the opposite direction vector. */
  function Opposite(k: int): (j: int)
    requires 0 <= k < 6
    ensures 0 <= j < 6
  {
    if k < 3 then k + 3 else k - 3
  }

  lemma OppositeCancels(h: Hex, k: int)
    requires 0 <= k < 6
    ensures Add(Add(h, Directions[k]), Directions[Opposite(k)]) == h
  {
  }

  lemma AdjacentSymmetric(x: Hex, y: Hex)
    requires Adjacent(x, y)
    ensures Adjacent(y, x)
  {
    var k :| 0 <= k < 6 && y == Add(x, Directions[k]);
    OppositeCancels(x, k);
  }

  /** Each cell of `cs` is one direction vector from the one before it, the
      first from `start`. */
  predicate Chain(start: Hex, cs: seq<Hex>) {
    forall j :: 0 <= j < |cs| ==> Adjacent(if j == 0 then start else cs[j - 1], cs[j])
  }

  /** Some neighbour of `c` carries the stamp one below `c`'s. */
  predicate HasPred(d: map<Hex, nat>, c: Hex) {
    exists k :: 0 <= k < 6 && Dist(d, Add(c, Directions[k])) == Dist(d, c) - 1
  }

  /** What the stamps of a breadth-first search from `a` satisfy: every stamped
      cell is valid and was not blocked, stamp 1 marks the neighbours of `a`, and
      every higher stamp has a neighbour stamped one lower. */
  predicate DistInv(a: Hex, valid: set<Hex>, blocked0: set<Hex>, d: map<Hex, nat>) {
    && (forall c :: c in d ==> c in valid && c !in blocked0 && d[c] >= 1)
    && (forall c :: c in d && d[c] == 1 ==> Adjacent(c, a))
    && (forall c {:trigger HasPred(d, c)} :: c in d && d[c] >= 2 ==> HasPred(d, c))
  }

  /** The state at the top of the `while` loop at iteration `i`. */
  predicate SearchInv(a: Hex, valid: set<Hex>, blocked0: set<Hex>, blocked: set<Hex>, W: set<Hex>,
                      dist: map<Hex, nat>, i: nat) {
    && i >= 1
    && DistInv(a, valid, blocked0, dist)
    && blocked == blocked0 + dist.Keys
    && (i == 1 ==> W == {a} && dist == map[])
    && (i >= 2 ==> forall c :: c in W ==> c in dist && dist[c] == i - 1)
  }

  lemma SearchProgress(valid: set<Hex>, blocked: set<Hex>, W: set<Hex>, W2: set<Hex>)
    requires W2 <= valid - blocked && W2 != W
    ensures |valid - (blocked + W2)| < |valid - blocked|
      || (valid - (blocked + W2) == valid - blocked && |W2| < |W|)
  {
    if W2 != {} {
      var x :| x in W2;
      assert x in valid - blocked && x !in valid - (blocked + W2);
      StrictSubsetCard(valid - (blocked + W2), valid - blocked);
    } else {
      assert valid - (blocked + W2) == valid - blocked;
    }
  }

  lemma SweepKeepsInv(a: Hex, valid: set<Hex>, blocked0: set<Hex>, blocked: set<Hex>, W: set<Hex>,
                      dist: map<Hex, nat>, i: nat)
    requires SearchInv(a, valid, blocked0, blocked, W, dist, i)
    ensures var W2 := Expand(W, valid, blocked);
      SearchInv(a, valid, blocked0, blocked + W2, W2, Stamp(dist, W2, i), i + 1)
  {
    var W2 := Expand(W, valid, blocked);
    var d2 := Stamp(dist, W2, i);
    forall c | c in d2 && d2[c] == 1 ensures Adjacent(c, a) {
      if c in W2 {
        var h, k :| h in W && 0 <= k < 6 && c == Add(h, Directions[k]);
        OppositeCancels(h, k);
      }
    }
    forall c | c in d2 && d2[c] >= 2 ensures HasPred(d2, c) {
      if c in W2 {
        var h, k :| h in W && 0 <= k < 6 && c == Add(h, Directions[k]);
        OppositeCancels(h, k);
        assert Dist(d2, Add(c, Directions[Opposite(k)])) == Dist(d2, c) - 1;
      } else {
        assert HasPred(dist, c);
        var k :| 0 <= k < 6 && Dist(dist, Add(c, Directions[k])) == Dist(dist, c) - 1;
        assert Dist(d2, Add(c, Directions[k])) == Dist(d2, c) - 1;
      }
    }
  }

  // ---------------------------------------------------------------- reachability

  /** `cs` walks from `a` to `b`, one direction vector per step, entering
      only cells of `free`. */
  predicate FreeWalk(a: Hex, b: Hex, free: set<Hex>, cs: seq<Hex>) {
    |cs| >= 1 && cs[|cs| - 1] == b && Chain(a, cs) && forall j :: 0 <= j < |cs| ==> cs[j] in free
  }

  /** Some walk from `a` through `free` ends at `b`. */
  ghost predicate Reachable(a: Hex, b: Hex, free: set<Hex>) {
    exists cs :: FreeWalk(a, b, free, cs)
  }

  /** Every free neighbour of a cell of `S` outside `W` lies in `S`. */
  ghost predicate ClosedOutside(S: set<Hex>, W: set<Hex>, free: set<Hex>) {
    forall x, y :: x in S && x !in W && Adjacent(x, y) && y in free ==> y in S
  }

  lemma {:induction false} WalkStaysIn(a: Hex, S: set<Hex>, free: set<Hex>, cs: seq<Hex>, j: nat)
    requires a in S && ClosedOutside(S, {}, free)
    requires Chain(a, cs) && forall i :: 0 <= i < |cs| ==> cs[i] in free
    requires j < |cs|
    ensures cs[j] in S
  {
    if j > 0 {
      WalkStaysIn(a, S, free, cs, j - 1);
    }
    ChainAt(a, cs, j);
  }

  /** No walk leaves a set closed under free neighbours. */
  lemma ClosedUnreachable(a: Hex, b: Hex, S: set<Hex>, free: set<Hex>)
    requires a in S && b !in S && ClosedOutside(S, {}, free)
    ensures !Reachable(a, b, free)
  {
    if Reachable(a, b, free) {
      var cs :| FreeWalk(a, b, free, cs);
      WalkStaysIn(a, S, free, cs, |cs| - 1);
    }
  }

  /** What the search has explored: `a` and the stamped cells. The wavefront
      lies among them, every free neighbour of an explored cell off the
      wavefront is explored, and `b` is stamped only on the wavefront. */
  ghost predicate Explored(a: Hex, b: Hex, free: set<Hex>, W: set<Hex>, dist: map<Hex, nat>) {
    && W <= {a} + dist.Keys
    && ClosedOutside({a} + dist.Keys, W, free)
    && (b in dist ==> b in W)
  }

  lemma ExploredStep(a: Hex, b: Hex, valid: set<Hex>, blocked0: set<Hex>, blocked: set<Hex>, W: set<Hex>,
                     dist: map<Hex, nat>, i: nat)
    requires blocked == blocked0 + dist.Keys
    requires Explored(a, b, valid - blocked0, W, dist) && b !in W
    ensures var W2 := Expand(W, valid, blocked);
      Explored(a, b, valid - blocked0, W2, Stamp(dist, W2, i))
  {
    var W2 := Expand(W, valid, blocked);
    var S, S2 := {a} + dist.Keys, {a} + Stamp(dist, W2, i).Keys;
    assert S2 == S + W2;
    forall x, y | x in S2 && x !in W2 && Adjacent(x, y) && y in valid - blocked0 ensures y in S2 {
      var k :| 0 <= k < 6 && y == Add(x, Directions[k]);
      if x in W && y !in blocked {
        assert y in W2;
      }
    }
  }

  /** A sweep that reproduces the wavefront before `b` is reached shows that
      no walk from `a` through free cells reaches `b`. */
  lemma Exhausted(a: Hex, b: Hex, valid: set<Hex>, blocked0: set<Hex>, blocked: set<Hex>, W: set<Hex>,
                  dist: map<Hex, nat>)
    requires blocked == blocked0 + dist.Keys
    requires Explored(a, b, valid - blocked0, W, dist) && b !in W && a != b
    requires Expand(W, valid, blocked) == W
    ensures !Reachable(a, b, valid - blocked0)
  {
    var S := {a} + dist.Keys;
    forall x, y | x in S && x !in {} && Adjacent(x, y) && y in valid - blocked0 ensures y in S {
      var k :| 0 <= k < 6 && y == Add(x, Directions[k]);
      if x in W && y !in blocked {
        assert y in Expand(W, valid, blocked);
      }
    }
    ClosedUnreachable(a, b, S, valid - blocked0);
  }

  /** Every stamped cell is reachable from `a` through free cells. */
  lemma {:induction false} StampedReachable(a: Hex, valid: set<Hex>, blocked0: set<Hex>, d: map<Hex, nat>, c: Hex)
    returns (cs: seq<Hex>)
    requires DistInv(a, valid, blocked0, d) && c in d
    ensures FreeWalk(a, c, valid - blocked0, cs)
    decreases d[c]
  {
    if d[c] == 1 {
      AdjacentSymmetric(c, a);
      cs := [c];
    } else {
      assert HasPred(d, c);
      var k :| 0 <= k < 6 && Dist(d, Add(c, Directions[k])) == Dist(d, c) - 1;
      var n := Add(c, Directions[k]);
      var front := StampedReachable(a, valid, blocked0, d, n);
      OppositeCancels(c, k);
      assert Adjacent(n, c);
      cs := front + [c];
      forall j | 0 <= j < |cs| ensures Adjacent(if j == 0 then a else cs[j - 1], cs[j]) {
        if j < |front| {
          ChainAt(a, front, j);
        }
      }
      assert Chain(a, cs);
      assert cs[|cs| - 1] == c;
      assert forall j :: 0 <= j < |cs| ==> cs[j] in valid - blocked0;
    }
  }

  // ---------------------------------------------------------------- backtrack

  /** The `for d in dirs ... break` scan: the first direction, from `k` on,
      whose neighbour of `p` carries stamp `m`; 6 when there is none. */
  function FirstStep(p: Hex, d: map<Hex, nat>, m: nat, k: nat): (j: nat)
    requires k <= 6
    decreases 6 - k
    ensures k <= j <= 6
    ensures j < 6 ==> Dist(d, Add(p, Directions[j])) == m
    ensures forall j' :: k <= j' < j ==> Dist(d, Add(p, Directions[j'])) != m
  {
    if k == 6 then 6
    else if Dist(d, Add(p, Directions[k])) == m then k
    else FirstStep(p, d, m, k + 1)
  }

  // ---------------------------------------------------------------- hex_route

  /** A route's terminal: the layer it is on and the cell `Hex.from_xy` gives
      for its position. */
  datatype Endpoint = Endpoint(layer: string, at: Hex)

  /** The routing state of a `HexBoard`: its valid cells, the blocked cells of
      each routing layer, and the routes found so far. */
  datatype HexBoard = HexBoard(valid: set<Hex>, blocked: map<string, set<Hex>>, routes: seq<(string, seq<Hex>)>)

  /** What a route found by `hex_route` satisfies: it runs from `b` to `a`,
      each cell one direction vector from the previous, and every cell between
      the ends is valid and was unblocked on its layer. */
  predicate RouteOk(valid: set<Hex>, blocked: set<Hex>, a: Hex, b: Hex, route: seq<Hex>) {
    && |route| >= 2 && route[0] == b && route[|route| - 1] == a
    && (forall j :: 0 <= j < |route| - 1 ==> Adjacent(route[j], route[j + 1]))
    && (forall j :: 0 < j < |route| - 1 ==> route[j] in valid && route[j] !in blocked)
  }

  /** The search loop of `hex_route` (`while tuple(b) not in wavefront`),
      from `a` over the valid cells outside `blocked0`. When a sweep reaches
      nothing new the wavefront empties, and the sweep after that fails the
      "Signal failed to route" assertion. */
  method Search(a: Hex, b: Hex, valid: set<Hex>, blocked0: set<Hex>) returns (r: Result<map<Hex, nat>>)
    ensures a == b ==> r == Ok(map[])
    ensures a != b ==> (r.Ok? <==> Reachable(a, b, valid - blocked0))
    ensures r.Err? ==> r.error == "AssertionError: Signal failed to route"
    ensures r.Ok? ==> DistInv(a, valid, blocked0, r.value) && (b == a || b in r.value)
  {
    var W: set<Hex>, blocked, dist: map<Hex, nat>, i: nat := {a}, blocked0, map[], 1;
    while b !in W
      invariant SearchInv(a, valid, blocked0, blocked, W, dist, i)
      invariant Explored(a, b, valid - blocked0, W, dist)
      invariant a == b ==> i == 1
      decreases |valid - blocked|, |W|
    {
      var W2, blocked2, dist2 := ExpandPass(W, valid, blocked, dist, i);
      if W2 == W {
        Exhausted(a, b, valid, blocked0, blocked, W, dist);
        return Err("AssertionError: Signal failed to route");
      }
      SearchProgress(valid, blocked, W, W2);
      SweepKeepsInv(a, valid, blocked0, blocked, W, dist, i);
      ExploredStep(a, b, valid, blocked0, blocked, W, dist, i);
      W, blocked, dist, i := W2, blocked2, dist2, i + 1;
    }
    if a != b {
      var cs := StampedReachable(a, valid, blocked0, dist, b);
    }
    return Ok(dist);
  }

  /** The backtrack loop of `hex_route`: from `b`, step to the first
      neighbour stamped one lower until a cell stamped 1 is reached. Returns
      the cells stepped onto, in order. A goal without a stamp fails the
      `n != 0` assertion. */
  method Backtrack(a: Hex, b: Hex, valid: set<Hex>, blocked0: set<Hex>, dist: map<Hex, nat>)
    returns (r: Result<seq<Hex>>)
    requires DistInv(a, valid, blocked0, dist)
    ensures Dist(dist, b) == 0 <==> r.Err?
    ensures r.Ok? ==> |r.value| == Dist(dist, b) - 1
    ensures r.Ok? ==> forall j :: 0 <= j < |r.value| ==> r.value[j] in dist && dist[r.value[j]] == Dist(dist, b) - 1 - j
    ensures r.Ok? ==> Chain(b, r.value)
  {
    var p, back := b, [];
    while Dist(dist, p) != 1
      invariant p == if back == [] then b else back[|back| - 1]
      invariant back != [] ==> Dist(dist, p) >= 1 && Dist(dist, b) >= 1
      invariant Dist(dist, p) == Dist(dist, b) - |back|
      invariant forall j :: 0 <= j < |back| ==> back[j] in dist && dist[back[j]] == Dist(dist, b) - 1 - j
      invariant Chain(b, back)
      decreases Dist(dist, p)
    {
      var n := Dist(dist, p);
      if n == 0 {
        return Err("AssertionError");
      }
      assert HasPred(dist, p);
      var k := FirstStep(p, dist, n - 1, 0);
      var q := Add(p, Directions[k]);
      assert Adjacent(p, q);
      back := back + [q];
      p := q;
    }
    return Ok(back);
  }

  /** `HexBoard.hex_route(a, b)`. The ends must share a layer; the goal cell
      is unblocked for the search; every cell the backtrack steps onto is
      blocked on the layer for good, and the route (goal first, start last) is
      appended to `routes`. */
  method HexRoute(hb: HexBoard, a: Endpoint, b: Endpoint) returns (r: Result<HexBoard>)
    ensures a.layer != b.layer ==> r.Err?
    ensures a.layer !in hb.blocked ==> r.Err?
    ensures a.at == b.at ==> r.Err?
    ensures a.layer == b.layer && a.layer in hb.blocked && a.at != b.at ==>
      (r.Ok? <==> Reachable(a.at, b.at, hb.valid - (hb.blocked[a.layer] - {b.at})))
    ensures r.Ok? ==>
      && a.layer in hb.blocked && r.value.valid == hb.valid
      && |r.value.routes| == |hb.routes| + 1 && r.value.routes[..|hb.routes|] == hb.routes
      && r.value.routes[|hb.routes|].0 == a.layer
      && var route := r.value.routes[|hb.routes|].1;
         && RouteOk(hb.valid, hb.blocked[a.layer], a.at, b.at, route)
         && r.value.blocked == hb.blocked[a.layer := hb.blocked[a.layer] + set j | 0 < j < |route| - 1 :: route[j]]
  {
    var layer := a.layer;
    if b.layer != layer {
      return Err("AssertionError");
    }
    if layer !in hb.blocked {
      return Err("KeyError: " + layer);
    }
    var blocked0 := hb.blocked[layer] - {b.at};
    var dist :- Search(a.at, b.at, hb.valid, blocked0);
    var back :- Backtrack(a.at, b.at, hb.valid, blocked0, dist);
    var route := [b.at] + back + [a.at];
    RouteOfBacktrack(a.at, b.at, hb.valid, blocked0, hb.blocked[layer], dist, back);
    var kept := hb.blocked[layer] + set j | 0 <= j < |back| :: back[j];
    r := Ok(HexBoard(hb.valid, hb.blocked[layer := kept], hb.routes + [(layer, route)]));
  }

  lemma RouteOfBacktrack(a: Hex, b: Hex, valid: set<Hex>, blocked0: set<Hex>, blocked: set<Hex>,
                         dist: map<Hex, nat>, back: seq<Hex>)
    requires blocked0 == blocked - {b}
    requires DistInv(a, valid, blocked0, dist)
    requires Dist(dist, if back == [] then b else back[|back| - 1]) == 1
    requires back != [] ==> Dist(dist, b) >= 1
    requires forall j :: 0 <= j < |back| ==> back[j] in dist && dist[back[j]] == Dist(dist, b) - 1 - j
    requires Chain(b, back)
    ensures RouteOk(valid, blocked, a, b, [b] + back + [a])
    ensures (set j | 0 < j < |[b] + back + [a]| - 1 :: ([b] + back + [a])[j]) == set j | 0 <= j < |back| :: back[j]
  {
    var last := if back == [] then b else back[|back| - 1];
    assert last in dist;
    assert Adjacent(last, a);
    RouteSteps(a, b, back);
    RouteInterior(a, b, valid, blocked0, blocked, dist, back);
    RouteCells(a, b, back);
  }

  lemma RouteSteps(a: Hex, b: Hex, back: seq<Hex>)
    requires Adjacent(if back == [] then b else back[|back| - 1], a)
    requires Chain(b, back)
    ensures forall j :: 0 <= j < |[b] + back + [a]| - 1 ==>
      Adjacent(([b] + back + [a])[j], ([b] + back + [a])[j + 1])
  {
    var route := [b] + back + [a];
    var last := if back == [] then b else back[|back| - 1];
    forall j | 0 <= j < |route| - 1 ensures Adjacent(route[j], route[j + 1]) {
      if j == |route| - 2 {
        assert route[j] == last && route[j + 1] == a;
      } else {
        assert 0 <= j < |back| && route[j + 1] == back[j];
        assert route[j] == if j == 0 then b else back[j - 1];
        ChainAt(b, back, j);
      }
    }
  }

  lemma ChainAt(start: Hex, cs: seq<Hex>, j: nat)
    requires Chain(start, cs) && j < |cs|
    ensures Adjacent(if j == 0 then start else cs[j - 1], cs[j])
  {
  }

  lemma RouteInterior(a: Hex, b: Hex, valid: set<Hex>, blocked0: set<Hex>, blocked: set<Hex>,
                      dist: map<Hex, nat>, back: seq<Hex>)
    requires blocked0 == blocked - {b}
    requires DistInv(a, valid, blocked0, dist)
    requires back != [] ==> Dist(dist, b) >= 1
    requires forall j :: 0 <= j < |back| ==> back[j] in dist && dist[back[j]] == Dist(dist, b) - 1 - j
    ensures forall j :: 0 < j < |[b] + back + [a]| - 1 ==>
      ([b] + back + [a])[j] in valid && ([b] + back + [a])[j] !in blocked
  {
    var route := [b] + back + [a];
    forall j | 0 < j < |route| - 1 ensures route[j] in valid && route[j] !in blocked {
      assert route[j] == back[j - 1];
      assert route[j] != b;
    }
  }

  lemma RouteCells(a: Hex, b: Hex, back: seq<Hex>)
    ensures (set j | 0 < j < |[b] + back + [a]| - 1 :: ([b] + back + [a])[j]) == set j | 0 <= j < |back| :: back[j]
  {
    var route := [b] + back + [a];
    var s1 := set j | 0 < j < |route| - 1 :: route[j];
    var s2 := set j | 0 <= j < |back| :: back[j];
    forall x | x in s1 ensures x in s2 {
      var j :| 0 < j < |route| - 1 && x == route[j];
      assert x == back[j - 1];
    }
    forall x | x in s2 ensures x in s1 {
      var j :| 0 <= j < |back| && x == back[j];
      assert x == route[j + 1];
    }
  }

  // ---------------------------------------------------------------- layer_blocks

  /** `layer_blocks`: over the grid's `cells`, every cell that is not valid is
      blocked, and so is every valid cell in `found`, the result of the
      STRtree `query_nearest` on the layer's copper: the cells whose discs
      intersect it, or the nearest one when none does. The query itself is
      not modelled. */
  function LayerBlocks(cells: set<Hex>, valid: set<Hex>, found: set<Hex>): (blocked: set<Hex>)
    requires valid <= cells && found <= valid
    ensures blocked <= cells
    ensures cells - valid <= blocked
    ensures valid - blocked == valid - found
  {
    (cells - valid) + found
  }

  // ---------------------------------------------------------------- shift_array

  /** A `rows` by `cols` grid. */
  predicate Shaped(arr: seq<seq<int>>, rows: nat, cols: nat) {
    |arr| == rows && forall i :: 0 <= i < rows ==> |arr[i]| == cols
  }

  /** The source and destination slice of one axis in `shift_array`, as
      `(src_start, dst_start, length)`. */
  function Window(n: nat, shift: int): (w: (nat, nat, nat))
    requires -(n as int) <= shift <= n
    ensures w.0 + w.2 <= n && w.1 + w.2 <= n
  {
    if shift >= 0 then (0, shift, n - shift) else (-shift, 0, n + shift)
  }

  /** `shift_array(arr, sx, sy)`: a zero grid of the same shape with the
      source window of `arr` copied into the destination window. */
  function ShiftArray(arr: seq<seq<int>>, rows: nat, cols: nat, sx: int, sy: int): (out: seq<seq<int>>)
    requires Shaped(arr, rows, cols)
    requires -(rows as int) <= sx <= rows && -(cols as int) <= sy <= cols
    ensures Shaped(out, rows, cols)
    ensures forall i, j :: 0 <= i < rows && 0 <= j < cols ==>
      out[i][j] == if 0 <= i - sx < rows && 0 <= j - sy < cols then arr[i - sx][j - sy] else 0
  {
    var (xs, xd, xn) := Window(rows, sx);
    var (ys, yd, yn) := Window(cols, sy);
    seq(rows, i requires 0 <= i < rows =>
      seq(cols, j requires 0 <= j < cols =>
        if xd <= i < xd + xn && yd <= j < yd + yn then arr[i - xd + xs][j - yd + ys] else 0))
  }

  /** Shifting back undoes a shift on the cells that stayed on the grid, and
      leaves zeros where cells fell off. */
  lemma ShiftBack(arr: seq<seq<int>>, rows: nat, cols: nat, sx: int, sy: int)
    requires Shaped(arr, rows, cols)
    requires -(rows as int) <= sx <= rows && -(cols as int) <= sy <= cols
    ensures var back := ShiftArray(ShiftArray(arr, rows, cols, sx, sy), rows, cols, -sx, -sy);
      forall i, j :: 0 <= i < rows && 0 <= j < cols ==>
        back[i][j] == if 0 <= i + sx < rows && 0 <= j + sy < cols then arr[i][j] else 0
  {
    var once := ShiftArray(arr, rows, cols, sx, sy);
    var back := ShiftArray(once, rows, cols, -sx, -sy);
    forall i, j | 0 <= i < rows && 0 <= j < cols
      ensures back[i][j] == if 0 <= i + sx < rows && 0 <= j + sy < cols then arr[i][j] else 0
    {
      if 0 <= i + sx < rows && 0 <= j + sy < cols {
        assert back[i][j] == once[i + sx][j + sy];
      }
    }
  }
}
