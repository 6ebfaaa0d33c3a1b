# cuflow core in Dafny

This project models the engine of cuflow, a Python library that builds
printed-circuit-board copper by turtle-style drawing and writes the
manufacturing files. The model covers the following parts:

- **Turtle**: the drawing cursor `Draw` (cuflow.py). It has a position, a
  heading, a LIFO stack of saved `(xy, dir)` pairs and a path accumulator.
  `wire`, `via` and `pad` commit the path to the layers of a `Board`.
- **Turtle, board side**: the `Board` bookkeeping, which holds ten layers,
  the track pitch `c = trace + space` and per-family part numbering. The
  `Part` constructor up to its `place` call, and `Part.pad`, are modelled
  too.
- **Rivers**: `River`, a bundle of cursors moved as one. It covers `forward`,
  the arc turns `right`/`left` split into `int(a + 1)` sub-turns, `shimmy`,
  `wire`, and `Board.enriver`, which fans a bank of cursors into a river.
- **HexGrid**: the axial hex lattice of hex.py. It covers `s`, add/sub, the
  odd-row offset conversion, `neighbors`, `neighborhood`, `route`, `hop` and
  `rot`.
- **HexRouting**: the wavefront router `HexBoard.hex_route` of hexboard.py.
  It has a breadth-first search, then a backtrack along decreasing stamps.
  The file's `layer_blocks` and `shift_array` are modelled here too.
- **OnGrid**: `river_ongrid` (the heading check, the shimmy onto the
  lattice, and the forward step and wire of every member) and `wire_ongrid`
  (wiring the moved cursor and snapping its heading). `best_forward` is an
  input.
- **LeeRouter**: `lees_algorithm` of router.py, a two-layer cost-grid
  relaxation with vias, then a greedy backtrack.
- **GerberOut**: the Gerber RS-274X writer of gerber.py.
- **ExcellonOut**: the Excellon drill writer of excellon.py.

Supporting modules:

- `Results` holds the `Result`/`Option` types. Python exceptions and failing
  `assert`s become `Err`.
- `Text` holds decimal formatting and parsing, and the split of a text into
  `\n`-terminated lines.
- `Angles` holds Python's float `% 360`, `int()` truncation and `round()`
  (round half to even).

Positions are abstract. Going forward `d` on heading `dir` from `xy` reaches
`step(xy, dir, d)`, where `step` is a parameter standing for the
trigonometry. Headings are reals. Polygons are opaque `Shape` values that
record what produced them. A file handle is modelled as the sequence of
lines written to it; the text is their `JoinLines`, and each writer is
proved to split back into those lines.

## Notes on the code's behaviour

- `River.right`/`left` split a turn into `int(a + 1)` sub-steps, which is
  one more than `ceil(a)` for whole angles.
- `hex_route` does not reverse its route: the route runs from the goal to
  the start.
- `hex_route` fails when a sweep reproduces the previous wavefront. That
  happens one sweep after the wavefront empties.

## Model

| member | source | states |
|---|---|---|
| Angles.Mod360 | cuflow.py:79-83 | Python's float `x % 360` always lies in [0, 360). |
| Angles.Mod360Add | cuflow.py:79-83 | Normalising before adding more degrees does not change the normalised heading. |
| Angles.Mod360Shift | cuflow.py:79-83 | Whole turns of 360 degrees do not change a normalised heading. |
| Angles.Trunc | cuflow.py:154 | `int(x)` truncates toward zero, from below for positive and from above for negative arguments. |
| Angles.RoundHalfEven | gerber.py:22 | `round(x)` is within one half of `x`, and exact halves go to the even neighbour. |
| Text.NatToStringRoundTrip | cuflow.py:260 | `str(n)` of a natural number reads back as `n`. |
| Text.FormatIntRoundTrip | gerber.py:23 | A `"%0<w>d"` rendering of any integer, negative ones included, parses back to the integer, whatever text follows a non-digit. |
| Text.FormatIntInjective | excellon.py:17 | Distinct integers get distinct zero-padded renderings. |
| Text.SplitJoinLines | gerber.py:28 | Lines without a newline, each written with a trailing `\n`, split back into exactly those lines. |
| Turtle.NewBoard | cuflow.py:188-221 | A new board has exactly its ten named layers, all empty, no parts, and pitch `c = trace + space`. |
| Turtle.AddShape | cuflow.py:23-25 | `Layer.add` appends one entry to the named layer and leaves every other layer, the parts and the pitch alone. |
| Turtle.NewDraw | cuflow.py:52-58 | A new cursor is at `xy` on heading `dir`, has an empty stack and the one-point path `[xy]`. |
| Turtle.NewPath | cuflow.py:60-61 | `newpath` restarts the path at the current position and touches nothing else. |
| Turtle.Push | cuflow.py:63-64 | `push` puts the current `(xy, dir)` on top of the stack and keeps the older entries below it. |
| Turtle.Pop | cuflow.py:66-67 | `pop` fails exactly on an empty stack; otherwise it restores the top `(xy, dir)`, drops it and leaves the path alone. |
| Turtle.Copy | cuflow.py:69-70 | `copy` keeps position and heading, with an empty stack and a one-point path. |
| Turtle.Forward | cuflow.py:72-77 | `forward` moves to the stepped point and appends exactly that point to the path; heading and stack are unchanged. |
| Turtle.Left | cuflow.py:79-80 | `left(a)` sets the heading to `(dir - a) % 360`, which lies in [0, 360), and changes nothing else. |
| Turtle.Right | cuflow.py:82-83 | `right(a)` sets the heading to `(dir + a) % 360`, which lies in [0, 360), and changes nothing else. |
| Turtle.LeftThenRight | cuflow.py:79-83 | From a normalised heading, `right(a)` after `left(a)` restores the cursor, and so does the reverse order. |
| Turtle.RightRight | cuflow.py:82-83 | Two right turns make one right turn by the sum of their angles. |
| Turtle.RunKeepsStackBase | cuflow.py:63-67 | Any operation sequence that never pops below its starting depth succeeds, keeps the stack entries beneath intact and changes the depth by its push/pop balance. |
| Turtle.PushRunPop | cuflow.py:63-67 | After `push`, any balanced operations and then `pop`, the cursor is back at its exact pre-push position, heading and stack; only the path differs. |
| Turtle.LineDistance | cuflow.py:95 | The formula `approach` uses is the absolute cross product of `p2 - p1` and `p0 - p1`: never negative, and zero when `p0` is `p1` or `p2`. |
| Turtle.Approach | cuflow.py:85-95 | `approach` succeeds exactly when the headings differ by 90 or 270 degrees; it then keeps the heading and stack and moves forward by the line distance less `d`, appending one point. |
| Turtle.Rect | cuflow.py:97-112 | `rect` returns to the starting position and heading with the stack as before and leaves a five-point outline path. |
| Turtle.Square | cuflow.py:114-115 | `square` is a `rect` with equal sides, with the same guarantees. |
| Turtle.ViaLayers | cuflow.py:128 | A via pierces the four copper layers less `connect`: three layers when `connect` is copper, all four otherwise. |
| Turtle.Via | cuflow.py:126-130 | `via` adds one disc of the via diameter to exactly the pierced layers, nothing elsewhere, and restarts the path. |
| Turtle.Wire | cuflow.py:132-136 | `wire` is a no-op on a path of at most one point; otherwise it fails exactly when the layer does not exist, and it adds one stroke to that layer and restarts the path. |
| Turtle.WireTwice | cuflow.py:132-136 | A second `wire` with no movement in between changes nothing. |
| Turtle.DrawPad | cuflow.py:117-120 | `pad` adds the path outline to the top copper, solder mask and paste layers and to no other layer. |
| Turtle.Assign | cuflow.py:257-260 | `assign` counts one more part in the family and names it the family followed by the new 1-based count. |
| Turtle.AssignDistinct | cuflow.py:257-260 | Two assignments in one family made at different counts yield different ids. |
| Turtle.NewPart | cuflow.py:262-266 | A new part takes the id `assign` hands out, keeps its value and starts with no pads; the subclass's `place` is not modelled. |
| Turtle.PartPad | cuflow.py:298-300 | `Part.pad` draws the pad and records a copy of the cursor as the part's next pad. |
| Rivers.NewRiver | cuflow.py:139-142 | A river keeps its members in order and takes the board's pitch. |
| Rivers.RiverForward | cuflow.py:147-148 | `forward(d)` steps every member `d` along its own heading and appends the new point to its path; headings, stacks and the pitch are kept. |
| Rivers.SubStepsPositive | cuflow.py:154 | `int(a + 1)` gives at least one sub-step exactly when `a` is not negative. |
| Rivers.ArcFacts | cuflow.py:154-157 | `n` sub-turns of `a` turn the heading by their sum, keep the stack and append exactly `n` points to the path. |
| Rivers.ArcStill | cuflow.py:150-157 | Sub-steps of length zero leave the position where it was. |
| Rivers.MemberTurnFacts | cuflow.py:150-157 | A member's share of a turn by a non-negative angle turns it by exactly that angle in `int(a + 1)` steps; a negative angle leaves it unchanged. |
| Rivers.RiverRightTurns | cuflow.py:150-157 | `River.right(a)` with `a >= 0` turns every member by `a` and adds `int(a + 1)` points to each path; a negative angle changes no member; stacks are kept. |
| Rivers.RiverLeftTurns | cuflow.py:159-166 | `River.left(a)` with `a >= 0` turns every member by `-a` and adds `int(a + 1)` points to each path; a negative angle changes no member; stacks are kept. |
| Rivers.RiverPivots | cuflow.py:150-166 | Member 0 pivots in place on a right turn (arc radius `c * 0`), and the last member pivots in place on a left turn, the members being enumerated in reverse. |
| Rivers.MemberTurnBack | cuflow.py:150-166 | Turning a member one way and then back by the same angle restores its heading, whatever the two arc radii. |
| Rivers.RiverTurnBack | cuflow.py:150-166 | `right(a)` then `left(a)`, and `left(a)` then `right(a)`, give every member its heading back. |
| Rivers.ShimmyPlan | cuflow.py:168-175 | `shimmy` takes the 90 degree branch with a straight run of `abs(d) - r` exactly when `abs(d) > r`; it fails only on the division by zero at `d = r = 0`. |
| Rivers.Shimmy | cuflow.py:168-183 | `shimmy` fails exactly when `d` and the river radius are both zero and otherwise keeps the member count and pitch. |
| Rivers.ShimmyKeepsHeadings | cuflow.py:168-183 | A successful `shimmy` leaves every member's heading as it was. |
| Rivers.WireAll | cuflow.py:185-186 | `River.wire` strokes every member with a path of more than one point onto the top copper layer, in member order, and restarts those paths. |
| Rivers.RiverWire | cuflow.py:185-186 | `River.wire` adds one top-copper stroke per member whose path has two or more points, in member order, restarts exactly those paths at the member's position, and leaves the other layers, the parts and the pitch alone. |
| Rivers.Bank | cuflow.py:240-243 | The working bank is the input bank reversed for positive angles and as given otherwise. |
| Rivers.BankTwice | cuflow.py:240-243 | Reordering the bank twice with the same angle gives back the caller's bank. |
| Rivers.FanAll | cuflow.py:245-249 | Every later bank member ends turned by `a` with its path extended. |
| Rivers.FanOut | cuflow.py:244-249 | The fan-out turns every bank member by `a` and never shortens a path. |
| Rivers.FinishAll | cuflow.py:250-254 | Approaching the finish line keeps the headings and adds one stroke per member; it succeeds when every member is perpendicular to the line. |
| Rivers.Enriver | cuflow.py:239-255 | `enriver` fails on an empty bank; on success the river holds the members in the caller's original order, each turned by `a`, one stroke each, with the board's pitch. |
| Rivers.EnriverOrder | cuflow.py:239-255 | Reversing the bank for positive angles and reversing back returns every member to its original index, so member k of the river is the k-th cursor turned by `a`. |
| Rivers.EnriverAt45 | cuflow.py:239-255 | A bank of equally headed cursors always enrivers at 45 or -45 degrees: every `approach` precondition is met. |
| HexGrid.Hex.S | hex.py:27-29 | The derived coordinate satisfies `q + r + s == 0`. |
| HexGrid.Add | hex.py:53-54 | Addition adds the derived `s` coordinates as well. |
| HexGrid.Sub | hex.py:56-57 | Subtraction subtracts the derived `s` coordinates as well. |
| HexGrid.AddSub | hex.py:53-57 | `(a + b) - b == a` and `(a - b) + b == a`. |
| HexGrid.Seg | hex.py:112-116 | `seg` is the hex distance of the difference, zero exactly for equal cells. |
| HexGrid.GridRoundTrip | hex.py:31-34 | The offset coordinates of `to_grid` and the integer part of `from_xy` (hex.py lines 66-67) are mutually inverse, Python's `&1` being Euclidean `% 2`. |
| HexGrid.Neighbors | hex.py:41-44 | `neighbors` yields seven cells: the cell itself, then the cell plus each direction vector in list order. |
| HexGrid.UnitOffsets | hex.py:7-10 | The six direction vectors are exactly the offsets at hex distance 1. |
| HexGrid.NeighborsDistinct | hex.py:41-44 | The seven cells `neighbors` yields are pairwise distinct. |
| HexGrid.NeighborsAdjacent | hex.py:41-44 | A cell is among the last six neighbours exactly when it lies at distance 1. |
| HexGrid.NeighborhoodMembers | hex.py:46-51 | `neighborhood(R)` yields each cell once, and exactly the cells whose offset has q, r and s all in [-R, R). |
| HexGrid.Route | hex.py:87-88 | `route` returns the two-cell list from the cell to the goal. |
| HexGrid.HopCandidates | hex.py:104-111 | The four candidate paths each run from the cell through one middle cell to the target. |
| HexGrid.Ranked | hex.py:117-120 | The chosen candidate has the least summed segment length, and every later candidate is strictly longer, because the dict keeps the last path per length. |
| HexGrid.Hop | hex.py:104-120 | `hop` returns one of the four candidates, of minimal length among them, ties going to the later one. |
| HexGrid.RotNorm | hex.py:122-135 | Rotation preserves the hex distance from the origin. |
| HexGrid.RotFacts | hex.py:122-135 | `rot(a)` depends only on `a mod 6`; `rot(0)` is the identity, `rot(3)` negates, and `rot(1)` twice is `rot(2)`. |
| HexGrid.RotCompose | hex.py:122-135 | Rotating by `a` and then by `b` is rotating by `a + b`. |
| HexGrid.RotAdd | hex.py:122-135 | Rotation distributes over addition. |
| HexRouting.Expand | hexboard.py:110-118 | A sweep only reaches valid cells that are not blocked. |
| HexRouting.Stamp | hexboard.py:117-118 | Every newly reached cell gets the current iteration number, and every other stamp is kept. |
| HexRouting.ExpandPass | hexboard.py:110-118 | The imperative sweep computes exactly the wavefront of the next iteration, blocks it and stamps it. |
| HexRouting.ExpandCell | hexboard.py:112-118 | Expanding one cell adds exactly its valid, unblocked neighbours to the new wavefront. |
| HexRouting.SearchProgress | hexboard.py:119 | A sweep that changes the wavefront either blocks a new cell or shrinks the wavefront, so the search ends. |
| HexRouting.SweepKeepsInv | hexboard.py:108-123 | After each sweep, every stamped cell is valid and was not blocked, stamp 1 cells touch the start, every higher stamp has a neighbour one lower, and the wavefront holds the latest stamp. |
| HexRouting.ExploredStep | hexboard.py:108-123 | Each sweep keeps the explored cells closed: every free neighbour of an explored cell off the new wavefront is explored, and the goal is stamped only on the wavefront. |
| HexRouting.Exhausted | hexboard.py:119-123 | When a sweep reproduces the wavefront before the goal is reached, no walk through free cells leads from the start to the goal. |
| HexRouting.ClosedUnreachable | hexboard.py:119-123 | A set holding the start and closed under free neighbours holds every cell a walk from the start reaches. |
| HexRouting.StampedReachable | hexboard.py:108-123 | Every stamped cell is the end of a walk from the start through valid, unblocked cells. |
| HexRouting.Search | hexboard.py:100-123 | For distinct ends, the search fails with "Signal failed to route" exactly when no walk from the start through valid, unblocked cells reaches the goal; on success the stamps reach the goal and keep the breadth-first invariant. |
| HexRouting.FirstStep | hexboard.py:130-135 | The backtrack takes the first direction, in list order, whose neighbour carries the wanted stamp. |
| HexRouting.Backtrack | hexboard.py:125-135 | The backtrack fails exactly when the goal has no stamp; otherwise it walks adjacent cells whose stamps fall by one per step down to 1. |
| HexRouting.RouteOfBacktrack | hexboard.py:125-137 | The finished route runs from goal to start through adjacent cells, its interior cells valid and unblocked, and the interior is exactly the backtracked cells. |
| HexRouting.HexRoute | hexboard.py:94-137 | `hex_route` fails on endpoints on different layers or in the same cell; for distinct ends on one layer it succeeds exactly when the goal is reachable through valid cells unblocked on that layer; on success it appends one `(layer, route)` entry and newly blocks exactly the route's interior. |
| HexRouting.LayerBlocks | hexboard.py:82-92 | Every invalid cell is blocked, and a valid cell is blocked exactly when the nearest-geometry query returns it: the cells meeting the layer's copper, or the nearest one when none does. |
| HexRouting.Window | hexboard.py:44-64 | The source and destination slices of one axis lie within the axis. |
| HexRouting.ShiftArray | hexboard.py:40-69 | The shifted grid has the same shape, with `out[i][j] = arr[i - sx][j - sy]` where that cell exists and 0 elsewhere. |
| HexRouting.ShiftBack | hexboard.py:40-69 | Shifting back by the opposite amounts restores every cell that stayed on the grid and zeroes the rest. |
| OnGrid.ForwardAll | hexboard.py:185-188 | The closing loop succeeds exactly when `best_forward` finds a neighbour ahead of every member with `dx < 0.010`. Its only failures are the empty `min` and that assertion, and it comes to forwarding every member by its own `dy` and then wiring them all. |
| OnGrid.ForwardAllFacts | hexboard.py:185-188 | After the loop every member has moved forward by its own `dy` on its own heading, keeps heading and stack, and holds a fresh one-point path. |
| OnGrid.SeatRiver | hexboard.py:185-189 | The closing loop on a shimmied river keeps the pitch, the member count and the headings, and leaves every member on its new point. The board stays valid, only the top copper grows, and its old shapes stay in front. |
| OnGrid.RiverOnGrid | hexboard.py:178-189 | An empty river is an index error, and a first heading off the six lattice headings fails the assertion at hexboard.py:180. When no neighbour lies ahead of the first member, `min` raises. On success the river passed that assertion and keeps its pitch and member count. A river with normalised headings keeps every heading through the shimmy and the forward step. Every member ends on a one-point path, and the board only gains top-copper strokes. |
| OnGrid.SnapOnGrid | hexboard.py:199 | The snap of a heading in [0, 360) is a lattice heading at most 30 degrees away. |
| OnGrid.SnapFixesGrid | hexboard.py:199 | The snap leaves a lattice heading unchanged. |
| OnGrid.WireOnGrid | hexboard.py:191-199 | From the cursor `goyx` has moved, `wire_ongrid` strokes a path of two or more points onto the top copper and starts a new path at the cursor. It then sets the heading to `30 + 60 * round((dir - 30) / 60)`, which for a normalised heading is a lattice heading at most 30 degrees away. Other layers are untouched. |
| OnGrid.WireThenRiverOnGrid | hexboard.py:178-199 | A river whose first member went through `wire_ongrid` passes the heading assertion at hexboard.py:180. |
| LeeRouter.Initial | router.py:12-13 | The initial cost grid holds 1 at the start cell and `EMPTY = 0xffff` everywhere else. |
| LeeRouter.BestIsCheapestOffer | router.py:15-50 | A cell's candidate cost is at most every finite neighbour's cost plus its move cost, and is either `EMPTY` or attained by some neighbour. |
| LeeRouter.OrEmpty | router.py:54 | OR-ing with `0xffff` sets the low sixteen bits and keeps the rest. |
| LeeRouter.NewCost | router.py:38-54 | A cell's new cost never exceeds its old one; an occupied cell keeps a cost up to `EMPTY`, and a free cell takes the lesser of its old cost and its candidate. |
| LeeRouter.Sweep | router.py:40-54 | One relaxation step never raises a cost, keeps every occupied cell's cost up to `EMPTY`, and gives every free cell the lesser of its cost and its candidate. |
| LeeRouter.MarkVias | router.py:45-52 | The via mask only grows, and a cell is newly flagged exactly when it is unfilled and the other layer's finite offer is no dearer than every same-layer offer. |
| LeeRouter.SweepShrinks | router.py:54 | A relaxation step that changes the grid strictly lowers its total cost, so the loop cannot cycle. |
| LeeRouter.SweepKeeps | router.py:38-54 | Relaxation keeps the start at cost 1, every cost bounded and supported by a cheaper neighbour, and occupied cells unchanged. |
| LeeRouter.FixpointSettled | router.py:38-54 | In a grid no step changes, no free cell's candidate is cheaper than its cost. |
| LeeRouter.RouteOn | router.py:15-50 | A priced move into a free cell extends a route and adds that move's cost. |
| LeeRouter.SettledBound | router.py:15-54 | In such a grid, with the start at 1, every cell a route reaches costs no more than the route. |
| LeeRouter.FixpointUnreached | router.py:38-54 | A step that changes nothing while the end is still `EMPTY` proves no route reaches the end below `EMPTY`, so the loop would never end. |
| LeeRouter.GroundedRoute | router.py:38-54 | Following supporting neighbours back from a finite cell gives a route from the start that costs no more than the cell. |
| LeeRouter.RelaxFrom | router.py:38-54 | Repeating the pass until the end is finite never raises a cost and ends with a finite end cost, or answers `Unreached` at the first pass that changes nothing. |
| LeeRouter.Relax | router.py:38-56 | Relaxation succeeds exactly when some route from the start through unoccupied cells reaches the end for a total below `EMPTY`; then the end's cost is finite, the start costs 1, every finite cost traces back to the start, and occupied cells other than the start stay `EMPTY`. The loop computes exactly `RelaxFrom` from the initial grid. |
| LeeRouter.BelowOrder | router.py:71-73 | Python's comparison of `((cost, pref), cell)` options is a strict total order. |
| LeeRouter.Lowest | router.py:73 | `min(options)` is an option no other option is below. |
| LeeRouter.Conn4 | router.py:67-68 | The in-bounds `conn4` cells are exactly the cell itself and its in-bounds neighbours along the two axes of its layer. |
| LeeRouter.Choices | router.py:67-71 | The options are every in-bounds `conn4` cell with preference 0 and, only where the via flag is set, the other layer with preference `COST_VIA`, each paired with its cost. |
| LeeRouter.StepAhead | router.py:71-74 | The chosen option is the current cell or a cell ahead of it in the option order. |
| LeeRouter.Next | router.py:66-74 | The backtrack moves to an in-bounds neighbour on the same layer or to the other layer at the same place. |
| LeeRouter.ClimbFacts | router.py:66-76 | Along the walked path costs never rise and no cell repeats. |
| LeeRouter.WalksAgree | router.py:61-76 | The backtrack is deterministic: two walks from the end agree wherever both are defined. |
| LeeRouter.ReachedNoStall | router.py:61-76 | A walk that climbs to the start rules out any stall on the way. |
| LeeRouter.WalkBack | router.py:61-77 | The backtrack loop ends at the start with a consistent trail, and reports divergence exactly when the greedy walk from the end gets stuck on a cell before it meets the start. |
| LeeRouter.Backtrack | router.py:61-77 | The backtrack fails exactly when the greedy walk stalls on a cell before the start. Otherwise the path starts at the end, stops at the first visit to the start, takes the greedy choice at every step, never repeats a cell, and `used` is 1 exactly on the path. |
| LeeRouter.LeesAlgorithm | router.py:11-77 | An out-of-grid endpoint is an index error. Otherwise the relaxation fails exactly when no route reaches the end below `EMPTY`, and it answers `Diverges` exactly when the relaxation succeeds and the greedy walk over the relaxed grid stalls before the start. On success the path runs from end to start through neighbouring cells or vias, never through an occupied cell other than the start, and `used` marks exactly its cells. |
| GerberOut.PreambleRoundTrip | gerber.py:1-19 | The preamble text splits into its twelve lines, and the description reads back from the `%IN...*%` line. |
| GerberOut.DescriptionOf | gerber.py:7 | The `%IN...*%` line carries the description verbatim. |
| GerberOut.Scale | gerber.py:22 | A coordinate becomes `round(n * 10000)`, within half a unit of the exact value. |
| GerberOut.Number | gerber.py:21-23 | `number` renders at least seven characters that parse back to the scaled coordinate. |
| GerberOut.PointLineRoundTrip | gerber.py:28 | A point line reads back as the two scaled coordinates and the draw code. |
| GerberOut.PointsRoundTrip | gerber.py:25-29 | `points` writes one line per point, in order, the first with `D02` and every later one with `D01`. |
| GerberOut.RectClosed | gerber.py:31-33 | `rect` selects aperture 10 and traces the four corners in order, ending where it started. |
| GerberOut.LineStringRoundTrip | gerber.py:35-37 | `linestring` selects aperture 10 and then writes the points in order. |
| GerberOut.PolyRoundTrip | gerber.py:39-43 | `poly` writes the point lines between `G36*` and `G37*`, then a blank line. |
| GerberOut.Finish | gerber.py:45-46 | `finish` writes the text `M02*` and a newline, which splits back into that one line. |
| ExcellonOut.Least | excellon.py:13 | The least diameter of a non-empty set is in it and no larger than any other. |
| ExcellonOut.Sorted | excellon.py:13 | `sorted` of a set lists each member exactly once, in strictly ascending order. |
| ExcellonOut.Tools | excellon.py:13 | The tools are exactly the distinct hole diameters, in strictly ascending order. |
| ExcellonOut.Milli | excellon.py:14 | `"%.3f"` keeps the diameter to within half a thousandth. |
| ExcellonOut.Unsigned3RoundTrip | excellon.py:14 | A non-negative `"%.3f"` rendering reads back as its thousandths. |
| ExcellonOut.Fixed3RoundTrip | excellon.py:14 | A `"%.3f"` rendering of any diameter, negative ones included, reads back as its thousandths. |
| ExcellonOut.DeclRoundTrip | excellon.py:14 | A declaration line reads back as tool number `i + 2` and the diameter. |
| ExcellonOut.DeclsRoundTrip | excellon.py:13-14 | There is one declaration per distinct diameter, the `i`-th declaring `T(i+2)` with the `i`-th smallest diameter. |
| ExcellonOut.Scale | excellon.py:16 | A hit coordinate becomes `round(n * 1000)`, within half a unit of the exact value. |
| ExcellonOut.HitRoundTrip | excellon.py:15-20 | A hit line reads back as the two scaled coordinates and nothing more. |
| ExcellonOut.HitsCount | excellon.py:18-21 | The hits section has one tool line per tool plus one line per hole. |
| ExcellonOut.ToolLineAt | excellon.py:18-21 | Tool `j`'s block opens with its `T(j+2)` selection line. |
| ExcellonOut.HitLineAt | excellon.py:18-21 | The `k`-th centre of tool `j` is written right after that tool's line and its earlier centres. |
| ExcellonOut.AssembleLayout | excellon.py:1-10 | The preamble puts the four header lines first, the declarations before `%`, `G90` and `M71`, and the hits before the closing `M30`. |
| ExcellonOut.ProgramHead | excellon.py:1-22 | The drill file opens with its header, one declaration per diameter, then `%`, `G90` and `M71`. |
| ExcellonOut.ProgramTail | excellon.py:1-22 | The drill file ends with the hits section and then `M30`. |
| ExcellonOut.ProgramLength | excellon.py:12-22 | The drill file has eight fixed lines, two lines per tool and one line per hole. |
| ExcellonOut.ExcellonRoundTrip | excellon.py:12-22 | The text written splits back into exactly the drill program's lines. |

## Left out

- Shapely geometry is not modelled. This covers `Layer.add`'s `buffer(0)`, `Layer.save` and its `renderpoly`, and the polygons of `pad`, `silko`, `via` and `wire`. These are foreign library calls: each becomes one opaque `Shape` appended to the named layers.
- Trigonometry is not modelled. `forward`'s sin/cos is the `step` parameter, and `shimmy`'s `acos` is a parameter too. `Hex.to_plane`, the float rounding in `from_xy`, `best_forward` and `seek` are left out. `best_forward` enters `river_ongrid` as a parameter returning the chosen offset, or nothing when no neighbour lies ahead.
- OnGrid.WireOnGrid: `goyx(dx, dy)` is not part of this model and its `best_forward` offset is geometry, so the cursor after that move is an input. The contract covers the wire and the snap that follow.
- OnGrid.RiverOnGrid: the shimmy and each member's `forward(dy).wire()` are modelled with `best_forward` as an input. The `dx < 0.010` failure is stated only inside `ForwardAll`, over the shimmied members. Which offsets `best_forward` picks is geometry and is not stated.
- Floats are modelled as exact reals. `Angles.RoundHalfEven` rounds the exact value, while Python rounds the binary float. `"%.3f"` is modelled the same way.
- Turtle.NewPart: `Part.__init__` ends with `self.place(dc)`, which each footprint subclass defines to draw its pads. The subclasses are not part of this model, so the model's new part has no pads.
- Turtle.Rect: states the five-point path and the restored position, but not where the outline's corners lie, because that needs the trigonometry.
- Rivers.Enriver: proves success only for angles of 45 and -45 on a bank with equal headings. With equal headings and two or more members, the fan-out's `approach` needs the headings `dir - a` and `dir + a` to differ by 90 or 270 degrees, which holds exactly when `a` is 45 modulo 90 (so 135 and -135 also pass). A single member passes for every `a`. The model follows the same assertions but proves success only at 45 and -45.
- A negative turn angle gives `int(a + 1) <= 0` sub-steps, so the source turns nothing. The model reproduces this as written.
- HexGrid.NeighborhoodMembers: states the box `[-R, R)` as the code builds it with `range(-R, R)`. The box is asymmetric and leaves out offsets with a coordinate equal to `R`.
- HexRouting.Search: proves that it fails exactly when the goal is unreachable, but does not state that the stamps are shortest walk lengths.
- HexGrid: `Hex.__eq__`/`__hash__` are datatype equality on `(q, r)`.
- numpy storage is not modelled. This covers `uint8` distances wrapping above 255 in `hex_route` and negative indices wrapping around. Routes are modelled with unbounded stamps on sets of cells. The `ByteGrid` computation of valid cells is an input.
- HexRouting.LayerBlocks: the cells `query_nearest` returns (those meeting the layer's copper, or the nearest one when none does) are an input set, because the STRtree query is shapely geometry.
- HexRouting.ShiftArray: requires both shifts to be at most the grid size. For larger shifts numpy's slice clamping differs, and that case is not modelled.
- LeeRouter.Relax: the source loops forever when the end is unreachable. The model returns `Unreached` when a step leaves the grid unchanged, since every later step would leave it unchanged too.
- LeeRouter.WalkBack: the source's backtrack can stay on one cell forever, because the current cell is one of its own options. The model returns `Diverges` when the chosen cell is the current one.
- LeeRouter: the cost grid is `uint16` only before the first step. After that, `np.minimum` with the `int64` keepout makes it `int64`, so unbounded naturals are exact. Grid cells are natural indices, so negative numpy indices are not modelled.
- LeeRouter: the grid has numpy shape `(2, w, h)`, two layers, as the `s ^ 1` layer switch requires.
- The prints, `save_wires`, `random_100` and the module-level `simple_5x5()` call are not modelled; they are output and a demonstration.
- `Board.save`, `Board.annotate`, `Board.DC`, `Part.label`, `Part.chamfered` and `Draw.silko` are not modelled. They are file output or silkscreen text and outlines through shapely and the Hershey font.
- `hex_render` and `wire_routes` are not modelled. They are PIL rendering and shapely wiring.
- The file handle of the two writers is the list of lines written. `GerberOut.Finish` writes the single line `M02*`.
