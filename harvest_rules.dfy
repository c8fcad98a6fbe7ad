/**
 * The rules behind the harvesting villagers of src/villager/villager.py, as
 * functions of their state: the base villager's tick, adjacency tests, the
 * axis-priority walk towards a target, the walk home to drop resources,
 * capacity-clamped gathering, the harvest timer and the spawn search.
 */
module HarvestRules {
  import opened Geometry
  import opened World
  import opened Movement
  import opened Economy
  import Objects

  /** `max_wood_capacity` and `max_food_capacity`. */
  const Capacity := 10
  /** Milliseconds between two harvests. */
  const HarvestInterval := 1000
  /** Score per unit of wood dropped; food scores 1 per unit. */
  const WoodScore: real := 1.2

  /** How a gather as written ends: with an exception, or returning whether it found a node. */
  datatype Outcome = Raised | Returned(found: bool)

  /** The state of the base villager class that the harvesters extend. */
  datatype Body = Body(
    rect: Rect,
    prevRect: Rect,
    direction: Vec,
    facing: Facing,
    lastFacing: Facing,
    health: int,
    speed: int,
    isMoving: bool,
    aiMode: bool,
    agentControlled: bool)

  predicate Valid(b: Body) {
    AxisUnitOrZero(b.direction) && b.speed >= 0
  }

  /** A new villager of `size` pixels centred on (cx, cy), standing still and facing down. */
  function InitialBody(cx: int, cy: int, size: nat): (b: Body)
    ensures Valid(b) && b.health == 100 && b.speed == 2 && b.direction == Zero
    ensures b.rect.CenterX() == cx && b.rect.CenterY() == cy && b.prevRect == b.rect
  {
    var r := RectAround(cx, cy, size, size);
    Body(r, r, Zero, Down, Down, 100, 2, false, true, false)
  }

  /**
   * The base `update`: snapshot, step, clamp into the world. Unlike the
   * wandering villager, it sets no reverse flag.
   */
  function BaseTick(b: Body, width: nat, height: nat): (r: Body)
    requires Valid(b)
    ensures Valid(r) && r.prevRect == b.rect && r.isMoving == (b.direction != Zero)
    ensures b.rect.w <= width && b.rect.h <= height ==> Inside(r.rect, width, height)
    ensures !OutOfBounds(Step(b.rect, b.direction, b.speed), width, height) ==>
      r.rect == Step(b.rect, b.direction, b.speed)
    ensures r == b.(prevRect := b.rect, isMoving := r.isMoving, rect := r.rect)
  {
    b.(prevRect := b.rect, isMoving := b.direction != Zero,
       rect := Bounded(Step(b.rect, b.direction, b.speed), width, height).0)
  }

  /** The non-animation part of a harvester's `update` after the base one. */
  function Settled(b: Body, busy: bool): Body {
    if busy then b.(direction := Zero, facing := b.lastFacing)
    else if b.isMoving then b.(lastFacing := b.facing)
    else b
  }

  /** A harvester's tick: the base tick, then a busy harvester stops and faces its last way. */
  function HarvesterTick(b: Body, busy: bool, width: nat, height: nat): (r: Body)
    requires Valid(b)
    ensures Valid(r) && r.prevRect == b.rect && r.health == b.health
    ensures b.rect.w <= width && b.rect.h <= height ==> Inside(r.rect, width, height)
    ensures busy ==> r.direction == Zero && r.facing == r.lastFacing && r.lastFacing == b.lastFacing
    ensures !busy ==> r.direction == b.direction && r.facing == b.facing
    ensures !busy && b.direction != Zero ==> r.lastFacing == b.facing
  {
    Settled(BaseTick(b, width, height), busy)
  }

  /** The villager's grid cell: its centre divided by the tile size. */
  function CellOfBody(b: Body, tileSize: int): Cell
    requires tileSize > 0
  {
    CellOf(b.rect, tileSize)
  }

  /** `c` is one of the up, down, left, right neighbours of `v` that the code lists. */
  predicate Adjacent(v: Cell, c: Cell) {
    Neighbour(v, Up) == c || Neighbour(v, Down) == c || Neighbour(v, Left) == c || Neighbour(v, Right) == c
  }

  /** The listed neighbours are exactly the cells one step away. */
  lemma {:induction false} AdjacentIffDistanceOne(v: Cell, c: Cell)
    ensures Adjacent(v, c) <==> Manhattan(v, c) == 1
  {
    NeighboursAtDistanceOne(v, c);
    if Manhattan(v, c) == 1 {
      var f :| Neighbour(v, f) == c;
      match f { case Up => case Down => case Left => case Right => }
    }
  }

  /** `is_at_home`: the home cell is one of the four listed neighbours. */
  predicate IsAtHome(c: Cell, home: Option<Cell>) {
    home.Some? && Adjacent(c, home.value)
  }

  /** At home means exactly one step from the home cell; standing on it does not count. */
  lemma {:induction false} IsAtHomeIffDistanceOne(c: Cell, home: Option<Cell>)
    ensures IsAtHome(c, home) <==> home.Some? && Manhattan(c, home.value) == 1
  {
    if home.Some? {
      AdjacentIffDistanceOne(c, home.value);
    }
  }

  /**
   * `can_chop_tree` / `can_drop_wood`: some neighbour of `c` on the map carries
   * `tile`; never on an empty map.
   */
  function CanReach(m: WorldMap, c: Cell, tile: Label): (r: bool)
    requires Rectangular(m)
    ensures r <==> exists f :: HasLabel(m, Neighbour(c, f), tile)
    ensures |m| == 0 ==> !r
  {
    FirstNeighbourLabelled(m, c, tile).Some?
  }

  /**
   * `get_tree_direction` / `get_berry_bush_direction`: the first of up, down,
   * left, right towards a neighbour carrying `tile`, else the fallback.
   */
  function NodeDirection(m: WorldMap, c: Cell, tile: Label, fallback: Facing): (f: Facing)
    requires Rectangular(m)
    ensures HasLabel(m, Neighbour(c, f), tile) ==> forall g :: Rank(g) < Rank(f) ==> !HasLabel(m, Neighbour(c, g), tile)
    ensures !HasLabel(m, Neighbour(c, f), tile) ==> f == fallback && forall g :: !HasLabel(m, Neighbour(c, g), tile)
  {
    match FirstNeighbourLabelled(m, c, tile)
    case Some(f) => f
    case None => fallback
  }

  /** A tree can be chopped exactly when the direction search finds one instead of falling back. */
  lemma CanReachIffDirectionFound(m: WorldMap, c: Cell, tile: Label, fallback: Facing)
    requires Rectangular(m)
    ensures CanReach(m, c, tile) <==> HasLabel(m, Neighbour(c, NodeDirection(m, c, tile, fallback)), tile)
  {
  }

  /**
   * `is_at_tree` and `is_at_berry_bush`: the two centres are at most one tile
   * apart on each axis; False for a missing target.
   */
  predicate IsAtTarget(v: Rect, target: Option<Rect>, tileSize: int) {
    target.Some? &&
    Abs(v.CenterX() - target.value.CenterX()) <= tileSize &&
    Abs(v.CenterY() - target.value.CenterY()) <= tileSize
  }

  /**
   * `is_at_tree` is False without a target and True at the target's own centre,
   * does not depend on which of the two is the villager, and holds only when the
   * two centres lie in the same or neighbouring cells on both axes.
   */
  lemma IsAtTargetNearby(v: Rect, t: Rect, tileSize: int)
    requires tileSize > 0
    ensures !IsAtTarget(v, None, tileSize) && IsAtTarget(t, Some(t), tileSize)
    ensures IsAtTarget(v, Some(t), tileSize) <==> IsAtTarget(t, Some(v), tileSize)
    ensures IsAtTarget(v, Some(t), tileSize) ==>
      Abs(CellOf(v, tileSize).row - CellOf(t, tileSize).row) <= 1 &&
      Abs(CellOf(v, tileSize).col - CellOf(t, tileSize).col) <= 1
  {
    if IsAtTarget(v, Some(t), tileSize) {
      DivClose(v.CenterX(), t.CenterX(), tileSize);
      DivClose(v.CenterY(), t.CenterY(), tileSize);
    }
  }

  function Sign(n: int): int {
    if n > 0 then 1 else if n < 0 then -1 else 0
  }

  /**
   * The axis-priority step: along x when |dx| > |dy|, along y otherwise, with the
   * sign of the delta; zero exactly when there is nothing left to close.
   */
  function StepToward(dx: int, dy: int): (d: Vec)
    ensures AxisUnitOrZero(d)
    ensures d == Zero <==> dx == 0 && dy == 0
    ensures Abs(dx) > Abs(dy) ==> d == Vec(Sign(dx), 0)
    ensures Abs(dx) <= Abs(dy) ==> d == Vec(0, Sign(dy))
    ensures d != Zero ==> Abs(dx - d.x) + Abs(dy - d.y) + 1 == Abs(dx) + Abs(dy)
  {
    if Abs(dx) > Abs(dy) then Vec(Sign(dx), 0) else Vec(0, Sign(dy))
  }

  /**
   * `walk_to_tree` / `walk_to_berry_bush`: one step of direction towards the
   * target's centre. Taking over the unit switches off its AI. The flag reports
   * whether a direction was set.
   */
  function WalkToward(b: Body, target: Option<Rect>): (r: (Body, bool))
    ensures target.None? ==> r == (b, false)
    ensures target.Some? ==>
      var d := StepToward(target.value.CenterX() - b.rect.CenterX(), target.value.CenterY() - b.rect.CenterY());
      (r.1 <==> d != Zero) &&
      (r.1 ==> r.0 == b.(direction := d, facing := FacingOf(d), aiMode := false, agentControlled := true)) &&
      (!r.1 ==> r.0 == b)
  {
    if target.None? then (b, false)
    else
      var d := StepToward(target.value.CenterX() - b.rect.CenterX(), target.value.CenterY() - b.rect.CenterY());
      if d != Zero then (b.(direction := d, facing := FacingOf(d), aiMode := false, agentControlled := true), true)
      else (b, false)
  }

  /** A walk that finds nothing to do leaves the villager at its target, for any positive tile size. */
  lemma WalkTowardStopsOnlyAtTarget(b: Body, target: Rect, tileSize: nat)
    requires tileSize > 0
    ensures !WalkToward(b, Some(target)).1 ==> IsAtTarget(b.rect, Some(target), tileSize)
    ensures !WalkToward(b, Some(target)).1 <==> b.rect.CenterX() == target.CenterX() && b.rect.CenterY() == target.CenterY()
  {
  }

  /** A cell the walk home may target or step on: on the map and not a tree. */
  predicate Free(m: WorldMap, c: Cell)
    requires Rectangular(m)
  {
    InMap(m, c) && m[c.row][c.col] != "tree"
  }

  /** The neighbours of home in the order the code considers them. */
  function HomeNeighbours(home: Cell): seq<Cell> {
    [Neighbour(home, Up), Neighbour(home, Down), Neighbour(home, Left), Neighbour(home, Right)]
  }

  /**
   * The scan for the best target: a free candidate replaces the best so far only
   * when it is strictly closer to `v`.
   */
  function BestTarget(m: WorldMap, v: Cell, cands: seq<Cell>, best: Option<Cell>): Option<Cell>
    requires Rectangular(m)
    decreases |cands|
  {
    if cands == [] then best else BestTarget(m, v, cands[1..], ScanStep(m, v, cands[0], best))
  }

  /** One candidate of the scan: it becomes the best when free and strictly closer. */
  function ScanStep(m: WorldMap, v: Cell, c: Cell, best: Option<Cell>): Option<Cell>
    requires Rectangular(m)
  {
    if Free(m, c) && (best.None? || Manhattan(v, c) < Manhattan(v, best.value)) then Some(c) else best
  }

  /** `t` is the first free candidate at strictly minimal distance from `v`. */
  predicate FirstClosest(m: WorldMap, v: Cell, cands: seq<Cell>, t: Cell)
    requires Rectangular(m)
  {
    exists k :: 0 <= k < |cands| && cands[k] == t && Free(m, t) &&
      (forall j :: 0 <= j < |cands| && Free(m, cands[j]) ==> Manhattan(v, t) <= Manhattan(v, cands[j])) &&
      (forall j :: 0 <= j < k && Free(m, cands[j]) ==> Manhattan(v, t) < Manhattan(v, cands[j]))
  }

  /** What the scan knows after the candidates `pre`: no best exactly when none was free, else the first closest. */
  predicate ScanInvariant(m: WorldMap, v: Cell, pre: seq<Cell>, best: Option<Cell>)
    requires Rectangular(m)
  {
    (best.None? <==> forall j :: 0 <= j < |pre| ==> !Free(m, pre[j])) &&
    (best.Some? ==> FirstClosest(m, v, pre, best.value))
  }

  /** The scan finds a best exactly when some candidate so far was free. */
  lemma ScanStepFindsFree(m: WorldMap, v: Cell, pre: seq<Cell>, c: Cell, best: Option<Cell>)
    requires Rectangular(m) && ScanInvariant(m, v, pre, best)
    ensures ScanStep(m, v, c, best).None? <==> forall j :: 0 <= j < |pre + [c]| ==> !Free(m, (pre + [c])[j])
  {
    var pre' := pre + [c];
    if ScanStep(m, v, c, best).None? {
      forall j | 0 <= j < |pre'| ensures !Free(m, pre'[j]) {
        if j < |pre| { assert pre'[j] == pre[j]; }
      }
    } else if Free(m, c) {
      assert pre'[|pre|] == c;
    } else {
      var k :| 0 <= k < |pre| && pre[k] == best.value && Free(m, best.value);
      assert pre'[k] == pre[k];
    }
  }

  /** A free candidate strictly closer than the best so far is the first closest of all. */
  lemma ScanStepTakes(m: WorldMap, v: Cell, pre: seq<Cell>, c: Cell, best: Option<Cell>)
    requires Rectangular(m) && ScanInvariant(m, v, pre, best)
    requires Free(m, c) && (best.None? || Manhattan(v, c) < Manhattan(v, best.value))
    ensures FirstClosest(m, v, pre + [c], c)
  {
    var pre' := pre + [c];
    var k := |pre|;
    assert pre'[k] == c;
    forall j | 0 <= j < |pre'| && Free(m, pre'[j]) ensures Manhattan(v, c) < Manhattan(v, pre'[j]) || j == k {
      if j < |pre| {
        assert pre'[j] == pre[j];
        var kb :| 0 <= kb < |pre| && pre[kb] == best.value && Free(m, best.value) &&
          (forall i :: 0 <= i < |pre| && Free(m, pre[i]) ==> Manhattan(v, best.value) <= Manhattan(v, pre[i])) &&
          (forall i :: 0 <= i < kb && Free(m, pre[i]) ==> Manhattan(v, best.value) < Manhattan(v, pre[i]));
      }
    }
  }

  /** Any other candidate leaves the best so far the first closest of all. */
  lemma ScanStepKeeps(m: WorldMap, v: Cell, pre: seq<Cell>, c: Cell, best: Option<Cell>)
    requires Rectangular(m) && ScanInvariant(m, v, pre, best) && best.Some?
    requires !(Free(m, c) && Manhattan(v, c) < Manhattan(v, best.value))
    ensures FirstClosest(m, v, pre + [c], best.value)
  {
    var pre' := pre + [c];
    var b := best.value;
    var kb :| 0 <= kb < |pre| && pre[kb] == b && Free(m, b) &&
      (forall i :: 0 <= i < |pre| && Free(m, pre[i]) ==> Manhattan(v, b) <= Manhattan(v, pre[i])) &&
      (forall i :: 0 <= i < kb && Free(m, pre[i]) ==> Manhattan(v, b) < Manhattan(v, pre[i]));
    assert pre'[kb] == b;
    forall j | 0 <= j < |pre'| && Free(m, pre'[j]) ensures Manhattan(v, b) <= Manhattan(v, pre'[j]) {
      if j < |pre| { assert pre'[j] == pre[j]; }
    }
    forall j | 0 <= j < kb && Free(m, pre'[j]) ensures Manhattan(v, b) < Manhattan(v, pre'[j]) {
      assert pre'[j] == pre[j];
    }
  }

  /** The general scan invariant, with an arbitrary best-so-far taken from earlier candidates. */
  lemma {:induction false} BestTargetFrom(m: WorldMap, v: Cell, pre: seq<Cell>, cands: seq<Cell>, best: Option<Cell>)
    requires Rectangular(m) && ScanInvariant(m, v, pre, best)
    ensures ScanInvariant(m, v, pre + cands, BestTarget(m, v, cands, best))
    decreases |cands|
  {
    if cands == [] {
      assert pre + cands == pre;
    } else {
      var c := cands[0];
      var best' := ScanStep(m, v, c, best);
      ScanStepFindsFree(m, v, pre, c, best);
      if best' == Some(c) && Free(m, c) && (best.None? || Manhattan(v, c) < Manhattan(v, best.value)) {
        ScanStepTakes(m, v, pre, c, best);
      } else if best.Some? {
        ScanStepKeeps(m, v, pre, c, best);
      }
      assert ScanInvariant(m, v, pre + [c], best');
      BestTargetFrom(m, v, pre + [c], cands[1..], best');
      assert pre + cands == pre + [c] + cands[1..];
    }
  }

  /**
   * The target of the walk home is the first candidate, in up, down, left, right
   * order, that is free and strictly closest; there is none only when no
   * neighbour of home is free.
   */
  lemma BestTargetIsFirstClosest(m: WorldMap, v: Cell, cands: seq<Cell>)
    requires Rectangular(m)
    ensures var r := BestTarget(m, v, cands, None);
      (r.None? <==> forall j :: 0 <= j < |cands| ==> !Free(m, cands[j])) &&
      (r.Some? ==> FirstClosest(m, v, cands, r.value))
  {
    BestTargetFrom(m, v, [], cands, None);
    assert [] + cands == cands;
    assert ScanInvariant(m, v, cands, BestTarget(m, v, cands, None));
  }

  /** The moves to try: the major axis first, then the other one, each only where the delta is non-zero. */
  function CandidateMoves(dx: int, dy: int): (moves: seq<Facing>)
    ensures |moves| <= 2
    ensures forall k :: 0 <= k < |moves| ==>
      Abs(dx - Offset(moves[k]).x) + Abs(dy - Offset(moves[k]).y) + 1 == Abs(dx) + Abs(dy)
    ensures moves == [] <==> dx == 0 && dy == 0
    ensures |moves| == (if dx != 0 then 1 else 0) + (if dy != 0 then 1 else 0)
    ensures moves != [] ==> (Offset(moves[0]).x != 0 <==> Abs(dx) > Abs(dy))
    ensures |moves| == 2 ==> (Offset(moves[1]).x != 0 <==> Offset(moves[0]).x == 0)
  {
    var horizontal := if dx > 0 then [Right] else if dx < 0 then [Left] else [];
    var vertical := if dy > 0 then [Down] else if dy < 0 then [Up] else [];
    if Abs(dx) > Abs(dy) then horizontal + vertical else vertical + horizontal
  }

  /** The first of `moves` whose next cell is free. */
  function FirstFreeMove(m: WorldMap, v: Cell, moves: seq<Facing>): (r: Option<Facing>)
    requires Rectangular(m)
    ensures r.Some? ==> r.value in moves && Free(m, Neighbour(v, r.value))
    ensures r.None? <==> forall k :: 0 <= k < |moves| ==> !Free(m, Neighbour(v, moves[k]))
    decreases |moves|
  {
    if moves == [] then None
    else if Free(m, Neighbour(v, moves[0])) then Some(moves[0])
    else FirstFreeMove(m, v, moves[1..])
  }

  /** The move taken is the first free one: every move tried before it is blocked. */
  lemma {:induction false} FirstFreeMoveIsFirst(m: WorldMap, v: Cell, moves: seq<Facing>)
    requires Rectangular(m)
    ensures var r := FirstFreeMove(m, v, moves);
      r.Some? ==> exists k :: 0 <= k < |moves| && moves[k] == r.value &&
                              forall j :: 0 <= j < k ==> !Free(m, Neighbour(v, moves[j]))
    decreases |moves|
  {
    var r := FirstFreeMove(m, v, moves);
    if moves != [] && r.Some? {
      if Free(m, Neighbour(v, moves[0])) {
        assert moves[0] == r.value;
      } else {
        var rest := moves[1..];
        FirstFreeMoveIsFirst(m, v, rest);
        var k :| 0 <= k < |rest| && rest[k] == r.value &&
                 forall j :: 0 <= j < k ==> !Free(m, Neighbour(v, rest[j]));
        assert moves[k + 1] == r.value;
        forall j | 0 <= j < k + 1
          ensures !Free(m, Neighbour(v, moves[j]))
        {
          if j > 0 {
            assert moves[j] == rest[j - 1];
          }
        }
      }
    }
  }

  /**
   * `walk_home_to_drop_wood` / `walk_home_to_drop_food`: the direction and facing
   * of one step towards the best free neighbour of home, or None (and no change)
   * when already at home, the map is empty, there is no home, no target or no step.
   */
  function HomeStep(v: Cell, ctx: Context): Option<Facing>
    requires ctx.Valid()
  {
    if IsAtHome(v, ctx.homeCell) || |ctx.worldMap| == 0 || ctx.homeCell.None? then None
    else
      match BestTarget(ctx.worldMap, v, HomeNeighbours(ctx.homeCell.value), None)
      case None => None
      case Some(t) => FirstFreeMove(ctx.worldMap, v, CandidateMoves(t.col - v.col, t.row - v.row))
  }

  /** A candidate move lands one step closer to the cell it aims at. */
  lemma CandidateMoveCloser(v: Cell, t: Cell, f: Facing)
    requires f in CandidateMoves(t.col - v.col, t.row - v.row)
    ensures Manhattan(Neighbour(v, f), t) + 1 == Manhattan(v, t)
  {
    var moves := CandidateMoves(t.col - v.col, t.row - v.row);
    var k :| 0 <= k < |moves| && moves[k] == f;
    var n := Neighbour(v, f);
    assert Abs(t.col - v.col - Offset(f).x) == Abs(t.col - n.col);
    assert Abs(t.row - v.row - Offset(f).y) == Abs(t.row - n.row);
  }

  /**
   * Every step of the walk home lands on a free cell one step closer to the
   * first closest free neighbour of home.
   */
  lemma {:induction false} HomeStepProgress(v: Cell, ctx: Context)
    requires ctx.Valid()
    ensures var s := HomeStep(v, ctx);
      s.Some? ==>
        !IsAtHome(v, ctx.homeCell) && ctx.homeCell.Some? &&
        var t := BestTarget(ctx.worldMap, v, HomeNeighbours(ctx.homeCell.value), None);
        t.Some? && FirstClosest(ctx.worldMap, v, HomeNeighbours(ctx.homeCell.value), t.value) &&
        Free(ctx.worldMap, Neighbour(v, s.value)) &&
        Manhattan(Neighbour(v, s.value), t.value) + 1 == Manhattan(v, t.value)
  {
    var s := HomeStep(v, ctx);
    if s.Some? {
      var cands := HomeNeighbours(ctx.homeCell.value);
      BestTargetIsFirstClosest(ctx.worldMap, v, cands);
      var t := BestTarget(ctx.worldMap, v, cands, None).value;
      CandidateMoveCloser(v, t, s.value);
    }
  }

  /** `min(1, cap - carried)`: what one gather may take. */
  function Gathered(carried: int, cap: int): (g: int)
    ensures g <= 1
    ensures g > 0 <==> carried < cap
    ensures g > 0 ==> carried + g <= cap
  {
    Min(1, cap - carried)
  }

  /** The load after `n` gathers, each adding `Gathered` when positive. */
  function LoadAfter(carried: int, cap: int, n: nat): int
    decreases n
  {
    if n == 0 then carried
    else
      var g := Gathered(carried, cap);
      LoadAfter(if g > 0 then carried + g else carried, cap, n - 1)
  }

  /** Gathering fills a villager one unit at a time and never past its capacity. */
  lemma {:induction false} LoadAfterIsCapped(carried: int, cap: int, n: nat)
    requires 0 <= carried <= cap
    ensures LoadAfter(carried, cap, n) == Min(carried + n, cap)
    decreases n
  {
    if n > 0 {
      var g := Gathered(carried, cap);
      LoadAfterIsCapped(if g > 0 then carried + g else carried, cap, n - 1);
    }
  }

  /** While the stock lasts, a gather moves exactly what it takes from the node to the villager. */
  lemma GatherConserves(carried: int, cap: int, stock: int)
    requires stock >= 1
    ensures var g := Gathered(carried, cap);
      g > 0 ==> (carried + g) + Objects.Reduced(stock, g) == carried + stock
  {
  }

  /** `now - last >= 1000`. */
  predicate HarvestDue(now: int, last: int) {
    now - last >= HarvestInterval
  }

  /** The times at which a sequence of harvest calls acts, starting from the last harvest time. */
  function Harvests(last: int, nows: seq<int>): seq<int>
    decreases |nows|
  {
    if nows == [] then []
    else if HarvestDue(nows[0], last) then [nows[0]] + Harvests(nows[0], nows[1..])
    else Harvests(last, nows[1..])
  }

  /** Each time is at least 1000 ms after the one before it, the first 1000 ms after `last`. */
  predicate Spaced(last: int, times: seq<int>) {
    (|times| > 0 ==> times[0] >= last + HarvestInterval) &&
    forall k :: 0 < k < |times| ==> times[k] >= times[k - 1] + HarvestInterval
  }

  /** Harvests happen at least 1000 ms apart, the first one 1000 ms after the last recorded. */
  lemma {:induction false} HarvestsSpaced(last: int, nows: seq<int>)
    ensures Spaced(last, Harvests(last, nows))
    decreases |nows|
  {
    if nows != [] {
      var h := Harvests(last, nows);
      if HarvestDue(nows[0], last) {
        var rest := Harvests(nows[0], nows[1..]);
        HarvestsSpaced(nows[0], nows[1..]);
        assert h == [nows[0]] + rest;
        forall k | 0 < k < |h| ensures h[k] >= h[k - 1] + HarvestInterval {
          assert h[k] == rest[k - 1];
          if k > 1 { assert h[k - 1] == rest[k - 2]; }
        }
      } else {
        assert h == Harvests(last, nows[1..]);
        HarvestsSpaced(last, nows[1..]);
      }
    }
  }

  /** What a drop adds to the counters: the resource itself, then the score. */
  function Deposited(c: Counters, amount: int, wood: bool): (r: Counters)
    ensures wood ==> r == c.(wood := c.wood + amount, score := c.score + amount as real * WoodScore)
    ensures !wood ==> r == c.(food := c.food + amount, score := c.score + amount as real)
  {
    if wood then Apply(Apply(c, AddWood(amount)), UpdateScore(amount as real * WoodScore))
    else Apply(Apply(c, AddFood(amount)), UpdateScore(amount as real))
  }

  /** The first column of `row`, from `c` on, labelled home. */
  function FirstHomeInRow(row: seq<Label>, c: nat): (r: Option<nat>)
    ensures r.Some? ==> c <= r.value < |row| && row[r.value] == "home"
    ensures forall k :: c <= k < |row| && (r.None? || k < r.value) ==> row[k] != "home"
    decreases |row| - c
  {
    if c >= |row| then None
    else if row[c] == "home" then Some(c)
    else FirstHomeInRow(row, c + 1)
  }

  /** The first home cell, in row-major order, from row `r` on. */
  function FirstHome(m: WorldMap, r: nat): (h: Option<Cell>)
    ensures h.Some? ==>
      r <= h.value.row < |m| && 0 <= h.value.col < |m[h.value.row]| && m[h.value.row][h.value.col] == "home"
    ensures h.Some? ==> forall k :: 0 <= k < h.value.col ==> m[h.value.row][k] != "home"
    ensures forall i, k :: r <= i < |m| && (h.None? || i < h.value.row) && 0 <= k < |m[i]| ==> m[i][k] != "home"
    decreases |m| - r
  {
    if r >= |m| then None
    else match FirstHomeInRow(m[r], 0)
      case Some(c) => Some(Cell(r, c))
      case None => FirstHome(m, r + 1)
  }

  /** The index of the first label, from `k` on, whose centre is within half a tile of (x, y) on both axes. */
  function FirstLabelNear(labels: seq<CellLabel>, x: int, y: int, half: int, k: nat): (r: Option<nat>)
    ensures r.Some? ==>
      k <= r.value < |labels| && Abs(labels[r.value].cx - x) < half && Abs(labels[r.value].cy - y) < half
    ensures forall j :: k <= j < |labels| && (r.None? || j < r.value) ==>
      !(Abs(labels[j].cx - x) < half && Abs(labels[j].cy - y) < half)
    decreases |labels| - k
  {
    if k >= |labels| then None
    else if Abs(labels[k].cx - x) < half && Abs(labels[k].cy - y) < half then Some(k)
    else FirstLabelNear(labels, x, y, half, k + 1)
  }
}
