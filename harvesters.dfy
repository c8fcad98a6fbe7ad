/**
 * The villager classes of src/villager/villager.py: the base `Villager` (the
 * kind the board spawns), and the wood and food villagers that extend it with
 * a load, gathering, dropping at home and the walks to a node and to home.
 * The subclasses hold their base villager as `body` instead of inheriting.
 */
module Harvesters {
  import opened Geometry
  import opened World
  import opened Economy
  import opened HarvestRules
  import Objects

  /** What a harvester carries and does on top of its body. */
  datatype Load = Load(carried: int, capacity: int, busy: bool, lastHarvest: int, returningHome: bool)

  predicate LoadValid(l: Load) {
    0 <= l.carried <= l.capacity
  }

  /** `init_as_wood_villager` / `init_as_food_villager`. */
  const InitialLoad := Load(0, Capacity, false, 0, false)

  /** `should_drop_wood` / `should_drop_food`: the load is at capacity. */
  predicate ShouldDrop(l: Load) {
    l.carried >= l.capacity
  }

  /** A valid load should be dropped exactly when it is full, that is when a gather would take nothing. */
  lemma ShouldDropIffNoRoom(l: Load)
    requires LoadValid(l)
    ensures ShouldDrop(l) <==> l.carried == l.capacity
    ensures ShouldDrop(l) <==> Gathering(l).1 <= 0
  {
  }

  /**
   * `gather_wood_from_tree` / `gather_food_from_berry_bush`: take one unit while
   * there is room; reaching capacity stops the work and sends the villager home.
   * The second component is what the node loses (nothing when it is not positive).
   */
  function Gathering(l: Load): (r: (Load, int))
    ensures r.1 <= 1 && (r.1 > 0 <==> l.carried < l.capacity)
    ensures r.1 > 0 ==> r.0.carried == l.carried + r.1
    ensures r.1 <= 0 ==> r.0 == l
    ensures LoadValid(l) ==> LoadValid(r.0)
    ensures r.1 > 0 && ShouldDrop(r.0) ==> !r.0.busy && r.0.returningHome
    ensures !ShouldDrop(r.0) ==> r.0.busy == l.busy && r.0.returningHome == l.returningHome
    ensures r.0.capacity == l.capacity && r.0.lastHarvest == l.lastHarvest
  {
    var g := Gathered(l.carried, l.capacity);
    if g > 0 then
      var carried := l.carried + g;
      (if carried >= l.capacity then l.(carried := carried, busy := false, returningHome := true)
       else l.(carried := carried), g)
    else (l, g)
  }

  /**
   * `drop_wood` / `drop_food`: with something carried and home adjacent, the
   * whole load goes into the counters and the amount is returned; otherwise
   * nothing changes and 0 is returned.
   */
  function Dropped(l: Load, c: Counters, atHome: bool, wood: bool): (r: (Load, Counters, int))
    ensures l.carried > 0 && atHome ==>
      r == (l.(carried := 0), Deposited(c, l.carried, wood), l.carried)
    ensures !(l.carried > 0 && atHome) ==> r == (l, c, 0)
  {
    if l.carried > 0 && atHome then (l.(carried := 0), Deposited(c, l.carried, wood), l.carried)
    else (l, c, 0)
  }

  /** A drop moves the load into the counters without losing or creating any. */
  lemma DropConserves(l: Load, c: Counters, atHome: bool)
    ensures var (l', c', d) := Dropped(l, c, atHome, true);
      l'.carried + c'.wood == l.carried + c.wood && c'.food == c.food && c'.gold == c.gold &&
      c'.score == c.score + d as real * WoodScore && (d == 0 || l'.carried == 0)
  {
    if !(l.carried > 0 && atHome) {
      assert 0 as real * WoodScore == 0.0;
    }
  }

  /**
   * `chopping_wood` / `gathering_food` of src/villager/villager.py: the villager
   * starts working; once 1000 ms have passed since the last harvest it gathers
   * (when the board has the node group) and restarts the timer.
   */
  function Worked(l: Load, now: int, boardHasNodes: bool): (r: (Load, int))
    ensures !HarvestDue(now, l.lastHarvest) ==> r == (l.(busy := true), 0)
    ensures HarvestDue(now, l.lastHarvest) ==> r.0.lastHarvest == now
    ensures HarvestDue(now, l.lastHarvest) && !boardHasNodes ==> r == (l.(busy := true, lastHarvest := now), 0)
    ensures r.1 == 0 || r.1 == Gathered(l.carried, l.capacity)
    ensures HarvestDue(now, l.lastHarvest) && boardHasNodes ==>
      r.1 == (if l.carried < l.capacity then 1 else 0)
    ensures r.0.carried == l.carried + r.1 && r.0.capacity == l.capacity
    ensures r.0.returningHome == (l.returningHome || (r.1 > 0 && ShouldDrop(r.0)))
    ensures r.0.busy <==> !(r.1 > 0 && ShouldDrop(r.0))
    ensures LoadValid(l) ==> LoadValid(r.0)
  {
    var working := l.(busy := true);
    if HarvestDue(now, l.lastHarvest) then
      var (g, took) := if boardHasNodes then Gathering(working) else (working, 0);
      (g.(lastHarvest := now), if took > 0 then took else 0)
    else (working, 0)
  }

  /** Two harvests by consecutive work calls are at least 1000 ms apart. */
  lemma {:induction false} WorkSpacing(l: Load, t1: int, t2: int, board: bool)
    requires Worked(l, t1, board).1 > 0
    requires Worked(Worked(l, t1, board).0, t2, board).1 > 0
    ensures t2 >= t1 + HarvestInterval
  {
    var l1 := Worked(l, t1, board).0;
    assert HarvestDue(t1, l.lastHarvest);
    assert l1.lastHarvest == t1;
  }

  /** Work keeps the load within capacity over any number of calls. */
  lemma {:induction false} WorkStaysValid(l: Load, nows: seq<int>, board: bool)
    requires LoadValid(l)
    ensures LoadValid(WorkedAll(l, nows, board))
    decreases |nows|
  {
    if nows != [] {
      WorkStaysValid(Worked(l, nows[0], board).0, nows[1..], board);
    }
  }

  function WorkedAll(l: Load, nows: seq<int>, board: bool): Load
    decreases |nows|
  {
    if nows == [] then l else WorkedAll(Worked(l, nows[0], board).0, nows[1..], board)
  }

  /**
   * `gather_food_from_berry_bush` as written calls `reduce_food`, which berry
   * bushes do not define: whenever there is room to gather, the call raises.
   */
  function GatherFoodAsWritten(l: Load): (r: (Load, Outcome))
    ensures r.1.Raised? <==> Gathered(l.carried, l.capacity) > 0
    ensures r.1.Returned? ==> r == (l, Returned(true))
  {
    if Gathered(l.carried, l.capacity) > 0 then (l, Raised) else (l, Returned(true))
  }

  /** A fresh food villager's first gather raises instead of gathering. */
  lemma FirstFoodGatherRaises()
    ensures GatherFoodAsWritten(InitialLoad).1 == Raised
  {
  }

  /** The walk home sets direction and facing of the step it finds and nothing else; no step, no change. */
  function WalkedHome(b: Body, ctx: Context): (r: (Body, bool))
    requires ctx.Valid()
    ensures var s := HomeStep(CellOfBody(b, ctx.tileSize), ctx);
      (r.1 <==> s.Some?) &&
      (s.Some? ==> r.0 == b.(direction := Offset(s.value), facing := s.value)) &&
      (s.None? ==> r.0 == b)
  {
    match HomeStep(CellOfBody(b, ctx.tileSize), ctx)
    case Some(f) => (b.(direction := Offset(f), facing := f), true)
    case None => (b, false)
  }

  /**
   * The search of `walk_home_to_drop_wood` / `walk_home_to_drop_food`: the
   * closest free neighbour of home (first on ties), then the first of the
   * primary and secondary axis moves towards it that lands on a free cell.
   */
  method ChooseHomeStep(v: Cell, ctx: Context) returns (step: Option<Facing>)
    requires ctx.Valid()
    ensures step == HomeStep(v, ctx)
  {
    if IsAtHome(v, ctx.homeCell) || |ctx.worldMap| == 0 || ctx.homeCell.None? {
      return None;
    }
    var m := ctx.worldMap;
    var cands := HomeNeighbours(ctx.homeCell.value);
    var best: Option<Cell> := None;
    var i := 0;
    while i < |cands|
      invariant 0 <= i <= |cands|
      invariant BestTarget(m, v, cands[i..], best) == BestTarget(m, v, cands, None)
    {
      var c := cands[i];
      if Free(m, c) && (best.None? || Manhattan(v, c) < Manhattan(v, best.value)) {
        best := Some(c);
      }
      assert cands[i..][1..] == cands[i + 1..];
      i := i + 1;
    }
    assert cands[i..] == [];
    if best.None? {
      return None;
    }
    var t := best.value;
    var moves := CandidateMoves(t.col - v.col, t.row - v.row);
    var k := 0;
    while k < |moves|
      invariant 0 <= k <= |moves|
      invariant FirstFreeMove(m, v, moves[k..]) == FirstFreeMove(m, v, moves)
    {
      if Free(m, Neighbour(v, moves[k])) {
        return Some(moves[k]);
      }
      assert moves[k..][1..] == moves[k + 1..];
      k := k + 1;
    }
    assert moves[k..] == [];
    return None;
  }

  /**
   * Where `spawn_position` places a villager: the cell left of the first home
   * in row-major order, with the id of the first label within half a tile of
   * its centre; without such a home, the label at index `pick` (the random
   * choice), or nothing.
   */
  function SpawnSpot(ctx: Context, labels: seq<CellLabel>, pick: nat): (Option<(int, int)>, Option<string>)
    requires ctx.Valid()
    requires |labels| > 0 ==> pick < |labels|
  {
    var h := FirstHome(ctx.worldMap, 0);
    if h.Some? && h.value.col > 0 then
      var c := Cell(h.value.row, h.value.col - 1);
      var x := CenterX(c, ctx.tileSize);
      var y := CenterY(c, ctx.tileSize);
      (Some((x, y)), match FirstLabelNear(labels, x, y, ctx.tileSize / 2, 0)
                     case Some(k) => Some(labels[k].id)
                     case None => None)
    else if |labels| > 0 then (Some((labels[pick].cx, labels[pick].cy)), Some(labels[pick].id))
    else (None, None)
  }

  /**
   * With a home off the first column, the villager appears in the centre of the
   * cell left of that home: next to it, so it can drop its load without moving.
   */
  lemma SpawnBesideHome(ctx: Context, labels: seq<CellLabel>, pick: nat)
    requires ctx.Valid() && (|labels| > 0 ==> pick < |labels|)
    requires var h := FirstHome(ctx.worldMap, 0); h.Some? && h.value.col > 0
    ensures var h := FirstHome(ctx.worldMap, 0);
      var (pos, id) := SpawnSpot(ctx, labels, pick);
      pos.Some? && CellOfPoint(pos.value.0, pos.value.1, ctx.tileSize) == Neighbour(h.value, Left) &&
      IsAtHome(Neighbour(h.value, Left), h) &&
      (id.Some? <==> (exists k :: 0 <= k < |labels| &&
                        Abs(labels[k].cx - pos.value.0) < ctx.tileSize / 2 && Abs(labels[k].cy - pos.value.1) < ctx.tileSize / 2))
  {
    var h := FirstHome(ctx.worldMap, 0).value;
    var c := Cell(h.row, h.col - 1);
    CenterInCell(c, ctx.tileSize);
    assert Neighbour(h, Left) == c;
    assert Neighbour(c, Right) == h;
  }

  /** Without a usable home, an empty label list is the only way to get no position. */
  lemma SpawnFallback(ctx: Context, labels: seq<CellLabel>, pick: nat)
    requires ctx.Valid() && (|labels| > 0 ==> pick < |labels|)
    requires var h := FirstHome(ctx.worldMap, 0); !(h.Some? && h.value.col > 0)
    ensures var (pos, id) := SpawnSpot(ctx, labels, pick);
      (pos.None? <==> labels == []) && (pos.None? <==> id.None?) &&
      (labels != [] ==> labels[pick].id == id.value && (labels[pick].cx, labels[pick].cy) == pos.value)
  {
  }

  /** The base villager: the only kind the board spawns. */
  class Villager {
    var rect: Rect
    var prevRect: Rect
    var direction: Vec
    var facing: Facing
    var lastFacing: Facing
    var health: int
    var speed: int
    var isMoving: bool
    var aiMode: bool
    var agentControlled: bool

    function Model(): Body
      reads this
    {
      Body(rect, prevRect, direction, facing, lastFacing, health, speed, isMoving, aiMode, agentControlled)
    }

    /** A villager of `size` pixels centred on (cx, cy). */
    constructor(cx: int, cy: int, size: nat)
      ensures Model() == InitialBody(cx, cy, size)
    {
      rect := RectAround(cx, cy, size, size);
      prevRect := rect;
      direction, facing, lastFacing := Zero, Down, Down;
      health, speed, isMoving := 100, 2, false;
      aiMode, agentControlled := true, false;
    }

    /** `update`: snapshot, step, clamp into the `width` × `height` world. */
    method Update(width: nat, height: nat)
      requires Valid(Model())
      modifies this
      ensures Model() == BaseTick(old(Model()), width, height)
    {
      prevRect := rect;
      isMoving := direction != Zero;
      rect := rect.Moved(direction.x * speed, direction.y * speed);
      if rect.x < 0 || rect.Right() > width || rect.y < 0 || rect.Bottom() > height {
        rect := Clamp(rect, width, height);
      }
    }

    /** `spawn_position`, searching the map and the labels with loops. */
    static method SpawnPosition(ctx: Context, labels: seq<CellLabel>, pick: nat)
      returns (pos: Option<(int, int)>, id: Option<string>)
      requires ctx.Valid()
      requires |labels| > 0 ==> pick < |labels|
      ensures (pos, id) == SpawnSpot(ctx, labels, pick)
    {
      var m := ctx.worldMap;
      var ts := ctx.tileSize;
      var home: Option<Cell> := None;
      var r := 0;
      while r < |m| && home.None?
        invariant 0 <= r <= |m|
        invariant home.None? ==> FirstHome(m, r) == FirstHome(m, 0)
        invariant home.Some? ==> home == FirstHome(m, 0)
      {
        var c := 0;
        while c < |m[r]| && home.None?
          invariant 0 <= c <= |m[r]|
          invariant home.None? ==> FirstHomeInRow(m[r], c) == FirstHomeInRow(m[r], 0)
          invariant home.Some? ==> home == FirstHome(m, 0)
          decreases |m[r]| - c, if home.None? then 1 else 0
        {
          if m[r][c] == "home" {
            home := Some(Cell(r, c));
          } else {
            c := c + 1;
          }
        }
        r := r + 1;
      }
      if home.Some? && home.value.col > 0 {
        var cell := Cell(home.value.row, home.value.col - 1);
        var x := cell.col * ts + ts / 2;
        var y := cell.row * ts + ts / 2;
        pos, id := Some((x, y)), None;
        var k := 0;
        while k < |labels|
          invariant 0 <= k <= |labels|
          invariant FirstLabelNear(labels, x, y, ts / 2, k) == FirstLabelNear(labels, x, y, ts / 2, 0)
        {
          if Abs(labels[k].cx - x) < ts / 2 && Abs(labels[k].cy - y) < ts / 2 {
            id := Some(labels[k].id);
            return;
          }
          k := k + 1;
        }
      } else if |labels| > 0 {
        pos, id := Some((labels[pick].cx, labels[pick].cy)), Some(labels[pick].id);
      } else {
        pos, id := None, None;
      }
    }
  }

  /** A woodcutter: its body plus a load of wood and the chopping state. */
  class WoodVillager {
    const body: Villager
    var woodCarried: int
    var maxWoodCapacity: int
    /** Set to False by `init_as_wood_villager` and never reassigned by the class. */
    const usingAxe: bool
    var chopping: bool
    var lastChopTime: int
    var returningHome: bool

    function Model(): Load
      reads this
    {
      Load(woodCarried, maxWoodCapacity, chopping, lastChopTime, returningHome)
    }

    /** `Villager.__init__` followed by `init_as_wood_villager`. */
    constructor(cx: int, cy: int, size: nat)
      ensures fresh(body) && body.Model() == InitialBody(cx, cy, size)
      ensures Model() == InitialLoad && !usingAxe
    {
      body := new Villager(cx, cy, size);
      woodCarried, maxWoodCapacity := 0, Capacity;
      usingAxe, chopping, lastChopTime, returningHome := false, false, 0, false;
    }

    method DropWood(gs: GameState, ctx: Context) returns (dropped: int)
      requires ctx.Valid()
      modifies this, gs
      ensures (Model(), gs.Model(), dropped) ==
        Dropped(old(Model()), old(gs.Model()), IsAtHome(CellOfBody(body.Model(), ctx.tileSize), ctx.homeCell), true)
    {
      if woodCarried > 0 && IsAtHome(CellOf(body.rect, ctx.tileSize), ctx.homeCell) {
        dropped := woodCarried;
        woodCarried := 0;
        gs.AddWood(dropped);
        gs.UpdateScore(dropped as real * WoodScore);
      } else {
        dropped := 0;
      }
    }

    /** Always reports a tree; the tree loses what the villager takes. */
    method GatherWoodFromTree(tree: Objects.Tree) returns (found: bool)
      modifies this, tree
      ensures var (l, took) := Gathering(old(Model()));
        Model() == l && found &&
        (took > 0 ==> tree.wood == Objects.Reduced(old(tree.wood), took) && tree.alive == (old(tree.alive) && tree.wood > 0)) &&
        (took <= 0 ==> tree.wood == old(tree.wood) && tree.alive == old(tree.alive))
    {
      var g := Min(1, maxWoodCapacity - woodCarried);
      if g > 0 {
        tree.ReduceWood(g);
        woodCarried := woodCarried + g;
        if woodCarried >= maxWoodCapacity {
          chopping := false;
          returningHome := true;
        }
      }
      found := true;
    }

    method WalkToTree(tree: Objects.Tree?) returns (moved: bool)
      modifies body
      ensures (body.Model(), moved) == WalkToward(old(body.Model()), if tree == null then None else Some(tree.rect))
    {
      if tree == null {
        return false;
      }
      var dx := tree.rect.CenterX() - body.rect.CenterX();
      var dy := tree.rect.CenterY() - body.rect.CenterY();
      var d := StepToward(dx, dy);
      if d != Zero {
        body.aiMode, body.agentControlled := false, true;
        body.direction, body.facing := d, FacingOf(d);
        return true;
      }
      return false;
    }

    method WalkHomeToDropWood(ctx: Context) returns (moved: bool)
      requires ctx.Valid()
      modifies body
      ensures (body.Model(), moved) == WalkedHome(old(body.Model()), ctx)
    {
      var step := ChooseHomeStep(CellOf(body.rect, ctx.tileSize), ctx);
      match step {
        case Some(f) =>
          body.direction, body.facing := Offset(f), f;
          moved := true;
        case None =>
          moved := false;
      }
    }

    /**
     * `chopping_wood(tree)`; `boardHasTrees` says whether the game context has a
     * board with a tree group. The source's branch that stops chopping when no
     * tree was found is unreachable, since the gather always reports one.
     */
    method ChoppingWood(tree: Objects.Tree, now: int, boardHasTrees: bool) returns (took: int)
      modifies this, tree
      ensures (Model(), took) == Worked(old(Model()), now, boardHasTrees)
      ensures took > 0 ==> tree.wood == Objects.Reduced(old(tree.wood), took) && tree.alive == (old(tree.alive) && tree.wood > 0)
      ensures took <= 0 ==> tree.wood == old(tree.wood) && tree.alive == old(tree.alive)
    {
      chopping := true;
      took := 0;
      if now - lastChopTime >= HarvestInterval {
        if boardHasTrees {
          var before := woodCarried;
          var found := GatherWoodFromTree(tree);
          took := woodCarried - before;
        }
        lastChopTime := now;
      }
    }

    /** `update` without the animation: the base update, then a chopping villager stands still. */
    method Update(ctx: Context)
      requires Valid(body.Model())
      modifies body
      ensures body.Model() == HarvesterTick(old(body.Model()), chopping, ctx.width, ctx.height)
    {
      body.Update(ctx.width, ctx.height);
      if chopping {
        body.direction, body.facing := Zero, body.lastFacing;
      } else if body.isMoving {
        body.lastFacing := body.facing;
      }
    }
  }

  class FoodVillager {
    const body: Villager
    var foodCarried: int
    var maxFoodCapacity: int
    var gathering: bool
    var lastGatherTime: int
    var returningHome: bool

    function Model(): Load
      reads this
    {
      Load(foodCarried, maxFoodCapacity, gathering, lastGatherTime, returningHome)
    }

    /** `Villager.__init__` followed by `init_as_food_villager`. */
    constructor(cx: int, cy: int, size: nat)
      ensures fresh(body) && body.Model() == InitialBody(cx, cy, size)
      ensures Model() == InitialLoad
    {
      body := new Villager(cx, cy, size);
      foodCarried, maxFoodCapacity := 0, Capacity;
      gathering, lastGatherTime, returningHome := false, 0, false;
    }

    method DropFood(gs: GameState, ctx: Context) returns (dropped: int)
      requires ctx.Valid()
      modifies this, gs
      ensures (Model(), gs.Model(), dropped) ==
        Dropped(old(Model()), old(gs.Model()), IsAtHome(CellOfBody(body.Model(), ctx.tileSize), ctx.homeCell), false)
    {
      if foodCarried > 0 && IsAtHome(CellOf(body.rect, ctx.tileSize), ctx.homeCell) {
        dropped := foodCarried;
        foodCarried := 0;
        gs.AddFood(dropped);
        gs.UpdateScore(dropped as real);
      } else {
        dropped := 0;
      }
    }

    /** The gather with the berry bush's own `reduce_berries` in place of the missing `reduce_food`. */
    method GatherFoodFromBerryBush(bush: Objects.BerryBush) returns (found: bool)
      modifies this, bush
      ensures var (l, took) := Gathering(old(Model()));
        Model() == l && found &&
        (took > 0 ==> bush.berries == Objects.Reduced(old(bush.berries), took) && bush.alive == (old(bush.alive) && bush.berries > 0)) &&
        (took <= 0 ==> bush.berries == old(bush.berries) && bush.alive == old(bush.alive))
    {
      var g := Min(1, maxFoodCapacity - foodCarried);
      if g > 0 {
        bush.ReduceBerries(g);
        foodCarried := foodCarried + g;
        if foodCarried >= maxFoodCapacity {
          gathering := false;
          returningHome := true;
        }
      }
      found := true;
    }

    method WalkToBerryBush(bush: Objects.BerryBush?) returns (moved: bool)
      modifies body
      ensures (body.Model(), moved) == WalkToward(old(body.Model()), if bush == null then None else Some(bush.rect))
    {
      if bush == null {
        return false;
      }
      var dx := bush.rect.CenterX() - body.rect.CenterX();
      var dy := bush.rect.CenterY() - body.rect.CenterY();
      var d := StepToward(dx, dy);
      if d != Zero {
        body.aiMode, body.agentControlled := false, true;
        body.direction, body.facing := d, FacingOf(d);
        return true;
      }
      return false;
    }

    method WalkHomeToDropFood(ctx: Context) returns (moved: bool)
      requires ctx.Valid()
      modifies body
      ensures (body.Model(), moved) == WalkedHome(old(body.Model()), ctx)
    {
      var step := ChooseHomeStep(CellOf(body.rect, ctx.tileSize), ctx);
      match step {
        case Some(f) =>
          body.direction, body.facing := Offset(f), f;
          moved := true;
        case None =>
          moved := false;
      }
    }

    /**
     * `gathering_food(berry_bush)` with the corrected gather; `boardHasBushes`
     * says whether the game context has a board with a berry bush group.
     */
    method GatheringFood(bush: Objects.BerryBush, now: int, boardHasBushes: bool) returns (took: int)
      modifies this, bush
      ensures (Model(), took) == Worked(old(Model()), now, boardHasBushes)
      ensures took > 0 ==> bush.berries == Objects.Reduced(old(bush.berries), took) && bush.alive == (old(bush.alive) && bush.berries > 0)
      ensures took <= 0 ==> bush.berries == old(bush.berries) && bush.alive == old(bush.alive)
    {
      gathering := true;
      took := 0;
      if now - lastGatherTime >= HarvestInterval {
        if boardHasBushes {
          var before := foodCarried;
          var found := GatherFoodFromBerryBush(bush);
          took := foodCarried - before;
        }
        lastGatherTime := now;
      }
    }

    method Update(ctx: Context)
      requires Valid(body.Model())
      modifies body
      ensures body.Model() == HarvesterTick(old(body.Model()), gathering, ctx.width, ctx.height)
    {
      body.Update(ctx.width, ctx.height);
      if gathering {
        body.direction, body.facing := Zero, body.lastFacing;
      } else if body.isMoving {
        body.lastFacing := body.facing;
      }
    }
  }
}
