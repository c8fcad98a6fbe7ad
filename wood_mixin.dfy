/**
 * The wood-cutting mixin of src/villager/wood_villager.py. It reads the host
 * sprite's `rect` and `last_move_direction` and keeps its own load and
 * chopping timer. Unlike the class of src/villager/villager.py, it finds home
 * by the map's "home" labels, gathers from whichever tree of the board's group
 * stands next to it, and never stops chopping because of a full load.
 */
module WoodMixin {
  import opened Geometry
  import opened World
  import opened Economy
  import opened HarvestRules
  import Objects

  /** The mixin's own fields: load, capacity, the chopping flag and the time of the last chop. */
  datatype Wood = Wood(carried: int, capacity: int, chopping: bool, lastChop: int)

  predicate WoodValid(w: Wood) {
    0 <= w.carried <= w.capacity
  }

  /**
   * What one gather does to the load when a tree is (`hit`) or is not next to
   * the villager: one unit while there is room; the second component is what
   * the tree loses.
   */
  function Gathered1(w: Wood, hit: bool): (r: (Wood, int))
    ensures !hit ==> r == (w, 0)
    ensures hit ==> r.1 == Max(0, Gathered(w.carried, w.capacity)) && r.0 == w.(carried := w.carried + r.1)
    ensures WoodValid(w) ==> WoodValid(r.0) && r.0.carried <= w.capacity
  {
    if hit then
      var g := Gathered(w.carried, w.capacity);
      if g > 0 then (w.(carried := w.carried + g), g) else (w, 0)
    else (w, 0)
  }

  /**
   * `gather_wood_from_tree` as written, on the group the board actually holds:
   * the board fills `tree_sprites` with the sprites of src/trees.py, which carry
   * a rectangle and an id but no `reduce_wood`. So once a tree stands next to
   * the villager and there is room, the call raises; otherwise it returns
   * whether a tree was found.
   */
  function GatherOnBoardAsWritten(w: Wood, hit: bool): (r: (Wood, Outcome))
    ensures r.1.Raised? <==> hit && w.carried < w.capacity
    ensures r.1.Returned? ==> r == (w, Returned(hit))
  {
    if hit && Gathered(w.carried, w.capacity) > 0 then (w, Raised) else (w, Returned(hit))
  }

  /** A fresh woodcutter's first gather next to a tree of the board raises instead of gathering. */
  lemma FirstBoardGatherRaises()
    ensures GatherOnBoardAsWritten(Wood(0, Capacity, false, 0), true).1 == Raised
  {
  }

  /**
   * `chopping_wood(now)`: once 1000 ms have passed it gathers, when the board
   * has a tree group, stops chopping when no tree was next to the villager,
   * and restarts the timer.
   */
  function Chopped(w: Wood, now: int, boardHasTrees: bool, hit: bool): (r: (Wood, int))
    ensures !HarvestDue(now, w.lastChop) ==> r == (w, 0)
    ensures HarvestDue(now, w.lastChop) ==> r.0.lastChop == now
    ensures HarvestDue(now, w.lastChop) && !boardHasTrees ==> r == (w.(lastChop := now), 0)
    ensures HarvestDue(now, w.lastChop) && boardHasTrees ==>
      r.0.chopping == (w.chopping && hit) && r.0.carried == Gathered1(w, hit).0.carried &&
      r.1 == (if hit && w.carried < w.capacity then 1 else 0)
    ensures r.0.carried == w.carried + r.1 && r.0.capacity == w.capacity
    ensures WoodValid(w) ==> WoodValid(r.0)
  {
    if HarvestDue(now, w.lastChop) then
      if boardHasTrees then
        var (g, took) := Gathered1(w, hit);
        (g.(chopping := g.chopping && hit, lastChop := now), took)
      else (w.(lastChop := now), 0)
    else (w, 0)
  }

  /** Without trees next to it, a chopping villager stops at its next due chop. */
  lemma ChopWithoutTreeStops(w: Wood, now: int)
    requires HarvestDue(now, w.lastChop)
    ensures var (r, took) := Chopped(w, now, true, false);
      !r.chopping && took == 0 && r.carried == w.carried
  {
  }

  /** A live tree of the group whose centre cell is next to cell `v`. */
  predicate NextTo(t: Objects.Tree, v: Cell, tileSize: int)
    requires tileSize > 0
    reads t
  {
    t.alive && Adjacent(v, CellOf(t.rect, tileSize))
  }

  /**
   * The index of the first tree of the group, from `k` on, next to `v`. Trees no
   * longer alive have left the group and are skipped.
   */
  function FirstTreeNextTo(trees: seq<Objects.Tree>, v: Cell, tileSize: int, k: nat): (r: Option<nat>)
    requires tileSize > 0
    reads trees
    ensures r.Some? ==> k <= r.value < |trees| && NextTo(trees[r.value], v, tileSize)
    ensures forall j :: k <= j < |trees| && (r.None? || j < r.value) ==> !NextTo(trees[j], v, tileSize)
    decreases |trees| - k
  {
    if k >= |trees| then None
    else if NextTo(trees[k], v, tileSize) then Some(k)
    else FirstTreeNextTo(trees, v, tileSize, k + 1)
  }

  class WoodVillager {
    /** The host sprite's `rect` and `last_move_direction`. */
    var rect: Rect
    var lastFacing: Facing
    var woodCarried: int
    var maxWoodCapacity: int
    /** Set to False by `__init__` and never reassigned by the mixin. */
    const usingAxe: bool
    var chopping: bool
    var lastChopTime: int

    function Model(): Wood
      reads this
    {
      Wood(woodCarried, maxWoodCapacity, chopping, lastChopTime)
    }

    /** `__init__` for a host whose sprite occupies `rect` and last faced `lastFacing`. */
    constructor(rect: Rect, lastFacing: Facing)
      ensures Model() == Wood(0, Capacity, false, 0) && !usingAxe
      ensures this.rect == rect && this.lastFacing == lastFacing
    {
      this.rect, this.lastFacing := rect, lastFacing;
      woodCarried, maxWoodCapacity := 0, Capacity;
      usingAxe, chopping, lastChopTime := false, false, 0;
    }

    /** `can_drop_wood`: a "home" tile is one of the villager's neighbours on the map. */
    function CanDropWood(ctx: Context): (r: bool)
      requires ctx.Valid()
      reads this
      ensures r <==> exists f :: HasLabel(ctx.worldMap, Neighbour(CellOf(rect, ctx.tileSize), f), "home")
    {
      CanReach(ctx.worldMap, CellOf(rect, ctx.tileSize), "home")
    }

    /** `can_chop_tree`: a "tree" tile is one of the villager's neighbours on the map. */
    function CanChopTree(ctx: Context): (r: bool)
      requires ctx.Valid()
      reads this
      ensures r <==> exists f :: HasLabel(ctx.worldMap, Neighbour(CellOf(rect, ctx.tileSize), f), "tree")
    {
      CanReach(ctx.worldMap, CellOf(rect, ctx.tileSize), "tree")
    }

    /** `get_tree_direction`: towards the first neighbouring tree tile, else the last facing. */
    function GetTreeDirection(ctx: Context): (f: Facing)
      requires ctx.Valid()
      reads this
      ensures CanChopTree(ctx) ==> HasLabel(ctx.worldMap, Neighbour(CellOf(rect, ctx.tileSize), f), "tree")
      ensures !CanChopTree(ctx) ==> f == lastFacing
    {
      NodeDirection(ctx.worldMap, CellOf(rect, ctx.tileSize), "tree", lastFacing)
    }

    method DropWood(gs: GameState, ctx: Context) returns (dropped: int)
      requires ctx.Valid()
      modifies this, gs
      ensures old(woodCarried > 0 && CanDropWood(ctx)) ==>
        dropped == old(woodCarried) && Model() == old(Model()).(carried := 0) &&
        gs.Model() == Deposited(old(gs.Model()), dropped, true)
      ensures !old(woodCarried > 0 && CanDropWood(ctx)) ==>
        dropped == 0 && Model() == old(Model()) && gs.Model() == old(gs.Model())
      ensures rect == old(rect) && lastFacing == old(lastFacing)
    {
      if woodCarried > 0 && CanDropWood(ctx) {
        dropped := woodCarried;
        woodCarried := 0;
        gs.AddWood(dropped);
        gs.UpdateScore(dropped as real * WoodScore);
      } else {
        dropped := 0;
      }
    }

    /**
     * `gather_wood_from_tree(tree_sprites)`: acts on the first tree of the group
     * next to the villager, even with a full load, and reports whether there was
     * one; every other tree is left alone. The group here holds trees of
     * src/objects.py, which carry wood; `GatherOnBoardAsWritten` is the call on
     * the group the board fills.
     */
    method GatherWoodFromTree(trees: seq<Objects.Tree>, ctx: Context) returns (found: bool)
      requires ctx.Valid()
      modifies this, trees
      ensures var i := old(FirstTreeNextTo(trees, CellOf(rect, ctx.tileSize), ctx.tileSize, 0));
        var (w, took) := Gathered1(old(Model()), i.Some?);
        (found <==> i.Some?) && Model() == w &&
        (i.Some? && took > 0 ==>
          trees[i.value].wood == Objects.Reduced(old(trees[i.value].wood), took) &&
          trees[i.value].alive == (old(trees[i.value].alive) && trees[i.value].wood > 0)) &&
        forall j :: 0 <= j < |trees| && (i.None? || took <= 0 || trees[j] != trees[i.value]) ==>
          trees[j].wood == old(trees[j].wood) && trees[j].alive == old(trees[j].alive)
      ensures rect == old(rect) && lastFacing == old(lastFacing)
    {
      var v := CellOf(rect, ctx.tileSize);
      var k := 0;
      while k < |trees|
        invariant 0 <= k <= |trees|
        invariant FirstTreeNextTo(trees, v, ctx.tileSize, k) == FirstTreeNextTo(trees, v, ctx.tileSize, 0)
      {
        var t := trees[k];
        if t.alive && Adjacent(v, CellOf(t.rect, ctx.tileSize)) {
          var g := Min(1, maxWoodCapacity - woodCarried);
          if g > 0 {
            t.ReduceWood(g);
            woodCarried := woodCarried + g;
          }
          return true;
        }
        k := k + 1;
      }
      return false;
    }

    /**
     * `chopping_wood(now)`, where `boardHasTrees` says whether the game context
     * has a board with a tree group and `trees` lists that group.
     */
    method ChoppingWood(now: int, ctx: Context, boardHasTrees: bool, trees: seq<Objects.Tree>) returns (took: int)
      requires ctx.Valid()
      modifies this, trees
      ensures var hit := old(FirstTreeNextTo(trees, CellOf(rect, ctx.tileSize), ctx.tileSize, 0)).Some?;
        (Model(), took) == Chopped(old(Model()), now, boardHasTrees, hit)
      ensures took <= 0 ==> forall j :: 0 <= j < |trees| ==>
        trees[j].wood == old(trees[j].wood) && trees[j].alive == old(trees[j].alive)
      ensures var i := old(FirstTreeNextTo(trees, CellOf(rect, ctx.tileSize), ctx.tileSize, 0));
        took > 0 ==>
          i.Some? &&
          trees[i.value].wood == Objects.Reduced(old(trees[i.value].wood), took) &&
          trees[i.value].alive == (old(trees[i.value].alive) && trees[i.value].wood > 0) &&
          forall j :: 0 <= j < |trees| && trees[j] != trees[i.value] ==>
            trees[j].wood == old(trees[j].wood) && trees[j].alive == old(trees[j].alive)
      ensures rect == old(rect) && lastFacing == old(lastFacing)
    {
      took := 0;
      if now - lastChopTime >= HarvestInterval {
        if boardHasTrees {
          var before := woodCarried;
          var found := GatherWoodFromTree(trees, ctx);
          took := woodCarried - before;
          if !found {
            chopping := false;
          }
        }
        lastChopTime := now;
      }
    }
  }
}
