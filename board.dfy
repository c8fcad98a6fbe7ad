/**
 * The `Board` of src/board.py: it builds the labelled grid, the obstacle and
 * tree groups and the fog of war from the world map, spawns units, and runs
 * one frame of the simulation. Units are held as values in two ordered
 * groups; the grid sprites are represented by the set of cells they cover
 * and the subset whose fog is lifted (alpha 20 rather than 200).
 */
module Boards {
  import opened Geometry
  import opened World
  import opened CellIds
  import opened Grid
  import opened HarvestRules
  import Harvesters
  import Scouts
  import opened Collisions

  class Board {
    /** What `load_map` returns: the board's pixel size, tile size and map. */
    const width: nat
    const height: nat
    const tileSize: nat
    const worldMap: WorldMap
    /** `current_game_state`, which board villagers read for their bounds, size and spawn map. */
    const ctx: Context

    var mapSize: (nat, nat)
    var gridRows: nat
    var gridCols: nat
    var cellLabels: seq<CellLabel>
    /** The keys of `grid_sprites`. */
    var gridCells: set<Cell>
    /** The keys of `grid_sprites` whose sprite has alpha 20. */
    var revealed: set<Cell>
    var obstacles: seq<Sprite>
    var trees: seq<Sprite>
    var villagers: seq<Body>
    var scouts: seq<Scouts.ScoutState>

    predicate Valid()
      reads this
    {
      tileSize > 0 && ctx.Valid() && UnitsValid(villagers, scouts)
    }

    function Units(): Field
      reads this
    {
      Field(revealed, villagers, scouts)
    }

    function Built(): Layout
      reads this
    {
      Layout(mapSize, gridRows, gridCols, cellLabels, gridCells, obstacles, trees)
    }

    /**
     * The first part of `__init__`: empty groups and labels. `__init__` goes on
     * with `CreateMap` and `AddVillager`.
     */
    constructor(width: nat, height: nat, tileSize: nat, worldMap: WorldMap, ctx: Context)
      requires tileSize > 0 && ctx.Valid()
      ensures Valid()
      ensures this.width == width && this.height == height && this.tileSize == tileSize
      ensures this.worldMap == worldMap && this.ctx == ctx
      ensures Built() == Layout((0, 0), 0, 0, [], {}, [], []) && Units() == Field({}, [], [])
    {
      this.width, this.height, this.tileSize, this.worldMap, this.ctx := width, height, tileSize, worldMap, ctx;
      mapSize, gridRows, gridCols := (0, 0), 0, 0;
      cellLabels, gridCells, revealed := [], {}, {};
      obstacles, trees, villagers, scouts := [], [], [], [];
    }

    /**
     * `create_map`. It returns false where the code raises: it runs out of
     * two-letter row prefixes past row 676, or a cell has no label (the test
     * `None in ('tree')` raises), which is always the case without a map. The
     * state reached before the exception is not described.
     */
    method CreateMap() returns (ok: bool)
      requires tileSize > 0
      modifies this`mapSize, this`gridRows, this`gridCols, this`cellLabels, this`gridCells, this`revealed, this`obstacles, this`trees
      ensures mapSize == GridSize(worldMap, width, height, tileSize)
      ensures ok <==> Builds(worldMap, mapSize.0, mapSize.1)
      ensures ok ==>
        var (rows, cols) := mapSize;
        Built() == GridBuild(old(Built()).(mapSize := mapSize), worldMap, rows, cols, tileSize).(gridRows := rows, gridCols := cols) &&
        revealed == GridFog(old(revealed), worldMap, rows, cols)
    {
      var (rows, cols) := GridSize(worldMap, width, height, tileSize);
      mapSize := (rows, cols);
      ok := CreateRows(rows, cols);
      if ok {
        gridRows, gridCols := rows, cols;
      }
    }

    /** The outer loop of `create_map`: the rows of a grid of rows × cols cells, top to bottom. */
    method CreateRows(rows: nat, cols: nat) returns (ok: bool)
      requires tileSize > 0
      modifies this`cellLabels, this`gridCells, this`revealed, this`obstacles, this`trees
      ensures ok <==> Builds(worldMap, rows, cols)
      ensures ok ==> Built() == GridBuild(old(Built()), worldMap, rows, cols, tileSize) && revealed == GridFog(old(revealed), worldMap, rows, cols)
    {
      var r := 0;
      GridBuildEmpty(old(Built()), worldMap, cols, tileSize);
      while r < rows
        invariant r <= rows && Builds(worldMap, r, cols)
        invariant Built() == GridBuild(old(Built()), worldMap, r, cols, tileSize)
        invariant revealed == GridFog(old(revealed), worldMap, r, cols)
      {
        if r >= RowLimit {
          return false;
        }
        var rowOk := CreateRow(r, cols);
        if !rowOk {
          UnlabelledRowFails(worldMap, r, rows, cols);
          return false;
        }
        BuildsStep(worldMap, r, cols);
        GridBuildStep(old(Built()), worldMap, r, cols, tileSize);
        r := r + 1;
      }
      return true;
    }

    /** The inner loop of `create_map`: the cells of row `r`, left to right. */
    method CreateRow(r: nat, cols: nat) returns (ok: bool)
      requires tileSize > 0 && r < RowLimit
      modifies this`cellLabels, this`gridCells, this`revealed, this`obstacles, this`trees
      ensures ok <==> RowLabelled(worldMap, r, cols)
      ensures ok ==> Built() == RowBuild(old(Built()), worldMap, r, cols, tileSize) && revealed == RowFog(old(revealed), worldMap, r, cols)
    {
      var c := 0;
      RowBuildEmpty(old(Built()), worldMap, r, tileSize);
      while c < cols
        invariant c <= cols
        invariant forall k: nat :: k < c ==> TileAt(worldMap, r, k).Some?
        invariant Built() == RowBuild(old(Built()), worldMap, r, c, tileSize)
        invariant revealed == RowFog(old(revealed), worldMap, r, c)
      {
        var tile := TileAt(worldMap, r, c);
        if tile.None? {
          return false;
        }
        CreateCell(r, c, tile.value);
        RowBuildStep(old(Built()), worldMap, r, c, tileSize);
        c := c + 1;
      }
      return true;
    }

    /** One pass of the inner loop of `create_map`: cell (r, c), whose label is `tile`. */
    method CreateCell(r: nat, c: nat, tile: Label)
      requires tileSize > 0 && r < RowLimit && TileAt(worldMap, r, c) == Some(tile)
      modifies this`cellLabels, this`gridCells, this`revealed, this`obstacles, this`trees
      ensures Built() == CellStep(old(Built()), worldMap, r, c, tileSize)
      ensures revealed == if tile == "home" then old(revealed) + {Cell(r, c)} else old(revealed) - {Cell(r, c)}
    {
      var cell := Cell(r, c);
      var rect := RectAround(CenterX(cell, tileSize), CenterY(cell, tileSize), SpriteSize, SpriteSize);
      if IsSubstring(tile, "tree") {
        obstacles := obstacles + [Sprite(CellId(r, c), rect)];
        trees := trees + [Sprite(CellId(r, c), rect)];
      }
      if IsSubstring(tile, "home") {
        obstacles := obstacles + [Sprite(CellId(r, c), rect)];
      }
      gridCells := gridCells + {cell};
      revealed := if tile == "home" then revealed + {cell} else revealed - {cell};
      cellLabels := cellLabels + [Entry(r, c, tileSize)];
    }

    /**
     * `add_villager`: a base villager where `spawn_position` says, when it
     * yields both a position and a non-empty cell id; `pick` is the random choice.
     */
    method AddVillager(pick: nat)
      requires Valid() && (|cellLabels| > 0 ==> pick < |cellLabels|)
      modifies this`villagers
      ensures Valid()
      ensures var (pos, id) := Harvesters.SpawnSpot(ctx, old(cellLabels), pick);
        if pos.Some? && id.Some? && id.value != "" then
          villagers == old(villagers) + [InitialBody(pos.value.0, pos.value.1, ctx.tileSize as nat)]
        else villagers == old(villagers)
    {
      var pos, id := Harvesters.Villager.SpawnPosition(ctx, cellLabels, pick);
      if pos.Some? && id.Some? && id.value != "" {
        villagers := villagers + [InitialBody(pos.value.0, pos.value.1, ctx.tileSize as nat)];
      }
    }

    /**
     * `reset`: all units are removed; with more than two labelled cells, the
     * cells at the three distinct random indices `picks` receive a villager, a
     * scout and a villager, in that order. Map, fog and labels stay.
     */
    method Reset(picks: seq<nat>)
      requires Valid()
      requires |cellLabels| > 2 ==>
        |picks| == 3 && picks[0] < |cellLabels| && picks[1] < |cellLabels| && picks[2] < |cellLabels| &&
        picks[0] != picks[1] && picks[0] != picks[2] && picks[1] != picks[2]
      modifies this`villagers, this`scouts
      ensures Valid()
      ensures |cellLabels| > 2 ==>
        var a, b, c := cellLabels[picks[0]], cellLabels[picks[1]], cellLabels[picks[2]];
        villagers == [InitialBody(a.cx, a.cy, ctx.tileSize as nat), InitialBody(c.cx, c.cy, ctx.tileSize as nat)] &&
        scouts == [Scouts.Initial(b.cx, b.cy, SpriteSize)]
      ensures |cellLabels| <= 2 ==> villagers == [] && scouts == []
    {
      villagers, scouts := [], [];
      if |cellLabels| > 2 {
        for i := 0 to 3
          invariant Valid()
          invariant var a, s := cellLabels[picks[0]], cellLabels[picks[1]];
            var one := [InitialBody(a.cx, a.cy, ctx.tileSize as nat)];
            (i == 0 ==> villagers == [] && scouts == []) &&
            (i == 1 ==> villagers == one && scouts == []) &&
            (i == 2 ==> villagers == one && scouts == [Scouts.Initial(s.cx, s.cy, SpriteSize)]) &&
            (i == 3 ==> villagers == one + [InitialBody(cellLabels[picks[2]].cx, cellLabels[picks[2]].cy, ctx.tileSize as nat)] &&
                        scouts == [Scouts.Initial(s.cx, s.cy, SpriteSize)])
        {
          var spot := cellLabels[picks[i]];
          if i == 0 {
            villagers := villagers + [InitialBody(spot.cx, spot.cy, ctx.tileSize as nat)];
          } else if i == 1 {
            scouts := scouts + [Scouts.Initial(spot.cx, spot.cy, SpriteSize)];
          } else {
            villagers := villagers + [InitialBody(spot.cx, spot.cy, ctx.tileSize as nat)];
          }
        }
      }
    }

    /** `reveal_cell(x, y)`: lifts the fog of the cell under the pixel, if the grid has it. */
    method RevealCell(x: int, y: int)
      requires tileSize > 0
      modifies this`revealed
      ensures revealed == Reveal(old(revealed), gridCells, x, y, tileSize)
    {
      var cell := CellOfPoint(x, y, tileSize);
      if cell in gridCells {
        revealed := revealed + {cell};
      }
    }

    /** `update` of both groups, villagers first. */
    method UpdateUnits(inputs: seq<Scouts.Input>)
      requires Valid() && |inputs| == |scouts|
      modifies this`villagers, this`scouts
      ensures villagers == MovedVillagers(old(villagers), ctx) && scouts == MovedScouts(old(scouts), inputs)
    {
      var k := 0;
      while k < |villagers|
        invariant k <= |villagers| == |old(villagers)|
        invariant forall j :: 0 <= j < |villagers| ==>
          villagers[j] == if j < k then BaseTick(old(villagers)[j], ctx.width, ctx.height) else old(villagers)[j]
        invariant scouts == old(scouts)
      {
        villagers := villagers[k := BaseTick(villagers[k], ctx.width, ctx.height)];
        k := k + 1;
      }
      k := 0;
      while k < |scouts|
        invariant k <= |scouts| == |old(scouts)|
        invariant forall j :: 0 <= j < |scouts| ==>
          scouts[j] == if j < k then Scouts.Tick(old(scouts)[j], inputs[j], ScoutWidth, ScoutHeight) else old(scouts)[j]
        invariant villagers == MovedVillagers(old(villagers), ctx)
      {
        scouts := scouts[k := Scouts.Tick(scouts[k], inputs[k], ScoutWidth, ScoutHeight)];
        k := k + 1;
      }
    }

    /** The fog loops of `run`: reveal under every scout, then under every villager. */
    method RevealUnits()
      requires tileSize > 0
      modifies this`revealed
      ensures revealed == RevealedUnder(old(revealed), gridCells, villagers, scouts, tileSize)
    {
      var ps := Centres(Rects([], scouts));
      var k := 0;
      while k < |scouts|
        invariant k <= |scouts| == |ps|
        invariant revealed == RevealAt(old(revealed), gridCells, ps[..k], tileSize)
      {
        RevealCell(scouts[k].motion.rect.CenterX(), scouts[k].motion.rect.CenterY());
        assert ps[..k + 1][..k] == ps[..k];
        k := k + 1;
      }
      assert ps[..k] == ps;
      ghost var seen := revealed;
      var qs := Centres(Rects(villagers, []));
      k := 0;
      while k < |villagers|
        invariant k <= |villagers| == |qs|
        invariant revealed == RevealAt(seen, gridCells, qs[..k], tileSize)
      {
        RevealCell(villagers[k].rect.CenterX(), villagers[k].rect.CenterY());
        assert qs[..k + 1][..k] == qs[..k];
        k := k + 1;
      }
      assert qs[..k] == qs;
    }

    /**
     * `avoid_unit_collisions`: each pair i < j of units in group order whose
     * rectangles overlap sets the reverse flag of both, where they have one.
     */
    method AvoidUnitCollisions()
      modifies this`scouts
      ensures scouts == Contacted(old(scouts), Rects(old(villagers), old(scouts)), |old(villagers)|)
    {
      var rs := Rects(villagers, scouts);
      var nv := |villagers|;
      ghost var s0 := scouts;
      assert rs == Rects(old(villagers), old(scouts)) && s0 == old(scouts) && nv == |old(villagers)|;
      NoneVisitedFlags(s0, rs, nv);
      var i := 0;
      while i < |rs|
        invariant 0 <= i <= |rs|
        invariant scouts == FlagsUpTo(s0, rs, nv, i, i + 1)
      {
        var j := i + 1;
        while j < |rs|
          invariant i + 1 <= j <= |rs|
          invariant scouts == FlagsUpTo(s0, rs, nv, i, j)
        {
          PairVisitedFlags(s0, rs, nv, i, j);
          VisitPair(rs, nv, i, j);
          j := j + 1;
        }
        RowVisitedFlags(s0, rs, nv, i);
        i := i + 1;
      }
      AllVisitedFlags(s0, rs, nv);
      assert scouts == Contacted(s0, rs, nv);
    }

    /** One pass of the inner loop of `avoid_unit_collisions`: units i and j overlap. */
    method VisitPair(rs: seq<Rect>, nv: nat, i: nat, j: nat)
      requires |rs| == nv + |scouts| && i < j < |rs|
      modifies this`scouts
      ensures scouts == PairVisited(old(scouts), rs, nv, i, j)
    {
      if Collide(rs[i], rs[j]) {
        if i >= nv {
          scouts := scouts[i - nv := Flagged(scouts[i - nv], true)];
        }
        if j >= nv {
          scouts := scouts[j - nv := Flagged(scouts[j - nv], true)];
        }
      }
    }

    /**
     * `avoid_collisions`: each unit, in group order, that overlaps an obstacle
     * reveals the first such obstacle's cell, goes back to its previous
     * rectangle and, if a scout, will reverse.
     */
    method AvoidCollisions()
      requires tileSize > 0
      modifies this`revealed, this`villagers, this`scouts
      ensures revealed == RevealAt(old(revealed), gridCells, BumpPoints(obstacles, Rects(old(villagers), old(scouts))), tileSize)
      ensures villagers == BumpedVillagers(old(villagers), obstacles) && scouts == BumpedScouts(old(scouts), obstacles)
    {
      var rs := Rects(villagers, scouts);
      var nv := |villagers|;
      ghost var v0, s0 := villagers, scouts;
      NoneBumped(v0, s0, obstacles);
      var e := 0;
      while e < |rs|
        invariant 0 <= e <= |rs|
        invariant revealed == RevealAt(old(revealed), gridCells, BumpPoints(obstacles, rs[..e]), tileSize)
        invariant villagers == VillagersBumpedUpTo(v0, obstacles, e)
        invariant scouts == ScoutsBumpedUpTo(s0, obstacles, nv, e)
      {
        BumpStep(old(revealed), gridCells, obstacles, rs, e, tileSize);
        BumpedUpToStep(v0, s0, obstacles, e);
        BumpEntity(rs, nv, e);
        e := e + 1;
      }
      assert rs[..e] == rs;
      AllBumped(v0, s0, obstacles);
    }

    /** One pass of the loop of `avoid_collisions`: unit `e` of the units in group order, whose rectangle is `rs[e]`. */
    method BumpEntity(rs: seq<Rect>, nv: nat, e: nat)
      requires tileSize > 0 && e < |rs| == nv + |scouts| && |villagers| == nv
      requires e < nv ==> rs[e] == villagers[e].rect
      requires e >= nv ==> rs[e] == scouts[e - nv].motion.rect
      modifies this`revealed, this`villagers, this`scouts
      ensures revealed ==
        match ObstacleCentre(obstacles, rs[e])
        case Some(p) => Reveal(old(revealed), gridCells, p.0, p.1, tileSize)
        case None => old(revealed)
      ensures villagers == if e < nv then old(villagers)[e := BumpedVillager(old(villagers)[e], obstacles)] else old(villagers)
      ensures scouts == if e < nv then old(scouts) else old(scouts)[e - nv := BumpedScout(old(scouts)[e - nv], obstacles)]
    {
      var collided := FirstObstacle(obstacles, rs[e], 0);
      if collided.Some? {
        var o := obstacles[collided.value];
        RevealCell(o.rect.CenterX(), o.rect.CenterY());
        if e < nv {
          villagers := villagers[e := villagers[e].(rect := villagers[e].prevRect)];
        } else {
          var s := scouts[e - nv];
          scouts := scouts[e - nv := s.(motion := s.motion.(rect := s.motion.prevRect, reverseNextMove := true))];
        }
      }
    }

    /** The last loop of `run`: every unit with health at most 0 leaves its group. */
    method RemoveDead()
      modifies this`villagers, this`scouts
      ensures villagers == LiveVillagers(old(villagers)) && scouts == LiveScouts(old(scouts))
    {
      var vs, ss := villagers, scouts;
      var keptVillagers: seq<Body> := [];
      var k := 0;
      while k < |vs|
        invariant k <= |vs|
        invariant keptVillagers == LiveVillagers(vs[..k])
      {
        LiveVillagersStep(vs, k);
        if vs[k].health > 0 {
          keptVillagers := keptVillagers + [vs[k]];
        }
        k := k + 1;
      }
      assert vs[..k] == vs;
      var keptScouts: seq<Scouts.ScoutState> := [];
      k := 0;
      while k < |ss|
        invariant k <= |ss|
        invariant keptScouts == LiveScouts(ss[..k])
      {
        LiveScoutsStep(ss, k);
        if ss[k].health > 0 {
          keptScouts := keptScouts + [ss[k]];
        }
        k := k + 1;
      }
      assert ss[..k] == ss;
      villagers, scouts := keptVillagers, keptScouts;
    }

    /**
     * `run` without drawing: one frame of the simulation, scout k drawing its
     * clock and random choices from `inputs[k]`.
     */
    method Run(inputs: seq<Scouts.Input>)
      requires Valid() && |inputs| == |scouts|
      modifies this`revealed, this`villagers, this`scouts
      ensures Valid()
      ensures Units() == Tick(old(Units()), gridCells, obstacles, inputs, ctx, tileSize)
    {
      ghost var f0 := Units();
      UpdateUnits(inputs);
      ghost var vs, ss := villagers, scouts;
      RevealUnits();
      ghost var seen := revealed;
      ghost var rs := Rects(vs, ss);
      AvoidUnitCollisions();
      ContactKeepsRects(vs, ss, rs);
      AvoidCollisions();
      ghost var bumped := revealed;
      RemoveDead();
      assert Units() == Field(bumped, villagers, scouts);
      assert Tick(f0, gridCells, obstacles, inputs, ctx, tileSize) == Field(bumped, villagers, scouts);
      TickInvariant(f0, gridCells, obstacles, inputs, ctx, tileSize);
    }
  }
}
