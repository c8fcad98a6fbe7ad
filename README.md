# Village simulation core

A model of the grid simulation behind a small top-down village game.

The world is a labelled tile map ("grass", "tree", "home", ...). The board turns it into:

- a grid of named cells with a fog of war;
- an obstacle group and a tree group of sprites;
- a list of cell labels.

The board spawns units and, every frame, moves villagers and scouts, lifts the fog under them, and pushes them out of one another and out of obstacles. Units without health leave the board.

Harvesting villagers walk to trees or berry bushes, gather one unit per second up to a capacity of 10, walk home, and drop their load into the shared game state. A dropped unit of wood scores 1.2 points; a unit of food scores 1. Trees and berry bushes lose what is taken and leave their groups when empty.

The modules follow the repository's files:

| module | file | models |
|---|---|---|
| `Geometry` | `geometry.dfy` | pygame rectangles, `colliderect`, `clamp_ip`, pixel-to-cell division, facings and direction vectors |
| `World` | `world.dfy` | the tile map and the shared game context (map, tile size, home cell, world size) |
| `CellIds` | `cell_ids.dfy` | the two-letter row prefixes and cell ids; Python's substring test `x in s` |
| `Grid` | `grid.dfy` | what `create_map` and `reveal_cell` in `src/board.py` compute |
| `Movement` | `movement.dfy` | the reverse, AI reroll, step and bounds rules shared by `src/villager.py` and `src/scout.py` |
| `Economy` | `game_state.dfy` | `src/game_state.py` |
| `Objects` | `objects.dfy` | the trees and berry bushes of `src/objects.py` |
| `HarvestRules` | `harvest_rules.dfy` | the rules behind `src/villager/villager.py`, as functions |
| `Harvesters` | `harvesters.dfy` | the classes `Villager`, `WoodVillager` and `FoodVillager` of `src/villager/villager.py` |
| `WoodMixin` | `wood_mixin.dfy` | the wood-cutting mixin of `src/villager/wood_villager.py` |
| `WanderingVillager` | `wandering.dfy` | the keyboard- and AI-driven villager of `src/villager.py` |
| `Scouts` | `scout.dfy` | `src/scout.py` |
| `Collisions` | `collisions.dfy` | the phases of `Board.run`, as functions of the units and the fog |
| `Boards` | `board.dfy` | the `Board` class of `src/board.py` |

## Form of the model

Objects whose fields the game updates in place are Dafny classes. Their methods have `modifies` clauses and are proved against specification functions over their state:

- `GameState`, `Tree` and `BerryBush`;
- the three villager classes and the wood mixin;
- the scout;
- the board.

Loops of the source are methods with loop invariants. These include:

- the nested loops of `create_map`;
- the pair loop of `avoid_unit_collisions`;
- the obstacle loop of `avoid_collisions`;
- the fog and removal loops of `run`;
- the searches of `spawn_position` and of the walk home.

Units on the board are values (`Body`, `ScoutState`) held in two ordered sequences. The grid sprites are represented by the set of cells they cover, together with the subset whose fog is lifted (alpha 20 instead of 200).

The clock, the keyboard and the random draws are inputs of each tick:

- `now`, the current time from the pygame clock;
- `keyC` and `keyP`, the state of the 'c' and 'p' keys;
- `choice`, `duration`, `pick` and `picks`, the random draws.

Whether the game context's board has a tree or berry-bush group (`hasattr` in the source) is a parameter.

## Behaviour the model preserves

Points where the code and its comments or documentation part ways. The model follows the code, except in the two gathers listed under "## Findings". Each raises as written; the model keeps both an as-written member and the corrected operation that the rest of the model uses.

- `tile_type in ('tree')` tests for a substring, since `('tree')` is a string and not a tuple (`src/board.py:108-110`). For labels of four or more characters this is equality. Exactly the contiguous parts of "tree" pass the tree test ("t", "re", "ee", the empty string, ...), and likewise for "home". A cell without a label (`None`) makes the test raise.
- `add_villager` tests `if pos and cell_id`. A position tuple is always truthy, so only the cell id matters.
- The board spawns base villagers (`src/villager/villager.py`), which have no reverse flag. So `avoid_unit_collisions` only ever flags scouts, and a villager pushed out of an obstacle does not turn round.
- `gather_wood_from_tree` in `src/villager/villager.py` always returns True. This makes the "stop chopping" branch of `chopping_wood` unreachable.
- That same gather takes wood from the tree it is given even when that tree has none left. `reduce_wood` floors at 0, and the villager still gains the unit. This is modelled as written.
- The board has no `berry_bush_sprites`, so `gathering_food` never gathers on the real board. The model takes the presence of that group as the parameter `boardHasBushes`.
- At home means one step from the home cell. Standing on it does not count.
- The base `Villager.__init__` of `src/villager/villager.py` sets neither `ai_mode` nor `agent_controlled`. The model starts them at true and false. No code of that class reads them.
- `GameState.reset` clears score and stocks but leaves `game_over` as it was.

## Model

| member | source | states |
|---|---|---|
| Geometry.RectAround | src/villager/villager.py:28 | a surface's rectangle placed by its centre has exactly that centre and that size |
| Geometry.CollideSymmetric | src/board.py:126 | rectangle overlap does not depend on the order of the two rectangles |
| Geometry.Clamp | src/villager/villager.py:143-144 | `clamp_ip` keeps the size, puts a rectangle that fits entirely within the bounds, and leaves one already inside where it is |
| Geometry.CenterInCell | src/board.py:149-152 | the pixel centre of a cell mapped back by floor division is that cell again |
| World.Offset | src/villager/villager.py:110-115 | every facing is a non-zero unit vector along one axis |
| World.FacingOf | src/villager.py:195-206 | the facing of a non-zero axis vector is the one whose unit vector it is (the inverse of `Offset`) |
| World.Neighbour | src/villager/villager.py:105-116 | each listed neighbour is at Manhattan distance 1 |
| World.NeighboursAtDistanceOne | src/villager/villager.py:105-116 | the four listed neighbours are exactly the cells at Manhattan distance 1 |
| World.FirstNeighbourLabelled | src/villager/wood_villager.py:94-120 | the first of up, down, left, right whose cell is on the map and carries the label; none exactly when no neighbour does |
| CellIds.NatToString | src/board.py:101 | `str(col)` is non-empty and a single digit exactly for columns below 10 |
| CellIds.NatToStringInjective | src/board.py:101 | different columns print differently |
| CellIds.RowPrefix | src/board.py:94-98 | each row prefix is two lower-case letters |
| CellIds.RowPrefixInjective | src/board.py:94-98 | different rows get different prefixes |
| CellIds.CellId | src/board.py:101 | a cell id is at least three characters and starts with its row's prefix |
| CellIds.CellIdInjective | src/board.py:94-101 | a cell id determines its row and column |
| CellIds.LongSubstringIsEqual | src/board.py:108-110 | a substring test against a string no longer than the label is an equality test |
| CellIds.TreeTestIsEqualityForLongLabels | src/board.py:108-110 | for labels of four or more characters, `in ('tree')` and `in ('home')` agree with equality |
| CellIds.TreeTestExactly | src/board.py:108 | a label passes `in ('tree')` exactly when it is one of the ten contiguous parts of "tree", the empty label included |
| CellIds.HomeTestExactly | src/board.py:110 | a label passes `in ('home')` exactly when it is one of the eleven contiguous parts of "home", the empty label included |
| Grid.GridSize | src/board.py:86-93 | with a map whose first row is non-empty, the grid has the map's rows and its first row's columns |
| Grid.GridSizeFromPixels | src/board.py:90-92 | without such a map, the grid has as many whole tiles as fit in the board's pixel height and width |
| Grid.BuildsStep | src/board.py:96-104 | a grid that builds, extended by a fully labelled row within the prefix limit, still builds |
| Grid.UnlabelledRowFails | src/board.py:102-108 | a row with an unlabelled cell stops every grid that contains it from building |
| Grid.RowLabels | src/board.py:116 | each row appends one label entry per column |
| Grid.GridLabelsLength | src/board.py:96-116 | `cell_labels` ends with rows × cols entries |
| Grid.GridLabelsPrefix | src/board.py:96-116 | the entries of fewer rows are a prefix of those of more rows: entries are only appended |
| Grid.RowLabelAt | src/board.py:99-116 | entry k of a row is the entry of cell (row, k) |
| Grid.RowFollows | src/board.py:96-116 | row r's entries come directly after those of the rows before it |
| Grid.LabelsRowMajor | src/board.py:96-116 | the entry at r × cols + c names cell (r, c) and gives the centre of that cell |
| Grid.LabelIdsDistinct | src/board.py:94-116 | two different cells of the grid carry different ids in `cell_labels` |
| Grid.CellObstacles | src/board.py:108-111 | a cell adds at most two obstacle sprites (tree, then home) |
| Grid.CellTrees | src/board.py:108-109 | a cell adds one tree sprite exactly when its label passes the tree test, and it is the same sprite as its first obstacle |
| Grid.TreeInItsCell | src/board.py:105-109 | a tree sprite is centred in the cell that created it and carries that cell's id |
| Grid.RowSpritesStep | src/board.py:107-111 | the next cell of a row appends exactly its own sprites to a group |
| Grid.RowTreesAreObstacles | src/board.py:108-111 | within a row, every tree sprite is also an obstacle, and there are at most as many trees as cells |
| Grid.TreesAreObstacles | src/board.py:96-111 | every tree sprite of the grid is also an obstacle, and there are at most rows × cols trees |
| Grid.RowBuildEmpty | src/board.py:99 | a row of no cells changes nothing |
| Grid.RowLabelsStep | src/board.py:116 | the next cell of a row appends exactly its own label entry |
| Grid.RowGroupStep | src/board.py:108-111 | the next cell of a row appends exactly its own sprites after what the group held |
| Grid.RowCellsStep | src/board.py:112-113 | the next cell of a row adds exactly its own grid cell |
| Grid.RowBuildStep | src/board.py:99-116 | one pass of the inner loop turns the layout after c cells into the layout after c + 1 |
| Grid.GridBuildEmpty | src/board.py:96 | a grid of no rows changes nothing |
| Grid.GridBuildStep | src/board.py:96-116 | one pass of the outer loop turns the layout after r rows into the layout after r + 1 |
| Grid.BuildFromEmpty | src/board.py:25-45 | on a new board, `create_map` lists the rows × cols labels in row-major order, covers exactly the grid's cells, and every tree is also an obstacle |
| Grid.RowCells | src/board.py:113 | a row's grid cells are exactly its first c columns |
| Grid.GridCells | src/board.py:113 | the keys of `grid_sprites` are exactly the cells of the grid |
| Grid.GridCellsStep | src/board.py:96-113 | each row adds its own cells to the keys of `grid_sprites` |
| Grid.RowFogExactly | src/board.py:112-115 | within a row, exactly the home cells are free of fog; cells elsewhere keep their state |
| Grid.GridFogExactly | src/board.py:112-115 | after `create_map`, exactly the grid's home cells are free of fog, and cells outside the grid keep their state |
| Grid.Reveal | src/board.py:149-155 | `reveal_cell` lifts the fog of the cell under the pixel when the grid has that cell, and of nothing else |
| Grid.RevealIdempotent | src/board.py:149-155 | revealing the same pixel twice is revealing it once |
| Grid.RevealMonotone | src/board.py:149-155 | revealing preserves inclusion between fog-free sets |
| Movement.Reversed | src/villager.py:193-207 | reversing negates an axis direction and turns the facing to match; a zero direction keeps its facing |
| Movement.ReversedTwice | src/villager.py:193-207 | reversing twice gives back the direction and the facing that matches it |
| Movement.Chosen | src/villager.py:213-232 | a walk choice sets a unit direction whose facing is the chosen one; idling stops and keeps the facing |
| Movement.Bounded | src/villager.py:247-250 | the flag is set exactly when the rectangle left the bounds; an out-of-bounds rectangle no larger than the world is clamped inside it, and one inside is left alone |
| Movement.ClampAxisBetween | src/villager.py:247-249 | clamping never moves a coordinate past a position that was within bounds |
| Movement.BoundedStepIsShort | src/villager.py:243-249 | a unit inside the bounds that steps along one axis and is clamped ends at most `speed` pixels from where it was |
| Movement.ReverseConsumed | src/scout.py:87-101 | a pending reverse is applied to direction and facing and always cleared; nothing else changes |
| Movement.Rerolled | src/scout.py:106-128 | a due reroll sets the chosen direction and a period that starts now; before it is due nothing changes |
| Movement.Moved | src/villager.py:236-250 | the step by `direction * speed` and the clamp; a unit that left the bounds will reverse; staying inside the world it stays inside |
| Movement.Advance | src/villager.py:193-250 | after the movement phases the snapshot is the old rectangle, the reverse flag is set exactly when the step left the bounds, and the unit is inside the world |
| Movement.AdvanceIsShort | src/villager.py:193-250 | starting inside the bounds, one tick displaces a unit by at most its speed |
| Economy.Apply | src/game_state.py:11-34 | each update changes only its own counter; reset zeroes score and stocks and keeps `game_over` |
| Economy.RunMonotone | src/game_state.py:11-28 | between resets, with non-negative amounts, no counter ever decreases |
| Economy.RunWoodTotal | src/game_state.py:11-12 | without a reset, the wood stock is the initial stock plus all wood added |
| Economy.RunAfterReset | src/game_state.py:30-34 | a reset forgets everything before it except `game_over` |
| Economy.ResourcesOf | src/game_state.py:20-25 | the reported resources are the wood, gold and food stocks |
| Economy.ResourcesIgnoreScore | src/game_state.py:20-28 | updating the score does not change the reported resources |
| Economy.GameState.constructor | src/game_state.py:4-9 | all counters start at zero and the game is not over |
| Economy.GameState.AddWood | src/game_state.py:11-12 | adds the amount to the wood stock only |
| Economy.GameState.AddGold | src/game_state.py:14-15 | adds the amount to the gold stock only |
| Economy.GameState.AddFood | src/game_state.py:17-18 | adds the amount to the food stock only |
| Economy.GameState.GetResources | src/game_state.py:20-25 | reports the three stocks |
| Economy.GameState.UpdateScore | src/game_state.py:27-28 | adds the points to the score only |
| Economy.GameState.Reset | src/game_state.py:30-34 | zeroes score and stocks, keeping `game_over` |
| Objects.Reduced | src/objects.py:17-21 | what is left is never negative, never more than before, and exactly level − amount while that is non-negative |
| Objects.ReducedAllIsReducedSum | src/objects.py:17-21 | taking non-negative amounts one after another leaves the same as taking their total at once |
| Objects.Tree.constructor | src/objects.py:7-15 | a new tree is centred where placed, holds 25 wood of 25 and belongs to its groups |
| Objects.Tree.ReduceWood | src/objects.py:17-21 | wood is reduced and floored at 0, and a tree left without wood leaves its groups |
| Objects.BerryBush.constructor | src/objects.py:42-50 | a new bush is centred where placed, holds 15 berries of 15 and belongs to its groups |
| Objects.BerryBush.ReduceBerries | src/objects.py:52-56 | berries are reduced and floored at 0, and an empty bush leaves its groups |
| HarvestRules.InitialBody | src/villager/villager.py:9-31 | a new villager has 100 health and speed 2, stands still and is centred where placed |
| HarvestRules.BaseTick | src/villager/villager.py:130-144 | the base update snapshots the rectangle, steps, and clamps into the world; only `rect`, `prev_rect` and `is_moving` change |
| HarvestRules.HarvesterTick | src/villager/villager.py:458-477 | after the base update a busy harvester stands still facing its last way; an idle one records its facing when moving |
| HarvestRules.AdjacentIffDistanceOne | src/villager/villager.py:105-116 | the listed neighbours are exactly the cells one step away |
| HarvestRules.IsAtHomeIffDistanceOne | src/villager/villager.py:118-128 | `is_at_home` holds exactly when a home cell is set and the villager is one step from it |
| HarvestRules.CanReach | src/villager/villager.py:185-197 | `can_chop_tree` holds exactly when some neighbour on the map carries "tree"; never on an empty map |
| HarvestRules.NodeDirection | src/villager/villager.py:389-404 | the direction is the first one towards a tree neighbour, else the last move direction when no neighbour is a tree |
| HarvestRules.CanReachIffDirectionFound | src/villager/villager.py:389-404 | the direction search finds a tree exactly when `can_chop_tree` holds |
| HarvestRules.IsAtTargetNearby | src/villager/villager.py:199-214 | `is_at_tree` and `is_at_berry_bush` (src/villager/villager.py:528-543) are false without a target and true at its centre; they are symmetric, and hold only when the two centres lie in the same or neighbouring cells on both axes |
| HarvestRules.StepToward | src/villager/villager.py:229-243 | one unit step along the axis of the larger distance (y on ties), zero only at the target, each step closing the distance by one |
| HarvestRules.WalkToward | src/villager/villager.py:216-270 | with a target, the villager gets the step towards it, the matching facing and AI off; without one, nothing changes |
| HarvestRules.WalkTowardStopsOnlyAtTarget | src/villager/villager.py:199-270 | the walk reports no move exactly when the centres coincide, and then `is_at_tree` holds |
| HarvestRules.ScanStepFindsFree | src/villager/villager.py:310-320 | the scan has a best target exactly when some candidate so far was free |
| HarvestRules.ScanStepTakes | src/villager/villager.py:316-320 | a free candidate strictly closer than the best so far becomes the first closest |
| HarvestRules.ScanStepKeeps | src/villager/villager.py:310-320 | any other candidate leaves the best so far the first closest |
| HarvestRules.BestTargetFrom | src/villager/villager.py:307-320 | the scan keeps its invariant over any list of candidates |
| HarvestRules.BestTargetIsFirstClosest | src/villager/villager.py:299-323 | the target is the first free neighbour of home at minimal distance; there is none only when no neighbour of home is free |
| HarvestRules.CandidateMoves | src/villager/villager.py:336-360 | one move per axis with a non-zero delta, each one step closer to the target; the horizontal move comes first exactly when the horizontal delta is strictly larger (vertical first on ties); two moves are on different axes; none exactly when the villager's cell is the target |
| HarvestRules.FirstFreeMove | src/villager/villager.py:363-378 | a candidate move onto a free cell; none exactly when every candidate is blocked |
| HarvestRules.FirstFreeMoveIsFirst | src/villager/villager.py:363-378 | the move taken is the first free candidate: every candidate before it is out of bounds or a tree |
| HarvestRules.CandidateMoveCloser | src/villager/villager.py:336-365 | every candidate move lands one step closer to the target |
| HarvestRules.HomeStepProgress | src/villager/villager.py:277-387 | every step of the walk home lands on a free cell one step closer to the first closest free neighbour of home |
| HarvestRules.Gathered | src/villager/villager.py:173 | a gather takes at most 1; it takes something exactly when there is room, and never fills past capacity |
| HarvestRules.LoadAfterIsCapped | src/villager/villager.py:170-183 | repeated gathers fill one unit at a time up to the capacity and no further |
| HarvestRules.GatherConserves | src/villager/villager.py:173-176 | while the node has stock, a gather moves exactly what it takes from the node to the villager |
| HarvestRules.HarvestsSpaced | src/villager/villager.py:413-419 | harvests happen at least 1000 ms apart, the first at least 1000 ms after the last recorded one |
| HarvestRules.Deposited | src/villager/villager.py:162-166 | a drop adds the amount to its stock and 1.2 points per unit of wood, 1 per unit of food, to the score |
| HarvestRules.FirstHomeInRow | src/villager/villager.py:82-85 | the first column of the row labelled "home" |
| HarvestRules.FirstHome | src/villager/villager.py:79-87 | the first home cell in row-major order; none exactly when no cell is labelled "home" |
| HarvestRules.FirstLabelNear | src/villager/villager.py:92-96 | the first label whose centre is within half a tile on both axes; none exactly when there is no such label |
| Harvesters.ShouldDropIffNoRoom | src/villager/villager.py:272-275 | `should_drop_wood` and `should_drop_food` (src/villager/villager.py:601-604) hold for a valid load exactly when it is full, that is when a gather would take nothing |
| Harvesters.Gathering | src/villager/villager.py:170-183 | takes one unit while there is room; reaching capacity stops the work and sends the villager home; a full villager changes nothing |
| Harvesters.Dropped | src/villager/villager.py:159-168 | with a load and home adjacent, the whole load goes into the counters and its amount is returned; otherwise nothing changes and 0 is returned |
| Harvesters.DropConserves | src/villager/villager.py:159-168 | a drop moves the load into the wood stock without losing or creating any |
| Harvesters.Worked | src/villager/villager.py:406-419 | the villager chops; a due harvest with the node group on the board takes exactly one unit when there is room and none otherwise, adds it to the load and restarts the timer; reaching capacity stops the work and starts the walk home; load stays within capacity |
| Harvesters.WorkSpacing | src/villager/villager.py:413-419 | two harvests by consecutive calls are at least 1000 ms apart |
| Harvesters.WorkStaysValid | src/villager/villager.py:406-419 | any number of work calls keeps the load within capacity |
| Harvesters.GatherFoodAsWritten | src/villager/villager.py:718-731 | the gather as written raises exactly when there is room to gather |
| Harvesters.FirstFoodGatherRaises | src/villager/villager.py:723 | a new food villager's first gather raises |
| Harvesters.WalkedHome | src/villager/villager.py:277-387 | the walk home sets the direction and facing of the step it finds and nothing else; with no step nothing changes |
| Harvesters.ChooseHomeStep | src/villager/villager.py:281-378 | the loops of the walk home find the step that `HomeStep` specifies |
| Harvesters.SpawnBesideHome | src/villager/villager.py:88-97 | with a home off the first column, the villager appears in the cell left of it, next to home, and gets an id exactly when some label lies within half a tile of that spot |
| Harvesters.SpawnFallback | src/villager/villager.py:98-103 | without a usable home, the spawn falls back to the randomly picked label and yields nothing only for an empty label list |
| Harvesters.Villager.constructor | src/villager/villager.py:9-31 | a new base villager is the initial body |
| Harvesters.Villager.Update | src/villager/villager.py:130-144 | the base update is the base tick |
| Harvesters.Villager.SpawnPosition | src/villager/villager.py:73-103 | the loops of `spawn_position` compute the specified spawn spot |
| Harvesters.WoodVillager.constructor | src/villager/villager.py:148-157 | a new woodcutter is the initial body, carries nothing, has capacity 10, is not chopping, last harvested at time 0, and has its axe put away |
| Harvesters.WoodVillager.DropWood | src/villager/villager.py:159-168 | as `Dropped` on the villager's load and the game state |
| Harvesters.WoodVillager.GatherWoodFromTree | src/villager/villager.py:170-183 | the load follows `Gathering`; the tree loses what the villager takes; the call always reports a tree |
| Harvesters.WoodVillager.WalkToTree | src/villager/villager.py:216-270 | as `WalkToward` towards the tree's rectangle; no tree, no change |
| Harvesters.WoodVillager.WalkHomeToDropWood | src/villager/villager.py:277-387 | as `WalkedHome` |
| Harvesters.WoodVillager.ChoppingWood | src/villager/villager.py:406-419 | as `Worked`; the tree loses exactly what was taken, and nothing when nothing was taken |
| Harvesters.WoodVillager.Update | src/villager/villager.py:458-477 | the harvester tick with `chopping` as the busy flag |
| Harvesters.FoodVillager.constructor | src/villager/villager.py:481-489 | a new gatherer is the initial body, carries nothing, has capacity 10, is not gathering and last harvested at time 0 |
| Harvesters.FoodVillager.DropFood | src/villager/villager.py:491-500 | as `Dropped` for food |
| Harvesters.FoodVillager.GatherFoodFromBerryBush | src/villager/villager.py:718-731 | the corrected gather: the load follows `Gathering` and the bush loses what is taken through `reduce_berries` |
| Harvesters.FoodVillager.WalkToBerryBush | src/villager/villager.py:545-599 | as `WalkToward` towards the bush's rectangle; no bush, no change |
| Harvesters.FoodVillager.WalkHomeToDropFood | src/villager/villager.py:606-716 | as `WalkedHome` |
| Harvesters.FoodVillager.GatheringFood | src/villager/villager.py:733-748 | as `Worked`, gathering through the corrected gather; the bush loses exactly what was taken, and leaves its groups when empty |
| Harvesters.FoodVillager.Update | src/villager/villager.py:778-797 | the harvester tick with `gathering` as the busy flag |
| WoodMixin.Gathered1 | src/villager/wood_villager.py:47-67 | with a tree next to the villager one unit is taken while there is room; the load stays within capacity; no tree, no change |
| WoodMixin.Chopped | src/villager/wood_villager.py:122-133 | a due chop with a tree group takes exactly one unit when a tree is next to the villager and there is room, none otherwise, and adds it to the load; it stops chopping when no tree was next to the villager and restarts the timer |
| WoodMixin.ChopWithoutTreeStops | src/villager/wood_villager.py:122-133 | a due chop with no tree next to the villager stops chopping and takes nothing |
| WoodMixin.GatherOnBoardAsWritten | src/villager/wood_villager.py:47-67 | as written, on the board's src/trees.py sprites: the gather raises exactly when a tree is next to the villager and there is room, and otherwise reports whether it found a tree |
| WoodMixin.FirstBoardGatherRaises | src/villager/wood_villager.py:64 | a fresh woodcutter's first gather next to a board tree raises |
| WoodMixin.FirstTreeNextTo | src/villager/wood_villager.py:52-60 | the first live tree of the group whose cell is next to the villager; none exactly when no such tree exists |
| WoodMixin.WoodVillager.constructor | src/villager/wood_villager.py:6-14 | a new mixin carries nothing, has capacity 10 and is not chopping |
| WoodMixin.WoodVillager.CanDropWood | src/villager/wood_villager.py:16-34 | holds exactly when a neighbour on the map is labelled "home" |
| WoodMixin.WoodVillager.CanChopTree | src/villager/wood_villager.py:69-92 | holds exactly when a neighbour on the map is labelled "tree" |
| WoodMixin.WoodVillager.GetTreeDirection | src/villager/wood_villager.py:94-120 | towards a tree neighbour when there is one, else the last move direction |
| WoodMixin.WoodVillager.DropWood | src/villager/wood_villager.py:36-45 | with a load and a home neighbour, the load goes into the game state with 1.2 points per unit; otherwise nothing changes |
| WoodMixin.WoodVillager.GatherWoodFromTree | src/villager/wood_villager.py:47-67 | the corrected gather, over src/objects.py trees: acts on the first tree next to the villager, reports whether there was one, reduces that tree's wood by what is taken, and leaves every other tree alone |
| WoodMixin.WoodVillager.ChoppingWood | src/villager/wood_villager.py:122-133 | as `Chopped`, through the corrected gather; when wood was taken, the first tree next to the villager loses it and every other tree keeps its wood, and no tree changes when nothing was taken |
| WanderingVillager.Initial | src/villager.py:13-50 | a new villager has 100 health, AI on, no pending reverse, speed 2, stands still and is centred where placed |
| WanderingVillager.Toggled | src/villager.py:177-191 | a key flips its toggle only on the tick it goes down; nothing else changes |
| WanderingVillager.Finished | src/villager.py:252-271 | chopping stops the villager and faces it its last way; otherwise the direction stays |
| WanderingVillager.Tick | src/villager.py:173-271 | one update: toggles, reverse, snapshot, reroll, step and clamp, animation state; health untouched by the bounds |
| WanderingVillager.ReverseFlagIffOut | src/villager.py:247-250 | a reverse is requested exactly when the step left the bounds |
| WanderingVillager.RerollWaits | src/villager.py:213-234 | a reroll postpones the next one by 500 to 2000 ms |
| WanderingVillager.HeldKeyTogglesOnce | src/villager.py:179-184 | holding 'c' over two ticks flips the axe toggle once |
| WanderingVillager.TickIsShort | src/villager.py:193-250 | starting inside the bounds, a tick moves the villager by at most its speed |
| WanderingVillager.Villager.constructor | src/villager.py:13-50 | the initial state |
| WanderingVillager.Villager.Update | src/villager.py:173-271 | as `Tick` |
| WanderingVillager.Villager.ToggleKeys | src/villager.py:177-191 | as `Toggled` |
| WanderingVillager.Villager.ConsumeReverse | src/villager.py:193-207 | as `ReverseConsumed` on the motion |
| WanderingVillager.Villager.RerollAi | src/villager.py:212-234 | as `Rerolled` on motion and AI timer |
| WanderingVillager.Villager.Move | src/villager.py:236-250 | as `Moved` on the motion |
| WanderingVillager.Villager.FinishAnimation | src/villager.py:252-271 | as `Finished` |
| Scouts.Initial | src/scout.py:8-37 | a new scout has full health, AI on, no pending reverse, speed 2, no discovered trees and is centred where placed |
| Scouts.Penalized | src/scout.py:141-145 | a bounds hit costs 5 health, floored at 0 |
| Scouts.Tick | src/scout.py:83-155 | one update: the movement phases, and a bounds hit costs health and requests a reverse; health stays within 0..100 |
| Scouts.RerollWaits | src/scout.py:106-128 | a reroll postpones the next one by 300 to 1500 ms |
| Scouts.Run | src/scout.py:83-155 | consecutive updates keep the motion invariant |
| Scouts.RunHealth | src/scout.py:141-145 | over any run, health is the start minus 5 per bounds hit, never below 0 |
| Scouts.Scout.constructor | src/scout.py:8-37 | the initial state |
| Scouts.Scout.Update | src/scout.py:83-155 | as `Tick` |
| Scouts.Scout.ConsumeReverse | src/scout.py:87-101 | as `ReverseConsumed` on the motion |
| Scouts.Scout.RerollAi | src/scout.py:106-128 | as `Rerolled` on motion and AI timer |
| Scouts.Scout.Move | src/scout.py:130-145 | the step, and on a bounds hit the penalty, the clamp and a reverse request |
| Collisions.Rects | src/board.py:123 | the unit list is the villagers then the scouts, in group order |
| Collisions.Centres | src/board.py:179-184 | the pixel centres of the units, in order |
| Collisions.RevealAt | src/board.py:178-184 | revealing a list of points only adds grid cells to the fog-free set |
| Collisions.RevealAtExactly | src/board.py:178-184 | exactly the grid cells under some point of the list are added |
| Collisions.HitBeforeStart | src/board.py:123-124 | before the first pair no unit has been found overlapping |
| Collisions.HitBeforeStep | src/board.py:124-126 | visiting pair (i, j) records exactly that pair |
| Collisions.HitBeforeNextRow | src/board.py:124-125 | the state after row i is the state before the first pair of row i + 1 |
| Collisions.HitBeforeAll | src/board.py:124-126 | after all pairs, a unit was hit exactly when it overlaps another unit |
| Collisions.PairVisited | src/board.py:126-131 | visiting a pair keeps the number of scouts |
| Collisions.FlagsUpTo | src/board.py:124-131 | the loop state keeps one entry per scout |
| Collisions.PairVisitedFlags | src/board.py:125-131 | one pass of the inner loop advances the loop's state by one pair |
| Collisions.RowVisitedFlags | src/board.py:124-125 | the end of row i is the start of row i + 1 |
| Collisions.AllVisitedFlags | src/board.py:124-131 | after the loops exactly the scouts overlapping another unit are flagged |
| Collisions.NoneVisitedFlags | src/board.py:123-124 | before the loops nothing is flagged |
| Collisions.Contacted | src/board.py:120-131 | every scout overlapping another unit, villager or scout, will reverse; others are unchanged |
| Collisions.ContactKeepsRects | src/board.py:120-131 | flagging moves nobody |
| Collisions.ContactIsMutual | src/board.py:126-131 | two overlapping scouts both reverse |
| Collisions.FirstObstacle | src/board.py:138 | `spritecollideany`: the first overlapping obstacle in group order; none exactly when none overlaps |
| Collisions.BumpPoints | src/board.py:137-141 | every revealed point is the centre of an obstacle some unit ran into |
| Collisions.BumpPointsComplete | src/board.py:137-141 | conversely, the obstacle centre of every unit that ran into an obstacle is among the revealed points |
| Collisions.BumpRevealsObstacle | src/board.py:137-141 | every unit that runs into an obstacle lifts the fog of that obstacle's cell when the grid has it |
| Collisions.BumpStep | src/board.py:137-141 | one more unit reveals its obstacle's cell, if it hit one |
| Collisions.BumpedVillager | src/board.py:139-144 | a villager that hit an obstacle goes back to its previous rectangle; otherwise unchanged |
| Collisions.BumpedScout | src/board.py:139-147 | a scout that hit an obstacle goes back to its previous rectangle and will reverse; otherwise unchanged |
| Collisions.BumpedVillagers | src/board.py:137-144 | each villager is bumped on its own |
| Collisions.BumpedScouts | src/board.py:137-147 | each scout is bumped on its own |
| Collisions.VillagersBumpedUpTo | src/board.py:137-144 | the loop state keeps one entry per villager |
| Collisions.ScoutsBumpedUpTo | src/board.py:137-147 | the loop state keeps one entry per scout |
| Collisions.NoneBumped | src/board.py:135-137 | before the loop no unit has moved back |
| Collisions.BumpedUpToStep | src/board.py:137-147 | the loop bumps unit e and no other |
| Collisions.AllBumped | src/board.py:137-147 | after the loop every unit has been bumped |
| Collisions.LiveVillagers | src/board.py:189-191 | the sweep never adds a villager |
| Collisions.LiveVillagersExactly | src/board.py:189-193 | exactly the villagers with positive health stay |
| Collisions.LiveVillagersStep | src/board.py:191-193 | the sweep over one more villager keeps it exactly when its health is positive |
| Collisions.LiveScouts | src/board.py:189-193 | the sweep never adds a scout |
| Collisions.LiveScoutsExactly | src/board.py:189-193 | exactly the scouts with positive health stay |
| Collisions.LiveScoutsStep | src/board.py:191-193 | the sweep over one more scout keeps it exactly when its health is positive |
| Collisions.MovedVillagers | src/board.py:175 | every villager takes its base update in the world's bounds |
| Collisions.MovedScouts | src/board.py:176 | every scout takes its update with its own inputs, in the scouts' bounds |
| Collisions.TickInvariant | src/board.py:172-193 | after a frame every unit left has positive health and keeps the unit invariant, no unit is added, and the fog only lifts, over grid cells |
| Boards.Board.constructor | src/board.py:25-40 | the first part of `__init__`: a new board has empty groups, labels, grid and fog, and keeps its size, tile size and map |
| Boards.Board.CreateMap | src/board.py:85-118 | succeeds exactly when the grid builds; then the board holds the specified layout and fog, and records rows and columns |
| Boards.Board.CreateRows | src/board.py:96-116 | the outer loop builds the rows, failing exactly at a row past the prefix limit or with an unlabelled cell |
| Boards.Board.CreateRow | src/board.py:99-116 | the inner loop builds the row, failing exactly at an unlabelled cell |
| Boards.Board.CreateCell | src/board.py:100-116 | one cell: its sprites, grid cell, fog and label entry |
| Boards.Board.AddVillager | src/board.py:47-52 | a base villager is added where `spawn_position` says when it yields a position and a non-empty id; otherwise nothing changes |
| Boards.Board.Reset | src/board.py:61-83 | all units go; with more than two labelled cells a villager, a scout and a villager appear at three distinct random cells |
| Boards.Board.RevealCell | src/board.py:149-155 | as `Reveal` on the board's grid |
| Boards.Board.UpdateUnits | src/board.py:175-176 | villagers and scouts take their updates |
| Boards.Board.RevealUnits | src/board.py:178-184 | the fog lifts under every scout, then every villager |
| Boards.Board.AvoidUnitCollisions | src/board.py:120-131 | the pair loops flag exactly the scouts that overlap another unit |
| Boards.Board.VisitPair | src/board.py:126-131 | one overlapping pair flags those of its units that have a reverse flag |
| Boards.Board.AvoidCollisions | src/board.py:133-147 | the fog lifts over exactly the obstacle cells of `BumpPoints`, which by `BumpRevealsObstacle` include the cell of every obstacle a unit hit; each such unit moves back and, if a scout, will reverse |
| Boards.Board.BumpEntity | src/board.py:138-147 | one unit of the obstacle loop |
| Boards.Board.RemoveDead | src/board.py:189-193 | exactly the units with positive health stay, in order |
| Boards.Board.Run | src/board.py:172-193 | one frame, apart from drawing, is `Collisions.Tick` on the board's units and fog |

## Left out

- Drawing is not modelled: animation frames, images, health bars, the bottom panel and the screen. None of it affects the simulation state.
- Randomness is an input. `random.choices`, `random.randint`, `random.choice`, `random.sample` and `random_name` supply `choice`, `duration`, `pick` and `picks`. Their distributions are not modelled. A villager's name is not modelled.
- The pygame clock and the keyboard are inputs (`now`, `keyC`, `keyP`).
- The score is a real number. The rounding of the float product `dropped * 1.2` is not modelled.
- Directions are integer vectors, zero or one unit along one axis: the only values the code ever sets. `Vector2.normalize` is the identity on these and is not modelled. Positions stay integral.
- pygame sprite groups, `kill` and object identity on the board are not modelled. Board units are values in two sequences, so aliasing of one sprite between groups is not captured.
- Sprite sizes come from images scaled to the tile size. The model takes them as a size parameter.
- `visible_sprites`, `GreenGrass`, `selected_cell_idx`, `last_cell_change`, the board's `discovered_trees` and the `current_game_state.board` link are not modelled. No modelled behaviour reads them.
- `load_map`, `get_config` and the map files are I/O. Width, height, tile size and map are constructor parameters of the board.
- `add_scout` (`src/board.py:54-59`) is not modelled, because `__init__` does not call it. `Scout.spawn_position` is left out for the same reason.
- The `hasattr` tests for a board and its tree or berry-bush group become the parameters `boardHasTrees`, `boardHasBushes` and `boardHasNodes`.
- The home cell is taken as a (row, col) pair or none; its origin, a global game-state field, is not part of this model.
- `is_at_berry_bush` and `get_berry_bush_direction` are the tree functions applied to a bush, so they share `HarvestRules.IsAtTarget` and `HarvestRules.NodeDirection`.
- Boards.Board.CreateMap: when the code raises (`ok` false) the partial state reached before the exception is not described.
- Boards.Board.constructor: covers `__init__` up to its call of `create_map`. The calls of `create_map` and `add_villager` that follow are the methods `CreateMap` and `AddVillager`, which a caller runs after construction; the constructor does not chain them.
- WoodMixin.WoodVillager.GatherWoodFromTree: takes its group as src/objects.py trees, which carry wood. The board's `tree_sprites` holds src/trees.py sprites (src/board.py:10, 109), which have only a rectangle and an id. On those the call raises at src/villager/wood_villager.py:64; `GatherOnBoardAsWritten` models that case (see "## Findings").
- Harvesters.WoodVillager.GatherWoodFromTree: the parameter type `Objects.Tree` (a src/objects.py tree with wood and `reduce_wood`) is chosen by the model. No code in the repository calls `chopping_wood(tree)` of src/villager/villager.py, and the only tree a caller could pass, one picked from the board's `tree_sprites` (agent/rl_agent.py:16-18), is a src/trees.py sprite without `reduce_wood`, on which line 175 would raise.
- WoodMixin.WoodVillager.ChoppingWood: passes the board's tree group (src/villager/wood_villager.py:129) to the corrected gather above, so it gathers where the code as written raises.
- Harvesters.FoodVillager.GatheringFood: uses the corrected `GatherFoodFromBerryBush`. As written, `gathering_food` goes through `gather_food_from_berry_bush`, which raises at src/villager/villager.py:723 on every due gather with room (see "## Findings").
- Ragged maps are excluded. Every operation that reads the map requires it to be rectangular (`World.Rectangular`, through `World.Context.Valid`). The source bounds its column checks by the first row's length only (src/villager/villager.py:193, src/villager/wood_villager.py:31), so a shorter later row would raise IndexError. That error path is not modelled.
- Scouts.Scout.Move: requires that the reverse flag was already consumed. This holds inside `Update`, which consumes it first; `Move` is not a source function on its own.

## Findings

| source | as written | input that shows it | evidently intended | confidence | as-written member | corrected member |
|---|---|---|---|---|---|---|
| src/villager/villager.py:723 | `gather_food_from_berry_bush` calls `berry_bush.reduce_food(...)`, but `BerryBush` defines only `reduce_berries` (src/objects.py:52-56) | a new food villager (0 of 10 food) gathering from any berry bush: the call raises `AttributeError` | take the food through `reduce_berries` | not executed | Harvesters.FirstFoodGatherRaises | Harvesters.FoodVillager.GatherFoodFromBerryBush |
| src/villager/wood_villager.py:64 | `gather_wood_from_tree` calls `tree.reduce_wood(...)` on the members of the board's `tree_sprites`, which are src/trees.py sprites with only a rectangle and an id (src/board.py:10, 109) | a woodcutter with room next to any board tree when a chop falls due: the call raises `AttributeError` | the board's trees are the src/objects.py trees, which carry wood and define `reduce_wood` | not executed | WoodMixin.FirstBoardGatherRaises | WoodMixin.WoodVillager.GatherWoodFromTree |
