/**
 * The world every unit consults: the labelled tile map and the shared game
 * context (`WORLD_MAP`, `TILE_SIZE`, `home_cell`, `WIDTH`, `HEIGHT`), which the
 * game code reads off a global object and this model passes in explicitly.
 */
module World {
  import opened Geometry

  type Label = string

  /** A tile map: rows of labels such as "grass", "tree" and "home". */
  type WorldMap = seq<seq<Label>>

  /** Every row is as long as the first one (true of all shipped maps). */
  predicate Rectangular(m: WorldMap) {
    forall r :: 0 <= r < |m| ==> |m[r]| == |m[0]|
  }

  /** The column count the game code uses: the length of the first row. */
  function Cols(m: WorldMap): nat {
    if |m| == 0 then 0 else |m[0]|
  }

  /** The bounds test `0 <= row < len(map) and 0 <= col < len(map[0])`. */
  predicate InMap(m: WorldMap, c: Cell) {
    0 <= c.row < |m| && 0 <= c.col < Cols(m)
  }

  /** The cell lies on the map and carries `tile`. */
  predicate HasLabel(m: WorldMap, c: Cell, tile: Label)
    requires Rectangular(m)
  {
    InMap(m, c) && m[c.row][c.col] == tile
  }

  /** An entry of the board's `cell_labels`: a cell id and the pixel centre of its cell. */
  datatype CellLabel = CellLabel(id: string, cx: int, cy: int)

  /** The shared game context read by the harvesting villagers. */
  datatype Context = Context(worldMap: WorldMap, tileSize: int, homeCell: Option<Cell>,
                             width: nat, height: nat)
  {
    /** Necessary for the code not to fail: it divides by the tile size and indexes rows by `len(map[0])`. */
    predicate Valid() { tileSize > 0 && Rectangular(worldMap) }
  }

  /** The unit vector of a facing; screen y grows downwards. */
  function Offset(f: Facing): (d: Vec)
    ensures AxisUnitOrZero(d) && d != Zero
  {
    match f
    case Up => Vec(0, -1)
    case Down => Vec(0, 1)
    case Left => Vec(-1, 0)
    case Right => Vec(1, 0)
  }

  /** The facing whose unit vector is `d`, for a non-zero axis-unit vector. */
  function FacingOf(d: Vec): (f: Facing)
    requires AxisUnitOrZero(d) && d != Zero
    ensures Offset(f) == d
  {
    if d == Vec(0, -1) then Up
    else if d == Vec(0, 1) then Down
    else if d == Vec(-1, 0) then Left
    else Right
  }

  /** The neighbouring cell in direction `f`. */
  function Neighbour(c: Cell, f: Facing): (n: Cell)
    ensures Manhattan(c, n) == 1
  {
    Cell(c.row + Offset(f).y, c.col + Offset(f).x)
  }

  /** The order in which the code lists neighbours: up, down, left, right. */
  function Rank(f: Facing): nat {
    match f
    case Up => 0
    case Down => 1
    case Left => 2
    case Right => 3
  }

  /** The four neighbours are exactly the cells at Manhattan distance 1. */
  lemma NeighboursAtDistanceOne(c: Cell, n: Cell)
    ensures Manhattan(c, n) == 1 <==> exists f :: Neighbour(c, f) == n
  {
    if Manhattan(c, n) == 1 {
      if n.row == c.row - 1 { assert Neighbour(c, Up) == n; }
      else if n.row == c.row + 1 { assert Neighbour(c, Down) == n; }
      else if n.col == c.col - 1 { assert Neighbour(c, Left) == n; }
      else { assert Neighbour(c, Right) == n; }
    }
  }

  /**
   * The first of up, down, left, right whose neighbouring cell is on the map
   * and labelled `tile`; None when there is none (in particular on an empty map).
   */
  function FirstNeighbourLabelled(m: WorldMap, c: Cell, tile: Label): (r: Option<Facing>)
    requires Rectangular(m)
    ensures r.Some? ==> HasLabel(m, Neighbour(c, r.value), tile)
    ensures r.Some? ==> forall f :: Rank(f) < Rank(r.value) ==> !HasLabel(m, Neighbour(c, f), tile)
    ensures r.None? <==> forall f :: !HasLabel(m, Neighbour(c, f), tile)
  {
    if HasLabel(m, Neighbour(c, Up), tile) then Some(Up)
    else if HasLabel(m, Neighbour(c, Down), tile) then Some(Down)
    else if HasLabel(m, Neighbour(c, Left), tile) then Some(Left)
    else if HasLabel(m, Neighbour(c, Right), tile) then Some(Right)
    else None
  }

  /** The cell of the map under the centre of a sprite's rectangle. */
  function CellOf(r: Rect, tileSize: int): Cell
    requires tileSize > 0
  {
    CellOfPoint(r.CenterX(), r.CenterY(), tileSize)
  }
}
