/**
 * What `create_map` and `reveal_cell` of src/board.py compute: the grid size,
 * the labelled cells in row-major order, the tree and home sprites, and the
 * fog of war, as functions of the cells processed so far. Cells are numbered
 * row-major: cell `k` of a grid with `cols` columns is (k / cols, k % cols).
 */
module Grid {
  import opened Geometry
  import opened World
  import opened CellIds

  /** `settings.TILE_SIZE`: the pixel size of tree, home and scout sprites. */
  const SpriteSize := 64

  /** A sprite of an obstacle or tree group: its cell id and rectangle. */
  datatype Sprite = Sprite(id: string, rect: Rect)

  /** `tile_type`: the map's label where the row has the column, else None. */
  function TileAt(m: WorldMap, r: nat, c: nat): Option<Label> {
    if r < |m| && c < |m[r]| then Some(m[r][c]) else None
  }

  /** Rows and columns: from a map with a non-empty first row, else from the pixel size. */
  function GridSize(m: WorldMap, width: nat, height: nat, tileSize: nat): (size: (nat, nat))
    requires tileSize > 0
    ensures |m| > 0 && |m[0]| > 0 ==> size == (|m|, |m[0]|)
  {
    if |m| > 0 && |m[0]| > 0 then (|m|, |m[0]|) else (height / tileSize, width / tileSize)
  }

  /** Without a map, the grid has as many whole tiles as fit in the board's pixel size. */
  lemma GridSizeFromPixels(m: WorldMap, width: nat, height: nat, tileSize: nat)
    requires tileSize > 0 && !(|m| > 0 && |m[0]| > 0)
    ensures var size := GridSize(m, width, height, tileSize);
      size.0 * tileSize <= height < (size.0 + 1) * tileSize &&
      size.1 * tileSize <= width < (size.1 + 1) * tileSize
  {
  }

  /**
   * `create_map` runs to the end: the row prefixes last, and every cell has a
   * label (`None in ('tree')` raises otherwise).
   */
  predicate Builds(m: WorldMap, rows: nat, cols: nat) {
    rows <= RowLimit && forall r: nat :: r < rows ==> RowLabelled(m, r, cols)
  }

  /** Every one of the first `cols` cells of row `r` has a label. */
  predicate RowLabelled(m: WorldMap, r: nat, cols: nat) {
    forall c: nat :: c < cols ==> TileAt(m, r, c).Some?
  }

  /** One more fully labelled row extends a grid that builds. */
  lemma BuildsStep(m: WorldMap, r: nat, cols: nat)
    requires r < RowLimit && Builds(m, r, cols) && RowLabelled(m, r, cols)
    ensures Builds(m, r + 1, cols)
  {
  }

  /** A row with a missing label stops a larger grid from building. */
  lemma UnlabelledRowFails(m: WorldMap, r: nat, rows: nat, cols: nat)
    requires r < rows && !RowLabelled(m, r, cols)
    ensures !Builds(m, rows, cols)
  {
  }

  lemma MulSucc(a: nat, b: nat)
    ensures (a + 1) * b == a * b + b
  {
  }

  /** The cell lies in the grid of `rows` × `cols` cells. */
  predicate InGrid(x: Cell, rows: nat, cols: nat) {
    0 <= x.row < rows && 0 <= x.col < cols
  }

  /** The `cell_labels` entry of cell (r, c): its id and the pixel centre of the cell. */
  function Entry(r: nat, c: nat, tileSize: nat): CellLabel
    requires r < RowLimit
  {
    CellLabel(CellId(r, c), CenterX(Cell(r, c), tileSize), CenterY(Cell(r, c), tileSize))
  }

  /** The entries of the first `c` cells of row `r`. */
  function RowLabels(r: nat, c: nat, tileSize: nat): (ls: seq<CellLabel>)
    requires r < RowLimit
    ensures |ls| == c
    decreases c
  {
    if c == 0 then [] else RowLabels(r, c - 1, tileSize) + [Entry(r, c - 1, tileSize)]
  }

  /** The entries of the first `r` rows. */
  function GridLabels(r: nat, cols: nat, tileSize: nat): (ls: seq<CellLabel>)
    requires r <= RowLimit
    decreases r
  {
    if r == 0 then [] else GridLabels(r - 1, cols, tileSize) + RowLabels(r - 1, cols, tileSize)
  }

  /** Each row adds `cols` entries. */
  lemma {:induction false} GridLabelsLength(r: nat, cols: nat, tileSize: nat)
    requires r <= RowLimit
    ensures |GridLabels(r, cols, tileSize)| == r * cols
    decreases r
  {
    if r > 0 {
      GridLabelsLength(r - 1, cols, tileSize);
      MulSucc(r - 1, cols);
    }
  }

  /** The entries of fewer rows are a prefix of those of more rows. */
  lemma {:induction false} GridLabelsPrefix(r: nat, rows: nat, cols: nat, tileSize: nat)
    requires r <= rows <= RowLimit
    ensures GridLabels(r, cols, tileSize) <= GridLabels(rows, cols, tileSize)
    decreases rows
  {
    if r < rows {
      GridLabelsPrefix(r, rows - 1, cols, tileSize);
    }
  }

  lemma {:induction false} RowLabelAt(r: nat, c: nat, tileSize: nat, k: nat)
    requires r < RowLimit && k < c
    ensures RowLabels(r, c, tileSize)[k] == Entry(r, k, tileSize)
    decreases c
  {
    if k < c - 1 {
      RowLabelAt(r, c - 1, tileSize, k);
    }
  }

  /** Row `r` follows the first `r` rows. */
  lemma RowFollows(r: nat, cols: nat, tileSize: nat, c: nat)
    requires r < RowLimit && c < cols
    ensures var g := GridLabels(r, cols, tileSize);
      |g| + c < |GridLabels(r + 1, cols, tileSize)| && GridLabels(r + 1, cols, tileSize)[|g| + c] == Entry(r, c, tileSize)
  {
    RowLabelAt(r, cols, tileSize, c);
  }

  /** The row-major position of cell (r, c) among `cols` columns. */
  function Index(r: nat, c: nat, cols: nat): nat {
    r * cols + c
  }

  lemma CellIndexBound(rows: nat, cols: nat, r: nat, c: nat)
    requires r < rows && c < cols
    ensures Index(r, c, cols) < rows * cols
  {
    MulSucc(r, cols);
    MulMono(r + 1, rows, cols);
  }

  /**
   * `cell_labels` holds rows × cols entries in row-major order: the entry at
   * r × cols + c names cell (r, c) and gives its centre.
   */
  lemma LabelsRowMajor(rows: nat, cols: nat, tileSize: nat, r: nat, c: nat)
    requires rows <= RowLimit && r < rows && c < cols
    ensures var ls := GridLabels(rows, cols, tileSize);
      |ls| == rows * cols && Index(r, c, cols) < |ls| && ls[Index(r, c, cols)] == Entry(r, c, tileSize)
  {
    GridLabelsLength(r, cols, tileSize);
    GridLabelsLength(rows, cols, tileSize);
    GridLabelsPrefix(r + 1, rows, cols, tileSize);
    RowFollows(r, cols, tileSize, c);
    CellIndexBound(rows, cols, r, c);
    var i := Index(r, c, cols);
    var upTo := GridLabels(r + 1, cols, tileSize);
    assert i < |upTo| && upTo[i] == Entry(r, c, tileSize);
    assert GridLabels(rows, cols, tileSize)[i] == upTo[i];
  }

  /** The entries of two different cells carry different ids. */
  lemma LabelIdsDistinct(rows: nat, cols: nat, tileSize: nat, r1: nat, c1: nat, r2: nat, c2: nat)
    requires rows <= RowLimit && r1 < rows && c1 < cols && r2 < rows && c2 < cols
    requires Cell(r1, c1) != Cell(r2, c2)
    ensures var ls := GridLabels(rows, cols, tileSize);
      Index(r1, c1, cols) < |ls| && Index(r2, c2, cols) < |ls| && ls[Index(r1, c1, cols)].id != ls[Index(r2, c2, cols)].id
  {
    LabelsRowMajor(rows, cols, tileSize, r1, c1);
    LabelsRowMajor(rows, cols, tileSize, r2, c2);
    if CellId(r1, c1) == CellId(r2, c2) {
      CellIdInjective(r1, c1, r2, c2);
    }
  }

  /**
   * The sprites cell (r, c) adds to the obstacle group: a tree sprite when its
   * label passes `in ('tree')`, then a home sprite when it passes `in ('home')`.
   */
  function CellObstacles(r: nat, c: nat, tile: Label, tileSize: nat): (s: seq<Sprite>)
    requires r < RowLimit
    ensures |s| <= 2
  {
    var rect := RectAround(CenterX(Cell(r, c), tileSize), CenterY(Cell(r, c), tileSize), SpriteSize, SpriteSize);
    (if IsSubstring(tile, "tree") then [Sprite(CellId(r, c), rect)] else []) +
    (if IsSubstring(tile, "home") then [Sprite(CellId(r, c), rect)] else [])
  }

  /** The sprites cell (r, c) adds to the tree group. */
  function CellTrees(r: nat, c: nat, tile: Label, tileSize: nat): (s: seq<Sprite>)
    requires r < RowLimit
    ensures |s| <= 1 && (|s| == 1 <==> IsSubstring(tile, "tree"))
    ensures |s| == 1 ==> s[0] == CellObstacles(r, c, tile, tileSize)[0]
  {
    if IsSubstring(tile, "tree") then
      [Sprite(CellId(r, c), RectAround(CenterX(Cell(r, c), tileSize), CenterY(Cell(r, c), tileSize), SpriteSize, SpriteSize))]
    else []
  }

  /** A tree sprite is centred in the cell that created it and carries that cell's id. */
  lemma TreeInItsCell(r: nat, c: nat, tile: Label, tileSize: nat)
    requires r < RowLimit && tileSize > 0 && IsSubstring(tile, "tree")
    ensures var t := CellTrees(r, c, tile, tileSize)[0];
      CellOf(t.rect, tileSize) == Cell(r, c) && t.id == CellId(r, c)
  {
    CenterInCell(Cell(r, c), tileSize);
  }

  /** What a cell with this tile adds to a group; nothing for a missing label. */
  function Added(r: nat, c: nat, tile: Option<Label>, tileSize: nat, trees: bool): seq<Sprite>
    requires r < RowLimit
  {
    match tile
    case None => []
    case Some(t) => if trees then CellTrees(r, c, t, tileSize) else CellObstacles(r, c, t, tileSize)
  }

  /** The obstacle (`trees` false) or tree (`trees` true) sprites of the first `c` cells of row `r`. */
  function RowSprites(m: WorldMap, r: nat, c: nat, tileSize: nat, trees: bool): seq<Sprite>
    requires r < RowLimit
    decreases c
  {
    if c == 0 then []
    else RowSprites(m, r, c - 1, tileSize, trees) + Added(r, c - 1, TileAt(m, r, c - 1), tileSize, trees)
  }

  /** Appending cell (r, c) to the sprites of the row's first `c` cells. */
  lemma RowSpritesStep(m: WorldMap, r: nat, c: nat, tileSize: nat, trees: bool)
    requires r < RowLimit
    ensures RowSprites(m, r, c + 1, tileSize, trees) == RowSprites(m, r, c, tileSize, trees) + Added(r, c, TileAt(m, r, c), tileSize, trees)
  {
  }

  lemma ConcatAssoc<T>(a: seq<T>, b: seq<T>, c: seq<T>)
    ensures a + b + c == a + (b + c)
  {
  }

  /** The obstacle or tree sprites of the first `r` rows. */
  function GridSprites(m: WorldMap, r: nat, cols: nat, tileSize: nat, trees: bool): seq<Sprite>
    requires r <= RowLimit
    decreases r
  {
    if r == 0 then [] else GridSprites(m, r - 1, cols, tileSize, trees) + RowSprites(m, r - 1, cols, tileSize, trees)
  }

  /** Every tree sprite is an obstacle too, and each cell adds at most one tree. */
  lemma {:induction false} RowTreesAreObstacles(m: WorldMap, r: nat, c: nat, tileSize: nat)
    requires r < RowLimit
    ensures |RowSprites(m, r, c, tileSize, true)| <= c
    ensures forall t :: t in RowSprites(m, r, c, tileSize, true) ==> t in RowSprites(m, r, c, tileSize, false)
    decreases c
  {
    if c > 0 {
      RowTreesAreObstacles(m, r, c - 1, tileSize);
      var ot := RowSprites(m, r, c - 1, tileSize, true);
      var oo := RowSprites(m, r, c - 1, tileSize, false);
      var at := Added(r, c - 1, TileAt(m, r, c - 1), tileSize, true);
      var ao := Added(r, c - 1, TileAt(m, r, c - 1), tileSize, false);
      assert RowSprites(m, r, c, tileSize, true) == ot + at;
      assert RowSprites(m, r, c, tileSize, false) == oo + ao;
      forall t | t in ot + at ensures t in oo + ao {
        if t in at { assert ao[0] == at[0] == t; }
      }
    }
  }

  /** Every tree sprite of the grid is also an obstacle; there are at most as many trees as cells. */
  lemma {:induction false} TreesAreObstacles(m: WorldMap, rows: nat, cols: nat, tileSize: nat)
    requires rows <= RowLimit
    ensures |GridSprites(m, rows, cols, tileSize, true)| <= rows * cols
    ensures forall t :: t in GridSprites(m, rows, cols, tileSize, true) ==> t in GridSprites(m, rows, cols, tileSize, false)
    decreases rows
  {
    if rows > 0 {
      TreesAreObstacles(m, rows - 1, cols, tileSize);
      RowTreesAreObstacles(m, rows - 1, cols, tileSize);
      MulSucc(rows - 1, cols);
    }
  }

  /** What `create_map` builds and every later phase leaves alone. */
  datatype Layout = Layout(mapSize: (nat, nat), gridRows: nat, gridCols: nat, cellLabels: seq<CellLabel>,
                           gridCells: set<Cell>, obstacles: seq<Sprite>, trees: seq<Sprite>)

  /** One pass of the inner loop of `create_map`: the label entry, grid sprite and group sprites of cell (r, c). */
  function CellStep(b: Layout, m: WorldMap, r: nat, c: nat, tileSize: nat): Layout
    requires r < RowLimit
  {
    b.(cellLabels := b.cellLabels + [Entry(r, c, tileSize)],
       gridCells := b.gridCells + {Cell(r, c)},
       obstacles := b.obstacles + Added(r, c, TileAt(m, r, c), tileSize, false),
       trees := b.trees + Added(r, c, TileAt(m, r, c), tileSize, true))
  }

  /** The layout after the first `c` cells of row `r`: their labels, cells and sprites follow those of `b`. */
  function RowBuild(b: Layout, m: WorldMap, r: nat, c: nat, tileSize: nat): Layout
    requires r < RowLimit
  {
    b.(cellLabels := b.cellLabels + RowLabels(r, c, tileSize),
       gridCells := b.gridCells + RowCells(r, c),
       obstacles := b.obstacles + RowSprites(m, r, c, tileSize, false),
       trees := b.trees + RowSprites(m, r, c, tileSize, true))
  }

  /** The layout after the first `r` rows. */
  function GridBuild(b: Layout, m: WorldMap, r: nat, cols: nat, tileSize: nat): Layout
    requires r <= RowLimit
  {
    b.(cellLabels := b.cellLabels + GridLabels(r, cols, tileSize),
       gridCells := b.gridCells + GridCells(r, cols),
       obstacles := b.obstacles + GridSprites(m, r, cols, tileSize, false),
       trees := b.trees + GridSprites(m, r, cols, tileSize, true))
  }

  /** No cell of a row leaves the layout as it was. */
  lemma RowBuildEmpty(b: Layout, m: WorldMap, r: nat, tileSize: nat)
    requires r < RowLimit
    ensures RowBuild(b, m, r, 0, tileSize) == b
  {
    assert b.cellLabels + [] == b.cellLabels && b.obstacles + [] == b.obstacles && b.trees + [] == b.trees;
    assert b.gridCells + RowCells(r, 0) == b.gridCells;
  }

  /** The labels a row's next cell appends. */
  lemma RowLabelsStep(prior: seq<CellLabel>, r: nat, c: nat, tileSize: nat)
    requires r < RowLimit
    ensures prior + RowLabels(r, c + 1, tileSize) == prior + RowLabels(r, c, tileSize) + [Entry(r, c, tileSize)]
  {
    ConcatAssoc(prior, RowLabels(r, c, tileSize), [Entry(r, c, tileSize)]);
  }

  /** The sprites a row's next cell appends to a group. */
  lemma RowGroupStep(prior: seq<Sprite>, m: WorldMap, r: nat, c: nat, tileSize: nat, trees: bool)
    requires r < RowLimit
    ensures prior + RowSprites(m, r, c + 1, tileSize, trees) ==
      prior + RowSprites(m, r, c, tileSize, trees) + Added(r, c, TileAt(m, r, c), tileSize, trees)
  {
    RowSpritesStep(m, r, c, tileSize, trees);
    ConcatAssoc(prior, RowSprites(m, r, c, tileSize, trees), Added(r, c, TileAt(m, r, c), tileSize, trees));
  }

  /** The grid cell a row's next cell adds. */
  lemma RowCellsStep(prior: set<Cell>, r: nat, c: nat)
    ensures prior + RowCells(r, c + 1) == prior + RowCells(r, c) + {Cell(r, c)}
  {
    assert RowCells(r, c + 1) == RowCells(r, c) + {Cell(r, c)};
  }

  /** The inner loop of `create_map` builds a row cell after cell. */
  lemma RowBuildStep(b: Layout, m: WorldMap, r: nat, c: nat, tileSize: nat)
    requires r < RowLimit
    ensures RowBuild(b, m, r, c + 1, tileSize) == CellStep(RowBuild(b, m, r, c, tileSize), m, r, c, tileSize)
  {
    RowLabelsStep(b.cellLabels, r, c, tileSize);
    RowGroupStep(b.obstacles, m, r, c, tileSize, false);
    RowGroupStep(b.trees, m, r, c, tileSize, true);
    RowCellsStep(b.gridCells, r, c);
  }

  /** No row leaves the layout as it was. */
  lemma GridBuildEmpty(b: Layout, m: WorldMap, cols: nat, tileSize: nat)
    ensures GridBuild(b, m, 0, cols, tileSize) == b
  {
    assert b.cellLabels + [] == b.cellLabels && b.obstacles + [] == b.obstacles && b.trees + [] == b.trees;
    assert b.gridCells + GridCells(0, cols) == b.gridCells;
  }

  /** The outer loop of `create_map` builds the grid row after row. */
  lemma GridBuildStep(b: Layout, m: WorldMap, r: nat, cols: nat, tileSize: nat)
    requires r < RowLimit
    ensures GridBuild(b, m, r + 1, cols, tileSize) == RowBuild(GridBuild(b, m, r, cols, tileSize), m, r, cols, tileSize)
  {
    ConcatAssoc(b.cellLabels, GridLabels(r, cols, tileSize), RowLabels(r, cols, tileSize));
    ConcatAssoc(b.obstacles, GridSprites(m, r, cols, tileSize, false), RowSprites(m, r, cols, tileSize, false));
    ConcatAssoc(b.trees, GridSprites(m, r, cols, tileSize, true), RowSprites(m, r, cols, tileSize, true));
    GridCellsStep(r, cols);
  }

  /**
   * Built on the empty groups of a new board, the grid labels rows × cols
   * cells in row-major order, covers exactly the grid's cells, and every tree
   * sprite is an obstacle too.
   */
  lemma BuildFromEmpty(size: (nat, nat), m: WorldMap, rows: nat, cols: nat, tileSize: nat)
    requires rows <= RowLimit
    ensures var b := GridBuild(Layout(size, 0, 0, [], {}, [], []), m, rows, cols, tileSize);
      b.cellLabels == GridLabels(rows, cols, tileSize) && |b.cellLabels| == rows * cols &&
      (forall x :: x in b.gridCells <==> InGrid(x, rows, cols)) &&
      (forall t :: t in b.trees ==> t in b.obstacles) &&
      b.mapSize == size
  {
    GridLabelsLength(rows, cols, tileSize);
    TreesAreObstacles(m, rows, cols, tileSize);
    assert [] + GridLabels(rows, cols, tileSize) == GridLabels(rows, cols, tileSize);
    assert [] + GridSprites(m, rows, cols, tileSize, true) == GridSprites(m, rows, cols, tileSize, true);
    assert [] + GridSprites(m, rows, cols, tileSize, false) == GridSprites(m, rows, cols, tileSize, false);
  }

  /** The cells of the first `c` columns of row `r`. */
  function RowCells(r: nat, c: nat): (s: set<Cell>)
    ensures forall x :: x in s <==> x.row == r && 0 <= x.col < c
  {
    set k: nat | k < c :: Cell(r, k)
  }

  /** The cells of the first `r` rows: the keys of `grid_sprites`. */
  function GridCells(r: nat, cols: nat): (s: set<Cell>)
    ensures forall x :: x in s <==> InGrid(x, r, cols)
  {
    set i: nat, k: nat | i < r && k < cols :: Cell(i, k)
  }

  lemma GridCellsStep(r: nat, cols: nat)
    ensures GridCells(r + 1, cols) == GridCells(r, cols) + RowCells(r, cols)
  {
  }

  /**
   * The fog after the first `c` cells of row `r` get their new sprite: a new
   * sprite is fogged (alpha 200) unless the cell's label is "home".
   */
  function RowFog(revealed: set<Cell>, m: WorldMap, r: nat, c: nat): set<Cell>
    decreases c
  {
    if c == 0 then revealed
    else
      var s := RowFog(revealed, m, r, c - 1);
      if TileAt(m, r, c - 1) == Some("home") then s + {Cell(r, c - 1)} else s - {Cell(r, c - 1)}
  }

  /** The fog after the first `r` rows. */
  function GridFog(revealed: set<Cell>, m: WorldMap, r: nat, cols: nat): set<Cell>
    decreases r
  {
    if r == 0 then revealed else RowFog(GridFog(revealed, m, r - 1, cols), m, r - 1, cols)
  }

  /** Within the row's first `c` cells exactly the homes are free of fog; elsewhere nothing changes. */
  lemma {:induction false} RowFogExactly(revealed: set<Cell>, m: WorldMap, r: nat, c: nat)
    ensures forall x :: x in RowFog(revealed, m, r, c) <==>
      if x.row == r && 0 <= x.col < c then TileAt(m, x.row, x.col) == Some("home") else x in revealed
    decreases c
  {
    if c > 0 {
      RowFogExactly(revealed, m, r, c - 1);
    }
  }

  /**
   * After `create_map`, exactly the home cells of the grid are free of fog,
   * and cells outside the grid keep what they had.
   */
  lemma {:induction false} GridFogExactly(revealed: set<Cell>, m: WorldMap, r: nat, cols: nat)
    ensures forall x :: x in GridFog(revealed, m, r, cols) <==>
      if InGrid(x, r, cols) then TileAt(m, x.row, x.col) == Some("home") else x in revealed
    decreases r
  {
    if r > 0 {
      GridFogExactly(revealed, m, r - 1, cols);
      RowFogExactly(GridFog(revealed, m, r - 1, cols), m, r - 1, cols);
    }
  }

  /** `reveal_cell(x, y)`: the cell under the pixel joins the revealed set if the grid has it. */
  function Reveal(revealed: set<Cell>, grid: set<Cell>, x: int, y: int, tileSize: int): (r: set<Cell>)
    requires tileSize > 0
    ensures revealed <= r
    ensures r - revealed <= {CellOfPoint(x, y, tileSize)}
    ensures CellOfPoint(x, y, tileSize) in grid ==> CellOfPoint(x, y, tileSize) in r
    ensures CellOfPoint(x, y, tileSize) !in grid ==> r == revealed
  {
    var c := CellOfPoint(x, y, tileSize);
    if c in grid then revealed + {c} else revealed
  }

  /** Revealing twice is revealing once. */
  lemma RevealIdempotent(revealed: set<Cell>, grid: set<Cell>, x: int, y: int, tileSize: int)
    requires tileSize > 0
    ensures Reveal(Reveal(revealed, grid, x, y, tileSize), grid, x, y, tileSize) == Reveal(revealed, grid, x, y, tileSize)
  {
  }

  /** Revealing preserves inclusion: a larger fog-free set stays larger. */
  lemma RevealMonotone(a: set<Cell>, b: set<Cell>, grid: set<Cell>, x: int, y: int, tileSize: int)
    requires tileSize > 0 && a <= b
    ensures Reveal(a, grid, x, y, tileSize) <= Reveal(b, grid, x, y, tileSize)
  {
  }
}
