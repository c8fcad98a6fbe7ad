/**
 * Integer geometry shared by every part of the simulation: the pygame-style
 * rectangle each sprite carries, grid cells derived from pixel positions,
 * facing directions and axis direction vectors.
 */
module Geometry {

  datatype Option<T> = None | Some(value: T)

  function Abs(n: int): nat { if n < 0 then -n else n }

  function Min(a: int, b: int): int { if a <= b then a else b }

  function Max(a: int, b: int): int { if a >= b then a else b }

  /** A pygame `Rect`: top-left corner and a non-negative size. */
  datatype Rect = Rect(x: int, y: int, w: nat, h: nat) {
    function Right(): int { x + w }
    function Bottom(): int { y + h }
    /** pygame's `centerx` / `centery`: corner plus half the size, rounded down. */
    function CenterX(): int { x + w / 2 }
    function CenterY(): int { y + h / 2 }
    function Moved(dx: int, dy: int): Rect { Rect(x + dx, y + dy, w, h) }
  }

  /** `surface.get_rect(center=(cx, cy))` for a surface of size w × h. */
  function RectAround(cx: int, cy: int, w: nat, h: nat): (r: Rect)
    ensures r.CenterX() == cx && r.CenterY() == cy
    ensures r.w == w && r.h == h
  {
    Rect(cx - w / 2, cy - h / 2, w, h)
  }

  /**
   * `a.colliderect(b)`: the interiors overlap (touching edges do not count),
   * and a rectangle of zero width or height collides with nothing.
   */
  predicate Collide(a: Rect, b: Rect) {
    a.w > 0 && a.h > 0 && b.w > 0 && b.h > 0 &&
    a.x < b.Right() && b.x < a.Right() && a.y < b.Bottom() && b.y < a.Bottom()
  }

  lemma CollideSymmetric(a: Rect, b: Rect)
    ensures Collide(a, b) == Collide(b, a)
  {
  }

  /** The rectangle lies within [0, width] × [0, height]. */
  predicate Inside(r: Rect, width: int, height: int) {
    0 <= r.x && r.Right() <= width && 0 <= r.y && r.Bottom() <= height
  }

  /** The bounds test of the movement code: left < 0, right > W, top < 0 or bottom > H. */
  predicate OutOfBounds(r: Rect, width: int, height: int) {
    r.x < 0 || r.Right() > width || r.y < 0 || r.Bottom() > height
  }

  /** One axis of `clamp_ip`: a rectangle at least as large as the bounds is centred. */
  function ClampAxis(pos: int, size: nat, bound: nat): int {
    if size >= bound then bound / 2 - size / 2
    else if pos < 0 then 0
    else if pos + size > bound then bound - size
    else pos
  }

  /** `r.clamp_ip(Rect(0, 0, width, height))`. */
  function Clamp(r: Rect, width: nat, height: nat): (c: Rect)
    ensures c.w == r.w && c.h == r.h
    ensures r.w <= width ==> 0 <= c.x && c.Right() <= width
    ensures r.h <= height ==> 0 <= c.y && c.Bottom() <= height
    ensures Inside(r, width, height) ==> c == r
  {
    Rect(ClampAxis(r.x, r.w, width), ClampAxis(r.y, r.h, height), r.w, r.h)
  }

  /** A grid address (row, col). */
  datatype Cell = Cell(row: int, col: int)

  /**
   * The cell holding pixel (x, y): `(y // tile_size, x // tile_size)`. Python's `//`
   * rounds down, and so does Dafny's `/` for a positive divisor.
   */
  function CellOfPoint(x: int, y: int, tileSize: int): Cell
    requires tileSize > 0
  {
    Cell(y / tileSize, x / tileSize)
  }

  function CenterX(c: Cell, tileSize: int): int { c.col * tileSize + tileSize / 2 }

  function CenterY(c: Cell, tileSize: int): int { c.row * tileSize + tileSize / 2 }

  lemma MulAtLeast(a: int, t: int)
    requires a >= 1 && t > 0
    ensures a * t >= t
  {
  }

  lemma MulMono(a: int, b: int, c: int)
    requires a <= b && c >= 0
    ensures a * c <= b * c
  {
    assert b * c - a * c == (b - a) * c;
  }

  /** Division with a positive divisor recovers the quotient of any exact split. */
  lemma DivUnique(p: int, t: int, q: int, r: int)
    requires t > 0 && 0 <= r < t && p == q * t + r
    ensures p / t == q && p % t == r
  {
    var q', r' := p / t, p % t;
    assert (q - q') * t == r' - r;
    if q' > q {
      MulAtLeast(q' - q, t);
    } else if q' < q {
      MulAtLeast(q - q', t);
    }
  }

  lemma CoordOfCenter(k: int, tileSize: int)
    requires tileSize > 0
    ensures (k * tileSize + tileSize / 2) / tileSize == k
  {
    DivUnique(k * tileSize + tileSize / 2, tileSize, k, tileSize / 2);
  }

  lemma MulAdd(x: int, y: int, t: int)
    ensures (x + y) * t == x * t + y * t
  {
  }

  /** A point at most `t` past another lies at most one block of width `t` further on. */
  lemma DivLeSucc(a: int, b: int, t: int)
    requires t > 0 && a <= b + t
    ensures a / t <= b / t + 1
  {
    var qa, qb := a / t, b / t;
    assert qa * t <= a && b < qb * t + t;
    if qa >= qb + 2 {
      MulMono(qb + 2, qa, t);
      MulAdd(qb, 2, t);
    }
  }

  /** Points at most `t` apart fall into the same or neighbouring blocks of width `t`. */
  lemma DivClose(a: int, b: int, t: int)
    requires t > 0 && Abs(a - b) <= t
    ensures Abs(a / t - b / t) <= 1
  {
    DivLeSucc(a, b, t);
    DivLeSucc(b, a, t);
  }

  /** The pixel centre of a cell lies in that cell again. */
  lemma {:induction false} CenterInCell(c: Cell, tileSize: int)
    requires tileSize > 0
    ensures CellOfPoint(CenterX(c, tileSize), CenterY(c, tileSize), tileSize) == c
  {
    CoordOfCenter(c.row, tileSize);
    CoordOfCenter(c.col, tileSize);
  }

  function Manhattan(a: Cell, b: Cell): nat {
    Abs(a.row - b.row) + Abs(a.col - b.col)
  }

  /** The facing names 'up', 'down', 'left', 'right' of the animation code. */
  datatype Facing = Up | Down | Left | Right

  /** A movement direction (pygame `Vector2` with integral components). */
  datatype Vec = Vec(x: int, y: int)

  const Zero := Vec(0, 0)

  /**
   * The directions the simulation ever sets: zero or one unit along one axis.
   * `Vector2.normalize` is the identity on these, so it is not modelled.
   */
  predicate AxisUnitOrZero(d: Vec) {
    d == Zero || d == Vec(1, 0) || d == Vec(-1, 0) || d == Vec(0, 1) || d == Vec(0, -1)
  }
}
