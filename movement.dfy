/**
 * The per-tick movement rules shared by the wandering villager (src/villager.py)
 * and the scout (src/scout.py): consuming the deferred reverse flag, the AI
 * direction reroll, the step by `direction * speed` and the bounds clamp.
 */
module Movement {
  import opened Geometry
  import opened World

  /**
   * The reverse rule: the first non-zero unit component (x before y) is negated
   * and the facing turned to match; a zero direction and its facing are kept.
   */
  function Reversed(d: Vec, facing: Facing): (r: (Vec, Facing))
    ensures AxisUnitOrZero(d) ==> r.0 == Vec(-d.x, -d.y)
    ensures AxisUnitOrZero(d) && d != Zero ==> r.1 == FacingOf(r.0)
    ensures d == Zero ==> r.1 == facing
  {
    if d.x == 1 then (Vec(-1, d.y), Left)
    else if d.x == -1 then (Vec(1, d.y), Right)
    else if d.y == 1 then (Vec(d.x, -1), Up)
    else if d.y == -1 then (Vec(d.x, 1), Down)
    else (d, facing)
  }

  /** Reversing twice restores an axis direction (reversal undoes itself). */
  lemma {:induction false} ReversedTwice(d: Vec, facing: Facing)
    requires AxisUnitOrZero(d)
    ensures Reversed(Reversed(d, facing).0, Reversed(d, facing).1).0 == d
    ensures d != Zero ==> Reversed(Reversed(d, facing).0, facing).1 == FacingOf(d)
  {
    var (d1, f1) := Reversed(d, facing);
    assert AxisUnitOrZero(d1);
  }

  /** One outcome of the weighted `random.choices` over up, down, left, right, idle. */
  datatype Choice = Walk(towards: Facing) | Idle

  /** The direction and facing an AI reroll sets; idling keeps the facing. */
  function Chosen(c: Choice, facing: Facing): (r: (Vec, Facing))
    ensures AxisUnitOrZero(r.0)
    ensures c.Idle? ==> r == (Zero, facing)
    ensures c.Walk? ==> r.0 != Zero && r.1 == c.towards && FacingOf(r.0) == c.towards
  {
    match c
    case Walk(f) => (Offset(f), f)
    case Idle => (Zero, facing)
  }

  /** The AI picks a new direction only once the current period is over. */
  predicate RerollDue(aiMode: bool, now: int, nextChange: int) {
    aiMode && now > nextChange
  }

  /** `rect.x += direction.x * speed; rect.y += direction.y * speed`. */
  function Step(r: Rect, d: Vec, speed: int): Rect {
    r.Moved(d.x * speed, d.y * speed)
  }

  /**
   * The bounds check after a step: an out-of-bounds rectangle is clamped into
   * [0, width] × [0, height]; the flag reports that it was out.
   */
  function Bounded(r: Rect, width: nat, height: nat): (res: (Rect, bool))
    ensures res.1 <==> OutOfBounds(r, width, height)
    ensures r.w <= width && r.h <= height ==> Inside(res.0, width, height)
    ensures !res.1 ==> res.0 == r
    ensures res.0.w == r.w && res.0.h == r.h
  {
    if OutOfBounds(r, width, height) then (Clamp(r, width, height), true) else (r, false)
  }

  /** Clamping moves a coordinate towards, and never past, any position that was legal. */
  lemma ClampAxisBetween(a: int, b: int, size: nat, bound: nat)
    requires size <= bound && 0 <= a && a + size <= bound
    ensures Min(a, b) <= ClampAxis(b, size, bound) <= Max(a, b)
  {
  }

  /**
   * A unit inside the bounds that steps along one axis and is clamped back
   * ends at most `speed` pixels from where it was.
   */
  lemma {:induction false} BoundedStepIsShort(r: Rect, d: Vec, speed: nat, width: nat, height: nat)
    requires AxisUnitOrZero(d) && Inside(r, width, height)
    ensures var e := Bounded(Step(r, d, speed), width, height).0;
      Abs(e.x - r.x) + Abs(e.y - r.y) <= speed
  {
    var s := Step(r, d, speed);
    if OutOfBounds(s, width, height) {
      ClampAxisBetween(r.x, s.x, r.w, width);
      ClampAxisBetween(r.y, s.y, r.h, height);
    }
  }

  /** The movement part of a unit's state, common to villagers and scouts. */
  datatype Motion = Motion(
    rect: Rect,
    prevRect: Rect,
    direction: Vec,
    facing: Facing,
    isMoving: bool,
    speed: int,
    reverseNextMove: bool)

  /** The invariant of a unit's motion: an axis direction and a non-negative speed. */
  predicate Valid(m: Motion) {
    AxisUnitOrZero(m.direction) && m.speed >= 0
  }

  /** The AI timer: whether the AI drives the unit, when it rerolls next, the last period. */
  datatype Ai = Ai(aiMode: bool, nextChange: int, moveDuration: int)

  /** A pending reverse flag is applied to direction and facing and always cleared. */
  function ReverseConsumed(m: Motion): (r: Motion)
    ensures !r.reverseNextMove
    ensures r.rect == m.rect && r.prevRect == m.prevRect && r.speed == m.speed && r.isMoving == m.isMoving
    ensures m.reverseNextMove ==> (r.direction, r.facing) == Reversed(m.direction, m.facing)
    ensures !m.reverseNextMove ==> r == m
    ensures Valid(m) ==> Valid(r)
  {
    if m.reverseNextMove then
      var (d, f) := Reversed(m.direction, m.facing);
      m.(direction := d, facing := f, reverseNextMove := false)
    else m
  }

  /** The AI reroll, when one is due: a new direction and a new period starting now. */
  function Rerolled(m: Motion, ai: Ai, now: int, choice: Choice, duration: int): (r: (Motion, Ai))
    ensures r.0.rect == m.rect && r.0.prevRect == m.prevRect && r.0.speed == m.speed
    ensures r.0.reverseNextMove == m.reverseNextMove && r.0.isMoving == m.isMoving
    ensures r.1.aiMode == ai.aiMode
    ensures RerollDue(ai.aiMode, now, ai.nextChange) ==>
      (r.0.direction, r.0.facing) == Chosen(choice, m.facing) &&
      r.1.nextChange == now + duration && r.1.moveDuration == duration
    ensures !RerollDue(ai.aiMode, now, ai.nextChange) ==> r == (m, ai)
    ensures Valid(m) ==> Valid(r.0)
  {
    if RerollDue(ai.aiMode, now, ai.nextChange) then
      var (d, f) := Chosen(choice, m.facing);
      (m.(direction := d, facing := f), ai.(moveDuration := duration, nextChange := now + duration))
    else (m, ai)
  }

  /**
   * The step and the bounds clamp in a world of `width` × `height` pixels;
   * leaving the bounds requests a reverse on the next tick.
   */
  function Moved(m: Motion, width: nat, height: nat): (r: Motion)
    ensures r.isMoving == (m.direction != Zero)
    ensures r.rect == Bounded(Step(m.rect, m.direction, m.speed), width, height).0
    ensures r.reverseNextMove == (m.reverseNextMove || OutOfBounds(Step(m.rect, m.direction, m.speed), width, height))
    ensures r.prevRect == m.prevRect && r.direction == m.direction && r.facing == m.facing && r.speed == m.speed
    ensures m.rect.w <= width && m.rect.h <= height ==> Inside(r.rect, width, height)
  {
    var (b, out) := Bounded(Step(m.rect, m.direction, m.speed), width, height);
    m.(isMoving := m.direction != Zero, rect := b, reverseNextMove := m.reverseNextMove || out)
  }

  /**
   * The movement phases of one tick in the order of the code: reverse, snapshot,
   * AI reroll, step with bounds clamp.
   */
  function Advance(m: Motion, ai: Ai, now: int, choice: Choice, duration: int, width: nat, height: nat): (r: (Motion, Ai))
    requires Valid(m)
    ensures Valid(r.0) && r.0.speed == m.speed && r.1.aiMode == ai.aiMode
    ensures r.0.prevRect == m.rect
    ensures r.0.reverseNextMove <==> OutOfBounds(Step(m.rect, r.0.direction, m.speed), width, height)
    ensures m.rect.w <= width && m.rect.h <= height ==> Inside(r.0.rect, width, height)
    ensures RerollDue(ai.aiMode, now, ai.nextChange) ==>
      r.1.nextChange == now + duration && r.1.moveDuration == duration
    ensures !RerollDue(ai.aiMode, now, ai.nextChange) ==> r.1 == ai
  {
    var c := ReverseConsumed(m);
    var snap := c.(prevRect := c.rect);
    var (a, ai') := Rerolled(snap, ai, now, choice, duration);
    (Moved(a, width, height), ai')
  }

  /** Starting inside the bounds, the movement phases displace a unit by at most its speed. */
  lemma {:induction false} AdvanceIsShort(m: Motion, ai: Ai, now: int, choice: Choice, duration: int, width: nat, height: nat)
    requires Valid(m) && Inside(m.rect, width, height)
    ensures var e := Advance(m, ai, now, choice, duration, width, height).0.rect;
      Abs(e.x - m.rect.x) + Abs(e.y - m.rect.y) <= m.speed
  {
    var c := ReverseConsumed(m);
    var (a, _) := Rerolled(c.(prevRect := c.rect), ai, now, choice, duration);
    BoundedStepIsShort(m.rect, a.direction, m.speed, width, height);
  }
}
