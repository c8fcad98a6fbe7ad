/**
 * The scout of src/scout.py: the same reverse, snapshot, AI and movement rules
 * as the wandering villager, with shorter AI periods and a health penalty of 5
 * (floored at 0) each time it runs into the world bounds.
 */
module Scouts {
  import opened Geometry
  import opened World
  import opened Movement

  /** The range of `random.randint(300, 1500)` for an AI move period. */
  const MinDuration := 300
  const MaxDuration := 1500

  const MaxHealth := 100
  const BoundsPenalty := 5

  datatype ScoutState = ScoutState(motion: Motion, ai: Ai, health: int, discoveredTrees: seq<string>)

  /** Clock and random draws of one tick. */
  datatype Input = Input(now: int, choice: Choice, duration: int)

  predicate Admissible(i: Input) {
    MinDuration <= i.duration <= MaxDuration
  }

  predicate Valid(s: ScoutState) {
    Movement.Valid(s.motion) && 0 <= s.health <= MaxHealth
  }

  /** A new scout of `size` pixels centred on (cx, cy). */
  function Initial(cx: int, cy: int, size: nat): (s: ScoutState)
    ensures Valid(s) && s.health == MaxHealth && !s.motion.reverseNextMove
    ensures s.ai.aiMode && s.ai.nextChange == 0 && s.motion.speed == 2 && s.discoveredTrees == []
    ensures s.motion.rect.CenterX() == cx && s.motion.rect.CenterY() == cy && s.motion.prevRect == s.motion.rect
  {
    var r := RectAround(cx, cy, size, size);
    ScoutState(Motion(r, r, Zero, Down, false, 2, false), Ai(true, 0, 0), MaxHealth, [])
  }

  /** Health after running into the bounds. */
  function Penalized(health: int): (h: int)
    ensures 0 <= health ==> 0 <= h <= health
    ensures health >= BoundsPenalty ==> h == health - BoundsPenalty
  {
    Max(0, health - BoundsPenalty)
  }

  /** One call of `update` in a world of `width` × `height` pixels. */
  function Tick(s: ScoutState, i: Input, width: nat, height: nat): (r: ScoutState)
    requires Movement.Valid(s.motion)
    ensures Movement.Valid(r.motion)
    ensures r.motion.prevRect == s.motion.rect
    ensures s.motion.rect.w <= width && s.motion.rect.h <= height ==> Inside(r.motion.rect, width, height)
    ensures r.health == if r.motion.reverseNextMove then Penalized(s.health) else s.health
    ensures r.motion.reverseNextMove <==> OutOfBounds(Step(s.motion.rect, r.motion.direction, s.motion.speed), width, height)
    ensures Valid(s) ==> Valid(r)
    ensures r.discoveredTrees == s.discoveredTrees && r.ai.aiMode == s.ai.aiMode && r.motion.speed == s.motion.speed
    ensures RerollDue(s.ai.aiMode, i.now, s.ai.nextChange) ==>
      r.ai.nextChange == i.now + i.duration && r.ai.moveDuration == i.duration
    ensures !RerollDue(s.ai.aiMode, i.now, s.ai.nextChange) ==> r.ai == s.ai
  {
    var (m, ai) := Advance(s.motion, s.ai, i.now, i.choice, i.duration, width, height);
    s.(motion := m, ai := ai, health := if m.reverseNextMove then Penalized(s.health) else s.health)
  }

  /** A reroll postpones the next one by a whole admissible period. */
  lemma RerollWaits(s: ScoutState, i: Input, width: nat, height: nat)
    requires Movement.Valid(s.motion) && Admissible(i)
    requires RerollDue(s.ai.aiMode, i.now, s.ai.nextChange)
    ensures var r := Tick(s, i, width, height);
      i.now + MinDuration <= r.ai.nextChange <= i.now + MaxDuration
      && !RerollDue(r.ai.aiMode, i.now, r.ai.nextChange)
  {
  }

  /** Consecutive ticks. */
  function Run(s: ScoutState, inputs: seq<Input>, width: nat, height: nat): (r: ScoutState)
    requires Movement.Valid(s.motion)
    ensures Movement.Valid(r.motion)
    decreases |inputs|
  {
    if inputs == [] then s else Run(Tick(s, inputs[0], width, height), inputs[1..], width, height)
  }

  /** How many ticks of a run end with the scout against the bounds. */
  function Hits(s: ScoutState, inputs: seq<Input>, width: nat, height: nat): nat
    requires Movement.Valid(s.motion)
    decreases |inputs|
  {
    if inputs == [] then 0
    else
      var t := Tick(s, inputs[0], width, height);
      (if t.motion.reverseNextMove then 1 else 0) + Hits(t, inputs[1..], width, height)
  }

  /** Health over a run: 5 points lost per bounds hit, never below zero. */
  lemma {:induction false} RunHealth(s: ScoutState, inputs: seq<Input>, width: nat, height: nat)
    requires Valid(s)
    ensures Run(s, inputs, width, height).health == Max(0, s.health - BoundsPenalty * Hits(s, inputs, width, height))
    ensures Valid(Run(s, inputs, width, height))
    decreases |inputs|
  {
    if inputs != [] {
      var t := Tick(s, inputs[0], width, height);
      RunHealth(t, inputs[1..], width, height);
    }
  }

  class Scout {
    var rect: Rect
    var prevRect: Rect
    var direction: Vec
    var facing: Facing
    var isMoving: bool
    var speed: int
    var reverseNextMove: bool
    var aiMode: bool
    var aiNextChange: int
    var aiMoveDuration: int
    var health: int
    var discoveredTrees: seq<string>
    /** `settings.WIDTH` and `settings.HEIGHT`. */
    const width: nat
    const height: nat

    function Model(): ScoutState
      reads this
    {
      ScoutState(Motion(rect, prevRect, direction, facing, isMoving, speed, reverseNextMove),
                 Ai(aiMode, aiNextChange, aiMoveDuration), health, discoveredTrees)
    }

    constructor(cx: int, cy: int, tileSize: nat, width: nat, height: nat)
      ensures Model() == Initial(cx, cy, tileSize)
      ensures this.width == width && this.height == height
    {
      rect := RectAround(cx, cy, tileSize, tileSize);
      prevRect := rect;
      direction, facing, isMoving, speed, reverseNextMove := Zero, Down, false, 2, false;
      aiMode, aiNextChange, aiMoveDuration := true, 0, 0;
      health, discoveredTrees := MaxHealth, [];
      this.width, this.height := width, height;
    }

    /** One frame: reverse, snapshot, AI reroll, step, bounds penalty and clamp. */
    method Update(i: Input)
      requires Movement.Valid(Model().motion)
      modifies this
      ensures Model() == Tick(old(Model()), i, width, height)
    {
      ConsumeReverse();
      prevRect := rect;
      RerollAi(i.now, i.choice, i.duration);
      Move();
    }

    method ConsumeReverse()
      modifies this
      ensures Model() == old(Model()).(motion := ReverseConsumed(old(Model()).motion))
    {
      if reverseNextMove {
        if direction.x == 1 {
          direction, facing := direction.(x := -1), Left;
        } else if direction.x == -1 {
          direction, facing := direction.(x := 1), Right;
        } else if direction.y == 1 {
          direction, facing := direction.(y := -1), Up;
        } else if direction.y == -1 {
          direction, facing := direction.(y := 1), Down;
        }
        reverseNextMove := false;
      }
    }

    method RerollAi(now: int, choice: Choice, duration: int)
      modifies this
      ensures var (m, ai) := Rerolled(old(Model()).motion, old(Model()).ai, now, choice, duration);
        Model() == old(Model()).(motion := m, ai := ai)
    {
      if aiMode && now > aiNextChange {
        match choice {
          case Walk(f) => direction, facing := Offset(f), f;
          case Idle => direction := Zero;
        }
        aiMoveDuration := duration;
        aiNextChange := now + aiMoveDuration;
      }
    }

    /** The step; leaving the bounds costs health, clamps and requests a reverse. */
    method Move()
      requires !reverseNextMove
      modifies this
      ensures var m := Moved(old(Model()).motion, width, height);
        Model() == old(Model()).(motion := m, health := if m.reverseNextMove then Penalized(old(health)) else old(health))
    {
      isMoving := direction != Zero;
      rect := rect.Moved(direction.x * speed, direction.y * speed);
      if rect.x < 0 || rect.Right() > width || rect.y < 0 || rect.Bottom() > height {
        health := Max(0, health - BoundsPenalty);
        rect := Clamp(rect, width, height);
        reverseNextMove := true;
      }
    }
  }
}
