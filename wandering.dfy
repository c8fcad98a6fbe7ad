/**
 * The wandering villager of src/villager.py: key toggles for the axe and for
 * chopping, the deferred reverse flag, the AI that rerolls its direction at
 * random times, movement and the bounds clamp (which costs no health).
 * The keyboard, the clock and the random source are inputs of a tick.
 */
module WanderingVillager {
  import opened Geometry
  import opened World
  import opened Movement

  /** The range of `random.randint(500, 2000)` for an AI move period. */
  const MinDuration := 500
  const MaxDuration := 2000

  datatype State = State(
    motion: Motion,
    ai: Ai,
    lastFacing: Facing,
    usingAxe: bool,
    chopping: bool,
    axeKeyHeld: bool,
    chopKeyHeld: bool,
    health: int)

  /** What the environment provides to one tick: clock, keys 'c' and 'p', random draws. */
  datatype Input = Input(now: int, keyC: bool, keyP: bool, choice: Choice, duration: int)

  predicate Admissible(i: Input) {
    MinDuration <= i.duration <= MaxDuration
  }

  /** The state right after construction, for a sprite of `size` pixels centred on (cx, cy). */
  function Initial(cx: int, cy: int, size: nat): (s: State)
    ensures Valid(s.motion) && s.health == 100 && !s.motion.reverseNextMove && s.ai.aiMode
    ensures s.motion.speed == 2 && s.motion.direction == Zero && s.motion.prevRect == s.motion.rect
    ensures s.motion.rect.CenterX() == cx && s.motion.rect.CenterY() == cy
  {
    var r := RectAround(cx, cy, size, size);
    State(Motion(r, r, Zero, Down, false, 2, false), Ai(true, 0, 0), Down, false, false, false, false, 100)
  }

  /** A key flips its toggle only on the tick where it goes down. */
  function Toggled(s: State, keyC: bool, keyP: bool): (r: State)
    ensures r.usingAxe == (s.usingAxe != (keyC && !s.axeKeyHeld)) && r.axeKeyHeld == keyC
    ensures r.chopping == (s.chopping != (keyP && !s.chopKeyHeld)) && r.chopKeyHeld == keyP
    ensures r.motion == s.motion && r.ai == s.ai && r.lastFacing == s.lastFacing && r.health == s.health
  {
    s.(usingAxe := if keyC && !s.axeKeyHeld then !s.usingAxe else s.usingAxe, axeKeyHeld := keyC,
       chopping := if keyP && !s.chopKeyHeld then !s.chopping else s.chopping, chopKeyHeld := keyP)
  }

  /** The animation choice: chopping stops the unit; plain walking records the facing. */
  function Finished(s: State): (r: State)
    ensures r.chopping == s.chopping && r.usingAxe == s.usingAxe && r.health == s.health && r.ai == s.ai
    ensures r.motion.rect == s.motion.rect && r.motion.prevRect == s.motion.prevRect
    ensures r.motion.reverseNextMove == s.motion.reverseNextMove && r.motion.speed == s.motion.speed
    ensures r.chopping ==> r.motion.direction == Zero && r.motion.facing == r.lastFacing
    ensures !r.chopping ==> r.motion.direction == s.motion.direction
    ensures Valid(s.motion) ==> Valid(r.motion)
  {
    if s.chopping then s.(motion := s.motion.(direction := Zero, facing := s.lastFacing))
    else if s.usingAxe then s
    else if s.motion.isMoving then s.(lastFacing := s.motion.facing)
    else s
  }

  /** One call of `update` in a world of `width` × `height` pixels. */
  function Tick(s: State, i: Input, width: nat, height: nat): (r: State)
    requires Valid(s.motion)
    ensures Valid(r.motion)
    ensures r.motion.prevRect == s.motion.rect
    ensures s.motion.rect.w <= width && s.motion.rect.h <= height ==> Inside(r.motion.rect, width, height)
    ensures r.health == s.health && r.motion.speed == s.motion.speed && r.ai.aiMode == s.ai.aiMode
    ensures r.chopping ==> r.motion.direction == Zero && r.motion.facing == r.lastFacing
    ensures r.usingAxe == (s.usingAxe != (i.keyC && !s.axeKeyHeld)) && r.axeKeyHeld == i.keyC
    ensures r.chopping == (s.chopping != (i.keyP && !s.chopKeyHeld)) && r.chopKeyHeld == i.keyP
    ensures RerollDue(s.ai.aiMode, i.now, s.ai.nextChange) ==>
      r.ai.nextChange == i.now + i.duration && r.ai.moveDuration == i.duration
    ensures !RerollDue(s.ai.aiMode, i.now, s.ai.nextChange) ==> r.ai == s.ai
  {
    var t := Toggled(s, i.keyC, i.keyP);
    var (m, ai) := Advance(t.motion, t.ai, i.now, i.choice, i.duration, width, height);
    Finished(t.(motion := m, ai := ai))
  }

  /** Leaving the bounds requests a reverse and is the only thing that does. */
  lemma ReverseFlagIffOut(s: State, i: Input, width: nat, height: nat)
    requires Valid(s.motion)
    ensures var m := Advance(s.motion, s.ai, i.now, i.choice, i.duration, width, height).0;
      Tick(s, i, width, height).motion.reverseNextMove <==> OutOfBounds(Step(s.motion.rect, m.direction, s.motion.speed), width, height)
  {
  }

  /** A reroll postpones the next one by a whole admissible period. */
  lemma RerollWaits(s: State, i: Input, width: nat, height: nat)
    requires Valid(s.motion) && Admissible(i)
    requires RerollDue(s.ai.aiMode, i.now, s.ai.nextChange)
    ensures var r := Tick(s, i, width, height);
      i.now + MinDuration <= r.ai.nextChange <= i.now + MaxDuration
      && !RerollDue(r.ai.aiMode, i.now, r.ai.nextChange)
  {
  }

  /**
   * Holding key 'c' over two consecutive ticks flips the axe toggle once: the
   * second tick sees the key already held.
   */
  lemma {:induction false} HeldKeyTogglesOnce(s: State, i1: Input, i2: Input, width: nat, height: nat)
    requires Valid(s.motion) && i1.keyC && i2.keyC
    ensures var r2 := Tick(Tick(s, i1, width, height), i2, width, height);
      r2.usingAxe == (s.usingAxe != !s.axeKeyHeld) && r2.axeKeyHeld
  {
    var r1 := Tick(s, i1, width, height);
    assert r1.axeKeyHeld && r1.usingAxe == (s.usingAxe != !s.axeKeyHeld);
  }

  /** Starting inside the bounds, a tick moves the villager by at most its speed. */
  lemma {:induction false} TickIsShort(s: State, i: Input, width: nat, height: nat)
    requires Valid(s.motion) && Inside(s.motion.rect, width, height)
    ensures var r := Tick(s, i, width, height);
      Abs(r.motion.rect.x - s.motion.rect.x) + Abs(r.motion.rect.y - s.motion.rect.y) <= s.motion.speed
  {
    var t := Toggled(s, i.keyC, i.keyP);
    AdvanceIsShort(t.motion, t.ai, i.now, i.choice, i.duration, width, height);
  }

  class Villager {
    var rect: Rect
    var prevRect: Rect
    var direction: Vec
    var facing: Facing
    var isMoving: bool
    var speed: int
    var reverseNextMove: bool
    var aiMode: bool
    var aiNextChange: int
    var aiMoveDuration: int
    var lastFacing: Facing
    var usingAxe: bool
    var chopping: bool
    var axeKeyHeld: bool
    var chopKeyHeld: bool
    var health: int
    /** `WIDTH` and `HEIGHT` of the selected map. */
    const width: nat
    const height: nat

    function Model(): State
      reads this
    {
      State(Motion(rect, prevRect, direction, facing, isMoving, speed, reverseNextMove),
            Ai(aiMode, aiNextChange, aiMoveDuration),
            lastFacing, usingAxe, chopping, axeKeyHeld, chopKeyHeld, health)
    }

    constructor(cx: int, cy: int, tileSize: nat, width: nat, height: nat)
      ensures Model() == Initial(cx, cy, tileSize)
      ensures this.width == width && this.height == height
    {
      rect := RectAround(cx, cy, tileSize, tileSize);
      prevRect := rect;
      direction, facing, isMoving, speed, reverseNextMove := Zero, Down, false, 2, false;
      aiMode, aiNextChange, aiMoveDuration := true, 0, 0;
      lastFacing, usingAxe, chopping, axeKeyHeld, chopKeyHeld := Down, false, false, false, false;
      health := 100;
      this.width, this.height := width, height;
    }

    /** One frame: toggles, reverse, snapshot, AI reroll, step, bounds, animation state. */
    method Update(i: Input)
      requires Valid(Model().motion)
      modifies this
      ensures Model() == Tick(old(Model()), i, width, height)
    {
      ToggleKeys(i.keyC, i.keyP);
      ConsumeReverse();
      prevRect := rect;
      RerollAi(i.now, i.choice, i.duration);
      Move();
      FinishAnimation();
    }

    /** Rising-edge detection of keys 'c' (axe) and 'p' (chopping). */
    method ToggleKeys(keyC: bool, keyP: bool)
      modifies this
      ensures Model() == Toggled(old(Model()), keyC, keyP)
    {
      if keyC {
        if !axeKeyHeld { usingAxe := !usingAxe; }
        axeKeyHeld := true;
      } else {
        axeKeyHeld := false;
      }
      if keyP {
        if !chopKeyHeld { chopping := !chopping; }
        chopKeyHeld := true;
      } else {
        chopKeyHeld := false;
      }
    }

    method ConsumeReverse()
      modifies this
      ensures Model() == old(Model()).(motion := ReverseConsumed(old(Model()).motion))
    {
      if reverseNextMove {
        if direction.x == 1 {
          direction, facing := direction.(x := -1), Left;
        } else if direction.x == -1 {
          direction, facing := direction.(x := 1), Right;
        } else if direction.y == 1 {
          direction, facing := direction.(y := -1), Up;
        } else if direction.y == -1 {
          direction, facing := direction.(y := 1), Down;
        }
        reverseNextMove := false;
      }
    }

    method RerollAi(now: int, choice: Choice, duration: int)
      modifies this
      ensures var (m, ai) := Rerolled(old(Model()).motion, old(Model()).ai, now, choice, duration);
        Model() == old(Model()).(motion := m, ai := ai)
    {
      if aiMode && now > aiNextChange {
        match choice {
          case Walk(f) => direction, facing := Offset(f), f;
          case Idle => direction := Zero;
        }
        aiMoveDuration := duration;
        aiNextChange := now + aiMoveDuration;
      }
    }

    method Move()
      modifies this
      ensures Model() == old(Model()).(motion := Moved(old(Model()).motion, width, height))
    {
      isMoving := direction != Zero;
      rect := rect.Moved(direction.x * speed, direction.y * speed);
      if rect.x < 0 || rect.Right() > width || rect.y < 0 || rect.Bottom() > height {
        rect := Clamp(rect, width, height);
        reverseNextMove := true;
      }
    }

    method FinishAnimation()
      modifies this
      ensures Model() == Finished(old(Model()))
    {
      if chopping {
        direction, facing := Zero, lastFacing;
      } else if usingAxe {
      } else if isMoving {
        lastFacing := facing;
      }
    }
  }
}
