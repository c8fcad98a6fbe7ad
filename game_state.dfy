/**
 * The economy counters of src/game_state.py: score and the wood, gold and food
 * stocks, and the game-over flag. Score is a real number so that the 1.2 points
 * per unit of wood are exact.
 */
module Economy {

  datatype Counters = Counters(score: real, wood: int, gold: int, food: int, gameOver: bool)

  /** A fresh game state. */
  const Initial := Counters(0.0, 0, 0, 0, false)

  /** The updates the game state offers. */
  datatype Op =
    | AddWood(amount: int)
    | AddGold(amount: int)
    | AddFood(amount: int)
    | UpdateScore(points: real)
    | Reset

  /** The effect of one update: each one changes only its own counter. */
  function Apply(c: Counters, op: Op): (r: Counters)
    ensures op.AddWood? ==> r == c.(wood := c.wood + op.amount)
    ensures op.AddGold? ==> r == c.(gold := c.gold + op.amount)
    ensures op.AddFood? ==> r == c.(food := c.food + op.amount)
    ensures op.UpdateScore? ==> r == c.(score := c.score + op.points)
    ensures op.Reset? ==> r == Initial.(gameOver := c.gameOver)
  {
    match op
    case AddWood(a) => c.(wood := c.wood + a)
    case AddGold(a) => c.(gold := c.gold + a)
    case AddFood(a) => c.(food := c.food + a)
    case UpdateScore(p) => c.(score := c.score + p)
    case Reset => Counters(0.0, 0, 0, 0, c.gameOver)
  }

  /** A sequence of updates applied in order. */
  function Run(c: Counters, ops: seq<Op>): Counters
    decreases |ops|
  {
    if ops == [] then c else Run(Apply(c, ops[0]), ops[1..])
  }

  /** An update that cannot lower any counter. */
  predicate Growing(op: Op) {
    match op
    case AddWood(a) => a >= 0
    case AddGold(a) => a >= 0
    case AddFood(a) => a >= 0
    case UpdateScore(p) => p >= 0.0
    case Reset => false
  }

  /** Every counter of `b` is at least the one of `a`, and the game-over flag agrees. */
  predicate Dominates(a: Counters, b: Counters) {
    a.score <= b.score && a.wood <= b.wood && a.gold <= b.gold && a.food <= b.food &&
    a.gameOver == b.gameOver
  }

  /** Between resets, with non-negative amounts, no counter ever decreases. */
  lemma {:induction false} RunMonotone(c: Counters, ops: seq<Op>)
    requires forall i :: 0 <= i < |ops| ==> Growing(ops[i])
    ensures Dominates(c, Run(c, ops))
    decreases |ops|
  {
    if ops != [] {
      var c1 := Apply(c, ops[0]);
      assert Growing(ops[0]);
      RunMonotone(c1, ops[1..]);
    }
  }

  /** The wood added by a sequence of updates. */
  function WoodAdded(ops: seq<Op>): int
    decreases |ops|
  {
    if ops == [] then 0
    else (if ops[0].AddWood? then ops[0].amount else 0) + WoodAdded(ops[1..])
  }

  /** Without a reset, the wood stock is the initial stock plus everything added. */
  lemma {:induction false} RunWoodTotal(c: Counters, ops: seq<Op>)
    requires forall i :: 0 <= i < |ops| ==> !ops[i].Reset?
    ensures Run(c, ops).wood == c.wood + WoodAdded(ops)
    ensures Run(c, ops).gameOver == c.gameOver
    decreases |ops|
  {
    if ops != [] {
      assert !ops[0].Reset?;
      RunWoodTotal(Apply(c, ops[0]), ops[1..]);
    }
  }

  /** A reset at any point forgets everything before it, except the game-over flag. */
  lemma {:induction false} RunAfterReset(c: Counters, d: Counters, before: seq<Op>, after: seq<Op>)
    requires c.gameOver == d.gameOver
    requires forall i :: 0 <= i < |before| ==> !before[i].Reset?
    ensures Run(c, before + [Reset] + after) == Run(Apply(d, Reset), after)
    decreases |before|
  {
    if before == [] {
      assert before + [Reset] + after == [Reset] + after;
      assert ([Reset] + after)[1..] == after;
    } else {
      assert (before + [Reset] + after)[1..] == before[1..] + [Reset] + after;
      assert !before[0].Reset?;
      RunWoodTotal(c, [before[0]]);
      assert Apply(c, before[0]).gameOver == c.gameOver;
      RunAfterReset(Apply(c, before[0]), d, before[1..], after);
    }
  }

  /** The stocks reported by `get_resources`. */
  datatype Resources = Resources(wood: int, gold: int, food: int)

  function ResourcesOf(c: Counters): (r: Resources)
    ensures r.wood == c.wood && r.gold == c.gold && r.food == c.food
  {
    Resources(c.wood, c.gold, c.food)
  }

  /** The score plays no part in the reported resources, and neither does an update to it. */
  lemma ResourcesIgnoreScore(c: Counters, points: real)
    ensures ResourcesOf(Apply(c, UpdateScore(points))) == ResourcesOf(c)
  {
  }

  /** The mutable game state object. */
  class GameState {
    var score: real
    var wood: int
    var gold: int
    var food: int
    var gameOver: bool

    function Model(): Counters
      reads this
    {
      Counters(score, wood, gold, food, gameOver)
    }

    constructor()
      ensures Model() == Initial
    {
      score, wood, gold, food, gameOver := 0.0, 0, 0, 0, false;
    }

    method AddWood(amount: int)
      modifies this
      ensures Model() == Apply(old(Model()), Op.AddWood(amount))
    {
      wood := wood + amount;
    }

    method AddGold(amount: int)
      modifies this
      ensures Model() == Apply(old(Model()), Op.AddGold(amount))
    {
      gold := gold + amount;
    }

    method AddFood(amount: int)
      modifies this
      ensures Model() == Apply(old(Model()), Op.AddFood(amount))
    {
      food := food + amount;
    }

    function GetResources(): (r: Resources)
      reads this
      ensures r == ResourcesOf(Model())
    {
      Resources(wood, gold, food)
    }

    method UpdateScore(points: real)
      modifies this
      ensures Model() == Apply(old(Model()), Op.UpdateScore(points))
    {
      score := score + points;
    }

    method Reset()
      modifies this
      ensures Model() == Apply(old(Model()), Op.Reset)
    {
      score, wood, gold, food := 0.0, 0, 0, 0;
    }
  }
}
