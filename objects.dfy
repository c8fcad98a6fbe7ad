/**
 * The harvestable resource nodes of src/objects.py: trees holding wood and berry
 * bushes holding berries. A node is removed from its sprite groups (`kill`)
 * once its stock reaches zero; `alive` records group membership.
 */
module Objects {
  import opened Geometry

  const TreeWood := 25
  const BushBerries := 15

  /** `max(0, level - amount)`: what is left after taking `amount`. */
  function Reduced(level: int, amount: int): (r: int)
    ensures r >= 0
    ensures r == 0 || r == level - amount
    ensures amount >= 0 && level >= 0 ==> r <= level
    ensures level - amount >= 0 ==> r == level - amount
  {
    Max(0, level - amount)
  }

  function Sum(amounts: seq<int>): int
    decreases |amounts|
  {
    if amounts == [] then 0 else amounts[0] + Sum(amounts[1..])
  }

  /** Repeated reductions. */
  function ReducedAll(level: int, amounts: seq<int>): int
    decreases |amounts|
  {
    if amounts == [] then level else ReducedAll(Reduced(level, amounts[0]), amounts[1..])
  }

  /**
   * Taking non-negative amounts one after another from a non-negative stock
   * leaves the same as taking their total at once.
   */
  lemma {:induction false} ReducedAllIsReducedSum(level: int, amounts: seq<int>)
    requires level >= 0
    requires forall i :: 0 <= i < |amounts| ==> amounts[i] >= 0
    ensures ReducedAll(level, amounts) == Reduced(level, Sum(amounts))
    decreases |amounts|
  {
    if amounts != [] {
      var rest := amounts[1..];
      assert forall i :: 0 <= i < |rest| ==> rest[i] >= 0 by {
        forall i | 0 <= i < |rest| ensures rest[i] >= 0 { assert rest[i] == amounts[i + 1]; }
      }
      ReducedAllIsReducedSum(Reduced(level, amounts[0]), rest);
      SumNonNegative(rest);
    }
  }

  lemma {:induction false} SumNonNegative(amounts: seq<int>)
    requires forall i :: 0 <= i < |amounts| ==> amounts[i] >= 0
    ensures Sum(amounts) >= 0
    decreases |amounts|
  {
    if amounts != [] {
      var rest := amounts[1..];
      assert forall i :: 0 <= i < |rest| ==> rest[i] >= 0 by {
        forall i | 0 <= i < |rest| ensures rest[i] >= 0 { assert rest[i] == amounts[i + 1]; }
      }
      SumNonNegative(rest);
    }
  }

  class Tree {
    const rect: Rect
    const id: string
    var wood: int
    const maxWood: int
    /** Still a member of its sprite groups. */
    var alive: bool

    predicate Valid()
      reads this
    {
      0 <= wood <= maxWood && maxWood == TreeWood
    }

    /** A tree of `size` × `size` pixels centred on (cx, cy). */
    constructor(cx: int, cy: int, size: nat, id: string)
      ensures rect == RectAround(cx, cy, size, size) && this.id == id
      ensures wood == TreeWood && maxWood == TreeWood && alive
      ensures Valid()
    {
      rect := RectAround(cx, cy, size, size);
      this.id := id;
      wood, maxWood := TreeWood, TreeWood;
      alive := true;
    }

    /** Takes `amount` wood, floored at zero; a tree left without wood is removed. */
    method ReduceWood(amount: int)
      modifies this
      ensures wood == Reduced(old(wood), amount)
      ensures alive == (old(alive) && wood > 0)
      ensures amount >= 0 && old(Valid()) ==> Valid()
    {
      wood := Max(0, wood - amount);
      if wood <= 0 {
        alive := false;
      }
    }
  }

  class BerryBush {
    const rect: Rect
    const id: string
    var berries: int
    const maxBerries: int
    var alive: bool

    predicate Valid()
      reads this
    {
      0 <= berries <= maxBerries && maxBerries == BushBerries
    }

    constructor(cx: int, cy: int, size: nat, id: string)
      ensures rect == RectAround(cx, cy, size, size) && this.id == id
      ensures berries == BushBerries && maxBerries == BushBerries && alive
      ensures Valid()
    {
      rect := RectAround(cx, cy, size, size);
      this.id := id;
      berries, maxBerries := BushBerries, BushBerries;
      alive := true;
    }

    /** Takes `amount` berries, floored at zero; an empty bush is removed. */
    method ReduceBerries(amount: int)
      modifies this
      ensures berries == Reduced(old(berries), amount)
      ensures alive == (old(alive) && berries > 0)
      ensures amount >= 0 && old(Valid()) ==> Valid()
    {
      berries := Max(0, berries - amount);
      if berries <= 0 {
        alive := false;
      }
    }
  }
}
