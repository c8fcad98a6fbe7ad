/**
 * The phases of `Board.run` in src/board.py as functions of the board's units
 * and fog: movement, revealing the cells under the units, flagging scouts
 * that overlap another unit, pushing units back out of obstacles, and
 * removing units without health. Board villagers are the base class of
 * src/villager/villager.py, which has a `prev_rect` and a `health` but no
 * `reverse_next_move`; scouts have all three.
 */
module Collisions {
  import opened Geometry
  import opened World
  import opened HarvestRules
  import Movement
  import Scouts
  import opened Grid

  /** `settings.WIDTH` and `settings.HEIGHT`: the bounds scouts are kept in. */
  const ScoutWidth := 1280
  const ScoutHeight := 704

  /** The fog and the two unit groups of the board, in group order. */
  datatype Field = Field(revealed: set<Cell>, villagers: seq<Body>, scouts: seq<Scouts.ScoutState>)

  /** The invariant every unit keeps: an axis direction, a non-negative speed, scout health in range. */
  predicate UnitsValid(vs: seq<Body>, ss: seq<Scouts.ScoutState>) {
    (forall k :: 0 <= k < |vs| ==> HarvestRules.Valid(vs[k])) &&
    (forall k :: 0 <= k < |ss| ==> Scouts.Valid(ss[k]))
  }

  /** `list(villager_sprites) + list(scout_sprites)`, as the rectangles of the units. */
  function Rects(vs: seq<Body>, ss: seq<Scouts.ScoutState>): (rs: seq<Rect>)
    ensures |rs| == |vs| + |ss|
    ensures forall k :: 0 <= k < |vs| ==> rs[k] == vs[k].rect
    ensures forall k :: 0 <= k < |ss| ==> rs[|vs| + k] == ss[k].motion.rect
  {
    seq(|vs|, k requires 0 <= k < |vs| => vs[k].rect) + seq(|ss|, k requires 0 <= k < |ss| => ss[k].motion.rect)
  }

  /** The pixel centres of some rectangles, in order. */
  function Centres(rs: seq<Rect>): (ps: seq<(int, int)>)
    ensures |ps| == |rs| && forall k :: 0 <= k < |rs| ==> ps[k] == (rs[k].CenterX(), rs[k].CenterY())
  {
    seq(|rs|, k requires 0 <= k < |rs| => (rs[k].CenterX(), rs[k].CenterY()))
  }

  /** `reveal_cell` applied to each point in turn. */
  function RevealAt(revealed: set<Cell>, grid: set<Cell>, ps: seq<(int, int)>, tileSize: int): (r: set<Cell>)
    requires tileSize > 0
    ensures revealed <= r && r - revealed <= grid
    decreases |ps|
  {
    if ps == [] then revealed
    else
      var p := ps[|ps| - 1];
      Reveal(RevealAt(revealed, grid, ps[..|ps| - 1], tileSize), grid, p.0, p.1, tileSize)
  }

  /** After revealing a list of points, exactly the grid cells under some point have joined the revealed set. */
  lemma {:induction false} RevealAtExactly(revealed: set<Cell>, grid: set<Cell>, ps: seq<(int, int)>, tileSize: int, x: Cell)
    requires tileSize > 0
    ensures x in RevealAt(revealed, grid, ps, tileSize) <==>
      x in revealed || (x in grid && exists k :: 0 <= k < |ps| && CellOfPoint(ps[k].0, ps[k].1, tileSize) == x)
    decreases |ps|
  {
    if ps != [] {
      var init := ps[..|ps| - 1];
      RevealAtExactly(revealed, grid, init, tileSize, x);
      var p := ps[|ps| - 1];
      if x in grid && (exists k :: 0 <= k < |ps| && CellOfPoint(ps[k].0, ps[k].1, tileSize) == x) {
        var k :| 0 <= k < |ps| && CellOfPoint(ps[k].0, ps[k].1, tileSize) == x;
        if k < |init| {
          assert init[k] == ps[k];
        }
      }
      if exists k :: 0 <= k < |init| && CellOfPoint(init[k].0, init[k].1, tileSize) == x {
        var k :| 0 <= k < |init| && CellOfPoint(init[k].0, init[k].1, tileSize) == x;
        assert ps[k] == init[k];
      }
    }
  }

  /** Entity `x` overlaps some other entity of the list. */
  predicate Touched(rs: seq<Rect>, x: int) {
    exists j :: 0 <= j < |rs| && j != x && 0 <= x < |rs| && Collide(rs[x], rs[j])
  }

  /**
   * Entity `x` is one of a colliding pair (p, q), p < q, that the double loop
   * of `avoid_unit_collisions` has visited before reaching pair (i, j).
   */
  predicate HitBefore(rs: seq<Rect>, x: int, i: int, j: int) {
    exists p, q :: 0 <= p < q < |rs| && (p < i || (p == i && q < j)) && (x == p || x == q) && Collide(rs[p], rs[q])
  }

  lemma HitBeforeStart(rs: seq<Rect>, x: int)
    ensures !HitBefore(rs, x, 0, 1)
  {
  }

  /** Visiting pair (i, j) adds exactly that pair. */
  lemma HitBeforeStep(rs: seq<Rect>, x: int, i: int, j: int)
    requires 0 <= i < j < |rs|
    ensures HitBefore(rs, x, i, j + 1) <==> HitBefore(rs, x, i, j) || ((x == i || x == j) && Collide(rs[i], rs[j]))
  {
    if HitBefore(rs, x, i, j + 1) && !((x == i || x == j) && Collide(rs[i], rs[j])) {
      var p, q :| 0 <= p < q < |rs| && (p < i || (p == i && q < j + 1)) && (x == p || x == q) && Collide(rs[p], rs[q]);
      assert (p < i || (p == i && q < j));
    }
  }

  /** The end of row i is the start of row i + 1. */
  lemma HitBeforeNextRow(rs: seq<Rect>, x: int, i: int)
    requires 0 <= i < |rs|
    ensures HitBefore(rs, x, i, |rs|) <==> HitBefore(rs, x, i + 1, i + 2)
  {
  }

  /** Once every pair has been visited, the flagged entities are exactly those overlapping another. */
  lemma HitBeforeAll(rs: seq<Rect>, x: int)
    requires 0 <= x < |rs|
    ensures HitBefore(rs, x, |rs|, |rs| + 1) <==> Touched(rs, x)
  {
    if Touched(rs, x) {
      var j :| 0 <= j < |rs| && j != x && Collide(rs[x], rs[j]);
      CollideSymmetric(rs[x], rs[j]);
      if x < j {
        assert 0 <= x < j < |rs| && (x < |rs|) && Collide(rs[x], rs[j]);
      } else {
        assert 0 <= j < x < |rs| && (j < |rs|) && Collide(rs[j], rs[x]);
      }
    }
    if HitBefore(rs, x, |rs|, |rs| + 1) {
      var p, q :| 0 <= p < q < |rs| && (x == p || x == q) && Collide(rs[p], rs[q]);
      CollideSymmetric(rs[p], rs[q]);
      if x == p {
        assert q != x && Collide(rs[x], rs[q]);
      } else {
        assert p != x && Collide(rs[x], rs[p]);
      }
    }
  }

  /** The effect of visiting pair (i, j) in `avoid_unit_collisions` on the scout group. */
  function PairVisited(ss: seq<Scouts.ScoutState>, rs: seq<Rect>, nv: nat, i: nat, j: nat): (r: seq<Scouts.ScoutState>)
    requires |rs| == nv + |ss| && i < j < |rs|
    ensures |r| == |ss|
  {
    if Collide(rs[i], rs[j]) then
      var a := if i >= nv then ss[i - nv := Flagged(ss[i - nv], true)] else ss;
      if j >= nv then a[j - nv := Flagged(a[j - nv], true)] else a
    else ss
  }

  /** The scout group once the double loop has visited every pair before (i, j). */
  function FlagsUpTo(s0: seq<Scouts.ScoutState>, rs: seq<Rect>, nv: nat, i: int, j: int): (r: seq<Scouts.ScoutState>)
    ensures |r| == |s0|
  {
    seq(|s0|, k requires 0 <= k < |s0| => Flagged(s0[k], HitBefore(rs, nv + k, i, j)))
  }

  /** Visiting pair (i, j) moves the loop's state from before (i, j) to before (i, j + 1). */
  lemma PairVisitedFlags(s0: seq<Scouts.ScoutState>, rs: seq<Rect>, nv: nat, i: nat, j: nat)
    requires |rs| == nv + |s0| && i < j < |rs|
    ensures PairVisited(FlagsUpTo(s0, rs, nv, i, j), rs, nv, i, j) == FlagsUpTo(s0, rs, nv, i, j + 1)
  {
    var r := PairVisited(FlagsUpTo(s0, rs, nv, i, j), rs, nv, i, j);
    forall k | 0 <= k < |s0| ensures r[k] == FlagsUpTo(s0, rs, nv, i, j + 1)[k] {
      HitBeforeStep(rs, nv + k, i, j);
    }
  }

  /** Finishing row i of the double loop. */
  lemma RowVisitedFlags(s0: seq<Scouts.ScoutState>, rs: seq<Rect>, nv: nat, i: nat)
    requires |rs| == nv + |s0| && i < |rs|
    ensures FlagsUpTo(s0, rs, nv, i, |rs|) == FlagsUpTo(s0, rs, nv, i + 1, i + 2)
  {
    forall k | 0 <= k < |s0| ensures FlagsUpTo(s0, rs, nv, i, |rs|)[k] == FlagsUpTo(s0, rs, nv, i + 1, i + 2)[k] {
      HitBeforeNextRow(rs, nv + k, i);
    }
  }

  /** After the last pair, exactly the touching scouts are flagged. */
  lemma AllVisitedFlags(s0: seq<Scouts.ScoutState>, rs: seq<Rect>, nv: nat)
    requires |rs| == nv + |s0|
    ensures FlagsUpTo(s0, rs, nv, |rs|, |rs| + 1) == Contacted(s0, rs, nv)
  {
    forall k | 0 <= k < |s0| ensures FlagsUpTo(s0, rs, nv, |rs|, |rs| + 1)[k] == Contacted(s0, rs, nv)[k] {
      HitBeforeAll(rs, nv + k);
    }
  }

  /** Before the first pair no scout is flagged by the loop. */
  lemma NoneVisitedFlags(s0: seq<Scouts.ScoutState>, rs: seq<Rect>, nv: nat)
    ensures FlagsUpTo(s0, rs, nv, 0, 1) == s0
  {
    forall k | 0 <= k < |s0| ensures FlagsUpTo(s0, rs, nv, 0, 1)[k] == s0[k] {
      HitBeforeStart(rs, nv + k);
    }
  }

  /** One more entity of `avoid_collisions`: the fog gains its obstacle's cell, if it hit one. */
  lemma BumpStep(revealed: set<Cell>, grid: set<Cell>, obs: seq<Sprite>, rs: seq<Rect>, e: nat, tileSize: int)
    requires tileSize > 0 && e < |rs|
    ensures RevealAt(revealed, grid, BumpPoints(obs, rs[..e + 1]), tileSize) ==
      match ObstacleCentre(obs, rs[e])
      case Some(p) => Reveal(RevealAt(revealed, grid, BumpPoints(obs, rs[..e]), tileSize), grid, p.0, p.1, tileSize)
      case None => RevealAt(revealed, grid, BumpPoints(obs, rs[..e]), tileSize)
  {
    assert rs[..e + 1][..e] == rs[..e];
    var ps := BumpPoints(obs, rs[..e]);
    match ObstacleCentre(obs, rs[e])
    case Some(p) =>
      assert BumpPoints(obs, rs[..e + 1]) == ps + [p];
      assert (ps + [p])[..|ps|] == ps;
    case None =>
  }

  /** A scout with its reverse flag set when `hit`. */
  function Flagged(s: Scouts.ScoutState, hit: bool): Scouts.ScoutState {
    s.(motion := s.motion.(reverseNextMove := s.motion.reverseNextMove || hit))
  }

  /**
   * `avoid_unit_collisions`: every scout overlapping another unit, villager or
   * scout, will reverse on its next move; villagers have no reverse flag, and
   * positions do not change.
   */
  function Contacted(ss: seq<Scouts.ScoutState>, rs: seq<Rect>, nv: nat): (r: seq<Scouts.ScoutState>)
    requires |rs| == nv + |ss|
    ensures |r| == |ss|
    ensures forall k :: 0 <= k < |ss| ==>
      r[k].motion.reverseNextMove == (ss[k].motion.reverseNextMove || Touched(rs, nv + k)) &&
      r[k] == ss[k].(motion := r[k].motion) &&
      r[k].motion == ss[k].motion.(reverseNextMove := r[k].motion.reverseNextMove)
  {
    seq(|ss|, k requires 0 <= k < |ss| => Flagged(ss[k], Touched(rs, nv + k)))
  }

  /** Flagging moves nobody: the units' rectangles are those before `avoid_unit_collisions`. */
  lemma ContactKeepsRects(vs: seq<Body>, ss: seq<Scouts.ScoutState>, rs: seq<Rect>)
    requires |rs| == |vs| + |ss|
    ensures Rects(vs, Contacted(ss, rs, |vs|)) == Rects(vs, ss)
  {
    var r := Contacted(ss, rs, |vs|);
    assert forall k :: 0 <= k < |ss| ==> r[k].motion.rect == ss[k].motion.rect;
  }

  /** Two overlapping scouts both reverse: the check runs in both directions. */
  lemma ContactIsMutual(vs: seq<Body>, ss: seq<Scouts.ScoutState>, k: nat, l: nat)
    requires k < |ss| && l < |ss| && k != l && Collide(ss[k].motion.rect, ss[l].motion.rect)
    ensures var r := Contacted(ss, Rects(vs, ss), |vs|);
      r[k].motion.reverseNextMove && r[l].motion.reverseNextMove
  {
    var rs := Rects(vs, ss);
    CollideSymmetric(ss[k].motion.rect, ss[l].motion.rect);
    assert rs[|vs| + k] == ss[k].motion.rect && rs[|vs| + l] == ss[l].motion.rect;
    assert Touched(rs, |vs| + k) && Touched(rs, |vs| + l);
  }

  /**
   * `spritecollideany(entity, obstacles_sprites)`: the first obstacle, in group
   * order, from `k` on, overlapping `r`.
   */
  function FirstObstacle(obs: seq<Sprite>, r: Rect, k: nat): (i: Option<nat>)
    ensures i.Some? ==> k <= i.value < |obs| && Collide(r, obs[i.value].rect)
    ensures forall j :: k <= j < |obs| && (i.None? || j < i.value) ==> !Collide(r, obs[j].rect)
    decreases |obs| - k
  {
    if k >= |obs| then None
    else if Collide(r, obs[k].rect) then Some(k)
    else FirstObstacle(obs, r, k + 1)
  }

  /** The centre of the obstacle that entity rectangle `r` runs into, if any. */
  function ObstacleCentre(obs: seq<Sprite>, r: Rect): Option<(int, int)> {
    match FirstObstacle(obs, r, 0)
    case Some(i) => Some((obs[i].rect.CenterX(), obs[i].rect.CenterY()))
    case None => None
  }

  /** The obstacle centres `avoid_collisions` reveals, entity by entity. */
  function BumpPoints(obs: seq<Sprite>, rs: seq<Rect>): (ps: seq<(int, int)>)
    ensures |ps| <= |rs|
    ensures forall p :: p in ps ==> exists k :: 0 <= k < |rs| && ObstacleCentre(obs, rs[k]) == Some(p)
    decreases |rs|
  {
    if rs == [] then []
    else
      var init := rs[..|rs| - 1];
      var ps := BumpPoints(obs, init);
      assert forall p :: p in ps ==> exists k :: 0 <= k < |rs| && ObstacleCentre(obs, rs[k]) == Some(p) by {
        forall p | p in ps ensures exists k :: 0 <= k < |rs| && ObstacleCentre(obs, rs[k]) == Some(p) {
          var k :| 0 <= k < |init| && ObstacleCentre(obs, init[k]) == Some(p);
          assert rs[k] == init[k];
        }
      }
      match ObstacleCentre(obs, rs[|rs| - 1])
      case Some(p) => ps + [p]
      case None => ps
  }

  /** Conversely, the obstacle centre of every unit that ran into an obstacle is among the points. */
  lemma {:induction false} BumpPointsComplete(obs: seq<Sprite>, rs: seq<Rect>, k: nat)
    requires k < |rs| && ObstacleCentre(obs, rs[k]).Some?
    ensures ObstacleCentre(obs, rs[k]).value in BumpPoints(obs, rs)
    decreases |rs|
  {
    var init := rs[..|rs| - 1];
    if k < |rs| - 1 {
      assert init[k] == rs[k];
      BumpPointsComplete(obs, init, k);
    }
  }

  /**
   * Every unit that runs into an obstacle lifts the fog of the obstacle's cell,
   * when the grid has that cell.
   */
  lemma BumpRevealsObstacle(revealed: set<Cell>, grid: set<Cell>, obs: seq<Sprite>, rs: seq<Rect>, tileSize: int, k: nat)
    requires tileSize > 0 && k < |rs| && ObstacleCentre(obs, rs[k]).Some?
    ensures var p := ObstacleCentre(obs, rs[k]).value;
      CellOfPoint(p.0, p.1, tileSize) in grid ==>
        CellOfPoint(p.0, p.1, tileSize) in RevealAt(revealed, grid, BumpPoints(obs, rs), tileSize)
  {
    var p := ObstacleCentre(obs, rs[k]).value;
    var ps := BumpPoints(obs, rs);
    BumpPointsComplete(obs, rs, k);
    var j :| 0 <= j < |ps| && ps[j] == p;
    RevealAtExactly(revealed, grid, ps, tileSize, CellOfPoint(p.0, p.1, tileSize));
  }

  /** A villager that runs into an obstacle goes back to its previous rectangle. */
  function BumpedVillager(b: Body, obs: seq<Sprite>): (r: Body)
    ensures FirstObstacle(obs, b.rect, 0).Some? ==> r == b.(rect := b.prevRect)
    ensures FirstObstacle(obs, b.rect, 0).None? ==> r == b
  {
    if FirstObstacle(obs, b.rect, 0).Some? then b.(rect := b.prevRect) else b
  }

  /** A scout that runs into an obstacle goes back to its previous rectangle and will reverse. */
  function BumpedScout(s: Scouts.ScoutState, obs: seq<Sprite>): (r: Scouts.ScoutState)
    ensures FirstObstacle(obs, s.motion.rect, 0).Some? ==>
      r == s.(motion := s.motion.(rect := s.motion.prevRect, reverseNextMove := true))
    ensures FirstObstacle(obs, s.motion.rect, 0).None? ==> r == s
  {
    if FirstObstacle(obs, s.motion.rect, 0).Some? then
      s.(motion := s.motion.(rect := s.motion.prevRect, reverseNextMove := true))
    else s
  }

  function BumpedVillagers(vs: seq<Body>, obs: seq<Sprite>): (r: seq<Body>)
    ensures |r| == |vs| && forall k :: 0 <= k < |vs| ==> r[k] == BumpedVillager(vs[k], obs)
  {
    seq(|vs|, k requires 0 <= k < |vs| => BumpedVillager(vs[k], obs))
  }

  function BumpedScouts(ss: seq<Scouts.ScoutState>, obs: seq<Sprite>): (r: seq<Scouts.ScoutState>)
    ensures |r| == |ss| && forall k :: 0 <= k < |ss| ==> r[k] == BumpedScout(ss[k], obs)
  {
    seq(|ss|, k requires 0 <= k < |ss| => BumpedScout(ss[k], obs))
  }

  /** The villagers once the loop of `avoid_collisions` has passed the first `e` units. */
  function VillagersBumpedUpTo(v0: seq<Body>, obs: seq<Sprite>, e: int): (r: seq<Body>)
    ensures |r| == |v0|
  {
    seq(|v0|, k requires 0 <= k < |v0| => if k < e then BumpedVillager(v0[k], obs) else v0[k])
  }

  /** The scouts once the loop of `avoid_collisions` has passed the first `e` units, `nv` villagers first. */
  function ScoutsBumpedUpTo(s0: seq<Scouts.ScoutState>, obs: seq<Sprite>, nv: nat, e: int): (r: seq<Scouts.ScoutState>)
    ensures |r| == |s0|
  {
    seq(|s0|, k requires 0 <= k < |s0| => if nv + k < e then BumpedScout(s0[k], obs) else s0[k])
  }

  /** Before the loop no unit has moved back. */
  lemma NoneBumped(v0: seq<Body>, s0: seq<Scouts.ScoutState>, obs: seq<Sprite>)
    ensures VillagersBumpedUpTo(v0, obs, 0) == v0 && ScoutsBumpedUpTo(s0, obs, |v0|, 0) == s0
  {
  }

  /** Unit `e` is bumped on its own: a villager when `e` < |v0|, else a scout. */
  lemma BumpedUpToStep(v0: seq<Body>, s0: seq<Scouts.ScoutState>, obs: seq<Sprite>, e: nat)
    requires e < |v0| + |s0|
    ensures e < |v0| ==>
      VillagersBumpedUpTo(v0, obs, e)[e] == v0[e] &&
      VillagersBumpedUpTo(v0, obs, e)[e := BumpedVillager(v0[e], obs)] == VillagersBumpedUpTo(v0, obs, e + 1) &&
      ScoutsBumpedUpTo(s0, obs, |v0|, e) == ScoutsBumpedUpTo(s0, obs, |v0|, e + 1)
    ensures e >= |v0| ==>
      ScoutsBumpedUpTo(s0, obs, |v0|, e)[e - |v0|] == s0[e - |v0|] &&
      ScoutsBumpedUpTo(s0, obs, |v0|, e)[e - |v0| := BumpedScout(s0[e - |v0|], obs)] == ScoutsBumpedUpTo(s0, obs, |v0|, e + 1) &&
      VillagersBumpedUpTo(v0, obs, e) == VillagersBumpedUpTo(v0, obs, e + 1)
  {
  }

  /** After the loop every unit has been bumped. */
  lemma AllBumped(v0: seq<Body>, s0: seq<Scouts.ScoutState>, obs: seq<Sprite>)
    ensures VillagersBumpedUpTo(v0, obs, |v0| + |s0|) == BumpedVillagers(v0, obs)
    ensures ScoutsBumpedUpTo(s0, obs, |v0|, |v0| + |s0|) == BumpedScouts(s0, obs)
  {
  }

  /** The villagers that survive the `health <= 0` sweep, in group order. */
  function LiveVillagers(vs: seq<Body>): (r: seq<Body>)
    ensures |r| <= |vs|
    decreases |vs|
  {
    if vs == [] then []
    else
      var last := vs[|vs| - 1];
      LiveVillagers(vs[..|vs| - 1]) + (if last.health > 0 then [last] else [])
  }

  /** Exactly the villagers with positive health stay. */
  lemma {:induction false} LiveVillagersExactly(vs: seq<Body>)
    ensures forall b :: b in LiveVillagers(vs) <==> b in vs && b.health > 0
    decreases |vs|
  {
    if vs != [] {
      var init, last := vs[..|vs| - 1], vs[|vs| - 1];
      LiveVillagersExactly(init);
      assert vs == init + [last];
    }
  }

  /** The sweep over one more villager. */
  lemma LiveVillagersStep(vs: seq<Body>, k: nat)
    requires k < |vs|
    ensures LiveVillagers(vs[..k + 1]) == LiveVillagers(vs[..k]) + (if vs[k].health > 0 then [vs[k]] else [])
  {
    assert vs[..k + 1][..k] == vs[..k];
  }

  /** The scouts that survive the `health <= 0` sweep, in group order. */
  function LiveScouts(ss: seq<Scouts.ScoutState>): (r: seq<Scouts.ScoutState>)
    ensures |r| <= |ss|
    decreases |ss|
  {
    if ss == [] then []
    else
      var last := ss[|ss| - 1];
      LiveScouts(ss[..|ss| - 1]) + (if last.health > 0 then [last] else [])
  }

  /** Exactly the scouts with positive health stay. */
  lemma {:induction false} LiveScoutsExactly(ss: seq<Scouts.ScoutState>)
    ensures forall s :: s in LiveScouts(ss) <==> s in ss && s.health > 0
    decreases |ss|
  {
    if ss != [] {
      var init, last := ss[..|ss| - 1], ss[|ss| - 1];
      LiveScoutsExactly(init);
      assert ss == init + [last];
    }
  }

  /** The sweep over one more scout. */
  lemma LiveScoutsStep(ss: seq<Scouts.ScoutState>, k: nat)
    requires k < |ss|
    ensures LiveScouts(ss[..k + 1]) == LiveScouts(ss[..k]) + (if ss[k].health > 0 then [ss[k]] else [])
  {
    assert ss[..k + 1][..k] == ss[..k];
  }

  /** The villagers after the group's `update`: the base tick in the game context's bounds. */
  function MovedVillagers(vs: seq<Body>, ctx: Context): (r: seq<Body>)
    requires forall k :: 0 <= k < |vs| ==> HarvestRules.Valid(vs[k])
    ensures |r| == |vs| && forall k :: 0 <= k < |vs| ==> r[k] == BaseTick(vs[k], ctx.width, ctx.height)
  {
    seq(|vs|, k requires 0 <= k < |vs| => BaseTick(vs[k], ctx.width, ctx.height))
  }

  /** The scouts after the group's `update`, scout k drawing its clock and random choices from `inputs[k]`. */
  function MovedScouts(ss: seq<Scouts.ScoutState>, inputs: seq<Scouts.Input>): (r: seq<Scouts.ScoutState>)
    requires |inputs| == |ss| && forall k :: 0 <= k < |ss| ==> Movement.Valid(ss[k].motion)
    ensures |r| == |ss| && forall k :: 0 <= k < |ss| ==> r[k] == Scouts.Tick(ss[k], inputs[k], ScoutWidth, ScoutHeight)
  {
    seq(|ss|, k requires 0 <= k < |ss| => Scouts.Tick(ss[k], inputs[k], ScoutWidth, ScoutHeight))
  }

  /** The fog after the units' cells are revealed: scouts first, then villagers. */
  function RevealedUnder(revealed: set<Cell>, grid: set<Cell>, vs: seq<Body>, ss: seq<Scouts.ScoutState>, tileSize: int): set<Cell>
    requires tileSize > 0
  {
    RevealAt(RevealAt(revealed, grid, Centres(Rects([], ss)), tileSize), grid, Centres(Rects(vs, [])), tileSize)
  }

  /**
   * The units and fog after one `run` apart from drawing: update both groups,
   * reveal under scouts then villagers, flag overlapping units, push units out
   * of obstacles (revealing those obstacles' cells), and drop units without health.
   */
  function Tick(f: Field, grid: set<Cell>, obs: seq<Sprite>, inputs: seq<Scouts.Input>, ctx: Context, tileSize: int): Field
    requires tileSize > 0 && |inputs| == |f.scouts| && UnitsValid(f.villagers, f.scouts)
  {
    var vs := MovedVillagers(f.villagers, ctx);
    var ss := MovedScouts(f.scouts, inputs);
    var seen := RevealedUnder(f.revealed, grid, vs, ss, tileSize);
    var rs := Rects(vs, ss);
    var flagged := Contacted(ss, rs, |vs|);
    var bumped := RevealAt(seen, grid, BumpPoints(obs, rs), tileSize);
    Field(bumped, LiveVillagers(BumpedVillagers(vs, obs)), LiveScouts(BumpedScouts(flagged, obs)))
  }

  /**
   * After a run every unit left has positive health and still satisfies the
   * unit invariant, no unit has been added, and the fog only lifts, over grid cells.
   */
  lemma TickInvariant(f: Field, grid: set<Cell>, obs: seq<Sprite>, inputs: seq<Scouts.Input>, ctx: Context, tileSize: int)
    requires tileSize > 0 && |inputs| == |f.scouts| && UnitsValid(f.villagers, f.scouts)
    ensures var g := Tick(f, grid, obs, inputs, ctx, tileSize);
      (forall b :: b in g.villagers ==> b.health > 0) && (forall s :: s in g.scouts ==> s.health > 0) &&
      UnitsValid(g.villagers, g.scouts) &&
      |g.villagers| <= |f.villagers| && |g.scouts| <= |f.scouts| &&
      f.revealed <= g.revealed && g.revealed - f.revealed <= grid
  {
    var vs := MovedVillagers(f.villagers, ctx);
    var ss := MovedScouts(f.scouts, inputs);
    var rs := Rects(vs, ss);
    var flagged := Contacted(ss, rs, |vs|);
    var bv := BumpedVillagers(vs, obs);
    var bs := BumpedScouts(flagged, obs);
    assert forall k :: 0 <= k < |bv| ==> HarvestRules.Valid(bv[k]);
    assert forall k :: 0 <= k < |bs| ==> Scouts.Valid(bs[k]) by {
      forall k | 0 <= k < |bs| ensures Scouts.Valid(bs[k]) {
        assert Scouts.Valid(ss[k]);
        assert Scouts.Valid(flagged[k]);
      }
    }
    var g := Tick(f, grid, obs, inputs, ctx, tileSize);
    LiveVillagersExactly(bv);
    LiveScoutsExactly(bs);
    forall k | 0 <= k < |g.villagers| ensures HarvestRules.Valid(g.villagers[k]) {
      assert g.villagers[k] in bv;
    }
    forall k | 0 <= k < |g.scouts| ensures Scouts.Valid(g.scouts[k]) {
      assert g.scouts[k] in bs;
    }
  }
}
