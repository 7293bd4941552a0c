/**
 * Obstacles and their spawn scheduler: per-type geometry and hitboxes,
 * longitudinal advance, removal once past the runner, the distance-based
 * spawn countdown, and the collision query restricted to a narrow band
 * around the runner's longitudinal position.
 */
module Obstacles {
  import opened Utils
  import Players

  /** Longitudinal position at which obstacles appear. */
  const SpawnZ: real := -50.0
  /** Obstacles further along than this have passed the runner. */
  const OffScreenZ: real := 10.0
  /** Longitudinal advance per update per unit of speed. */
  const StepFactor: real := 0.1
  /** Thickness of a hurdle post; the crossbar spans the lane minus one post. */
  const PostWidth: real := 0.08
  /** Only obstacles with BandNear < z < BandFar are tested for collision. */
  const BandNear: real := -0.3
  const BandFar: real := 0.3

  const BaseSpawnDistance: real := 400.0
  const MinSpawnDistance: real := 200.0
  const DifficultyIncrease: real := 0.5
  /** Floor applied to the base spawn distance at every spawn. */
  const BaseSpawnFloor: real := 70.0
  /** Upper bound of the random extra gap added to each spawn distance. */
  const MaxSpawnJitter: int := 50

  /** The dimensions an obstacle gets from its type. */
  datatype Dimensions =
    | HurdleDims(width: real, height: real, crossbarHeight: real, crossbarThickness: real)
    | BarrierDims(width: real, height: real, barrierHeight: real)

  function SetupObstacleProperties(kind: ObstacleType): (d: Dimensions)
    ensures d.HurdleDims? <==> kind != OverheadBarrier
  {
    match kind
    case TallHurdle => HurdleDims(LaneWidth * 0.6, 2.5, 1.5, 0.2)
    case SmallHurdle => HurdleDims(LaneWidth * 0.6, 1.5, 0.4, 0.2)
    case OverheadBarrier => BarrierDims(TrackWidth * 0.9, 0.8, 0.4)
  }

  /** Lateral position of a new obstacle: the barrier is centred on the track, the others on their lane. */
  function ObstacleX(kind: ObstacleType, lane: int): (x: real)
    ensures kind == OverheadBarrier ==> x == 0.0
    ensures kind != OverheadBarrier ==> x == LaneCenter(lane)
  {
    if kind == OverheadBarrier then 0.0 else LaneCenter(lane)
  }

  /**
   * The hitbox of an obstacle with the given dimensions at lateral position x:
   * for a hurdle only its crossbar, for the barrier its full width.
   */
  function HitboxOf(dims: Dimensions, x: real): Rect
  {
    match dims
    case HurdleDims(_, _, crossbarHeight, crossbarThickness) =>
      var crossbarWidth := LaneWidth - PostWidth;
      Rect(x - crossbarWidth / 2.0, crossbarHeight, crossbarWidth, crossbarThickness)
    case BarrierDims(width, _, barrierHeight) =>
      Rect(x - width / 2.0, barrierHeight, width, barrierHeight)
  }

  /** The hitbox an obstacle of the given type placed for the given lane has. */
  function TypeHitbox(kind: ObstacleType, lane: int): (r: Rect)
    ensures kind != OverheadBarrier ==>
      r.width == LaneWidth - PostWidth && r.x + r.width / 2.0 == LaneCenter(lane) &&
      r.y == (if kind == TallHurdle then 1.5 else 0.4) && r.height == 0.2
    ensures kind == OverheadBarrier ==>
      r == Rect(-TrackWidth * 0.45, 0.4, TrackWidth * 0.9, 0.4)
  {
    HitboxOf(SetupObstacleProperties(kind), ObstacleX(kind, lane))
  }

  /** The first letter of each type's reason; the three differ. */
  function Initial(kind: ObstacleType): char
  {
    match kind
    case TallHurdle => 'T'
    case SmallHurdle => 'S'
    case OverheadBarrier => 'O'
  }

  /** The message reported for hitting an obstacle of the given type, naming the obstacle and the move that passes it. */
  function ReasonFor(kind: ObstacleType): (r: string)
    ensures |r| > 0 && r[0] == Initial(kind)
  {
    match kind
    case TallHurdle => "Tall hurdle - should have slid under it"
    case SmallHurdle => "Small hurdle - should have jumped over it"
    case OverheadBarrier => "Overhead barrier - should have slid under it"
  }

  /** The three reasons are distinct and none of them is empty. */
  lemma ReasonsDistinct(k1: ObstacleType, k2: ObstacleType)
    ensures ReasonFor(k1) != ""
    ensures ReasonFor(k1) == ReasonFor(k2) <==> k1 == k2
  {
    if k1 != k2 {
      assert ReasonFor(k1)[0] != ReasonFor(k2)[0];
    }
  }

  predicate InBand(z: real)
  {
    BandNear < z < BandFar
  }

  /** Outcome of a collision query. */
  datatype CollisionResult = CollisionResult(collision: bool, reason: string)

  class Obstacle {
    const kind: ObstacleType
    const lane: int
    const dims: Dimensions
    const x: real
    const y: real
    var z: real

    constructor (kind: ObstacleType, lane: int)
      ensures this.kind == kind && this.lane == lane
      ensures dims == SetupObstacleProperties(kind)
      ensures x == ObstacleX(kind, lane) && y == dims.height / 2.0
      ensures z == SpawnZ
    {
      this.kind := kind;
      this.lane := lane;
      dims := SetupObstacleProperties(kind);
      x := ObstacleX(kind, lane);
      y := SetupObstacleProperties(kind).height / 2.0;
      z := SpawnZ;
    }

    /** Moves the obstacle towards (and past) the runner. */
    method Update(gameSpeed: real)
      modifies this
      ensures z == old(z) + gameSpeed * StepFactor
    {
      z := z + gameSpeed * StepFactor;
    }

    /** The obstacle's hitbox: for an obstacle as the scheduler creates it, the one its type and lane give. */
    function GetHitbox(): (r: Rect)
      ensures WellFormed() ==> r == TypeHitbox(kind, lane)
    {
      HitboxOf(dims, x)
    }

    /** Whether the obstacle has passed the runner; such an obstacle is beyond the collision band. */
    predicate IsOffScreen()
      reads this
      ensures IsOffScreen() ==> !InBand(z)
      ensures InBand(z) ==> !IsOffScreen()
    {
      z > OffScreenZ
    }

    /** The obstacle is as the scheduler creates it: in a lane, barrier in the middle, geometry from its type. */
    predicate WellFormed()
    {
      LeftLane <= lane <= RightLane &&
      (kind == OverheadBarrier ==> lane == MiddleLane) &&
      dims == SetupObstacleProperties(kind) &&
      x == ObstacleX(kind, lane)
    }
  }

  /** Whether an obstacle takes part in the collision query and overlaps the hitbox. */
  predicate Hits(o: Obstacle, hitbox: Rect)
    reads o
  {
    InBand(o.z) && CheckCollision(hitbox, o.GetHitbox())
  }

  /** Some listed obstacle hits the hitbox. */
  predicate AnyHit(list: seq<Obstacle>, hitbox: Rect)
    reads list
  {
    exists j :: 0 <= j < |list| && Hits(list[j], hitbox)
  }

  /** The obstacle at index j is the first listed one that hits the hitbox. */
  predicate FirstHit(list: seq<Obstacle>, hitbox: Rect, j: int)
    reads list
  {
    0 <= j < |list| && Hits(list[j], hitbox) &&
    forall k :: 0 <= k < j ==> !Hits(list[k], hitbox)
  }

  /** The obstacles that have not yet passed the runner, in their original order. */
  function KeepOnTrack(s: seq<Obstacle>): (r: seq<Obstacle>)
    reads s
    ensures |r| <= |s|
    ensures forall o :: o in r ==> o in s && !o.IsOffScreen()
    ensures forall o :: o in s && !o.IsOffScreen() ==> o in r
  {
    if s == [] then []
    else (if s[0].IsOffScreen() then [] else [s[0]]) + KeepOnTrack(s[1..])
  }

  /** Filtering distributes over concatenation, so survivors keep their relative order. */
  lemma {:induction false} KeepOnTrackAppend(a: seq<Obstacle>, b: seq<Obstacle>)
    ensures KeepOnTrack(a + b) == KeepOnTrack(a) + KeepOnTrack(b)
    decreases |a|
  {
    if a == [] {
      assert a + b == b;
    } else {
      assert (a + b)[1..] == a[1..] + b;
      KeepOnTrackAppend(a[1..], b);
    }
  }

  /** Filtering keeps the objects of a list pairwise distinct. */
  lemma {:induction false} KeepOnTrackDistinct(s: seq<Obstacle>)
    requires Distinct(s)
    ensures Distinct(KeepOnTrack(s))
    decreases |s|
  {
    if s != [] {
      KeepOnTrackDistinct(s[1..]);
      assert s[0] !in s[1..];
    }
  }

  predicate Distinct(s: seq<Obstacle>)
  {
    forall i, j :: 0 <= i < j < |s| ==> s[i] != s[j]
  }

  /** The positions of the listed obstacles, in list order. */
  function Positions(s: seq<Obstacle>): (zs: seq<real>)
    reads s
    ensures |zs| == |s|
    ensures forall i :: 0 <= i < |s| ==> zs[i] == s[i].z
  {
    if s == [] then [] else [s[0].z] + Positions(s[1..])
  }

  /** A scheduler's state as a value: its list, the positions of the listed obstacles and its two spawn distances. */
  datatype Schedule = Schedule(obstacles: seq<Obstacle>, zs: seq<real>, base: real, next: real)

  /**
   * The filter of `KeepOnTrack` on obstacles at positions zs moved forward
   * by d: the survivors and their moved positions, in order.
   */
  function KeepOnTrackAt(s: seq<Obstacle>, zs: seq<real>, d: real): (r: (seq<Obstacle>, seq<real>))
    requires |zs| == |s|
    ensures |r.0| == |r.1| <= |s|
  {
    if s == [] then ([], [])
    else
      var rest := KeepOnTrackAt(s[1..], zs[1..], d);
      if zs[0] + d > OffScreenZ then rest else ([s[0]] + rest.0, [zs[0] + d] + rest.1)
  }

  /** On a list read together with its positions, the hit tests on values agree with those on the obstacles. */
  lemma HitsAtPositions(s: Schedule, hitbox: Rect)
    requires s.zs == Positions(s.obstacles)
    ensures AnyHit(s.obstacles, hitbox) <==> AnyHitIn(s, hitbox)
    ensures forall j :: FirstHit(s.obstacles, hitbox, j) <==> FirstHitIn(s, hitbox, j)
  {
  }

  /**
   * Filtering at the obstacles' old positions moved by d is `KeepOnTrack`
   * once every obstacle has been moved, and the positions go along.
   */
  lemma {:induction false} KeepOnTrackAtPositions(s: seq<Obstacle>, zs: seq<real>, d: real)
    requires |zs| == |s| && forall i :: 0 <= i < |s| ==> s[i].z == zs[i] + d
    ensures KeepOnTrackAt(s, zs, d) == (KeepOnTrack(s), Positions(KeepOnTrack(s)))
    decreases |s|
  {
    if s != [] {
      var rest := KeepOnTrack(s[1..]);
      KeepOnTrackAtPositions(s[1..], zs[1..], d);
      assert KeepOnTrackAt(s[1..], zs[1..], d) == (rest, Positions(rest));
      if !s[0].IsOffScreen() {
        assert KeepOnTrack(s) == [s[0]] + rest;
        assert Positions([s[0]] + rest) == [s[0].z] + Positions(rest);
      } else {
        assert KeepOnTrack(s) == rest;
      }
    }
  }

  /** Whether an obstacle at position z takes part in the collision query and overlaps the hitbox. */
  predicate HitsAt(o: Obstacle, z: real, hitbox: Rect)
  {
    InBand(z) && CheckCollision(hitbox, o.GetHitbox())
  }

  /** Some obstacle of the schedule, at its recorded position, hits the hitbox. */
  predicate AnyHitIn(s: Schedule, hitbox: Rect)
  {
    exists j :: 0 <= j < |s.obstacles| && j < |s.zs| && HitsAt(s.obstacles[j], s.zs[j], hitbox)
  }

  /** The obstacle at index j is the first of the schedule that, at its recorded position, hits the hitbox. */
  predicate FirstHitIn(s: Schedule, hitbox: Rect, j: int)
  {
    0 <= j < |s.obstacles| && j < |s.zs| && HitsAt(s.obstacles[j], s.zs[j], hitbox) &&
    forall k :: 0 <= k < j && k < |s.zs| ==> !HitsAt(s.obstacles[k], s.zs[k], hitbox)
  }

  class ObstacleManager {
    var obstacles: seq<Obstacle>
    var baseSpawnDistance: real
    var nextSpawnDistance: real

    /**
     * The scheduler's invariant: the list holds distinct, well-formed
     * obstacles none of which has passed the runner; the countdown is
     * positive and the base spawn distance is at least its floor.
     */
    ghost predicate Valid()
      reads this, obstacles
    {
      Distinct(obstacles) &&
      (forall o :: o in obstacles ==> o.WellFormed() && !o.IsOffScreen()) &&
      nextSpawnDistance > 0.0 &&
      baseSpawnDistance >= BaseSpawnFloor
    }

    constructor ()
      ensures Valid()
      ensures obstacles == [] && baseSpawnDistance == BaseSpawnDistance
      ensures nextSpawnDistance == BaseSpawnDistance
    {
      obstacles := [];
      baseSpawnDistance := BaseSpawnDistance;
      nextSpawnDistance := BaseSpawnDistance;
    }

    /** The obstacle a draw spawns: its type is drawn, and the barrier takes the middle lane, a hurdle the drawn lane. */
    static predicate SpawnedFrom(o: Obstacle, typeDraw: Draw, laneDraw: Draw)
    {
      o.kind == RandomObstacleType(typeDraw) &&
      o.lane == (if o.kind == OverheadBarrier then MiddleLane else RandomLane(laneDraw))
    }

    /** The scheduler's state as a value: the list, each listed obstacle's position, and the two distances. */
    function Snapshot(): (s: Schedule)
      reads this, obstacles
      ensures s.obstacles == obstacles && |s.zs| == |obstacles|
      ensures forall i :: 0 <= i < |obstacles| ==> s.zs[i] == obstacles[i].z
    {
      Schedule(obstacles, Positions(obstacles), baseSpawnDistance, nextSpawnDistance)
    }

    /**
     * The scheduler's state after one frame from the state `prev`: every
     * obstacle of the previous list advanced by speed * 0.1; the survivors
     * keep their order, followed by one new obstacle at the spawn position,
     * drawn from the draws, when the countdown ran out; and the countdown
     * restarts at max(200, base - speed * 0.5) plus the drawn gap, or else
     * drops by the speed.
     */
    predicate SteppedFrom(prev: Schedule, gameSpeed: real, typeDraw: Draw, laneDraw: Draw, gapDraw: Draw)
      reads this, obstacles, prev.obstacles
    {
      |prev.zs| == |prev.obstacles| &&
      (forall i :: 0 <= i < |prev.obstacles| ==> prev.obstacles[i].z == prev.zs[i] + gameSpeed * StepFactor) &&
      var survivors := KeepOnTrack(prev.obstacles);
      var spawned := prev.next - gameSpeed <= 0.0;
      |obstacles| == |survivors| + (if spawned then 1 else 0) &&
      obstacles[..|survivors|] == survivors &&
      (spawned ==> obstacles[|survivors|].z == SpawnZ && SpawnedFrom(obstacles[|survivors|], typeDraw, laneDraw)) &&
      baseSpawnDistance == (if spawned then Max(prev.base, BaseSpawnFloor) else prev.base) &&
      nextSpawnDistance ==
        if spawned
        then Max(MinSpawnDistance, baseSpawnDistance - gameSpeed * DifficultyIncrease) + RandomInt(0, MaxSpawnJitter, gapDraw) as real
        else prev.next - gameSpeed
    }

    /**
     * The same step stated on values: `next` is the scheduler's state after
     * one frame from `prev`, the positions of the survivors being their old
     * positions advanced by speed * 0.1.
     */
    static predicate StepsTo(prev: Schedule, next: Schedule, gameSpeed: real, typeDraw: Draw, laneDraw: Draw, gapDraw: Draw)
    {
      |prev.zs| == |prev.obstacles| && |next.zs| == |next.obstacles| &&
      var kept := KeepOnTrackAt(prev.obstacles, prev.zs, gameSpeed * StepFactor);
      var spawned := prev.next - gameSpeed <= 0.0;
      |next.obstacles| == |kept.0| + (if spawned then 1 else 0) &&
      next.obstacles[..|kept.0|] == kept.0 && next.zs[..|kept.0|] == kept.1 &&
      (spawned ==> next.zs[|kept.0|] == SpawnZ && SpawnedFrom(next.obstacles[|kept.0|], typeDraw, laneDraw)) &&
      next.base == (if spawned then Max(prev.base, BaseSpawnFloor) else prev.base) &&
      next.next == NextCountdown(prev, next.base, gameSpeed, gapDraw)
    }

    /** The countdown after one frame: restarted from the base and the drawn gap when it ran out, else lowered by the speed. */
    static function NextCountdown(prev: Schedule, base: real, gameSpeed: real, gapDraw: Draw): real
    {
      if prev.next - gameSpeed <= 0.0
      then Max(MinSpawnDistance, base - gameSpeed * DifficultyIncrease) + RandomInt(0, MaxSpawnJitter, gapDraw) as real
      else prev.next - gameSpeed
    }

    /** A step of the scheduler, read off its snapshot, is the value-level step. */
    lemma SteppedFromStepsTo(prev: Schedule, gameSpeed: real, typeDraw: Draw, laneDraw: Draw, gapDraw: Draw)
      requires SteppedFrom(prev, gameSpeed, typeDraw, laneDraw, gapDraw)
      ensures StepsTo(prev, Snapshot(), gameSpeed, typeDraw, laneDraw, gapDraw)
    {
      var survivors := KeepOnTrack(prev.obstacles);
      KeepOnTrackAtPositions(prev.obstacles, prev.zs, gameSpeed * StepFactor);
      var next := Snapshot();
      assert next.zs[..|survivors|] == Positions(survivors);
    }

    /**
     * One frame: advance every obstacle by speed * 0.1, drop those that have
     * passed the runner, and count the spawn distance down by the speed;
     * when it reaches zero, spawn one obstacle and restart the countdown at
     * max(200, base - speed * 0.5) plus a random gap of 0 to 50.
     */
    method Update(gameSpeed: real, deltaTime: real, typeDraw: Draw, laneDraw: Draw, gapDraw: Draw)
      requires Valid()
      modifies this, obstacles
      ensures Valid()
      ensures SteppedFrom(old(Snapshot()), gameSpeed, typeDraw, laneDraw, gapDraw)
      ensures old(nextSpawnDistance) - gameSpeed <= 0.0 ==> fresh(obstacles[|obstacles| - 1])
      ensures old(nextSpawnDistance) - gameSpeed <= 0.0 ==> nextSpawnDistance >= MinSpawnDistance
    {
      AdvanceAll(gameSpeed);
      KeepOnTrackDistinct(obstacles);
      obstacles := KeepOnTrack(obstacles);
      CountDown(gameSpeed, typeDraw, laneDraw, gapDraw);
    }

    /**
     * The spawn countdown: it drops by the speed, and when it reaches zero
     * one obstacle is spawned and the countdown restarts.
     */
    method CountDown(gameSpeed: real, typeDraw: Draw, laneDraw: Draw, gapDraw: Draw)
      requires Distinct(obstacles) && forall o :: o in obstacles ==> o.WellFormed() && !o.IsOffScreen()
      requires baseSpawnDistance >= BaseSpawnFloor
      modifies this`obstacles, this`baseSpawnDistance, this`nextSpawnDistance
      ensures Valid()
      ensures var spawned := old(nextSpawnDistance) - gameSpeed <= 0.0;
        |obstacles| == |old(obstacles)| + (if spawned then 1 else 0) &&
        obstacles[..|old(obstacles)|] == old(obstacles) &&
        (spawned ==>
          fresh(obstacles[|old(obstacles)|]) && obstacles[|old(obstacles)|].z == SpawnZ &&
          SpawnedFrom(obstacles[|old(obstacles)|], typeDraw, laneDraw)) &&
        baseSpawnDistance == (if spawned then Max(old(baseSpawnDistance), BaseSpawnFloor) else old(baseSpawnDistance)) &&
        nextSpawnDistance ==
          if spawned
          then Max(MinSpawnDistance, baseSpawnDistance - gameSpeed * DifficultyIncrease) + RandomInt(0, MaxSpawnJitter, gapDraw) as real
          else old(nextSpawnDistance) - gameSpeed
    {
      nextSpawnDistance := nextSpawnDistance - gameSpeed;
      if nextSpawnDistance <= 0.0 {
        SpawnObstacle(typeDraw, laneDraw);
        baseSpawnDistance := Max(baseSpawnDistance, BaseSpawnFloor);
        var currentDifficulty := Max(MinSpawnDistance, baseSpawnDistance - gameSpeed * DifficultyIncrease);
        nextSpawnDistance := currentDifficulty + RandomInt(0, MaxSpawnJitter, gapDraw) as real;
      } else {
        assert obstacles[..|obstacles|] == obstacles;
      }
    }

    /** Advances every obstacle in the list once. */
    method AdvanceAll(gameSpeed: real)
      requires Distinct(obstacles)
      modifies obstacles
      ensures forall j :: 0 <= j < |obstacles| ==> obstacles[j].z == old(obstacles[j].z) + gameSpeed * StepFactor
    {
      for i := 0 to |obstacles|
        invariant forall j :: 0 <= j < i ==> obstacles[j].z == old(obstacles[j].z) + gameSpeed * StepFactor
        invariant forall j :: i <= j < |obstacles| ==> obstacles[j].z == old(obstacles[j].z)
      {
        obstacles[i].Update(gameSpeed);
      }
    }

    /**
     * Appends one new obstacle at the spawn position: its type is drawn from
     * the three archetypes; the barrier always takes the middle lane, the
     * hurdles a drawn lane.
     */
    method SpawnObstacle(typeDraw: Draw, laneDraw: Draw)
      requires Distinct(obstacles) && forall o :: o in obstacles ==> o.WellFormed() && !o.IsOffScreen()
      modifies this`obstacles
      ensures Distinct(obstacles) && forall o :: o in obstacles ==> o.WellFormed() && !o.IsOffScreen()
      ensures |obstacles| == |old(obstacles)| + 1 && obstacles[..|old(obstacles)|] == old(obstacles)
      ensures var o := obstacles[|old(obstacles)|];
        fresh(o) && o.z == SpawnZ && SpawnedFrom(o, typeDraw, laneDraw)
    {
      var kind := RandomObstacleType(typeDraw);
      var lane;
      if kind == OverheadBarrier {
        lane := MiddleLane;
      } else {
        lane := RandomLane(laneDraw);
      }
      var obstacle := new Obstacle(kind, lane);
      obstacles := obstacles + [obstacle];
    }

    /**
     * Tests the obstacles in list order, considering only those inside the
     * band around the runner, and reports the first whose hitbox overlaps the
     * runner's, numbered `hit`, with the reason for its type; no overlap
     * gives no collision and an empty reason.
     */
    method CheckCollision(playerHitbox: Rect) returns (result: CollisionResult, ghost hit: int)
      ensures result.collision <==> AnyHit(obstacles, playerHitbox)
      ensures result.collision ==> FirstHit(obstacles, playerHitbox, hit) && result.reason == ReasonFor(obstacles[hit].kind)
      ensures !result.collision ==> result.reason == ""
      ensures (forall j :: 0 <= j < |obstacles| ==> !InBand(obstacles[j].z)) ==> !result.collision
    {
      for i := 0 to |obstacles|
        invariant forall k :: 0 <= k < i ==> !Hits(obstacles[k], playerHitbox)
      {
        var obstacle := obstacles[i];
        if obstacle.z > BandNear && obstacle.z < BandFar {
          var obstacleHitbox := obstacle.GetHitbox();
          if Utils.CheckCollision(playerHitbox, obstacleHitbox) {
            return CollisionResult(true, ReasonFor(obstacle.kind)), i;
          }
        }
      }
      return CollisionResult(false, ""), 0;
    }

    /** Empties the list and restarts the countdown at the minimum spawn distance. */
    method Reset()
      requires Valid()
      modifies this`obstacles, this`nextSpawnDistance
      ensures Valid()
      ensures obstacles == [] && nextSpawnDistance == MinSpawnDistance
    {
      obstacles := [];
      nextSpawnDistance := MinSpawnDistance;
    }
  }

  // ---------------------------------------------------------------------------
  // What the hitboxes imply for the runner
  // ---------------------------------------------------------------------------

  /** The barrier covers the runner's hitbox footprint at every lane centre. */
  lemma BarrierSpansAllLanes(lane: int)
    requires LeftLane <= lane <= RightLane
    ensures var b := TypeHitbox(OverheadBarrier, MiddleLane);
      var p := Players.HitboxAt(LaneCenter(lane), Players.GroundY, Running);
      b.x < p.x && p.x + p.width < b.x + b.width
  {
  }

  /** A runner on the ground in any lane hits an obstacle in front of it: the barrier anywhere, a hurdle in its own lane. */
  lemma RunningHitsSameLane(kind: ObstacleType, lane: int)
    requires LeftLane <= lane <= RightLane
    ensures var hitbox := TypeHitbox(kind, if kind == OverheadBarrier then MiddleLane else lane);
      CheckCollision(Players.HitboxAt(LaneCenter(lane), Players.GroundY, Running), hitbox)
  {
  }

  /** A hurdle hits a runner standing at a lane centre only when both are in the same lane. */
  lemma HurdleOnlyInItsLane(kind: ObstacleType, hurdleLane: int, playerLane: int, y: real, state: PlayerState)
    requires kind != OverheadBarrier
    requires LeftLane <= hurdleLane <= RightLane && LeftLane <= playerLane <= RightLane
    requires hurdleLane != playerLane
    ensures !CheckCollision(Players.HitboxAt(LaneCenter(playerLane), y, state), TypeHitbox(kind, hurdleLane))
  {
    var p := Players.HitboxAt(LaneCenter(playerLane), y, state);
    var h := TypeHitbox(kind, hurdleLane);
    if playerLane < hurdleLane {
      LaneCentersSpaced(playerLane);
      assert LaneCenter(hurdleLane) >= LaneCenter(playerLane) + LaneWidth;
      assert p.x + p.width <= h.x;
    } else {
      LaneCentersSpaced(hurdleLane);
      assert LaneCenter(playerLane) >= LaneCenter(hurdleLane) + LaneWidth;
      assert h.x + h.width <= p.x;
    }
  }

  /** A sliding runner on the ground passes under all three obstacle types, wherever it is laterally. */
  lemma SlidingClearsAll(kind: ObstacleType, lane: int, x: real)
    ensures !CheckCollision(Players.HitboxAt(x, Players.GroundY, Sliding), TypeHitbox(kind, lane))
  {
  }

  /**
   * A jump cannot clear the tall hurdle: for every height the arc can reach
   * (arc value in [0, 1]), the jumping runner overlaps its crossbar.
   */
  lemma TallHurdleCannotBeJumped(lane: int, a: real)
    requires 0.0 <= a <= 1.0
    ensures var y := Players.GroundY + Players.JumpHeight * a;
      CheckCollision(Players.HitboxAt(LaneCenter(lane), y, Jumping), TypeHitbox(TallHurdle, lane))
  {
  }

  /** A jumping runner clears the small hurdle in its lane exactly when it is at least 1.8 high. */
  lemma JumpOverSmallHurdle(lane: int, y: real)
    requires y >= Players.GroundY
    ensures !CheckCollision(Players.HitboxAt(LaneCenter(lane), y, Jumping), TypeHitbox(SmallHurdle, lane)) <==> y >= 1.8
  {
  }
}
