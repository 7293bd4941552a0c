/**
 * The runner's state machine: lane index and eased lateral position, the
 * RUNNING / JUMPING / SLIDING action state with its progress counters,
 * edge-triggered key flags and the state-dependent hitbox.
 */
module Players {
  import opened Utils

  /** Fraction of the remaining lateral distance covered in one update. */
  const MoveSpeed: real := 0.15
  /** Height of the runner above the ground when not jumping. */
  const GroundY: real := -0.5
  /** Fixed height of a jump. */
  const JumpHeight: real := 3.0
  /** Jump progress gained per unit of elapsed time. */
  const JumpRate: real := 2.0
  /** Slide progress gained per unit of elapsed time. */
  const SlideRate: real := 1.5

  const HitboxWidth: real := 1.0
  const StandingHeight: real := 3.8
  const SlidingHeight: real := 2.0
  /** Distance from the runner's y coordinate down to the bottom of its hitbox. */
  const HitboxDrop: real := 1.2

  /** Which of the four movement keys are currently held down. */
  datatype KeyFlags = KeyFlags(a: bool, d: bool, w: bool, s: bool)

  const NoKeys: KeyFlags := KeyFlags(false, false, false, false)

  /** The runner's state as a value: lane, position and target, action state, progress counters, jump height and key flags. */
  datatype Pose = Pose(lane: int, x: real, targetX: real, y: real, state: PlayerState,
                       jumpProgress: real, slideProgress: real, jumpHeight: real, keys: KeyFlags)

  /** The runner's hitbox at lateral position x and height y in the given action state. */
  function HitboxAt(x: real, y: real, state: PlayerState): (r: Rect)
    ensures r.width == HitboxWidth && r.x + r.width / 2.0 == x
    ensures r.y + HitboxDrop == y
    ensures r.height == if state == Sliding then SlidingHeight else StandingHeight
  {
    var height := if state == Sliding then SlidingHeight else StandingHeight;
    Rect(x - HitboxWidth / 2.0, y - HitboxDrop, HitboxWidth, height)
  }

  /**
   * Sliding shrinks the hitbox from the top: the sliding box has the same
   * footprint and bottom edge as the standing one but is strictly shorter,
   * and jumping does not change the hitbox's shape.
   */
  lemma SlidingHitboxShorter(x: real, y: real)
    ensures HitboxAt(x, y, Sliding).height < HitboxAt(x, y, Running).height
    ensures HitboxAt(x, y, Jumping) == HitboxAt(x, y, Running)
    ensures HitboxAt(x, y, Sliding).x == HitboxAt(x, y, Running).x
    ensures HitboxAt(x, y, Sliding).y == HitboxAt(x, y, Running).y
  {
  }

  /**
   * The runner's state `next` after one frame of motion from the state
   * `prev`, with `baseY` the ground height: the lane, its target, the key
   * flags and the jump height stay; x eases towards the target; a jump or a
   * slide advances and, once complete, gives way to running, a jump landing
   * on the ground.
   */
  predicate Moved(prev: Pose, next: Pose, baseY: real, deltaTime: real, arc: real -> real)
  {
    next.lane == prev.lane && next.targetX == prev.targetX && next.keys == prev.keys &&
    next.jumpHeight == prev.jumpHeight &&
    next.x == Lerp(prev.x, next.targetX, MoveSpeed) &&
    (prev.state == Running ==>
      next.state == Running && next.y == prev.y &&
      next.jumpProgress == prev.jumpProgress && next.slideProgress == prev.slideProgress) &&
    (prev.state == Jumping ==>
      var p := prev.jumpProgress + deltaTime * JumpRate;
      next.slideProgress == prev.slideProgress &&
      if p < 1.0 then next.state == Jumping && next.jumpProgress == p && next.y == baseY + next.jumpHeight * arc(p)
      else next.state == Running && next.jumpProgress == 0.0 && next.y == baseY) &&
    (prev.state == Sliding ==>
      var p := prev.slideProgress + deltaTime * SlideRate;
      next.slideProgress == p && next.y == prev.y && next.jumpProgress == prev.jumpProgress &&
      next.state == (if p >= 1.0 then Running else Sliding))
  }

  class Player {
    var lane: int
    var x: real
    var targetX: real
    var y: real
    const baseY: real
    var state: PlayerState
    var jumpProgress: real
    var slideProgress: real
    var jumpHeight: real
    var keys: KeyFlags

    /**
     * The runner's invariant: it is in one of the three lanes and steers
     * towards that lane's centre; it is on the ground unless jumping, and a
     * jump or slide in progress has not yet completed.
     */
    ghost predicate Valid()
      reads this
    {
      LeftLane <= lane <= RightLane &&
      targetX == LaneCenter(lane) &&
      (state != Jumping ==> y == baseY) &&
      (state == Jumping ==> jumpProgress < 1.0) &&
      (state == Sliding ==> slideProgress < 1.0)
    }

    constructor ()
      ensures Valid()
      ensures lane == MiddleLane && x == targetX == LaneCenter(MiddleLane)
      ensures y == baseY == GroundY && state == Running
      ensures jumpHeight == 0.0 && jumpProgress == 0.0 && slideProgress == 0.0
      ensures keys == NoKeys
    {
      lane := MiddleLane;
      x := LaneCenter(MiddleLane);
      y := GroundY;
      baseY := GroundY;
      targetX := LaneCenter(MiddleLane);
      jumpHeight := 0.0;
      jumpProgress := 0.0;
      slideProgress := 0.0;
      state := Running;
      keys := NoKeys;
    }

    /**
     * A key press. Repeats are ignored, and each key acts only on its first
     * press since it was last released: 'a' / 'd' move one lane left / right
     * unless already at the edge, 'w' starts a jump and 's' a slide, both only
     * from RUNNING. The key's flag is set whether or not it acted. Key names
     * are compared after lower-casing.
     */
    method HandleKeyDown(eventKey: string, repeat: bool)
      requires Valid()
      modifies this
      ensures Valid()
      ensures repeat || KeyOf(eventKey) !in {KeyA, KeyD, KeyW, KeyS} ==> unchanged(this)
      ensures KeyOf(eventKey) == KeyA && old(keys.a) ==> unchanged(this)
      ensures KeyOf(eventKey) == KeyD && old(keys.d) ==> unchanged(this)
      ensures KeyOf(eventKey) == KeyW && old(keys.w) ==> unchanged(this)
      ensures KeyOf(eventKey) == KeyS && old(keys.s) ==> unchanged(this)
      ensures x == old(x) && y == old(y)
      ensures !repeat && KeyOf(eventKey) == KeyA ==>
        lane == (if !old(keys.a) && old(lane) > LeftLane then old(lane) - 1 else old(lane)) &&
        keys == old(keys).(a := true) &&
        state == old(state) && jumpProgress == old(jumpProgress) &&
        slideProgress == old(slideProgress) && jumpHeight == old(jumpHeight)
      ensures !repeat && KeyOf(eventKey) == KeyD ==>
        lane == (if !old(keys.d) && old(lane) < RightLane then old(lane) + 1 else old(lane)) &&
        keys == old(keys).(d := true) &&
        state == old(state) && jumpProgress == old(jumpProgress) &&
        slideProgress == old(slideProgress) && jumpHeight == old(jumpHeight)
      ensures !repeat && KeyOf(eventKey) == KeyW ==>
        lane == old(lane) && keys == old(keys).(w := true) && slideProgress == old(slideProgress) &&
        if !old(keys.w) && old(state) == Running
        then state == Jumping && jumpProgress == 0.0 && jumpHeight == JumpHeight
        else state == old(state) && jumpProgress == old(jumpProgress) && jumpHeight == old(jumpHeight)
      ensures !repeat && KeyOf(eventKey) == KeyS ==>
        lane == old(lane) && keys == old(keys).(s := true) &&
        jumpProgress == old(jumpProgress) && jumpHeight == old(jumpHeight) &&
        if !old(keys.s) && old(state) == Running
        then state == Sliding && slideProgress == 0.0
        else state == old(state) && slideProgress == old(slideProgress)
    {
      if repeat {
        return;
      }
      match KeyOf(eventKey)
      case KeyA =>
        if !keys.a && lane > LeftLane {
          lane := lane - 1;
          targetX := LaneCenter(lane);
        }
        keys := keys.(a := true);
      case KeyD =>
        if !keys.d && lane < RightLane {
          lane := lane + 1;
          targetX := LaneCenter(lane);
        }
        keys := keys.(d := true);
      case KeyW =>
        if !keys.w && state == Running {
          state := Jumping;
          jumpProgress := 0.0;
          jumpHeight := JumpHeight;
        }
        keys := keys.(w := true);
      case KeyS =>
        if !keys.s && state == Running {
          state := Sliding;
          slideProgress := 0.0;
        }
        keys := keys.(s := true);
      case _ =>
    }

    /** A key release clears that key's flag and nothing else. */
    method HandleKeyUp(eventKey: string)
      requires Valid()
      modifies this`keys
      ensures Valid()
      ensures keys == match KeyOf(eventKey)
        case KeyA => old(keys).(a := false)
        case KeyD => old(keys).(d := false)
        case KeyW => old(keys).(w := false)
        case KeyS => old(keys).(s := false)
        case _ => old(keys)
    {
      match KeyOf(eventKey)
      case KeyA => keys := keys.(a := false);
      case KeyD => keys := keys.(d := false);
      case KeyW => keys := keys.(w := false);
      case KeyS => keys := keys.(s := false);
      case _ =>
    }

    /** The runner's state as a value. */
    function Snapshot(): (p: Pose)
      reads this
      ensures p.lane == lane && p.x == x && p.targetX == targetX && p.y == y && p.state == state
      ensures p.jumpProgress == jumpProgress && p.slideProgress == slideProgress
      ensures p.jumpHeight == jumpHeight && p.keys == keys
    {
      Pose(lane, x, targetX, y, state, jumpProgress, slideProgress, jumpHeight, keys)
    }

    /** The runner's state after one frame of motion from the state `prev`; see `Moved`. */
    predicate MovedFrom(prev: Pose, deltaTime: real, arc: real -> real)
      reads this
    {
      Moved(prev, Snapshot(), baseY, deltaTime, arc)
    }

    /** The state `Reset` leaves: middle lane at its centre, on the ground, running, no jump height and no keys held. */
    predicate IsReset()
      reads this
    {
      lane == MiddleLane && x == targetX == LaneCenter(MiddleLane) &&
      y == baseY && state == Running && jumpHeight == 0.0 && keys == NoKeys
    }

    /**
     * One frame of motion. The lateral position moves a fixed fraction of
     * the way to the target. A jump advances its progress at twice the
     * elapsed time; while below 1 the height follows the arc (arc(p) stands
     * for sin(p * pi)), and once it reaches 1 the runner lands exactly on the
     * ground and runs again. A slide advances at 1.5 times the elapsed time
     * and ends once its progress reaches 1; it never moves the runner
     * vertically.
     */
    method Update(deltaTime: real, arc: real -> real)
      requires Valid()
      modifies this`x, this`y, this`state, this`jumpProgress, this`slideProgress
      ensures Valid()
      ensures MovedFrom(old(Snapshot()), deltaTime, arc)
    {
      x := Lerp(x, targetX, MoveSpeed);

      if state == Jumping {
        jumpProgress := jumpProgress + deltaTime * JumpRate;
        if jumpProgress < 1.0 {
          y := baseY + jumpHeight * arc(jumpProgress);
        } else {
          y := baseY;
          state := Running;
          jumpProgress := 0.0;
        }
      }

      if state == Sliding {
        slideProgress := slideProgress + deltaTime * SlideRate;
        if slideProgress >= 1.0 {
          state := Running;
        }
      }
    }

    /** The hitbox used for collision tests, which depends on the action state. */
    function GetHitbox(): (r: Rect)
      reads this
      ensures r == HitboxAt(x, y, state)
    {
      HitboxAt(x, y, state)
    }

    /**
     * Back to the middle lane, on the ground and running, with no keys held.
     * The jump and slide progress counters are left as they are.
     */
    method Reset()
      requires Valid()
      modifies this
      ensures Valid()
      ensures lane == MiddleLane && x == targetX == LaneCenter(MiddleLane)
      ensures y == baseY && state == Running && jumpHeight == 0.0 && keys == NoKeys
      ensures IsReset()
      ensures jumpProgress == old(jumpProgress) && slideProgress == old(slideProgress)
    {
      lane := MiddleLane;
      x := LaneCenter(lane);
      targetX := x;
      y := baseY;
      state := Running;
      jumpHeight := 0.0;
      keys := NoKeys;
    }
  }
}
