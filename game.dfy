/**
 * The orchestrator: one game owns the session state, the runner and the
 * obstacle scheduler, and drives them. A frame measures the elapsed time and,
 * unless paused, runs the PLAYING-only tick: speed, track scroll, runner,
 * obstacles, collision test, then either game over or the distance score.
 * The one-second countdown timer and the frame clock are explicit inputs.
 */
module Orchestrator {
  import opened Utils
  import opened Players
  import opened Obstacles
  import opened ScoreLists
  import opened Session

  /** The track texture scrolls with this period. */
  const TrackPeriod: real := 80.0
  /** Score gained per unit of speed in one tick. */
  const ScoreRate: real := 0.5
  /** Countdown steps, one per second, before play starts. */
  const CountdownSteps: nat := 3

  /** The score after a tick without collision. */
  function NextScore(score: int, speed: real): (r: int)
    ensures r as real <= score as real + speed * ScoreRate < (r + 1) as real
    ensures speed >= 0.0 ==> r >= score
  {
    (score as real + speed * ScoreRate).Floor
  }

  /**
   * With the speed taken from the curve, each tick without collision adds
   * at least 2 and at most 7 points to a non-negative score, so the score
   * strictly increases.
   */
  lemma ScoreGrowsEachTick(score: int)
    requires score >= 0
    ensures score + 2 <= NextScore(score, CalculateGameSpeed(score)) <= score + 7
  {
    var speed := CalculateGameSpeed(score);
    var v := score as real + speed * ScoreRate;
    assert (score + 2) as real <= v < (score + 8) as real;
  }

  /** The track offset after scrolling by one tick's speed. */
  function NextTrackOffset(offset: real, speed: real): (r: real)
    ensures 0.0 <= offset + speed ==> 0.0 <= r < TrackPeriod
    ensures 0.0 <= offset + speed < TrackPeriod ==> r == offset + speed
  {
    if 0.0 <= offset + speed then JsModRange(offset + speed, TrackPeriod); JsMod(offset + speed, TrackPeriod)
    else JsMod(offset + speed, TrackPeriod)
  }

  // ---------------------------------------------------------------------------
  // The name typed in for the high-score table
  // ---------------------------------------------------------------------------

  /** The characters the string trim treats as white space or line terminators. */
  predicate IsWhiteSpace(c: char)
  {
    ('\U{9}' <= c <= '\U{D}') || c == ' ' || c == '\U{A0}' || c == '\U{1680}' ||
    ('\U{2000}' <= c <= '\U{200A}') || c == '\U{2028}' || c == '\U{2029}' ||
    c == '\U{202F}' || c == '\U{205F}' || c == '\U{3000}' || c == '\U{FEFF}'
  }

  /** The first position at or after i that is not white space, or the length when there is none. */
  function SkipWhiteSpace(s: string, i: nat): (n: nat)
    requires i <= |s|
    ensures i <= n <= |s|
    ensures forall k :: i <= k < n ==> IsWhiteSpace(s[k])
    ensures n < |s| ==> !IsWhiteSpace(s[n])
    decreases |s| - i
  {
    if i < |s| && IsWhiteSpace(s[i]) then SkipWhiteSpace(s, i + 1) else i
  }

  /** The end of s[lo..j] once its trailing white space is dropped. */
  function SkipWhiteSpaceBack(s: string, lo: nat, j: nat): (n: nat)
    requires lo <= j <= |s|
    ensures lo <= n <= j
    ensures forall k :: n <= k < j ==> IsWhiteSpace(s[k])
    ensures n > lo ==> !IsWhiteSpace(s[n - 1])
    decreases j
  {
    if j > lo && IsWhiteSpace(s[j - 1]) then SkipWhiteSpaceBack(s, lo, j - 1) else j
  }

  /** Where the trimmed name starts in the input. */
  function TrimStart(s: string): (n: nat)
    ensures n <= |s| && forall k :: 0 <= k < n ==> IsWhiteSpace(s[k])
    ensures n < |s| ==> !IsWhiteSpace(s[n])
  {
    SkipWhiteSpace(s, 0)
  }

  /** Where the trimmed name ends in the input. */
  function TrimEnd(s: string): (n: nat)
    ensures TrimStart(s) <= n <= |s| && forall k :: n <= k < |s| ==> IsWhiteSpace(s[k])
    ensures n > TrimStart(s) ==> !IsWhiteSpace(s[n - 1])
  {
    SkipWhiteSpaceBack(s, TrimStart(s), |s|)
  }

  /** Drops white space at both ends. */
  function Trim(s: string): (r: string)
    ensures |r| <= |s|
    ensures r != [] ==> !IsWhiteSpace(r[0]) && !IsWhiteSpace(r[|r| - 1])
  {
    s[TrimStart(s)..TrimEnd(s)]
  }

  /**
   * Everything the trim cuts off is white space, and what it keeps neither
   * starts nor ends with white space.
   */
  lemma TrimCutsOnlyWhiteSpace(s: string)
    ensures 0 <= TrimStart(s) <= TrimEnd(s) <= |s|
    ensures forall k :: 0 <= k < TrimStart(s) ==> IsWhiteSpace(s[k])
    ensures forall k :: TrimEnd(s) <= k < |s| ==> IsWhiteSpace(s[k])
    ensures Trim(s) != [] ==> !IsWhiteSpace(Trim(s)[0]) && !IsWhiteSpace(Trim(s)[|Trim(s)| - 1])
  {
    var i, j := TrimStart(s), TrimEnd(s);
    if i < j {
      assert Trim(s)[0] == s[i];
      assert Trim(s)[|Trim(s)| - 1] == s[j - 1];
    }
  }

  /** A name trims to nothing exactly when it is all white space. */
  lemma TrimEmptyIffBlank(s: string)
    ensures Trim(s) == [] <==> forall k :: 0 <= k < |s| ==> IsWhiteSpace(s[k])
  {
    if Trim(s) == [] {
      assert TrimStart(s) == TrimEnd(s);
    }
  }

  /** Trimming a trimmed name changes nothing. */
  lemma TrimIdempotent(s: string)
    ensures Trim(Trim(s)) == Trim(s)
  {
    var r := Trim(s);
    TrimCutsOnlyWhiteSpace(s);
    if r != [] {
      assert TrimStart(r) == 0;
      assert TrimEnd(r) == |r|;
    }
  }

  /**
   * The score to record on submission: the held score of the run that
   * qualified, unless there is none or it is zero, in which case the
   * current score (both absent and zero count as false for the `||`).
   */
  function ScoreToSave(tempScore: Option<int>, score: int): (r: int)
    ensures tempScore.Some? && tempScore.value != 0 ==> r == tempScore.value
    ensures tempScore.None? || tempScore.value == 0 ==> r == score
  {
    match tempScore
    case Some(t) => if t != 0 then t else score
    case None => score
  }

  class Game {
    const gameState: GameState
    const player: Player
    const obstacleManager: ObstacleManager
    var trackOffset: real
    /** Countdown steps still to run; zero when no countdown is active. */
    var countdown: nat

    /**
     * The components keep their invariants, the track offset stays within
     * one period, and the spawn base keeps its initial 400, since nothing in
     * the game lowers it.
     */
    ghost predicate Valid()
      reads this, gameState, player, obstacleManager, obstacleManager.obstacles
    {
      gameState.Valid() && player.Valid() && obstacleManager.Valid() &&
      obstacleManager.baseSpawnDistance == BaseSpawnDistance &&
      0.0 <= trackOffset < TrackPeriod
    }

    /**
     * The state after a run ended from score `score0`: the score is kept as
     * the pending high score when it qualifies for `highScores0` (otherwise
     * the pending one, `tempScore0`, stays), the game is back in the MENU
     * with the pause flag `isPaused0` kept, and the score, speed, obstacles,
     * spawn countdown, track and runner are all reset.
     */
    ghost predicate RunEnded(score0: int, highScores0: seq<ScoreEntry>, tempScore0: Option<int>, isPaused0: bool)
      reads this, gameState, player, obstacleManager
    {
      gameState.tempScore == (if IsHighScoreFor(highScores0, score0) then Some(score0) else tempScore0) &&
      gameState.state == Menu && gameState.isPaused == isPaused0 && gameState.score == 0 && gameState.gameSpeed == BaseSpeed &&
      obstacleManager.obstacles == [] && obstacleManager.nextSpawnDistance == MinSpawnDistance && trackOffset == 0.0 &&
      player.IsReset()
    }

    /**
     * The state after a clear tick from score `score0` and track offset
     * `offset0`: still PLAYING with the pause flag `isPaused0` and the
     * pending high score `tempScore0` kept, the speed taken from `score0`,
     * the distance score added (so the score grew), the track scrolled, the
     * runner in the pose `moved`, the scheduler in the state `stepped`, and
     * no obstacle left touching the runner.
     */
    ghost predicate TickedClear(score0: int, offset0: real, isPaused0: bool, tempScore0: Option<int>, moved: Pose, stepped: Schedule)
      reads this, gameState, player, obstacleManager, obstacleManager.obstacles
    {
      var speed := CalculateGameSpeed(score0);
      gameState.state == Playing && gameState.isPaused == isPaused0 && gameState.tempScore == tempScore0 &&
      gameState.gameSpeed == speed && gameState.score == NextScore(score0, speed) && gameState.score > score0 &&
      trackOffset == NextTrackOffset(offset0, speed) &&
      player.Snapshot() == moved && obstacleManager.Snapshot() == stepped &&
      (forall o :: o in obstacleManager.obstacles ==> !Hits(o, player.GetHitbox()))
    }

    /**
     * A new game in the menu, with the stored high-score table: score 0,
     * speed 5, not paused, no held score, no obstacles with both spawn
     * distances at 400, the runner reset, and the track at 0.
     */
    constructor (storedHighScores: seq<ScoreEntry>)
      ensures Valid()
      ensures fresh(gameState) && fresh(player) && fresh(obstacleManager)
      ensures gameState.state == Menu && gameState.highScores == storedHighScores
      ensures gameState.score == 0 && gameState.gameSpeed == BaseSpeed && !gameState.isPaused && gameState.tempScore == None
      ensures obstacleManager.obstacles == [] && obstacleManager.nextSpawnDistance == BaseSpawnDistance
      ensures player.IsReset()
      ensures trackOffset == 0.0 && countdown == 0
    {
      gameState := new GameState(storedHighScores);
      player := new Player();
      obstacleManager := new ObstacleManager();
      trackOffset := 0.0;
      countdown := 0;
    }

    /**
     * Resets the runner, the obstacles, the track and the score and speed,
     * then enters COUNTDOWN with three steps to go. The pause flag and the
     * tables are left as they are.
     */
    method StartGame()
      requires Valid()
      modifies this`trackOffset, this`countdown, player, obstacleManager`obstacles,
        obstacleManager`nextSpawnDistance, gameState`score, gameState`gameSpeed, gameState`state
      ensures Valid()
      ensures player.IsReset()
      ensures obstacleManager.obstacles == [] && obstacleManager.nextSpawnDistance == MinSpawnDistance
      ensures trackOffset == 0.0 && gameState.score == 0 && gameState.gameSpeed == BaseSpeed
      ensures gameState.state == Countdown && countdown == CountdownSteps
      ensures gameState.isPaused == old(gameState.isPaused)
    {
      player.Reset();
      obstacleManager.Reset();
      trackOffset := 0.0;
      gameState.score := 0;
      gameState.gameSpeed := BaseSpeed;
      gameState.UpdateScore(0);
      gameState.state := Countdown;
      countdown := CountdownSteps;
    }

    /**
     * One second of the countdown: the count drops by one and, when it
     * reaches zero, the timer stops and the game enters PLAYING. Nothing
     * happens when no countdown is running.
     */
    method CountdownTick()
      modifies this`countdown, gameState`state
      ensures old(countdown) == 0 ==> countdown == 0 && gameState.state == old(gameState.state)
      ensures old(countdown) > 0 ==> countdown == old(countdown) - 1
      ensures old(countdown) > 1 ==> gameState.state == old(gameState.state)
      ensures old(countdown) == 1 ==> gameState.state == Playing
    {
      if countdown > 0 {
        countdown := countdown - 1;
        if countdown == 0 {
          gameState.state := Playing;
        }
      }
    }

    /** The countdown's timer firing once per step: a full countdown ends in PLAYING. */
    method RunCountdown()
      requires countdown == CountdownSteps
      modifies this`countdown, gameState`state
      ensures countdown == 0 && gameState.state == Playing
    {
      CountdownTick();
      CountdownTick();
      CountdownTick();
    }

    /** A new run started and its countdown run out: PLAYING from the reset state, with the pause flag kept. */
    method StartAndCountDown()
      requires Valid()
      modifies this`trackOffset, this`countdown, player, obstacleManager`obstacles,
        obstacleManager`nextSpawnDistance, gameState`score, gameState`gameSpeed, gameState`state
      ensures Valid()
      ensures player.IsReset()
      ensures obstacleManager.obstacles == [] && obstacleManager.nextSpawnDistance == MinSpawnDistance
      ensures trackOffset == 0.0 && gameState.score == 0 && gameState.gameSpeed == BaseSpeed
      ensures gameState.state == Playing && countdown == 0
      ensures gameState.isPaused == old(gameState.isPaused)
    {
      StartGame();
      RunCountdown();
    }

    /**
     * The reset as the code does it: runner, obstacles, track, score and
     * speed, and the MENU phase when returning to the menu. The pause flag
     * is left as it is, so quitting from the pause menu carries it into the
     * next run.
     */
    method ResetGameAsWritten(returnToMenu: bool)
      requires Valid()
      modifies this`trackOffset, player, obstacleManager`obstacles,
        obstacleManager`nextSpawnDistance, gameState`score, gameState`gameSpeed, gameState`state
      ensures Valid()
      ensures player.IsReset()
      ensures obstacleManager.obstacles == [] && obstacleManager.nextSpawnDistance == MinSpawnDistance
      ensures trackOffset == 0.0 && gameState.score == 0 && gameState.gameSpeed == BaseSpeed
      ensures gameState.state == if returnToMenu then Menu else old(gameState.state)
      ensures gameState.isPaused == old(gameState.isPaused)
    {
      player.Reset();
      obstacleManager.Reset();
      trackOffset := 0.0;
      gameState.score := 0;
      gameState.gameSpeed := BaseSpeed;
      gameState.UpdateScore(0);
      if returnToMenu {
        gameState.state := Menu;
      }
    }

    /**
     * The reset with the pause flag cleared on the way back to the menu, so
     * that the next run starts unpaused; without the return to the menu the
     * phase and the flag are left as they are.
     */
    method ResetGame(returnToMenu: bool)
      requires Valid()
      modifies this`trackOffset, player, obstacleManager`obstacles,
        obstacleManager`nextSpawnDistance, gameState`score, gameState`gameSpeed, gameState`state, gameState`isPaused
      ensures Valid()
      ensures player.IsReset()
      ensures obstacleManager.obstacles == [] && obstacleManager.nextSpawnDistance == MinSpawnDistance
      ensures trackOffset == 0.0 && gameState.score == 0 && gameState.gameSpeed == BaseSpeed
      ensures returnToMenu ==> gameState.state == Menu && !gameState.isPaused
      ensures !returnToMenu ==> gameState.state == old(gameState.state) && gameState.isPaused == old(gameState.isPaused)
    {
      ResetGameAsWritten(returnToMenu);
      if returnToMenu {
        gameState.isPaused := false;
      }
    }

    /**
     * Ends the run: when the score earns a place in the high-score table it
     * is held for the name prompt, and the game goes back to the menu with the
     * reset as written, which leaves the pause flag as it is. The
     * reason only feeds the game-over overlay, which is not modelled.
     */
    method HandleGameOver(reason: string)
      requires Valid()
      modifies this`trackOffset, player, obstacleManager`obstacles, obstacleManager`nextSpawnDistance,
        gameState`score, gameState`gameSpeed, gameState`state, gameState`tempScore
      ensures Valid()
      ensures RunEnded(old(gameState.score), old(gameState.highScores), old(gameState.tempScore), old(gameState.isPaused))
      ensures gameState.highScores == old(gameState.highScores)
    {
      var finalScore := gameState.GetCurrentScore();
      if gameState.IsHighScore() {
        gameState.tempScore := Some(finalScore);
      }
      ResetGameAsWritten(true);
    }

    /**
     * The movement half of the tick: the speed is taken from the score, the
     * track scrolls by it, and the runner and the obstacles move.
     */
    method Advance(deltaTime: real, arc: real -> real, typeDraw: Draw, laneDraw: Draw, gapDraw: Draw)
      returns (ghost moved: Pose, ghost stepped: Schedule)
      requires Valid()
      modifies this`trackOffset, player, obstacleManager, obstacleManager.obstacles, gameState`gameSpeed
      ensures Valid()
      ensures gameState.gameSpeed == CalculateGameSpeed(gameState.score)
      ensures gameState.state == old(gameState.state) && gameState.score == old(gameState.score) &&
        gameState.isPaused == old(gameState.isPaused) && gameState.tempScore == old(gameState.tempScore) &&
        gameState.highScores == old(gameState.highScores)
      ensures trackOffset == NextTrackOffset(old(trackOffset), gameState.gameSpeed)
      ensures moved == player.Snapshot() && Moved(old(player.Snapshot()), moved, player.baseY, deltaTime, arc)
      ensures stepped == obstacleManager.Snapshot() &&
        ObstacleManager.StepsTo(old(obstacleManager.Snapshot()), stepped, gameState.gameSpeed, typeDraw, laneDraw, gapDraw)
    {
      ScrollTrack();
      moved, stepped := MoveRunnerAndObstacles(gameState.gameSpeed, deltaTime, arc, typeDraw, laneDraw, gapDraw);
    }

    /** The speed is taken from the score and the track scrolls by it, wrapping at its period. */
    method ScrollTrack()
      requires Valid()
      modifies this`trackOffset, gameState`gameSpeed
      ensures Valid()
      ensures gameState.gameSpeed == CalculateGameSpeed(gameState.score)
      ensures trackOffset == NextTrackOffset(old(trackOffset), gameState.gameSpeed)
      ensures gameState.state == old(gameState.state) && gameState.score == old(gameState.score) &&
        gameState.isPaused == old(gameState.isPaused) && gameState.tempScore == old(gameState.tempScore) &&
        gameState.highScores == old(gameState.highScores)
    {
      gameState.UpdateGameSpeed();
      trackOffset := NextTrackOffset(trackOffset, gameState.gameSpeed);
    }

    /** The runner's frame of motion, then the obstacles' frame at the given speed. */
    method MoveRunnerAndObstacles(gameSpeed: real, deltaTime: real, arc: real -> real, typeDraw: Draw, laneDraw: Draw, gapDraw: Draw)
      returns (ghost moved: Pose, ghost stepped: Schedule)
      requires player.Valid() && obstacleManager.Valid()
      modifies player, obstacleManager, obstacleManager.obstacles
      ensures player.Valid() && obstacleManager.Valid()
      ensures unchanged(gameState)
      ensures moved == player.Snapshot() && Moved(old(player.Snapshot()), moved, player.baseY, deltaTime, arc)
      ensures stepped == obstacleManager.Snapshot() &&
        ObstacleManager.StepsTo(old(obstacleManager.Snapshot()), stepped, gameSpeed, typeDraw, laneDraw, gapDraw)
    {
      player.Update(deltaTime, arc);
      moved := player.Snapshot();
      stepped := StepObstacles(gameSpeed, deltaTime, typeDraw, laneDraw, gapDraw);
    }

    /** The obstacles' frame at the given speed, read off as a step between snapshots. */
    method StepObstacles(gameSpeed: real, deltaTime: real, typeDraw: Draw, laneDraw: Draw, gapDraw: Draw)
      returns (ghost stepped: Schedule)
      requires obstacleManager.Valid()
      modifies obstacleManager, obstacleManager.obstacles
      ensures obstacleManager.Valid()
      ensures stepped == obstacleManager.Snapshot() &&
        ObstacleManager.StepsTo(old(obstacleManager.Snapshot()), stepped, gameSpeed, typeDraw, laneDraw, gapDraw)
    {
      ghost var schedule := obstacleManager.Snapshot();
      obstacleManager.Update(gameSpeed, deltaTime, typeDraw, laneDraw, gapDraw);
      obstacleManager.SteppedFromStepsTo(schedule, gameSpeed, typeDraw, laneDraw, gapDraw);
      stepped := obstacleManager.Snapshot();
    }

    /**
     * The tick. Outside PLAYING nothing changes. Otherwise the game advances
     * and the obstacles are tested against the runner: a hit ends the run,
     * and a clear tick adds the distance score. The result is the collision
     * test's verdict (no collision when the tick did not run).
     */
    method Update(deltaTime: real, arc: real -> real, typeDraw: Draw, laneDraw: Draw, gapDraw: Draw)
      returns (outcome: CollisionResult, ghost moved: Pose, ghost stepped: Schedule, ghost hit: int)
      requires Valid()
      modifies this`trackOffset, player, obstacleManager, obstacleManager.obstacles,
        gameState`score, gameState`gameSpeed, gameState`state, gameState`tempScore
      ensures Valid()
      ensures gameState.highScores == old(gameState.highScores)
      ensures old(gameState.state) != Playing ==>
        outcome == CollisionResult(false, "") && unchanged(this, gameState, player, obstacleManager) &&
        unchanged(obstacleManager.obstacles)
      ensures old(gameState.state) == Playing ==>
        Moved(old(player.Snapshot()), moved, player.baseY, deltaTime, arc) &&
        ObstacleManager.StepsTo(old(obstacleManager.Snapshot()), stepped, CalculateGameSpeed(old(gameState.score)), typeDraw, laneDraw, gapDraw) &&
        (outcome.collision <==> AnyHitIn(stepped, HitboxAt(moved.x, moved.y, moved.state)))
      ensures old(gameState.state) == Playing && outcome.collision ==>
        FirstHitIn(stepped, HitboxAt(moved.x, moved.y, moved.state), hit) &&
        outcome.reason == ReasonFor(stepped.obstacles[hit].kind) &&
        RunEnded(old(gameState.score), old(gameState.highScores), old(gameState.tempScore), old(gameState.isPaused))
      ensures old(gameState.state) == Playing && !outcome.collision ==>
        outcome.reason == "" &&
        TickedClear(old(gameState.score), old(trackOffset), old(gameState.isPaused), old(gameState.tempScore), moved, stepped)
    {
      if gameState.state != Playing {
        return CollisionResult(false, ""), player.Snapshot(), obstacleManager.Snapshot(), 0;
      }
      outcome, moved, stepped, hit := Tick(deltaTime, arc, typeDraw, laneDraw, gapDraw);
    }

    /** The tick in PLAYING: advance, then resolve the collision test. */
    method Tick(deltaTime: real, arc: real -> real, typeDraw: Draw, laneDraw: Draw, gapDraw: Draw)
      returns (outcome: CollisionResult, ghost moved: Pose, ghost stepped: Schedule, ghost hit: int)
      requires Valid() && gameState.state == Playing
      modifies this`trackOffset, player, obstacleManager, obstacleManager.obstacles,
        gameState`score, gameState`gameSpeed, gameState`state, gameState`tempScore
      ensures Valid()
      ensures gameState.highScores == old(gameState.highScores)
      ensures Moved(old(player.Snapshot()), moved, player.baseY, deltaTime, arc)
      ensures ObstacleManager.StepsTo(old(obstacleManager.Snapshot()), stepped, CalculateGameSpeed(old(gameState.score)), typeDraw, laneDraw, gapDraw)
      ensures outcome.collision <==> AnyHitIn(stepped, HitboxAt(moved.x, moved.y, moved.state))
      ensures outcome.collision ==>
        FirstHitIn(stepped, HitboxAt(moved.x, moved.y, moved.state), hit) &&
        outcome.reason == ReasonFor(stepped.obstacles[hit].kind) &&
        RunEnded(old(gameState.score), old(gameState.highScores), old(gameState.tempScore), old(gameState.isPaused))
      ensures !outcome.collision ==>
        outcome.reason == "" &&
        TickedClear(old(gameState.score), old(trackOffset), old(gameState.isPaused), old(gameState.tempScore), moved, stepped)
    {
      moved, stepped := Advance(deltaTime, arc, typeDraw, laneDraw, gapDraw);
      outcome, hit := Resolve(old(trackOffset), moved, stepped);
    }

    /**
     * The second half of the tick, for the runner in the pose `moved`, the
     * scheduler in the state `stepped` and a track scrolled from `offset0`:
     * the obstacles are tested against the runner's hitbox; a hit ends the
     * run with the reason of the first obstacle hit, numbered `hit`, and a
     * clear tick adds the distance score and leaves everything else as it is.
     */
    method Resolve(ghost offset0: real, ghost moved: Pose, ghost stepped: Schedule) returns (outcome: CollisionResult, ghost hit: int)
      requires Valid() && gameState.state == Playing
      requires gameState.gameSpeed == CalculateGameSpeed(gameState.score)
      requires trackOffset == NextTrackOffset(offset0, gameState.gameSpeed)
      requires moved == player.Snapshot() && stepped == obstacleManager.Snapshot()
      modifies this`trackOffset, player, obstacleManager`obstacles, obstacleManager`nextSpawnDistance,
        gameState`score, gameState`gameSpeed, gameState`state, gameState`tempScore
      ensures Valid()
      ensures gameState.highScores == old(gameState.highScores)
      ensures outcome.collision <==> AnyHitIn(stepped, HitboxAt(moved.x, moved.y, moved.state))
      ensures outcome.collision ==>
        FirstHitIn(stepped, HitboxAt(moved.x, moved.y, moved.state), hit) &&
        outcome.reason == ReasonFor(stepped.obstacles[hit].kind) &&
        RunEnded(old(gameState.score), old(gameState.highScores), old(gameState.tempScore), old(gameState.isPaused))
      ensures !outcome.collision ==>
        outcome.reason == "" &&
        TickedClear(old(gameState.score), offset0, old(gameState.isPaused), old(gameState.tempScore), moved, stepped)
    {
      HitsAtPositions(stepped, player.GetHitbox());
      outcome, hit := obstacleManager.CheckCollision(player.GetHitbox());
      if outcome.collision {
        HandleGameOver(outcome.reason);
        return;
      }
      AddDistanceScore(offset0, moved, stepped);
    }

    /** A clear tick's score update: the distance score at the current speed is added. */
    method AddDistanceScore(ghost offset0: real, ghost moved: Pose, ghost stepped: Schedule)
      requires Valid() && gameState.state == Playing
      requires gameState.gameSpeed == CalculateGameSpeed(gameState.score)
      requires trackOffset == NextTrackOffset(offset0, gameState.gameSpeed)
      requires moved == player.Snapshot() && stepped == obstacleManager.Snapshot()
      requires !AnyHit(obstacleManager.obstacles, player.GetHitbox())
      modifies gameState`score
      ensures Valid()
      ensures TickedClear(old(gameState.score), offset0, old(gameState.isPaused), old(gameState.tempScore), moved, stepped)
    {
      ScoreGrowsEachTick(gameState.score);
      gameState.UpdateScore(NextScore(gameState.score, gameState.gameSpeed));
    }

    /**
     * One animation frame at the given clock reading in milliseconds: the
     * elapsed time is measured, and the tick runs only when the game is not
     * paused. While paused, only the frame-time bookkeeping changes. The
     * results are the tick's: its collision verdict and, as ghosts, the
     * runner's moved state, the stepped obstacle list and the index of the
     * first obstacle hit.
     */
    method Animate(currentTime: real, arc: real -> real, typeDraw: Draw, laneDraw: Draw, gapDraw: Draw)
      returns (outcome: CollisionResult, ghost moved: Pose, ghost stepped: Schedule, ghost hit: int)
      requires Valid()
      modifies this`trackOffset, player, obstacleManager, obstacleManager.obstacles,
        gameState`score, gameState`gameSpeed, gameState`state, gameState`tempScore,
        gameState`lastFrameTime, gameState`deltaTime
      ensures Valid()
      ensures gameState.lastFrameTime == currentTime
      ensures gameState.deltaTime == (currentTime - old(gameState.lastFrameTime)) / 1000.0
      ensures old(gameState.isPaused) ==>
        unchanged(this, player, obstacleManager) && unchanged(obstacleManager.obstacles) &&
        gameState.state == old(gameState.state) && gameState.score == old(gameState.score) &&
        gameState.gameSpeed == old(gameState.gameSpeed) && gameState.isPaused &&
        gameState.tempScore == old(gameState.tempScore)
      ensures old(gameState.isPaused) || old(gameState.state) != Playing ==>
        outcome == CollisionResult(false, "") && unchanged(this, player, obstacleManager) &&
        unchanged(obstacleManager.obstacles) && gameState.state == old(gameState.state) &&
        gameState.score == old(gameState.score) && gameState.tempScore == old(gameState.tempScore)
      ensures !old(gameState.isPaused) && old(gameState.state) == Playing ==>
        Moved(old(player.Snapshot()), moved, player.baseY, gameState.deltaTime, arc) &&
        ObstacleManager.StepsTo(old(obstacleManager.Snapshot()), stepped, CalculateGameSpeed(old(gameState.score)), typeDraw, laneDraw, gapDraw) &&
        (outcome.collision <==> AnyHitIn(stepped, HitboxAt(moved.x, moved.y, moved.state)))
      ensures !old(gameState.isPaused) && old(gameState.state) == Playing && outcome.collision ==>
        FirstHitIn(stepped, HitboxAt(moved.x, moved.y, moved.state), hit) &&
        outcome.reason == ReasonFor(stepped.obstacles[hit].kind) &&
        RunEnded(old(gameState.score), old(gameState.highScores), old(gameState.tempScore), old(gameState.isPaused))
      ensures !old(gameState.isPaused) && old(gameState.state) == Playing && !outcome.collision ==>
        outcome.reason == "" &&
        TickedClear(old(gameState.score), old(trackOffset), old(gameState.isPaused), old(gameState.tempScore), moved, stepped)
    {
      ghost var pose, schedule := player.Snapshot(), obstacleManager.Snapshot();
      var deltaTime := gameState.UpdateDeltaTime(currentTime);
      assert pose == player.Snapshot() && schedule == obstacleManager.Snapshot();
      if !gameState.isPaused {
        outcome, moved, stepped, hit := Update(deltaTime, arc, typeDraw, laneDraw, gapDraw);
      } else {
        outcome, moved, stepped, hit := CollisionResult(false, ""), pose, schedule, 0;
      }
    }

    /**
     * The name prompt's submit button: a name that trims to nothing is
     * ignored; otherwise the held score (or the current one when none is
     * held) is added to the high-score table under the trimmed name and the
     * held score is cleared.
     */
    method SubmitScore(nameInput: string)
      modifies gameState`highScores, gameState`tempScore
      ensures Trim(nameInput) == [] ==> unchanged(gameState)
      ensures Trim(nameInput) != [] ==>
        gameState.highScores ==
          AddedHighScores(old(gameState.highScores), Trim(nameInput), ScoreToSave(old(gameState.tempScore), old(gameState.score))) &&
        gameState.tempScore == None
    {
      var playerName := Trim(nameInput);
      if playerName != [] {
        var scoreToSave := ScoreToSave(gameState.tempScore, gameState.score);
        gameState.AddHighScoreWithScore(playerName, scoreToSave);
        gameState.tempScore := None;
      }
    }

    /**
     * The code as written: pause a running game with 'p', quit from the
     * pause menu, and start again. After the countdown the game is PLAYING
     * with the pause flag still set, and the next frame skips the tick: the
     * new run is frozen at score zero.
     */
    method QuitFromPauseAsWritten(currentTime: real, arc: real -> real, typeDraw: Draw, laneDraw: Draw, gapDraw: Draw)
      requires Valid() && gameState.state == Playing
      modifies this`trackOffset, this`countdown, player, obstacleManager, obstacleManager.obstacles,
        gameState`score, gameState`gameSpeed, gameState`state, gameState`isPaused, gameState`tempScore,
        gameState`lastFrameTime, gameState`deltaTime
      ensures Valid()
      ensures gameState.state == Playing && gameState.isPaused
      ensures gameState.score == 0 && obstacleManager.obstacles == [] && trackOffset == 0.0
    {
      gameState.HandleKeyDown("p");
      ResetGameAsWritten(true);
      StartAndCountDown();
      var outcome, moved, stepped, hit := Animate(currentTime, arc, typeDraw, laneDraw, gapDraw);
    }

    /**
     * The same sequence with the corrected reset: the new run is PLAYING and
     * not paused, so the next frame runs the tick and the score grows.
     */
    method QuitFromPause(currentTime: real, arc: real -> real, typeDraw: Draw, laneDraw: Draw, gapDraw: Draw)
      requires Valid() && gameState.state == Playing
      modifies this`trackOffset, this`countdown, player, obstacleManager, obstacleManager.obstacles,
        gameState`score, gameState`gameSpeed, gameState`state, gameState`isPaused, gameState`tempScore,
        gameState`lastFrameTime, gameState`deltaTime
      ensures Valid()
      ensures gameState.state == Playing && !gameState.isPaused
      ensures gameState.score > 0
    {
      gameState.HandleKeyDown("p");
      ResetGame(true);
      StartAndCountDown();
      var outcome, moved, stepped, hit := Animate(currentTime, arc, typeDraw, laneDraw, gapDraw);
    }
  }
}
