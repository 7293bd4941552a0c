# Track runner: a verified model of the gameplay core

A three-lane endless runner written in JavaScript. The runner steers
between three lanes on a 10-unit track and jumps or slides to get past
three kinds of obstacle coming towards it: a tall hurdle, a small hurdle
and an overhead barrier that spans the track. A tick advances everything
and tests for collisions. A collision ends the run; a clear tick adds a
distance score that speeds the game up. A score that qualifies goes into
a five-entry high-score table: it is pushed, the table is stably sorted,
and its last entry is dropped when it then holds more than five. A stored
table that is already longer than five is loaded unchecked and stays longer. The session also has a scoreboard
operation, which nothing in the game calls. It raises the player's first
entry when the new score is higher (or appends an entry for a new name),
sorts, and keeps ten entries. Names stay unique only if they were unique
in the stored list. It is modelled as an operation on lists.

The model follows the program's files:

| file | module | what it holds |
|---|---|---|
| `utils.dfy` | `Utils` | Shared constants and enums; the rectangle overlap test. Interpolation, easing and the speed curve; score formatting with thousands separators. The random helpers, with the random draw as a parameter. The truncating `%` of the host language. |
| `player.dfy` | `Players` | `class Player`: the lane and lateral easing; the RUNNING/JUMPING/SLIDING state machine with its progress counters; edge-triggered key flags; the state-dependent hitbox. |
| `obstacles.dfy` | `Obstacles` | `class Obstacle` (type geometry, position, hitbox); `class ObstacleManager` (advance, filter, spawn countdown, spawn, first-hit collision query, reset). Lemmas on what the hitboxes imply for the runner. |
| `scorelists.dfy` | `ScoreLists` | The stable descending sort (insertion sort). The high-score table and the best-per-name scoreboard, as functions on lists. |
| `gamestate.dfy` | `Session` | `class GameState`: phase, score, speed, pause flag, frame timing, high-score table and the held score. |
| `game.dfy` | `Orchestrator` | `class Game`: start with countdown, reset, the PLAYING-only tick, game over, the pause gate of the animation frame, and the name-prompt submission with the string trim. |

Positions, sizes and speeds are `real`. Scores are `int`. `Math.floor` is
`.Floor`. The clock reading, the countdown's one-second timer, the random
draws (`Draw`, a real in [0, 1)) and the jump arc (`arc(p)` standing for
`sin(p * pi)`) are parameters or explicit steps.

## Model

| member | source | states |
|---|---|---|
| Utils.LaneCenter | js/player.js:9-13 | The middle lane's centre is 0, and each of the three lanes lies within the 10-unit track. |
| Utils.LaneCentersSpaced | js/obstacles.js:8-19 | Neighbouring lane centres are exactly one lane width (10/3) apart. |
| Utils.CheckCollision | js/utils.js:48-53 | The strict overlap test on both axes; overlapping rectangles have a positive combined width and height. |
| Utils.CollisionSymmetric | js/utils.js:48-53 | The overlap test gives the same answer with its arguments swapped. |
| Utils.SeparatedNeverCollide | js/utils.js:48-53 | Rectangles that are separated or only touch along either axis do not overlap: the inequalities are strict. |
| Utils.SelfCollision | js/utils.js:48-53 | A rectangle overlaps itself exactly when its width and height are positive. |
| Utils.Lerp | js/utils.js:62-64 | t = 0 gives the start, t = 1 the end; the step from the start is (end - start) * t. |
| Utils.LerpBetween | js/utils.js:62-64 | For t in [0, 1] the interpolated value lies between the two end points. |
| Utils.LerpShrinksGap | js/utils.js:62-64 | One step with factor t leaves a (1 - t) fraction of the gap to the target. |
| Utils.EaseInOut | js/utils.js:67-69 | The curve passes through (0, 0), (0.5, 0.5) and (1, 1). |
| Utils.EaseInOutRange | js/utils.js:67-69 | On [0, 1] the curve stays in [0, 1]. |
| Utils.EaseInOutMonotone | js/utils.js:67-69 | On [0, 1] the curve is non-decreasing across both branches. |
| Utils.EaseInOutSymmetric | js/utils.js:67-69 | The curve is point-symmetric about (0.5, 0.5). |
| Utils.CalculateGameSpeed | js/utils.js:72-77 | The speed is 5 exactly at score 0. It stays in [5, 15] for non-negative scores, is 5 + score/1000 up to 10000 points, and is capped at 15 from then on. |
| Utils.GameSpeedMonotone | js/utils.js:72-77 | A higher score never gives a lower speed. |
| Utils.DecimalString | js/utils.js:80-82 | The decimal string of a non-negative number is all digits, with no leading zero. It has one digit below 10, at most two below 100 and at most three below 1000. |
| Utils.DecimalRoundTrip | js/utils.js:80-82 | Reading the decimal string back gives the number. |
| Utils.GroupThousandsUngroups | js/utils.js:80-82 | Deleting the commas from a grouped digit string gives the digits back. |
| Utils.FormatScoreRemoveCommas | js/utils.js:80-82 | Deleting the commas from a formatted score gives its plain decimal representation. |
| Utils.GroupThousandsLayout | js/utils.js:80-82 | A grouped digit string has a comma at every fourth position from the right and digits everywhere else. It never starts with a comma, and its length is n + (n - 1)/3 for n digits. |
| Utils.FormatScoreLayout | js/utils.js:80-82 | A formatted score is grouped in threes from the right, the first group holding one to three digits. |
| Utils.FormatScore | js/utils.js:80-82 | The formatted score is never empty; below 1000 it is the plain decimal representation. |
| Utils.FormatScoreSmall | js/utils.js:80-82 | Scores below 1000 are formatted without a comma. |
| Utils.RandomInt | js/utils.js:34-36 | For min <= max, the drawn integer lies in [min, max]. |
| Utils.RandomIntReachesAll | js/utils.js:34-36 | Every integer in [min, max] is produced by some draw. |
| Utils.RandomLane | js/utils.js:38-40 | A drawn lane is one of the three lanes. |
| Utils.KeyOf | js/player.js:106 | Only the one-letter names of the five game keys, in either case, map to a game key; every other name maps to no key. |
| Utils.KeyOfIgnoresCase | js/gameState.js:56 | A lower-case letter and its capital name the same key. |
| Utils.RandomObstacleType | js/utils.js:42-45 | The draw's integer in [0, 2] indexes the types in enumeration order: draws below 1/3 give the tall hurdle, draws from 2/3 on give the barrier. |
| Utils.RandomObstacleTypeReachesAll | js/utils.js:42-45 | Every obstacle type is picked by some draw. |
| Utils.JsModRange | js/game.js:367 | For a non-negative dividend and positive modulus, the truncating remainder lies in [0, m). |
| Players.HitboxAt | js/player.js:230-252 | The hitbox is 1 wide and centred on the runner; its bottom is 1.2 below the runner's y; it is 2.0 high when sliding and 3.8 high when running or jumping. |
| Players.SlidingHitboxShorter | js/player.js:230-252 | Sliding makes the box strictly shorter with the same footprint and bottom edge. Jumping does not change it. |
| Players.Player.constructor | js/player.js:2-44 | A new runner is in the middle lane at its centre, on the ground at -0.5 and RUNNING, with no keys held and zero progress. |
| Players.Player.HandleKeyDown | js/player.js:103-139 | Key names are compared after lower-casing. Key repeats and other keys change nothing. A key acts only on its first press since release: 'a'/'d' move one lane unless at the edge; 'w'/'s' start a jump/slide only from RUNNING. The key's flag is set either way, and the runner stays in a lane steering to its centre. |
| Players.Player.HandleKeyUp | js/player.js:141-156 | Releasing a movement key (in either case) clears that key's flag only. |
| Players.Player.Update | js/player.js:158-212 | The new state is the one-frame motion of the old state: lane, target, key flags and jump height stay. x moves 15% of the way to the target. A jump advances at 2 × dt and follows the arc while below 1, then lands exactly on baseY as RUNNING. A slide advances at 1.5 × dt and ends at 1; it never moves y. |
| Players.Player.GetHitbox | js/player.js:230-252 | The hitbox depends only on position and action state. |
| Players.Player.Reset | js/player.js:254-270 | The runner is fully reset (`IsReset`): middle lane, x and target at the middle lane's centre, on the ground, RUNNING, jump height 0 and no keys held. The progress counters are left as they were. |
| Obstacles.SetupObstacleProperties | js/obstacles.js:28-54 | The two hurdles get hurdle dimensions (crossbar height and thickness); the barrier gets barrier dimensions. |
| Obstacles.ObstacleX | js/obstacles.js:15-20 | The barrier is centred on the track (x = 0); a hurdle is centred on its lane. |
| Obstacles.TypeHitbox | js/obstacles.js:144-173 | A hurdle's hitbox is its crossbar: lane width minus 0.08, centred on the lane, at height 1.5 (tall) or 0.4 (small), 0.2 thick. The barrier's hitbox spans 9 units centred on the track, from 0.4 to 0.8. |
| Obstacles.ReasonFor | js/obstacles.js:248-258 | Every obstacle type has a non-empty reason. |
| Obstacles.ReasonsDistinct | js/obstacles.js:247-258 | The three collision reasons are non-empty and pairwise distinct. |
| Obstacles.Obstacle.constructor | js/obstacles.js:2-22 | A new obstacle has the type's dimensions, the type's x position, y at half its height, and z = -50. |
| Obstacles.Obstacle.Update | js/obstacles.js:139-142 | z grows by speed × 0.1. |
| Obstacles.Obstacle.GetHitbox | js/obstacles.js:144-173 | For an obstacle as the scheduler creates it (in a lane, the barrier in the middle, geometry from its type), the hitbox is its type's hitbox for its lane. |
| Obstacles.Obstacle.IsOffScreen | js/obstacles.js:175-177 | An obstacle that has passed z = 10 lies outside the collision band, and one inside the band has not passed. |
| Obstacles.KeepOnTrack | js/obstacles.js:200-207 | The filter keeps exactly the obstacles that have not passed z = 10. |
| Obstacles.KeepOnTrackAppend | js/obstacles.js:200-207 | The filter distributes over concatenation, so survivors keep their relative order. |
| Obstacles.KeepOnTrackDistinct | js/obstacles.js:200-207 | Filtering a list of distinct obstacles leaves them distinct. |
| Obstacles.ObstacleManager.constructor | js/obstacles.js:185-194 | A new scheduler has no obstacles, and both the base and the next spawn distance are 400. |
| Obstacles.ObstacleManager.Update | js/obstacles.js:196-221 | Every obstacle of the old list advances by speed × 0.1. The survivors keep their order, followed by at most one fresh obstacle at z = -50, whose type and lane come from the draws. The countdown drops by the speed; on reaching 0 it restarts at max(200, max(base, 70) - speed × 0.5) plus a 0–50 jitter, so at least 200. |
| Obstacles.ObstacleManager.CountDown | js/obstacles.js:210-220 | The spawn countdown and its restart formula; a spawned obstacle's type and lane come from the draws. The scheduler's invariant is kept. |
| Obstacles.ObstacleManager.AdvanceAll | js/obstacles.js:198 | Every obstacle in the list moves by speed × 0.1. |
| Obstacles.ObstacleManager.SpawnObstacle | js/obstacles.js:223-239 | Exactly one fresh obstacle is appended at z = -50, of the drawn type. The barrier goes in the middle lane; a hurdle in the drawn lane. |
| Obstacles.ObstacleManager.CheckCollision | js/obstacles.js:241-265 | A collision is reported iff some obstacle inside the band (-0.3, 0.3) overlaps the runner. The reason is that of the first such obstacle in list order, whose index is returned as a ghost; no collision gives an empty reason. |
| Obstacles.KeepOnTrackAt | js/obstacles.js:198-207 | The filter on values (old positions moved by a distance d) keeps as many positions as obstacles, and never more than it was given. |
| Obstacles.KeepOnTrackAtPositions | js/obstacles.js:198-207 | When every obstacle has moved by d, filtering at the old positions plus d keeps the same obstacles as the filter on the moved list, and their positions are the moved ones. |
| Obstacles.HitsAtPositions | js/obstacles.js:241-265 | On a list read with its positions, "some obstacle hits" and "obstacle j is the first hit" mean the same on the snapshot as on the objects. |
| Obstacles.ObstacleManager.SteppedFromStepsTo | js/obstacles.js:196-221 | A scheduler step, read off the snapshots before and after, is the value-level step: the survivors at their moved positions, then at most one spawn, with the countdown's restart formula. |
| Obstacles.ObstacleManager.Reset | js/obstacles.js:267-271 | The list is emptied and the next spawn distance becomes 200. |
| Obstacles.BarrierSpansAllLanes | js/obstacles.js:163-170 | The barrier's hitbox covers the runner's footprint in every lane. |
| Obstacles.RunningHitsSameLane | js/obstacles.js:241-258 | A RUNNING runner on the ground overlaps a hurdle in its own lane and the barrier in any lane. |
| Obstacles.HurdleOnlyInItsLane | js/obstacles.js:144-155 | A hurdle never overlaps a runner centred in a different lane. |
| Obstacles.SlidingClearsAll | js/obstacles.js:250-258 | A SLIDING runner on the ground overlaps none of the three types. |
| Obstacles.TallHurdleCannotBeJumped | js/obstacles.js:250-252 | At every height the jump arc reaches, a jumping runner overlaps the tall hurdle. |
| Obstacles.JumpOverSmallHurdle | js/obstacles.js:253-255 | A jumping runner clears the small hurdle in its lane iff its y is at least 1.8. |
| ScoreLists.InsertDesc | js/gameState.js:120 | Insertion adds exactly the new entry: the length grows by one and the multiset gains that entry. |
| ScoreLists.InsertDescSorted | js/gameState.js:120 | Inserting into a sorted list keeps it sorted by descending score. |
| ScoreLists.SortDesc | js/gameState.js:120 | The sort gives a permutation of its input, sorted by descending score. |
| ScoreLists.SortDescUnique | js/gameState.js:144 | Sorting keeps the names of a list unique. |
| ScoreLists.AddedHighScores | js/gameState.js:113-128 | After adding, the table is sorted, one entry longer unless it held five or more, and made only of old entries and the new one. |
| ScoreLists.AddedHighScoresDropsLowest | js/gameState.js:113-128 | With room in the table nothing is lost. Otherwise only the lowest entry is dropped: whatever of the old table and the new entry is missing scores no more than anything kept. |
| ScoreLists.SortedPrefixDropsOnlyLowest | js/gameState.js:117-122 | Cutting a sorted list drops only entries scoring no more than every kept one. |
| ScoreLists.IsHighScoreFor | js/gameState.js:92-94 | A table with room always takes the score. On a sorted table, a score qualifies iff the table has room or the score beats some entry. |
| ScoreLists.AddedHighScoresCapped | js/gameState.js:122-124 | A table of at most five entries stays sorted and at most five entries long. |
| ScoreLists.AddedHighScoresNotHighScore | js/gameState.js:92-94 | On a sorted table of at most five, a non-high score leaves the table unchanged: the stable sort puts it last and it is popped. |
| ScoreLists.AddedHighScoresKeepsHighScore | js/gameState.js:92-94 | On a sorted table of at most five, a high score ends up in the table. |
| ScoreLists.AddedHighScoresKeepsDuplicates | js/gameState.js:113-128 | Names are not deduplicated: adding ("ann", 20) to [("ann", 10)] gives both entries. |
| ScoreLists.FindByName | js/gameState.js:133 | The result is the first index with the name, or none exactly when the name is absent. |
| ScoreLists.UpdatedScoresChangesOnlyPlayer | js/gameState.js:133-142 | Updating touches only the player's entry: every other entry stays in place, and the list grows by the player's new entry exactly when the name was absent. |
| ScoreLists.SavedScores | js/gameState.js:130-147 | The saved scoreboard is sorted by descending score and holds at most ten entries. |
| ScoreLists.SavedScoresDropsLowest | js/gameState.js:143-146 | When the updated list fits in ten entries, saving keeps all of it; otherwise it cuts only entries scoring no more than every kept one. |
| ScoreLists.SavedScoresKeepsOthers | js/gameState.js:130-147 | While the scoreboard has room, every entry under another name survives the save. |
| ScoreLists.SavedScoresUnique | js/gameState.js:130-147 | Names that were unique stay unique. |
| ScoreLists.SavedScoresKeepsBest | js/gameState.js:133-142 | With room for the player, exactly one entry carries the name, holding max(old, new), or the new score for a new name. |
| ScoreLists.SaveTwiceKeepsHigher | js/gameState.js:130-147 | Saving (n, 100) and then (n, 200) leaves one entry for n, holding 200. |
| Session.GameState.constructor | js/gameState.js:2-9 | A new session is in MENU with score 0, speed 5, not paused, and the stored high-score table. |
| Session.GameState.HandleKeyDown | js/gameState.js:53-61 | 'p' (either case) pauses only from PLAYING; in any other phase, or for any other key, nothing changes. The key therefore never resumes. |
| Session.GameState.UpdateDeltaTime | js/gameState.js:68-72 | Returns (t - last)/1000 seconds and records t as the last frame time. |
| Session.GameState.TogglePause | js/gameState.js:75-83 | PLAYING becomes PAUSED with the flag set; PAUSED becomes PLAYING with the flag cleared; other phases are unchanged. |
| Session.GameState.UpdateScore | js/gameState.js:86-90 | Sets the score and keeps the session invariant. |
| Session.GameState.AddHighScore | js/gameState.js:96-111 | The table becomes the added table for the current score. |
| Session.GameState.AddHighScoreWithScore | js/gameState.js:113-128 | The table becomes the added table for the given score and stays within five entries. |
| Session.GameState.IsHighScore | js/gameState.js:92-94 | A table with room always takes the current score; on a sorted table, the score qualifies iff there is room or it beats some entry. |
| Session.GameState.GetCurrentScore | js/gameState.js:206-208 | The current score, never negative in a valid session. |
| Session.GameState.FindEntry | js/gameState.js:133 | The linear search returns the first index with the name, or none. |
| Session.GameState.SaveScore | js/gameState.js:130-147 | The list to store is the saved scoreboard: sorted, at most ten entries, unique names kept unique. |
| Session.GameState.UpdateGameSpeed | js/gameState.js:194-196 | The speed becomes the curve's value at the current score. |
| Session.GameState.Reset | js/gameState.js:198-203 | Score 0, speed 5, not paused; the phase is untouched. |
| Orchestrator.ScoreGrowsEachTick | js/game.js:363-383 | A clear tick with the curve's speed raises a non-negative score by at least 2 and at most 7. |
| Orchestrator.NextScore | js/game.js:383 | The new score is the floor of score + speed/2, and a non-negative speed never lowers it. |
| Orchestrator.NextTrackOffset | js/game.js:367 | Scrolling forward keeps the track offset in [0, 80), and within one period it does not wrap. |
| Orchestrator.TrimStart | js/game.js:133 | The trimmed name starts at the first non-white-space character; everything before it is white space. |
| Orchestrator.TrimEnd | js/game.js:133 | The trimmed name ends after the last non-white-space character; everything after it is white space. |
| Orchestrator.Trim | js/game.js:133 | The trimmed name is no longer than the input and neither starts nor ends with white space. |
| Orchestrator.SkipWhiteSpace | js/game.js:133 | Finds the first non-white-space position: everything skipped is white space. |
| Orchestrator.SkipWhiteSpaceBack | js/game.js:133 | Finds the end of the text before trailing white space: everything dropped is white space. |
| Orchestrator.TrimCutsOnlyWhiteSpace | js/game.js:133 | Trim cuts only white space from the two ends, and what it keeps neither starts nor ends with white space. |
| Orchestrator.TrimEmptyIffBlank | js/game.js:133-134 | A name trims to nothing exactly when it is all white space. |
| Orchestrator.TrimIdempotent | js/game.js:133 | Trimming twice is the same as trimming once. |
| Orchestrator.ScoreToSave | js/game.js:135 | The held score is used when it is present and non-zero; otherwise the current score. |
| Orchestrator.Game.constructor | js/game.js:11-17 | A new game is in MENU with fresh components and the stored table: score 0, speed 5, not paused, no held score, no obstacles with both spawn distances at 400, the runner reset, track offset 0 and no countdown. |
| Orchestrator.Game.StartGame | js/game.js:321-345 | Fully resets the runner (middle lane centre, ground, RUNNING, jump height 0, no keys), the obstacles (none; next spawn 200), track, score (0) and speed (5). Enters COUNTDOWN with 3 steps; the pause flag is untouched. |
| Orchestrator.Game.CountdownTick | js/game.js:336-344 | Each step lowers the count by one. The step that reaches 0 enters PLAYING; earlier steps leave the phase alone. |
| Orchestrator.Game.RunCountdown | js/game.js:336-344 | The three one-second steps of a full countdown end in PLAYING with the count at 0. |
| Orchestrator.Game.StartAndCountDown | js/game.js:321-345 | Starting and running the countdown out gives PLAYING from the fully reset state, with the pause flag untouched. |
| Orchestrator.Game.ResetGameAsWritten | js/game.js:347-358 | Fully resets the runner (middle lane centre, ground, RUNNING, jump height 0, no keys), obstacles, track, score and speed. With returnToMenu the phase becomes MENU, otherwise it is unchanged. The pause flag is never touched. |
| Orchestrator.Game.ResetGame | js/game.js:347-358 | The same full reset of runner, obstacles, track, score and speed, with the pause flag cleared when returning to the menu. |
| Orchestrator.Game.HandleGameOver | js/game.js:392-403 | The run has ended (`RunEnded`): the final score is held only if it is a high score before the reset, and the game is back in MENU with runner, obstacles, track, score and speed fully reset. The reset is the one as written, so the pause flag keeps its value; the high-score table is untouched. |
| Orchestrator.Game.ScrollTrack | js/game.js:363-367 | The speed comes from the score and the track offset scrolls by it; phase, score, pause flag, held score and table are untouched. |
| Orchestrator.Game.Advance | js/game.js:363-373 | The speed comes from the score and the track offset scrolls by it. The returned runner pose is the one-frame motion (`Moved`) of the old pose, and the returned scheduler state the one-frame step (`StepsTo`: advance, filter, countdown, spawn from the draws) of the old one at that speed. |
| Orchestrator.Game.MoveRunnerAndObstacles | js/game.js:369-373 | The runner's one-frame motion, then the obstacles' one-frame step at the given speed; the session is untouched. |
| Orchestrator.Game.StepObstacles | js/game.js:373 | The scheduler's one-frame step, stated on its snapshots before and after. |
| Orchestrator.Game.Resolve | js/game.js:375-383 | A collision is reported iff some obstacle of the stepped list hits the moved runner. On a hit, the reason is that of the first obstacle hit and the run has ended (`RunEnded`). A clear tick is `TickedClear`: only the score changes, to floor(score + speed/2), which is higher, and no listed obstacle hits the runner. |
| Orchestrator.Game.AddDistanceScore | js/game.js:382-383 | A clear tick adds the distance score: the score becomes floor(score + speed/2) and grows; runner and obstacles stay where the step left them. |
| Orchestrator.Game.Tick | js/game.js:363-383 | The PLAYING tick: the runner's pose after it is the one-frame motion of its old pose and the obstacle list the one-frame step of the old one at the curve speed of the old score. A collision is reported iff some obstacle of that stepped list hits the moved runner; then the reason is the first such obstacle's and the run has ended. Otherwise the tick is clear: curve speed, scrolled track, higher score, and runner and obstacles in exactly the moved and stepped states. |
| Orchestrator.Game.Update | js/game.js:360-390 | Outside PLAYING nothing changes. In PLAYING the returned pose and list are the runner's one-frame motion and the obstacles' one-frame step from their old states. A collision is reported iff some obstacle of the stepped list hits the moved runner. On a collision the reason is the first hit obstacle's, and the run ends: the score is held if it qualifies, and the game returns to MENU with score, speed, obstacle list, spawn countdown, track and runner reset and the pause flag kept. As in the code, the spawn base (400, part of the game's invariant) and the runner's progress counters carry over. A clear tick sets the curve speed, wraps the track offset and raises the score to floor(score + speed/2); runner and obstacles are in the moved and stepped states, and no listed obstacle hits the runner. |
| Orchestrator.Game.Animate | js/game.js:419-427 | The frame time is always recorded. While paused, or outside PLAYING, nothing else changes and no collision is reported. When PLAYING and not paused, the tick runs with the measured frame time: the runner moves and the obstacles step, a collision is reported iff a stepped obstacle hits the moved runner, with the first hit obstacle's reason, and it ends the run; otherwise the game stays PLAYING with a higher score. |
| Orchestrator.Game.SubmitScore | js/game.js:132-141 | A name that trims to nothing changes nothing. Otherwise the held-or-current score is added under the trimmed name and the held score is cleared. |
| Orchestrator.Game.QuitFromPauseAsWritten | js/game.js:123-125 | As written, quitting from pause and starting again ends PLAYING with the pause flag set. The next frame then leaves score, obstacles and track at zero. |
| Orchestrator.Game.QuitFromPause | js/game.js:123-125 | With the corrected reset, the new run is PLAYING and not paused, and its first frame runs the tick: the score is above zero. |

## Left out

- Rendering and the scene are not modelled: Three.js scene, camera, lights, meshes, mesh positions and the run animation.
- The DOM is not modelled: screens and overlays (`updateUI`), score text, the death overlay with its page reload, modals, the debug overlay and the dev-mode toggle.
- Storage is outside the model. The high-score table is handed to the `GameState` constructor. `SaveScore` takes the stored scoreboard and returns the list to store. `updateHighScoreDisplay` and `getScores` are not modelled.
- Clocks and timers become explicit steps. `performance.now` and `requestAnimationFrame` become the `currentTime` parameter of `Game.Animate`. The one-second `setInterval` becomes `Game.CountdownTick` calls.
- Randomness is a parameter. `Math.random` is a `Draw` parameter in [0, 1).
- `Math.sin` in the jump arc is left uninterpreted, as the `arc` parameter. Only the landing on `baseY` is a fact about the code.
- Rounding is not modelled. Numbers are exact reals, so IEEE-754 effects, such as 10/3 not being exact, are out of scope.
- Key names: `KeyOf` covers only the lower-casing of the game's single-letter keys. Other keys map to `OtherKey`, which every handler ignores.
- Dead code is not modelled: `laneToX`, `jumpChargeTime`/`jumpVelocity`, `isMoving`, `resize`, the empty `handleKeyUp` of the session, and `showGameOverScreen`/`showNameInput`. Nothing in the game calls the last two, so `SaveScore` is modelled as a list operation only.
- Two code paths cannot be reached with three obstacle types: the fallback hitbox (js/obstacles.js:166-172) and the "Hit an obstacle" reason. They are not modelled. The GAME_OVER phase is declared but never entered.
- Obstacles.ObstacleManager.Update: removing meshes from the scene is not modelled.
- The base spawn distance is never lowered by the code, so it stays at 400; `Game.Valid` states this and every `Game` method keeps it. Each restart therefore lands in [392.5, 447.5]; the model keeps the code's formula.
- Orchestrator.Game.Update: the positions of obstacles dropped from the list (those past z = 10) after the step are not stated; the contract speaks of the runner's pose and the list as values. `ObstacleManager.Update` states them.
- Orchestrator.Game.countdown: the interval is a counter. A reset during a countdown cannot happen through the UI, so the model does not stop a running countdown.

## Findings

| source | as written | input that shows it | evidently intended | confidence | as-written member | corrected member |
|---|---|---|---|---|---|---|
| js/game.js:347-358 | `resetGame(true)` (the pause menu's quit button, js/game.js:123-125) never clears `gameState.isPaused`. `startGame` does not clear it either. | While PLAYING, press 'p', click Quit, click Start and let the countdown run out. The game is PLAYING with `isPaused` true, so `animate` never calls `update` and the run is frozen. Pressing 'p' and then Resume unfreezes it. | Returning to the menu leaves the game unpaused, so the next run plays. | not executed | Orchestrator.Game.QuitFromPauseAsWritten (with Orchestrator.Game.ResetGameAsWritten) | Orchestrator.Game.QuitFromPause (with Orchestrator.Game.ResetGame) |
