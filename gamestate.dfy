/**
 * Session and score state: the phase, the score and speed, the pause flag,
 * frame-time bookkeeping and the high-score table. Storage of the score
 * lists is outside the model: lists are handed in and returned.
 */
module Session {
  import opened Utils
  import opened ScoreLists

  class GameState {
    var state: GamePhase
    var score: int
    var highScores: seq<ScoreEntry>
    var lastFrameTime: real
    var deltaTime: real
    var gameSpeed: real
    var isPaused: bool
    /** The score of the run that qualified for the high-score table, awaiting a name. */
    var tempScore: Option<int>

    /** The score never drops below zero and the speed stays on its curve's range. */
    ghost predicate Valid()
      reads this
    {
      score >= 0 && BaseSpeed <= gameSpeed <= BaseSpeed + MaxSpeedIncrease
    }

    /** A fresh session in the menu, with the high-score table loaded from storage (empty if there was none). */
    constructor (storedHighScores: seq<ScoreEntry>)
      ensures Valid()
      ensures state == Menu && score == 0 && highScores == storedHighScores
      ensures lastFrameTime == 0.0 && deltaTime == 0.0 && gameSpeed == BaseSpeed
      ensures !isPaused && tempScore == None
    {
      state := Menu;
      score := 0;
      highScores := storedHighScores;
      lastFrameTime := 0.0;
      deltaTime := 0.0;
      gameSpeed := BaseSpeed;
      isPaused := false;
      tempScore := None;
    }

    /** The 'p' key toggles the pause, but only while playing: it can pause and never resume. */
    method HandleKeyDown(eventKey: string)
      modifies this`state, this`isPaused
      ensures old(state) == Playing && KeyOf(eventKey) == KeyP ==> state == Paused && isPaused
      ensures !(old(state) == Playing && KeyOf(eventKey) == KeyP) ==> state == old(state) && isPaused == old(isPaused)
      ensures state != Playing || old(state) == Playing
    {
      if state != Playing {
        return;
      }
      match KeyOf(eventKey)
      case KeyP => TogglePause();
      case _ =>
    }

    /** Seconds since the previous frame, from a clock reading in milliseconds. */
    method UpdateDeltaTime(currentTime: real) returns (dt: real)
      modifies this`deltaTime, this`lastFrameTime
      ensures dt == deltaTime == (currentTime - old(lastFrameTime)) / 1000.0
      ensures old(lastFrameTime) + dt * 1000.0 == currentTime
      ensures lastFrameTime == currentTime
    {
      deltaTime := (currentTime - lastFrameTime) / 1000.0;
      lastFrameTime := currentTime;
      dt := deltaTime;
    }

    /** PLAYING and PAUSED swap, setting the pause flag to match; other phases are left alone. */
    method TogglePause()
      modifies this`state, this`isPaused
      ensures old(state) == Playing ==> state == Paused && isPaused
      ensures old(state) == Paused ==> state == Playing && !isPaused
      ensures old(state) != Playing && old(state) != Paused ==> state == old(state) && isPaused == old(isPaused)
    {
      if state == Playing {
        state := Paused;
        isPaused := true;
      } else if state == Paused {
        state := Playing;
        isPaused := false;
      }
    }

    method UpdateScore(newScore: int)
      requires Valid() && newScore >= 0
      modifies this`score
      ensures Valid() && score == newScore
    {
      score := newScore;
    }

    /** Whether the current score earns a place in the high-score table. */
    predicate IsHighScore()
      reads this
      ensures |highScores| < HighScoreCap ==> IsHighScore()
      ensures SortedDesc(highScores) ==>
        (IsHighScore() <==> |highScores| < HighScoreCap || exists i :: 0 <= i < |highScores| && score > highScores[i].score)
    {
      IsHighScoreFor(highScores, score)
    }

    /** Adds the current score under the given name. */
    method AddHighScore(playerName: string)
      modifies this`highScores
      ensures highScores == AddedHighScores(old(highScores), playerName, score)
    {
      AddHighScoreWithScore(playerName, score);
    }

    /** Adds a score under the given name: push, stable sort by descending score, and drop the last entry beyond five. */
    method AddHighScoreWithScore(playerName: string, score: int)
      modifies this`highScores
      ensures highScores == AddedHighScores(old(highScores), playerName, score)
      ensures |old(highScores)| <= HighScoreCap ==> |highScores| <= HighScoreCap
    {
      highScores := AddedHighScores(highScores, playerName, score);
    }

    /** The position of the first entry with the given name, if any. */
    method FindEntry(scores: seq<ScoreEntry>, playerName: string) returns (found: Option<nat>)
      ensures found == FindByName(scores, playerName)
    {
      var i := 0;
      while i < |scores|
        invariant 0 <= i <= |scores|
        invariant forall k :: 0 <= k < i ==> scores[k].name != playerName
      {
        if scores[i].name == playerName {
          assert scores[i] in scores;
          return Some(i);
        }
        i := i + 1;
      }
      assert forall e :: e in scores ==> e.name != playerName;
      return None;
    }

    /**
     * Records a score on the scoreboard read from storage and returns the
     * list to store: the player's first entry is raised to the new score if
     * that is better, or a new entry is appended; then the list is sorted by
     * descending score and cut to ten.
     */
    method SaveScore(stored: seq<ScoreEntry>, score: int, playerName: string) returns (saved: seq<ScoreEntry>)
      ensures saved == SavedScores(stored, score, playerName)
      ensures SortedDesc(saved) && |saved| <= ScoreboardCap
      ensures UniqueNames(stored) ==> UniqueNames(saved)
    {
      var scores := stored;
      var found := FindEntry(scores, playerName);
      if found.Some? {
        if score > scores[found.value].score {
          scores := scores[found.value := ScoreEntry(playerName, score)];
        }
      } else {
        scores := scores + [ScoreEntry(playerName, score)];
      }
      assert scores == UpdatedScores(stored, score, playerName);
      var sorted := SortDesc(scores);
      saved := if |sorted| > ScoreboardCap then sorted[..ScoreboardCap] else sorted;
      if UniqueNames(stored) {
        SavedScoresUnique(stored, score, playerName);
      }
    }

    method UpdateGameSpeed()
      requires Valid()
      modifies this`gameSpeed
      ensures Valid() && gameSpeed == CalculateGameSpeed(score)
    {
      gameSpeed := CalculateGameSpeed(score);
    }

    /** Zero score, base speed, not paused; the phase is left as it is. */
    method Reset()
      modifies this`score, this`gameSpeed, this`isPaused
      ensures Valid()
      ensures score == 0 && gameSpeed == BaseSpeed && !isPaused
    {
      score := 0;
      gameSpeed := BaseSpeed;
      isPaused := false;
    }

    /** The current score, which a valid session keeps non-negative. */
    function GetCurrentScore(): (r: int)
      reads this
      ensures Valid() ==> r >= 0
    {
      score
    }
  }
}
