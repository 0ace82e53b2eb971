/**
 * The session bookkeeping of the app shell (App.tsx): the MENU / PLAYING /
 * GAME_OVER transitions, the level-up effect and the high-score table.
 */
module Session {
  import opened Types
  import opened HighScores

  /**
   * The level the level-up effect leaves (App.tsx:72-81): one level more exactly
   * when the game is being played, a next level exists in `thresholds` and the
   * score has reached its threshold; otherwise the level is unchanged.
   */
  function LevelAfter(gs: GameState, level: nat, score: int, thresholds: seq<int>): (r: nat)
    ensures r == level || r == level + 1
    ensures r == level + 1 <==> gs == Playing && level + 1 <= |thresholds| && score >= thresholds[level]
    ensures level <= |thresholds| ==> r <= |thresholds|
  {
    if gs != Playing then level
    else
      var nextLevel := level + 1;
      if nextLevel <= |thresholds| && score >= thresholds[nextLevel - 1] then nextLevel else level
  }

  /**
   * The level the effect settles on while the score stays put: the effect depends
   * on `level`, so each level change runs it again until it changes nothing.
   */
  function SettledLevel(level: nat, score: int, thresholds: seq<int>): nat
    decreases |thresholds| - level
  {
    if LevelAfter(Playing, level, score, thresholds) == level then level
    else SettledLevel(level + 1, score, thresholds)
  }

  /**
   * The settled level is a fixed point of the effect, never below the start,
   * never past the number of thresholds, and every threshold passed on the way
   * was reached by the score.
   */
  lemma {:induction false} SettledLevelIsFixedPoint(level: nat, score: int, thresholds: seq<int>)
    ensures var r := SettledLevel(level, score, thresholds);
            && LevelAfter(Playing, r, score, thresholds) == r
            && r >= level
            && (level <= |thresholds| ==> r <= |thresholds|)
            && forall l :: level <= l < r ==> l < |thresholds| && score >= thresholds[l]
    decreases |thresholds| - level
  {
    if LevelAfter(Playing, level, score, thresholds) != level {
      SettledLevelIsFixedPoint(level + 1, score, thresholds);
    }
  }

  /** The app shell's state that gameplay reads or writes. */
  class App {
    /** LEVEL_THRESHOLDS: the score needed for level k + 1 is `thresholds[k]`. */
    const thresholds: seq<int>
    /** MAX_HIGH_SCORES */
    const maxHighScores: nat

    var gameState: GameState
    var score: int
    var level: nat
    var showLevelUpScreen: bool
    var finalTime: real
    var highScores: seq<Entry>
    var highScore: int
    var isLoading: bool

    /** The level starts at 1 and never passes the number of thresholds (when there is one). */
    ghost predicate Valid()
      reads this
    {
      1 <= level && (level <= |thresholds| || level == 1)
    }

    /** The state on mount, before any stored high score is loaded. */
    constructor (thresholds: seq<int>, maxHighScores: nat)
      ensures Valid()
      ensures this.thresholds == thresholds && this.maxHighScores == maxHighScores
      ensures gameState == Menu && score == 0 && level == 1 && !showLevelUpScreen
      ensures finalTime == 0.0 && highScores == [] && highScore == 0 && !isLoading
    {
      this.thresholds := thresholds;
      this.maxHighScores := maxHighScores;
      gameState := Menu;
      score := 0;
      level := 1;
      showLevelUpScreen := false;
      finalTime := 0.0;
      highScores := [];
      highScore := 0;
      isLoading := false;
    }

    /** `startGame` (App.tsx:83-88). */
    method StartGame()
      modifies this`gameState, this`score, this`level
      ensures Valid()
      ensures gameState == Playing && score == 0 && level == 1
    {
      gameState := Playing;
      score := 0;
      level := 1;
    }

    /** The `setScore` callback the canvas calls whenever its score changes. */
    method SetScore(s: int)
      modifies this`score
      ensures score == s
    {
      score := s;
    }

    /** One run of the level-up effect (App.tsx:72-81). */
    method LevelUpEffect()
      requires Valid()
      modifies this`level, this`showLevelUpScreen
      ensures Valid()
      ensures level == LevelAfter(gameState, old(level), score, thresholds)
      ensures showLevelUpScreen == (old(showLevelUpScreen) || level != old(level))
    {
      if gameState != Playing {
        return;
      }
      var nextLevel := level + 1;
      if nextLevel <= |thresholds| && score >= thresholds[nextLevel - 1] {
        level := nextLevel;
        showLevelUpScreen := true;
      }
    }

    /**
     * `updateHighScores` (App.tsx:90-98): the table becomes the updated table, and
     * the best score follows its first row when it has one.
     */
    method UpdateHighScores(finalScore: int, date: string)
      modifies this`highScores, this`highScore
      ensures highScores == UpdatedHighScores(old(highScores), Entry(finalScore, date), maxHighScores)
      ensures highScore == if |highScores| > 0 then highScores[0].score else old(highScore)
      ensures maxHighScores > 0 ==>
                && highScore >= finalScore
                && forall k :: 0 <= k < |old(highScores)| ==> highScore >= old(highScores)[k].score
    {
      if maxHighScores > 0 {
        UpdatedHighScoresTop(highScores, Entry(finalScore, date), maxHighScores);
      }
      var updatedScores := Take(SortDesc(highScores + [Entry(finalScore, date)]), maxHighScores);
      highScores := updatedScores;
      if |updatedScores| > 0 {
        highScore := updatedScores[0].score;
      }
    }

    /**
     * The state part of `handleGameOver` (App.tsx:100-106): the game is over, the
     * final score and time are shown, the table is updated and the crash report
     * is being fetched.
     */
    method HandleGameOver(finalScore: int, timeSurvived: real, date: string)
      requires Valid()
      modifies this`gameState, this`score, this`finalTime, this`highScores, this`highScore, this`isLoading
      ensures Valid()
      ensures gameState == GameOver && score == finalScore && finalTime == timeSurvived && isLoading
      ensures highScores == UpdatedHighScores(old(highScores), Entry(finalScore, date), maxHighScores)
      ensures highScore == if |highScores| > 0 then highScores[0].score else old(highScore)
    {
      gameState := GameOver;
      score := finalScore;
      finalTime := timeSurvived;
      UpdateHighScores(finalScore, date);
      isLoading := true;
    }

    /** The crash report has arrived (App.tsx:109-110). */
    method CrashReportReady()
      modifies this`isLoading
      ensures !isLoading
    {
      isLoading := false;
    }

    /** "Retry Mission" (App.tsx:355): shown only after the game ends, disabled while loading. */
    method Retry()
      requires Valid()
      modifies this`gameState, this`score, this`level
      ensures Valid()
      ensures old(gameState) == GameOver && !isLoading ==> gameState == Playing && score == 0 && level == 1
      ensures !(old(gameState) == GameOver && !isLoading) ==>
                gameState == old(gameState) && score == old(score) && level == old(level)
    {
      if gameState == GameOver && !isLoading {
        StartGame();
      }
    }

    /** "Return to Base" (App.tsx:356): shown only after the game ends. */
    method ReturnToBase()
      modifies this`gameState
      ensures gameState == if old(gameState) == GameOver then Menu else old(gameState)
    {
      if gameState == GameOver {
        gameState := Menu;
      }
    }
  }
}
