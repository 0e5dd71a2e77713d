/** Stage advancement after a boss is defeated, and the restart that begins a new session. */
module Progression {
  import opened State

  /** Added to `scoreThreshold` on every stage advance. */
  const ThresholdStep: int := 100
  /** Added to `enemySpeedMultiplier` on every stage advance. */
  const SpeedMultiplierStep: real := 0.4

  /** goToNextStage: one stage up, a boss threshold 100 points further on, enemies 0.4 faster,
      and the boss gone; nothing else changes. */
  function GoToNextStage(s: GameState): (r: GameState)
    ensures r.stage == s.stage + 1
    ensures r.scoreThreshold == s.scoreThreshold + ThresholdStep
    ensures r.enemySpeedMultiplier == s.enemySpeedMultiplier + SpeedMultiplierStep
    ensures !r.isBossActive && r.boss.None?
    ensures r.(stage := s.stage, scoreThreshold := s.scoreThreshold,
               enemySpeedMultiplier := s.enemySpeedMultiplier,
               isBossActive := s.isBossActive, boss := s.boss) == s
  {
    s.(stage := s.stage + 1,
       scoreThreshold := s.scoreThreshold + ThresholdStep,
       enemySpeedMultiplier := s.enemySpeedMultiplier + SpeedMultiplierStep,
       isBossActive := false,
       boss := None)
  }

  /** restartGame without its final call to gameLoop: every counter, flag and pool back to its
      start value and the player back at its start position. The player's size and speed are
      not written, as in the script (they never change). */
  function RestartGame(s: GameState, canvas: Canvas): (r: GameState)
    ensures r.score == 0 && !r.gameOver && r.stage == 1
    ensures r.scoreThreshold == FirstThreshold && r.enemySpeedMultiplier == 1.0
    ensures !r.isBossActive && r.boss.None?
    ensures r.enemies == [] && r.bullets == [] && r.bossBullets == []
    ensures r.player.box.x == PlayerStartX && r.player.box.y == canvas.height / 2.0 - 25.0
    ensures r.player.box.width == s.player.box.width && r.player.box.height == s.player.box.height
    ensures r.player.speed == s.player.speed
  {
    s.(score := 0,
       gameOver := false,
       stage := 1,
       scoreThreshold := FirstThreshold,
       enemySpeedMultiplier := 1.0,
       isBossActive := false,
       boss := None,
       enemies := [],
       bullets := [],
       bossBullets := [],
       player := s.player.(box := s.player.box.(x := PlayerStartX, y := PlayerStartY(canvas))))
  }

  /** No state leaks from one session into the next: restarting from any state whose player
      has its declared size and speed gives exactly the state the script starts with. */
  lemma RestartIsInitial(s: GameState, canvas: Canvas)
    requires StandardPlayer(s.player)
    ensures RestartGame(s, canvas) == Initial(canvas)
  {
  }
}
