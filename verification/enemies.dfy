/** Ordinary enemies: the timed spawner and the per-frame movement. */
module Enemies {
  import opened Geometry
  import opened State
  import Pool

  /** spawnEnemy, with the three Math.random() results it draws passed in: no enemy while the
      game is over or a boss is active; otherwise one square enemy appended at the right edge of
      the canvas, 20 to 60 pixels wide, fully inside the canvas vertically when the canvas is at
      least as tall as the enemy, with a speed of 1.5
      to 4.5 times the stage's multiplier and the stage's palette colour. */
  function SpawnEnemy(s: GameState, canvas: Canvas, sizeRoll: Unit01, yRoll: Unit01, speedRoll: Unit01)
    : (r: GameState)
    ensures s.gameOver || s.isBossActive ==> r == s
    ensures !(s.gameOver || s.isBossActive) ==>
      && |r.enemies| == |s.enemies| + 1
      && r.enemies[..|s.enemies|] == s.enemies
      && var e := r.enemies[|s.enemies|];
         && e.box.x == canvas.width
         && e.box.width == e.box.height
         && 20.0 <= e.box.width < 60.0
         && (e.box.height <= canvas.height ==> 0.0 <= e.box.y && e.box.y + e.box.height <= canvas.height)
         && (s.enemySpeedMultiplier > 0.0 ==>
               1.5 * s.enemySpeedMultiplier <= e.speed < 4.5 * s.enemySpeedMultiplier)
         && e.colorIndex == PaletteIndex(s.stage)
         && (s.stage >= 1 ==> 0 <= e.colorIndex < PaletteSize)
    ensures r.(enemies := s.enemies) == s
  {
    if s.gameOver || s.isBossActive then s
    else
      var e := NewEnemy(canvas, s.stage, s.enemySpeedMultiplier, sizeRoll, yRoll, speedRoll);
      assert (s.enemies + [e])[..|s.enemies|] == s.enemies;
      s.(enemies := s.enemies + [e])
  }

  lemma MulNonNegative(x: real, y: real)
    requires x >= 0.0 && y >= 0.0
    ensures x * y >= 0.0
  {
  }

  /** `a * d` lies between 0 and d when a is a Math.random() result. */
  lemma ScaleByUnit(a: Unit01, d: real)
    requires d >= 0.0
    ensures 0.0 <= a * d <= d
  {
    MulNonNegative(a, d);
    MulNonNegative(1.0 - a, d);
    assert (1.0 - a) * d == d - a * d;
  }

  /** `(roll * 3 + 1.5) * m` lies in [1.5 m, 4.5 m) for a positive multiplier m. */
  lemma SpeedFactorBounds(roll: Unit01, m: real)
    requires m > 0.0
    ensures 1.5 * m <= (roll * 3.0 + 1.5) * m < 4.5 * m
  {
    assert (roll * 3.0 + 1.5) * m == 3.0 * (roll * m) + 1.5 * m;
    MulNonNegative(roll, m);
    assert (1.0 - roll) * m == m - roll * m;
    assert (1.0 - roll) * m > 0.0;
  }

  /** The enemy spawnEnemy pushes, for the given random draws. */
  function NewEnemy(canvas: Canvas, stage: int, multiplier: real, sizeRoll: Unit01, yRoll: Unit01, speedRoll: Unit01)
    : (e: Enemy)
    ensures e.box.x == canvas.width
    ensures e.box.width == e.box.height
    ensures 20.0 <= e.box.width < 60.0
    ensures e.box.height <= canvas.height ==> 0.0 <= e.box.y && e.box.y + e.box.height <= canvas.height
    ensures multiplier > 0.0 ==> 1.5 * multiplier <= e.speed < 4.5 * multiplier
    ensures e.colorIndex == PaletteIndex(stage)
  {
    var size := sizeRoll * 40.0 + 20.0;
    var room := canvas.height - size;
    var y := yRoll * room;
    var factor := speedRoll * 3.0 + 1.5;
    assert room >= 0.0 ==> 0.0 <= y <= room by {
      if room >= 0.0 {
        ScaleByUnit(yRoll, room);
      }
    }
    assert multiplier > 0.0 ==> 1.5 * multiplier <= factor * multiplier < 4.5 * multiplier by {
      if multiplier > 0.0 {
        SpeedFactorBounds(speedRoll, multiplier);
      }
    }
    Enemy(Rect(canvas.width, y, size, size), factor * multiplier, PaletteIndex(stage))
  }

  function MoveEnemy(e: Enemy): Enemy {
    e.(box := e.box.Shift(-e.speed, 0.0))
  }

  /** An enemy is discarded once its right edge is past the left of the canvas. */
  predicate OffLeft(e: Enemy) {
    e.box.x + e.box.width < 0.0
  }

  /** updateEnemies: a backward scan that moves every enemy left by its speed, ends the game if
      one touches the player, and splices out those past the left edge. It keeps, in order,
      exactly the moved enemies still on screen, and ends the game exactly when some moved
      enemy touches the player (even one that is removed in the same frame). */
  function UpdateEnemies(s: GameState): (r: GameState)
    ensures r.enemies == Pool.Survivors(s.enemies, MoveEnemy, OffLeft)
    ensures r.gameOver <==>
      s.gameOver || exists k :: 0 <= k < |s.enemies| && Colliding(s.player.box, MoveEnemy(s.enemies[k]).box)
    ensures r.(enemies := s.enemies, gameOver := s.gameOver) == s
  {
    var hit := (e: Enemy) => Colliding(s.player.box, e.box);
    var swept := Pool.SweepBack(s.enemies, |s.enemies|, MoveEnemy, hit, OffLeft, s.gameOver);
    Pool.SweepBackIsSurvivors(s.enemies, MoveEnemy, hit, OffLeft, s.gameOver);
    s.(enemies := swept.0, gameOver := swept.1)
  }

  /** Run n frames of one enemy's movement. */
  function RunEnemy(e: Enemy, n: nat): (r: Enemy)
    ensures r.box.x == e.box.x - n as real * e.speed
    ensures r.(box := e.box) == e && r.box == e.box.(x := r.box.x)
  {
    if n == 0 then e else MoveEnemy(RunEnemy(e, n - 1))
  }

  /** An enemy spawned at the right edge of a canvas of width w with speed 2 is still on screen
      for ceil(w / 2) - 1 frames, and its left edge is at or past the left of the canvas after ceil(w / 2). */
  lemma CrossingTime(e: Enemy, w: nat)
    requires e.box.x == w as real && e.speed == 2.0
    ensures var n := (w + 1) / 2;
      && RunEnemy(e, n).box.x <= 0.0
      && (n > 0 ==> RunEnemy(e, n - 1).box.x > 0.0)
  {
  }
}
