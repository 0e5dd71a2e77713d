/** The boss: its stage-dependent statistics, its spawn, its bouncing movement and timed
    attacks, and the projectiles it fires. */
module BossControl {
  import opened Geometry
  import opened State
  import Pool

  const BossSize: real := 100.0
  const BossBulletSize: real := 15.0
  /** Boss bullets travel to the left, toward the player. */
  const BossBulletSpeed: real := -4.0
  /** Hit points lost per player bullet. */
  const HitDamage: int := 10
  /** The floor of the attack cooldown, in frames. */
  const MinAttackCooldown: int := 20

  /** `100 + (stage - 1) * 50`: 50 more hit points per stage. */
  function BossMaxHp(stage: int): int {
    100 + (stage - 1) * 50
  }

  /** `2 + (stage - 1) * 0.5`: the boss's speed on each axis. */
  function BossSpeed(stage: int): real {
    2.0 + (stage - 1) as real * 0.5
  }

  /** `Math.max(20, 60 - (stage - 1) * 5)`: five frames faster per stage, never below 20. */
  function AttackCooldown(stage: int): (r: int)
    ensures r >= MinAttackCooldown && r >= 60 - (stage - 1) * 5
    ensures r == MinAttackCooldown || r == 60 - (stage - 1) * 5
  {
    if MinAttackCooldown < 60 - (stage - 1) * 5 then 60 - (stage - 1) * 5 else MinAttackCooldown
  }

  /** The cooldown reaches its floor at stage 9 and stays there. */
  lemma CooldownFloor(stage: int)
    ensures AttackCooldown(stage) == MinAttackCooldown <==> stage >= 9
    ensures stage <= 9 ==> AttackCooldown(stage) == 60 - (stage - 1) * 5
  {
  }

  /** spawnBoss: the boss appears at the right of the canvas, vertically centred, with full
      health and a zero attack timer; the enemy pool is emptied. Nothing else changes. */
  function SpawnBoss(s: GameState, canvas: Canvas): (r: GameState)
    ensures r.isBossActive && r.enemies == [] && r.boss.Some?
    ensures r.boss.value.hp == r.boss.value.maxHp == BossMaxHp(s.stage)
    ensures r.boss.value.attackCooldown == AttackCooldown(s.stage) >= MinAttackCooldown
    ensures r.boss.value.attackTimer == 0
    ensures r.boss.value.speedX == r.boss.value.speedY == BossSpeed(s.stage)
    ensures r.boss.value.box == Rect(canvas.width - 150.0, canvas.height / 2.0 - 50.0, BossSize, BossSize)
    ensures r.boss.value.box.y + r.boss.value.box.height / 2.0 == canvas.height / 2.0
    ensures s.stage >= 1 ==> 0 <= r.boss.value.colorIndex < PaletteSize
    ensures r.(isBossActive := s.isBossActive, enemies := s.enemies, boss := s.boss) == s
  {
    var speed := BossSpeed(s.stage);
    var hp := BossMaxHp(s.stage);
    var boss := Boss(
      box := Rect(canvas.width - 150.0, canvas.height / 2.0 - 50.0, BossSize, BossSize),
      speedX := speed, speedY := speed,
      hp := hp, maxHp := hp,
      attackCooldown := AttackCooldown(s.stage), attackTimer := 0,
      colorIndex := PaletteIndex(s.stage));
    s.(isBossActive := true, enemies := [], boss := Some(boss))
  }

  /** The movement half of updateBoss: move by the current velocity, then reverse a velocity
      component when the moved box is at or past a bound of the boss's area (the right half of
      the canvas). Speeds only change sign. */
  function MoveBoss(b: Boss, canvas: Canvas): (r: Boss)
    ensures r.box == b.box.Shift(b.speedX, b.speedY)
    ensures r.speedX == b.speedX || r.speedX == -b.speedX
    ensures r.speedY == b.speedY || r.speedY == -b.speedY
    ensures b.speedX != 0.0 ==>
      (r.speedX == -b.speedX <==> r.box.x <= canvas.width / 2.0 || r.box.x + r.box.width >= canvas.width)
    ensures b.speedY != 0.0 ==>
      (r.speedY == -b.speedY <==> r.box.y <= 0.0 || r.box.y + r.box.height >= canvas.height)
    ensures r.(box := b.box, speedX := b.speedX, speedY := b.speedY) == b
  {
    var box := b.box.Shift(b.speedX, b.speedY);
    var bounceX := box.x <= canvas.width / 2.0 || box.x + box.width >= canvas.width;
    var bounceY := box.y <= 0.0 || box.y + box.height >= canvas.height;
    b.(box := box,
       speedX := if bounceX then -b.speedX else b.speedX,
       speedY := if bounceY then -b.speedY else b.speedY)
  }

  /** The attack half of updateBoss: the timer counts down by one; when it reaches zero or below,
      one bullet leaves the boss's left edge at its vertical middle and the timer restarts from
      the cooldown. */
  function BossAttack(b: Boss): (r: (Boss, Option<BossBullet>))
    ensures r.1.Some? <==> b.attackTimer <= 1
    ensures r.1.Some? ==>
      && r.0.attackTimer == b.attackCooldown
      && r.1.value == BossBullet(Rect(b.box.x, b.box.y + b.box.height / 2.0, BossBulletSize, BossBulletSize), BossBulletSpeed)
    ensures r.1.None? ==> r.0.attackTimer == b.attackTimer - 1
    ensures r.0.(attackTimer := b.attackTimer) == b
  {
    var timer := b.attackTimer - 1;
    if timer <= 0 then
      var shot := BossBullet(Rect(b.box.x, b.box.y + b.box.height / 2.0, BossBulletSize, BossBulletSize), BossBulletSpeed);
      (b.(attackTimer := b.attackCooldown), Some(shot))
    else
      (b.(attackTimer := timer), None)
  }

  /** One frame of the boss alone: movement, then attack. */
  function BossStep(b: Boss, canvas: Canvas): (Boss, Option<BossBullet>) {
    BossAttack(MoveBoss(b, canvas))
  }

  /** updateBoss: nothing without a boss; otherwise one boss frame, the bullet it fires appended
      to the boss-bullet pool, and game over when the moved boss touches the player. */
  function UpdateBoss(s: GameState, canvas: Canvas): (r: GameState)
    ensures s.boss.None? ==> r == s
    ensures s.boss.Some? ==> r.boss == Some(BossStep(s.boss.value, canvas).0)
    ensures |r.bossBullets| == |s.bossBullets| + (if s.boss.Some? && s.boss.value.attackTimer <= 1 then 1 else 0)
    ensures r.bossBullets[..|s.bossBullets|] == s.bossBullets
    ensures s.boss.Some? && BossStep(s.boss.value, canvas).1.Some? ==>
      r.bossBullets == s.bossBullets + [BossStep(s.boss.value, canvas).1.value]
    ensures r.gameOver == (s.gameOver || (s.boss.Some? && Colliding(s.player.box, r.boss.value.box)))
    ensures r.(boss := s.boss, bossBullets := s.bossBullets, gameOver := s.gameOver) == s
  {
    match s.boss
    case None => s
    case Some(b) =>
      var step := BossStep(b, canvas);
      var shots := if step.1.Some? then [step.1.value] else [];
      assert (s.bossBullets + shots)[..|s.bossBullets|] == s.bossBullets;
      s.(boss := Some(step.0),
         bossBullets := s.bossBullets + shots,
         gameOver := s.gameOver || Colliding(s.player.box, step.0.box))
  }

  function MoveBossBullet(b: BossBullet): BossBullet {
    b.(box := b.box.Shift(b.speed, 0.0))
  }

  /** A boss bullet is discarded once its left edge is past the left of the canvas. */
  predicate BossBulletGone(b: BossBullet) {
    b.box.x < 0.0
  }

  /** updateBossBullets: a backward scan that moves every boss bullet, ends the game if one
      touches the player, and splices out those past the left edge. It keeps, in order, exactly
      the moved bullets still on screen, and ends the game exactly when some moved bullet
      touches the player. */
  function UpdateBossBullets(s: GameState): (r: GameState)
    ensures r.bossBullets == Pool.Survivors(s.bossBullets, MoveBossBullet, BossBulletGone)
    ensures r.gameOver <==>
      s.gameOver || exists k :: 0 <= k < |s.bossBullets| && Colliding(s.player.box, MoveBossBullet(s.bossBullets[k]).box)
    ensures r.(bossBullets := s.bossBullets, gameOver := s.gameOver) == s
  {
    var hit := (b: BossBullet) => Colliding(s.player.box, b.box);
    var swept := Pool.SweepBack(s.bossBullets, |s.bossBullets|, MoveBossBullet, hit, BossBulletGone, s.gameOver);
    Pool.SweepBackIsSurvivors(s.bossBullets, MoveBossBullet, hit, BossBulletGone, s.gameOver);
    s.(bossBullets := swept.0, gameOver := swept.1)
  }

  /** n frames of the boss alone, and how many bullets it fired in them. */
  function RunBoss(b: Boss, n: nat, canvas: Canvas): (r: (Boss, nat))
    ensures r.0.attackCooldown == b.attackCooldown
    ensures r.1 <= n
    decreases n
  {
    if n == 0 then (b, 0)
    else
      var before := RunBoss(b, n - 1, canvas);
      var step := BossStep(before.0, canvas);
      (step.0, before.1 + if step.1.Some? then 1 else 0)
  }

  /** While the timer has not run out the boss does not fire, and the timer counts down by one per frame. */
  lemma {:induction false} QuietWhileTimerRuns(b: Boss, n: nat, canvas: Canvas)
    requires n < b.attackTimer
    ensures RunBoss(b, n, canvas).1 == 0
    ensures RunBoss(b, n, canvas).0.attackTimer == b.attackTimer - n
  {
    if n > 0 {
      QuietWhileTimerRuns(b, n - 1, canvas);
    }
  }

  /** When the timer runs out the boss fires exactly one bullet, and the timer is full again. */
  lemma FiresWhenTimerRunsOut(b: Boss, canvas: Canvas)
    requires b.attackTimer >= 1
    ensures RunBoss(b, b.attackTimer, canvas).1 == 1
    ensures RunBoss(b, b.attackTimer, canvas).0.attackTimer == b.attackCooldown
  {
    QuietWhileTimerRuns(b, b.attackTimer - 1, canvas);
  }

  /** Running n frames and then m more is running n + m frames. */
  lemma {:induction false} RunBossAdditive(b: Boss, n: nat, m: nat, canvas: Canvas)
    ensures RunBoss(b, n + m, canvas).0 == RunBoss(RunBoss(b, n, canvas).0, m, canvas).0
    ensures RunBoss(b, n + m, canvas).1 == RunBoss(b, n, canvas).1 + RunBoss(RunBoss(b, n, canvas).0, m, canvas).1
    decreases m
  {
    if m > 0 {
      RunBossAdditive(b, n, m - 1, canvas);
    }
  }

  /** Right after an attack the timer equals the cooldown; from then on the boss fires exactly
      once every `attackCooldown` frames. */
  lemma {:induction false} OneShotPerCooldown(b: Boss, periods: nat, canvas: Canvas)
    requires b.attackTimer == b.attackCooldown >= 1
    ensures RunBoss(b, periods * b.attackCooldown, canvas).1 == periods
    ensures RunBoss(b, periods * b.attackCooldown, canvas).0.attackTimer == b.attackCooldown
  {
    if periods > 0 {
      var n := (periods - 1) * b.attackCooldown;
      OneShotPerCooldown(b, periods - 1, canvas);
      var mid := RunBoss(b, n, canvas).0;
      FiresWhenTimerRunsOut(mid, canvas);
      RunBossAdditive(b, n, b.attackCooldown, canvas);
      assert n + b.attackCooldown == periods * b.attackCooldown;
    }
  }
}
