/** The facts that hold of the game state at every point between two events, and their
    preservation by every operation that changes the state. */
module Invariant {
  import opened State
  import opened Progression
  import opened BossControl
  import opened Enemies
  import opened PlayerControl
  import opened Bullets

  /** A live boss as spawnBoss made it for this stage, with some hit points left (a multiple
      of the ten taken per hit), its timer within the cooldown and its speed only ever reversed. */
  predicate BossOk(b: Boss, stage: int) {
    && 0 < b.hp <= b.maxHp
    && b.hp % HitDamage == 0
    && b.maxHp == BossMaxHp(stage)
    && b.attackCooldown == AttackCooldown(stage)
    && 0 <= b.attackTimer <= b.attackCooldown
    && (b.speedX == BossSpeed(stage) || b.speedX == -BossSpeed(stage))
    && (b.speedY == BossSpeed(stage) || b.speedY == -BossSpeed(stage))
    && b.box.width == BossSize && b.box.height == BossSize
  }

  /** The invariant of the game state. The threshold and the speed multiplier are linear in the
      stage; the boss exists exactly while the boss flag is set, and then no enemy exists and
      the score sits exactly at the threshold; without a boss the score is below it. */
  predicate Inv(s: GameState) {
    && s.stage >= 1
    && s.scoreThreshold == ThresholdStep * s.stage
    && s.enemySpeedMultiplier == 1.0 + SpeedMultiplierStep * (s.stage - 1) as real
    && 0 <= s.score && s.score % KillScore == 0
    && (s.isBossActive <==> s.boss.Some?)
    && (s.isBossActive ==> s.enemies == [] && s.score == s.scoreThreshold && BossOk(s.boss.value, s.stage))
    && (!s.isBossActive ==> s.score < s.scoreThreshold)
    && StandardPlayer(s.player)
  }

  lemma MaxHpIsMultipleOfDamage(stage: int)
    requires stage >= 1
    ensures BossMaxHp(stage) > 0 && BossMaxHp(stage) % HitDamage == 0
  {
    var q := 10 + (stage - 1) * 5;
    assert BossMaxHp(stage) == HitDamage * q;
  }

  /** The state the script starts with satisfies the invariant. */
  lemma InitialInv(canvas: Canvas)
    ensures Inv(Initial(canvas))
  {
  }

  /** A restart re-establishes the invariant from any state whose player is the declared one. */
  lemma RestartInv(s: GameState, canvas: Canvas)
    requires StandardPlayer(s.player)
    ensures Inv(RestartGame(s, canvas))
  {
    RestartIsInitial(s, canvas);
    InitialInv(canvas);
  }

  /** The spawner never breaks the invariant: it adds nothing while a boss is active. */
  lemma SpawnEnemyInv(s: GameState, canvas: Canvas, sizeRoll: Unit01, yRoll: Unit01, speedRoll: Unit01)
    requires Inv(s)
    ensures Inv(SpawnEnemy(s, canvas, sizeRoll, yRoll, speedRoll))
  {
  }

  lemma FireBulletInv(s: GameState)
    requires Inv(s)
    ensures Inv(FireBullet(s))
  {
  }

  lemma UpdatePlayerInv(s: GameState, keys: Keys, canvas: Canvas)
    requires Inv(s)
    ensures Inv(s.(player := UpdatePlayer(s.player, keys, canvas)))
  {
  }

  lemma UpdateEnemiesInv(s: GameState)
    requires Inv(s) && !s.isBossActive
    ensures Inv(UpdateEnemies(s))
  {
  }

  /** A boss frame keeps the boss valid: the timer stays within the cooldown and the speeds
      only change sign. */
  lemma BossStepOk(b: Boss, stage: int, canvas: Canvas)
    requires BossOk(b, stage)
    ensures BossOk(BossStep(b, canvas).0, stage)
  {
    var m := MoveBoss(b, canvas);
    assert BossOk(m, stage);
  }

  lemma UpdateBossInv(s: GameState, canvas: Canvas)
    requires Inv(s)
    ensures Inv(UpdateBoss(s, canvas))
  {
    if s.boss.Some? {
      BossStepOk(s.boss.value, s.stage, canvas);
    }
  }

  lemma UpdateBossBulletsInv(s: GameState)
    requires Inv(s)
    ensures Inv(UpdateBossBullets(s))
  {
  }

  /** Whatever one bullet hits, the invariant survives: a boss hit leaves a boss with hit points
      or advances the stage with the score below the new threshold; a kill keeps the score below
      the threshold or lands exactly on it and spawns a valid boss. */
  lemma ProcessBulletInv(s: GameState, i: nat, canvas: Canvas)
    requires Inv(s) && i < |s.bullets|
    ensures Inv(ProcessBullet(s, i, canvas))
  {
    hide ProcessBullet;
    var b := MoveBullet(s.bullets[i]);
    var r := ProcessBullet(s, i, canvas);
    ProcessBulletOutcome(s, i, canvas);
    if HitsBoss(s, b) {
      var boss := s.boss.value;
      if boss.hp > HitDamage {
        assert BossOk(r.boss.value, r.stage);
      } else {
        assert r.score == s.scoreThreshold;
      }
    } else if LastHit(b, s.enemies).Some? {
      assert !s.isBossActive;
      assert s.score + KillScore <= s.scoreThreshold;
      if KillSpawnsBoss(s) {
        MaxHpIsMultipleOfDamage(s.stage);
        assert BossOk(r.boss.value, r.stage);
      }
    } else {
      assert Harmless(s, b);
    }
  }

  lemma {:induction false} ScanBulletsInv(s: GameState, i: nat, canvas: Canvas)
    requires Inv(s) && i <= |s.bullets|
    ensures Inv(ScanBullets(s, i, canvas))
    decreases i
  {
    hide ProcessBullet;
    if i > 0 {
      ProcessBulletInv(s, i - 1, canvas);
      ScanBulletsInv(ProcessBullet(s, i - 1, canvas), i - 1, canvas);
    }
  }

  lemma UpdateBulletsInv(s: GameState, canvas: Canvas)
    requires Inv(s)
    ensures Inv(UpdateBullets(s, canvas))
  {
    ScanBulletsInv(s, |s.bullets|, canvas);
  }
}
