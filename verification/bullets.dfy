/** The player's bullets: the per-frame scan that moves them and resolves their hits on the
    boss and on enemies, with the score and stage changes those hits cause. */
module Bullets {
  import opened Geometry
  import opened State
  import opened BossControl
  import opened Progression
  import Pool

  /** Pixels a player bullet moves right per frame. */
  const BulletSpeed: real := 10.0
  /** Points for one enemy destroyed. */
  const KillScore: int := 10

  function MoveBullet(b: Rect): Rect {
    b.Shift(BulletSpeed, 0.0)
  }

  /** The removal test for a bullet: its left edge is past the right of the canvas. */
  function PastRight(canvas: Canvas): Rect -> bool {
    (b: Rect) => b.x > canvas.width
  }

  /** The bullet would hit the active boss. */
  predicate HitsBoss(s: GameState, b: Rect) {
    s.isBossActive && s.boss.Some? && Colliding(b, s.boss.value.box)
  }

  /** The bullet hits neither the active boss nor any enemy. */
  predicate Harmless(s: GameState, b: Rect) {
    !HitsBoss(s, b) && forall j :: 0 <= j < |s.enemies| ==> !Colliding(b, s.enemies[j].box)
  }

  /** The inner loop over enemies, from the last index down: the index of the first enemy met
      that the bullet touches, that is the highest such index, or None when it touches none. */
  function LastHit(b: Rect, es: seq<Enemy>): (r: Option<nat>)
    ensures r.Some? ==>
      && r.value < |es|
      && Colliding(b, es[r.value].box)
      && forall k :: r.value < k < |es| ==> !Colliding(b, es[k].box)
    ensures r.None? <==> forall k :: 0 <= k < |es| ==> !Colliding(b, es[k].box)
    decreases |es|
  {
    if es == [] then None
    else if Colliding(b, es[|es| - 1].box) then Some(|es| - 1)
    else LastHit(b, es[..|es| - 1])
  }

  /** A bullet at index i hits the boss: ten hit points off, the bullet spliced out, and the
      next stage when the boss has no hit points left. */
  function BossHit(s: GameState, i: nat): GameState
    requires s.boss.Some?
  {
    var boss := s.boss.value.(hp := s.boss.value.hp - HitDamage);
    var s1 := s.(boss := Some(boss), bullets := Pool.RemoveAt(s.bullets, i));
    if boss.hp <= 0 then GoToNextStage(s1) else s1
  }

  /** The bullet at index i destroys enemy j: both spliced out, ten points, and the boss
      spawned when no boss is active and the score has reached the threshold. */
  function KillEnemy(s: GameState, i: nat, j: nat, canvas: Canvas): GameState {
    var s1 := s.(enemies := Pool.RemoveAt(s.enemies, j),
                 bullets := Pool.RemoveAt(s.bullets, i),
                 score := s.score + KillScore);
    if !s1.isBossActive && s1.score >= s1.scoreThreshold then SpawnBoss(s1, canvas) else s1
  }

  /** The boss spawns on this kill. */
  predicate KillSpawnsBoss(s: GameState) {
    !s.isBossActive && s.score + KillScore >= s.scoreThreshold
  }

  /** One iteration of updateBullets, for the bullet at index i: the bullet moves and is
      resolved against the boss, then the enemies, then the right edge (see
      ProcessBulletOutcome). Indices below i are never touched; the score grows by at most one
      kill and the stage by at most one. A bullet that hits nothing is only moved, or spliced
      out when past the right edge. */
  function ProcessBullet(s: GameState, i: nat, canvas: Canvas): (r: GameState)
    requires i < |s.bullets|
    ensures |r.bullets| >= i && r.bullets[..i] == s.bullets[..i]
    ensures |r.bullets| <= |s.bullets|
    ensures r.player == s.player && r.gameOver == s.gameOver && r.bossBullets == s.bossBullets
    ensures r.score == s.score || r.score == s.score + KillScore
    ensures r.stage == s.stage || r.stage == s.stage + 1
    ensures Harmless(s, MoveBullet(s.bullets[i])) ==>
      r == s.(bullets := if PastRight(canvas)(MoveBullet(s.bullets[i]))
                         then Pool.RemoveAt(s.bullets, i)
                         else s.bullets[i := MoveBullet(s.bullets[i])])
  {
    var b := MoveBullet(s.bullets[i]);
    var s1 := s.(bullets := s.bullets[i := b]);
    assert Pool.RemoveAt(s1.bullets, i) == Pool.RemoveAt(s.bullets, i);
    assert HitsBoss(s1, b) == HitsBoss(s, b);
    if HitsBoss(s1, b) then BossHit(s1, i)
    else
      var s2 := match LastHit(b, s1.enemies)
                case None => s1
                case Some(j) => KillEnemy(s1, i, j, canvas);
      if PastRight(canvas)(b) then s2.(bullets := Pool.RemoveAt(s2.bullets, i)) else s2
  }

  /** What one bullet does. If it hits the active boss it costs the boss exactly ten hit points
      and is consumed, and a boss left with no hit points means the next stage. Otherwise it
      destroys at most one enemy, the highest-indexed one it touches, for exactly ten points,
      and is consumed; that kill spawns the boss when the threshold is reached. The removal test
      past the right edge is then made on the moved bullet even when it has already been
      consumed, so a consumed bullet past the edge also splices out the bullet after it. */
  lemma ProcessBulletOutcome(s: GameState, i: nat, canvas: Canvas)
    requires i < |s.bullets|
    ensures var r := ProcessBullet(s, i, canvas);
      var b := MoveBullet(s.bullets[i]);
      // a boss hit
      && (HitsBoss(s, b) ==>
            && r.bullets == Pool.RemoveAt(s.bullets, i)
            && r.score == s.score && r.enemies == s.enemies
            && (s.boss.value.hp > HitDamage ==>
                  && r.boss == Some(s.boss.value.(hp := s.boss.value.hp - HitDamage))
                  && r.isBossActive && r.stage == s.stage && r.scoreThreshold == s.scoreThreshold
                  && r.enemySpeedMultiplier == s.enemySpeedMultiplier)
            && (s.boss.value.hp <= HitDamage ==>
                  && r.boss.None? && !r.isBossActive && r.stage == s.stage + 1
                  && r.scoreThreshold == s.scoreThreshold + ThresholdStep
                  && r.enemySpeedMultiplier == s.enemySpeedMultiplier + SpeedMultiplierStep))
      // an enemy destroyed
      && (!HitsBoss(s, b) && LastHit(b, s.enemies).Some? ==>
            var j := LastHit(b, s.enemies).value;
            && r.score == s.score + KillScore
            && r.stage == s.stage && r.scoreThreshold == s.scoreThreshold
            && r.enemySpeedMultiplier == s.enemySpeedMultiplier
            && (KillSpawnsBoss(s) ==> r.isBossActive && r.enemies == [] && r.boss == SpawnBoss(s, canvas).boss)
            && (!KillSpawnsBoss(s) ==>
                  r.enemies == Pool.RemoveAt(s.enemies, j) && r.isBossActive == s.isBossActive && r.boss == s.boss)
            && r.bullets == (if PastRight(canvas)(b)
                             then Pool.RemoveAt(Pool.RemoveAt(s.bullets, i), i)
                             else Pool.RemoveAt(s.bullets, i)))
  {
    var b := MoveBullet(s.bullets[i]);
    var s1 := s.(bullets := s.bullets[i := b]);
    assert Pool.RemoveAt(s1.bullets, i) == Pool.RemoveAt(s.bullets, i);
  }

  /** Composing the score and stage bounds of one bullet with those of the bullets below it. */
  lemma ComposeCounts(score0: int, score1: int, score2: int, stage0: int, stage1: int, stage2: int, n: nat)
    requires score1 == score0 || score1 == score0 + KillScore
    requires stage1 == stage0 || stage1 == stage0 + 1
    requires score1 <= score2 <= score1 + KillScore * n && (score2 - score1) % KillScore == 0
    requires stage1 <= stage2 <= stage1 + n
    ensures score0 <= score2 <= score0 + KillScore * (n + 1) && (score2 - score0) % KillScore == 0
    ensures stage0 <= stage2 <= stage0 + (n + 1)
  {
  }

  /** The loop of updateBullets over indices i-1 down to 0. No bullet is ever added, and the
      player, the game-over flag and the boss bullets are never touched. */
  function ScanBullets(s: GameState, i: nat, canvas: Canvas): (r: GameState)
    requires i <= |s.bullets|
    ensures |r.bullets| <= |s.bullets|
    ensures r.player == s.player && r.gameOver == s.gameOver && r.bossBullets == s.bossBullets
    decreases i
  {
    if i == 0 then s
    else ScanBullets(ProcessBullet(s, i - 1, canvas), i - 1, canvas)
  }

  /** Each bullet scores at most one kill and advances the stage at most once: over the scan the
      score grows by a multiple of ten and by at most ten per bullet, and the stage by at most
      one per bullet. */
  lemma {:induction false} ScanScoreAndStage(s: GameState, i: nat, canvas: Canvas)
    requires i <= |s.bullets|
    ensures var r := ScanBullets(s, i, canvas);
      && s.score <= r.score <= s.score + KillScore * i
      && (r.score - s.score) % KillScore == 0
      && s.stage <= r.stage <= s.stage + i
    decreases i
  {
    hide ProcessBullet;
    if i > 0 {
      var s' := ProcessBullet(s, i - 1, canvas);
      ScanScoreAndStage(s', i - 1, canvas);
      var r := ScanBullets(s', i - 1, canvas);
      assert ScanBullets(s, i, canvas) == r;
      ComposeCounts(s.score, s'.score, r.score, s.stage, s'.stage, r.stage, i - 1);
    }
  }

  /** updateBullets: every bullet processed once, from the last to the first. The score grows by
      a multiple of ten and by at most ten per bullet; the stage grows by at most one per
      bullet; no bullet is added; the player, the game-over flag and the boss bullets are
      untouched. */
  function UpdateBullets(s: GameState, canvas: Canvas): (r: GameState)
    ensures |r.bullets| <= |s.bullets|
    ensures r.player == s.player && r.gameOver == s.gameOver && r.bossBullets == s.bossBullets
    ensures s.score <= r.score <= s.score + KillScore * |s.bullets|
    ensures (r.score - s.score) % KillScore == 0
    ensures s.stage <= r.stage <= s.stage + |s.bullets|
  {
    ScanScoreAndStage(s, |s.bullets|, canvas);
    ScanBullets(s, |s.bullets|, canvas)
  }

  /** A bullet that hits nothing changes only its own slot, so the bullets below it are still
      harmless afterwards. */
  lemma HarmlessStep(s: GameState, i: nat, canvas: Canvas)
    requires 0 < i <= |s.bullets|
    requires forall k :: 0 <= k < i ==> Harmless(s, MoveBullet(s.bullets[k]))
    ensures var s' := ProcessBullet(s, i - 1, canvas);
      && s' == s.(bullets := s'.bullets)
      && i - 1 <= |s'.bullets|
      && s'.bullets[..i - 1] == s.bullets[..i - 1]
      && s'.bullets[i - 1..] == (if PastRight(canvas)(MoveBullet(s.bullets[i - 1])) then []
                                 else [MoveBullet(s.bullets[i - 1])]) + s.bullets[i..]
      && forall k :: 0 <= k < i - 1 ==> Harmless(s', MoveBullet(s'.bullets[k]))
  {
    var s' := ProcessBullet(s, i - 1, canvas);
    assert Harmless(s, MoveBullet(s.bullets[i - 1]));
    Pool.SweepStepShape(s.bullets, i, MoveBullet, PastRight(canvas));
    forall k | 0 <= k < i - 1 ensures Harmless(s', MoveBullet(s'.bullets[k])) {
      assert s'.bullets[..i - 1][k] == s.bullets[..i - 1][k];
    }
  }

  /** When no bullet below index i hits anything, the scan only moves those bullets and
      drops the ones past the right edge, keeping their order. */
  lemma {:induction false} ScanWithoutHits(s: GameState, i: nat, canvas: Canvas)
    requires i <= |s.bullets|
    requires forall k :: 0 <= k < i ==> Harmless(s, MoveBullet(s.bullets[k]))
    ensures ScanBullets(s, i, canvas)
         == s.(bullets := Pool.Survivors(s.bullets[..i], MoveBullet, PastRight(canvas)) + s.bullets[i..])
    decreases i
  {
    if i == 0 {
      assert s.bullets[..0] == [];
      assert s.bullets[0..] == s.bullets;
      assert Pool.Survivors(s.bullets[..0], MoveBullet, PastRight(canvas)) == [];
      assert [] + s.bullets == s.bullets;
    } else {
      var s' := ProcessBullet(s, i - 1, canvas);
      HarmlessStep(s, i, canvas);
      ScanWithoutHits(s', i - 1, canvas);
      Pool.SurvivorsStep(s.bullets, s'.bullets, i, MoveBullet, PastRight(canvas));
      assert ScanBullets(s, i, canvas) == ScanBullets(s', i - 1, canvas);
    }
  }

  /** With no hit at all in a frame, updateBullets is exactly "move every bullet, keep those not
      past the right edge". */
  lemma UpdateWithoutHits(s: GameState, canvas: Canvas)
    requires forall k :: 0 <= k < |s.bullets| ==> Harmless(s, MoveBullet(s.bullets[k]))
    ensures UpdateBullets(s, canvas) == s.(bullets := Pool.Survivors(s.bullets, MoveBullet, PastRight(canvas)))
  {
    ScanWithoutHits(s, |s.bullets|, canvas);
    assert s.bullets[..|s.bullets|] == s.bullets;
    assert s.bullets[|s.bullets|..] == [];
    var sv := Pool.Survivors(s.bullets, MoveBullet, PastRight(canvas));
    assert sv + [] == sv;
  }

  /** The stale-reference splice, on an 800 by 600 canvas. Bullet 1 moves to x = 110 and hits
      nothing. Bullet 0 moves to x = 805, destroys the enemy and is spliced out; its stale
      reference is then past the right edge, so the second splice at index 0 removes bullet 1,
      which was still on screen. */
  lemma StaleBulletRemovesNeighbour()
    ensures var canvas := Canvas(800.0, 600.0);
            var s := Initial(canvas).(
              bullets := [Rect(795.0, 100.0, 15.0, 5.0), Rect(100.0, 300.0, 15.0, 5.0)],
              enemies := [Enemy(Rect(785.0, 90.0, 40.0, 40.0), 2.0, 0)]);
            var r := UpdateBullets(s, canvas);
            && Harmless(s, MoveBullet(s.bullets[1]))
            && !PastRight(canvas)(MoveBullet(s.bullets[1]))
            && r.score == KillScore && r.enemies == []
            && r.bullets == []
  {
    var canvas := Canvas(800.0, 600.0);
    var s := Initial(canvas).(
      bullets := [Rect(795.0, 100.0, 15.0, 5.0), Rect(100.0, 300.0, 15.0, 5.0)],
      enemies := [Enemy(Rect(785.0, 90.0, 40.0, 40.0), 2.0, 0)]);
    var s1 := ProcessBullet(s, 1, canvas);
    assert s1.bullets == [Rect(795.0, 100.0, 15.0, 5.0), Rect(110.0, 300.0, 15.0, 5.0)];
    assert s1.enemies == s.enemies && s1.score == 0;
    var a := MoveBullet(s1.bullets[0]);
    assert Colliding(a, s1.enemies[0].box);
    assert LastHit(a, s1.enemies) == Some(0);
    var s2 := ProcessBullet(s1, 0, canvas);
    assert Pool.RemoveAt(s1.bullets, 0) == [Rect(110.0, 300.0, 15.0, 5.0)];
    assert s2.bullets == [];
    assert ScanBullets(s1, 1, canvas) == ScanBullets(s2, 0, canvas);
    assert ScanBullets(s, 2, canvas) == ScanBullets(s1, 1, canvas);
    assert UpdateBullets(s, canvas) == ScanBullets(s, 2, canvas);
  }

  /** A kill that reaches the threshold spawns the boss in the middle of the scan, and the
      bullets scanned after it already test against that boss. On an 800 by 600 canvas with
      90 points: bullet 1 destroys the enemy, the score reaches 100 and the boss appears at
      (650, 250); bullet 0, moved to x = 700, hits it in the same frame. */
  lemma BossSpawnedMidScan()
    ensures var canvas := Canvas(800.0, 600.0);
            var s := Initial(canvas).(
              score := 90,
              bullets := [Rect(690.0, 300.0, 15.0, 5.0), Rect(100.0, 100.0, 15.0, 5.0)],
              enemies := [Enemy(Rect(105.0, 95.0, 40.0, 40.0), 2.0, 0)]);
            var r := UpdateBullets(s, canvas);
            && r.score == 100 && r.isBossActive && r.enemies == []
            && r.boss.Some? && r.boss.value.hp == BossMaxHp(1) - HitDamage
            && r.bullets == []
  {
    var canvas := Canvas(800.0, 600.0);
    var s := Initial(canvas).(
      score := 90,
      bullets := [Rect(690.0, 300.0, 15.0, 5.0), Rect(100.0, 100.0, 15.0, 5.0)],
      enemies := [Enemy(Rect(105.0, 95.0, 40.0, 40.0), 2.0, 0)]);
    var b := MoveBullet(s.bullets[1]);
    assert !HitsBoss(s, b);
    assert Colliding(b, s.enemies[0].box);
    assert LastHit(b, s.enemies) == Some(0);
    assert KillSpawnsBoss(s);
    var s1 := ProcessBullet(s, 1, canvas);
    assert s1.bullets == [Rect(690.0, 300.0, 15.0, 5.0)];
    assert s1.boss.value.box == Rect(650.0, 250.0, 100.0, 100.0);
    assert s1.boss.value.hp == 100;
    var a := MoveBullet(s1.bullets[0]);
    assert HitsBoss(s1, a);
    var s2 := ProcessBullet(s1, 0, canvas);
    assert s2.bullets == [];
    assert ScanBullets(s1, 1, canvas) == ScanBullets(s2, 0, canvas);
    assert ScanBullets(s, 2, canvas) == ScanBullets(s1, 1, canvas);
    assert UpdateBullets(s, canvas) == ScanBullets(s, 2, canvas);
  }
}
