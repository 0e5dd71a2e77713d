# Neon shooter: a Dafny model of the per-frame game engine

This project models the game-state engine of a small canvas shoot-'em-up (`script.js`). The
player's ship moves under the arrow keys and fires bullets with the space key. Enemies are
spawned on a timer and drift left. Once the score reaches the stage's threshold, a boss appears.
The boss bounces around the right half of the canvas and fires bullets. Destroying the boss
advances the stage, which makes enemies faster and the next boss tougher.

The whole mutable state of the script is one immutable `GameState` value (module `State`). Each
function of the script that changes the state is a pure function from state to state:

- `Geometry`: the rectangle shared by every entity, and the collision test `isColliding`.
- `Pool`: `splice(i, 1)` and the backward index scan with removal used by `updateEnemies` and
  `updateBossBullets`. The scan is proved equal to a forward reference definition (`Survivors`,
  `AnyHit`).
- `Progression`: `goToNextStage` and `restartGame`.
- `BossControl`: `spawnBoss`, `updateBoss` (movement, then attack, then collision) and
  `updateBossBullets`.
- `Enemies`: `spawnEnemy` and `updateEnemies`.
- `PlayerControl`: `updatePlayer` and the bullet pushed by the space key.
- `Bullets`: `updateBullets`, a recursive reverse-index scan. One iteration (`ProcessBullet`)
  moves a bullet, then resolves it against the boss, then against the enemies (with the `break`),
  then against the right edge.
- `Invariant`: a state invariant `Inv` that every operation preserves. It ties the threshold and
  the speed multiplier to the stage. It also ties the boss flag to the boss, keeps the score below
  the threshold while no boss is active, and keeps the boss's hit points a positive multiple of
  ten.
- `Game`: `gameLoop` without drawing, the keydown/keyup listeners, and a run of page events
  (frames, spawn-timer ticks, key presses and releases). Every reachable state is proved to
  satisfy `Inv`.

Positions are Dafny `real`s, so the constants 0.4, 0.5 and 2.5 are exact. The canvas size is a
parameter because the page sets it. The three `Math.random()` results `spawnEnemy` draws are
parameters of type `Unit01`, which is [0, 1).

The model keeps three quirks of the script as they are written:

- **Stale bullet.** After a kill has spliced bullet `i` out, the edge test at `script.js:234`
  still uses the moved bullet. If that bullet is past the right edge, a second `splice(i, 1)`
  removes the bullet that followed it (`Bullets.StaleBulletRemovesNeighbour`).
- **Unclamped boss hit points.** The boss's hit points are never clamped at zero. This is
  harmless because they stay a multiple of ten and reach zero exactly (`Invariant.BossOk`).
- **Player overshoot.** `updatePlayer` tests its guard before moving, so the ship can end up less
  than one step beyond an edge (`PlayerControl.MovementStaysWithinOneStep`).

A fourth behaviour follows from `gameLoop` and is kept: boss bullets stand still while no boss is
active, because `updateBossBullets` runs only in the boss branch (`Game.GameLoop`).

Ammunition, reloading, orientation modes and a +200 threshold step do not exist in `script.js`.
The model follows `script.js` and leaves them out.

## Model

| member | source | states |
|---|---|---|
| Geometry.CollidingIffCommonInteriorPoint | script.js:287 | For rectangles with positive size, the strict four-comparison test holds exactly when some point lies strictly inside both rectangles. |
| Geometry.CollidingSymmetric | script.js:287 | The collision test does not depend on the order of its arguments. |
| Geometry.TouchingDoesNotCollide | script.js:287 | Rectangles that only share an edge do not collide, because every comparison is strict. |
| Geometry.SeparatedDoesNotCollide | script.js:287 | Rectangles with a gap between them on either axis do not collide. |
| Pool.RemoveAt | script.js:224-225 | `splice(i, 1)` shortens the pool by one when i is an index and changes nothing otherwise. It keeps the elements before i and shifts those after i down by one. |
| Pool.SweepBackSplit | script.js:182-191 | Scanning the indices below i leaves the elements from i on untouched. It replaces the elements below i by their forward survivors and raises the flag exactly when one of them hits. |
| Pool.SweepBackIsSurvivors | script.js:182-191 | The backward scan with removal neither skips nor repeats an element. It yields the moved, unexpired elements in their original order, and the flag is set exactly when some moved element hits. |
| Pool.SurvivorsAreAdvanced | script.js:182-191 | Every element kept by the scan is a moved element of the original pool that has not expired. |
| State.PaletteIndex | script.js:104 | `(stage - 1) % 5`, with JavaScript's remainder truncating toward zero. It differs from `stage - 1` by a multiple of 5, is a valid palette index for every stage of at least 1, and is never positive below stage 1. |
| Progression.GoToNextStage | script.js:92-98 | The stage goes up by exactly 1, the threshold by 100 and the multiplier by 0.4. The boss flag is cleared and the boss removed; nothing else changes. |
| Progression.RestartGame | script.js:76-88 | Score 0, stage 1, threshold 100, multiplier 1.0, no boss, not over. All three pools are empty and the ship is back at (50, height/2 - 25) with its size and speed kept. |
| Progression.RestartIsInitial | script.js:76-88 | A restart from any state whose ship has its declared size and speed gives exactly the state the script starts with, so nothing leaks from one session into the next. |
| BossControl.AttackCooldown | script.js:106 | `Math.max(20, 60 - (stage - 1) * 5)` is one of its two arguments and at least both of them. |
| BossControl.CooldownFloor | script.js:106 | The cooldown reaches the floor of 20 frames exactly from stage 9 on; before that it is `60 - (stage - 1) * 5`. |
| BossControl.SpawnBoss | script.js:100-123 | The boss flag is set and the enemies cleared. The boss has hp = maxHp = `100 + (stage - 1) * 50`, the stage's cooldown (at least 20), a zero timer and speed `2 + (stage - 1) * 0.5` on both axes. It is 100 by 100 at (width - 150, height/2 - 50), so vertically centred. From stage 1 on its colour index is in bounds. Nothing else changes. |
| BossControl.MoveBoss | script.js:128-136 | The boss moves by its velocity. A nonzero velocity component reverses exactly when the moved box is at or past that axis's bounds (the middle or the right edge of the canvas; its top or bottom); speeds otherwise keep their value. |
| BossControl.BossAttack | script.js:138-152 | The boss fires exactly when its timer was at most 1, that is, when the decremented timer is at most 0. The bullet is 15 by 15 at the boss's left edge and vertical middle, with speed -4, and the timer restarts from the cooldown. Otherwise the timer drops by one and nothing is fired. |
| BossControl.UpdateBoss | script.js:125-157 | With no boss the state is unchanged. Otherwise the boss takes one movement and attack step. When the timer runs out, exactly the bullet that attack fires (15 by 15, speed -4, at the boss's left edge) is appended to the boss bullets, and otherwise they are unchanged. The game ends exactly when it was over or the moved boss touches the ship. |
| BossControl.UpdateBossBullets | script.js:181-192 | The boss bullets become exactly the moved bullets not past the left edge, in order. The game ends exactly when it was over or some moved bullet touches the ship, even one removed in the same frame. |
| BossControl.QuietWhileTimerRuns | script.js:139-140 | While the timer has not run out the boss fires nothing, and the timer drops by one per frame. |
| BossControl.FiresWhenTimerRunsOut | script.js:139-151 | When the timer runs out the boss fires exactly one bullet and the timer is full again. |
| BossControl.RunBossAdditive | script.js:125-157 | n boss frames followed by m more are n + m frames, and the shots add up. |
| BossControl.OneShotPerCooldown | script.js:139-151 | From a just-reset timer, the boss fires exactly p bullets in p cooldown periods and ends with a full timer. |
| Enemies.NewEnemy | script.js:242-254 | The enemy starts at the right edge and is square and 20 to 60 pixels wide. When the canvas is at least as tall as the enemy, the enemy is fully inside it vertically. Its speed lies in [1.5, 4.5) times a positive multiplier and it has the stage's palette colour. |
| Enemies.SpawnEnemy | script.js:240-255 | A no-op while the game is over or a boss is active. Otherwise exactly one enemy with the properties of `NewEnemy` is appended, the existing enemies are kept, and its colour is in bounds from stage 1 on; nothing else changes. |
| Enemies.UpdateEnemies | script.js:287 | The enemies become exactly the moved enemies whose right edge is not past the left of the canvas, in order. The game ends exactly when it was over or some moved enemy touches the ship. |
| Enemies.RunEnemy | script.js:287 | After n frames an enemy has moved left by n times its speed and nothing else about it has changed. |
| Enemies.CrossingTime | script.js:287 | An enemy with speed 2 spawned at the right edge of a canvas of width w reaches the left edge after exactly ceil(w/2) frames. |
| PlayerControl.UpdatePlayer | script.js:287 | Each arrow key held alone on its axis moves the ship by exactly its speed when that key's edge guard holds, and leaves the coordinate unchanged otherwise. An axis with no key held is unchanged, and size and speed never change. |
| PlayerControl.MovementStaysWithinOneStep | script.js:287 | Whatever keys are held, the ship stays less than one step beyond every edge, so it can overshoot but never by a whole step. |
| PlayerControl.StartWithinOneStep | script.js:15-24 | The ship's start position (50, height/2 - 25) is less than one step beyond every edge when the canvas is wider than 95 and taller than 40. |
| PlayerControl.HoldRight | script.js:287 | Holding only the right arrow moves the ship right by exactly one step per frame while it has not reached the right edge, and leaves y, width, height and speed alone. |
| PlayerControl.Muzzle | script.js:62-70 | The space-key bullet is 15 by 5, starts at the ship's right edge and is centred on the ship vertically. |
| PlayerControl.FireBullet | script.js:61-71 | Exactly one bullet, at the muzzle, is appended to the bullets; nothing else changes. |
| Bullets.LastHit | script.js:221-232 | The inner enemy loop stops at the highest-indexed enemy the bullet touches, and finds none exactly when no enemy is touched. |
| Bullets.ProcessBullet | script.js:208-236 | One iteration never touches bullets below index i and never adds a bullet. It leaves the ship, the game-over flag and the boss bullets alone, adds 0 or 10 points and advances the stage by 0 or 1. A bullet that hits nothing is only moved, or spliced out past the right edge. |
| Bullets.ProcessBulletOutcome | script.js:210-236 | On a boss hit the bullet is removed, the boss loses exactly 10 hp, and the next stage starts when hp runs out. Otherwise exactly one enemy (the highest-indexed touched) is destroyed for exactly 10 points and the bullet removed, and the boss spawns when the threshold is reached. A consumed bullet past the right edge splices a second bullet out. |
| Bullets.ScanBullets | script.js:207-237 | Scanning from the last bullet down never adds a bullet and never touches the ship, the game-over flag or the boss bullets. |
| Bullets.ScanScoreAndStage | script.js:207-237 | Over a scan of i bullets the score grows by a multiple of 10 and by at most 10 per bullet, and the stage by at most one per bullet. |
| Bullets.UpdateBullets | script.js:206-238 | One frame of player bullets: the score grows by whole kills, at most one per bullet, and the stage by at most one per bullet. No bullet is added, and the ship, the game-over flag and the boss bullets are untouched. |
| Bullets.ScanWithoutHits | script.js:207-237 | When no bullet below i hits anything, the scan moves exactly those bullets and drops the ones past the right edge, in order, and leaves everything else as it is. |
| Bullets.UpdateWithoutHits | script.js:206-238 | In a frame with no hit, `updateBullets` is exactly "move every bullet, keep those not past the right edge". |
| Bullets.StaleBulletRemovesNeighbour | script.js:225-235 | A concrete frame in which a kill by a bullet past the right edge also removes a harmless on-screen bullet through the stale second splice. |
| Bullets.BossSpawnedMidScan | script.js:221-229 | A concrete frame in which a kill spawns the boss mid-scan and the next bullet scanned hits that boss in the same frame. |
| Invariant.MaxHpIsMultipleOfDamage | script.js:103 | From stage 1 on, the boss's starting hp is positive and a multiple of the 10 hp each hit takes. |
| Invariant.InitialInv | script.js:7-36 | The state the script starts with satisfies the invariant. |
| Invariant.RestartInv | script.js:76-88 | A restart re-establishes the invariant from any state whose ship has its declared size and speed. |
| Invariant.SpawnEnemyInv | script.js:240-255 | The spawner preserves the invariant. |
| Invariant.FireBulletInv | script.js:61-71 | Firing preserves the invariant. |
| Invariant.UpdatePlayerInv | script.js:287 | Moving the ship preserves the invariant. |
| Invariant.UpdateEnemiesInv | script.js:287 | Enemy movement preserves the invariant while no boss is active. |
| Invariant.BossStepOk | script.js:128-152 | A boss frame keeps the boss valid: the timer stays within the cooldown and the speeds only change sign. |
| Invariant.UpdateBossInv | script.js:125-157 | `updateBoss` preserves the invariant. |
| Invariant.UpdateBossBulletsInv | script.js:181-192 | `updateBossBullets` preserves the invariant. |
| Invariant.ProcessBulletInv | script.js:208-236 | Whatever one bullet hits, the invariant survives. A boss hit leaves the boss with hp or starts the next stage below the new threshold; a kill stays below the threshold or lands exactly on it and spawns a valid boss. |
| Invariant.ScanBulletsInv | script.js:207-237 | The bullet scan preserves the invariant. |
| Invariant.UpdateBulletsInv | script.js:206-238 | `updateBullets` preserves the invariant. |
| Game.GameLoop | script.js:257-284 | Once the game is over a frame changes nothing. Otherwise the ship is moved first. Without a boss, the game ends exactly when a moved enemy touches the moved ship, and the boss bullets stand still. With a boss, the boss bullets (including one just fired) become their moved survivors, and the game ends exactly when the moved boss or one of those moved bullets touches the moved ship. The score and the stage never go down. |
| Game.GameLoopInv | script.js:257-284 | Every frame preserves the invariant. |
| Game.SetKey | script.js:74 | Recording a key changes the flag of that arrow key only; other codes leave the movement keys alone. |
| Game.KeyDown | script.js:55-72 | While the game is over, space restarts it and runs one frame, and every other key is ignored without being recorded. Otherwise the key is recorded as held and space fires one bullet. |
| Game.KeyUp | script.js:74 | A release clears that key's flag whatever the state of the game, and leaves the game alone. |
| Game.HandleInv | script.js:55-74 | Every page event (frame, spawn tick, key press, key release) preserves the invariant. |
| Game.RunInv | script.js:55-74 | Any sequence of events from a state satisfying the invariant ends in a state satisfying it. |
| Game.ReachableInv | script.js:289-292 | Every state the game can reach from its start satisfies the invariant. |
| Game.GameOverIsFinal | script.js:55-59 | Once the game is over, nothing but a space press changes the game. |

## Left out

- Drawing (`drawBoss`, `drawBossBullets`, `drawBullets`, `drawEnemies`, `drawPlayer`, `drawHUD`,
  `drawGameOver`) and the stars (`initStars`, `updateStars`, `drawStars`): rendering only, with
  no effect on the game state.
- Colours, shadow colours and shadow blurs: visual only. The palette index `(stage - 1) % 5`
  is kept so that its bounds can be stated.
- `document.addEventListener`, the `keys` object and `e.code`: the keys map is a record of the
  four arrow keys the script reads, and codes become the `KeyCode` datatype. Codes other than the
  arrows and space are recorded by the script but never read, so the model drops them.
- `setInterval(spawnEnemy, 1500)`, `requestAnimationFrame` and the first calls at the end of
  the script: scheduling becomes the explicit `Event` sequence handled by `Game.Run`, which
  starts from the initial state.
- `Math.random()`: its results are parameters of type `Unit01`.
- Floating-point rounding: positions and speeds are exact reals.
- The canvas element: its width and height are the `Canvas` parameter.
- The `if (!bullet) continue;` guard at `script.js:209` has no branch in the model. It can
  never fire, because `ProcessBullet` leaves at least i bullets, so the next index always exists.
- `restartGame`'s final `gameLoop()` call is made by `Game.KeyDown` right after
  `Progression.RestartGame`, which covers the assignments alone.
- PlayerControl.UpdatePlayer: when both arrows of one axis are held, the contract does not give
  the exact coordinate. It states only size, speed and the one-step bound proved by
  `MovementStaysWithinOneStep`.
- Game.GameLoop: the contract does not restate where the enemies, the boss (its position, speeds,
  timer and hit points) and the player's bullets end up, nor the score. Those are the contracts
  and lemmas of `Enemies.UpdateEnemies`, `BossControl.UpdateBoss` and `Bullets.UpdateBullets`,
  which the frame applies in turn.
- Bullets.ScanBullets: its own contract states only the frame facts. The score, stage, invariant
  and no-hit behaviour of the scan are separate lemmas about it.
- `RunBoss` ignores the ship: it counts the boss's shots over several frames and does not
  model collisions or the game ending during them.
- Ammunition, reloading, orientation modes and a +200 threshold step are not in `script.js`.
