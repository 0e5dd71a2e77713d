/** The frame function and the page events around it: key presses and releases, the enemy
    spawn timer, and animation frames. */
module Game {
  import opened Geometry
  import opened State
  import opened Progression
  import opened BossControl
  import opened Enemies
  import opened PlayerControl
  import opened Bullets
  import opened Invariant
  import Pool

  /** gameLoop without its drawing and without scheduling the next frame: nothing at all once
      the game is over; otherwise the player moves, then either the boss and its bullets or the
      enemies are updated, depending on the boss flag at that moment, then the player's bullets.
      A frame that sets game over still runs to its end. Boss bullets stand still while no boss
      is active, and the score and the stage never go down. */
  function GameLoop(s: GameState, keys: Keys, canvas: Canvas): (r: GameState)
    ensures s.gameOver ==> r == s
    ensures !s.gameOver ==> r.player == UpdatePlayer(s.player, keys, canvas)
    ensures !s.isBossActive ==> r.bossBullets == s.bossBullets
    ensures s.score <= r.score && s.stage <= r.stage
    // the enemy branch: the game ends exactly when a moved enemy touches the moved ship
    ensures !s.gameOver && !s.isBossActive ==>
      (r.gameOver <==>
         exists k :: 0 <= k < |s.enemies| && Colliding(UpdatePlayer(s.player, keys, canvas).box, MoveEnemy(s.enemies[k]).box))
    // the boss branch: the boss bullets (with the one the boss may have fired) move, and the game
    // ends exactly when the moved boss or one of those moved bullets touches the moved ship
    ensures !s.gameOver && s.isBossActive ==>
      var fired := UpdateBoss(s.(player := UpdatePlayer(s.player, keys, canvas)), canvas).bossBullets;
      && r.bossBullets == Pool.Survivors(fired, MoveBossBullet, BossBulletGone)
      && (r.gameOver <==>
            || (s.boss.Some? && Colliding(UpdatePlayer(s.player, keys, canvas).box, BossStep(s.boss.value, canvas).0.box))
            || exists k :: 0 <= k < |fired| && Colliding(UpdatePlayer(s.player, keys, canvas).box, MoveBossBullet(fired[k]).box))
  {
    if s.gameOver then s
    else
      var s1 := s.(player := UpdatePlayer(s.player, keys, canvas));
      var s2 := if s1.isBossActive then UpdateBossBullets(UpdateBoss(s1, canvas)) else UpdateEnemies(s1);
      UpdateBullets(s2, canvas)
  }

  /** Every frame keeps the invariant. */
  lemma GameLoopInv(s: GameState, keys: Keys, canvas: Canvas)
    requires Inv(s)
    ensures Inv(GameLoop(s, keys, canvas))
  {
    if !s.gameOver {
      var s1 := s.(player := UpdatePlayer(s.player, keys, canvas));
      UpdatePlayerInv(s, keys, canvas);
      var s2 := if s1.isBossActive then UpdateBossBullets(UpdateBoss(s1, canvas)) else UpdateEnemies(s1);
      if s1.isBossActive {
        UpdateBossInv(s1, canvas);
        UpdateBossBulletsInv(UpdateBoss(s1, canvas));
      } else {
        UpdateEnemiesInv(s1);
      }
      UpdateBulletsInv(s2, canvas);
    }
  }

  /** The key codes the script reacts to. */
  datatype KeyCode = ArrowUp | ArrowDown | ArrowLeft | ArrowRight | Space | OtherKey

  /** The game state together with the keys held down. */
  datatype World = World(game: GameState, keys: Keys)

  const NoKeys: Keys := Keys(false, false, false, false)

  /** `keys[code] = down`, for the arrow keys; other codes leave the movement keys alone. */
  function SetKey(keys: Keys, code: KeyCode, down: bool): (r: Keys)
    ensures code == ArrowUp ==> r == keys.(arrowUp := down)
    ensures code == ArrowDown ==> r == keys.(arrowDown := down)
    ensures code == ArrowLeft ==> r == keys.(arrowLeft := down)
    ensures code == ArrowRight ==> r == keys.(arrowRight := down)
    ensures code == Space || code == OtherKey ==> r == keys
  {
    match code
    case ArrowUp => keys.(arrowUp := down)
    case ArrowDown => keys.(arrowDown := down)
    case ArrowLeft => keys.(arrowLeft := down)
    case ArrowRight => keys.(arrowRight := down)
    case _ => keys
  }

  /** The keydown listener. While the game is over, space restarts the game (and restartGame
      runs one frame at once) and every other key is ignored, without even being recorded as
      held. Otherwise the key is recorded as held, and space fires one bullet. */
  function KeyDown(w: World, code: KeyCode, canvas: Canvas): (r: World)
    ensures w.game.gameOver ==> r.keys == w.keys
    ensures w.game.gameOver && code == Space ==> r.game == GameLoop(RestartGame(w.game, canvas), w.keys, canvas)
    ensures w.game.gameOver && code != Space ==> r.game == w.game
    ensures !w.game.gameOver ==> r.keys == SetKey(w.keys, code, true)
    ensures !w.game.gameOver && code == Space ==> r.game == FireBullet(w.game)
    ensures !w.game.gameOver && code != Space ==> r.game == w.game
  {
    if w.game.gameOver then
      if code == Space then w.(game := GameLoop(RestartGame(w.game, canvas), w.keys, canvas)) else w
    else
      var keys := SetKey(w.keys, code, true);
      if code == Space then World(FireBullet(w.game), keys) else World(w.game, keys)
  }

  /** The keyup listener: the key is released, whatever the state of the game. */
  function KeyUp(w: World, code: KeyCode): (r: World)
    ensures r.game == w.game && r.keys == SetKey(w.keys, code, false)
  {
    w.(keys := SetKey(w.keys, code, false))
  }

  /** What can happen between two observations of the game: an animation frame, the spawn
      interval firing with the three random draws spawnEnemy makes, a key pressed, a key released. */
  datatype Event =
    | Frame
    | SpawnTimer(sizeRoll: Unit01, yRoll: Unit01, speedRoll: Unit01)
    | Press(code: KeyCode)
    | Release(code: KeyCode)

  function Handle(w: World, e: Event, canvas: Canvas): World {
    match e
    case Frame => w.(game := GameLoop(w.game, w.keys, canvas))
    case SpawnTimer(a, b, c) => w.(game := SpawnEnemy(w.game, canvas, a, b, c))
    case Press(code) => KeyDown(w, code, canvas)
    case Release(code) => KeyUp(w, code)
  }

  /** The events handled in order. */
  function Run(w: World, events: seq<Event>, canvas: Canvas): World
    decreases |events|
  {
    if events == [] then w else Run(Handle(w, events[0], canvas), events[1..], canvas)
  }

  lemma HandleInv(w: World, e: Event, canvas: Canvas)
    requires Inv(w.game)
    ensures Inv(Handle(w, e, canvas).game)
  {
    match e
    case Frame => GameLoopInv(w.game, w.keys, canvas);
    case SpawnTimer(a, b, c) => SpawnEnemyInv(w.game, canvas, a, b, c);
    case Press(code) =>
      if w.game.gameOver {
        if code == Space {
          RestartInv(w.game, canvas);
          GameLoopInv(RestartGame(w.game, canvas), w.keys, canvas);
        }
      } else if code == Space {
        FireBulletInv(w.game);
      }
    case Release(code) =>
  }

  /** The invariant holds after any sequence of events from a state that satisfies it. */
  lemma {:induction false} RunInv(w: World, events: seq<Event>, canvas: Canvas)
    requires Inv(w.game)
    ensures Inv(Run(w, events, canvas).game)
    decreases |events|
  {
    if events != [] {
      HandleInv(w, events[0], canvas);
      RunInv(Handle(w, events[0], canvas), events[1..], canvas);
    }
  }

  /** Every state the game can reach from its start satisfies the invariant. */
  lemma ReachableInv(events: seq<Event>, canvas: Canvas)
    ensures Inv(Run(World(Initial(canvas), NoKeys), events, canvas).game)
  {
    InitialInv(canvas);
    RunInv(World(Initial(canvas), NoKeys), events, canvas);
  }

  /** Once the game is over, nothing but a space press changes the game: frames, spawn timers,
      other keys and releases all leave it exactly as it is. */
  lemma {:induction false} GameOverIsFinal(w: World, events: seq<Event>, canvas: Canvas)
    requires w.game.gameOver
    requires forall k :: 0 <= k < |events| ==> events[k] != Press(Space)
    ensures Run(w, events, canvas).game == w.game
    decreases |events|
  {
    if events != [] {
      assert events[0] != Press(Space);
      var w' := Handle(w, events[0], canvas);
      assert w'.game == w.game;
      assert forall k :: 0 <= k < |events[1..]| ==> events[1..][k] != Press(Space) by {
        forall k | 0 <= k < |events[1..]| ensures events[1..][k] != Press(Space) {
          assert events[1..][k] == events[k + 1];
        }
      }
      GameOverIsFinal(w', events[1..], canvas);
    }
  }
}
