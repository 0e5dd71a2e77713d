/** The game's data: the entities on screen, the aggregate game state, and its initial value. */
module State {
  import opened Geometry

  datatype Option<T> = None | Some(value: T)

  /** The canvas the game is played on; its size is set by the page, not by the script. */
  datatype Canvas = Canvas(width: real, height: real)

  /** A value returned by Math.random(). */
  type Unit01 = r: real | 0.0 <= r < 1.0

  datatype Player = Player(box: Rect, speed: real)

  /** The arrow keys currently held down. */
  datatype Keys = Keys(arrowUp: bool, arrowDown: bool, arrowLeft: bool, arrowRight: bool)

  datatype Enemy = Enemy(box: Rect, speed: real, colorIndex: int)

  /** A projectile fired by the boss; `speed` is added to x every tick. */
  datatype BossBullet = BossBullet(box: Rect, speed: real)

  datatype Boss = Boss(
    box: Rect,
    speedX: real, speedY: real,
    hp: int, maxHp: int,
    attackCooldown: int, attackTimer: int,
    colorIndex: int)

  /** Every piece of state the per-frame engine reads or writes. Player bullets are bare
      rectangles: they all travel at the same speed. */
  datatype GameState = GameState(
    score: int,
    gameOver: bool,
    stage: int,
    scoreThreshold: int,
    enemySpeedMultiplier: real,
    isBossActive: bool,
    player: Player,
    boss: Option<Boss>,
    bullets: seq<Rect>,
    bossBullets: seq<BossBullet>,
    enemies: seq<Enemy>)

  /** Number of entries in the colour palette `enemyColors`. */
  const PaletteSize: int := 5

  const PlayerStartX: real := 50.0
  const PlayerSize: real := 50.0
  const PlayerSpeed: real := 5.0
  const FirstThreshold: int := 100

  function PlayerStartY(canvas: Canvas): real {
    canvas.height / 2.0 - 25.0
  }

  /** The palette index `(stage - 1) % enemyColors.length` used for enemies and the boss.
      JavaScript's `%` truncates toward zero, so the remainder takes the sign of `stage - 1`:
      it is a valid index exactly when `stage - 1` is not negative or is a multiple of the size. */
  function PaletteIndex(stage: int): (r: int)
    ensures -PaletteSize < r < PaletteSize
    ensures (stage - 1 - r) % PaletteSize == 0
    ensures stage >= 1 ==> 0 <= r
    ensures stage <= 1 ==> r <= 0
  {
    var a := stage - 1;
    if a >= 0 then a % PaletteSize else -((-a) % PaletteSize)
  }

  /** The player as the script declares it. */
  function StartPlayer(canvas: Canvas): Player {
    Player(Rect(PlayerStartX, PlayerStartY(canvas), PlayerSize, PlayerSize), PlayerSpeed)
  }

  /** The state the script starts with. */
  function Initial(canvas: Canvas): GameState {
    GameState(
      score := 0,
      gameOver := false,
      stage := 1,
      scoreThreshold := FirstThreshold,
      enemySpeedMultiplier := 1.0,
      isBossActive := false,
      player := StartPlayer(canvas),
      boss := None,
      bullets := [],
      bossBullets := [],
      enemies := [])
  }

  /** The player keeps the size and speed it was declared with. */
  predicate StandardPlayer(p: Player) {
    p.box.width == PlayerSize && p.box.height == PlayerSize && p.speed == PlayerSpeed
  }
}
