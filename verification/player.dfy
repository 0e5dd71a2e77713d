/** The player's ship: movement under the arrow keys and the bullet fired by the space key. */
module PlayerControl {
  import opened Geometry
  import opened State

  const BulletWidth: real := 15.0
  const BulletHeight: real := 5.0

  /** updatePlayer: each arrow key, in the order up, down, left, right, moves the ship by its
      speed when the ship has not yet reached that edge; the guard is tested before the move,
      so the ship may end up to one step beyond an edge. Size and speed never change. */
  function UpdatePlayer(p: Player, keys: Keys, canvas: Canvas): (r: Player)
    ensures r.speed == p.speed && r.box.width == p.box.width && r.box.height == p.box.height
    // vertical axis
    ensures !keys.arrowUp && !keys.arrowDown ==> r.box.y == p.box.y
    ensures keys.arrowUp && !keys.arrowDown ==>
      r.box.y == (if p.box.y > 0.0 then p.box.y - p.speed else p.box.y)
    ensures !keys.arrowUp && keys.arrowDown ==>
      r.box.y == (if p.box.y < canvas.height - p.box.height then p.box.y + p.speed else p.box.y)
    // horizontal axis
    ensures !keys.arrowLeft && !keys.arrowRight ==> r.box.x == p.box.x
    ensures keys.arrowLeft && !keys.arrowRight ==>
      r.box.x == (if p.box.x > 0.0 then p.box.x - p.speed else p.box.x)
    ensures !keys.arrowLeft && keys.arrowRight ==>
      r.box.x == (if p.box.x < canvas.width - p.box.width then p.box.x + p.speed else p.box.x)
  {
    var y1 := if keys.arrowUp && p.box.y > 0.0 then p.box.y - p.speed else p.box.y;
    var y2 := if keys.arrowDown && y1 < canvas.height - p.box.height then y1 + p.speed else y1;
    var x1 := if keys.arrowLeft && p.box.x > 0.0 then p.box.x - p.speed else p.box.x;
    var x2 := if keys.arrowRight && x1 < canvas.width - p.box.width then x1 + p.speed else x1;
    p.(box := p.box.(x := x2, y := y2))
  }

  /** The ship is less than one step beyond each edge of the canvas. */
  predicate WithinOneStep(p: Player, canvas: Canvas) {
    && -p.speed < p.box.x < canvas.width - p.box.width + p.speed
    && -p.speed < p.box.y < canvas.height - p.box.height + p.speed
  }

  /** The ship can overshoot an edge, but never by a whole step, whatever keys are held. */
  lemma MovementStaysWithinOneStep(p: Player, keys: Keys, canvas: Canvas)
    requires p.speed > 0.0 && WithinOneStep(p, canvas)
    ensures WithinOneStep(UpdatePlayer(p, keys, canvas), canvas)
  {
  }

  /** The ship's start position, (50, height/2 - 25), is less than one step beyond every edge
      when the canvas is wider than 95 and taller than 40. */
  lemma StartWithinOneStep(canvas: Canvas)
    requires canvas.width > 95.0 && canvas.height > 40.0
    ensures WithinOneStep(StartPlayer(canvas), canvas)
  {
  }

  /** n frames of movement with the same keys held. */
  function RunPlayer(p: Player, keys: Keys, canvas: Canvas, n: nat): Player
    decreases n
  {
    if n == 0 then p else UpdatePlayer(RunPlayer(p, keys, canvas, n - 1), keys, canvas)
  }

  /** Holding only the right arrow moves the ship right by exactly one step per frame for as long
      as it has not reached the right edge at the start of each frame. */
  lemma {:induction false} HoldRight(p: Player, canvas: Canvas, n: nat)
    requires p.speed > 0.0
    requires p.box.x + (n - 1) as real * p.speed < canvas.width - p.box.width
    ensures RunPlayer(p, Keys(false, false, false, true), canvas, n).box.x == p.box.x + n as real * p.speed
    ensures RunPlayer(p, Keys(false, false, false, true), canvas, n).box.y == p.box.y
    ensures RunPlayer(p, Keys(false, false, false, true), canvas, n).box.width == p.box.width
    ensures RunPlayer(p, Keys(false, false, false, true), canvas, n).box.height == p.box.height
    ensures RunPlayer(p, Keys(false, false, false, true), canvas, n).speed == p.speed
  {
    if n > 0 {
      assert (n - 1) as real * p.speed == (n - 2) as real * p.speed + p.speed;
      HoldRight(p, canvas, n - 1);
      var keys := Keys(false, false, false, true);
      assert RunPlayer(p, keys, canvas, n) == UpdatePlayer(RunPlayer(p, keys, canvas, n - 1), keys, canvas);
      assert n as real * p.speed == (n - 1) as real * p.speed + p.speed;
    }
  }

  /** The bullet fired by the space key: 15 by 5, starting at the ship's right edge, vertically
      centred on the ship. */
  function Muzzle(p: Player): (r: Rect)
    ensures r.x == p.box.x + p.box.width
    ensures r.y + r.height / 2.0 == p.box.y + p.box.height / 2.0
    ensures r.width == BulletWidth && r.height == BulletHeight
  {
    Rect(p.box.x + p.box.width, p.box.y + p.box.height / 2.0 - 2.5, BulletWidth, BulletHeight)
  }

  /** The space-key push: one bullet appended at the muzzle; nothing else changes. */
  function FireBullet(s: GameState): (r: GameState)
    ensures r.bullets == s.bullets + [Muzzle(s.player)]
    ensures r.(bullets := s.bullets) == s
  {
    s.(bullets := s.bullets + [Muzzle(s.player)])
  }
}
