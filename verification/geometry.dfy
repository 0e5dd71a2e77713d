/** Axis-aligned rectangles and the collision test every entity of the game shares. */
module Geometry {

  /** The x, y, width and height every collidable object of the game carries. */
  datatype Rect = Rect(x: real, y: real, width: real, height: real) {

    /** The same rectangle moved by (dx, dy). */
    function Shift(dx: real, dy: real): (r: Rect)
      ensures r.width == width && r.height == height
      ensures r.x - x == dx && r.y - y == dy
    {
      Rect(x + dx, y + dy, width, height)
    }

    /** A rectangle with a non-empty interior. */
    predicate Proper() {
      width > 0.0 && height > 0.0
    }

    /** (px, py) lies strictly inside this rectangle. */
    predicate StrictlyInside(px: real, py: real) {
      x < px < x + width && y < py < y + height
    }
  }

  /** The game's collision test: every comparison is strict. */
  predicate Colliding(a: Rect, b: Rect) {
    a.x < b.x + b.width && a.x + a.width > b.x && a.y < b.y + b.height && a.y + a.height > b.y
  }

  function Max(a: real, b: real): real { if a < b then b else a }
  function Min(a: real, b: real): real { if a < b then a else b }

  /** Two proper rectangles collide exactly when some point lies strictly inside both. */
  lemma CollidingIffCommonInteriorPoint(a: Rect, b: Rect)
    requires a.Proper() && b.Proper()
    ensures Colliding(a, b) <==> exists px, py :: a.StrictlyInside(px, py) && b.StrictlyInside(px, py)
  {
    if Colliding(a, b) {
      var px := (Max(a.x, b.x) + Min(a.x + a.width, b.x + b.width)) / 2.0;
      var py := (Max(a.y, b.y) + Min(a.y + a.height, b.y + b.height)) / 2.0;
      assert a.StrictlyInside(px, py) && b.StrictlyInside(px, py);
    }
  }

  /** The test does not depend on the order of its arguments. */
  lemma CollidingSymmetric(a: Rect, b: Rect)
    ensures Colliding(a, b) <==> Colliding(b, a)
  {
  }

  /** Rectangles that only share an edge do not collide. */
  lemma TouchingDoesNotCollide(a: Rect, b: Rect)
    requires a.x + a.width == b.x || b.x + b.width == a.x || a.y + a.height == b.y || b.y + b.height == a.y
    ensures !Colliding(a, b)
  {
  }

  /** Rectangles with a gap between them on either axis do not collide. */
  lemma SeparatedDoesNotCollide(a: Rect, b: Rect)
    requires a.x + a.width < b.x || b.x + b.width < a.x || a.y + a.height < b.y || b.y + b.height < a.y
    ensures !Colliding(a, b)
  {
  }
}
