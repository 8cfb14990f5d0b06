/** The axis-aligned bounding-box test that game.js writes out three times:
    checkCollision(dino, obstacle), PowerUp.checkCollision and
    Bullet.checkCollision. Coordinates are exact reals. */
module Collision {

  /** A box by its top-left corner and its size, y growing downwards. */
  datatype Rect = Rect(x: real, y: real, width: real, height: real)
  {
    /** Every entity of the game has a positive width and height. */
    predicate Proper() { width > 0.0 && height > 0.0 }

    /** The point lies strictly inside the box. */
    predicate Inside(px: real, py: real)
    {
      x < px < x + width && y < py < y + height
    }
  }

  /** Each box starts strictly before the other one ends, on both axes. Boxes
      that do not overlap are separated: one lies wholly left of, right of,
      above or below the other, touching allowed. */
  predicate Overlaps(a: Rect, b: Rect)
    ensures Overlaps(a, b) ==> a.x < b.x + b.width && b.x < a.x + a.width
    ensures Overlaps(a, b) ==> a.y < b.y + b.height && b.y < a.y + a.height
    ensures !Overlaps(a, b) <==>
              a.x + a.width <= b.x || b.x + b.width <= a.x || a.y + a.height <= b.y || b.y + b.height <= a.y
  {
    a.x < b.x + b.width && a.x + a.width > b.x &&
    a.y < b.y + b.height && a.y + a.height > b.y
  }

  /** The independent reading of the test: two proper boxes overlap exactly when
      some point lies strictly inside both. */
  lemma OverlapsIffCommonInterior(a: Rect, b: Rect)
    requires a.Proper() && b.Proper()
    ensures Overlaps(a, b) <==> exists px, py :: a.Inside(px, py) && b.Inside(px, py)
  {
    if Overlaps(a, b) {
      var left := if a.x < b.x then b.x else a.x;
      var right := if a.x + a.width < b.x + b.width then a.x + a.width else b.x + b.width;
      var top := if a.y < b.y then b.y else a.y;
      var bottom := if a.y + a.height < b.y + b.height then a.y + a.height else b.y + b.height;
      var px, py := (left + right) / 2.0, (top + bottom) / 2.0;
      assert a.Inside(px, py) && b.Inside(px, py);
    }
  }

  /** The test does not depend on the order of its arguments. */
  lemma OverlapsSymmetric(a: Rect, b: Rect)
    ensures Overlaps(a, b) == Overlaps(b, a)
  {
  }

  /** Boxes that only share an edge do not collide. */
  lemma SharedEdgeIsNoCollision(a: Rect, b: Rect)
    requires a.x + a.width == b.x || b.x + b.width == a.x ||
             a.y + a.height == b.y || b.y + b.height == a.y
    ensures !Overlaps(a, b)
  {
  }
}
