/** Axis-aligned bounding boxes and the overlap test used for collisions. */
module Geometry {

  /** A closed rectangle [x0, x1] x [y0, y1] in screen coordinates (y grows downwards). */
  datatype Rect = Rect(x0: real, y0: real, x1: real, y1: real)

  /** The rectangle of a sprite of size w x h drawn with its top-left corner at (x, y). */
  function RectAt(x: real, y: real, w: int, h: int): (r: Rect)
    ensures r.x0 == x && r.y0 == y
    ensures r.x1 - r.x0 == w as real && r.y1 - r.y0 == h as real
  {
    Rect(x, y, x + w as real, y + h as real)
  }

  predicate Proper(r: Rect) {
    r.x0 <= r.x1 && r.y0 <= r.y1
  }

  /** The separation test exactly as the collision loop writes it (enemy e, player p). */
  predicate Separated(e: Rect, p: Rect) {
    e.x0 > p.x1 || p.x0 > e.x1 || e.y0 > p.y1 || p.y0 > e.y1
  }

  predicate Overlaps(e: Rect, p: Rect) {
    !Separated(e, p)
  }

  predicate Contains(r: Rect, x: real, y: real) {
    r.x0 <= x <= r.x1 && r.y0 <= y <= r.y1
  }

  /** The larger of two reals (ScoreDisplay.MaxInt is its integer twin: Dafny has no
      type parameter with an ordering, so the two are kept apart). */
  function Max(a: real, b: real): real {
    if a < b then b else a
  }

  /** Reference definition: two proper rectangles overlap exactly when they share a point. */
  lemma OverlapsIffCommonPoint(a: Rect, b: Rect)
    requires Proper(a) && Proper(b)
    ensures Overlaps(a, b) <==> exists x: real, y: real :: Contains(a, x, y) && Contains(b, x, y)
  {
    if Overlaps(a, b) {
      var x, y := Max(a.x0, b.x0), Max(a.y0, b.y0);
      assert Contains(a, x, y) && Contains(b, x, y);
    }
  }

  /** The test does not depend on which rectangle is the enemy and which the player. */
  lemma OverlapsSymmetric(a: Rect, b: Rect)
    ensures Overlaps(a, b) <==> Overlaps(b, a)
  {
  }

  /**
   * Rectangles that only touch collide: a's right edge on b's left edge with the two
   * vertical extents meeting, or a's bottom edge on b's top edge with the two horizontal
   * extents meeting (a shared corner is both).
   */
  lemma TouchingCollide(a: Rect, b: Rect)
    requires Proper(a) && Proper(b)
    requires (a.x1 == b.x0 && a.y0 <= b.y1 && b.y0 <= a.y1) ||
             (a.y1 == b.y0 && a.x0 <= b.x1 && b.x0 <= a.x1)
    ensures Overlaps(a, b)
  {
  }
}
