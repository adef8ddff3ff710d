/**
 * Axis-aligned boxes on the play field (x grows to the right, y grows
 * downwards) and the collision test the falling-obstacle games use.
 */
module Geometry {

  datatype Box = Box(left: real, top: real, width: real, height: real)
  {
    predicate Proper() { width > 0.0 && height > 0.0 }
  }

  /**
   * The collision test of the games, comparison by comparison: `a` starts
   * left of the right edge of `b` and ends right of its left edge, and the
   * same vertically. All four comparisons are strict.
   */
  predicate Overlaps(a: Box, b: Box)
  {
    && a.left < b.left + b.width
    && a.left + a.width > b.left
    && a.top < b.top + b.height
    && a.top + a.height > b.top
  }

  /** (x, y) lies strictly inside `b` (not on its border). */
  predicate Inside(x: real, y: real, b: Box)
  {
    b.left < x < b.left + b.width && b.top < y < b.top + b.height
  }

  function Min(a: real, b: real): real { if a <= b then a else b }
  function Max(a: real, b: real): real { if a >= b then a else b }

  /**
   * For boxes of positive size the test is exactly "some point lies inside
   * both": boxes that only touch along an edge or at a corner do not collide.
   */
  lemma OverlapsIffSharedPoint(a: Box, b: Box)
    requires a.Proper() && b.Proper()
    ensures Overlaps(a, b) <==> exists x, y :: Inside(x, y, a) && Inside(x, y, b)
  {
    if Overlaps(a, b) {
      var x := (Max(a.left, b.left) + Min(a.left + a.width, b.left + b.width)) / 2.0;
      var y := (Max(a.top, b.top) + Min(a.top + a.height, b.top + b.height)) / 2.0;
      assert Inside(x, y, a) && Inside(x, y, b);
    }
  }

  /** The test does not depend on which box is the player. */
  lemma OverlapsSymmetric(a: Box, b: Box)
    ensures Overlaps(a, b) <==> Overlaps(b, a)
  {
  }
}
