/** Axis-aligned rectangles and the overlap test every entity shares
    (`Entity.collidesWith`, `Player.rectIntersect`, `Game.rectIntersect`). */
module Geometry {

  datatype Rect = Rect(x: real, y: real, w: real, h: real)

  /** The map size that movement is confined to. */
  datatype Bounds = Bounds(width: real, height: real)

  /** Strict overlap on both axes, so rectangles that only share an edge do not intersect. */
  predicate Intersects(a: Rect, b: Rect)
  {
    a.x < b.x + b.w && a.x + a.w > b.x && a.y < b.y + b.h && a.y + a.h > b.y
  }

  /** `r` grown by `d` on every side. */
  function Grow(r: Rect, d: real): (g: Rect)
    ensures g.x + g.w == r.x + r.w + d && g.y + g.h == r.y + r.h + d
  {
    Rect(r.x - d, r.y - d, r.w + 2.0 * d, r.h + 2.0 * d)
  }

  /** Some edge of `r` lies beyond the map. */
  predicate Outside(r: Rect, b: Bounds)
  {
    r.x < 0.0 || r.x + r.w > b.width || r.y < 0.0 || r.y + r.h > b.height
  }

  /** `r` overlaps at least one of `solids`. */
  predicate HitsAny(r: Rect, solids: seq<Rect>)
  {
    exists i :: 0 <= i < |solids| && Intersects(r, solids[i])
  }

  lemma IntersectsSymmetric(a: Rect, b: Rect)
    ensures Intersects(a, b) <==> Intersects(b, a)
  {
  }

  /** Rectangles that touch along a vertical or a horizontal edge do not intersect. */
  lemma TouchingDoNotIntersect(a: Rect, b: Rect)
    requires a.x + a.w == b.x || b.x + b.w == a.x || a.y + a.h == b.y || b.y + b.h == a.y
    ensures !Intersects(a, b)
  {
  }

  /** Growing a rectangle never loses an overlap. */
  lemma GrowKeepsOverlap(a: Rect, b: Rect, d: real)
    requires d >= 0.0 && Intersects(a, b)
    ensures Intersects(Grow(a, d), b)
  {
  }
}
