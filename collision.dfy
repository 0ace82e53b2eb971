/** The two overlap tests of the canvas component (components/GameCanvas.tsx:120-135). */
module Collision {
  import opened Types

  /** Axis-aligned overlap with strict inequalities on all four sides. */
  predicate CheckCollision(r1: Rect, r2: Rect)
  {
    && r1.x < r2.x + r2.width
    && r1.x + r1.width > r2.x
    && r1.y < r2.y + r2.height
    && r1.y + r1.height > r2.y
  }

  /** The share of the target's half-width that counts in the radial test. */
  const SAFE_ZONE: real := 0.7

  function CentreDx(p: Rect, target: Rect): real
  {
    (p.x + p.width / 2.0) - (target.x + target.width / 2.0)
  }

  function CentreDy(p: Rect, target: Rect): real
  {
    (p.y + p.height / 2.0) - (target.y + target.height / 2.0)
  }

  /** The radius the two centres must come closer than. */
  function MinDistance(p: Rect, target: Rect): real
  {
    p.width / 2.0 + (target.width / 2.0) * SAFE_ZONE
  }

  /**
   * The radial test without a square root: the distance `sqrt(dx^2 + dy^2)` is
   * below `m` exactly when `m` is positive and the squared distance is below `m^2`
   * (lemma RadialMatchesDistance).
   */
  predicate CheckRadialCollision(p: Rect, target: Rect)
  {
    var dx := CentreDx(p, target);
    var dy := CentreDy(p, target);
    var m := MinDistance(p, target);
    m > 0.0 && dx * dx + dy * dy < m * m
  }

  /** Boxes that only share an edge or a corner do not collide. */
  lemma TouchingDoesNotCollide(r1: Rect, r2: Rect)
    requires r1.x + r1.width == r2.x || r2.x + r2.width == r1.x
          || r1.y + r1.height == r2.y || r2.y + r2.height == r1.y
    ensures !CheckCollision(r1, r2)
  {
  }

  /** The box test does not depend on the order of its arguments. */
  lemma CollisionSymmetric(r1: Rect, r2: Rect)
    ensures CheckCollision(r1, r2) == CheckCollision(r2, r1)
  {
  }

  lemma SquareBelow(a: real, b: real)
    requires 0.0 <= a < b
    ensures a * a < b * b
  {
    var e := b - a;
    assert b * b == a * a + 2.0 * a * e + e * e;
    assert a * e >= 0.0;
    assert e * e > 0.0;
  }

  lemma SquareNotBelow(a: real, b: real)
    requires 0.0 <= b <= a
    ensures b * b <= a * a
  {
    assert b * b <= b * a;
    assert b * a <= a * a;
  }

  /**
   * The source compares the Euclidean distance with the minimum distance. For any
   * `d >= 0` whose square is the squared centre distance (that is, d is the square
   * root), `d < MinDistance` holds exactly when the square-free test holds.
   */
  lemma RadialMatchesDistance(p: Rect, target: Rect, d: real)
    requires d >= 0.0
    requires d * d == CentreDx(p, target) * CentreDx(p, target) + CentreDy(p, target) * CentreDy(p, target)
    ensures (d < MinDistance(p, target)) <==> CheckRadialCollision(p, target)
  {
    var m := MinDistance(p, target);
    if d < m {
      SquareBelow(d, m);
    } else if m > 0.0 {
      SquareNotBelow(d, m);
    }
  }

  /**
   * Two centres farther apart vertically than the minimum distance never collide
   * radially, whatever their horizontal offset.
   */
  lemma FarApartVertically(p: Rect, target: Rect)
    requires MinDistance(p, target) >= 0.0
    requires CentreDy(p, target) <= -MinDistance(p, target) || CentreDy(p, target) >= MinDistance(p, target)
    ensures !CheckRadialCollision(p, target)
  {
    var dy := CentreDy(p, target);
    var m := MinDistance(p, target);
    var ady := if dy < 0.0 then -dy else dy;
    SquareNotBelow(ady, m);
    assert ady * ady == dy * dy;
    var dx := CentreDx(p, target);
    assert dx * dx >= 0.0;
  }
}
