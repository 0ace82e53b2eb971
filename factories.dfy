/**
 * The entity factories of the canvas component (components/GameCanvas.tsx:75-118).
 * Every `Math.random()` call becomes an explicit draw in [0, 1).
 */
module Factories {
  import opened Types

  predicate IsDraw(r: real) { 0.0 <= r < 1.0 }

  /** The random draws `createAsteroid` consumes, in the order it makes them. */
  datatype AsteroidDraws = AsteroidDraws(
    size: real, count: real, radii: seq<real>, x: real, vx: real, vy: real, spin: real)

  function AsteroidSize(sizeDraw: real): real
  {
    sizeDraw * (MAX_ASTEROID_SIZE - MIN_ASTEROID_SIZE) + MIN_ASTEROID_SIZE
  }

  function PointCount(countDraw: real): int
  {
    6 + (countDraw * 4.0).Floor
  }

  predicate ValidAsteroidDraws(d: AsteroidDraws)
  {
    && IsDraw(d.size) && IsDraw(d.count) && IsDraw(d.x)
    && IsDraw(d.vx) && IsDraw(d.vy) && IsDraw(d.spin)
    && |d.radii| == PointCount(d.count)
    && forall k :: 0 <= k < |d.radii| ==> IsDraw(d.radii[k])
  }

  /** Vertex k of the outline: its radius is the half-size jittered by a factor in [0.7, 1.3). */
  function OutlineVertex(size: real, radii: seq<real>, k: nat): Vertex
    requires k < |radii|
  {
    Vertex(k, (size / 2.0) * (0.7 + radii[k] * 0.6))
  }

  function Outline(size: real, radii: seq<real>): seq<Vertex>
  {
    seq(|radii|, k requires 0 <= k < |radii| => OutlineVertex(size, radii, k))
  }

  /** A draw scales a non-negative length to somewhere in [0, length), or to 0 when the length is 0. */
  lemma DrawScale(r: real, w: real)
    requires IsDraw(r)
    ensures w >= 0.0 ==> 0.0 <= r * w <= w
    ensures w > 0.0 ==> r * w < w
  {
    if w >= 0.0 {
      assert w - r * w == (1.0 - r) * w;
      if w > 0.0 {
        assert (1.0 - r) * w > 0.0;
      }
    }
  }

  lemma OutlineVertexRange(size: real, radii: seq<real>, k: nat)
    requires size > 0.0 && k < |radii| && IsDraw(radii[k])
    ensures 0.35 * size <= OutlineVertex(size, radii, k).radius < 0.65 * size
  {
    DrawScale(radii[k], size);
    assert (size / 2.0) * (0.7 + radii[k] * 0.6) == 0.35 * size + 0.3 * (radii[k] * size);
  }

  lemma OutlineRange(size: real, radii: seq<real>)
    requires size > 0.0 && forall k :: 0 <= k < |radii| ==> IsDraw(radii[k])
    ensures forall k :: 0 <= k < |radii| ==>
              Outline(size, radii)[k].step == k &&
              0.35 * size <= Outline(size, radii)[k].radius < 0.65 * size
  {
    forall k | 0 <= k < |radii|
      ensures 0.35 * size <= Outline(size, radii)[k].radius < 0.65 * size
    {
      OutlineVertexRange(size, radii, k);
    }
  }

  /** The x at which an entity of width `size` is placed by draw `r` on a canvas `width` wide. */
  function Placement(r: real, width: real, size: real): (x: real)
    requires IsDraw(r)
    ensures width >= size ==> 0.0 <= x <= width - size
  {
    var w := width - size;
    DrawScale(r, w);
    r * w
  }

  lemma PointCountRange(countDraw: real)
    requires IsDraw(countDraw)
    ensures 6 <= PointCount(countDraw) <= 9
  {
  }

  /**
   * The asteroid `createAsteroid` builds for canvas width `width`, running score
   * `score` and draws `d`.
   */
  function NewAsteroid(width: real, score: int, d: AsteroidDraws): (a: Asteroid)
    requires ValidAsteroidDraws(d)
    ensures MIN_ASTEROID_SIZE <= a.width < MAX_ASTEROID_SIZE && a.height == a.width
    ensures a.y == -2.0 * a.width && a.rotation == 0.0
    ensures 6 <= |a.points| <= 9
    ensures forall k :: 0 <= k < |a.points| ==>
              a.points[k].step == k && 0.35 * a.width <= a.points[k].radius < 0.65 * a.width
    ensures a.hp == (a.width / 20.0).Floor && 1 <= a.hp <= 3
    ensures a.damage == (a.width * 8.0).Floor && 240 <= a.damage < 640
    ensures -1.0 <= a.vx < 1.0 && -0.05 <= a.rotationSpeed < 0.05
    ensures ASTEROID_BASE_SPEED + score as real / 500.0 <= a.vy < ASTEROID_BASE_SPEED + 2.0 + score as real / 500.0
    ensures width >= a.width ==> 0.0 <= a.x <= width - a.width
  {
    var size := AsteroidSize(d.size);
    PointCountRange(d.count);
    var a := Asteroid(
      Placement(d.x, width, size), -size * 2.0, size, size,
      (d.vx - 0.5) * 2.0,
      ASTEROID_BASE_SPEED + d.vy * 2.0 + score as real / 500.0,
      0.0, (d.spin - 0.5) * 0.1,
      Outline(size, d.radii),
      (size / 20.0).Floor, (size * 8.0).Floor);
    OutlineRange(size, d.radii);
    a
  }

  /**
   * `createAsteroid` with its vertex loop: the outline is pushed one vertex at a
   * time, one radius draw per vertex.
   */
  method CreateAsteroid(width: real, score: int, d: AsteroidDraws) returns (a: Asteroid)
    requires ValidAsteroidDraws(d)
    ensures a == NewAsteroid(width, score, d)
  {
    var size := d.size * (MAX_ASTEROID_SIZE - MIN_ASTEROID_SIZE) + MIN_ASTEROID_SIZE;
    var points: seq<Vertex> := [];
    var numPoints := 6 + (d.count * 4.0).Floor;
    var i := 0;
    while i < numPoints
      invariant 0 <= i <= numPoints
      invariant |points| == i
      invariant forall k :: 0 <= k < i ==> points[k] == OutlineVertex(size, d.radii, k)
    {
      var r := (size / 2.0) * (0.7 + d.radii[i] * 0.6);
      points := points + [Vertex(i, r)];
      i := i + 1;
    }
    assert points == Outline(size, d.radii);
    a := Asteroid(
      Placement(d.x, width, size), -size * 2.0, size, size,
      (d.vx - 0.5) * 2.0,
      ASTEROID_BASE_SPEED + d.vy * 2.0 + score as real / 500.0,
      0.0, (d.spin - 0.5) * 0.1,
      points,
      (size / 20.0).Floor, (size * 8.0).Floor);
  }

  /** The power-up kind picked by one draw: thresholds 0.33 and 0.66. */
  function PowerUpKind(r: real): (k: PowerUpType)
    ensures k == ShieldPack <==> r < 0.33
    ensures k == WeaponPack <==> 0.33 <= r < 0.66
    ensures k == Fuel <==> 0.66 <= r
  {
    if r < 0.33 then ShieldPack
    else if r < 0.66 then WeaponPack
    else Fuel
  }

  /** The power-up `createPowerUp` builds from its kind draw and its position draw. */
  function NewPowerUp(width: real, kindDraw: real, xDraw: real): (u: PowerUp)
    requires IsDraw(xDraw)
    ensures u.kind == PowerUpKind(kindDraw)
    ensures u.vx == 0.0 && u.vy == POWERUP_SPEED && u.pulse == 0.0
    ensures u.width == POWERUP_SIZE && u.height == POWERUP_SIZE && u.y == -2.0 * POWERUP_SIZE
    ensures width >= POWERUP_SIZE ==> 0.0 <= u.x <= width - POWERUP_SIZE
  {
    PowerUp(Placement(xDraw, width, POWERUP_SIZE), -POWERUP_SIZE * 2.0, POWERUP_SIZE, POWERUP_SIZE,
            0.0, POWERUP_SPEED, PowerUpKind(kindDraw), 0.0)
  }
}
