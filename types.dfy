/** Constants and record shapes of the game (constants.ts, types.ts). */
module Types {

  // Player
  const PLAYER_WIDTH: real := 40.0
  const PLAYER_HEIGHT: real := 60.0
  const PLAYER_MAX_SHIELD: int := 1000
  const SHIELD_REGEN_AMOUNT: int := 300

  // Asteroids
  const MIN_ASTEROID_SIZE: real := 30.0
  const MAX_ASTEROID_SIZE: real := 80.0
  const ASTEROID_BASE_SPEED: real := 3.0

  // Power-ups
  const POWERUP_SIZE: real := 25.0
  const POWERUP_SPEED: real := 2.5
  const SPEED_BOOST_DURATION: int := 5000

  // Projectiles
  const PROJECTILE_WIDTH: real := 4.0
  const PROJECTILE_HEIGHT: real := 15.0
  const PROJECTILE_SPEED: real := 15.0

  datatype Option<T> = None | Some(value: T)

  function Max(a: int, b: int): int { if a < b then b else a }
  function Min(a: int, b: int): int { if a < b then a else b }
  function MaxR(a: real, b: real): real { if a < b then b else a }

  /** The coarse session state shared by the app shell and the canvas. */
  datatype GameState = Menu | Playing | GameOver

  datatype PowerUpType = ShieldPack | WeaponPack | Fuel

  /** The part of an entity that the collision tests read: top-left corner and size. */
  datatype Rect = Rect(x: real, y: real, width: real, height: real)

  /**
   * A polygon vertex of an asteroid in polar form: vertex `step` of `|points|`
   * sits at angle step/|points| of a full turn, `radius` from the centre.
   */
  datatype Vertex = Vertex(step: nat, radius: real)

  datatype Asteroid = Asteroid(
    x: real, y: real, width: real, height: real, vx: real, vy: real,
    rotation: real, rotationSpeed: real, points: seq<Vertex>, hp: int, damage: int)
  {
    function Bounds(): Rect { Rect(x, y, width, height) }
  }

  datatype PowerUp = PowerUp(
    x: real, y: real, width: real, height: real, vx: real, vy: real,
    kind: PowerUpType, pulse: real)
  {
    function Bounds(): Rect { Rect(x, y, width, height) }
  }

  datatype Projectile = Projectile(
    x: real, y: real, width: real, height: real, vx: real, vy: real, active: bool)
  {
    function Bounds(): Rect { Rect(x, y, width, height) }
  }

  /** The player record; its width and height are always PLAYER_WIDTH and PLAYER_HEIGHT. */
  datatype Player = Player(
    x: real, y: real, shield: int, maxShield: int, weaponLevel: int, speedBoostTimer: int)
  {
    function Bounds(): Rect { Rect(x, y, PLAYER_WIDTH, PLAYER_HEIGHT) }
  }

  /** JavaScript's `splice(i, 1)`: removes element i, and does nothing when i is past the end. */
  function RemoveAt<T>(s: seq<T>, i: nat): (r: seq<T>)
    ensures |r| == if i < |s| then |s| - 1 else |s|
  {
    if i < |s| then s[..i] + s[i + 1..] else s
  }

  /**
   * Element by element: the entries before i stay where they are, those after it
   * move down one place, and exactly one copy of s[i] is lost.
   */
  lemma RemoveAtElements<T>(s: seq<T>, i: nat)
    requires i < |s|
    ensures var r := RemoveAt(s, i);
            && |r| == |s| - 1
            && (forall k :: 0 <= k < i ==> r[k] == s[k])
            && (forall k :: i <= k < |r| ==> r[k] == s[k + 1])
            && multiset(r) + multiset{s[i]} == multiset(s)
  {
    assert s == s[..i] + [s[i]] + s[i + 1..];
  }
}
