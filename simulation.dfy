/**
 * One frame of the canvas simulation as a function of the previous world and the
 * frame's inputs (components/GameCanvas.tsx:137-312), and the session reset
 * (components/GameCanvas.tsx:599-623). The class in canvas.dfy performs the same
 * steps in place and is proved equal to these functions.
 */
module Simulation {
  import opened Types
  import opened Collision
  import opened Factories

  /** Everything the canvas keeps between frames that gameplay reads or writes. */
  datatype World = World(
    player: Player,
    asteroids: seq<Asteroid>,
    powerUps: seq<PowerUp>,
    projectiles: seq<Projectile>,
    score: int,
    lastSpawnTime: real,
    lastPowerUpSpawnTime: real,
    lastShotTime: real,
    lastReportedShield: int,
    lastReportedWeaponLevel: int,
    startTime: int)

  /**
   * The inputs of one frame: the animation timestamp, the canvas size, the mouse position,
   * the wall clock (`Date.now()`) and the random draws the frame may consume.
   */
  datatype Frame = Frame(
    time: real, width: real, height: real, mouseX: real, now: int,
    powerUpDelay: real, asteroidDraws: AsteroidDraws, powerUpKind: real, powerUpX: real)

  predicate ValidFrame(f: Frame)
  {
    IsDraw(f.powerUpDelay) && ValidAsteroidDraws(f.asteroidDraws) && IsDraw(f.powerUpX)
    && IsDraw(f.powerUpKind)
  }

  /** What `onGameOver` receives: the score and the seconds survived. */
  datatype GameOverReport = GameOverReport(score: int, seconds: real)

  /**
   * The callbacks a frame makes: `setShield`, `setWeaponLevel`, the last `setScore`
   * value (setScore is called after every increment, so its last value is the new
   * score) and `onGameOver`.
   */
  datatype Notices = Notices(
    shield: Option<int>, weaponLevel: Option<int>, score: Option<int>, gameOver: Option<GameOverReport>)

  const Quiet: Notices := Notices(None, None, None, None)

  datatype Outcome = Outcome(world: World, notices: Notices)

  const FRAME_MS: int := 16
  const FIRE_RATE: real := 150.0

  // ---------------------------------------------------------------------------
  // Invariants kept across frames

  /** An asteroid as the factory makes it and the passes keep it: square, with hp left. */
  predicate RockOk(a: Asteroid)
  {
    a.width == a.height && a.width > 0.0 && a.hp >= 1 && a.damage > 0
  }

  predicate RocksOk(s: seq<Asteroid>)
  {
    forall k :: 0 <= k < |s| ==> RockOk(s[k])
  }

  predicate PlayerOk(p: Player)
  {
    && p.maxShield == PLAYER_MAX_SHIELD
    && p.shield <= p.maxShield
    && 1 <= p.weaponLevel <= 3
    && -FRAME_MS < p.speedBoostTimer <= SPEED_BOOST_DURATION
  }

  predicate WellFormed(w: World)
  {
    PlayerOk(w.player) && RocksOk(w.asteroids)
  }

  lemma RemoveAtKeepsRocks(s: seq<Asteroid>, i: nat)
    ensures RocksOk(s) ==> RocksOk(RemoveAt(s, i))
  {
    if i < |s| && RocksOk(s) {
      var r := RemoveAt(s, i);
      forall k | 0 <= k < |r| ensures RockOk(r[k]) {
        if k < i { assert r[k] == s[k]; } else { assert r[k] == s[k + 1]; }
      }
    }
  }

  /** Overwriting an element and then splicing it out is the same as splicing it out. */
  lemma RemoveAtOverwritten<T>(s: seq<T>, i: nat, x: T)
    requires i < |s|
    ensures RemoveAt(s[i := x], i) == RemoveAt(s, i)
  {
    assert s[i := x][..i] == s[..i];
    assert s[i := x][i + 1..] == s[i + 1..];
  }

  // ---------------------------------------------------------------------------
  // 1. Player easing, clamping and the boost timer

  function LerpFactor(p: Player): real
  {
    if p.speedBoostTimer > 0 then 0.3 else 0.15
  }

  function Abs(r: real): real { if r < 0.0 then -r else r }

  function PlayerStep(p: Player, mouseX: real, width: real, height: real): (q: Player)
    ensures q.y == height - PLAYER_HEIGHT - 50.0
    ensures width >= PLAYER_WIDTH ==> 0.0 <= q.x <= width - PLAYER_WIDTH
    ensures q.speedBoostTimer == if p.speedBoostTimer > 0 then p.speedBoostTimer - FRAME_MS else p.speedBoostTimer
    ensures q.shield == p.shield && q.maxShield == p.maxShield && q.weaponLevel == p.weaponLevel
    ensures PlayerOk(p) ==> PlayerOk(q)
  {
    var lerp := LerpFactor(p);
    var targetX := mouseX - PLAYER_WIDTH / 2.0;
    var eased := p.x + (targetX - p.x) * lerp;
    var x1 := if eased < 0.0 then 0.0 else eased;
    var x2 := if x1 > width - PLAYER_WIDTH then width - PLAYER_WIDTH else x1;
    var timer := if p.speedBoostTimer > 0 then p.speedBoostTimer - FRAME_MS else p.speedBoostTimer;
    p.(x := x2, y := height - PLAYER_HEIGHT - 50.0, speedBoostTimer := timer)
  }

  /**
   * With the mouse target inside the clamp range, one step moves the ship
   * towards the target without passing it, and the remaining distance shrinks by
   * at least the factor (1 - lerp). When the ship also starts inside the clamp
   * range, as every frame leaves it, no clamp applies and the remaining distance
   * is exactly (1 - 0.3) of the old one while boosting and (1 - 0.15) otherwise.
   */
  lemma EasingApproachesTarget(p: Player, mouseX: real, width: real, height: real)
    requires 0.0 <= mouseX - PLAYER_WIDTH / 2.0 <= width - PLAYER_WIDTH
    ensures var t := mouseX - PLAYER_WIDTH / 2.0;
            var q := PlayerStep(p, mouseX, width, height);
            && (p.x <= t ==> p.x <= q.x <= t)
            && (t <= p.x ==> t <= q.x <= p.x)
            && Abs(t - q.x) <= (1.0 - LerpFactor(p)) * Abs(t - p.x)
            && (0.0 <= p.x <= width - PLAYER_WIDTH ==>
                  t - q.x == (1.0 - (if p.speedBoostTimer > 0 then 0.3 else 0.15)) * (t - p.x))
  {
    var t := mouseX - PLAYER_WIDTH / 2.0;
    var lerp := LerpFactor(p);
    var eased := p.x + (t - p.x) * lerp;
    if lerp == 0.3 {
      assert t - eased == (t - p.x) * 0.7;
    } else {
      assert t - eased == (t - p.x) * 0.85;
    }
  }

  // ---------------------------------------------------------------------------
  // 2. Spawning

  /** The asteroid spawn interval: 800 ms shrinking by score/5, never below 200 ms. */
  function SpawnInterval(score: int): (r: real)
    ensures 200.0 <= r
    ensures score >= 0 ==> r <= 800.0
    ensures score >= 3000 ==> r == 200.0
    ensures r >= 800.0 - score as real / 5.0
  {
    MaxR(200.0, 800.0 - score as real / 5.0)
  }

  predicate AsteroidDue(time: real, lastSpawn: real, score: int)
  {
    time - lastSpawn > SpawnInterval(score)
  }

  /**
   * Asteroid spawning changes only the asteroid list and its clock. The list grows
   * by one exactly when the interval has passed; the old asteroids stay in front,
   * the new one is the factory's, and the clock becomes `time`.
   */
  function SpawnAsteroid(w: World, f: Frame): (r: World)
    requires ValidFrame(f)
    ensures r == w.(asteroids := r.asteroids, lastSpawnTime := r.lastSpawnTime)
    ensures |r.asteroids| == |w.asteroids| + (if AsteroidDue(f.time, w.lastSpawnTime, w.score) then 1 else 0)
    ensures r.asteroids[..|w.asteroids|] == w.asteroids
    ensures AsteroidDue(f.time, w.lastSpawnTime, w.score) ==>
              r.lastSpawnTime == f.time && r.asteroids[|w.asteroids|] == NewAsteroid(f.width, w.score, f.asteroidDraws)
    ensures !AsteroidDue(f.time, w.lastSpawnTime, w.score) ==> r.lastSpawnTime == w.lastSpawnTime
  {
    if AsteroidDue(f.time, w.lastSpawnTime, w.score) then
      w.(asteroids := w.asteroids + [NewAsteroid(f.width, w.score, f.asteroidDraws)], lastSpawnTime := f.time)
    else w
  }

  /** A power-up is due once more than 5000 + delay * 8000 ms have passed, the delay drawn every frame. */
  predicate PowerUpDue(time: real, lastSpawn: real, delayDraw: real)
  {
    time - lastSpawn > 5000.0 + delayDraw * 8000.0
  }

  /**
   * Power-up spawning changes only the power-up list and its clock. The list grows
   * by one exactly when the drawn delay has passed; the old power-ups stay in
   * front, the new one is the factory's, and the clock becomes `time`.
   */
  function SpawnPowerUp(w: World, f: Frame): (r: World)
    requires ValidFrame(f)
    ensures r == w.(powerUps := r.powerUps, lastPowerUpSpawnTime := r.lastPowerUpSpawnTime)
    ensures |r.powerUps| == |w.powerUps| + (if PowerUpDue(f.time, w.lastPowerUpSpawnTime, f.powerUpDelay) then 1 else 0)
    ensures r.powerUps[..|w.powerUps|] == w.powerUps
    ensures PowerUpDue(f.time, w.lastPowerUpSpawnTime, f.powerUpDelay) ==>
              r.lastPowerUpSpawnTime == f.time
              && r.powerUps[|w.powerUps|] == NewPowerUp(f.width, f.powerUpKind, f.powerUpX)
    ensures !PowerUpDue(f.time, w.lastPowerUpSpawnTime, f.powerUpDelay) ==>
              r.lastPowerUpSpawnTime == w.lastPowerUpSpawnTime
  {
    if PowerUpDue(f.time, w.lastPowerUpSpawnTime, f.powerUpDelay) then
      w.(powerUps := w.powerUps + [NewPowerUp(f.width, f.powerUpKind, f.powerUpX)], lastPowerUpSpawnTime := f.time)
    else w
  }

  /**
   * Spawning keeps every asteroid square with hit points and damage; a spawned
   * asteroid has size in [30, 80), hp in [1, 3] and damage in [240, 640).
   */
  lemma SpawnAsteroidKeepsRocks(w: World, f: Frame)
    requires ValidFrame(f)
    ensures var r := SpawnAsteroid(w, f);
            && (RocksOk(w.asteroids) ==> RocksOk(r.asteroids))
            && (AsteroidDue(f.time, w.lastSpawnTime, w.score) ==>
                  var a := r.asteroids[|w.asteroids|];
                  30.0 <= a.width < 80.0 && 1 <= a.hp <= 3 && 240 <= a.damage < 640)
  {
    var r := SpawnAsteroid(w, f);
    if AsteroidDue(f.time, w.lastSpawnTime, w.score) {
      var a := NewAsteroid(f.width, w.score, f.asteroidDraws);
      assert forall k :: 0 <= k < |r.asteroids| ==>
               r.asteroids[k] == (if k < |w.asteroids| then w.asteroids[k] else a);
    }
  }

  // ---------------------------------------------------------------------------
  // 3. Weapon fire

  function Shot(x: real, y: real, vx: real, vy: real): Projectile
  {
    Projectile(x, y, PROJECTILE_WIDTH, PROJECTILE_HEIGHT, vx, vy, true)
  }

  /**
   * The projectiles one trigger pull adds: a centre shot from level 1, a side pair
   * from level 2 and a wide pair from level 3.
   */
  function Volley(p: Player): (r: seq<Projectile>)
    ensures 1 <= p.weaponLevel <= 3 ==> |r| == 2 * p.weaponLevel - 1
    ensures p.weaponLevel < 1 ==> r == []
  {
    var px := p.x + PLAYER_WIDTH / 2.0 - PROJECTILE_WIDTH / 2.0;
    var py := p.y;
    (if p.weaponLevel >= 1 then [Shot(px, py, 0.0, -PROJECTILE_SPEED)] else [])
    + (if p.weaponLevel >= 2 then
         [Shot(px - 10.0, py + 5.0, -1.0, -PROJECTILE_SPEED * 0.9),
          Shot(px + 10.0, py + 5.0, 1.0, -PROJECTILE_SPEED * 0.9)]
       else [])
    + (if p.weaponLevel >= 3 then
         [Shot(px - 20.0, py + 10.0, -3.0, -PROJECTILE_SPEED * 0.8),
          Shot(px + 20.0, py + 10.0, 3.0, -PROJECTILE_SPEED * 0.8)]
       else [])
  }

  /** Two shots mirrored about the vertical line through x = centreX, the first going left. */
  predicate MirroredPair(a: Projectile, b: Projectile, centreX: real)
  {
    a.x + b.x == 2.0 * centreX && a.vx == -b.vx && a.vx < 0.0 && a.y == b.y && a.vy == b.vy
  }

  /**
   * Every shot of a volley is an active projectile of the standard size moving up
   * from the ship's nose; the first goes straight up at full speed, and the others
   * come in pairs mirrored about it.
   */
  lemma VolleyShape(p: Player)
    ensures var r := Volley(p);
            && (forall k :: 0 <= k < |r| ==>
                  r[k].active && r[k].width == PROJECTILE_WIDTH && r[k].height == PROJECTILE_HEIGHT
                  && r[k].vy < 0.0 && r[k].y >= p.y)
            && (|r| >= 1 ==>
                  r[0].x == p.x + PLAYER_WIDTH / 2.0 - PROJECTILE_WIDTH / 2.0
                  && r[0].y == p.y && r[0].vx == 0.0 && r[0].vy == -PROJECTILE_SPEED)
            && (|r| >= 3 ==> MirroredPair(r[1], r[2], r[0].x))
            && (|r| >= 5 ==> MirroredPair(r[3], r[4], r[0].x))
  {
    var px := p.x + PLAYER_WIDTH / 2.0 - PROJECTILE_WIDTH / 2.0;
    var py := p.y;
    var centre := [Shot(px, py, 0.0, -PROJECTILE_SPEED)];
    var side := [Shot(px - 10.0, py + 5.0, -1.0, -PROJECTILE_SPEED * 0.9),
                 Shot(px + 10.0, py + 5.0, 1.0, -PROJECTILE_SPEED * 0.9)];
    var wide := [Shot(px - 20.0, py + 10.0, -3.0, -PROJECTILE_SPEED * 0.8),
                 Shot(px + 20.0, py + 10.0, 3.0, -PROJECTILE_SPEED * 0.8)];
    if p.weaponLevel >= 3 {
      assert Volley(p) == centre + side + wide;
    } else if p.weaponLevel == 2 {
      assert Volley(p) == centre + side;
    } else if p.weaponLevel == 1 {
      assert Volley(p) == centre;
    } else {
      assert Volley(p) == [];
    }
  }

  /**
   * Firing changes only the projectile list and the shot clock. Once more than
   * FIRE_RATE ms have passed, the ship's volley (2·level - 1 shots for a valid
   * ship) is appended behind the old projectiles and the clock becomes `time`;
   * otherwise nothing changes.
   */
  function Fire(w: World, time: real): (r: World)
    ensures r == w.(projectiles := r.projectiles, lastShotTime := r.lastShotTime)
    ensures |r.projectiles| >= |w.projectiles| && r.projectiles[..|w.projectiles|] == w.projectiles
    ensures time - w.lastShotTime > FIRE_RATE ==>
              && r.lastShotTime == time
              && r.projectiles[|w.projectiles|..] == Volley(w.player)
              && (PlayerOk(w.player) ==> |r.projectiles| == |w.projectiles| + 2 * w.player.weaponLevel - 1)
    ensures !(time - w.lastShotTime > FIRE_RATE) ==> r == w
  {
    if time - w.lastShotTime > FIRE_RATE then
      w.(projectiles := w.projectiles + Volley(w.player), lastShotTime := time)
    else w
  }

  // ---------------------------------------------------------------------------
  // 4. Projectile pass

  function MoveProjectile(p: Projectile): Projectile
  {
    p.(y := p.y + p.vy, x := p.x + p.vx)
  }

  /**
   * The projectiles after one pass: each one moved by its velocity, those that end
   * above y = -50 dropped, the rest kept in order.
   */
  function AdvanceProjectiles(ps: seq<Projectile>): (r: seq<Projectile>)
    ensures |r| <= |ps|
    decreases |ps|
  {
    if ps == [] then []
    else
      var q := MoveProjectile(ps[0]);
      (if q.y < -50.0 then [] else [q]) + AdvanceProjectiles(ps[1..])
  }

  /** The pass over a suffix starting at i handles element i, then the rest. */
  lemma AdvanceProjectilesFrom(ps: seq<Projectile>, i: nat)
    requires i < |ps|
    ensures AdvanceProjectiles(ps[i..])
            == (if MoveProjectile(ps[i]).y < -50.0 then [] else [MoveProjectile(ps[i])])
               + AdvanceProjectiles(ps[i + 1..])
  {
    assert ps[i..][1..] == ps[i + 1..];
  }

  /** Every projectile left after the pass is a moved projectile at or below y = -50. */
  lemma {:induction false} AdvanceProjectilesSurvivors(ps: seq<Projectile>)
    ensures forall q :: q in AdvanceProjectiles(ps) ==>
              q.y >= -50.0 && exists j :: 0 <= j < |ps| && q == MoveProjectile(ps[j])
    decreases |ps|
  {
    if ps != [] {
      AdvanceProjectilesSurvivors(ps[1..]);
      forall q | q in AdvanceProjectiles(ps)
        ensures q.y >= -50.0 && exists j :: 0 <= j < |ps| && q == MoveProjectile(ps[j])
      {
        if q != MoveProjectile(ps[0]) {
          var j :| 0 <= j < |ps[1..]| && q == MoveProjectile(ps[1..][j]);
          assert ps[j + 1] == ps[1..][j];
        }
      }
    }
  }

  /** Every moved projectile at or below y = -50 survives the pass. */
  lemma {:induction false} AdvanceProjectilesKeeps(ps: seq<Projectile>)
    ensures forall j :: 0 <= j < |ps| && MoveProjectile(ps[j]).y >= -50.0 ==>
              MoveProjectile(ps[j]) in AdvanceProjectiles(ps)
    decreases |ps|
  {
    if ps != [] {
      AdvanceProjectilesKeeps(ps[1..]);
      forall j | 0 <= j < |ps| && MoveProjectile(ps[j]).y >= -50.0
        ensures MoveProjectile(ps[j]) in AdvanceProjectiles(ps)
      {
        if j > 0 {
          assert ps[j] == ps[1..][j - 1];
        }
      }
    }
  }

  /**
   * The pass keeps relative order: the survivors of two lists placed one after
   * the other are the survivors of the first followed by those of the second.
   */
  lemma {:induction false} AdvanceProjectilesAppend(a: seq<Projectile>, b: seq<Projectile>)
    ensures AdvanceProjectiles(a + b) == AdvanceProjectiles(a) + AdvanceProjectiles(b)
    decreases |a|
  {
    if a != [] {
      assert (a + b)[0] == a[0] && (a + b)[1..] == a[1..] + b;
      AdvanceProjectilesAppend(a[1..], b);
    } else {
      assert a + b == b;
    }
  }

  // ---------------------------------------------------------------------------
  // 5. Power-up pass

  function MovePowerUp(u: PowerUp): PowerUp
  {
    u.(y := u.y + u.vy, pulse := u.pulse + 0.1)
  }

  datatype Pickup = Pickup(player: Player, score: int)

  /** The effect of collecting a power-up of kind `kind`. */
  function ApplyPickup(p: Player, score: int, kind: PowerUpType): (r: Pickup)
    ensures kind == ShieldPack ==>
              r == Pickup(p.(shield := Min(p.maxShield, p.shield + SHIELD_REGEN_AMOUNT)), score)
    ensures kind == WeaponPack ==> r == Pickup(p.(weaponLevel := Min(3, p.weaponLevel + 1)), score)
    ensures kind == Fuel ==> r == Pickup(p.(speedBoostTimer := SPEED_BOOST_DURATION), score + 100)
    ensures r.player.shield <= r.player.maxShield || r.player.shield == p.shield
    ensures r.player.weaponLevel <= 3 || r.player.weaponLevel == p.weaponLevel
    ensures PlayerOk(p) ==> PlayerOk(r.player) && r.player.shield >= p.shield
                            && r.player.weaponLevel >= p.weaponLevel
  {
    match kind
    case ShieldPack => Pickup(p.(shield := Min(p.maxShield, p.shield + SHIELD_REGEN_AMOUNT)), score)
    case WeaponPack => Pickup(p.(weaponLevel := Min(3, p.weaponLevel + 1)), score)
    case Fuel => Pickup(p.(speedBoostTimer := SPEED_BOOST_DURATION), score + 100)
  }

  datatype PowerUpSweep = PowerUpSweep(player: Player, score: int, powerUps: seq<PowerUp>)

  /**
   * The reverse-index pass over the power-ups `us`: the last one is handled first.
   * Each is moved; one overlapping the ship is collected and removed, one below
   * the canvas is removed without effect, the others are kept in order.
   */
  function PowerUpPass(p: Player, score: int, us: seq<PowerUp>, height: real): (r: PowerUpSweep)
    ensures |r.powerUps| <= |us|
    decreases |us|
  {
    if us == [] then PowerUpSweep(p, score, [])
    else
      var rest := PowerUpPass(p, score, us[1..], height);
      var u := MovePowerUp(us[0]);
      if CheckCollision(rest.player.Bounds(), u.Bounds()) then
        var got := ApplyPickup(rest.player, rest.score, u.kind);
        PowerUpSweep(got.player, got.score, rest.powerUps)
      else if u.y > height then rest
      else rest.(powerUps := [u] + rest.powerUps)
  }

  /**
   * The pass leaves the ship where it is, only adds fuel bonuses of 100 to the
   * score, keeps the player invariant without lowering shield or weapon level,
   * and keeps only power-ups that are not below the bottom edge and clear of the
   * ship. A pass
   * that adds nothing to the score collected no fuel.
   */
  lemma {:induction false} PowerUpPassEffects(p: Player, score: int, us: seq<PowerUp>, height: real)
    ensures var r := PowerUpPass(p, score, us, height);
            && r.player.x == p.x && r.player.y == p.y && r.player.maxShield == p.maxShield
            && r.score >= score && (r.score - score) % 100 == 0
            && (PlayerOk(p) ==> PlayerOk(r.player) && r.player.shield >= p.shield
                                && r.player.weaponLevel >= p.weaponLevel)
            && (forall k :: 0 <= k < |r.powerUps| ==>
                  r.powerUps[k].y <= height && !CheckCollision(p.Bounds(), r.powerUps[k].Bounds()))
            && (r.score == score ==> forall k :: 0 <= k < |us| ==>
                  !(CheckCollision(p.Bounds(), MovePowerUp(us[k]).Bounds()) && us[k].kind == Fuel))
    decreases |us|
  {
    if us != [] {
      PowerUpPassEffects(p, score, us[1..], height);
      var rest := PowerUpPass(p, score, us[1..], height);
      assert rest.player.Bounds() == p.Bounds();
      assert forall k :: 1 <= k < |us| ==> us[k] == us[1..][k - 1];
    }
  }

  /**
   * The power-ups a pass over `us` keeps, stated as an in-order filter: each is
   * moved, and kept when it is clear of the ship at `ship` and not below the
   * bottom edge.
   */
  function KeptPowerUps(ship: Rect, us: seq<PowerUp>, height: real): (r: seq<PowerUp>)
    ensures |r| <= |us|
    decreases |us|
  {
    if us == [] then []
    else
      var u := MovePowerUp(us[0]);
      (if !CheckCollision(ship, u.Bounds()) && u.y <= height then [u] else []) + KeptPowerUps(ship, us[1..], height)
  }

  /**
   * The filter keeps only moved power-ups clear of the ship and not below the
   * bottom edge, and keeps every one of them.
   */
  lemma {:induction false} KeptPowerUpsMembers(ship: Rect, us: seq<PowerUp>, height: real)
    ensures var r := KeptPowerUps(ship, us, height);
            && (forall u :: u in r ==> u.y <= height && !CheckCollision(ship, u.Bounds()))
            && (forall k :: 0 <= k < |us| && MovePowerUp(us[k]).y <= height
                             && !CheckCollision(ship, MovePowerUp(us[k]).Bounds()) ==>
                  MovePowerUp(us[k]) in r)
    decreases |us|
  {
    if us != [] {
      KeptPowerUpsMembers(ship, us[1..], height);
      assert forall k :: 1 <= k < |us| ==> us[k] == us[1..][k - 1];
    }
  }

  /**
   * The power-ups left after the pass are exactly those the filter keeps, in
   * their old order: collected ones and those below the bottom edge go, every
   * other one stays.
   */
  lemma {:induction false} PowerUpPassKeeps(p: Player, score: int, us: seq<PowerUp>, height: real)
    ensures var r := PowerUpPass(p, score, us, height);
            && r.powerUps == KeptPowerUps(p.Bounds(), us, height)
            && (forall k :: 0 <= k < |us| && MovePowerUp(us[k]).y <= height
                             && !CheckCollision(p.Bounds(), MovePowerUp(us[k]).Bounds()) ==>
                  MovePowerUp(us[k]) in r.powerUps)
    decreases |us|
  {
    if us != [] {
      PowerUpPassKeeps(p, score, us[1..], height);
      PowerUpPassEffects(p, score, us[1..], height);
      var rest := PowerUpPass(p, score, us[1..], height);
      assert rest.player.Bounds() == p.Bounds();
    }
    KeptPowerUpsMembers(p.Bounds(), us, height);
  }

  /** The power-ups a pass collects: each moved, taken when it overlaps the ship at `ship`, in order. */
  function Collected(ship: Rect, us: seq<PowerUp>): (r: seq<PowerUp>)
    ensures |r| <= |us|
    decreases |us|
  {
    if us == [] then []
    else
      var u := MovePowerUp(us[0]);
      (if CheckCollision(ship, u.Bounds()) then [u] else []) + Collected(ship, us[1..])
  }

  /** How many power-ups of `cs` are of kind `kind`. */
  function CountKind(cs: seq<PowerUp>, kind: PowerUpType): (n: nat)
    ensures n <= |cs|
    decreases |cs|
  {
    if cs == [] then 0 else (if cs[0].kind == kind then 1 else 0) + CountKind(cs[1..], kind)
  }

  /**
   * The ship and score a pass leaves after collecting `c`, starting from ship `p`
   * and score `score`: 100 points and a full boost timer for any fuel, 300 shield
   * per shield pack capped at the maximum, one weapon level per weapon pack capped
   * at 3, and nothing else about the ship changed.
   */
  predicate PickupsApplied(p: Player, score: int, c: seq<PowerUp>, q: Player, total: int)
  {
    && q == p.(shield := q.shield, weaponLevel := q.weaponLevel, speedBoostTimer := q.speedBoostTimer)
    && total == score + 100 * CountKind(c, Fuel)
    && q.speedBoostTimer == (if CountKind(c, Fuel) > 0 then SPEED_BOOST_DURATION else p.speedBoostTimer)
    && (PlayerOk(p) ==>
          && q.shield == Min(p.maxShield, p.shield + SHIELD_REGEN_AMOUNT * CountKind(c, ShieldPack))
          && q.weaponLevel == Min(3, p.weaponLevel + CountKind(c, WeaponPack)))
  }

  /** Collecting one more power-up `u` on top of `c` applies its pickup to the running ship and score. */
  lemma PickupStep(p: Player, score: int, c: seq<PowerUp>, q: Player, total: int, u: PowerUp)
    requires PickupsApplied(p, score, c, q, total)
    ensures var got := ApplyPickup(q, total, u.kind);
            PickupsApplied(p, score, [u] + c, got.player, got.score)
  {
    assert ([u] + c)[0] == u && ([u] + c)[1..] == c;
  }

  /** What the pass does to the ship and the score is exactly the pickups of the power-ups it collects. */
  lemma {:induction false} PowerUpPassPickups(p: Player, score: int, us: seq<PowerUp>, height: real)
    ensures var r := PowerUpPass(p, score, us, height);
            PickupsApplied(p, score, Collected(p.Bounds(), us), r.player, r.score)
    decreases |us|
  {
    if us != [] {
      PowerUpPassPickups(p, score, us[1..], height);
      PowerUpPassEffects(p, score, us[1..], height);
      var rest := PowerUpPass(p, score, us[1..], height);
      assert rest.player.Bounds() == p.Bounds();
      var u := MovePowerUp(us[0]);
      var c1 := Collected(p.Bounds(), us[1..]);
      if CheckCollision(p.Bounds(), u.Bounds()) {
        assert Collected(p.Bounds(), us) == [u] + c1;
        PickupStep(p, score, c1, rest.player, rest.score, u);
      } else {
        assert Collected(p.Bounds(), us) == c1;
      }
    }
  }

  // ---------------------------------------------------------------------------
  // 6. Asteroid pass

  function MoveAsteroid(a: Asteroid): Asteroid
  {
    a.(y := a.y + a.vy, x := a.x + a.vx, rotation := a.rotation + a.rotationSpeed)
  }

  datatype LaserHits = LaserHits(hp: int, projectiles: seq<Projectile>, destroyed: bool)

  /**
   * The inner projectile scan for one asteroid with bounds `target` and `hp` hit
   * points, over the indices below `j` from the top down: each projectile that
   * overlaps is removed and costs one hit point; the scan stops when hp reaches 0.
   */
  function ScanHits(target: Rect, hp: int, ps: seq<Projectile>, j: nat): (r: LaserHits)
    requires j <= |ps|
    ensures |ps| - j <= |r.projectiles| <= |ps|
    decreases j
  {
    if j == 0 then LaserHits(hp, ps, false)
    else if CheckCollision(ps[j - 1].Bounds(), target) then
      var rest := RemoveAt(ps, j - 1);
      if hp - 1 <= 0 then LaserHits(hp - 1, rest, true)
      else ScanHits(target, hp - 1, rest, j - 1)
    else ScanHits(target, hp, ps, j - 1)
  }

  /**
   * Each projectile the scan removes costs exactly one hit point; the asteroid is
   * destroyed exactly when its hit points run out, and only after a removal.
   */
  lemma {:induction false} ScanHitsCount(target: Rect, hp: int, ps: seq<Projectile>, j: nat)
    requires j <= |ps|
    ensures var r := ScanHits(target, hp, ps, j);
            && r.hp == hp - (|ps| - |r.projectiles|)
            && (r.destroyed ==> r.hp <= 0 && |r.projectiles| < |ps|)
            && (hp >= 1 ==> (r.destroyed <==> r.hp <= 0) && r.hp >= 0)
    decreases j
  {
    if j > 0 {
      if CheckCollision(ps[j - 1].Bounds(), target) {
        if hp - 1 > 0 {
          ScanHitsCount(target, hp - 1, RemoveAt(ps, j - 1), j - 1);
        }
      } else {
        ScanHitsCount(target, hp, ps, j - 1);
      }
    }
  }

  /** The scan leaves the unscanned indices, from j up, untouched. */
  lemma {:induction false} ScanHitsKeepsTail(target: Rect, hp: int, ps: seq<Projectile>, j: nat)
    requires j <= |ps|
    ensures var r := ScanHits(target, hp, ps, j);
            r.projectiles[j - (|ps| - |r.projectiles|)..] == ps[j..]
    decreases j
  {
    if j == 0 {
    } else if CheckCollision(ps[j - 1].Bounds(), target) {
      var rest := RemoveAt(ps, j - 1);
      assert rest[j - 1..] == ps[j..];
      if hp - 1 > 0 {
        ScanHitsKeepsTail(target, hp - 1, rest, j - 1);
      }
    } else {
      ScanHitsKeepsTail(target, hp, ps, j - 1);
      var r := ScanHits(target, hp, ps, j - 1);
      var removed := |ps| - |r.projectiles|;
      assert r.projectiles[j - 1 - removed..] == ps[j - 1..];
      assert r.projectiles[j - removed..] == r.projectiles[j - 1 - removed..][1..];
    }
  }

  /** Every projectile the scan leaves was there before it, as many times at most. */
  lemma {:induction false} ScanHitsSurvivors(target: Rect, hp: int, ps: seq<Projectile>, j: nat)
    requires j <= |ps|
    ensures multiset(ScanHits(target, hp, ps, j).projectiles) <= multiset(ps)
    decreases j
  {
    if j == 0 {
    } else if CheckCollision(ps[j - 1].Bounds(), target) {
      var rest := RemoveAt(ps, j - 1);
      assert ps == ps[..j - 1] + [ps[j - 1]] + ps[j..];
      assert multiset(rest) <= multiset(ps);
      if hp - 1 > 0 {
        ScanHitsSurvivors(target, hp - 1, rest, j - 1);
      }
    } else {
      ScanHitsSurvivors(target, hp, ps, j - 1);
    }
  }

  /** Every projectile the scan removes overlapped the asteroid. */
  lemma {:induction false} ScanHitsRemovesOnlyHits(target: Rect, hp: int, ps: seq<Projectile>, j: nat)
    requires j <= |ps|
    ensures forall q :: q in multiset(ps) - multiset(ScanHits(target, hp, ps, j).projectiles) ==>
              CheckCollision(q.Bounds(), target)
    decreases j, 1
  {
    if j > 0 && CheckCollision(ps[j - 1].Bounds(), target) {
      HitRemovesOnlyHits(target, hp, ps, j);
    } else if j > 0 {
      assert ScanHits(target, hp, ps, j) == ScanHits(target, hp, ps, j - 1);
      ScanHitsRemovesOnlyHits(target, hp, ps, j - 1);
    }
  }

  /** The scan step that removes projectile j - 1, an overlapping one. */
  lemma {:induction false} HitRemovesOnlyHits(target: Rect, hp: int, ps: seq<Projectile>, j: nat)
    requires 0 < j <= |ps| && CheckCollision(ps[j - 1].Bounds(), target)
    ensures forall q :: q in multiset(ps) - multiset(ScanHits(target, hp, ps, j).projectiles) ==>
              CheckCollision(q.Bounds(), target)
    decreases j, 0
  {
    var rest := RemoveAt(ps, j - 1);
    var left := ScanHits(target, hp, ps, j).projectiles;
    if hp - 1 > 0 {
      assert left == ScanHits(target, hp - 1, rest, j - 1).projectiles;
      ScanHitsRemovesOnlyHits(target, hp - 1, rest, j - 1);
    } else {
      assert left == rest && multiset(rest) - multiset(left) == multiset{};
    }
    RemoveAtElements(ps, j - 1);
    RemovedOneHit(multiset(ps), multiset(rest), multiset(left), ps[j - 1], target);
  }

  /** Removing one overlapping projectile before removing only overlapping ones removes only overlapping ones. */
  lemma RemovedOneHit(all: multiset<Projectile>, rest: multiset<Projectile>, left: multiset<Projectile>,
                      x: Projectile, target: Rect)
    requires rest + multiset{x} == all
    requires CheckCollision(x.Bounds(), target)
    requires forall q :: q in rest - left ==> CheckCollision(q.Bounds(), target)
    ensures forall q :: q in all - left ==> CheckCollision(q.Bounds(), target)
  {
    forall q | q in all - left ensures CheckCollision(q.Bounds(), target) {
      if q != x {
        assert all[q] == rest[q];
        assert q in rest - left;
      }
    }
  }

  /** When the asteroid survives the scan, no scanned projectile that is left overlaps it. */
  lemma {:induction false} ScanHitsClears(target: Rect, hp: int, ps: seq<Projectile>, j: nat)
    requires j <= |ps|
    ensures var r := ScanHits(target, hp, ps, j);
            !r.destroyed ==> forall k :: 0 <= k < j - (|ps| - |r.projectiles|) ==>
              !CheckCollision(r.projectiles[k].Bounds(), target)
    decreases j
  {
    if j == 0 {
    } else if CheckCollision(ps[j - 1].Bounds(), target) {
      if hp - 1 > 0 {
        var rest := RemoveAt(ps, j - 1);
        assert |rest| == |ps| - 1;
        assert ScanHits(target, hp, ps, j) == ScanHits(target, hp - 1, rest, j - 1);
        ScanHitsClears(target, hp - 1, rest, j - 1);
      }
    } else {
      var r := ScanHits(target, hp, ps, j - 1);
      assert ScanHits(target, hp, ps, j) == r;
      ScanHitsClears(target, hp, ps, j - 1);
      ScanHitsKeepsTail(target, hp, ps, j - 1);
      var removed := |ps| - |r.projectiles|;
      assert r.projectiles[j - 1 - removed..] == ps[j - 1..];
      assert r.projectiles[j - 1 - removed] == ps[j - 1];
    }
  }

  /** The projectiles of `qs` that do not overlap `target`, in order. */
  function Misses(target: Rect, qs: seq<Projectile>): (r: seq<Projectile>)
    ensures |r| <= |qs|
    decreases |qs|
  {
    if qs == [] then []
    else (if CheckCollision(qs[0].Bounds(), target) then [] else [qs[0]]) + Misses(target, qs[1..])
  }

  /** How many projectiles of `qs` overlap `target`. */
  function Hits(target: Rect, qs: seq<Projectile>): (n: nat)
    ensures n <= |qs|
    decreases |qs|
  {
    if qs == [] then 0 else (if CheckCollision(qs[0].Bounds(), target) then 1 else 0) + Hits(target, qs[1..])
  }

  /** The misses of two lists placed one after the other. */
  lemma {:induction false} MissesAppend(target: Rect, a: seq<Projectile>, b: seq<Projectile>)
    ensures Misses(target, a + b) == Misses(target, a) + Misses(target, b)
    decreases |a|
  {
    if a == [] {
      assert a + b == b;
    } else {
      assert (a + b)[0] == a[0] && (a + b)[1..] == a[1..] + b;
      MissesAppend(target, a[1..], b);
      assert Misses(target, a + b)
             == (if CheckCollision(a[0].Bounds(), target) then [] else [a[0]]) + Misses(target, a[1..] + b);
    }
  }

  /** The hits of two lists placed one after the other. */
  lemma {:induction false} HitsAppend(target: Rect, a: seq<Projectile>, b: seq<Projectile>)
    ensures Hits(target, a + b) == Hits(target, a) + Hits(target, b)
    decreases |a|
  {
    if a == [] {
      assert a + b == b;
    } else {
      assert (a + b)[0] == a[0] && (a + b)[1..] == a[1..] + b;
      HitsAppend(target, a[1..], b);
    }
  }

  /**
   * The scan result `r` stops at index m: everything below m is untouched, the
   * window ps[m..j] loses exactly its overlapping projectiles, each costing one
   * hit point, and everything from j on is untouched. A destroying scan stops at
   * an overlapping projectile, after using up as many as the asteroid had hit
   * points (one if it had none); a scan that does not destroy covers ps[..j].
   */
  predicate ConsumedFrom(target: Rect, hp: int, ps: seq<Projectile>, j: nat, m: nat, r: LaserHits)
    requires m <= j <= |ps|
  {
    && r.projectiles == ps[..m] + Misses(target, ps[m..j]) + ps[j..]
    && r.hp == hp - Hits(target, ps[m..j])
    && (r.destroyed ==> m < j && CheckCollision(ps[m].Bounds(), target)
                        && Hits(target, ps[m..j]) == (if hp >= 1 then hp else 1))
    && (!r.destroyed ==> m == 0)
  }

  /**
   * Which projectiles the scan uses up: scanning down from index j - 1, it stops
   * at some m as `ConsumedFrom` describes, so a destroying scan uses up the newest
   * overlapping projectiles and leaves the older ones.
   */
  lemma {:induction false} ScanHitsConsumesNewest(target: Rect, hp: int, ps: seq<Projectile>, j: nat)
    requires j <= |ps|
    ensures exists m: nat :: m <= j && ConsumedFrom(target, hp, ps, j, m, ScanHits(target, hp, ps, j))
    decreases j
  {
    var r := ScanHits(target, hp, ps, j);
    if j == 0 {
      assert ps[..0] + Misses(target, ps[0..0]) + ps[0..] == ps;
      assert ConsumedFrom(target, hp, ps, j, 0, r);
    } else if CheckCollision(ps[j - 1].Bounds(), target) {
      if hp - 1 <= 0 {
        LastHitConsumed(target, hp, ps, j);
      } else {
        var rest := RemoveAt(ps, j - 1);
        assert r == ScanHits(target, hp - 1, rest, j - 1);
        ScanHitsConsumesNewest(target, hp - 1, rest, j - 1);
        var m: nat :| m <= j - 1 && ConsumedFrom(target, hp - 1, rest, j - 1, m, r);
        ConsumedAfterHit(target, hp, ps, j, m, r);
      }
    } else {
      assert r == ScanHits(target, hp, ps, j - 1);
      ScanHitsConsumesNewest(target, hp, ps, j - 1);
      var m: nat :| m <= j - 1 && ConsumedFrom(target, hp, ps, j - 1, m, r);
      ConsumedAfterMiss(target, hp, ps, j, m, r);
    }
  }

  /** An overlapping projectile j - 1 that uses up the last hit point: the scan stops there. */
  lemma LastHitConsumed(target: Rect, hp: int, ps: seq<Projectile>, j: nat)
    requires 0 < j <= |ps| && CheckCollision(ps[j - 1].Bounds(), target) && hp - 1 <= 0
    ensures ConsumedFrom(target, hp, ps, j, j - 1, ScanHits(target, hp, ps, j))
  {
    assert ps[j - 1..j] == [ps[j - 1]];
    assert [ps[j - 1]][1..] == [];
  }

  /** An overlapping projectile j - 1 that leaves hit points: the scan goes on below it. */
  lemma ConsumedAfterHit(target: Rect, hp: int, ps: seq<Projectile>, j: nat, m: nat, r: LaserHits)
    requires 0 < j <= |ps| && CheckCollision(ps[j - 1].Bounds(), target) && hp - 1 > 0
    requires m <= j - 1 && ConsumedFrom(target, hp - 1, RemoveAt(ps, j - 1), j - 1, m, r)
    ensures ConsumedFrom(target, hp, ps, j, m, r)
  {
    var rest := RemoveAt(ps, j - 1);
    assert rest[..m] == ps[..m] && rest[m..j - 1] == ps[m..j - 1] && rest[j - 1..] == ps[j..];
    assert ps[m..j] == ps[m..j - 1] + [ps[j - 1]];
    assert [ps[j - 1]][1..] == [];
    MissesAppend(target, ps[m..j - 1], [ps[j - 1]]);
    HitsAppend(target, ps[m..j - 1], [ps[j - 1]]);
    if r.destroyed {
      assert rest[m] == ps[m];
    }
  }

  /** A projectile j - 1 clear of the asteroid: the scan keeps it and goes on below it. */
  lemma ConsumedAfterMiss(target: Rect, hp: int, ps: seq<Projectile>, j: nat, m: nat, r: LaserHits)
    requires 0 < j <= |ps| && !CheckCollision(ps[j - 1].Bounds(), target)
    requires m <= j - 1 && ConsumedFrom(target, hp, ps, j - 1, m, r)
    ensures ConsumedFrom(target, hp, ps, j, m, r)
  {
    assert ps[m..j] == ps[m..j - 1] + [ps[j - 1]];
    assert [ps[j - 1]][1..] == [];
    MissesAppend(target, ps[m..j - 1], [ps[j - 1]]);
    HitsAppend(target, ps[m..j - 1], [ps[j - 1]]);
    assert ps[j - 1..] == [ps[j - 1]] + ps[j..];
  }

  /** The part of the frame's state the asteroid pass reads and writes. */
  datatype Combat = Combat(
    player: Player, score: int, asteroids: seq<Asteroid>, projectiles: seq<Projectile>,
    ended: Option<GameOverReport>)

  const OFFSCREEN_MARGIN: real := 100.0

  /**
   * The asteroid at index i after one step of the pass: moved, hit by projectiles,
   * then checked against the ship and against the bottom edge. As in the source, the
   * bottom-edge test still runs after a non-fatal impact and then splices index i
   * of the already-shortened list (lemma ImpactRulesOutExit shows it never fires).
   */
  function AsteroidStep(c: Combat, i: nat, height: real, seconds: real): (r: Combat)
    requires i < |c.asteroids|
    ensures i <= |r.asteroids| <= |c.asteroids|
  {
    var a := MoveAsteroid(c.asteroids[i]);
    var hits := ScanHits(a.Bounds(), a.hp, c.projectiles, |c.projectiles|);
    var a1 := a.(hp := hits.hp);
    var asts := c.asteroids[i := a1];
    if hits.destroyed then
      Combat(c.player, c.score + 50, RemoveAt(asts, i), hits.projectiles, None)
    else
      var impact := CheckRadialCollision(c.player.Bounds(), a1.Bounds());
      var shield := if impact then c.player.shield - a1.damage else c.player.shield;
      var asts2 := if impact then RemoveAt(asts, i) else asts;
      var c1 := Combat(c.player.(shield := shield), c.score, asts2, hits.projectiles, None);
      if impact && shield <= 0 then
        c1.(ended := Some(GameOverReport(c.score, seconds)))
      else if a1.y > height + OFFSCREEN_MARGIN then
        c1.(asteroids := RemoveAt(asts2, i), score := c.score + 10)
      else c1
  }

  /**
   * One step leaves the asteroids below i alone, adds 0, 10 or 50 to the score,
   * changes the ship only by taking the asteroid's damage off the shield, never
   * adds projectiles, ends the game exactly when the hit leaves the shield at or
   * below 0 (reporting the score before the step), and keeps every asteroid
   * square with hit points left.
   */
  lemma AsteroidStepEffects(c: Combat, i: nat, height: real, seconds: real)
    requires i < |c.asteroids|
    ensures var r := AsteroidStep(c, i, height, seconds);
            && r.asteroids[..i] == c.asteroids[..i]
            && (r.score == c.score || r.score == c.score + 10 || r.score == c.score + 50)
            && r.player == c.player.(shield := r.player.shield)
            && (r.player.shield == c.player.shield
                || r.player.shield == c.player.shield - c.asteroids[i].damage)
            && (c.asteroids[i].damage >= 0 ==> r.player.shield <= c.player.shield)
            && |r.projectiles| <= |c.projectiles|
            && (r.ended.Some? ==> r.player.shield <= 0 && r.ended == Some(GameOverReport(c.score, seconds))
                                  && r.score == c.score)
            && (r.player.shield != c.player.shield && r.player.shield <= 0 ==> r.ended.Some?)
            && (RocksOk(c.asteroids) ==> RocksOk(r.asteroids))
  {
    var a := MoveAsteroid(c.asteroids[i]);
    var hits := ScanHits(a.Bounds(), a.hp, c.projectiles, |c.projectiles|);
    ScanHitsCount(a.Bounds(), a.hp, c.projectiles, |c.projectiles|);
    var a1 := a.(hp := hits.hp);
    var asts := c.asteroids[i := a1];
    assert RocksOk(c.asteroids) && !hits.destroyed ==> RocksOk(asts) by {
      if RocksOk(c.asteroids) && !hits.destroyed {
        assert RockOk(c.asteroids[i]);
        assert forall k :: 0 <= k < |asts| ==> asts[k] == (if k == i then a1 else c.asteroids[k]);
      }
    }
    RemoveAtKeepsRocks(asts, i);
    if hits.destroyed {
      RemoveAtOverwritten(c.asteroids, i, a1);
      RemoveAtKeepsRocks(c.asteroids, i);
    } else if CheckRadialCollision(c.player.Bounds(), a1.Bounds()) {
      RemoveAtKeepsRocks(RemoveAt(asts, i), i);
    }
  }

  /**
   * The reverse-index asteroid pass over indices below i: it stops at the first
   * step that ends the game.
   */
  function AsteroidPass(c: Combat, i: nat, height: real, seconds: real): (r: Combat)
    requires i <= |c.asteroids|
    requires c.ended == None
    ensures |r.asteroids| <= |c.asteroids|
    decreases i
  {
    if i == 0 then c
    else
      var c1 := AsteroidStep(c, i - 1, height, seconds);
      if c1.ended.Some? then c1 else AsteroidPass(c1, i - 1, height, seconds)
  }

  /** One step of the pass: resolve asteroid `i - 1`, then stop or go on below it. */
  lemma AsteroidPassStep(c: Combat, i: nat, height: real, seconds: real)
    requires 0 < i <= |c.asteroids|
    requires c.ended == None
    ensures var c1 := AsteroidStep(c, i - 1, height, seconds);
            AsteroidPass(c, i, height, seconds) == if c1.ended.Some? then c1 else AsteroidPass(c1, i - 1, height, seconds)
  {
  }

  /**
   * The pass never lowers the score, changes the ship only in its shield, which
   * does not rise while every asteroid is well formed, never adds projectiles,
   * and ends the game only with the shield at or below 0, reporting the score
   * the pass leaves.
   */
  lemma {:induction false} AsteroidPassEffects(c: Combat, i: nat, height: real, seconds: real)
    requires i <= |c.asteroids|
    requires c.ended == None
    ensures var r := AsteroidPass(c, i, height, seconds);
            && r.score >= c.score
            && r.player == c.player.(shield := r.player.shield)
            && (RocksOk(c.asteroids) ==> r.player.shield <= c.player.shield && RocksOk(r.asteroids))
            && |r.projectiles| <= |c.projectiles|
            && (r.ended.Some? ==> r.player.shield <= 0 && r.ended.value.score == r.score)
    decreases i
  {
    if i > 0 {
      AsteroidStepEffects(c, i - 1, height, seconds);
      AsteroidPassStep(c, i, height, seconds);
      var c1 := AsteroidStep(c, i - 1, height, seconds);
      if c1.ended.None? {
        AsteroidPassEffects(c1, i - 1, height, seconds);
      }
    }
  }

  /**
   * Geometry: the ship sits 110 units above the bottom edge, so an asteroid that
   * overlaps it radially cannot also be more than 100 units below that edge.
   */
  lemma ImpactRulesOutExit(p: Player, a: Asteroid, height: real)
    requires p.y == height - PLAYER_HEIGHT - 50.0
    requires a.width == a.height && a.width >= 0.0
    requires CheckRadialCollision(p.Bounds(), a.Bounds())
    ensures !(a.y > height + OFFSCREEN_MARGIN)
  {
    if a.y > height + OFFSCREEN_MARGIN {
      assert CentreDy(p.Bounds(), a.Bounds()) <= -MinDistance(p.Bounds(), a.Bounds());
      FarApartVertically(p.Bounds(), a.Bounds());
      assert false;
    }
  }

  /**
   * With the ship where the frame puts it, one step has one of four outcomes, and
   * each removes at most the asteroid at i. Shot down: it goes, with 50 points and
   * the ship untouched. Hit the ship: it goes, its damage comes off the shield,
   * the score stays and the game ends exactly when the shield is at or below 0.
   * Past the bottom edge: it goes, with 10 points. Otherwise it stays, moved and
   * with its hit points updated. In every case the projectiles left are those the
   * scan leaves.
   */
  lemma AsteroidStepOutcomes(c: Combat, i: nat, height: real, seconds: real)
    requires i < |c.asteroids|
    requires c.player.y == height - PLAYER_HEIGHT - 50.0
    requires RockOk(c.asteroids[i])
    ensures var a := MoveAsteroid(c.asteroids[i]);
            var hits := ScanHits(a.Bounds(), a.hp, c.projectiles, |c.projectiles|);
            var a1 := a.(hp := hits.hp);
            var impact := CheckRadialCollision(c.player.Bounds(), a1.Bounds());
            var r := AsteroidStep(c, i, height, seconds);
            && r.projectiles == hits.projectiles
            && (hits.destroyed ==>
                  && r.asteroids == RemoveAt(c.asteroids, i) && r.score == c.score + 50
                  && r.player == c.player && r.ended == None)
            && (!hits.destroyed && impact ==>
                  && r.asteroids == RemoveAt(c.asteroids, i) && r.score == c.score
                  && r.player == c.player.(shield := c.player.shield - a1.damage)
                  && (r.ended.Some? <==> r.player.shield <= 0))
            && (!hits.destroyed && !impact && a1.y > height + OFFSCREEN_MARGIN ==>
                  && r.asteroids == RemoveAt(c.asteroids, i) && r.score == c.score + 10
                  && r.player == c.player && r.ended == None)
            && (!hits.destroyed && !impact && a1.y <= height + OFFSCREEN_MARGIN ==>
                  && r.asteroids == c.asteroids[i := a1] && r.score == c.score
                  && r.player == c.player && r.ended == None)
  {
    var a := MoveAsteroid(c.asteroids[i]);
    var hits := ScanHits(a.Bounds(), a.hp, c.projectiles, |c.projectiles|);
    var a1 := a.(hp := hits.hp);
    RemoveAtOverwritten(c.asteroids, i, a1);
    if !hits.destroyed && CheckRadialCollision(c.player.Bounds(), a1.Bounds()) {
      ImpactRulesOutExit(c.player, a1, height);
    }
  }

  /**
   * Hence one step removes at most one asteroid: the second splice of the source
   * never takes effect.
   */
  lemma AsteroidStepRemovesAtMostOne(c: Combat, i: nat, height: real, seconds: real)
    requires i < |c.asteroids|
    requires c.player.y == height - PLAYER_HEIGHT - 50.0
    requires RockOk(c.asteroids[i])
    ensures |AsteroidStep(c, i, height, seconds).asteroids| >= |c.asteroids| - 1
  {
    AsteroidStepOutcomes(c, i, height, seconds);
  }

  // ---------------------------------------------------------------------------
  // The whole frame

  function Seconds(now: int, startTime: int): real
  {
    (now - startTime) as real / 1000.0
  }

  /**
   * The first half of a frame: the ship moves, the reported gauges catch up, the
   * spawners and the weapon run.
   */
  function PrepareFrame(w: World, f: Frame): World
    requires ValidFrame(f)
  {
    var p := PlayerStep(w.player, f.mouseX, f.width, f.height);
    var w1 := w.(player := p, lastReportedShield := p.shield, lastReportedWeaponLevel := p.weaponLevel);
    Fire(SpawnPowerUp(SpawnAsteroid(w1, f), f), f.time)
  }

  /** The world after the three entity passes, and the game-over report if the frame ended the game. */
  datatype Passes = Passes(world: World, ended: Option<GameOverReport>)

  /** The second half of a frame: the projectile, power-up and asteroid passes in that order. */
  function EntityPasses(w: World, height: real, seconds: real): Passes
  {
    var w3 := w.(projectiles := AdvanceProjectiles(w.projectiles));
    var sweep := PowerUpPass(w3.player, w3.score, w3.powerUps, height);
    var c := AsteroidPass(Combat(sweep.player, sweep.score, w3.asteroids, w3.projectiles, None),
                          |w3.asteroids|, height, seconds);
    Passes(w3.(player := c.player, score := c.score, powerUps := sweep.powerUps,
               asteroids := c.asteroids, projectiles := c.projectiles), c.ended)
  }

  /** `update(time, width, height)`: does nothing unless the game is being played. */
  function Tick(gs: GameState, w: World, f: Frame): (r: Outcome)
    requires ValidFrame(f)
    ensures gs != Playing ==> r == Outcome(w, Quiet)
  {
    if gs != Playing then Outcome(w, Quiet)
    else
      var p := PlayerStep(w.player, f.mouseX, f.width, f.height);
      var shieldNote := if p.shield != w.lastReportedShield then Some(Max(0, p.shield)) else None;
      var weaponNote := if p.weaponLevel != w.lastReportedWeaponLevel then Some(p.weaponLevel) else None;
      var passes := EntityPasses(PrepareFrame(w, f), f.height, Seconds(f.now, w.startTime));
      var scoreNote := if passes.world.score != w.score then Some(passes.world.score) else None;
      Outcome(passes.world, Notices(shieldNote, weaponNote, scoreNote, passes.ended))
  }

  /** The first half of a frame keeps the world invariant and leaves the score alone. */
  lemma PrepareFrameKeeps(w: World, f: Frame)
    requires ValidFrame(f) && WellFormed(w)
    ensures WellFormed(PrepareFrame(w, f)) && PrepareFrame(w, f).score == w.score
    ensures PrepareFrame(w, f).player.maxShield == w.player.maxShield
    ensures PrepareFrame(w, f).startTime == w.startTime
  {
    var p := PlayerStep(w.player, f.mouseX, f.width, f.height);
    var w1 := w.(player := p, lastReportedShield := p.shield, lastReportedWeaponLevel := p.weaponLevel);
    SpawnAsteroidKeepsRocks(w1, f);
  }

  /**
   * The entity passes keep the world invariant and never lower the score; when
   * they end the game the shield is at or below 0 and the report carries the
   * final score.
   */
  lemma EntityPassesKeep(w: World, height: real, seconds: real)
    requires WellFormed(w)
    ensures var r := EntityPasses(w, height, seconds);
            && WellFormed(r.world)
            && r.world.score >= w.score
            && r.world.player.maxShield == w.player.maxShield
            && (r.ended.Some? ==> r.world.player.shield <= 0 && r.ended.value.score == r.world.score)
  {
    var w3 := w.(projectiles := AdvanceProjectiles(w.projectiles));
    PowerUpPassEffects(w3.player, w3.score, w3.powerUps, height);
    var sweep := PowerUpPass(w3.player, w3.score, w3.powerUps, height);
    AsteroidPassEffects(Combat(sweep.player, sweep.score, w3.asteroids, w3.projectiles, None),
                        |w3.asteroids|, height, seconds);
  }

  /** A frame keeps every invariant of the world. */
  lemma TickPreservesWellFormed(gs: GameState, w: World, f: Frame)
    requires ValidFrame(f) && WellFormed(w)
    ensures WellFormed(Tick(gs, w, f).world)
  {
    if gs == Playing {
      PrepareFrameKeeps(w, f);
      EntityPassesKeep(PrepareFrame(w, f), f.height, Seconds(f.now, w.startTime));
    }
  }

  /**
   * Over a whole frame the score never goes down, the score notice is sent exactly
   * when it went up, and a frame that ends the game leaves the shield at or below
   * 0 and reports the final score.
   */
  lemma TickScoreAndShield(gs: GameState, w: World, f: Frame)
    requires ValidFrame(f) && WellFormed(w)
    ensures var r := Tick(gs, w, f);
            && r.world.score >= w.score
            && (r.notices.score.Some? <==> r.world.score > w.score)
            && (r.notices.score.Some? ==> r.notices.score.value == r.world.score)
            && (r.notices.gameOver.Some? ==>
                  r.world.player.shield <= 0 && r.notices.gameOver.value.score == r.world.score)
            && r.world.player.maxShield == w.player.maxShield
  {
    if gs == Playing {
      PrepareFrameKeeps(w, f);
      EntityPassesKeep(PrepareFrame(w, f), f.height, Seconds(f.now, w.startTime));
    }
  }

  // ---------------------------------------------------------------------------
  // Session reset

  /**
   * The reset effect: when the game state becomes PLAYING, the score, the entity
   * lists and the ship's gauges start over, and the shield and weapon gauges are
   * pushed to the app. `spawnNow` and `powerUpNow` are the two `performance.now()`
   * readings, `dateNow` the `Date.now()` reading; `canvasWidth` is None when the
   * canvas is not mounted.
   */
  function ResetSession(gs: GameState, w: World, spawnNow: real, powerUpNow: real, dateNow: int,
                        canvasWidth: Option<real>): (r: Outcome)
    ensures gs != Playing ==> r == Outcome(w, Quiet)
    ensures gs == Playing ==>
              && r.world.score == 0
              && r.world.asteroids == [] && r.world.powerUps == [] && r.world.projectiles == []
              && r.world.player.shield == PLAYER_MAX_SHIELD
              && r.world.player.weaponLevel == 1 && r.world.player.speedBoostTimer == 0
              && r.world.lastSpawnTime == spawnNow && r.world.lastPowerUpSpawnTime == powerUpNow
              && r.world.startTime == dateNow
              && r.world.lastShotTime == w.lastShotTime
              && r.world.lastReportedShield == w.lastReportedShield
              && r.world.lastReportedWeaponLevel == w.lastReportedWeaponLevel
              && r.world.player.maxShield == w.player.maxShield
              && r.world.player.y == w.player.y
              && r.world.player.x == (if canvasWidth.Some? then canvasWidth.value / 2.0 else w.player.x)
              && r.notices == Notices(Some(PLAYER_MAX_SHIELD), Some(1), None, None)
    ensures gs == Playing && w.player.maxShield == PLAYER_MAX_SHIELD ==> WellFormed(r.world)
  {
    if gs != Playing then Outcome(w, Quiet)
    else
      var p := w.player.(shield := PLAYER_MAX_SHIELD, weaponLevel := 1, speedBoostTimer := 0);
      var p1 := if canvasWidth.Some? then p.(x := canvasWidth.value / 2.0) else p;
      var w1 := w.(score := 0, asteroids := [], powerUps := [], projectiles := [],
                   lastSpawnTime := spawnNow, lastPowerUpSpawnTime := powerUpNow, startTime := dateNow,
                   player := p1);
      Outcome(w1, Notices(Some(PLAYER_MAX_SHIELD), Some(1), None, None))
  }

  /** The refs as the component first creates them. */
  const InitialWorld: World := World(
    Player(0.0, 0.0, PLAYER_MAX_SHIELD, PLAYER_MAX_SHIELD, 1, 0),
    [], [], [], 0, 0.0, 0.0, 0.0, PLAYER_MAX_SHIELD, 1, 0)
}
