/**
 * The canvas component's mutable state and its per-frame `update`
 * (components/GameCanvas.tsx:24-58, 137-312, 599-623). The refs become fields;
 * the entity lists are sequences that the reverse-index loops splice in place.
 * Every method is proved to leave the state the functions of module Simulation
 * describe.
 */
module Canvas {
  import opened Types
  import opened Collision
  import opened Factories
  import opened Simulation

  /**
   * One iteration of a reverse-index loop at index i, on values: with the list
   * made of the unprocessed prefix up to i and the processed tail, writing x at i
   * or splicing i out leaves the prefix before i followed by the new tail.
   */
  lemma SpliceStep<T>(orig: seq<T>, i: nat, cur: seq<T>, tail: seq<T>, x: T)
    requires i < |orig| && cur == orig[..i + 1] + tail
    ensures cur[i] == orig[i]
    ensures cur[i := x] == orig[..i] + [x] + tail
    ensures RemoveAt(cur[i := x], i) == orig[..i] + tail
  {
    var head := orig[..i];
    assert orig[..i + 1] == head + [orig[i]];
    var moved := head + [x] + tail;
    assert cur[i := x] == moved;
    assert moved[..i] == head && moved[i + 1..] == tail;
  }

  /**
   * One step of the projectile loop: moving element i of a list whose part after i
   * is already done, and removing it when it is above -50, gives the list done from i.
   */
  lemma ProjectileStep(ps: seq<Projectile>, i: nat, cur: seq<Projectile>)
    requires i < |ps| && cur == ps[..i + 1] + AdvanceProjectiles(ps[i + 1..])
    ensures var q := MoveProjectile(cur[i]);
            (if q.y < -50.0 then RemoveAt(cur[i := q], i) else cur[i := q])
            == ps[..i] + AdvanceProjectiles(ps[i..])
  {
    AdvanceProjectilesFrom(ps, i);
    SpliceStep(ps, i, cur, AdvanceProjectiles(ps[i + 1..]), MoveProjectile(ps[i]));
  }

  /**
   * One step of the power-up loop: with the part after i done, moving element i
   * and then collecting it, dropping it or keeping it gives the state done from i.
   */
  lemma PowerUpStep(p0: Player, s0: int, us: seq<PowerUp>, i: nat, height: real,
                    cur: seq<PowerUp>, pl: Player, sc: int)
    requires i < |us|
    requires var rest := PowerUpPass(p0, s0, us[i + 1..], height);
             pl == rest.player && sc == rest.score && cur == us[..i + 1] + rest.powerUps
    ensures var u := MovePowerUp(cur[i]);
            var r := PowerUpPass(p0, s0, us[i..], height);
            if CheckCollision(pl.Bounds(), u.Bounds()) then
              ApplyPickup(pl, sc, u.kind) == Pickup(r.player, r.score)
              && RemoveAt(cur[i := u], i) == us[..i] + r.powerUps
            else
              pl == r.player && sc == r.score
              && (if u.y > height then RemoveAt(cur[i := u], i) else cur[i := u]) == us[..i] + r.powerUps
  {
    assert us[i..][1..] == us[i + 1..];
    var rest := PowerUpPass(p0, s0, us[i + 1..], height);
    SpliceStep(us, i, cur, rest.powerUps, MovePowerUp(us[i]));
  }

  class GameCanvas {
    var player: Player
    var asteroids: seq<Asteroid>
    var powerUps: seq<PowerUp>
    var projectiles: seq<Projectile>
    var score: int
    var lastSpawnTime: real
    var lastPowerUpSpawnTime: real
    var lastShotTime: real
    var lastReportedShield: int
    var lastReportedWeaponLevel: int
    var startTime: int

    /** The refs as one value. */
    function Snapshot(): World
      reads this
    {
      World(player, asteroids, powerUps, projectiles, score, lastSpawnTime, lastPowerUpSpawnTime,
            lastShotTime, lastReportedShield, lastReportedWeaponLevel, startTime)
    }

    ghost predicate Valid()
      reads this
    {
      WellFormed(Snapshot())
    }

    /** The refs as the component creates them on mount. */
    constructor ()
      ensures Valid() && Snapshot() == InitialWorld
    {
      player := Player(0.0, 0.0, PLAYER_MAX_SHIELD, PLAYER_MAX_SHIELD, 1, 0);
      asteroids, powerUps, projectiles := [], [], [];
      score := 0;
      lastSpawnTime, lastPowerUpSpawnTime, lastShotTime := 0.0, 0.0, 0.0;
      lastReportedShield, lastReportedWeaponLevel := PLAYER_MAX_SHIELD, 1;
      startTime := 0;
    }

    /** The reset effect that runs whenever the game state becomes PLAYING. */
    method ResetSession(gs: GameState, spawnNow: real, powerUpNow: real, dateNow: int, canvasWidth: Option<real>)
      returns (n: Notices)
      requires Valid()
      modifies this
      ensures Valid()
      ensures Outcome(Snapshot(), n) == Simulation.ResetSession(gs, old(Snapshot()), spawnNow, powerUpNow, dateNow, canvasWidth)
    {
      if gs != Playing {
        return Quiet;
      }
      ghost var w := Snapshot();
      score := 0;
      asteroids, powerUps, projectiles := [], [], [];
      lastSpawnTime := spawnNow;
      lastPowerUpSpawnTime := powerUpNow;
      startTime := dateNow;
      player := player.(shield := PLAYER_MAX_SHIELD, weaponLevel := 1, speedBoostTimer := 0);
      n := Notices(Some(PLAYER_MAX_SHIELD), Some(1), None, None);
      if canvasWidth.Some? {
        player := player.(x := canvasWidth.value / 2.0);
      }
      assert Snapshot() == w.(score := 0, asteroids := [], powerUps := [], projectiles := [],
                              lastSpawnTime := spawnNow, lastPowerUpSpawnTime := powerUpNow,
                              startTime := dateNow, player := player);
    }

    /** One animation frame: `update(time, width, height)` with the mouse position and the draws as inputs. */
    method Update(gs: GameState, f: Frame) returns (n: Notices)
      requires Valid() && ValidFrame(f)
      modifies this
      ensures Valid()
      ensures Outcome(Snapshot(), n) == Tick(gs, old(Snapshot()), f)
    {
      if gs != Playing {
        return Quiet;
      }
      ghost var w := Snapshot();
      var scoreBefore := score;
      StepPlayer(f.mouseX, f.width, f.height);
      var shieldNote, weaponNote := ReportStats();
      Spawn(f);
      FireWeapons(f.time);
      ghost var prepared := PrepareFrame(w, f);
      assert Snapshot() == prepared;
      PrepareFrameKeeps(w, f);
      ghost var passes := EntityPasses(prepared, f.height, Seconds(f.now, w.startTime));
      var ended := RunPasses(f.height, Seconds(f.now, startTime));
      assert Snapshot() == passes.world && ended == passes.ended;
      n := Notices(shieldNote, weaponNote, if score != scoreBefore then Some(score) else None, ended);
      assert Outcome(Snapshot(), n) == Tick(gs, w, f);
      TickPreservesWellFormed(gs, w, f);
    }

    /** The projectile, power-up and asteroid loops of one frame. */
    method RunPasses(height: real, seconds: real) returns (ended: Option<GameOverReport>)
      modifies this`player, this`score, this`powerUps, this`asteroids, this`projectiles
      ensures Passes(Snapshot(), ended) == EntityPasses(old(Snapshot()), height, seconds)
    {
      ghost var w := Snapshot();
      ghost var w3 := w.(projectiles := AdvanceProjectiles(w.projectiles));
      MoveProjectiles();
      assert Snapshot() == w3;
      ghost var sweep := PowerUpPass(w3.player, w3.score, w3.powerUps, height);
      CollectPowerUps(height);
      ghost var w4 := w3.(player := sweep.player, score := sweep.score, powerUps := sweep.powerUps);
      assert Snapshot() == w4;
      ghost var c := AsteroidPass(Combat(sweep.player, sweep.score, w3.asteroids, w3.projectiles, None),
                                  |w3.asteroids|, height, seconds);
      ended := ResolveAsteroids(height, seconds);
      assert Combat(player, score, asteroids, projectiles, ended) == c;
      assert Snapshot() == w4.(player := c.player, score := c.score,
                               asteroids := c.asteroids, projectiles := c.projectiles);
    }

    /** Easing towards the mouse, clamping to the canvas and the boost timer. */
    method StepPlayer(mouseX: real, width: real, height: real)
      modifies this`player
      ensures player == PlayerStep(old(player), mouseX, width, height)
    {
      var lerpFactor := if player.speedBoostTimer > 0 then 0.3 else 0.15;
      var targetX := mouseX - PLAYER_WIDTH / 2.0;
      player := player.(x := player.x + (targetX - player.x) * lerpFactor);
      player := player.(y := height - PLAYER_HEIGHT - 50.0);
      if player.x < 0.0 {
        player := player.(x := 0.0);
      }
      if player.x > width - PLAYER_WIDTH {
        player := player.(x := width - PLAYER_WIDTH);
      }
      if player.speedBoostTimer > 0 {
        player := player.(speedBoostTimer := player.speedBoostTimer - FRAME_MS);
      }
    }

    /** Change-only reporting of the shield (floored at 0) and the weapon level. */
    method ReportStats() returns (shieldNote: Option<int>, weaponNote: Option<int>)
      modifies this`lastReportedShield, this`lastReportedWeaponLevel
      ensures shieldNote == if player.shield != old(lastReportedShield) then Some(Max(0, player.shield)) else None
      ensures weaponNote == if player.weaponLevel != old(lastReportedWeaponLevel) then Some(player.weaponLevel) else None
      ensures lastReportedShield == player.shield && lastReportedWeaponLevel == player.weaponLevel
    {
      shieldNote, weaponNote := None, None;
      if player.shield != lastReportedShield {
        shieldNote := Some(Max(0, player.shield));
        lastReportedShield := player.shield;
      }
      if player.weaponLevel != lastReportedWeaponLevel {
        weaponNote := Some(player.weaponLevel);
        lastReportedWeaponLevel := player.weaponLevel;
      }
    }

    /** An asteroid when the score-dependent interval has passed, a power-up when the drawn delay has. */
    method Spawn(f: Frame)
      requires ValidFrame(f)
      modifies this`asteroids, this`lastSpawnTime, this`powerUps, this`lastPowerUpSpawnTime
      ensures Snapshot() == SpawnPowerUp(SpawnAsteroid(old(Snapshot()), f), f)
    {
      if f.time - lastSpawnTime > SpawnInterval(score) {
        var a := CreateAsteroid(f.width, score, f.asteroidDraws);
        asteroids := asteroids + [a];
        lastSpawnTime := f.time;
      }
      if f.time - lastPowerUpSpawnTime > 5000.0 + f.powerUpDelay * 8000.0 {
        powerUps := powerUps + [NewPowerUp(f.width, f.powerUpKind, f.powerUpX)];
        lastPowerUpSpawnTime := f.time;
      }
    }

    /** A volley once more than FIRE_RATE ms have passed since the last one. */
    method FireWeapons(time: real)
      modifies this`projectiles, this`lastShotTime
      ensures Snapshot() == Fire(old(Snapshot()), time)
    {
      if time - lastShotTime > FIRE_RATE {
        Shoot();
        lastShotTime := time;
      }
    }

    /** The weapon fan-out: pushes 1, 3 or 5 projectiles from the ship's nose. */
    method Shoot()
      modifies this`projectiles
      ensures projectiles == old(projectiles) + Volley(player)
    {
      var px := player.x + PLAYER_WIDTH / 2.0 - PROJECTILE_WIDTH / 2.0;
      var py := player.y;
      if player.weaponLevel >= 1 {
        projectiles := projectiles + [Shot(px, py, 0.0, -PROJECTILE_SPEED)];
      }
      if player.weaponLevel >= 2 {
        projectiles := projectiles + [Shot(px - 10.0, py + 5.0, -1.0, -PROJECTILE_SPEED * 0.9)];
        projectiles := projectiles + [Shot(px + 10.0, py + 5.0, 1.0, -PROJECTILE_SPEED * 0.9)];
      }
      if player.weaponLevel >= 3 {
        projectiles := projectiles + [Shot(px - 20.0, py + 10.0, -3.0, -PROJECTILE_SPEED * 0.8)];
        projectiles := projectiles + [Shot(px + 20.0, py + 10.0, 3.0, -PROJECTILE_SPEED * 0.8)];
      }
    }

    /** The projectile loop: from the last index down, move each one and splice out those above -50. */
    method MoveProjectiles()
      modifies this`projectiles
      ensures projectiles == AdvanceProjectiles(old(projectiles))
    {
      ghost var ps := projectiles;
      var i := |projectiles|;
      assert ps[..i] == ps && ps[i..] == [];
      while i > 0
        invariant 0 <= i <= |ps|
        invariant projectiles == ps[..i] + AdvanceProjectiles(ps[i..])
      {
        i := i - 1;
        ProjectileStep(ps, i, projectiles);
        MoveProjectileAt(i);
      }
      assert ps[..0] == [] && ps[0..] == ps;
    }

    /** The body of the projectile loop at index i: move it, and splice it out above -50. */
    method MoveProjectileAt(i: nat)
      requires i < |projectiles|
      modifies this`projectiles
      ensures var q := MoveProjectile(old(projectiles)[i]);
              projectiles == if q.y < -50.0 then RemoveAt(old(projectiles)[i := q], i)
                             else old(projectiles)[i := q]
    {
      var p := projectiles[i];
      p := p.(y := p.y + p.vy, x := p.x + p.vx);
      projectiles := projectiles[i := p];
      if p.y < -50.0 {
        projectiles := RemoveAt(projectiles, i);
      }
    }

    /** The power-up loop: from the last index down, move each one, collect it on overlap, drop it below the canvas. */
    method CollectPowerUps(height: real)
      modifies this`player, this`score, this`powerUps
      ensures var r := PowerUpPass(old(player), old(score), old(powerUps), height);
              player == r.player && score == r.score && powerUps == r.powerUps
    {
      ghost var us := powerUps;
      ghost var p0 := player;
      ghost var s0 := score;
      var i := |powerUps|;
      assert us[..i] == us && us[i..] == [];
      while i > 0
        invariant 0 <= i <= |us|
        invariant var r := PowerUpPass(p0, s0, us[i..], height);
                  player == r.player && score == r.score && powerUps == us[..i] + r.powerUps
      {
        i := i - 1;
        PowerUpStep(p0, s0, us, i, height, powerUps, player, score);
        var pup := powerUps[i];
        pup := pup.(y := pup.y + pup.vy);
        pup := pup.(pulse := pup.pulse + 0.1);
        powerUps := powerUps[i := pup];
        if CheckCollision(player.Bounds(), pup.Bounds()) {
          Collect(pup.kind);
          powerUps := RemoveAt(powerUps, i);
          continue;
        }
        if pup.y > height {
          powerUps := RemoveAt(powerUps, i);
        }
      }
      assert us[..0] == [] && us[0..] == us;
    }

    /** The effect of picking up a power-up of kind `kind`. */
    method Collect(kind: PowerUpType)
      modifies this`player, this`score
      ensures Pickup(player, score) == ApplyPickup(old(player), old(score), kind)
    {
      if kind == ShieldPack {
        player := player.(shield := Min(player.maxShield, player.shield + SHIELD_REGEN_AMOUNT));
      }
      if kind == WeaponPack {
        player := player.(weaponLevel := Min(3, player.weaponLevel + 1));
      }
      if kind == Fuel {
        player := player.(speedBoostTimer := SPEED_BOOST_DURATION);
        score := score + 100;
      }
    }

    /**
     * The inner projectile loop for one asteroid: from the last projectile down,
     * splice out each one that overlaps `target` and take a hit point, stopping
     * when the hit points run out.
     */
    method ShootDown(target: Rect, hp0: int) returns (hp: int, destroyed: bool)
      modifies this`projectiles
      ensures LaserHits(hp, projectiles, destroyed) == ScanHits(target, hp0, old(projectiles), |old(projectiles)|)
    {
      ghost var goal := ScanHits(target, hp0, projectiles, |projectiles|);
      hp := hp0;
      var j := |projectiles|;
      while j > 0
        invariant 0 <= j <= |projectiles|
        invariant ScanHits(target, hp, projectiles, j) == goal
      {
        j := j - 1;
        if CheckCollision(projectiles[j].Bounds(), target) {
          projectiles := RemoveAt(projectiles, j);
          hp := hp - 1;
          if hp <= 0 {
            destroyed := true;
            return;
          }
        }
      }
      destroyed := false;
    }

    /**
     * The body of the asteroid loop for index i: move the asteroid, resolve
     * projectile hits, then the impact with the ship (reporting the end of the
     * game when the shield is gone) and the bottom edge.
     */
    method ResolveAsteroid(i: nat, height: real, seconds: real) returns (ended: Option<GameOverReport>)
      requires i < |asteroids|
      modifies this`player, this`score, this`asteroids, this`projectiles
      ensures Combat(player, score, asteroids, projectiles, ended)
              == AsteroidStep(Combat(old(player), old(score), old(asteroids), old(projectiles), None), i, height, seconds)
    {
      ghost var c0 := Combat(player, score, asteroids, projectiles, None);
      var ast := asteroids[i];
      ast := ast.(y := ast.y + ast.vy, x := ast.x + ast.vx, rotation := ast.rotation + ast.rotationSpeed);
      assert ast == MoveAsteroid(c0.asteroids[i]);
      ghost var hits := ScanHits(ast.Bounds(), ast.hp, projectiles, |projectiles|);
      var hp, destroyedByLaser := ShootDown(ast.Bounds(), ast.hp);
      assert hp == hits.hp && projectiles == hits.projectiles && destroyedByLaser == hits.destroyed;
      ast := ast.(hp := hp);
      asteroids := asteroids[i := ast];
      ended := None;
      if destroyedByLaser {
        score := score + 50;
        asteroids := RemoveAt(asteroids, i);
        return;
      }
      if CheckRadialCollision(player.Bounds(), ast.Bounds()) {
        player := player.(shield := player.shield - ast.damage);
        asteroids := RemoveAt(asteroids, i);
        if player.shield <= 0 {
          ended := Some(GameOverReport(score, seconds));
          return;
        }
      }
      if ast.y > height + OFFSCREEN_MARGIN {
        asteroids := RemoveAt(asteroids, i);
        score := score + 10;
      }
    }

    /**
     * The asteroid loop: from the last index down, each asteroid is resolved; the
     * frame stops at the impact that ends the game.
     */
    method ResolveAsteroids(height: real, seconds: real) returns (ended: Option<GameOverReport>)
      modifies this`player, this`score, this`asteroids, this`projectiles
      ensures Combat(player, score, asteroids, projectiles, ended)
              == AsteroidPass(Combat(old(player), old(score), old(asteroids), old(projectiles), None),
                              |old(asteroids)|, height, seconds)
    {
      ghost var c := Combat(player, score, asteroids, projectiles, None);
      ghost var goal := AsteroidPass(c, |asteroids|, height, seconds);
      var i := |asteroids|;
      while i > 0
        invariant 0 <= i <= |asteroids|
        invariant c == Combat(player, score, asteroids, projectiles, None)
        invariant AsteroidPass(c, i, height, seconds) == goal
      {
        i := i - 1;
        ghost var c1 := AsteroidStep(c, i, height, seconds);
        AsteroidPassStep(c, i + 1, height, seconds);
        ended := ResolveAsteroid(i, height, seconds);
        assert Combat(player, score, asteroids, projectiles, ended) == c1;
        if ended.Some? {
          return;
        }
        c := c1;
      }
      ended := None;
    }
  }
}
