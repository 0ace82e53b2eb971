# Void Velocity: the gameplay core in Dafny

Void Velocity is a browser arcade game. The player steers a ship along the bottom
of a canvas, fires automatically and dodges or shoots falling asteroids while
picking up shield, weapon and fuel power-ups. This project models two parts of it.

- **The canvas simulation** (`components/GameCanvas.tsx`). This covers the entity
  factories, the two overlap tests, the per-frame `update` and the session-reset
  effect.
  - `Simulation` states what one frame does, as pure functions of the previous
    world and the frame's inputs.
  - `Canvas.GameCanvas` is a class whose fields are the component's refs. Its
    `Update` performs the frame step by step with the source's reverse-index
    splice loops. Each of its methods is proved to leave exactly the state the
    matching `Simulation` function describes.
- **The app shell's session bookkeeping** (`App.tsx`).
  - `Session.App` holds the MENU / PLAYING / GAME_OVER transitions and the
    level-up effect.
  - `HighScores` models the high-score update: append, a stable sort by
    descending score, then truncation. It is written as functions with lemmas.

Modules and files:

- `types.dfy` (`Types`): constants and record shapes.
- `collision.dfy` (`Collision`): `checkCollision` and `checkRadialCollision`.
- `factories.dfy` (`Factories`): `createAsteroid` and `createPowerUp`.
- `simulation.dfy` (`Simulation`): the frame as functions, plus its invariants.
- `canvas.dfy` (`Canvas`): the mutable component.
- `highscores.dfy` (`HighScores`) and `session.dfy` (`Session`): the app shell.

Modelling choices:

- Positions, velocities and times are `real`. Score, shield, damage, hit points,
  weapon level and the boost timer are `int`. Every `Math.floor` is written out
  as `.Floor`.
- Each `Math.random()` call is an explicit draw in [0, 1), passed in the order
  the source makes them: `Factories.AsteroidDraws` for an asteroid, and the
  `Frame` fields for the power-up delay, kind and position.
- `performance.now()` and `Date.now()` are parameters. So are the mouse
  position and the canvas size.
- The radial test compares squared distances, so no square root is needed.
  `Collision.RadialMatchesDistance` proves this agrees with the source's
  `sqrt(dx*dx + dy*dy) < minDistance` for any non-negative `d` whose square is
  `dx*dx + dy*dy`.
- The callbacks a frame makes are returned as a `Notices` value: `setShield`,
  `setWeaponLevel`, the last `setScore` value and `onGameOver`.

Facts about the code that shape the model:

- **Power-up spawn interval.** The delay is a fresh draw on every frame,
  5000 + r·8000 ms (components/GameCanvas.tsx:170), so it is one of the
  frame's inputs rather than part of the world.
- **Power-up kind.** The thresholds are 0.33 and 0.66
  (components/GameCanvas.tsx:104-105).
- **Declared but unused fields.** types.ts:10 declares `AsteroidType` and
  types.ts:39 declares the player's `shotCount`. The canvas never sets or reads
  either, so the model's records leave both out. Nothing in the canvas drains
  the shield over time or scales with the app's level.
- **Asteroid hit points.** They are at most 3. The size is drawn below 80, so
  `floor(size / 20)` is at most 3.
- **The speed-boost timer** is not clamped at 0. It steps down by 16 while
  positive, so it can end at -8.
- **The hit scan starts from the newest projectile.** The inner loop runs from
  the last index down (components/GameCanvas.tsx:268) and stops once the
  asteroid's hit points run out, so a destroyed asteroid uses up the most
  recently fired projectiles that overlap it, and older ones stay for the
  asteroids handled after it.
- **The double splice.** After a non-fatal impact, the source still runs the
  bottom-edge test and would splice index `i` of the already-shortened list.
  The model keeps that code path as written (`Simulation.AsteroidStep`).
  `Simulation.ImpactRulesOutExit` proves that, with the ship where the frame
  puts it, an asteroid touching the ship cannot also be past the bottom edge, so
  that second splice never takes effect.

## Model

| member | source | states |
|---|---|---|
| Types.RemoveAtElements | components/GameCanvas.tsx:222-226 | `splice(i, 1)` with i in range shortens the list by one, keeps every element below i in place, shifts every element above i down by one, and removes exactly one copy of element i |
| Collision.CheckCollision | components/GameCanvas.tsx:120-127 | `checkCollision`: the boxes overlap exactly when each starts strictly before the other ends, on both axes |
| Collision.TouchingDoesNotCollide | components/GameCanvas.tsx:120-127 | the box test uses strict inequalities, so boxes that only share an edge or a corner do not collide |
| Collision.CollisionSymmetric | components/GameCanvas.tsx:120-127 | the box test gives the same answer with its arguments swapped |
| Collision.CheckRadialCollision | components/GameCanvas.tsx:129-135 | `checkRadialCollision`: the squared centre distance is below the square of p.width/2 + 0.7·target.width/2, with that minimum distance positive |
| Collision.RadialMatchesDistance | components/GameCanvas.tsx:129-135 | the square-free radial test holds exactly when the Euclidean centre distance is below p.width/2 + 0.7·target.width/2 |
| Collision.FarApartVertically | components/GameCanvas.tsx:129-135 | centres farther apart vertically than the minimum distance never collide radially, whatever their horizontal offset |
| Factories.OutlineVertexRange | components/GameCanvas.tsx:78-82 | each vertex radius is (size/2)·(0.7 + 0.6·r), so it lies in [0.35·size, 0.65·size) |
| Factories.OutlineRange | components/GameCanvas.tsx:78-82 | every vertex of the outline is numbered by its position and has its radius in [0.35·size, 0.65·size) |
| Factories.Placement | components/GameCanvas.tsx:85 | `Math.random() * (width - size)` puts the entity fully inside the canvas whenever the canvas is at least as wide as the entity |
| Factories.PointCountRange | components/GameCanvas.tsx:77 | the outline has 6 to 9 vertices |
| Factories.NewAsteroid | components/GameCanvas.tsx:75-99 | a new asteroid is square with size in [30, 80), starts at y = -2·size with no rotation, and has 6 to 9 vertices. Its hp is floor(size/20), in [1, 3], and its damage is floor(8·size), in [240, 640). vx lies in [-1, 1), the spin in [-0.05, 0.05) and vy in [3 + score/500, 5 + score/500). Its x keeps it on the canvas |
| Factories.CreateAsteroid | components/GameCanvas.tsx:75-99 | the vertex loop, one radius draw per vertex, builds exactly the asteroid `NewAsteroid` describes |
| Factories.PowerUpKind | components/GameCanvas.tsx:102-105 | SHIELD exactly when r < 0.33, WEAPON exactly when 0.33 ≤ r < 0.66, FUEL exactly when r ≥ 0.66 |
| Factories.NewPowerUp | components/GameCanvas.tsx:101-118 | the kind follows the first draw. vx = 0, vy = POWERUP_SPEED, pulse = 0, size 25, y = -2·POWERUP_SIZE, and x keeps it on the canvas |
| Simulation.PlayerStep | components/GameCanvas.tsx:141-151 | the ship ends at y = height - 110 and, when the canvas is at least as wide as the ship, at an x inside [0, width - 40]. The boost timer drops by 16 only while positive. Shield, max shield and weapon level are untouched, and the player invariant is kept |
| Simulation.EasingApproachesTarget | components/GameCanvas.tsx:141-147 | with the target inside the clamp range, the ship moves towards it without passing it. When it also starts inside the clamp range, the remaining distance is multiplied by exactly 1 - 0.3 while boosting and 1 - 0.15 otherwise |
| Simulation.SpawnInterval | components/GameCanvas.tsx:164 | the spawn interval is at least 200 ms, at most 800 ms for a non-negative score, and exactly 200 ms from score 3000 on |
| Simulation.SpawnAsteroid | components/GameCanvas.tsx:164-167 | the list grows by exactly one when more than the spawn interval has passed since the last spawn, and not otherwise. The old asteroids stay in place, the new one at the end is the factory's asteroid for this frame's draws and lastSpawnTime becomes `time`. No other field changes |
| Simulation.SpawnAsteroidKeepsRocks | components/GameCanvas.tsx:75-99 | spawning keeps every asteroid well formed, and a new asteroid has size in [30, 80), hit points in [1, 3] and damage in [240, 640) |
| Simulation.SpawnPowerUp | components/GameCanvas.tsx:170-173 | the list grows by exactly one when more than 5000 + 8000·r ms have passed since the last power-up, and not otherwise. The old power-ups stay in place, the new one at the end is the factory's power-up for this frame's draws and its timestamp becomes `time`. No other field changes |
| Simulation.Volley | components/GameCanvas.tsx:176-204 | weapon level 1, 2 or 3 fires exactly 1, 3 or 5 projectiles, and a level below 1 fires none |
| Simulation.VolleyShape | components/GameCanvas.tsx:177-204 | every shot is an active projectile of the standard size, moving up from at or below the ship's nose. The first is centred on the ship and goes straight up at speed 15, and the others come in pairs mirrored about it: opposite horizontal speeds, equal height and vertical speed |
| Simulation.Fire | components/GameCanvas.tsx:176-208 | the old projectiles always stay in place and only the projectiles and lastShotTime can change. When more than 150 ms have passed since the last shot, the new tail is the ship's volley, which for a weapon level in [1, 3] is exactly 2·level - 1 projectiles, and lastShotTime becomes `time`. Otherwise nothing changes |
| Simulation.AdvanceProjectiles | components/GameCanvas.tsx:220-227 | the projectile pass never lengthens the list |
| Simulation.AdvanceProjectilesSurvivors | components/GameCanvas.tsx:220-227 | after the pass, every projectile left is one of the old projectiles moved by its velocity, and lies at y ≥ -50 |
| Simulation.AdvanceProjectilesKeeps | components/GameCanvas.tsx:220-227 | every old projectile that lies at y ≥ -50 once moved is still there after the pass |
| Simulation.AdvanceProjectilesAppend | components/GameCanvas.tsx:220-227 | the pass keeps relative order: on two lists placed one after the other, it gives the survivors of the first followed by those of the second |
| Simulation.ApplyPickup | components/GameCanvas.tsx:236-247 | SHIELD sets shield to min(maxShield, shield + 300). WEAPON sets the level to min(3, level + 1). FUEL sets the boost to 5000 and adds exactly 100 to the score. The player invariant is kept and neither shield nor level goes down |
| Simulation.PowerUpPass | components/GameCanvas.tsx:230-257 | the power-up pass never lengthens the list |
| Simulation.PowerUpPassEffects | components/GameCanvas.tsx:230-257 | the pass leaves the ship where it is and adds only multiples of 100 to the score. It keeps the player invariant without lowering shield or level. Every power-up left is clear of the ship and not below the bottom edge, and a pass that adds no score collected no fuel |
| Simulation.KeptPowerUpsMembers | components/GameCanvas.tsx:230-257 | a moved power-up is kept exactly when it is clear of the ship and not below the bottom edge: every one kept satisfies both, and every one that satisfies both is kept |
| Simulation.PowerUpPassKeeps | components/GameCanvas.tsx:230-257 | the power-ups left after the pass are exactly the moved ones clear of the ship and not below the bottom edge, in their old order, so each such power-up is still there |
| Simulation.PowerUpPassPickups | components/GameCanvas.tsx:229-251 | the pass changes the ship and the score exactly by the pickups of the power-ups it collects (the moved ones overlapping the ship, in order). The score rises by exactly 100 per fuel collected, and the boost timer becomes 5000 if any fuel was collected and is otherwise unchanged. For a valid ship the shield becomes min(max shield, shield + 300 per shield pack) and the weapon level min(3, level + 1 per weapon pack). No other field of the ship changes |
| Simulation.ScanHits | components/GameCanvas.tsx:266-281 | a scan of the first j projectiles removes at most those j |
| Simulation.ScanHitsCount | components/GameCanvas.tsx:266-281 | each removed projectile costs exactly one hit point. The asteroid is destroyed only after at least one removal and with its hp at or below 0. Starting from hp ≥ 1, it is destroyed exactly when its hp reaches 0, and the hp never goes below 0 |
| Simulation.ScanHitsKeepsTail | components/GameCanvas.tsx:266-281 | the scan leaves the projectiles it has not reached untouched |
| Simulation.ScanHitsSurvivors | components/GameCanvas.tsx:266-281 | the projectiles left are a sub-multiset of those before the scan |
| Simulation.ScanHitsClears | components/GameCanvas.tsx:266-281 | when the asteroid survives, no scanned projectile left overlaps it |
| Simulation.ScanHitsRemovesOnlyHits | components/GameCanvas.tsx:266-281 | every projectile the scan removes overlaps the asteroid |
| Simulation.ScanHitsConsumesNewest | components/GameCanvas.tsx:266-281 | the scan from index j - 1 down stops at some m. Below m nothing changes, the window from m to j loses exactly its overlapping projectiles (one hit point each), and from j on nothing changes. A scan that destroys the asteroid stops at an overlapping projectile after using up exactly as many as the asteroid had hit points (one if it had none), so the newest overlapping projectiles go first. One that does not destroy it covers all of the first j |
| Simulation.AsteroidStep | components/GameCanvas.tsx:260-311 | one asteroid step never lengthens the asteroid list, and never shortens it below index i |
| Simulation.AsteroidStepEffects | components/GameCanvas.tsx:260-311 | one step adds 0, 10 or 50 to the score and changes the ship only by taking the asteroid's damage off the shield. It never adds projectiles and leaves the asteroids below i alone. It ends the game exactly when a hit leaves the shield at or below 0, reporting the score at that moment, and keeps every asteroid square with hit points left |
| Simulation.AsteroidPass | components/GameCanvas.tsx:260-311 | the asteroid pass never lengthens the asteroid list |
| Simulation.AsteroidPassEffects | components/GameCanvas.tsx:260-311 | the pass never lowers the score or adds projectiles. It changes the ship only in its shield, which does not rise, and it ends the game only with the shield at or below 0, reporting the final score |
| Simulation.ImpactRulesOutExit | components/GameCanvas.tsx:284-310 | an asteroid overlapping the ship radially cannot also be more than 100 units below the bottom edge |
| Simulation.AsteroidStepOutcomes | components/GameCanvas.tsx:261-310 | with the ship where the frame puts it, a step has one of four outcomes. A shot-down asteroid is removed with exactly 50 points and the ship untouched. One that hits the ship is removed, its damage comes off the shield, the score stays, and the game ends exactly when the shield is at or below 0. One past height + 100 is removed with exactly 10 points. Any other stays, moved and with its new hp. The projectiles left are always those the hit scan leaves |
| Simulation.AsteroidStepRemovesAtMostOne | components/GameCanvas.tsx:288-310 | hence one step removes at most one asteroid, and the second splice never takes effect |
| Simulation.PrepareFrame | components/GameCanvas.tsx:140-208 | the first half of a frame: the ship step, the reported gauge values catching up, the asteroid and power-up spawners and the weapon, in source order |
| Simulation.PrepareFrameKeeps | components/GameCanvas.tsx:140-208 | the first half of a frame (ship step, gauge reports, spawning, firing) keeps the world invariant and leaves the score, the max shield and the start time as they were |
| Simulation.EntityPasses | components/GameCanvas.tsx:220-311 | the second half of a frame: the projectile, power-up and asteroid passes in source order, the asteroid pass seeing the projectiles and the ship and score the earlier passes left |
| Simulation.EntityPassesKeep | components/GameCanvas.tsx:220-311 | the projectile, power-up and asteroid passes keep the world invariant, never lower the score and keep the max shield. When they end the game, the shield is at or below 0 and the report carries the final score |
| Simulation.Tick | components/GameCanvas.tsx:137-138 | a frame changes nothing and makes no callback unless the game is being played |
| Simulation.TickPreservesWellFormed | components/GameCanvas.tsx:137-312 | a frame keeps the world invariant: max shield 1000, shield at most max, weapon level in [1, 3], boost timer in (-16, 5000], every asteroid square with hp ≥ 1 and positive damage |
| Simulation.TickScoreAndShield | components/GameCanvas.tsx:137-312 | the score never goes down in a frame, and the score callback fires exactly when it went up, with the new score. A frame that calls `onGameOver` leaves the shield at or below 0 and reports the final score |
| Simulation.ResetSession | components/GameCanvas.tsx:599-623 | entering PLAYING zeroes the score, empties all three entity lists, refills the shield to 1000, sets weapon level 1 and boost 0, and restamps the spawn clocks and the start time. When a canvas exists it puts the ship's left edge at x = width/2, otherwise the ship stays where it was; y, the max shield, the shot clock and the last reported shield and weapon level are untouched, so the next frame reports the refilled shield and level 1 again whenever they differ from what was last reported. Shield 1000 and level 1 are reported. In any other state nothing changes |
| Canvas.GameCanvas.constructor | components/GameCanvas.tsx:27-58 | the refs start as the component creates them, and the world invariant holds |
| Canvas.GameCanvas.ResetSession | components/GameCanvas.tsx:599-623 | the reset effect leaves exactly the state and notices `Simulation.ResetSession` describes, and keeps the invariant |
| Canvas.GameCanvas.Update | components/GameCanvas.tsx:137-312 | the in-place frame leaves exactly the world and callbacks `Simulation.Tick` describes, and keeps the invariant |
| Canvas.GameCanvas.RunPasses | components/GameCanvas.tsx:220-311 | the three loops in order leave exactly the world and game-over report `EntityPasses` describes |
| Canvas.GameCanvas.StepPlayer | components/GameCanvas.tsx:141-151 | the in-place ship update equals `PlayerStep` |
| Canvas.GameCanvas.ReportStats | components/GameCanvas.tsx:154-161 | the shield (floored at 0) and the weapon level are reported exactly when they differ from the last reported values, and the last reported values become the current ones |
| Canvas.GameCanvas.Spawn | components/GameCanvas.tsx:164-173 | in-place spawning equals `SpawnAsteroid` then `SpawnPowerUp` |
| Canvas.GameCanvas.FireWeapons | components/GameCanvas.tsx:176-208 | in-place firing equals `Fire` |
| Canvas.GameCanvas.Shoot | components/GameCanvas.tsx:177-204 | the pushes append exactly the `Volley` for the ship's weapon level |
| Canvas.GameCanvas.MoveProjectiles | components/GameCanvas.tsx:220-227 | the reverse-index splice loop leaves exactly `AdvanceProjectiles` of the old list |
| Canvas.GameCanvas.MoveProjectileAt | components/GameCanvas.tsx:221-226 | one turn of the projectile loop moves element i by its velocity and splices it out exactly when it ends above y = -50 |
| Canvas.GameCanvas.CollectPowerUps | components/GameCanvas.tsx:230-257 | the reverse-index loop with `continue` leaves the ship, score and power-ups `PowerUpPass` describes |
| Canvas.GameCanvas.Collect | components/GameCanvas.tsx:236-247 | picking up a power-up changes the ship and the score exactly as `ApplyPickup` says for its kind |
| Canvas.GameCanvas.ShootDown | components/GameCanvas.tsx:266-281 | the inner splice loop with `break` leaves the hit points, projectiles and verdict `ScanHits` describes |
| Canvas.GameCanvas.ResolveAsteroid | components/GameCanvas.tsx:261-310 | the body of the asteroid loop for index i equals `AsteroidStep` |
| Canvas.GameCanvas.ResolveAsteroids | components/GameCanvas.tsx:260-311 | the asteroid loop with its early `return` equals `AsteroidPass` |
| HighScores.InsertAt | App.tsx:91-93 | insertion splits the list at the insertion point and puts the new entry there, keeping the rest in order |
| HighScores.InsertionPointSplits | App.tsx:91-93 | every entry before the insertion point scores at least as much as the new entry. In a descending list, every entry from it on scores lower |
| HighScores.InsertPermutes | App.tsx:91-93 | insertion adds the entry and loses nothing |
| HighScores.InsertSorted | App.tsx:91-93 | insertion into a descending list keeps it descending |
| HighScores.InsertAtEnd | App.tsx:91-93 | an entry no higher than every entry goes to the end |
| HighScores.InsertStable | App.tsx:91-93 | insertion into a descending list puts the entry after every entry of the same score |
| HighScores.SortDesc | App.tsx:91-93 | `sort((a, b) => b.score - a.score)`, as an insertion sort that inserts each entry, in order, into the sorted prefix before it |
| HighScores.SortDescIsStableSort | App.tsx:91-93 | the sort returns a descending permutation of its input that keeps the input order among equal scores, as the stable `Array.prototype.sort` does |
| HighScores.SortDescOfSorted | App.tsx:91-93 | a list that is already descending is left as it is |
| HighScores.UpdatedHighScores | App.tsx:91-94 | `[...highScores, newEntry]`, sorted by descending score, then cut to MAX_HIGH_SCORES rows |
| HighScores.UpdatedHighScoresShape | App.tsx:91-94 | the updated table is descending, has min(old length + 1, MAX_HIGH_SCORES) rows, and every row is an old row or the new entry |
| HighScores.UpdateOfSortedTable | App.tsx:91-94 | on a descending table, the update inserts the new entry after every row scoring at least as much, then truncates |
| HighScores.UpdatedHighScoresTop | App.tsx:91-97 | the first row of a non-empty updated table scores at least as much as the new entry and every old row |
| Session.LevelAfter | App.tsx:72-81 | the effect raises the level by exactly one precisely when the game is being played, a next level exists and the score has reached its threshold. Otherwise the level is unchanged, so it never passes the number of thresholds |
| Session.SettledLevelIsFixedPoint | App.tsx:72-81 | re-running the effect on each level change settles on a level the effect no longer changes. That level is within the thresholds, and every threshold passed on the way was reached by the score |
| Session.App.constructor | App.tsx:13-21 | the shell starts in MENU with score 0, level 1, final time 0, no high scores and nothing loading |
| Session.App.StartGame | App.tsx:83-88 | startGame enters PLAYING with score 0 and level 1 |
| Session.App.SetScore | App.tsx:161 | the canvas's score callback sets the score |
| Session.App.LevelUpEffect | App.tsx:72-81 | one run of the effect sets the level to `LevelAfter` and shows the level-up overlay when the level changed |
| Session.App.UpdateHighScores | App.tsx:90-98 | the table becomes the updated table. The best score follows its first row when there is one, and is then at least the final score and every old row |
| Session.App.HandleGameOver | App.tsx:100-106 | the game is over, the score and final time are the callback's arguments, the table is updated and the crash report is loading |
| Session.App.CrashReportReady | App.tsx:110 | loading ends when the crash report arrives |
| Session.App.Retry | App.tsx:355 | "Retry Mission" leaves GAME_OVER for PLAYING (score 0, level 1) only while nothing is loading, and does nothing otherwise |
| Session.App.ReturnToBase | App.tsx:356 | "Return to Base" leaves GAME_OVER for MENU and does nothing in any other state |

## Left out

- Rendering (`drawPowerUp`, `drawPlayer`, `draw`, colours, ship shape and colour props) is left out. It only reads gameplay state.
- The `requestAnimationFrame` loop, the resize and mouse/touch listeners and the thruster audio effect are left out: browser scheduling and I/O. The mouse position and the canvas size are inputs of `Update`.
- Sound (`play*`, `initAudio`, `playLevelUp`) is left out: it has no effect on gameplay state.
- The star field (`initStars`, the scroll at components/GameCanvas.tsx:211-217) is left out: it is decorative and only uses random draws.
- Asteroid vertex coordinates are left out: they need `cos` and `sin`. An outline vertex keeps its index and its radius, which fix its polar position.
- Floating-point rounding is left out: positions and times are exact reals, so IEEE 754 effects are not modelled.
- Gemini calls (mission briefing, crash report text, asset generation) are left out: they are asynchronous network calls whose results only feed UI text. `CrashReportReady` stands for the moment the awaited report resolves.
- Persistence is left out: loading the stored table on mount (App.tsx:57-68) and writing it back (App.tsx:96) use localStorage and JSON.
- The `setTimeout` that hides the level-up overlay after 2.5 s is left out: it is a timer.
- The `level` and `assets` props that App.tsx passes to the canvas are not modelled, because the canvas's props do not declare them and never read them.
- LEVEL_THRESHOLDS and MAX_HIGH_SCORES are imported by App.tsx:6-10 from `./constants`, but constants.ts defines neither, so their values are unknown: `thresholds` and `maxHighScores` are constructor parameters of `Session.App`.
- Wall-clock time for the high-score entry's date is a parameter of `UpdateHighScores`.
- Canvas.GameCanvas.Update: the shield and weapon gauges in the app shell are not modelled as state. The frame returns their callbacks as `Notices`.
- React's batching and scheduling of state updates and effects are not modelled. `SettledLevel` stands for the effect re-running until nothing changes.
