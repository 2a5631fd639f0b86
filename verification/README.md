# A Dafny model of a browser platformer's simulation core

This project models the per-tick simulation of a 2D side-scrolling platformer in the style of Super Mario, written in JavaScript for the browser canvas. It covers the player's physics and power-up state machine. It covers the axis-aligned platform collision resolvers of the player and the enemies, and the stomp-or-hurt rule between them. It covers items and their effects, and the arithmetic of a level: its size, theme, ground row, challenges and population counts. It covers the camera and the goal test, and the session state machine (menu, playing, game over, level complete) with its fixed collision order.

Everything is a pure function over immutable records:

- Coordinates are `real`, so the source's constants (0.5, 0.8, 12, 15, -8, ...) and its exact-equality snaps are reproduced exactly.
- The global `game` object that entity code mutates becomes an explicit context record `Context.Ctx` (score, coins, particle list). Every entity operation takes it in and returns it.
- Held keys are booleans (`Players.Keys`). Canvas width and height are parameters.
- Every `Math.random()` is a draw from a stream `draw: nat -> real`; the k-th value is the k-th draw the operation makes. `Geometry.RandomIn` and `Geometry.RandomInt` turn a draw into the source's `Utils.random` / `Utils.randomInt` results.
- The hand-authored platform tables of each level come in as a `layout` parameter.
- The wall clock appears twice: as the camera-shake offset from level 8 on, and as a boolean "the current second is a multiple of 10" for the survival bonus. Both are inputs of a tick (`Session.Frame`).

Modules follow the source files:

- `Geometry`: src/utils.js
- `Particles`: src/particles.js
- `Context`: the shared session state
- `Platforms`: the Platform class and the per-platform step of `Level.update`
- `Players`: src/player.js
- `Enemies`: src/enemies.js
- `Collectibles`: src/collectibles.js
- `Levels`: src/level.js
- `Session`: src/game.js
- `Seqs`: order-preserving filtering, used by the two managers

Behaviours of the code that the model keeps as written, and that the contracts make explicit:

- The resolver's tie order. When several penetration depths equal the minimum, the code tries top (falling), bottom (rising), left (moving right) and right (moving left), in that order, each only if that side's depth is the minimum. The model uses the same order.
- The enemy resolver has no ceiling case (`Enemies.NoCeiling`).
- Neither resolver reads `visible`, so an invisible platform is still solid (`Players.InvisiblePlatformsAreSolid`).
- `Game.update` never calls `Level.update`, so in play no platform ever moves or counts down (`Session.Update`). `Levels.Update` models `Level.update` as a standalone operation.
- The stomp test is `player bottom - 10 < enemy top` (`Enemies.IsStomp`). A stomp therefore lets the player's feet be up to 10 below the enemy's top, not 10 above it.
- A stomp needs a falling player and the bounce sets vy to -8, so one enemy sweep defeats at most one enemy, however many the player overlaps (`Enemies.SweepDefeatsAtMostOne`).
- `addMovingPlatforms` (src/level.js:369-382) creates movers with speed 1 and range 200, and these stay within startX ± 200 (`Platforms.MoverStaysInRange`). The movers `generateRandomLevel` makes (src/level.js:410-415) draw a speed in [0.5, 2] and a range in [100, 300]; the lemma does not cover them, and with such speeds the code can overshoot the range by up to one step (`Platforms.UpdateKeepsSwing` bounds the overshoot by the speed).
- Fire flowers and 1-ups are collected with no effect.
- A fall while invulnerable respawns the player without costing a life.
- At most one life is lost per tick, because the first hit's grace period shields the player from a fall in the same tick.
- A tick that loses the last life while the player is past the goal ends in "level complete" with zero lives.
- `nextLevel` increments the level whatever `maxLevel` is.

## Model

| member | source | states |
|---|---|---|
| Geometry.Penetration | src/player.js:136-141 | the strict four-comparison AABB overlap holds exactly when all four penetration depths are positive |
| Geometry.OverlapsSymmetric | src/utils.js:15-20 | overlap is symmetric in its two boxes |
| Geometry.EdgeContactIsNoOverlap | src/utils.js:16-19 | boxes that only share an edge, horizontally or vertically, do not overlap |
| Geometry.OverlapsIffSharedInterior | src/utils.js:15-20 | some point lies strictly inside both boxes exactly when they overlap (for boxes of positive size; the converse needs no size condition) |
| Geometry.NonEmptyBoxOverlapsItself | src/utils.js:15-20 | a box of positive width and height overlaps itself |
| Geometry.Clamp | src/utils.js:3-5 | with lo <= hi the result lies in [lo, hi]; a value already in range is returned unchanged; above hi gives hi, below lo gives lo |
| Geometry.ClampIdempotent | src/utils.js:3-5 | clamping twice is clamping once |
| Geometry.Lerp | src/utils.js:7-9 | factor 0 gives start, factor 1 gives end, and a factor in [0, 1] gives a value between start and end |
| Geometry.InRectIffClampFixes | src/utils.js:22-25 | for a box of non-negative size, a point is contained exactly when clamping it to the box leaves it unchanged |
| Geometry.InsideIsInRect | src/utils.js:22-25 | a point strictly inside a box is contained in it, so containment is the closed box |
| Geometry.CornersInRect | src/utils.js:22-25 | containment is edge-inclusive: all four corners of a box are inside it |
| Geometry.Sign | src/utils.js:39-41 | the result is exactly one of -1, 0, 1 and agrees with the sign of the argument, in both directions |
| Geometry.RandomIn | src/utils.js:27-29 | a draw in [0, 1) gives a value in [lo, hi], strictly below hi when lo < hi |
| Geometry.RandomInt | src/utils.js:31-33 | a draw in [0, 1) gives an integer in [lo, hi] when lo <= hi |
| Geometry.Least | src/player.js:143 | the least depth is at most each of the four and equal to one of them |
| Particles.Tick | src/particles.js:15-23 | a particle update takes exactly one tick of life |
| Particles.Survivors | src/particles.js:85-92 | after a system update every remaining particle has life > 0 and the list is no longer than before |
| Particles.SurvivorsAppend | src/particles.js:85-92 | the update distributes over concatenation, so survivors keep their relative order |
| Particles.DeathIsFinal | src/particles.js:19-37 | a dead particle stays dead after a tick, and a tick kills exactly the particles with at most one tick of life |
| Particles.SurvivorsOfOne | src/particles.js:35-37 | one particle survives an update exactly when it had more than one tick left |
| Particles.UpdateSystem | src/particles.js:85-92 | the backwards splice loop computes exactly the survivors of one tick |
| Particles.Lifetime | src/particles.js:19 | a particle created with life L is present with L - k left after k < L updates and gone after the L-th |
| Particles.AddParticle | src/particles.js:45-47 | exactly one particle with the given life is appended and the others stay |
| Particles.Emit | src/particles.js:49-83 | an effect appends its fixed number of particles, all with the effect's life, after the existing ones |
| Particles.EffectSizes | src/particles.js:49-83 | coin 8 of life 30, defeat 12 of life 40, jump 5 of life 20, power-up 15 of life 50 |
| Particles.Clear | src/particles.js:98-100 | clearing leaves no particle |
| Context.Award | src/enemies.js:102 | awarding points changes the score by exactly that much and nothing else |
| Context.Burst | src/collectibles.js:55 | an effect adds its particles and leaves score and coins alone |
| Platforms.NewPlatform | src/level.js:2-9 | a new platform has the given box and kind and is fixed, not disappearing, with timer 0, visible and not stood on |
| Platforms.FixedPlatformStaysPut | src/level.js:527-548 | a fixed platform that does not disappear, such as a new one, is unchanged by any number of updates |
| Platforms.Update | src/level.js:527-548 | a moving platform advances by speed in its direction, unset counting as 1, and keeps or reverses its direction, reversing exactly when the new x is at or past either end of the range; the timer counts up only while disappearing and stood on; the platform turns invisible exactly when the new timer exceeds 60, and never becomes visible again |
| Platforms.UpdateKeepsSwing | src/level.js:529-539 | the offset from startX stays strictly within range + speed, on the correct side of the turning point for the heading |
| Platforms.MoverStaysInRange | src/level.js:529-539 | a platform with speed 1 and range 200 stays within [startX - 200, startX + 200] on every tick |
| Platforms.StepwiseRange | src/level.js:533-537 | with whole unit steps the offset from startX never leaves [-200, 200] |
| Platforms.VanishedStaysVanished | src/level.js:541-546 | once invisible, a platform stays invisible for any number of ticks |
| Platforms.StandingCountsUp | src/level.js:541-546 | standing on a fresh disappearing platform for n ticks leaves timer n, and it stays visible exactly while n <= 60 |
| Platforms.CountUpFrom | src/level.js:541-546 | from timer t, n more ticks of standing give t + n, and visibility is lost exactly past 60 |
| Players.NewPlayer | src/player.js:3-25 | a new player is 32x32 at the given point, at rest, airborne, facing right, small, with three lives |
| Players.HandleInput | src/player.js:36-60 | left wins over right; right alone gives +4; neither applies friction 0.8 and keeps the direction; a jump only from the ground, with vy -12 and a jump-dust effect; without a jump the context is unchanged |
| Players.UpdatePhysics | src/player.js:68-81 | airborne vy becomes min(vy + 0.5, 15), grounded vy is kept; x and y move by the velocity and ground contact is cleared |
| Players.UpdateInvulnerability | src/player.js:95-102 | while invulnerable the counter drops by one and the flag clears on the tick it reaches zero |
| Players.UpdatePowerUp | src/player.js:104-111 | a big player's positive timer counts down and the player shrinks when it reaches zero |
| Players.UpdateFirePower | src/player.js:113-120 | the fire timer counts down while positive and the power clears when it reaches zero |
| Players.Update | src/player.js:27-34 | a tick of the player keeps lives, score and coins and leaves it airborne until a platform lands it |
| Players.Resolve | src/player.js:135-165 | the correction reads only the two boxes: without overlap the player is untouched; it lands exactly on a falling overlap whose least depth is the top, then sits on the box with vy 0 and ground contact; only position, velocity and ground contact can change |
| Players.HandlePlatformCollision | src/player.js:122-167 | playerOn is cleared and set only by a landing; without overlap nothing changes; a landing happens exactly for a falling overlap whose least depth is the top, and puts the feet on the platform with vy 0 and ground contact |
| Players.ResolveSeparates | src/player.js:135-165 | a correction happens only on an overlap and leaves the player touching but not overlapping the box |
| Players.ResolveMovesByLeast | src/player.js:137-163 | a correction moves the player along one axis by exactly the least of the four depths |
| Players.ResolutionSeparates | src/player.js:122-167 | every correction happens on an overlap, moves the player by exactly the least depth along one axis, and leaves it touching but not overlapping |
| Players.CeilingBump | src/player.js:152-155 | a head bump happens exactly when the landing guard fails, the least depth is from below and the player rises; it puts the head at the underside with vy 0 |
| Players.WallStops | src/player.js:156-163 | walls are tried after both vertical sides, left before right, each under its velocity guard; a wall stop snaps to the wall and zeroes vx |
| Players.UnguardedOverlapStays | src/player.js:145-166 | an overlap whose least side's velocity guard fails is left uncorrected |
| Players.InvisiblePlatformsAreSolid | src/player.js:122-167 | visibility plays no part in the player's resolver |
| Players.TakeDamage | src/player.js:169-182 | invulnerable: no change and no game over; big: shrinks and keeps its lives; small: loses exactly one life; either way 120 ticks of grace; game over exactly when a small player's lives reach zero; nothing else about the player changes |
| Players.MakeInvulnerable | src/player.js:184-187 | invulnerable with a 120-tick counter, nothing else changed |
| Players.Grow | src/player.js:189-198 | a small player becomes big, 48 high and 16 higher up (feet in place from height 32), with an 1800-tick timer and a power-up burst, nothing else changed; a big one is unchanged |
| Players.GainFirePower | src/player.js:200-205 | fire power for 1800 ticks and a power-up burst |
| Players.Shrink | src/player.js:207-213 | a big player becomes small, 32 high and 16 lower; a small one is unchanged |
| Players.ShrinkUndoesGrow | src/player.js:189-213 | shrinking after growing restores position and height; only the power-up timer remains |
| Players.Reset | src/player.js:270-281 | position set, at rest, airborne, facing right, vulnerable, small, no fire; lives and both power timers untouched; a big player ends 16 lower |
| Players.GraceLasts | src/player.js:95-102 | with t ticks of grace left, the player is still invulnerable after k < t ticks and vulnerable after exactly t |
| Players.GraceIs120Ticks | src/player.js:95-102 | after being hit, 119 ticks leave the player invulnerable and the 120th ends it |
| Enemies.NewEnemy | src/enemies.js:3-17 | a new enemy is alive, 24x24, walking left at speed 1, airborne |
| Enemies.UpdatePhysics | src/enemies.js:27-39 | gravity 0.5 while airborne with no speed cap; x and y move by the velocity and ground contact is cleared |
| Enemies.CheckWorldBounds | src/enemies.js:49-54 | the enemy stays alive exactly when it was alive and not more than 100 below the canvas |
| Enemies.Update | src/enemies.js:19-25 | a dead enemy is unchanged; a live one moves and dies exactly when it falls past the margin |
| Enemies.HandlePlatformCollision | src/enemies.js:56-92 | without overlap nothing changes; a falling top contact lands it with vy 0; the walk speed is preserved and only its sign can flip; the enemy never moves down |
| Enemies.WallTurn | src/enemies.js:81-91 | contact from the platform's left snaps to the wall and turns left; from its right snaps and turns right |
| Enemies.NoCeiling | src/enemies.js:56-92 | a rising enemy whose least depth is strictly from below stays inside the platform uncorrected |
| Enemies.EnemyResolutionSeparates | src/enemies.js:56-92 | every enemy correction leaves it touching but not overlapping the platform |
| Enemies.BounceEndsStomping | src/enemies.js:99-102 | a stomp needs a falling player, and after the -8 bounce no enemy can be stomped |
| Enemies.Defeat | src/enemies.js:113-116 | the enemy dies and a defeat burst is emitted |
| Enemies.CheckPlayerCollision | src/enemies.js:94-111 | dead enemy, invulnerable player or no overlap: nothing; a stomp kills the enemy, bounces the player to vy -8 and scores 100; exactly the other overlaps hurt, changing nothing |
| Enemies.UpdateAll | src/enemies.js:211-219 | the list becomes exactly the enemies alive at entry, in order, each updated |
| Enemies.AgainstPlatforms | src/enemies.js:221-227 | an enemy meeting every platform keeps its kind, life, size and walk speed and never moves down |
| Enemies.HandlePlatformCollisions | src/enemies.js:221-227 | every enemy meets every platform, and the list keeps its length and order |
| Enemies.CheckPlayerCollisions | src/enemies.js:229-231 | each enemy is unchanged or killed; score rises by 100 per kill; only the player's vy changes (to -8 after a kill); a hurt means the sweep stopped at a hurting enemy and left it and all later ones untouched; an invulnerable player changes nothing |
| Enemies.SweepWithoutContact | src/enemies.js:229-231 | when the player touches no live enemy, the sweep changes nothing and reports no hurt |
| Enemies.SweepHurtFirst | src/enemies.js:229-231 | when the first live enemy touched is not stomped, the sweep stops there: hurt reported, nothing changed |
| Enemies.SweepStompFirst | src/enemies.js:229-231 | when the first live enemy touched is stomped, exactly that enemy dies, the player bounces to vy -8, the score rises by 100 with one defeat burst, and a hurt is reported exactly when a later live enemy is touched |
| Enemies.SweepWhileNotFalling | src/enemies.js:229-231 | a player that is not falling changes nothing in the sweep and is hurt exactly when it touches some live enemy |
| Enemies.SweepDefeatsAtMostOne | src/enemies.js:229-231 | one sweep defeats at most one enemy |
| Collectibles.NewCollectible | src/collectibles.js:3-15 | a new item is 20x20 at its point and not collected |
| Collectibles.Collect | src/collectibles.js:47-67 | marks collected; coin: +1 coin, +200 and a burst; mushroom: grow and +1000; star: 600 ticks of invulnerability and +1000; fire flower and 1-up: nothing else |
| Collectibles.CheckPlayerCollision | src/collectibles.js:37-45 | an item is taken exactly when it was not collected and overlaps the player; otherwise nothing changes |
| Collectibles.UpdateAll | src/collectibles.js:171-176 | no collected item remains and every uncollected one does |
| Collectibles.PurgeSplits | src/collectibles.js:171-176 | the purge distributes over concatenation, so the kept items keep their order and multiplicity |
| Collectibles.PurgeOne | src/collectibles.js:171-176 | a single item is dropped exactly when it is collected |
| Collectibles.PurgeKeepsPending | src/collectibles.js:171-176 | with nothing collected, the list is unchanged |
| Collectibles.PurgeIdempotent | src/collectibles.js:171-176 | purging twice is purging once |
| Collectibles.PointsNeverNegative | src/collectibles.js:47-67 | no item takes points away |
| Collectibles.CheckPlayerCollisions | src/collectibles.js:178-182 | every item is visited: each stays or becomes newly collected; coins rise by the new coins and score by their points; lives, x and invulnerability are kept |
| Collectibles.SweepTakesEveryOverlap | src/collectibles.js:178-182 | without mushrooms, an item ends collected exactly when it was collected or overlaps the player, so several can be taken in one call |
| Levels.LevelWidth | src/level.js:120 | level 1 is 3600 wide; every width is a multiple of 400 and at least 3600 |
| Levels.LevelWidthStep | src/level.js:120 | each level is 400 wider than the one before |
| Levels.ThemeOf | src/level.js:129-132 | level n is grassland exactly when n = 1 mod 8, sky when n = 4, ice when n = 6 and space when n = 0 mod 8 |
| Levels.ThemeRepeatsEvery8 | src/level.js:129-132 | levels n and n + 8 share a theme; sky and ice are positions 4 and 6 of the cycle |
| Levels.TileCount | src/level.js:137-140 | the ground loop makes the least number of 64-wide tiles that covers the width |
| Levels.GroundRow | src/level.js:137-140 | tile i is a 64x64 ground tile at x = 64i resting on the bottom of the level |
| Levels.BuildGroundRow | src/level.js:137-140 | the ground loop, stepping x by 64 while x < width, builds exactly the ground row |
| Levels.Mover | src/level.js:369-382 | a mover is a 96x32 cloud moving at speed 1 over range 200 around its own start x |
| Levels.MovingPlatforms | src/level.js:369-382 | min(3, n/2) fresh movers, within [500, width - 500] and [200, 400] when the draws are in [0, 1) |
| Levels.MarkDisappearing | src/level.js:384-392 | only clouds can become disappearing, with a zero timer; nothing else changes |
| Levels.Challenges | src/level.js:347-367 | no movers below level 5 and min(3, n/2) from level 5; no disappearing platforms below level 7 |
| Levels.NewLevel | src/level.js:116-140 | width 3200 + 400n, height 576, spawn (100, 400), goal 200 before the end, the theme of n; wind 0.2 only for sky, slippery only for ice; levels up to 8 start with the full ground row |
| Levels.GroundEnemies | src/level.js:455-472 | min(8 + 2n, 25) + 2 floor(n/3) enemies, 120 above the bottom; goombas only below level 3, no spinies below level 5 |
| Levels.Flyers | src/level.js:474-482 | the flying enemies are all paratroopas |
| Levels.PopulateEnemies | src/level.js:448-483 | the list is replaced by the ground enemies followed by floor(n/2) paratroopas on sky levels from 6 |
| Levels.Scatter | src/level.js:489-495 | a run of new uncollected items of one kind |
| Levels.PowerUps | src/level.js:498-514 | max(2, n/2 + 1) power-ups: mushrooms below level 4, otherwise mushroom, fire flower or star |
| Levels.PopulateCollectibles | src/level.js:485-525 | the list is replaced by 25 + 6n coins, then the power-ups, then floor(n/3) 1-ups from level 5 |
| Levels.PopulationCounts | src/level.js:452-518 | the counts spelled out per range of n; paratroopas appear only on sky levels from 12 |
| Levels.Update | src/level.js:527-548 | every platform takes its own step and nothing else in the level changes |
| Levels.GoalNearLevelEnd | src/level.js:565-567 | in a new level the player is at the goal exactly when x >= width - 200, and moving right never leaves it |
| Levels.UpdateCamera | src/level.js:550-563 | camera y is 0; camera x lies in [0, width - canvas] (shifted by the shake from level 8); when both ends are in range it moves a tenth of the way toward the target |
| Session.SetupLevel | src/game.js:43-53 | the player is back at the spawn point, small, vulnerable and at rest with its lives; enemies all alive, items all uncollected, no particles; score and coins kept |
| Session.NewGame | src/game.js:3-27 | the menu over level 1, score and coins 0, three lives |
| Session.StartGame | src/game.js:55-69 | playing, score 0, coins 0, level 1, three lives, at the spawn point |
| Session.NextLevel | src/game.js:71-84 | the level number rises by exactly 1 whatever maxLevel is; playing; score, coins and lives carry over |
| Session.EndGame | src/game.js:90-95 | the state becomes game over and nothing else changes |
| Session.CompleteLevel | src/game.js:97-103 | the state becomes level complete and the score rises by exactly lives x 1000 |
| Session.PlayerAgainstPlatforms | src/game.js:135-137 | the player meets every platform in order; platforms change only in playerOn; ground contact comes only from a landing |
| Session.KeepPlayerInBounds | src/game.js:158-182 | x is clamped to [0, width - player width] with vx zeroed when a clamp fires; a fall past 100 below the canvas costs damage, then game over for a small vulnerable player on the last life, otherwise a respawn at the spawn point, with no life lost when invulnerable |
| Session.CollectAndBound | src/game.js:151-155 | the item sweep then the bounds check: at most one life lost, score and coins never drop |
| Session.HandleCollisions | src/game.js:133-156 | the collision order, with an enemy game over ending it at once; at most one life lost; platforms change only in playerOn; score and coins never drop |
| Session.EnemyGameOverSkipsTheRest | src/game.js:143-148 | a game over from an enemy leaves the items untouched and the player unclamped |
| Session.CheckGameConditions | src/game.js:184-194 | at the goal the level is completed whatever the state; the score rises by the life bonus at the goal plus 1 on a bonus second |
| Session.Advance | src/game.js:114-121 | entity updates and collisions: the state stays or becomes game over, at most one life is lost |
| Session.Update | src/game.js:111-131 | nothing happens unless playing; a tick that ends at the goal is level complete even after a game over; otherwise the game stays playing or is over, and then no lives are left; at most one life lost and none gained; score (from at least one life) and coins never drop; platforms never move or vanish |

## Left out

- Drawing: every `draw*` method, the themed backgrounds and the goal flag. They are presentation only.
- DOM and UI: element lookups, event listeners, `hideAllScreens`, `updateUI`, and the text written by `gameOver` and `levelComplete`. They do not affect the simulation state.
- `run`, `requestAnimationFrame` and src/main.js: loop plumbing. `Session.Update` is one iteration.
- `InputManager` and `SoundManager`: browser events and sound. Keys are `Players.Keys`, and sound calls are dropped.
- Random placement and layout tables. `generateLevel1..8` are data and come in as `layout`. `generateRandomLevel` and `addChallengeGaps` for levels 9 and up are replaced by a `layout` parameter standing for the whole list they leave, because they need a random source and are data.
- Wall-clock effects: the camera shake is the parameter `shake`, and the survival bonus is the parameter `bonusSecond`. No clock is modelled.
- Trigonometry and square roots: the collectible float, particle positions, velocities and fade, `Utils.distance` and `easeInOutQuad`. A particle keeps only its life, and an item stays at its placed y.
- Animation frame counters and the `shootFireball` stub: cosmetic, or a log-only placeholder.
- JavaScript number semantics: doubles are exact reals here, so rounding in sums such as 0.8-friction decay is not modelled. Level numbers are at least 1, so the theme index never meets a negative `%`.
- `EnemyManager.addEnemy`, `clear` and `getCount`, and their `CollectibleManager` twins: appends, an empty list and a length. They appear inside `Levels.PopulateEnemies` and `Levels.PopulateCollectibles`, which build the whole list.
- `Platform` fields the source leaves undefined (`moving`, `moveDirection`, `visible`, `playerOn`). They are given as `Fixed`, `dir` 0, `true` and `false`, which read the same way in every test the source makes.
- `windForce` and `slippery` are recorded but no code reads them; an unset `windForce` is 0.
- Platforms.MoverStaysInRange: proved only for speed 1 and range 200, the values `addMovingPlatforms` uses (src/level.js:369-382). Movers from `generateRandomLevel` (src/level.js:410-415) have speed in [0.5, 2] and range in [100, 300]; they are not covered, and with such speeds the source can overshoot the range by up to one step.
- Collectibles.SweepTakesEveryOverlap: stated only for lists without mushrooms, since a mushroom grows the player's box mid-sweep.
- Levels.PopulateEnemies: the positions drawn are not bounded in its contract, only the y of ground enemies and the kinds.
