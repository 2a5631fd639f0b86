/** The game session (src/game.js): the screen state machine, level setup,
    the per-tick update and the collision pipeline that ties the entities
    together. The canvas size, the keys, the level-8 camera shake and the
    wall-clock survival bonus are inputs of a tick. */
module Session {
  import opened Geometry
  import opened Particles
  import opened Context
  import opened Platforms
  import opened Players
  import opened Enemies
  import opened Collectibles
  import opened Levels

  datatype State = Menu | Playing | GameOver | LevelComplete

  const MaxLevel: int := 3
  /** Points per remaining life when a level is completed. */
  const LifeBonus: int := 1000
  /** How far below the canvas the player may fall before it costs a life. */
  const PitDepth: real := 100.0

  /** What a level is built from: its own platform table and the draw
      streams of its challenges, its enemies and its items. */
  datatype Gen = Gen(layout: seq<Platform>, challenges: nat -> real,
                     enemyDraws: nat -> real, itemDraws: nat -> real)

  /** The outside inputs of one tick: the keys held, the canvas size, the
      camera shake offset and whether the wall-clock second is a multiple of 10. */
  datatype Frame = Frame(keys: Keys, canvasWidth: real, canvasHeight: real,
                         shake: real, bonusSecond: bool)

  datatype Game = Game(
    state: State, ctx: Ctx, currentLevel: LevelNumber, maxLevel: int,
    player: Player, level: Level, enemies: seq<Enemy>, items: seq<Collectible>)

  // ----- level setup and screen transitions -----

  /** setupLevel: the player back at the spawn point, fresh enemies and
      items, no particles. Score, coins, lives and the level stay. */
  function SetupLevel(g: Game, gen: Gen): (r: Game)
    ensures r.state == g.state && r.currentLevel == g.currentLevel && r.level == g.level
    ensures r.ctx == Ctx(g.ctx.score, g.ctx.coins, [])
    ensures r.player.x == g.level.spawnX && r.player.vx == 0.0 && r.player.vy == 0.0
    ensures !r.player.invulnerable && !r.player.big && !r.player.firePower
    ensures r.player.lives == g.player.lives
    ensures |r.enemies| >= EnemyCount(g.level.number)
    ensures forall i :: 0 <= i < |r.enemies| ==> r.enemies[i].alive
    ensures |r.items| == CoinCount(g.level.number) + PowerUpCount(g.level.number) + BonusCount(g.level.number)
    ensures forall i :: 0 <= i < |r.items| ==> !r.items[i].collected
  {
    g.(player := Reset(g.player, g.level.spawnX, g.level.spawnY),
       enemies := PopulateEnemies(g.level, gen.enemyDraws),
       items := PopulateCollectibles(g.level, gen.itemDraws),
       ctx := g.ctx.(particles := Clear()))
  }

  /** The Game constructor: the menu screen over a set-up level 1. */
  function NewGame(gen: Gen): (r: Game)
    ensures r.state == Menu && r.currentLevel == 1 && r.maxLevel == MaxLevel
    ensures r.ctx == Ctx(0, 0, []) && r.player.lives == StartLives
    ensures r.level.number == 1 && r.player.x == r.level.spawnX
  {
    var lv := NewLevel(1, gen.layout, gen.challenges);
    SetupLevel(Game(Menu, Ctx(0, 0, []), 1, MaxLevel, NewPlayer(SpawnX, SpawnY), lv, [], []), gen)
  }

  /** startGame (and restartGame, which only calls it): score, coins and
      level number back to their start, three lives, a new level 1. */
  function StartGame(g: Game, gen: Gen): (r: Game)
    ensures r.state == Playing && r.currentLevel == 1 && r.level.number == 1
    ensures r.ctx == Ctx(0, 0, []) && r.player.lives == StartLives
    ensures r.player.x == r.level.spawnX && !r.player.big && !r.player.invulnerable
    ensures r.maxLevel == g.maxLevel
  {
    var lv := NewLevel(1, gen.layout, gen.challenges);
    SetupLevel(g.(state := Playing, ctx := g.ctx.(score := 0, coins := 0), currentLevel := 1,
                  player := g.player.(lives := StartLives), level := lv), gen)
  }

  /** nextLevel: both branches of its test increment the level number, so
      the game goes on past maxLevel. Score, coins and lives carry over. */
  function NextLevel(g: Game, gen: Gen): (r: Game)
    ensures r.state == Playing && r.currentLevel == g.currentLevel + 1
    ensures r.level.number == r.currentLevel
    ensures r.ctx.score == g.ctx.score && r.ctx.coins == g.ctx.coins && r.ctx.particles == []
    ensures r.player.lives == g.player.lives && r.maxLevel == g.maxLevel
  {
    var n: LevelNumber := if g.currentLevel < g.maxLevel then g.currentLevel + 1 else g.currentLevel + 1;
    var lv := NewLevel(n, gen.layout, gen.challenges);
    SetupLevel(g.(currentLevel := n, level := lv, state := Playing), gen)
  }

  /** gameOver */
  function EndGame(g: Game): (r: Game)
    ensures r.state == GameOver && r == g.(state := GameOver)
  {
    g.(state := GameOver)
  }

  /** levelComplete: 1000 bonus points per remaining life. */
  function CompleteLevel(g: Game): (r: Game)
    ensures r.state == LevelComplete
    ensures r.ctx.score == g.ctx.score + LifeBonus * g.player.lives
    ensures r == g.(state := LevelComplete, ctx := r.ctx) && r.ctx.coins == g.ctx.coins
  {
    g.(state := LevelComplete, ctx := g.ctx.Award(g.player.lives * LifeBonus))
  }

  // ----- collisions -----

  /** The player and the platform list after the player met each platform. */
  datatype Landing = Landing(player: Player, platforms: seq<Platform>)

  /** Some platform in the list carries the player. */
  predicate SomeCarry(plats: seq<Platform>)
  {
    exists i :: 0 <= i < |plats| && plats[i].playerOn
  }

  lemma SomeCarryCons(x: Platform, rest: seq<Platform>)
    requires x.playerOn || SomeCarry(rest)
    ensures SomeCarry([x] + rest)
  {
    var all := [x] + rest;
    if x.playerOn {
      assert all[0].playerOn;
    } else {
      var j :| 0 <= j < |rest| && rest[j].playerOn;
      assert all[j + 1].playerOn;
    }
  }

  /** The forEach over the platforms: the player meets each platform as the
      earlier ones left it, and each platform's playerOn flag is rewritten. */
  function PlayerAgainstPlatforms(p: Player, plats: seq<Platform>): (r: Landing)
    ensures |r.platforms| == |plats|
    ensures forall i :: 0 <= i < |plats| ==>
      r.platforms[i] == plats[i].(playerOn := r.platforms[i].playerOn)
    ensures r.player == p.(x := r.player.x, y := r.player.y, vx := r.player.vx,
                           vy := r.player.vy, onGround := r.player.onGround)
    ensures r.player.onGround ==> p.onGround || SomeCarry(r.platforms)
    decreases |plats|
  {
    if |plats| == 0 then Landing(p, [])
    else
      var c := Players.HandlePlatformCollision(p, plats[0]);
      var rest := PlayerAgainstPlatforms(c.player, plats[1..]);
      var out := [c.platform] + rest.platforms;
      assert forall i :: 1 <= i < |plats| ==> out[i] == rest.platforms[i - 1] && plats[i] == plats[1..][i - 1];
      if rest.player.onGround && !p.onGround then
        assert c.player.onGround ==> c.platform.playerOn;
        SomeCarryCons(c.platform, rest.platforms);
        Landing(rest.player, out)
      else
        Landing(rest.player, out)
  }

  /** keepPlayerInBounds: clamp to the level's width, stopping horizontal
      motion at an edge; a player fallen 100 below the canvas takes damage,
      then either the game ends or the player respawns at the spawn point. */
  function KeepPlayerInBounds(g: Game, canvasHeight: real): (r: Game)
    ensures r == g.(player := r.player, state := r.state)
    ensures r.state == g.state || r.state == GameOver
    ensures g.player.lives - 1 <= r.player.lives <= g.player.lives
    ensures g.player.invulnerable ==> r.player.lives == g.player.lives && r.state == g.state
    ensures g.player.y <= canvasHeight + PitDepth ==>
      && r.state == g.state && r.player.lives == g.player.lives
      && r.player == g.player.(x := r.player.x, vx := r.player.vx)
      && (g.player.width <= g.level.width ==> 0.0 <= r.player.x <= g.level.width - g.player.width)
      && (0.0 <= g.player.x <= g.level.width - g.player.width ==> r.player == g.player)
      && (g.player.x < 0.0 || g.player.x > g.level.width - g.player.width ==> r.player.vx == 0.0)
    ensures g.player.y > canvasHeight + PitDepth ==>
      var over := !g.player.invulnerable && !g.player.big && g.player.lives <= 1;
      && (over ==> r.state == GameOver && r.player.lives <= 0)
      && (!over ==> r.state == g.state && r.player.x == g.level.spawnX &&
                    !r.player.invulnerable && !r.player.big)
  {
    var p := g.player;
    var p1 := if p.x < 0.0 then p.(x := 0.0, vx := 0.0) else p;
    var p2 := if p1.x > g.level.width - p1.width then p1.(x := g.level.width - p1.width, vx := 0.0) else p1;
    if p2.y > canvasHeight + PitDepth then
      var d := TakeDamage(p2);
      if d.gameOver then g.(player := d.player, state := GameOver)
      else g.(player := Reset(d.player, g.level.spawnX, g.level.spawnY))
    else g.(player := p2)
  }

  /** The collectible sweep followed by the bounds check: what remains of
      handleCollisions when no enemy ended the game. */
  function CollectAndBound(g: Game, canvasHeight: real): (r: Game)
    ensures r.enemies == g.enemies && r.level == g.level && r.currentLevel == g.currentLevel
    ensures r.state == g.state || r.state == GameOver
    ensures g.player.lives - 1 <= r.player.lives <= g.player.lives
    ensures g.player.invulnerable ==> r.player.lives == g.player.lives && r.state == g.state
    ensures r.ctx.score >= g.ctx.score && r.ctx.coins >= g.ctx.coins
    ensures g.state != GameOver && r.state == GameOver ==> r.player.lives <= 0
  {
    var haul := Collectibles.CheckPlayerCollisions(g.items, g.player, g.ctx);
    PointsNeverNegative(g.items, haul.items);
    KeepPlayerInBounds(g.(items := haul.items, player := haul.player, ctx := haul.ctx), canvasHeight)
  }

  /** handleCollisions: player against platforms, enemies against
      platforms, the enemy sweep (whose hurt costs damage, and a game over
      ends the method at once), then items and bounds. */
  function HandleCollisions(g: Game, canvasHeight: real): (r: Game)
    ensures r.currentLevel == g.currentLevel && r.maxLevel == g.maxLevel
    ensures r.state == g.state || r.state == GameOver
    ensures |r.level.platforms| == |g.level.platforms|
    ensures forall i :: 0 <= i < |g.level.platforms| ==>
      r.level.platforms[i] == g.level.platforms[i].(playerOn := r.level.platforms[i].playerOn)
    ensures r.level == g.level.(platforms := r.level.platforms)
    ensures |r.enemies| == |g.enemies|
    ensures g.player.lives - 1 <= r.player.lives <= g.player.lives
    ensures r.ctx.score >= g.ctx.score && r.ctx.coins >= g.ctx.coins
    ensures g.state != GameOver && r.state == GameOver ==> r.player.lives <= 0
  {
    var landing := PlayerAgainstPlatforms(g.player, g.level.platforms);
    var es := Enemies.HandlePlatformCollisions(g.enemies, landing.platforms);
    var sweep := Enemies.CheckPlayerCollisions(es, landing.player, g.ctx);
    var g1 := g.(player := sweep.player, level := g.level.(platforms := landing.platforms),
                 enemies := sweep.enemies, ctx := sweep.ctx);
    if sweep.hurt then
      var d := TakeDamage(sweep.player);
      if d.gameOver then g1.(player := d.player, state := GameOver)
      else
        assert d.player.invulnerable;
        CollectAndBound(g1.(player := d.player), canvasHeight)
    else CollectAndBound(g1, canvasHeight)
  }

  /** A game over from an enemy skips the item sweep and the bounds check:
      the items are as they were and the player is not clamped. */
  lemma EnemyGameOverSkipsTheRest(g: Game, canvasHeight: real)
    ensures var landing := PlayerAgainstPlatforms(g.player, g.level.platforms);
      var es := Enemies.HandlePlatformCollisions(g.enemies, landing.platforms);
      var sweep := Enemies.CheckPlayerCollisions(es, landing.player, g.ctx);
      var r := HandleCollisions(g, canvasHeight);
      sweep.hurt && TakeDamage(sweep.player).gameOver ==>
        r.state == GameOver && r.items == g.items && r.player.x == landing.player.x &&
        r.player.lives <= 0
  {
  }

  // ----- the tick -----

  /** checkGameConditions: completing the level when the player is at the
      goal (whatever the state the tick has reached so far), then one
      survival point when the wall-clock second is a multiple of 10. */
  function CheckGameConditions(g: Game, bonusSecond: bool): (r: Game)
    ensures IsPlayerAtGoal(g.level, g.player.x) ==> r.state == LevelComplete
    ensures !IsPlayerAtGoal(g.level, g.player.x) ==> r.state == g.state
    ensures r.ctx.score == g.ctx.score
                           + (if IsPlayerAtGoal(g.level, g.player.x) then LifeBonus * g.player.lives else 0)
                           + (if bonusSecond then 1 else 0)
    ensures r == g.(state := r.state, ctx := r.ctx) && r.ctx.coins == g.ctx.coins
  {
    var g1 := if IsPlayerAtGoal(g.level, g.player.x) then CompleteLevel(g) else g;
    if bonusSecond then g1.(ctx := g1.ctx.Award(1)) else g1
  }

  /** The tick up to the collisions: entity updates, particle ageing, then
      handleCollisions. The level's own update is not part of it. */
  function Advance(g: Game, f: Frame): (r: Game)
    ensures r.currentLevel == g.currentLevel
    ensures r.level == g.level.(platforms := r.level.platforms)
    ensures |r.level.platforms| == |g.level.platforms|
    ensures forall i :: 0 <= i < |g.level.platforms| ==>
      r.level.platforms[i] == g.level.platforms[i].(playerOn := r.level.platforms[i].playerOn)
    ensures r.state == g.state || r.state == GameOver
    ensures g.player.lives - 1 <= r.player.lives <= g.player.lives
    ensures r.ctx.score >= g.ctx.score && r.ctx.coins >= g.ctx.coins
    ensures g.state != GameOver && r.state == GameOver ==> r.player.lives <= 0
  {
    var (p, c) := Players.Update(g.player, f.keys, g.ctx);
    var moved := g.(player := p,
                    ctx := c.(particles := Survivors(c.particles)),
                    enemies := Enemies.UpdateAll(g.enemies, f.canvasHeight),
                    items := Collectibles.UpdateAll(g.items));
    HandleCollisions(moved, f.canvasHeight)
  }

  /** Game.update: nothing unless playing; otherwise advance, move the
      camera and check the goal and the survival bonus. */
  function Update(g: Game, f: Frame): (r: Game)
    ensures g.state != Playing ==> r == g
    // the goal test runs after a game over, so reaching it overrides the loss
    ensures g.state == Playing && IsPlayerAtGoal(g.level, r.player.x) ==> r.state == LevelComplete
    ensures g.state == Playing && !IsPlayerAtGoal(g.level, r.player.x) ==>
      r.state == Playing || r.state == GameOver
    ensures g.state == Playing && r.state == GameOver ==> r.player.lives <= 0
    // at most one life is lost per tick, since the first hit starts the grace
    // period that shields the player from a fall; none is gained, a 1-up has no effect
    ensures g.player.lives - 1 <= r.player.lives <= g.player.lives
    ensures g.player.lives >= 1 ==> r.ctx.score >= g.ctx.score
    ensures r.ctx.coins >= g.ctx.coins
    // the level's own update is never called: platforms do not move, count
    // down or vanish, and only their playerOn flags change
    ensures |r.level.platforms| == |g.level.platforms|
    ensures forall i :: 0 <= i < |g.level.platforms| ==>
      r.level.platforms[i] == g.level.platforms[i].(playerOn := r.level.platforms[i].playerOn)
  {
    if g.state != Playing then g
    else
      var a := Advance(g, f);
      var g2 := a.(level := UpdateCamera(a.level, a.player.x, f.canvasWidth, f.shake));
      CheckGameConditions(g2, f.bonusSecond)
  }
}
