/** Levels (src/level.js): the arithmetic on the level number (size, goal,
    theme, ground tiling, how many enemies and items), the level challenges
    (moving and disappearing platforms), the per-tick platform update, the
    camera and the goal test. Random draws come from a stream `draw`, whose
    k-th value is the k-th Math.random() the operation consumes; the
    hand-authored platform tables come in as `layout`. */
module Levels {
  import opened Geometry
  import opened Platforms
  import opened Enemies
  import opened Collectibles

  /** Levels are numbered from 1. */
  type LevelNumber = n: int | n >= 1 witness 1

  datatype Theme = Grassland | Underground | Castle | Sky | Desert | Ice | Volcano | Space

  const Themes: seq<Theme> := [Grassland, Underground, Castle, Sky, Desert, Ice, Volcano, Space]

  const LevelHeight: real := 576.0
  const SpawnX: real := 100.0
  const SpawnY: real := 400.0
  const TileSize: int := 64
  const WindForce: real := 0.2

  datatype Camera = Camera(x: real, y: real)

  /** A level. `windForce` is 0 where the source leaves it unset. */
  datatype Level = Level(
    number: LevelNumber, width: real, height: real,
    spawnX: real, spawnY: real, goalX: real, theme: Theme,
    platforms: seq<Platform>, camera: Camera, windForce: real, slippery: bool)

  /** Levels get 400 longer per level number. */
  function LevelWidth(n: LevelNumber): (w: int)
    ensures w >= 3600 && w % 400 == 0
    ensures n == 1 ==> w == 3600
  {
    3200 + n * 400
  }

  /** Each level is 400 longer than the one before it. */
  lemma LevelWidthStep(n: LevelNumber)
    ensures LevelWidth(n + 1) == LevelWidth(n) + 400
  {
  }

  /** themes[(n - 1) % 8]: level 1 is grassland, level 4 sky, level 8 space,
      and so on around the cycle. */
  function ThemeOf(n: LevelNumber): (r: Theme)
    ensures r == Grassland <==> n % 8 == 1
    ensures r == Sky <==> n % 8 == 4
    ensures r == Ice <==> n % 8 == 6
    ensures r == Space <==> n % 8 == 0
  {
    Themes[(n - 1) % |Themes|]
  }

  /** The theme cycle repeats every eight levels. */
  lemma ThemeRepeatsEvery8(n: LevelNumber)
    ensures ThemeOf(n) == ThemeOf(n + 8)
    ensures ThemeOf(n) == Sky <==> (n - 1) % 8 == 3
    ensures ThemeOf(n) == Ice <==> (n - 1) % 8 == 5
  {
  }

  // ----- ground row -----

  /** Number of 64-wide tiles the ground loop lays down. */
  function TileCount(width: int): (k: nat)
    ensures width <= 0 ==> k == 0
    ensures width > 0 ==> TileSize * (k - 1) < width <= TileSize * k
  {
    if width <= 0 then 0 else (width + TileSize - 1) / TileSize
  }

  function GroundTile(x: int, levelHeight: real): Platform
  {
    NewPlatform(x as real, levelHeight - 64.0, 64.0, 64.0, Ground)
  }

  /** The ground row: tiles at x = 0, 64, 128, ... covering the width, each
      resting on the bottom of the level. */
  function GroundRow(width: int, levelHeight: real): (r: seq<Platform>)
    ensures |r| == TileCount(width)
    ensures forall i :: 0 <= i < |r| ==>
      r[i].x == (TileSize * i) as real && r[i].y == levelHeight - 64.0 &&
      r[i].width == 64.0 && r[i].height == 64.0 && r[i].kind == Ground
  {
    seq(TileCount(width), i => GroundTile(TileSize * i, levelHeight))
  }

  /** The ground loop of generateLevel as written: step x by 64 while x < width. */
  method BuildGroundRow(width: int, levelHeight: real) returns (tiles: seq<Platform>)
    ensures tiles == GroundRow(width, levelHeight)
  {
    tiles := [];
    var x := 0;
    while x < width
      invariant x == TileSize * |tiles|
      invariant |tiles| <= TileCount(width)
      invariant tiles == GroundRow(width, levelHeight)[..|tiles|]
      decreases width - x
    {
      tiles := tiles + [GroundTile(x, levelHeight)];
      x := x + TileSize;
    }
    assert |tiles| == TileCount(width);
  }

  // ----- level challenges -----

  /** Every draw of the stream lies in [0, 1). */
  ghost predicate UnitDraws(draw: nat -> real)
  {
    forall k: nat :: 0.0 <= draw(k) < 1.0
  }

  function MovingCount(n: LevelNumber): nat
  {
    if n / 2 < 3 then n / 2 else 3
  }

  function Mover(x: real, y: real): (r: Platform)
    ensures FreshMover(r) && InSwing(r) && r.kind == Cloud && r.x == x && r.y == y && !r.disappearing
  {
    NewPlatform(x, y, 96.0, 32.0, Cloud).(motion := Moving(1.0, 200.0, x, 0))
  }

  /** addMovingPlatforms: min(3, floor(n / 2)) 96x32 clouds moving at speed 1
      over a range of 200 around their start, each placed by two draws. */
  function MovingPlatforms(n: LevelNumber, width: real, draw: nat -> real): (r: seq<Platform>)
    ensures |r| == MovingCount(n)
    ensures forall i :: 0 <= i < |r| ==> FreshMover(r[i]) && InSwing(r[i]) && r[i].kind == Cloud && !r[i].disappearing
    ensures UnitDraws(draw) && width >= 1000.0 ==> forall i :: 0 <= i < |r| ==>
      500.0 <= r[i].x <= width - 500.0 && 200.0 <= r[i].y <= 400.0
  {
    var r := seq(MovingCount(n), i requires 0 <= i =>
      Mover(RandomIn(500.0, width - 500.0, draw(2 * i)), RandomIn(200.0, 400.0, draw(2 * i + 1))));
    assert forall i :: 0 <= i < |r| ==>
      r[i] == Mover(RandomIn(500.0, width - 500.0, draw(2 * i)), RandomIn(200.0, 400.0, draw(2 * i + 1)));
    r
  }

  /** addDisappearingPlatforms: each cloud consumes one draw and becomes
      disappearing when it exceeds 0.7; other platforms consume none. */
  function MarkDisappearing(ps: seq<Platform>, draw: nat -> real, k: nat): (r: seq<Platform>)
    ensures |r| == |ps|
    ensures forall i :: 0 <= i < |ps| ==>
      r[i] == ps[i] || (ps[i].kind == Cloud && r[i] == ps[i].(disappearing := true, disappearTimer := 0))
    decreases |ps|
  {
    if |ps| == 0 then []
    else if ps[0].kind == Cloud then
      var p := if RandomIn(0.0, 1.0, draw(k)) > 0.7
               then ps[0].(disappearing := true, disappearTimer := 0) else ps[0];
      [p] + MarkDisappearing(ps[1..], draw, k + 1)
    else [ps[0]] + MarkDisappearing(ps[1..], draw, k)
  }

  /** addLevelChallenges on a platform list: movers from level 5, then
      disappearing clouds from level 7 (drawing after the movers' draws). */
  function Challenges(n: LevelNumber, width: real, ps: seq<Platform>, draw: nat -> real): (r: seq<Platform>)
    ensures n < 5 ==> r == ps
    ensures n >= 5 ==> |r| == |ps| + MovingCount(n)
    ensures n < 7 ==> r[..|ps|] == ps
    ensures forall i :: 0 <= i < |ps| ==>
      r[i] == ps[i] || (n >= 7 && ps[i].kind == Cloud &&
                        r[i] == ps[i].(disappearing := true, disappearTimer := 0))
    ensures forall i :: |ps| <= i < |r| ==>
      r[i].kind == Cloud && FreshMover(r[i]) && (n < 7 ==> !r[i].disappearing)
  {
    var movers := MovingPlatforms(n, width, draw);
    var withMovers := if n >= 5 then ps + movers else ps;
    assert n >= 5 ==> forall i :: |ps| <= i < |withMovers| ==> withMovers[i] == movers[i - |ps|];
    var used := if n >= 5 then 2 * MovingCount(n) else 0;
    if n >= 7 then MarkDisappearing(withMovers, draw, used) else withMovers
  }

  /** The Level constructor. Levels 1 to 8 are the ground row followed by
      the level's own table; from level 9 the random generator may carve
      gaps into the ground row, so `layout` is then the whole list it leaves.
      The challenges come last; wind only for sky levels, slipperiness only
      for ice. */
  function NewLevel(n: LevelNumber, layout: seq<Platform>, draw: nat -> real): (lv: Level)
    ensures lv.number == n && lv.width == LevelWidth(n) as real && lv.height == 576.0
    ensures lv.spawnX == 100.0 && lv.spawnY == 400.0 && lv.goalX == lv.width - 200.0
    ensures lv.theme == ThemeOf(n) && lv.camera == Camera(0.0, 0.0)
    ensures lv.windForce == (if lv.theme == Sky then 0.2 else 0.0)
    ensures lv.slippery <==> lv.theme == Ice
    ensures |lv.platforms| == (if n <= 8 then TileCount(LevelWidth(n)) else 0) + |layout|
                              + (if n >= 5 then MovingCount(n) else 0)
    ensures n <= 8 ==> forall i :: 0 <= i < TileCount(LevelWidth(n)) ==>
      lv.platforms[i].kind == Ground && lv.platforms[i].x == (64 * i) as real &&
      lv.platforms[i].y == 512.0 && lv.platforms[i].width == 64.0
  {
    var w := LevelWidth(n);
    var theme := ThemeOf(n);
    var base := if n <= 8 then GroundRow(w, LevelHeight) + layout else layout;
    var ps := Challenges(n, w as real, base, draw);
    assert n <= 8 ==> forall i :: 0 <= i < TileCount(w) ==> ps[i] == base[i] || base[i].kind == Cloud;
    Level(n, w as real, LevelHeight, SpawnX, SpawnY, w as real - 200.0, theme, ps,
          Camera(0.0, 0.0), if theme == Sky then WindForce else 0.0, theme == Ice)
  }

  // ----- population counts -----

  /** min(8 + 2n, 25) plus two for every third level. */
  function EnemyCount(n: LevelNumber): nat
  {
    (if 8 + 2 * n < 25 then 8 + 2 * n else 25) + 2 * (n / 3)
  }

  /** Paratroopas on sky levels from level 6 on. */
  function FlyerCount(n: LevelNumber): nat
  {
    if ThemeOf(n) == Sky && n >= 6 then n / 2 else 0
  }

  function CoinCount(n: LevelNumber): nat
  {
    25 + 6 * n
  }

  function PowerUpCount(n: LevelNumber): nat
  {
    if n / 2 + 1 > 2 then n / 2 + 1 else 2
  }

  function BonusCount(n: LevelNumber): nat
  {
    if n >= 5 then n / 3 else 0
  }

  /** Draws a ground enemy consumes: its x, and one more type draw each from
      level 3 and from level 5. */
  function EnemyDraws(n: LevelNumber): nat
  {
    1 + (if n >= 3 then 1 else 0) + (if n >= 5 then 1 else 0)
  }

  /** The type of a ground enemy whose type draws start at index k. */
  function EnemyKindAt(n: LevelNumber, draw: nat -> real, k: nat): EnemyKind
  {
    if n >= 5 then
      var rand := RandomIn(0.0, 1.0, draw(k + 1));
      if rand > 0.8 then Spiny else if rand > 0.5 then Koopa else Goomba
    else if n >= 3 then
      if RandomIn(0.0, 1.0, draw(k)) > 0.6 then Koopa else Goomba
    else Goomba
  }

  /** Live ground enemies walking left, 120 above a level of height
      `height`: goombas only below level 3, no spinies below level 5. */
  ghost predicate Walkers(es: seq<Enemy>, n: LevelNumber, height: real)
  {
    forall i :: 0 <= i < |es| ==>
      es[i].alive && es[i].vx == -1.0 && es[i].width == 24.0 &&
      es[i].y == height - 120.0 && es[i].kind != Paratroopa &&
      (n < 3 ==> es[i].kind == Goomba) && (n < 5 ==> es[i].kind != Spiny)
  }

  /** Live paratroopas flying left. */
  ghost predicate Paratroopas(es: seq<Enemy>)
  {
    forall i :: 0 <= i < |es| ==>
      es[i].alive && es[i].vx == -1.0 && es[i].width == 24.0 && es[i].kind == Paratroopa
  }

  /** The ground enemies: per enemy an x draw, then its type draws. */
  function GroundEnemies(n: LevelNumber, width: real, height: real, draw: nat -> real): (r: seq<Enemy>)
    ensures |r| == EnemyCount(n)
    ensures Walkers(r, n, height)
  {
    var per := EnemyDraws(n);
    var r := seq(EnemyCount(n), i requires 0 <= i =>
      NewEnemy(RandomIn(400.0, width - 400.0, draw(per * i)), height - 120.0,
               EnemyKindAt(n, draw, per * i + 1)));
    assert forall i :: 0 <= i < |r| ==>
      r[i] == NewEnemy(RandomIn(400.0, width - 400.0, draw(per * i)), height - 120.0,
                       EnemyKindAt(n, draw, per * i + 1));
    r
  }

  /** The paratroopas, two draws each, starting at draw index `base`. */
  function Flyers(count: nat, width: real, draw: nat -> real, base: nat): (r: seq<Enemy>)
    ensures |r| == count
    ensures Paratroopas(r)
  {
    var r := seq(count, j requires 0 <= j =>
      NewEnemy(RandomIn(500.0, width - 500.0, draw(base + 2 * j)),
               RandomIn(100.0, 300.0, draw(base + 2 * j + 1)), Paratroopa));
    assert forall j :: 0 <= j < |r| ==>
      r[j] == NewEnemy(RandomIn(500.0, width - 500.0, draw(base + 2 * j)),
                       RandomIn(100.0, 300.0, draw(base + 2 * j + 1)), Paratroopa);
    r
  }

  /** Ground enemies followed by paratroopas are all alive. */
  lemma {:induction false} WalkersThenFlyersAlive(a: seq<Enemy>, b: seq<Enemy>, n: LevelNumber, height: real)
    requires Walkers(a, n, height) && Paratroopas(b)
    ensures forall i :: 0 <= i < |a + b| ==> (a + b)[i].alive
  {
    forall i | 0 <= i < |a + b|
      ensures (a + b)[i].alive
    {
      if i < |a| {
        assert (a + b)[i] == a[i];
      } else {
        assert (a + b)[i] == b[i - |a|];
      }
    }
  }

  /** populateEnemies: the manager is cleared, then the ground enemies 120
      above the level bottom, then the paratroopas of sky levels. */
  function PopulateEnemies(lv: Level, draw: nat -> real): (r: seq<Enemy>)
    ensures |r| == EnemyCount(lv.number) + (if lv.theme == Sky && lv.number >= 6 then lv.number / 2 else 0)
    ensures lv.theme == ThemeOf(lv.number) ==> |r| == EnemyCount(lv.number) + FlyerCount(lv.number)
    ensures Walkers(r[..EnemyCount(lv.number)], lv.number, lv.height)
    ensures Paratroopas(r[EnemyCount(lv.number)..])
    ensures forall i :: 0 <= i < |r| ==> r[i].alive
  {
    var n := lv.number;
    var ground := GroundEnemies(n, lv.width, lv.height, draw);
    var flying := if lv.theme == Sky && n >= 6 then n / 2 else 0;
    var flyers := Flyers(flying, lv.width, draw, EnemyDraws(n) * EnemyCount(n));
    var r := ground + flyers;
    assert r[..|ground|] == ground;
    assert r[|ground|..] == flyers;
    WalkersThenFlyersAlive(ground, flyers, n, lv.height);
    r
  }

  /** The type of a power-up whose draws start at index k. */
  function PowerUpKindAt(n: LevelNumber, draw: nat -> real, k: nat): ItemKind
  {
    if n >= 4 then
      var rand := RandomIn(0.0, 1.0, draw(k + 2));
      if rand > 0.7 then Star else if rand > 0.4 then FireFlower else Mushroom
    else Mushroom
  }

  /** Uncollected items, all of one kind. */
  ghost predicate Fresh(items: seq<Collectible>, kind: ItemKind)
  {
    forall i :: 0 <= i < |items| ==> !items[i].collected && items[i].kind == kind
  }

  /** Uncollected power-ups: mushrooms only below level 4. */
  ghost predicate FreshPowerUps(items: seq<Collectible>, n: LevelNumber)
  {
    forall i :: 0 <= i < |items| ==>
      !items[i].collected && items[i].kind in {Mushroom, Star, FireFlower} &&
      (n < 4 ==> items[i].kind == Mushroom)
  }

  /** Items of one kind placed by two draws each from index `base`, x in
      [xlo, xhi] and y in [ylo, yhi]. */
  function Scatter(count: nat, kind: ItemKind, xlo: real, xhi: real, ylo: real, yhi: real,
                   draw: nat -> real, base: nat): (r: seq<Collectible>)
    ensures |r| == count
    ensures Fresh(r, kind)
  {
    var r := seq(count, i requires 0 <= i =>
      NewCollectible(RandomIn(xlo, xhi, draw(base + 2 * i)), RandomIn(ylo, yhi, draw(base + 2 * i + 1)), kind));
    assert forall i :: 0 <= i < |r| ==>
      r[i] == NewCollectible(RandomIn(xlo, xhi, draw(base + 2 * i)), RandomIn(ylo, yhi, draw(base + 2 * i + 1)), kind);
    r
  }

  /** Draws the power-ups consume in all: two each, three from level 4. */
  function PowerUpDraws(n: LevelNumber): nat
  {
    (if n >= 4 then 3 else 2) * PowerUpCount(n)
  }

  /** The power-ups: x and y draws, then from level 4 a type draw. */
  function PowerUps(n: LevelNumber, width: real, draw: nat -> real, base: nat): (r: seq<Collectible>)
    ensures |r| == PowerUpCount(n)
    ensures FreshPowerUps(r, n)
  {
    var per := if n >= 4 then 3 else 2;
    var r := seq(PowerUpCount(n), i requires 0 <= i =>
      NewCollectible(RandomIn(500.0, width - 500.0, draw(base + per * i)),
                     RandomIn(200.0, 350.0, draw(base + per * i + 1)),
                     PowerUpKindAt(n, draw, base + per * i)));
    assert forall i :: 0 <= i < |r| ==>
      r[i] == NewCollectible(RandomIn(500.0, width - 500.0, draw(base + per * i)),
                             RandomIn(200.0, 350.0, draw(base + per * i + 1)),
                             PowerUpKindAt(n, draw, base + per * i));
    r
  }

  /** Coins, power-ups and 1-ups placed in a row are all uncollected. */
  lemma {:induction false} FreshRowUncollected(a: seq<Collectible>, b: seq<Collectible>,
                                               c: seq<Collectible>, n: LevelNumber)
    requires Fresh(a, Coin) && FreshPowerUps(b, n) && Fresh(c, OneUp)
    ensures forall i :: 0 <= i < |a + b + c| ==> !(a + b + c)[i].collected
    ensures Fresh((a + b + c)[..|a|], Coin)
    ensures FreshPowerUps((a + b + c)[|a|..|a| + |b|], n)
    ensures Fresh((a + b + c)[|a| + |b|..], OneUp)
  {
    assert (a + b + c)[..|a|] == a;
    assert (a + b + c)[|a|..|a| + |b|] == b;
    assert (a + b + c)[|a| + |b|..] == c;
    forall i | 0 <= i < |a + b + c|
      ensures !(a + b + c)[i].collected
    {
      if i < |a| {
        assert (a + b + c)[i] == a[i];
      } else if i < |a| + |b| {
        assert (a + b + c)[i] == b[i - |a|];
      } else {
        assert (a + b + c)[i] == c[i - |a| - |b|];
      }
    }
  }

  /** populateCollectibles: the manager is cleared, then 25 + 6n coins, then
      the power-ups, then the 1-ups of levels 5 and up. */
  function PopulateCollectibles(lv: Level, draw: nat -> real): (r: seq<Collectible>)
    ensures |r| == CoinCount(lv.number) + PowerUpCount(lv.number) + BonusCount(lv.number)
    ensures Fresh(r[..CoinCount(lv.number)], Coin)
    ensures FreshPowerUps(r[CoinCount(lv.number)..CoinCount(lv.number) + PowerUpCount(lv.number)], lv.number)
    ensures Fresh(r[CoinCount(lv.number) + PowerUpCount(lv.number)..], OneUp)
    ensures forall i :: 0 <= i < |r| ==> !r[i].collected
  {
    var n := lv.number;
    var coins := Scatter(CoinCount(n), Coin, 200.0, lv.width - 200.0, 100.0, 400.0, draw, 0);
    var b1 := 2 * CoinCount(n);
    var powers := PowerUps(n, lv.width, draw, b1);
    var b2 := b1 + PowerUpDraws(n);
    var bonus := Scatter(BonusCount(n), OneUp, 1000.0, lv.width - 1000.0, 150.0, 250.0, draw, b2);
    FreshRowUncollected(coins, powers, bonus, n);
    coins + powers + bonus
  }

  /** The counts, spelled out: enemies min(8 + 2n, 25) + 2 floor(n / 3) plus
      floor(n / 2) paratroopas on sky levels from 6; coins 25 + 6n;
      power-ups max(2, floor(n / 2) + 1); 1-ups floor(n / 3) from level 5. */
  lemma PopulationCounts(n: LevelNumber)
    ensures EnemyCount(n) == (if 8 + 2 * n < 25 then 8 + 2 * n else 25) + 2 * (n / 3)
    ensures n <= 8 ==> EnemyCount(n) == 8 + 2 * n + 2 * (n / 3)
    ensures n >= 9 ==> EnemyCount(n) == 25 + 2 * (n / 3)
    ensures FlyerCount(n) > 0 <==> n >= 12 && (n - 1) % 8 == 3
    ensures PowerUpCount(n) >= 2 && (n >= 2 ==> PowerUpCount(n) == n / 2 + 1)
    ensures BonusCount(n) > 0 <==> n >= 5
  {
  }

  // ----- per-tick update, camera and goal -----

  /** Level.update: every platform takes its step. It is not part of the
      session's tick. */
  function Update(lv: Level): (r: Level)
    ensures |r.platforms| == |lv.platforms|
    ensures forall i :: 0 <= i < |lv.platforms| ==> r.platforms[i] == Platforms.Update(lv.platforms[i])
    ensures r == lv.(platforms := r.platforms)
  {
    lv.(platforms := seq(|lv.platforms|, i requires 0 <= i < |lv.platforms| =>
                         Platforms.Update(lv.platforms[i])))
  }

  /** updateCamera: ease a tenth of the way toward a point a third of the
      canvas left of the player, clamp to the level, and from level 8 add the
      shake offset `shake` (2 sin(0.01 t) for wall-clock time t). */
  function UpdateCamera(lv: Level, playerX: real, canvasWidth: real, shake: real): (r: Level)
    ensures r == lv.(camera := r.camera) && r.camera.y == 0.0
    ensures var off := if lv.number >= 8 then shake else 0.0;
      canvasWidth <= lv.width ==> off <= r.camera.x <= lv.width - canvasWidth + off
    ensures var target := playerX - canvasWidth / 3.0;
      var hi := lv.width - canvasWidth;
      lv.number < 8 && 0.0 <= lv.camera.x <= hi && 0.0 <= target <= hi ==>
        Min(lv.camera.x, target) <= r.camera.x <= Max(lv.camera.x, target) &&
        r.camera.x == lv.camera.x + (target - lv.camera.x) * 0.1
  {
    var target := playerX - canvasWidth / 3.0;
    var eased := Lerp(lv.camera.x, target, 0.1);
    var x := Clamp(eased, 0.0, lv.width - canvasWidth);
    lv.(camera := Camera(if lv.number >= 8 then x + shake else x, 0.0))
  }

  /** isPlayerAtGoal: the player's left edge has reached the goal line. */
  predicate IsPlayerAtGoal(lv: Level, playerX: real)
  {
    playerX >= lv.goalX
  }

  /** In a new level the goal line is 200 short of the level's end: the
      player reaches it exactly from x = width - 200 on, and moving further
      right never leaves it. */
  lemma GoalNearLevelEnd(n: LevelNumber, layout: seq<Platform>, draw: nat -> real, x: real, x': real)
    ensures var lv := NewLevel(n, layout, draw);
      IsPlayerAtGoal(lv, x) <==> x >= LevelWidth(n) as real - 200.0
    ensures var lv := NewLevel(n, layout, draw);
      IsPlayerAtGoal(lv, x) && x <= x' ==> IsPlayerAtGoal(lv, x')
  {
  }
}
