/** Enemies (src/enemies.js): patrol physics, a three-way platform resolver
    without a ceiling case, the stomp-or-hurt rule against the player, and
    the manager's filtering and short-circuiting search. */
module Enemies {
  import opened Geometry
  import opened Platforms
  import opened Particles
  import opened Context
  import opened Players
  import opened Seqs

  const EnemyGravity: real := 0.5
  const EnemySize: real := 24.0
  /** How far below the canvas bottom an enemy may fall before it dies. */
  const FallMargin: real := 100.0
  /** A falling player stomps when its feet are less than this far below
      the enemy's top. */
  const StompMargin: real := 10.0
  const StompBounce: real := -8.0
  const StompPoints: int := 100

  datatype EnemyKind = Goomba | Koopa | Spiny | Paratroopa

  datatype Enemy = Enemy(
    x: real, y: real, width: real, height: real, vx: real, vy: real,
    onGround: bool, kind: EnemyKind, alive: bool, direction: int)
  {
    function Box(): Box
    {
      Geometry.Box(x, y, width, height)
    }
  }

  /** The Enemy constructor: alive, 24 by 24, walking left at speed 1. */
  function NewEnemy(x: real, y: real, kind: EnemyKind): (r: Enemy)
    ensures r.alive && r.vx == -1.0 && r.direction == -1 && r.vy == 0.0 && !r.onGround
    ensures r.Box() == Geometry.Box(x, y, 24.0, 24.0) && r.kind == kind
  {
    Enemy(x, y, EnemySize, EnemySize, -1.0, 0.0, false, kind, true, -1)
  }

  /** updatePhysics: gravity while airborne, with no cap on the fall speed. */
  function UpdatePhysics(e: Enemy): (r: Enemy)
    ensures r.vy == (if e.onGround then e.vy else e.vy + EnemyGravity)
    ensures r.x == e.x + e.vx && r.y == e.y + r.vy && !r.onGround
    ensures r == e.(x := r.x, y := r.y, vy := r.vy, onGround := false)
  {
    var vy := if e.onGround then e.vy else e.vy + EnemyGravity;
    e.(x := e.x + e.vx, y := e.y + vy, vy := vy, onGround := false)
  }

  /** checkWorldBounds: an enemy more than 100 below the canvas dies. */
  function CheckWorldBounds(e: Enemy, canvasHeight: real): (r: Enemy)
    ensures r.alive <==> e.alive && e.y <= canvasHeight + FallMargin
    ensures r == e.(alive := r.alive)
  {
    if e.y > canvasHeight + FallMargin then e.(alive := false) else e
  }

  /** Enemy.update: nothing happens to a dead enemy. */
  function Update(e: Enemy, canvasHeight: real): (r: Enemy)
    ensures !e.alive ==> r == e
    ensures e.alive ==> r.x == e.x + e.vx && !r.onGround
    ensures e.alive ==> (r.alive <==> r.y <= canvasHeight + FallMargin)
    ensures r.kind == e.kind && r.vx == e.vx && r.direction == e.direction
  {
    if !e.alive then e
    else CheckWorldBounds(UpdatePhysics(e), canvasHeight)
  }

  /** handlePlatformCollision: land on top when falling, otherwise turn
      around at a wall; there is no ceiling branch. */
  function HandlePlatformCollision(e: Enemy, plat: Platform): (r: Enemy)
    ensures !Overlaps(e.Box(), plat.Box()) ==> r == e
    ensures var d := Penetration(e.Box(), plat.Box());
      Overlaps(e.Box(), plat.Box()) && d.Least() == d.top && e.vy > 0.0 ==>
        r.y + r.height == plat.y && r.vy == 0.0 && r.onGround && r.x == e.x && r.vx == e.vx
    // the walk speed is never changed, only its sign
    ensures Abs(r.vx) == Abs(e.vx)
    ensures r.vx != e.vx ==> Sign(r.vx) == -Sign(e.vx) && r.direction == Sign(r.vx)
    // the vertical position only ever moves up, onto a platform
    ensures r.y <= e.y
    ensures r == e.(x := r.x, y := r.y, vx := r.vx, vy := r.vy, onGround := r.onGround,
                    direction := r.direction)
  {
    if !Overlaps(e.Box(), plat.Box()) then e
    else
      var d := Penetration(e.Box(), plat.Box());
      var least := d.Least();
      if least == d.top && e.vy > 0.0 then
        e.(y := plat.y - e.height, vy := 0.0, onGround := true)
      else if least == d.left && e.vx > 0.0 then
        e.(x := plat.x - e.width, vx := -Abs(e.vx), direction := -1)
      else if least == d.right && e.vx < 0.0 then
        e.(x := plat.x + plat.width, vx := Abs(e.vx), direction := 1)
      else e
  }

  /** Wall contact: from the platform's left side the enemy is snapped to the
      wall and heads left; from its right side, snapped and heads right. */
  lemma WallTurn(e: Enemy, plat: Platform)
    requires Overlaps(e.Box(), plat.Box())
    requires var d := Penetration(e.Box(), plat.Box()); !(d.Least() == d.top && e.vy > 0.0)
    ensures var d := Penetration(e.Box(), plat.Box());
      var r := HandlePlatformCollision(e, plat);
      && (d.Least() == d.left && e.vx > 0.0 ==>
           r.x + r.width == plat.x && r.vx == -e.vx && r.direction == -1 && r.y == e.y)
      && (!(d.Least() == d.left && e.vx > 0.0) && d.Least() == d.right && e.vx < 0.0 ==>
           r.x == plat.x + plat.width && r.vx == -e.vx && r.direction == 1 && r.y == e.y)
  {
  }

  /** No ceiling case: a rising enemy whose least penetration is strictly
      from below passes into the platform uncorrected. */
  lemma NoCeiling(e: Enemy, plat: Platform)
    requires Overlaps(e.Box(), plat.Box()) && e.vy <= 0.0
    requires var d := Penetration(e.Box(), plat.Box()); d.bottom < d.left && d.bottom < d.right
    ensures HandlePlatformCollision(e, plat) == e
    ensures Overlaps(HandlePlatformCollision(e, plat).Box(), plat.Box())
  {
  }

  /** Every correction leaves the enemy touching, not overlapping, the platform. */
  lemma EnemyResolutionSeparates(e: Enemy, plat: Platform)
    ensures var r := HandlePlatformCollision(e, plat);
      r != e ==> Overlaps(e.Box(), plat.Box()) && !Overlaps(r.Box(), plat.Box())
  {
    var r := HandlePlatformCollision(e, plat);
    if r != e {
      var d := Penetration(e.Box(), plat.Box());
      if d.Least() == d.top && e.vy > 0.0 {
        assert r.Box().Bottom() == plat.y;
      } else if d.Least() == d.left && e.vx > 0.0 {
        assert r.Box().Right() == plat.x;
      } else {
        assert r.x == plat.Box().Right();
      }
      EdgeContactIsNoOverlap(r.Box(), plat.Box());
    }
  }

  /** The player stomps the enemy: feet less than 10 below its top, while
      falling. */
  predicate IsStomp(e: Enemy, p: Player)
  {
    p.y + p.height - StompMargin < e.y && p.vy > 0.0
  }

  /** A stomp needs a falling player, so once the player has bounced off an
      enemy no enemy can be stomped until it falls again. */
  lemma BounceEndsStomping(e: Enemy, p: Player)
    ensures IsStomp(e, p) ==> p.vy > 0.0
    ensures !IsStomp(e, p.(vy := StompBounce))
  {
  }

  /** The outcome of one enemy meeting the player. */
  datatype Encounter = Encounter(enemy: Enemy, player: Player, ctx: Ctx, hurts: bool)

  /** defeat: the enemy dies and a defeat burst is emitted. */
  function Defeat(e: Enemy, ctx: Ctx): (r: (Enemy, Ctx))
    ensures !r.0.alive && r.0 == e.(alive := false) && r.1 == ctx.Burst(DefeatBurst)
  {
    (e.(alive := false), ctx.Burst(DefeatBurst))
  }

  /** checkPlayerCollision: a dead enemy, an invulnerable player or no
      overlap means nothing happens; a stomp kills the enemy, bounces the
      player and scores 100; any other contact hurts the player. */
  function CheckPlayerCollision(e: Enemy, p: Player, ctx: Ctx): (r: Encounter)
    ensures !e.alive || p.invulnerable || !Overlaps(e.Box(), p.Box()) ==>
      r == Encounter(e, p, ctx, false)
    ensures e.alive && !p.invulnerable && Overlaps(e.Box(), p.Box()) && IsStomp(e, p) ==>
      && r.enemy == e.(alive := false) && r.player == p.(vy := StompBounce) && !r.hurts
      && r.ctx.score == ctx.score + StompPoints && r.ctx.coins == ctx.coins
      && r.player.lives == p.lives
    ensures r.hurts <==> e.alive && !p.invulnerable && Overlaps(e.Box(), p.Box()) && !IsStomp(e, p)
    ensures r.hurts ==> r.enemy == e && r.player == p && r.ctx == ctx
    ensures r.player == p.(vy := r.player.vy)
  {
    if !e.alive || p.invulnerable then Encounter(e, p, ctx, false)
    else if Overlaps(e.Box(), p.Box()) then
      if IsStomp(e, p) then
        var (dead, c) := Defeat(e, ctx);
        Encounter(dead, p.(vy := StompBounce), c.Award(StompPoints), false)
      else Encounter(e, p, ctx, true)
    else Encounter(e, p, ctx, false)
  }

  predicate IsAlive(e: Enemy)
  {
    e.alive
  }

  /** The enemies alive at entry, in their order. */
  function LiveOnes(es: seq<Enemy>): seq<Enemy>
  {
    Filter(es, IsAlive)
  }

  /** EnemyManager.update: keep exactly the enemies alive at entry, each
      updated; one that dies during its update stays listed until next tick. */
  function UpdateAll(es: seq<Enemy>, canvasHeight: real): (r: seq<Enemy>)
    ensures |r| == |LiveOnes(es)|
    ensures forall i :: 0 <= i < |r| ==> r[i] == Update(LiveOnes(es)[i], canvasHeight)
  {
    var live := LiveOnes(es);
    var r := seq(|live|, i requires 0 <= i < |live| => Update(live[i], canvasHeight));
    assert forall i :: 0 <= i < |r| ==> r[i] == Update(live[i], canvasHeight);
    r
  }

  /** One enemy against every platform, in order. */
  function AgainstPlatforms(e: Enemy, plats: seq<Platform>): (r: Enemy)
    ensures r.alive == e.alive && r.kind == e.kind && r.width == e.width && r.height == e.height
    ensures Abs(r.vx) == Abs(e.vx) && r.y <= e.y
    decreases |plats|
  {
    if |plats| == 0 then e
    else AgainstPlatforms(HandlePlatformCollision(e, plats[0]), plats[1..])
  }

  /** EnemyManager.handlePlatformCollisions. */
  function HandlePlatformCollisions(es: seq<Enemy>, plats: seq<Platform>): (r: seq<Enemy>)
    ensures |r| == |es|
    ensures forall i :: 0 <= i < |r| ==> r[i] == AgainstPlatforms(es[i], plats)
  {
    seq(|es|, i requires 0 <= i < |es| => AgainstPlatforms(es[i], plats))
  }

  /** How many enemies alive in `before` are dead in `after`. */
  function Defeats(before: seq<Enemy>, after: seq<Enemy>): nat
    requires |before| == |after|
  {
    if |before| == 0 then 0
    else (if before[0].alive && !after[0].alive then 1 else 0) + Defeats(before[1..], after[1..])
  }

  lemma {:induction false} NoDefeats(es: seq<Enemy>)
    ensures Defeats(es, es) == 0
    decreases |es|
  {
    if |es| > 0 {
      NoDefeats(es[1..]);
    }
  }

  /** A live enemy whose box overlaps the player's: the enemies a sweep
      can act on. The player's velocity plays no part. */
  predicate Touches(e: Enemy, p: Player)
  {
    e.alive && Overlaps(e.Box(), p.Box())
  }

  /** The index of the first enemy the player touches, or |es| if none. */
  function FirstContact(es: seq<Enemy>, p: Player): (k: nat)
    ensures k <= |es|
    ensures forall j {:trigger Touches(es[j], p)} :: 0 <= j < k ==> !Touches(es[j], p)
    ensures k < |es| ==> Touches(es[k], p)
    decreases |es|
  {
    if |es| == 0 then 0
    else if Touches(es[0], p) then 0
    else 1 + FirstContact(es[1..], p)
  }

  /** The outcome of the manager's sweep over all enemies. */
  datatype Sweep = Sweep(enemies: seq<Enemy>, player: Player, ctx: Ctx, hurt: bool)

  /** Enemy k hurt the player, and it and every enemy after it were left as they were. */
  predicate StoppedAt(es: seq<Enemy>, after: seq<Enemy>, p: Player, k: int)
    requires |es| == |after|
  {
    0 <= k < |es| && after[k..] == es[k..] &&
    es[k].alive && !p.invulnerable && Overlaps(es[k].Box(), p.Box()) && !IsStomp(es[k], p)
  }

  /** EnemyManager.checkPlayerCollisions: `some` over the enemies, so the
      sweep stops at the first enemy that hurts the player. Stomps on the
      way kill enemies, bounce the player and score 100 each. */
  function CheckPlayerCollisions(es: seq<Enemy>, p: Player, ctx: Ctx): (r: Sweep)
    ensures |r.enemies| == |es|
    ensures forall i {:trigger r.enemies[i]} :: 0 <= i < |es| ==>
      r.enemies[i] == es[i] || (es[i].alive && r.enemies[i] == es[i].(alive := false))
    ensures r.ctx.score == ctx.score + StompPoints * Defeats(es, r.enemies)
    ensures r.ctx.coins == ctx.coins
    ensures r.player == p.(vy := r.player.vy)
    ensures Defeats(es, r.enemies) > 0 ==> r.player.vy == StompBounce
    ensures Defeats(es, r.enemies) == 0 ==> r.player == p && r.ctx == ctx
    ensures r.hurt ==> exists k :: StoppedAt(es, r.enemies, r.player, k)
    ensures p.invulnerable ==> r == Sweep(es, p, ctx, false)
    decreases |es|
  {
    if |es| == 0 then Sweep([], p, ctx, false)
    else
      var c := CheckPlayerCollision(es[0], p, ctx);
      if c.hurts then
        assert StoppedAt(es, es, p, 0);
        NoDefeats(es);
        Sweep(es, p, ctx, true)
      else
        var rest := CheckPlayerCollisions(es[1..], c.player, c.ctx);
        SweepStep(es, p, ctx, rest);
        Sweep([c.enemy] + rest.enemies, rest.player, rest.ctx, rest.hurt)
  }

  /** The contract of CheckPlayerCollisions, for a candidate result r. */
  ghost predicate SweepSpec(es: seq<Enemy>, p: Player, ctx: Ctx, r: Sweep)
  {
    && |r.enemies| == |es|
    && (forall i {:trigger r.enemies[i]} :: 0 <= i < |es| ==>
         r.enemies[i] == es[i] || (es[i].alive && r.enemies[i] == es[i].(alive := false)))
    && r.ctx.score == ctx.score + StompPoints * Defeats(es, r.enemies)
    && r.ctx.coins == ctx.coins
    && r.player == p.(vy := r.player.vy)
    && (Defeats(es, r.enemies) > 0 ==> r.player.vy == StompBounce)
    && (Defeats(es, r.enemies) == 0 ==> r.player == p && r.ctx == ctx)
    && (r.hurt ==> exists k :: StoppedAt(es, r.enemies, r.player, k))
    && (p.invulnerable ==> r == Sweep(es, p, ctx, false))
  }

  /** The inductive step of CheckPlayerCollisions: an enemy that does not
      hurt the player, put in front of a sweep of the rest that meets the
      contract, gives a sweep that meets it. */
  lemma SweepStep(es: seq<Enemy>, p: Player, ctx: Ctx, rest: Sweep)
    requires |es| > 0
    requires var c := CheckPlayerCollision(es[0], p, ctx);
      !c.hurts && SweepSpec(es[1..], c.player, c.ctx, rest)
    ensures var c := CheckPlayerCollision(es[0], p, ctx);
      SweepSpec(es, p, ctx, Sweep([c.enemy] + rest.enemies, rest.player, rest.ctx, rest.hurt))
  {
    var c := CheckPlayerCollision(es[0], p, ctx);
    var out := [c.enemy] + rest.enemies;
    assert out[1..] == rest.enemies;
    if rest.hurt {
      var k :| StoppedAt(es[1..], rest.enemies, rest.player, k);
      assert out[k + 1..] == rest.enemies[k..];
      assert StoppedAt(es, out, rest.player, k + 1);
    }
    if p.invulnerable {
      assert [es[0]] + es[1..] == es;
    }
  }

  /** An enemy the player does not touch is passed over: the sweep goes on
      with the rest of the list and keeps that enemy at the head. */
  lemma SweepPastMiss(es: seq<Enemy>, p: Player, ctx: Ctx)
    requires |es| > 0 && (p.invulnerable || !Touches(es[0], p))
    ensures var rest := CheckPlayerCollisions(es[1..], p, ctx);
      CheckPlayerCollisions(es, p, ctx) == Sweep([es[0]] + rest.enemies, rest.player, rest.ctx, rest.hurt)
  {
    assert CheckPlayerCollision(es[0], p, ctx) == Encounter(es[0], p, ctx, false);
  }

  /** A sweep that leaves the rest of the list alone also leaves it alone
      with an untouched enemy put in front. */
  lemma SweepKeepsMiss(es: seq<Enemy>, p: Player, ctx: Ctx, hurt: bool)
    requires |es| > 0 && (p.invulnerable || !Touches(es[0], p))
    requires CheckPlayerCollisions(es[1..], p, ctx) == Sweep(es[1..], p, ctx, hurt)
    ensures CheckPlayerCollisions(es, p, ctx) == Sweep(es, p, ctx, hurt)
  {
    SweepPastMiss(es, p, ctx);
    assert [es[0]] + es[1..] == es;
  }

  /** The first live enemy the player touches decides the sweep. With none,
      nothing happens. */
  lemma {:induction false} SweepWithoutContact(es: seq<Enemy>, p: Player, ctx: Ctx)
    requires !p.invulnerable && FirstContact(es, p) == |es|
    ensures CheckPlayerCollisions(es, p, ctx) == Sweep(es, p, ctx, false)
    decreases |es|
  {
    if |es| > 0 {
      SweepWithoutContact(es[1..], p, ctx);
      SweepKeepsMiss(es, p, ctx, false);
    }
  }

  /** If the first live enemy touched is not stomped, the player is hurt and
      nothing else changes. */
  lemma {:induction false} SweepHurtFirst(es: seq<Enemy>, p: Player, ctx: Ctx)
    requires !p.invulnerable && FirstContact(es, p) < |es|
    requires !IsStomp(es[FirstContact(es, p)], p)
    ensures CheckPlayerCollisions(es, p, ctx) == Sweep(es, p, ctx, true)
    decreases |es|
  {
    if Touches(es[0], p) {
      SweepHurtAtHead(es, p, ctx);
    } else {
      ContactAfterMiss(es, p);
      SweepHurtFirst(es[1..], p, ctx);
      SweepKeepsMiss(es, p, ctx, true);
    }
  }

  /** An enemy that hurts the player ends the sweep at once. */
  lemma SweepHurtAtHead(es: seq<Enemy>, p: Player, ctx: Ctx)
    requires |es| > 0 && CheckPlayerCollision(es[0], p, ctx).hurts
    ensures CheckPlayerCollisions(es, p, ctx) == Sweep(es, p, ctx, true)
  {
  }

  /** If the first live enemy touched is stomped, it alone dies, and since
      the bounce makes every later touch a hurt, the sweep reports one
      exactly when a later live enemy is touched. */
  lemma {:induction false} SweepStompFirst(es: seq<Enemy>, p: Player, ctx: Ctx)
    requires !p.invulnerable && FirstContact(es, p) < |es|
    requires IsStomp(es[FirstContact(es, p)], p)
    ensures var r := CheckPlayerCollisions(es, p, ctx);
      var k := FirstContact(es, p);
      && r.enemies == es[k := es[k].(alive := false)]
      && r.player == p.(vy := StompBounce)
      && r.ctx == ctx.Burst(DefeatBurst).Award(StompPoints)
      && (r.hurt <==> FirstContact(es[k + 1..], p) < |es| - (k + 1))
    decreases |es|
  {
    if Touches(es[0], p) {
      StompAtHead(es, p, ctx);
    } else {
      SweepPastMiss(es, p, ctx);
      ContactAfterMiss(es, p);
      SweepStompFirst(es[1..], p, ctx);
    }
  }

  /** The stomp case of SweepStompFirst when the stomped enemy heads the list. */
  lemma StompAtHead(es: seq<Enemy>, p: Player, ctx: Ctx)
    requires !p.invulnerable && |es| > 0 && Touches(es[0], p) && IsStomp(es[0], p)
    ensures var r := CheckPlayerCollisions(es, p, ctx);
      && r.enemies == es[0 := es[0].(alive := false)]
      && r.player == p.(vy := StompBounce)
      && r.ctx == ctx.Burst(DefeatBurst).Award(StompPoints)
      && (r.hurt <==> FirstContact(es[1..], p) < |es| - 1)
  {
    var q := p.(vy := StompBounce);
    var c' := ctx.Burst(DefeatBurst).Award(StompPoints);
    assert CheckPlayerCollision(es[0], p, ctx) == Encounter(es[0].(alive := false), q, c', false);
    var rest := CheckPlayerCollisions(es[1..], q, c');
    ContactIgnoresVelocity(es[1..], p, StompBounce);
    if FirstContact(es[1..], p) == |es| - 1 {
      SweepWithoutContact(es[1..], q, c');
    } else {
      SweepHurtFirst(es[1..], q, c');
    }
    assert [es[0].(alive := false)] + rest.enemies == es[0 := es[0].(alive := false)];
  }

  /** A player that is not falling cannot stomp, so the sweep changes
      nothing and reports a hurt exactly when some live enemy is touched. */
  lemma SweepWhileNotFalling(es: seq<Enemy>, p: Player, ctx: Ctx)
    requires !p.invulnerable && p.vy <= 0.0
    ensures var r := CheckPlayerCollisions(es, p, ctx);
      && r.enemies == es && r.player == p && r.ctx == ctx
      && (r.hurt <==> exists k :: 0 <= k < |es| && Touches(es[k], p))
  {
    var k := FirstContact(es, p);
    if k == |es| {
      SweepWithoutContact(es, p, ctx);
    } else {
      SweepHurtFirst(es, p, ctx);
    }
  }

  /** Killing one live enemy in a list counts as exactly one defeat. */
  lemma {:induction false} DefeatsOfOne(es: seq<Enemy>, k: nat)
    requires k < |es| && es[k].alive
    ensures Defeats(es, es[k := es[k].(alive := false)]) == 1
    decreases |es|
  {
    var after := es[k := es[k].(alive := false)];
    if k == 0 {
      assert after[1..] == es[1..];
      NoDefeats(es[1..]);
    } else {
      assert after[1..] == es[1..][k - 1 := es[k].(alive := false)];
      DefeatsOfOne(es[1..], k - 1);
    }
  }

  /** The bounce after a stomp sends the player upward, so a sweep defeats
      at most one enemy, however many the falling player overlaps. */
  lemma SweepDefeatsAtMostOne(es: seq<Enemy>, p: Player, ctx: Ctx)
    ensures Defeats(es, CheckPlayerCollisions(es, p, ctx).enemies) <= 1
  {
    var k := FirstContact(es, p);
    if p.invulnerable || k == |es| {
      if !p.invulnerable {
        SweepWithoutContact(es, p, ctx);
      }
      NoDefeats(es);
    } else if IsStomp(es[k], p) {
      SweepStompFirst(es, p, ctx);
      DefeatsOfOne(es, k);
    } else {
      SweepHurtFirst(es, p, ctx);
      NoDefeats(es);
    }
  }

  /** Touching depends only on the boxes, so changing the player's vertical
      speed does not move the first contact. */
  lemma {:induction false} ContactIgnoresVelocity(es: seq<Enemy>, p: Player, vy: real)
    ensures FirstContact(es, p.(vy := vy)) == FirstContact(es, p)
    decreases |es|
  {
    assert p.(vy := vy).Box() == p.Box();
    if |es| > 0 {
      ContactIgnoresVelocity(es[1..], p, vy);
    }
  }

  /** When the first enemy is not touched, the first contact is found in the
      rest of the list, at the same place once the first enemy is put back. */
  lemma ContactAfterMiss(es: seq<Enemy>, p: Player)
    requires |es| > 0 && !Touches(es[0], p)
    ensures FirstContact(es, p) == 1 + FirstContact(es[1..], p)
    ensures var k := FirstContact(es, p);
      k < |es| ==>
        && es[1..][k - 1] == es[k]
        && es[1..][k - 1 + 1..] == es[k + 1..]
        && [es[0]] + es[1..][k - 1 := es[k].(alive := false)] == es[k := es[k].(alive := false)]
  {
    var k := FirstContact(es, p);
    if k < |es| {
      assert ([es[0]] + es[1..][k - 1 := es[k].(alive := false)])[0] == es[0];
    }
  }
}
