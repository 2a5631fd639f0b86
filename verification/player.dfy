/** The player character (src/player.js): input to velocity, gravity,
    the four-way platform resolver and the size / fire / invulnerability
    state machine with its countdown timers. Held keys are booleans and the
    session's score and particles travel in an explicit context. */
module Players {
  import opened Geometry
  import opened Platforms
  import opened Particles
  import opened Context

  const Speed: real := 4.0
  const JumpPower: real := 12.0
  const Gravity: real := 0.5
  const MaxFallSpeed: real := 15.0
  const Friction: real := 0.8
  const Width: real := 32.0
  const SmallHeight: real := 32.0
  const BigHeight: real := 48.0
  /** Ticks of invulnerability after being hit. */
  const GraceTicks: int := 120
  /** Ticks a mushroom's growth lasts, and a fire flower's power. */
  const PowerUpTicks: int := 1800
  const FirePowerTicks: int := 1800
  const StartLives: int := 3

  datatype Player = Player(
    x: real, y: real, width: real, height: real, vx: real, vy: real,
    onGround: bool, direction: int,
    invulnerable: bool, invulnerabilityTimer: int,
    lives: int, big: bool, powerUpTimer: int,
    firePower: bool, firePowerTimer: int)
  {
    function Box(): Box
    {
      Geometry.Box(x, y, width, height)
    }
  }

  /** The logical keys the player reads: ArrowLeft, ArrowRight, Space, KeyX. */
  datatype Keys = Keys(left: bool, right: bool, jump: bool, fire: bool)

  /** The Player constructor. */
  function NewPlayer(x: real, y: real): (r: Player)
    ensures r.Box() == Geometry.Box(x, y, 32.0, 32.0)
    ensures r.vx == 0.0 && r.vy == 0.0 && !r.onGround && r.direction == 1
    ensures !r.invulnerable && !r.big && !r.firePower && r.lives == 3
  {
    Player(x, y, Width, SmallHeight, 0.0, 0.0, false, 1, false, 0, StartLives, false, 0, false, 0)
  }

  /** handleInput: left wins over right; with neither held, friction scales
      vx by 0.8. A jump needs ground contact and leaves a dust effect. */
  function HandleInput(p: Player, keys: Keys, ctx: Ctx): (r: (Player, Ctx))
    ensures keys.left ==> r.0.vx == -Speed && r.0.direction == -1
    ensures !keys.left && keys.right ==> r.0.vx == Speed && r.0.direction == 1
    ensures !keys.left && !keys.right ==> r.0.vx == p.vx * Friction && r.0.direction == p.direction
    ensures keys.jump && p.onGround ==> r.0.vy == -JumpPower && !r.0.onGround && r.1 == ctx.Burst(JumpDust)
    ensures !(keys.jump && p.onGround) ==> r.0.vy == p.vy && r.0.onGround == p.onGround && r.1 == ctx
    ensures r.0.x == p.x && r.0.y == p.y && r.0.lives == p.lives && r.0.big == p.big
    ensures r.1.score == ctx.score && r.1.coins == ctx.coins
  {
    var moved :=
      if keys.left then p.(vx := -Speed, direction := -1)
      else if keys.right then p.(vx := Speed, direction := 1)
      else p.(vx := p.vx * Friction);
    if keys.jump && moved.onGround then
      (moved.(vy := -JumpPower, onGround := false), ctx.Burst(JumpDust))
    else (moved, ctx)
  }

  /** updatePhysics: gravity (capped at the maximum fall speed) only while
      airborne, then move by the velocity; ground contact is cleared. */
  function UpdatePhysics(p: Player): (r: Player)
    ensures !p.onGround ==> r.vy == Min(p.vy + Gravity, MaxFallSpeed)
    ensures p.onGround ==> r.vy == p.vy
    ensures r.x == p.x + p.vx && r.y == p.y + r.vy
    ensures !r.onGround
    ensures r == p.(x := r.x, y := r.y, vy := r.vy, onGround := false)
  {
    var vy := if p.onGround then p.vy else Min(p.vy + Gravity, MaxFallSpeed);
    p.(x := p.x + p.vx, y := p.y + vy, vy := vy, onGround := false)
  }

  /** updateInvulnerability: count down while invulnerable; the flag clears
      on the tick the counter reaches zero or below. */
  function UpdateInvulnerability(p: Player): (r: Player)
    ensures p.invulnerable ==> r.invulnerabilityTimer == p.invulnerabilityTimer - 1
    ensures p.invulnerable ==> (r.invulnerable <==> p.invulnerabilityTimer > 1)
    ensures !p.invulnerable ==> r == p
    ensures r == p.(invulnerable := r.invulnerable, invulnerabilityTimer := r.invulnerabilityTimer)
  {
    if p.invulnerable then
      var t := p.invulnerabilityTimer - 1;
      p.(invulnerabilityTimer := t, invulnerable := t > 0)
    else p
  }

  /** updatePowerUp: a big player's positive timer counts down; reaching
      zero shrinks the player. */
  function UpdatePowerUp(p: Player): (r: Player)
    ensures p.big && p.powerUpTimer > 1 ==> r == p.(powerUpTimer := p.powerUpTimer - 1)
    ensures p.big && p.powerUpTimer == 1 ==> r == Shrink(p).(powerUpTimer := 0)
    ensures !(p.big && p.powerUpTimer > 0) ==> r == p
  {
    if p.big && p.powerUpTimer > 0 then
      var q := p.(powerUpTimer := p.powerUpTimer - 1);
      if q.powerUpTimer <= 0 then Shrink(q) else q
    else p
  }

  /** updateFirePower: the fire power's positive timer counts down and
      clears the power when it reaches zero. */
  function UpdateFirePower(p: Player): (r: Player)
    ensures p.firePower && p.firePowerTimer > 0 ==>
      r.firePowerTimer == p.firePowerTimer - 1 && (r.firePower <==> p.firePowerTimer > 1)
    ensures !(p.firePower && p.firePowerTimer > 0) ==> r == p
    ensures r == p.(firePower := r.firePower, firePowerTimer := r.firePowerTimer)
  {
    if p.firePower && p.firePowerTimer > 0 then
      var t := p.firePowerTimer - 1;
      p.(firePowerTimer := t, firePower := t > 0)
    else p
  }

  /** Player.update: input, physics, then the three countdowns. */
  function Update(p: Player, keys: Keys, ctx: Ctx): (r: (Player, Ctx))
    ensures r.0.lives == p.lives
    ensures !r.0.onGround
    ensures r.1.score == ctx.score && r.1.coins == ctx.coins
  {
    var (q, c) := HandleInput(p, keys, ctx);
    (UpdateFirePower(UpdatePowerUp(UpdateInvulnerability(UpdatePhysics(q)))), c)
  }

  /** The result of resolving the player against one platform: the player,
      the platform (whose playerOn flag is rewritten) and whether it landed. */
  datatype Contact = Contact(player: Player, platform: Platform, landed: bool)

  /** The resolver proper, which reads only the platform's box: on overlap
      the side of least penetration is resolved, tried in the order top,
      bottom, left, right, each only when the velocity points into the box
      from that side. The flag says whether the player landed. */
  function Resolve(p: Player, b: Box): (r: (Player, bool))
    ensures !Overlaps(p.Box(), b) ==> r == (p, false)
    // a landing is exactly a falling overlap whose least penetration is from the top
    ensures r.1 <==>
      Overlaps(p.Box(), b) && p.vy > 0.0 &&
      Penetration(p.Box(), b).Least() == Penetration(p.Box(), b).top
    ensures r.1 ==> r.0 == p.(y := b.y - p.height, vy := 0.0, onGround := true)
    ensures !r.1 ==> r.0.onGround == p.onGround
    // only position, velocity and ground contact can change
    ensures r.0 == p.(x := r.0.x, y := r.0.y, vx := r.0.vx, vy := r.0.vy, onGround := r.0.onGround)
  {
    if !Overlaps(p.Box(), b) then (p, false)
    else
      var d := Penetration(p.Box(), b);
      var least := d.Least();
      if least == d.top && p.vy > 0.0 then
        (p.(y := b.y - p.height, vy := 0.0, onGround := true), true)
      else if least == d.bottom && p.vy < 0.0 then
        (p.(y := b.y + b.height, vy := 0.0), false)
      else if least == d.left && p.vx > 0.0 then
        (p.(x := b.x - p.width, vx := 0.0), false)
      else if least == d.right && p.vx < 0.0 then
        (p.(x := b.x + b.width, vx := 0.0), false)
      else (p, false)
  }

  /** handlePlatformCollision: the platform's playerOn flag is cleared and
      set again only by a landing; `visible` is not consulted, so an
      invisible platform is still solid. */
  function HandlePlatformCollision(p: Player, plat: Platform): (r: Contact)
    ensures r.platform == plat.(playerOn := r.landed)
    ensures !Overlaps(p.Box(), plat.Box()) ==> r.player == p && !r.landed
    ensures r.landed <==>
      Overlaps(p.Box(), plat.Box()) && p.vy > 0.0 &&
      Penetration(p.Box(), plat.Box()).Least() == Penetration(p.Box(), plat.Box()).top
    ensures r.landed ==>
      r.player.y + r.player.height == plat.y && r.player.vy == 0.0 && r.player.onGround &&
      r.player.x == p.x && r.player.vx == p.vx
    ensures !r.landed ==> r.player.onGround == p.onGround
    ensures r.player == p.(x := r.player.x, y := r.player.y, vx := r.player.vx,
                           vy := r.player.vy, onGround := r.player.onGround)
  {
    var (q, landed) := Resolve(p, plat.Box());
    Contact(q, plat.(playerOn := landed), landed)
  }

  /** Each of the four corrections moves the player by the depth of its
      side, along one axis, onto the box's edge. */
  lemma TopPush(p: Player, b: Box)
    ensures var q := p.(y := b.y - p.height, vy := 0.0, onGround := true);
      !Overlaps(q.Box(), b) && q.x == p.x && p.y - q.y == Penetration(p.Box(), b).top
  {
    EdgeContactIsNoOverlap(p.(y := b.y - p.height).Box(), b);
  }

  lemma BottomPush(p: Player, b: Box)
    ensures var q := p.(y := b.y + b.height, vy := 0.0);
      !Overlaps(q.Box(), b) && q.x == p.x && q.y - p.y == Penetration(p.Box(), b).bottom
  {
    EdgeContactIsNoOverlap(p.(y := b.y + b.height).Box(), b);
  }

  lemma LeftPush(p: Player, b: Box)
    ensures var q := p.(x := b.x - p.width, vx := 0.0);
      !Overlaps(q.Box(), b) && q.y == p.y && p.x - q.x == Penetration(p.Box(), b).left
  {
    EdgeContactIsNoOverlap(p.(x := b.x - p.width).Box(), b);
  }

  lemma RightPush(p: Player, b: Box)
    ensures var q := p.(x := b.x + b.width, vx := 0.0);
      !Overlaps(q.Box(), b) && q.y == p.y && q.x - p.x == Penetration(p.Box(), b).right
  {
    EdgeContactIsNoOverlap(p.(x := b.x + b.width).Box(), b);
  }

  /** A correction happens only on an overlap and leaves the player
      touching, not overlapping, the box. */
  lemma ResolveSeparates(p: Player, b: Box)
    ensures var q := Resolve(p, b).0;
      q != p ==> Overlaps(p.Box(), b) && !Overlaps(q.Box(), b)
  {
    var q := Resolve(p, b).0;
    if Overlaps(p.Box(), b) {
      var d := Penetration(p.Box(), b);
      var least := d.Least();
      if least == d.top && p.vy > 0.0 {
        TopPush(p, b);
      } else if least == d.bottom && p.vy < 0.0 {
        BottomPush(p, b);
      } else if least == d.left && p.vx > 0.0 {
        LeftPush(p, b);
      } else if least == d.right && p.vx < 0.0 {
        RightPush(p, b);
      }
    }
  }

  /** A correction moves the player by exactly the least penetration,
      along one axis. */
  lemma ResolveMovesByLeast(p: Player, b: Box)
    ensures var q := Resolve(p, b).0;
      var d := Penetration(p.Box(), b);
      q != p ==>
        (q.x == p.x && (q.y - p.y == d.Least() || p.y - q.y == d.Least())) ||
        (q.y == p.y && (q.x - p.x == d.Least() || p.x - q.x == d.Least()))
  {
    var q := Resolve(p, b).0;
    if Overlaps(p.Box(), b) {
      var d := Penetration(p.Box(), b);
      var least := d.Least();
      if least == d.top && p.vy > 0.0 {
        TopPush(p, b);
      } else if least == d.bottom && p.vy < 0.0 {
        BottomPush(p, b);
      } else if least == d.left && p.vx > 0.0 {
        LeftPush(p, b);
      } else if least == d.right && p.vx < 0.0 {
        RightPush(p, b);
      }
    }
  }

  /** The same for handlePlatformCollision and a platform. */
  lemma ResolutionSeparates(p: Player, plat: Platform)
    ensures var r := HandlePlatformCollision(p, plat);
      var d := Penetration(p.Box(), plat.Box());
      r.player != p ==>
        && Overlaps(p.Box(), plat.Box())
        && !Overlaps(r.player.Box(), plat.Box())
        && ((r.player.x == p.x && (r.player.y - p.y == d.Least() || p.y - r.player.y == d.Least())) ||
            (r.player.y == p.y && (r.player.x - p.x == d.Least() || p.x - r.player.x == d.Least())))
  {
    ResolveSeparates(p, plat.Box());
    ResolveMovesByLeast(p, plat.Box());
    assert HandlePlatformCollision(p, plat).player == Resolve(p, plat.Box()).0;
  }

  /** The guard-order of the resolver: which side, if any, is corrected. */
  datatype Side = Top | Ceiling | LeftWall | RightWall | Unresolved

  /** The side the resolver corrects, read off the result. */
  function SideOf(p: Player, r: Contact): Side
  {
    if r.landed then Top
    else if r.player.y != p.y then Ceiling
    else if r.player.x != p.x && r.player.x < p.x then LeftWall
    else if r.player.x != p.x then RightWall
    else Unresolved
  }

  /** A head bump happens exactly when the landing guard fails, the
      least penetration is from below and the player is rising; it places
      the head on the platform's underside and stops the rise. */
  lemma CeilingBump(p: Player, plat: Platform)
    requires p.height > 0.0 && plat.height > 0.0
    ensures var r := HandlePlatformCollision(p, plat);
      var d := Penetration(p.Box(), plat.Box());
      (SideOf(p, r) == Ceiling <==>
        Overlaps(p.Box(), plat.Box()) && !(d.Least() == d.top && p.vy > 0.0) &&
        d.Least() == d.bottom && p.vy < 0.0)
      && (SideOf(p, r) == Ceiling ==> r.player.y == plat.y + plat.height && r.player.vy == 0.0)
  {
  }

  /** Walls are tried only after both vertical sides: a left-wall stop
      happens exactly when neither vertical branch applies, the least
      penetration is from the platform's left and the player moves right. */
  lemma WallStops(p: Player, plat: Platform)
    requires p.width > 0.0 && plat.width > 0.0 && p.height > 0.0 && plat.height > 0.0
    ensures var r := HandlePlatformCollision(p, plat);
      var d := Penetration(p.Box(), plat.Box());
      var vertical := (d.Least() == d.top && p.vy > 0.0) || (d.Least() == d.bottom && p.vy < 0.0);
      && (SideOf(p, r) == LeftWall <==>
           Overlaps(p.Box(), plat.Box()) && !vertical && d.Least() == d.left && p.vx > 0.0)
      && (SideOf(p, r) == RightWall <==>
           Overlaps(p.Box(), plat.Box()) && !vertical &&
           !(d.Least() == d.left && p.vx > 0.0) && d.Least() == d.right && p.vx < 0.0)
      && (SideOf(p, r) == LeftWall ==> r.player.x + r.player.width == plat.x && r.player.vx == 0.0)
      && (SideOf(p, r) == RightWall ==> r.player.x == plat.x + plat.width && r.player.vx == 0.0)
  {
  }

  /** The permissive case: an overlap whose least-penetration side has its
      velocity guard failing is left uncorrected. */
  lemma UnguardedOverlapStays(p: Player, plat: Platform)
    requires Overlaps(p.Box(), plat.Box())
    requires var d := Penetration(p.Box(), plat.Box());
      !(d.Least() == d.top && p.vy > 0.0) && !(d.Least() == d.bottom && p.vy < 0.0) &&
      !(d.Least() == d.left && p.vx > 0.0) && !(d.Least() == d.right && p.vx < 0.0)
    ensures HandlePlatformCollision(p, plat).player == p
    ensures Overlaps(HandlePlatformCollision(p, plat).player.Box(), plat.Box())
  {
  }

  /** Visibility plays no part in the resolver. */
  lemma InvisiblePlatformsAreSolid(p: Player, plat: Platform)
    ensures HandlePlatformCollision(p, plat.(visible := false)).player ==
            HandlePlatformCollision(p, plat).player
    ensures HandlePlatformCollision(p, plat.(visible := false)).landed ==
            HandlePlatformCollision(p, plat).landed
  {
    assert plat.(visible := false).Box() == plat.Box();
  }

  /** The result of takeDamage: the player and whether the game is over. */
  datatype Damage = Damage(player: Player, gameOver: bool)

  /** takeDamage: ignored while invulnerable; a big player shrinks and keeps
      its lives; a small one loses a life. Either way a 120-tick grace period
      starts, and only losing the last life reports game over. */
  function TakeDamage(p: Player): (r: Damage)
    ensures p.invulnerable ==> r == Damage(p, false)
    ensures !p.invulnerable ==> r.player.invulnerable && r.player.invulnerabilityTimer == GraceTicks
    ensures !p.invulnerable && p.big ==>
      && r.player.lives == p.lives && !r.player.big
      && r.player.height == SmallHeight && r.player.y == p.y + 16.0 && !r.gameOver
    ensures !p.invulnerable && !p.big ==>
      && r.player.lives == p.lives - 1 && r.player.y == p.y && r.player.height == p.height
      && (r.gameOver <==> p.lives <= 1)
    ensures r.player.x == p.x && r.player.vx == p.vx && r.player.vy == p.vy
    ensures r.gameOver ==> r.player.lives <= 0
    // nothing else about the player changes
    ensures !p.invulnerable && p.big ==>
      r.player == p.(big := false, height := SmallHeight, y := p.y + 16.0,
                     invulnerable := true, invulnerabilityTimer := GraceTicks)
    ensures !p.invulnerable && !p.big ==>
      r.player == p.(lives := p.lives - 1, invulnerable := true, invulnerabilityTimer := GraceTicks)
  {
    if p.invulnerable then Damage(p, false)
    else if p.big then Damage(MakeInvulnerable(Shrink(p)), false)
    else
      var q := MakeInvulnerable(p.(lives := p.lives - 1));
      Damage(q, q.lives <= 0)
  }

  function MakeInvulnerable(p: Player): (r: Player)
    ensures r.invulnerable && r.invulnerabilityTimer == GraceTicks
    ensures r == p.(invulnerable := true, invulnerabilityTimer := GraceTicks)
  {
    p.(invulnerable := true, invulnerabilityTimer := GraceTicks)
  }

  /** grow: a small player becomes big, 16 units taller upwards, with a
      power-up timer of 1800 ticks and a power-up burst; a big one is unchanged. */
  function Grow(p: Player, ctx: Ctx): (r: (Player, Ctx))
    ensures p.big ==> r == (p, ctx)
    ensures !p.big ==>
      && r.0.big && r.0.height == BigHeight && r.0.y == p.y - 16.0
      && (p.height == SmallHeight ==> r.0.Box().Bottom() == p.Box().Bottom())
      && r.0.powerUpTimer == PowerUpTicks && r.1 == ctx.Burst(PowerUpBurst)
    ensures r.0.x == p.x && r.0.lives == p.lives && r.0.invulnerable == p.invulnerable
    // nothing else about the player changes
    ensures !p.big ==> r.0 == p.(big := true, height := BigHeight, y := p.y - 16.0, powerUpTimer := PowerUpTicks)
  {
    if p.big then (p, ctx)
    else (p.(big := true, height := BigHeight, y := p.y - 16.0, powerUpTimer := PowerUpTicks),
          ctx.Burst(PowerUpBurst))
  }

  /** gainFirePower: fire power for 1800 ticks, with a power-up burst. */
  function GainFirePower(p: Player, ctx: Ctx): (r: (Player, Ctx))
    ensures r.0.firePower && r.0.firePowerTimer == FirePowerTicks
    ensures r.0 == p.(firePower := true, firePowerTimer := FirePowerTicks)
    ensures r.1 == ctx.Burst(PowerUpBurst)
  {
    (p.(firePower := true, firePowerTimer := FirePowerTicks), ctx.Burst(PowerUpBurst))
  }

  /** shrink: a big player becomes small again, keeping its feet in place
      (height 48 at y becomes height 32 at y + 16); a small one is unchanged. */
  function Shrink(p: Player): (r: Player)
    ensures !p.big ==> r == p
    ensures p.big ==> !r.big && r.height == SmallHeight && r.y == p.y + 16.0
    ensures r == p.(big := r.big, height := r.height, y := r.y)
  {
    if p.big then p.(big := false, height := SmallHeight, y := p.y + 16.0) else p
  }

  /** Growing a small player and shrinking it again restores its position
      and height; only the power-up timer and the burst remain. */
  lemma ShrinkUndoesGrow(p: Player, ctx: Ctx)
    requires !p.big && p.height == SmallHeight
    ensures Shrink(Grow(p, ctx).0) == p.(powerUpTimer := PowerUpTicks)
  {
  }

  /** reset: back to a standing start at (x, y), small, without fire or
      invulnerability. Lives and the two power timers are untouched, and
      since shrink runs after y is set, a big player ends 16 lower. */
  function Reset(p: Player, x: real, y: real): (r: Player)
    ensures r.x == x && r.vx == 0.0 && r.vy == 0.0 && !r.onGround && r.direction == 1
    ensures !r.invulnerable && r.invulnerabilityTimer == 0 && !r.big && !r.firePower
    ensures r.y == (if p.big then y + 16.0 else y)
    ensures r.height == (if p.big then SmallHeight else p.height)
    ensures r.lives == p.lives && r.width == p.width
    ensures r.powerUpTimer == p.powerUpTimer && r.firePowerTimer == p.firePowerTimer
  {
    var q := p.(x := x, y := y, vx := 0.0, vy := 0.0, onGround := false, direction := 1,
                invulnerable := false, invulnerabilityTimer := 0);
    Shrink(q).(firePower := false)
  }

  /** Applying the invulnerability countdown n times. */
  function CountDown(p: Player, n: nat): Player
    decreases n
  {
    if n == 0 then p else CountDown(UpdateInvulnerability(p), n - 1)
  }

  /** With t ticks left, the player is still invulnerable with t - k left
      after k < t ticks, and vulnerable again after exactly t. */
  lemma {:induction false} GraceLasts(p: Player, k: nat)
    requires p.invulnerable && 0 < p.invulnerabilityTimer && k <= p.invulnerabilityTimer
    ensures CountDown(p, k).invulnerabilityTimer == p.invulnerabilityTimer - k
    ensures CountDown(p, k).invulnerable <==> k < p.invulnerabilityTimer
    decreases k
  {
    if k > 0 {
      var q := UpdateInvulnerability(p);
      if k > 1 {
        GraceLasts(q, k - 1);
      } else {
        assert CountDown(p, k) == CountDown(q, 0);
      }
    }
  }

  /** Exactly 120 countdown ticks after being hit, the grace period is over. */
  lemma GraceIs120Ticks(p: Player)
    ensures CountDown(MakeInvulnerable(p), 119).invulnerable
    ensures !CountDown(MakeInvulnerable(p), 120).invulnerable
  {
    GraceLasts(MakeInvulnerable(p), 119);
    GraceLasts(MakeInvulnerable(p), 120);
  }
}
