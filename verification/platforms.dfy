/** Platforms (the Platform class of src/level.js) and the per-platform step
    of Level.update: moving platforms oscillate around their start position,
    disappearing platforms count the ticks a player stands on them. */
module Platforms {
  import opened Geometry

  datatype Kind = Ground | Brick | Pipe | Cloud

  /** A moving platform carries its speed, its half-range and its start x.
      `dir` is the move direction; 0 stands for the source's not-yet-set
      direction, which the first update turns into 1. */
  datatype Motion = Fixed | Moving(speed: real, range: real, startX: real, dir: int)

  /** `visible` is only ever switched off; `playerOn` is rewritten by the
      player's collision pass every tick. */
  datatype Platform = Platform(
    x: real, y: real, width: real, height: real, kind: Kind,
    motion: Motion, disappearing: bool, disappearTimer: int,
    visible: bool, playerOn: bool)
  {
    function Box(): Box
    {
      Geometry.Box(x, y, width, height)
    }
  }

  /** A disappearing platform vanishes once its timer exceeds this many ticks. */
  const VanishAfter: int := 60

  /** The Platform constructor: position, size and kind; every other
      property starts unset, which the model spells out as a fixed, solid,
      visible platform nobody stands on. */
  function NewPlatform(x: real, y: real, width: real, height: real, kind: Kind): (r: Platform)
    ensures r.Box() == Geometry.Box(x, y, width, height) && r.kind == kind
    ensures r.motion.Fixed? && !r.disappearing && r.disappearTimer == 0
    ensures r.visible && !r.playerOn
  {
    Platform(x, y, width, height, kind, Fixed, false, 0, true, false)
  }

  /** The direction a moving platform actually uses: an unset one counts as 1. */
  function Heading(dir: int): int
  {
    if dir == 0 then 1 else dir
  }

  /** The moving part of Level.update: advance by speed in the current
      direction, and reverse once the offset from startX reaches +range or
      -range. */
  function Slide(p: Platform): Platform
  {
    match p.motion
    case Fixed => p
    case Moving(speed, range, startX, dir) =>
      var d := Heading(dir);
      var nx := p.x + speed * d as real;
      var d' := if nx >= startX + range || nx <= startX - range then -d else d;
      p.(x := nx, motion := Moving(speed, range, startX, d'))
  }

  /** The disappearing part of Level.update. */
  function Fade(p: Platform): Platform
  {
    if p.disappearing && p.playerOn then
      var t := p.disappearTimer + 1;
      p.(disappearTimer := t, visible := if t > VanishAfter then false else p.visible)
    else p
  }

  /** One tick of Level.update for one platform. */
  function Update(p: Platform): (r: Platform)
    ensures r.y == p.y && r.width == p.width && r.height == p.height && r.kind == p.kind
    ensures r.playerOn == p.playerOn && r.disappearing == p.disappearing
    ensures p.motion.Fixed? ==> r.x == p.x && r.motion.Fixed?
    ensures p.motion.Moving? ==>
      && r.motion.Moving?
      && r.motion.speed == p.motion.speed && r.motion.range == p.motion.range
      && r.motion.startX == p.motion.startX
      && r.x == p.x + p.motion.speed * Heading(p.motion.dir) as real
      // the direction is kept or reversed, and reversed exactly when the new
      // x has reached either end of the range
      && (r.motion.dir == Heading(p.motion.dir) || r.motion.dir == -Heading(p.motion.dir))
      && (r.motion.dir == -Heading(p.motion.dir) <==>
            r.x >= p.motion.startX + p.motion.range || r.x <= p.motion.startX - p.motion.range)
    ensures r.disappearTimer ==
      if p.disappearing && p.playerOn then p.disappearTimer + 1 else p.disappearTimer
    ensures r.visible ==> p.visible
    ensures !r.visible <==>
      !p.visible || (p.disappearing && p.playerOn && p.disappearTimer + 1 > VanishAfter)
  {
    Fade(Slide(p))
  }

  function UpdateTimes(p: Platform, n: nat): Platform
    decreases n
  {
    if n == 0 then p else UpdateTimes(Update(p), n - 1)
  }

  /** The state a moving platform keeps: its offset from startX is strictly
      within range + speed, below +range while heading right and above
      -range while heading left. */
  predicate InSwing(p: Platform)
  {
    match p.motion
    case Fixed => false
    case Moving(speed, range, startX, dir) =>
      var off := p.x - startX;
      var d := Heading(dir);
      && speed > 0.0 && range > 0.0 && (dir == 0 || dir == 1 || dir == -1)
      && -range - speed < off < range + speed
      && (d == 1 ==> off < range)
      && (d == -1 ==> off > -range)
  }

  lemma UpdateKeepsSwing(p: Platform)
    requires InSwing(p)
    ensures InSwing(Update(p))
  {
  }

  /** A moving platform as addMovingPlatforms creates it. */
  predicate FreshMover(p: Platform)
  {
    p.motion == Moving(1.0, 200.0, p.x, 0)
  }

  /** With speed 1 and range 200, starting at startX, the platform stays
      within [startX - 200, startX + 200] on every tick. */
  lemma MoverStaysInRange(p: Platform, n: nat)
    requires FreshMover(p)
    ensures UpdateTimes(p, n).motion.Moving?
    ensures p.x - 200.0 <= UpdateTimes(p, n).x <= p.x + 200.0
  {
    StepwiseRange(p, p.x, 0, n);
  }

  /** The offset from startX moves in whole steps of 1, so staying strictly
      below 201 means staying at most 200. */
  lemma {:induction false} StepwiseRange(p: Platform, startX: real, k: int, n: nat)
    requires InSwing(p) && p.motion.speed == 1.0 && p.motion.range == 200.0
    requires p.motion.startX == startX && p.x == startX + k as real
    ensures UpdateTimes(p, n).motion.Moving?
    ensures startX - 200.0 <= UpdateTimes(p, n).x <= startX + 200.0
    decreases n
  {
    assert -201 < k < 201;
    if n > 0 {
      var q := Update(p);
      UpdateKeepsSwing(p);
      var h := Heading(p.motion.dir);
      assert q.x == startX + (k + h) as real;
      StepwiseRange(q, startX, k + h, n - 1);
    }
  }

  /** A fixed platform that does not disappear, such as a new one, never
      changes, however many updates it sees. */
  lemma {:induction false} FixedPlatformStaysPut(p: Platform, n: nat)
    requires p.motion.Fixed? && !p.disappearing
    ensures UpdateTimes(p, n) == p
    decreases n
  {
    if n > 0 {
      assert Update(p) == p;
      FixedPlatformStaysPut(p, n - 1);
    }
  }

  /** Once a platform is invisible it stays invisible, whatever happens on it. */
  lemma {:induction false} VanishedStaysVanished(p: Platform, n: nat)
    requires !p.visible
    ensures !UpdateTimes(p, n).visible
    decreases n
  {
    if n > 0 {
      VanishedStaysVanished(Update(p), n - 1);
    }
  }

  /** A disappearing platform a player keeps standing on turns invisible on
      the 61st tick of standing (when it starts from timer 0 and visible). */
  lemma {:induction false} StandingCountsUp(p: Platform, n: nat)
    requires p.disappearing && p.playerOn && p.visible && p.disappearTimer == 0
    ensures UpdateTimes(p, n).disappearTimer == n
    ensures UpdateTimes(p, n).visible <==> n <= VanishAfter
    decreases n
  {
    if n > 0 {
      CountUpFrom(Update(p), n - 1, 1);
    }
  }

  lemma {:induction false} CountUpFrom(p: Platform, n: nat, t: int)
    requires p.disappearing && p.playerOn && p.disappearTimer == t && t >= 1
    requires p.visible <==> t <= VanishAfter
    ensures UpdateTimes(p, n).disappearTimer == t + n
    ensures UpdateTimes(p, n).visible <==> t + n <= VanishAfter
    decreases n
  {
    if n > 0 {
      CountUpFrom(Update(p), n - 1, t + 1);
    }
  }
}
