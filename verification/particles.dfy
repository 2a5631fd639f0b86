/** Particle lifetimes (src/particles.js). A particle's position, velocity,
    colour and fade are presentation only, so a particle here is just its
    remaining life in ticks. */
module Particles {

  datatype Particle = Particle(life: int)

  /** Particle.update: the only part that matters is one tick of life. */
  function Tick(p: Particle): (r: Particle)
    ensures r.life == p.life - 1
  {
    p.(life := p.life - 1)
  }

  predicate IsDead(p: Particle)
  {
    p.life <= 0
  }

  /** A dead particle stays dead after a tick, and a particle is dead after
      the tick exactly when it had at most one tick of life left. */
  lemma DeathIsFinal(p: Particle)
    ensures IsDead(p) ==> IsDead(Tick(p))
    ensures IsDead(Tick(p)) <==> p.life <= 1
  {
  }

  /** Reference meaning of ParticleSystem.update: every particle ages by one
      tick and those that died are dropped, the rest keeping their order. */
  function Survivors(ps: seq<Particle>): (r: seq<Particle>)
    ensures |r| <= |ps|
    ensures forall i :: 0 <= i < |r| ==> r[i].life > 0
  {
    if |ps| == 0 then []
    else
      var t := Tick(ps[0]);
      (if IsDead(t) then [] else [t]) + Survivors(ps[1..])
  }

  /** Survivors distributes over concatenation, so the relative order of the
      particles that stay is the order they had. */
  lemma {:induction false} SurvivorsAppend(a: seq<Particle>, b: seq<Particle>)
    ensures Survivors(a + b) == Survivors(a) + Survivors(b)
    decreases |a|
  {
    if |a| == 0 {
      assert a + b == b;
    } else {
      assert (a + b)[1..] == a[1..] + b;
      SurvivorsAppend(a[1..], b);
    }
  }

  /** A particle survives the update exactly when it had more than one tick left. */
  lemma SurvivorsOfOne(p: Particle)
    ensures Survivors([p]) == if p.life > 1 then [Tick(p)] else []
  {
    assert [p][1..] == [];
  }

  /** ParticleSystem.update as written: walk the list from the end, age each
      particle and splice it out when it is dead. */
  method UpdateSystem(ps: seq<Particle>) returns (out: seq<Particle>)
    ensures out == Survivors(ps)
  {
    out := ps;
    var i := |ps|;
    while i > 0
      invariant 0 <= i <= |ps|
      invariant out == ps[..i] + Survivors(ps[i..])
    {
      i := i - 1;
      ghost var rest := Survivors(ps[i + 1..]);
      SurvivorsStep(ps, i);
      assert out == ps[..i] + ([ps[i]] + rest) by {
        assert ps[i..] == [ps[i]] + ps[i + 1..];
      }
      Overwrite(out, ps[..i], ps[i], rest, Tick(ps[i]));
      out := out[i := Tick(out[i])];
      if IsDead(out[i]) {
        SpliceOut(out, ps[..i], Tick(ps[i]), rest);
        out := out[..i] + out[i + 1..];
        assert Survivors(ps[i..]) == rest;
      } else {
        assert Survivors(ps[i..]) == [Tick(ps[i])] + rest;
      }
    }
    assert ps[..0] + Survivors(ps[0..]) == Survivors(ps);
  }

  /** Survivors of a suffix, one particle at a time. */
  lemma SurvivorsStep(ps: seq<Particle>, i: nat)
    requires i < |ps|
    ensures Survivors(ps[i..]) ==
      (if IsDead(Tick(ps[i])) then [] else [Tick(ps[i])]) + Survivors(ps[i + 1..])
  {
    assert ps[i..][1..] == ps[i + 1..];
  }

  /** Writing y over the x between `pre` and `rest`. */
  lemma Overwrite<T>(s: seq<T>, pre: seq<T>, x: T, rest: seq<T>, y: T)
    requires s == pre + ([x] + rest)
    ensures |pre| < |s| && s[|pre|] == x && s[|pre| := y] == pre + ([y] + rest)
  {
    assert s[|pre|] == x;
  }

  /** Removing the element between `pre` and `rest`. */
  lemma SpliceOut<T>(s: seq<T>, pre: seq<T>, x: T, rest: seq<T>)
    requires s == pre + ([x] + rest)
    ensures s[..|pre|] + s[|pre| + 1..] == pre + rest
  {
    assert s[..|pre|] == pre;
    assert s[|pre| + 1..] == rest;
  }

  /** Applying the system update n times. */
  function UpdateTimes(ps: seq<Particle>, n: nat): seq<Particle>
    decreases n
  {
    if n == 0 then ps else UpdateTimes(Survivors(ps), n - 1)
  }

  /** A particle created with life L > 0 is still present, with L - k ticks
      left, after k < L updates, and is gone after the L-th. */
  lemma {:induction false} Lifetime(life: int, k: nat)
    requires 0 <= k <= life
    ensures k < life ==> UpdateTimes([Particle(life)], k) == [Particle(life - k)]
    ensures k == life && life > 0 ==> UpdateTimes([Particle(life)], k) == []
    decreases k
  {
    if k > 0 {
      SurvivorsOfOne(Particle(life));
      if life > 1 {
        Lifetime(life - 1, k - 1);
      } else {
        assert UpdateTimes([Particle(life)], k) == UpdateTimes([], k - 1);
        NothingStays(k - 1);
      }
    }
  }

  lemma {:induction false} NothingStays(n: nat)
    ensures UpdateTimes([], n) == []
  {
    if n > 0 {
      NothingStays(n - 1);
    }
  }

  /** The visual effects and how many particles, of which life, each adds. */
  datatype Effect = CoinBurst | DefeatBurst | JumpDust | PowerUpBurst
  {
    function Count(): nat
    {
      match this
      case CoinBurst => 8
      case DefeatBurst => 12
      case JumpDust => 5
      case PowerUpBurst => 15
    }

    function Life(): int
    {
      match this
      case CoinBurst => 30
      case DefeatBurst => 40
      case JumpDust => 20
      case PowerUpBurst => 50
    }
  }

  /** addParticle: appends exactly one particle. */
  function AddParticle(ps: seq<Particle>, life: int): (r: seq<Particle>)
    ensures |r| == |ps| + 1 && r[..|ps|] == ps && r[|ps|].life == life
  {
    ps + [Particle(life)]
  }

  /** The create*Effect family: a fixed number of particles, all with the
      effect's life, appended after the existing ones. */
  function Emit(ps: seq<Particle>, e: Effect): (r: seq<Particle>)
    ensures |r| == |ps| + e.Count() && r[..|ps|] == ps
    ensures forall i :: |ps| <= i < |r| ==> r[i].life == e.Life()
  {
    ps + seq(e.Count(), _ => Particle(e.Life()))
  }

  /** The coin burst adds 8 particles of life 30, the defeat burst 12 of life 40,
      the jump dust 5 of life 20 and the power-up burst 15 of life 50. */
  lemma EffectSizes(ps: seq<Particle>)
    ensures |Emit(ps, CoinBurst)| == |ps| + 8 && Emit(ps, CoinBurst)[|ps|].life == 30
    ensures |Emit(ps, DefeatBurst)| == |ps| + 12 && Emit(ps, DefeatBurst)[|ps|].life == 40
    ensures |Emit(ps, JumpDust)| == |ps| + 5 && Emit(ps, JumpDust)[|ps|].life == 20
    ensures |Emit(ps, PowerUpBurst)| == |ps| + 15 && Emit(ps, PowerUpBurst)[|ps|].life == 50
  {
  }

  function Clear(): (r: seq<Particle>)
    ensures |r| == 0
  {
    []
  }
}
