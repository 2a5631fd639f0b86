/** The part of the session that entity code reaches through the global
    `game` object: the score, the coin count and the particle list. Passing
    it explicitly makes every entity operation a pure function. */
module Context {
  import opened Particles

  datatype Ctx = Ctx(score: int, coins: int, particles: seq<Particle>)
  {
    /** game.score += points */
    function Award(points: int): (r: Ctx)
      ensures r.score == score + points && r.coins == coins && r.particles == particles
    {
      this.(score := score + points)
    }

    /** game.particleSystem.create*Effect(...) */
    function Burst(e: Effect): (r: Ctx)
      ensures r.score == score && r.coins == coins
      ensures r.particles == Emit(particles, e)
    {
      this.(particles := Emit(particles, e))
    }
  }
}
