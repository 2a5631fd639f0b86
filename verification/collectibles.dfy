/** Collectibles (src/collectibles.js): overlap, mark collected, apply the
    type's effect on score, coins and player, and purge collected items. */
module Collectibles {
  import opened Geometry
  import opened Particles
  import opened Context
  import opened Players
  import opened Seqs

  const ItemSize: real := 20.0
  const CoinPoints: int := 200
  const PowerUpPoints: int := 1000
  /** A star's invulnerability lasts 600 ticks, not the 120 of a hit. */
  const StarTicks: int := 600

  /** Fire flowers and 1-ups are placed by the level but have no effect case. */
  datatype ItemKind = Coin | Mushroom | Star | FireFlower | OneUp

  datatype Collectible = Collectible(x: real, y: real, width: real, height: real,
                                     kind: ItemKind, collected: bool)
  {
    function Box(): Box
    {
      Geometry.Box(x, y, width, height)
    }
  }

  function NewCollectible(x: real, y: real, kind: ItemKind): (r: Collectible)
    ensures !r.collected && r.kind == kind && r.Box() == Geometry.Box(x, y, 20.0, 20.0)
  {
    Collectible(x, y, ItemSize, ItemSize, kind, false)
  }

  /** Points an item's effect awards. */
  function Worth(k: ItemKind): int
  {
    match k
    case Coin => CoinPoints
    case Mushroom => PowerUpPoints
    case Star => PowerUpPoints
    case FireFlower => 0
    case OneUp => 0
  }

  /** The outcome of one item meeting the player. */
  datatype Pickup = Pickup(item: Collectible, player: Player, ctx: Ctx, taken: bool)

  /** collect: mark collected, then the type's effect. */
  function Collect(c: Collectible, p: Player, ctx: Ctx): (r: Pickup)
    ensures r.item == c.(collected := true) && r.taken
    ensures r.ctx.score == ctx.score + Worth(c.kind)
    ensures r.ctx.coins == ctx.coins + (if c.kind == Coin then 1 else 0)
    ensures c.kind == Coin ==> r.player == p && r.ctx.particles == Emit(ctx.particles, CoinBurst)
    ensures c.kind == Mushroom ==> r.player == Grow(p, ctx).0
    ensures c.kind == Mushroom && p.big ==> r.player == p && r.ctx == ctx.Award(PowerUpPoints)
    ensures c.kind == Star ==>
      r.player == p.(invulnerable := true, invulnerabilityTimer := StarTicks) &&
      r.ctx == ctx.Award(PowerUpPoints)
    ensures c.kind == FireFlower || c.kind == OneUp ==> r.player == p && r.ctx == ctx
  {
    var taken := c.(collected := true);
    match c.kind
    case Coin =>
      Pickup(taken, p, Ctx(ctx.score + CoinPoints, ctx.coins + 1, ctx.particles).Burst(CoinBurst), true)
    case Mushroom =>
      var (q, c') := Grow(p, ctx);
      Pickup(taken, q, c'.Award(PowerUpPoints), true)
    case Star =>
      Pickup(taken, MakeInvulnerable(p).(invulnerabilityTimer := StarTicks),
             ctx.Award(PowerUpPoints), true)
    case FireFlower => Pickup(taken, p, ctx, true)
    case OneUp => Pickup(taken, p, ctx, true)
  }

  /** checkPlayerCollision: an already collected item does nothing; an
      overlapping one is collected; otherwise nothing happens. */
  function CheckPlayerCollision(c: Collectible, p: Player, ctx: Ctx): (r: Pickup)
    ensures r.taken <==> !c.collected && Overlaps(c.Box(), p.Box())
    ensures r.taken ==> r == Collect(c, p, ctx)
    ensures !r.taken ==> r == Pickup(c, p, ctx, false)
  {
    if c.collected then Pickup(c, p, ctx, false)
    else if Overlaps(c.Box(), p.Box()) then Collect(c, p, ctx)
    else Pickup(c, p, ctx, false)
  }

  predicate IsPending(c: Collectible)
  {
    !c.collected
  }

  /** CollectibleManager.update: collected items are purged, the rest keep
      their order. The float animation is not modelled. */
  function UpdateAll(items: seq<Collectible>): (r: seq<Collectible>)
    ensures forall i :: 0 <= i < |r| ==> !r[i].collected
    ensures forall i :: 0 <= i < |items| && !items[i].collected ==> items[i] in r
  {
    Filter(items, IsPending)
  }

  /** The purge splits over concatenation; with PurgeOne this fixes the
      result exactly: the uncollected items, in order, each once. */
  lemma PurgeSplits(a: seq<Collectible>, b: seq<Collectible>)
    ensures UpdateAll(a + b) == UpdateAll(a) + UpdateAll(b)
  {
    FilterAppend(a, b, IsPending);
  }

  /** A single item is dropped exactly when it is collected. */
  lemma PurgeOne(c: Collectible)
    ensures UpdateAll([c]) == if c.collected then [] else [c]
  {
    assert [c][1..] == [];
  }

  /** With nothing collected, the purge leaves the list as it is. */
  lemma PurgeKeepsPending(items: seq<Collectible>)
    requires forall i :: 0 <= i < |items| ==> !items[i].collected
    ensures UpdateAll(items) == items
  {
    FilterKeepsAll(items, IsPending);
  }

  /** Purging twice is purging once. */
  lemma PurgeIdempotent(items: seq<Collectible>)
    ensures UpdateAll(UpdateAll(items)) == UpdateAll(items)
  {
    PurgeKeepsPending(UpdateAll(items));
  }

  /** Items collected by a sweep that were not collected before it. */
  function Newly(before: seq<Collectible>, after: seq<Collectible>, kind: ItemKind): nat
    requires |before| == |after|
  {
    if |before| == 0 then 0
    else (if !before[0].collected && after[0].collected && before[0].kind == kind then 1 else 0)
         + Newly(before[1..], after[1..], kind)
  }

  /** Points earned by the items a sweep newly collected. */
  function PointsFor(before: seq<Collectible>, after: seq<Collectible>): int
    requires |before| == |after|
  {
    if |before| == 0 then 0
    else (if !before[0].collected && after[0].collected then Worth(before[0].kind) else 0)
         + PointsFor(before[1..], after[1..])
  }

  /** No item is worth negative points, so a sweep never lowers the score. */
  lemma {:induction false} PointsNeverNegative(before: seq<Collectible>, after: seq<Collectible>)
    requires |before| == |after|
    ensures PointsFor(before, after) >= 0
    decreases |before|
  {
    if |before| > 0 {
      PointsNeverNegative(before[1..], after[1..]);
    }
  }

  /** The outcome of the manager's sweep. */
  datatype Haul = Haul(items: seq<Collectible>, player: Player, ctx: Ctx)

  /** CollectibleManager.checkPlayerCollisions: every item is visited, so
      several can be collected in one call; each item meets the player as
      the earlier items left it. */
  function CheckPlayerCollisions(items: seq<Collectible>, p: Player, ctx: Ctx): (r: Haul)
    ensures |r.items| == |items|
    ensures forall i :: 0 <= i < |items| ==>
      r.items[i] == items[i] || (!items[i].collected && r.items[i] == items[i].(collected := true))
    ensures r.ctx.coins == ctx.coins + Newly(items, r.items, Coin)
    ensures r.ctx.score == ctx.score + PointsFor(items, r.items)
    ensures r.player.lives == p.lives && r.player.x == p.x
    ensures p.invulnerable ==> r.player.invulnerable
    decreases |items|
  {
    if |items| == 0 then Haul([], p, ctx)
    else
      var c := CheckPlayerCollision(items[0], p, ctx);
      var rest := CheckPlayerCollisions(items[1..], c.player, c.ctx);
      var out := [c.item] + rest.items;
      assert out[1..] == rest.items;
      Haul(out, rest.player, rest.ctx)
  }

  /** With no mushroom among them (the only effect that changes the
      player's box), an item ends up collected exactly when it was already
      collected or it overlaps the player. */
  lemma {:induction false} SweepTakesEveryOverlap(items: seq<Collectible>, p: Player, ctx: Ctx)
    requires forall i :: 0 <= i < |items| ==> items[i].kind != Mushroom
    ensures var r := CheckPlayerCollisions(items, p, ctx);
      forall i :: 0 <= i < |items| ==>
        (r.items[i].collected <==> items[i].collected || Overlaps(items[i].Box(), p.Box()))
    ensures CheckPlayerCollisions(items, p, ctx).player.Box() == p.Box()
    decreases |items|
  {
    if |items| > 0 {
      var c := CheckPlayerCollision(items[0], p, ctx);
      assert c.player.Box() == p.Box();
      SweepTakesEveryOverlap(items[1..], c.player, c.ctx);
      var r := CheckPlayerCollisions(items, p, ctx);
      var rest := CheckPlayerCollisions(items[1..], c.player, c.ctx);
      assert r.items == [c.item] + rest.items;
      forall i | 0 <= i < |items|
        ensures r.items[i].collected <==> items[i].collected || Overlaps(items[i].Box(), p.Box())
      {
        if i > 0 {
          assert r.items[i] == rest.items[i - 1] && items[i] == items[1..][i - 1];
        }
      }
    }
  }
}
