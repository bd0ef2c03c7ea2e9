/**
 * What pulls and vows pay (internal/gacha/gacha.go line 314, internal/vow/vow.go lines 288-306): skins drawn
 * from the loaded pool by raw random numbers.
 */
module Draws {
  import opened Prelude
  import opened Rarities
  import opened Inventory
  import opened Economy
  import Cairn
  import S = SkinPool
  import Vow

  /** The rules look rarities up in a pool that was loaded without an error. */
  ghost predicate Loaded(c: Rules, skins: seq<S.Skin>, pool: S.SkinPool)
  {
    S.Accepted(skins, pool) && c.pool == pool.skinRarity
  }

  /** Random numbers: the roll for the rarity, the part and the skin. */
  datatype Numbers = Numbers(roll: nat, part: nat, skin: nat)

  function Drawn(pool: S.SkinPool, rarity: Rarity, n: Numbers): string
  {
    match S.PickByRarity(pool, rarity, n.part, n.skin)
    case Some(id) => id
    case None => ""
  }

  /** On a loaded pool every draw answers, so errNoRewardPool cannot happen, and answers the rarity asked for. */
  lemma DrawHasTheRarity(c: Rules, skins: seq<S.Skin>, pool: S.SkinPool, rarity: Rarity, n: Numbers)
    requires Loaded(c, skins, pool)
    ensures S.PickByRarity(pool, rarity, n.part, n.skin) == Some(Drawn(pool, rarity, n))
    ensures Drawn(pool, rarity, n) in c.pool && c.pool[Drawn(pool, rarity, n)] == rarity
  {
    var k := match rarity case Common => 0 case Uncommon => 1 case Rare => 2 case Unique => 3 case Legendary => 4;
    S.NoneEmpty(skins, 0, k);
    S.PickHasTheRarity(skins, pool, rarity, n.part, n.skin);
  }

  // ---- Requests as they are drawn ----

  /** A request before its draws; a sync, a state read or a login draws nothing. */
  datatype Raw =
    | RawPull(slot: int, n: Numbers, id: int, delay: nat)
    | RawPray(materials: seq<Vow.Material>, nPower: real, roll: real, n: Numbers, id: int, delay: nat)
    | RawSync(grew: bool)
    | RawGetState
    | RawLogin

  function PullRarity(n: Numbers): Rarity { RarityOfRoll(n.roll % 10000) }

  /** The base or the target reward of a vow; materials that make no rarity are rejected before any draw. */
  function Reward(c: Rules, pool: S.SkinPool, ms: seq<Vow.Material>, n: Numbers, success: bool): string
  {
    match Vow.BaseOrder(c.pool, ms)
    case None => ""
    case Some(o) => Drawn(pool, Vow.OrderRarity(o + Once(success)), n)
  }

  function Draw(c: Rules, pool: S.SkinPool, raw: Raw): Request
  {
    match raw
    case RawPull(slot, n, id, delay) => Pull(slot, Drawn(pool, PullRarity(n), n), id, delay)
    case RawPray(ms, nPower, roll, n, id, delay) =>
      Pray(ms, nPower, roll, Reward(c, pool, ms, n, false), Reward(c, pool, ms, n, true), id, delay)
    case RawSync(grew) => Sync(grew)
    case RawGetState => GetState
    case RawLogin => Login
  }

  /** The last statements of a paid vow: the roll, and one more of what is drawn for the rarity it leads to. */
  lemma PaidVow(c: Rules, seed: Cairn.Seed, pool: S.SkinPool, p: Player, raw: Raw, now: int, paid: Player,
                success: bool, item: string)
    requires c.Valid() && raw.RawPray? && PrayCheck(c, raw.materials, raw.nPower).Some?
    requires Spend(p, now, VowPrayer, raw.id, raw.delay, raw.nPower).Some? && Vow.Covered(p.inventory, raw.materials)
    requires paid == Spend(p, now, VowPrayer, raw.id, raw.delay, raw.nPower).value
                     .(inventory := Vow.Remaining(p.inventory, raw.materials))
    requires success == (raw.roll <= PrayCheck(c, raw.materials, raw.nPower).value)
    requires Vow.BaseOrder(c.pool, raw.materials).Some?
    requires item == Drawn(pool, Vow.OrderRarity(Vow.BaseOrder(c.pool, raw.materials).value + Once(success)), raw.n)
    ensures var t := paid.(inventory := Grant(paid.inventory, item));
            (t, Prayed(success, item, t.inventory[item], t.balance)) == Step(c, seed, p, Draw(c, pool, raw), now)
  {}

  // ---- What they pay ----

  /** A committed pull pays one more of a pool skin whose rarity is the one rolled. */
  lemma PullPaysItsRarity(c: Rules, seed: Cairn.Seed, skins: seq<S.Skin>, pool: S.SkinPool, p: Player, raw: Raw,
                          now: int)
    requires c.Valid() && Loaded(c, skins, pool) && raw.RawPull? && Step(c, seed, p, Draw(c, pool, raw), now).1.Pulled?
    ensures var s := Step(c, seed, p, Draw(c, pool, raw), now);
            && s.1.item in c.pool && c.pool[s.1.item] == PullRarity(raw.n)
            && s.0.inventory == p.inventory[s.1.item := Count(p.inventory, s.1.item) + 1]
            && s.1.count == Count(p.inventory, s.1.item) + 1
  {
    DrawHasTheRarity(c, skins, pool, PullRarity(raw.n), raw.n);
    PullGrants(c, seed, p, Draw(c, pool, raw), now);
  }

  /** A committed pull grants the item it was given. */
  lemma PullGrants(c: Rules, seed: Cairn.Seed, p: Player, r: Request, now: int)
    requires c.Valid() && r.Pull? && Step(c, seed, p, r, now).1.Pulled?
    ensures var s := Step(c, seed, p, r, now);
            && s.1.item == r.item && s.0.inventory == p.inventory[r.item := Count(p.inventory, r.item) + 1]
            && s.1.count == Count(p.inventory, r.item) + 1
  {}

  lemma RewardHasTheRarity(c: Rules, skins: seq<S.Skin>, pool: S.SkinPool, ms: seq<Vow.Material>, n: Numbers,
                           success: bool)
    requires Loaded(c, skins, pool) && Vow.BaseOrder(c.pool, ms).Some?
    ensures Reward(c, pool, ms, n, success) in c.pool
    ensures Vow.RarityOrder(c.pool[Reward(c, pool, ms, n, success)]) == Vow.BaseOrder(c.pool, ms).value + Once(success)
  {
    DrawHasTheRarity(c, skins, pool, Vow.OrderRarity(Vow.BaseOrder(c.pool, ms).value + Once(success)), n);
  }

  /** An answered vow has passed the checks and grants one of its two rewards. */
  lemma VowGrants(c: Rules, seed: Cairn.Seed, p: Player, r: Request, now: int)
    requires c.Valid() && r.Pray?
    ensures var s := Step(c, seed, p, r, now); s.1.Prayed? ==>
            && PrayCheck(c, r.materials, r.nPower).Some?
            && s.1.item == (if s.1.success then r.targetReward else r.baseReward)
            && Count(s.0.inventory, s.1.item) == Count(Vow.Remaining(p.inventory, r.materials), s.1.item) + 1
  {}

  /**
   * An answered vow pays one more of a pool skin, exactly one rarity above the base when it succeeds and of
   * the base rarity when it fails: never below the lowest material, never more than one above the highest.
   */
  lemma VowPaysItsRarity(c: Rules, seed: Cairn.Seed, skins: seq<S.Skin>, pool: S.SkinPool, p: Player, raw: Raw,
                         now: int, lo: nat, hi: nat)
    requires c.Valid() && Loaded(c, skins, pool) && raw.RawPray?
    requires 1 <= lo <= hi <= 4
    requires forall m | m in raw.materials && m.item in c.pool :: lo <= Vow.RarityOrder(c.pool[m.item]) <= hi
    ensures var s := Step(c, seed, p, Draw(c, pool, raw), now); s.1.Prayed? ==>
            && s.1.item in c.pool && Vow.BaseOrder(c.pool, raw.materials).Some?
            && Vow.RarityOrder(c.pool[s.1.item]) == Vow.BaseOrder(c.pool, raw.materials).value + Once(s.1.success)
            && lo <= Vow.RarityOrder(c.pool[s.1.item]) <= hi + Once(s.1.success)
            && Count(s.0.inventory, s.1.item) == Count(Vow.Remaining(p.inventory, raw.materials), s.1.item) + 1
  {
    VowGrants(c, seed, p, Draw(c, pool, raw), now);
    if Step(c, seed, p, Draw(c, pool, raw), now).1.Prayed? {
      RewardHasTheRarity(c, skins, pool, raw.materials, raw.n, false);
      RewardHasTheRarity(c, skins, pool, raw.materials, raw.n, true);
      Vow.BaseBetweenMaterials(c.pool, raw.materials, lo, hi);
    }
  }

  // ---- Whole runs ----

  datatype RawCall = RawCall(raw: Raw, now: int)

  function DrawAll(c: Rules, pool: S.SkinPool, calls: seq<RawCall>): seq<Call>
  {
    if calls == [] then [] else DrawAll(c, pool, Front(calls)) + [Call(Draw(c, pool, Last(calls).raw), Last(calls).now)]
  }

  predicate HoldsSkins(c: Rules, inv: Inventory) { forall k | k in inv :: k in c.pool }

  /** What one answered request can add to the inventory. */
  predicate PaysSkins(c: Rules, r: Request)
  {
    match r
    case Pull(_, item, _, _) => item in c.pool
    case Pray(ms, nPower, _, baseReward, targetReward, _, _) =>
      PrayCheck(c, ms, nPower).Some? ==> baseReward in c.pool && targetReward in c.pool
    case _ => true
  }

  lemma DrawnPaysSkins(c: Rules, skins: seq<S.Skin>, pool: S.SkinPool, raw: Raw)
    requires Loaded(c, skins, pool)
    ensures PaysSkins(c, Draw(c, pool, raw))
  {
    match raw
    case RawPull(_, n, _, _) => DrawHasTheRarity(c, skins, pool, PullRarity(n), n);
    case RawPray(ms, nPower, _, n, _, _) =>
      if PrayCheck(c, ms, nPower).Some? {
        RewardHasTheRarity(c, skins, pool, ms, n, false);
        RewardHasTheRarity(c, skins, pool, ms, n, true);
      }
    case _ =>
  }

  lemma HoldsSkinsStep(c: Rules, seed: Cairn.Seed, p: Player, r: Request, now: int)
    requires c.Valid() && PaysSkins(c, r) && HoldsSkins(c, p.inventory)
    ensures HoldsSkins(c, Step(c, seed, p, r, now).0.inventory)
  {}

  /** Over every run, a player holds nothing but skins of the pool, so every stack can go into a vow's lookup. */
  lemma {:induction false} PlayersHoldSkins(c: Rules, seed: Cairn.Seed, skins: seq<S.Skin>, pool: S.SkinPool, p: Player,
                                            calls: seq<RawCall>)
    requires c.Valid() && Loaded(c, skins, pool) && HoldsSkins(c, p.inventory)
    ensures HoldsSkins(c, Final(c, seed, p, DrawAll(c, pool, calls)).inventory)
  {
    if calls == [] {
    } else {
      PlayersHoldSkins(c, seed, skins, pool, p, Front(calls));
      DrawnPaysSkins(c, skins, pool, Last(calls).raw);
      HoldsSkinsStep(c, seed, Final(c, seed, p, DrawAll(c, pool, Front(calls))), Draw(c, pool, Last(calls).raw),
          Last(calls).now);
      assert Front(DrawAll(c, pool, calls)) == DrawAll(c, pool, Front(calls));
    }
  }
}
