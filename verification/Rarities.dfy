/** The five rarities and the pull's threshold table (internal/gacha/rng.go). */
module Rarities {
  datatype Rarity = Common | Uncommon | Rare | Unique | Legendary

  /** rarityThresholds: cumulative cutoffs out of 10000, in table order. */
  const THRESHOLDS: seq<(Rarity, nat)> :=
    [(Common, 8000), (Uncommon, 9000), (Rare, 9500), (Unique, 9990), (Legendary, 10000)]

  /** The scan of determineRarity; the fallback after the loop is Legendary. */
  method DetermineRarity(roll: nat) returns (r: Rarity)
    ensures r == RarityOfRoll(roll)
  {
    for i := 0 to |THRESHOLDS|
      invariant forall j | 0 <= j < i :: roll >= THRESHOLDS[j].1
    {
      assert THRESHOLDS[0] == (Common, 8000) && THRESHOLDS[1] == (Uncommon, 9000) && THRESHOLDS[2] == (Rare, 9500)
          && THRESHOLDS[3] == (Unique, 9990) && THRESHOLDS[4] == (Legendary, 10000);
      if roll < THRESHOLDS[i].1 {
        return THRESHOLDS[i].0;
      }
    }
    assert roll >= THRESHOLDS[4].1;
    return Legendary;
  }

  /** Which rarity a roll means, by its width of the ten thousand: 80%, 10%, 5%, 4.9% and 0.1%. */
  function RarityOfRoll(roll: nat): Rarity
  {
    if roll < 8000 then Common
    else if roll < 8000 + 1000 then Uncommon
    else if roll < 9000 + 500 then Rare
    else if roll < 9500 + 490 then Unique
    else Legendary
  }

  /** How many rolls below n give rarity r. */
  function RollsOf(r: Rarity, n: nat): nat
  {
    if n == 0 then 0 else RollsOf(r, n - 1) + (if RarityOfRoll(n - 1) == r then 1 else 0)
  }

  /** Out of the 10000 rolls exactly 8000, 1000, 500, 490 and 10 give each rarity. */
  lemma DropOdds()
    ensures RollsOf(Common, 10000) == 8000 && RollsOf(Uncommon, 10000) == 1000 && RollsOf(Rare, 10000) == 500
    ensures RollsOf(Unique, 10000) == 490 && RollsOf(Legendary, 10000) == 10
  {
    RollsUpTo(Common, 10000);
    RollsUpTo(Uncommon, 10000);
    RollsUpTo(Rare, 10000);
    RollsUpTo(Unique, 10000);
    RollsUpTo(Legendary, 10000);
  }

  function Cut(n: nat, lo: nat, hi: nat): nat
  {
    if n <= lo then 0 else if n <= hi then n - lo else if hi >= lo then hi - lo else 0
  }

  lemma {:induction false} RollsUpTo(r: Rarity, n: nat)
    requires n <= 10000
    ensures RollsOf(r, n) == match r
            case Common => Cut(n, 0, 8000)
            case Uncommon => Cut(n, 8000, 9000)
            case Rare => Cut(n, 9000, 9500)
            case Unique => Cut(n, 9500, 9990)
            case Legendary => Cut(n, 9990, 10000)
  {
    if n == 0 {
    } else {
      RollsUpTo(r, n - 1);
    }
  }
}
