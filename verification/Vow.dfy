/**
 * Vow crafting (internal/vow/vow.go): which rarity a set of materials makes, how likely the better
 * one is, and how the materials leave the inventory.
 */
module Vow {
  import opened Prelude
  import opened Rarities
  import opened Inventory

  datatype Material = Material(item: string, count: int)

  /** One validated tier of the vow table (pkg/gameconfig). Rates are percentages. */
  datatype VowTier = VowTier(minNPower: real, maxNPower: real, minRate: real, maxRate: real) {
    predicate Valid()
    {
      && 0.0 <= minNPower < maxNPower
      && 0.0 <= minRate <= maxRate <= 100.0
    }
  }

  // ---- Rarity of the craft ----

  function RarityOrder(r: Rarity): nat
  {
    match r
    case Common => 1
    case Uncommon => 2
    case Rare => 3
    case Unique => 4
    case Legendary => 5
  }

  /** Inverse of RarityOrder on 1..5. */
  function OrderRarity(o: int): (r: Rarity)
    requires 1 <= o <= 5
    ensures RarityOrder(r) == o
  {
    if o == 1 then Common else if o == 2 then Uncommon else if o == 3 then Rare else if o == 4 then Unique
        else Legendary
  }

  /** The order of crafting is the order of scarcity: the drop table rolls the higher rarity less often. */
  lemma OrderIsScarcity(a: Rarity, b: Rarity)
    ensures RarityOrder(a) < RarityOrder(b) <==> RollsOf(a, 10000) > RollsOf(b, 10000)
  {
    DropOdds();
  }

  /** Every material is a known skin below Legendary. */
  predicate Craftable(pool: map<string, Rarity>, ms: seq<Material>)
  {
    forall m | m in ms :: m.item in pool && pool[m.item] != Legendary
  }

  predicate Positive(ms: seq<Material>) { forall m | m in ms :: m.count > 0 }

  function Weight(ms: seq<Material>): int
  {
    if ms == [] then 0 else Weight(ms[..|ms| - 1]) + ms[|ms| - 1].count
  }

  function Score(pool: map<string, Rarity>, ms: seq<Material>): int
    requires Craftable(pool, ms)
  {
    if ms == [] then 0
    else
      var last := ms[|ms| - 1];
      Score(pool, ms[..|ms| - 1]) + RarityOrder(pool[last.item]) * last.count
  }

  /** floor(avg + 0.5) */
  function RoundHalfUp(score: int, weight: int): int
    requires weight > 0
  {
    (score as real / weight as real + 0.5).Floor
  }

  /** The base rarity's order, when the materials make one. */
  function BaseOrder(pool: map<string, Rarity>, ms: seq<Material>): Option<int>
  {
    if !Craftable(pool, ms) || Weight(ms) <= 0 then None
    else
      var o := RoundHalfUp(Score(pool, ms), Weight(ms));
      if 1 <= o < 5 then Some(o) else None
  }

  /** computeRarities: base and target rarity, with its early exits. */
  method ComputeRarities(pool: map<string, Rarity>, ms: seq<Material>) returns (r: Option<(Rarity, Rarity)>)
    ensures r.Some? <==> BaseOrder(pool, ms).Some?
    ensures r.Some? ==> RarityOrder(r.value.0) == BaseOrder(pool, ms).value
    ensures r.Some? ==> 1 <= BaseOrder(pool, ms).value < 5 && r.value.1 == OrderRarity(BaseOrder(pool, ms).value + 1)
  {
    var total, sum := 0, 0;
    for i := 0 to |ms|
      invariant Craftable(pool, ms[..i])
      invariant total == Weight(ms[..i]) && sum == Score(pool, ms[..i])
    {
      var m := ms[i];
      assert m in ms;
      if m.item !in pool {
        return None;
      }
      var o := RarityOrder(pool[m.item]);
      if o <= 0 || o >= 5 {
        return None;
      }
      assert ms[..i + 1][..i] == ms[..i];
      assert forall x | x in ms[..i + 1] :: x in ms[..i] || x == m;
      total := total + m.count;
      sum := sum + o * m.count;
    }
    assert ms[..|ms|] == ms;
    if total <= 0 {
      return None;
    }
    var rounded := RoundHalfUp(sum, total);
    if rounded < 1 || rounded >= 5 {
      return None;
    }
    return Some((OrderRarity(rounded), OrderRarity(rounded + 1)));
  }

  lemma {:induction false} ScoreBounds(pool: map<string, Rarity>, ms: seq<Material>, lo: nat, hi: nat)
    requires Craftable(pool, ms) && Positive(ms)
    requires forall m | m in ms :: lo <= RarityOrder(pool[m.item]) <= hi
    ensures lo * Weight(ms) <= Score(pool, ms) <= hi * Weight(ms)
    ensures Weight(ms) >= |ms|
  {
    if ms == [] {
    } else {
      var init, last := ms[..|ms| - 1], ms[|ms| - 1];
      assert last in ms;
      ScoreBounds(pool, init, lo, hi);
      MulBounds(lo, RarityOrder(pool[last.item]), hi, last.count);
      Distribute(lo, Weight(init), last.count);
      Distribute(hi, Weight(init), last.count);
    }
  }

  lemma Distribute(a: int, b: int, c: int)
    ensures a * (b + c) == a * b + a * c
  {}

  lemma MulBounds(a: int, b: int, c: int, d: int)
    requires a <= b <= c && d >= 0
    ensures a * d <= b * d <= c * d
  {
    assert (b - a) * d >= 0 && (c - b) * d >= 0;
  }

  lemma QuotientBounds(s: real, w: real, lo: real, hi: real)
    requires w > 0.0 && lo * w <= s <= hi * w
    ensures lo <= s / w <= hi
  {
    var q := s / w;
    assert q * w == s;
  }

  lemma RoundBounds(score: int, weight: int, lo: int, hi: int)
    requires weight > 0 && lo * weight <= score <= hi * weight
    ensures lo <= RoundHalfUp(score, weight) <= hi
  {
    assert (lo * weight) as real == lo as real * weight as real;
    assert (hi * weight) as real == hi as real * weight as real;
    QuotientBounds(score as real, weight as real, lo as real, hi as real);
  }

  /** Craftable materials always make a base rarity, and it lies between the lowest and the highest one used. */
  lemma BaseBetweenMaterials(pool: map<string, Rarity>, ms: seq<Material>, lo: nat, hi: nat)
    requires Craftable(pool, ms) && Positive(ms) && ms != []
    requires 1 <= lo <= hi <= 4 && forall m | m in ms :: lo <= RarityOrder(pool[m.item]) <= hi
    ensures BaseOrder(pool, ms).Some? && lo <= BaseOrder(pool, ms).value <= hi
  {
    ScoreBounds(pool, ms, lo, hi);
    RoundBounds(Score(pool, ms), Weight(ms), lo, hi);
  }

  /** The base is the nearest rarity to the weighted average, and a half rounds up. */
  lemma BaseIsNearestAverage(pool: map<string, Rarity>, ms: seq<Material>)
    requires BaseOrder(pool, ms).Some?
    ensures var o, score, weight := BaseOrder(pool, ms).value, Score(pool, ms), Weight(ms);
            (2 * o - 1) * weight <= 2 * score < (2 * o + 1) * weight
  {
    var o, score, weight := BaseOrder(pool, ms).value, Score(pool, ms), Weight(ms);
    var x := score as real / weight as real;
    Nearest(o, x, score, weight);
  }

  lemma Nearest(o: int, x: real, score: int, weight: int)
    requires 1 <= o < 5 && weight > 0 && o as real <= x + 0.5 < (o + 1) as real && x * weight as real == score as real
    ensures (2 * o - 1) * weight <= 2 * score < (2 * o + 1) * weight
  {
    Scaled(o as real - 0.5, x, weight as real);
    ScaledBelow(x, o as real + 0.5, weight as real);
    if o == 1 {
    } else if o == 2 {
    } else if o == 3 {
    } else {
    }
  }

  lemma Scaled(a: real, b: real, w: real)
    requires w > 0.0 && a <= b
    ensures a * w <= b * w
  {}

  lemma ScaledBelow(a: real, b: real, w: real)
    requires w > 0.0 && a < b
    ensures a * w < b * w
  {}

  lemma {:induction false} WeightAndScoreSplit(pool: map<string, Rarity>, a: seq<Material>, b: seq<Material>)
    requires Craftable(pool, a + b)
    ensures Craftable(pool, a) && Craftable(pool, b)
    ensures Weight(a + b) == Weight(a) + Weight(b)
    ensures Score(pool, a + b) == Score(pool, a) + Score(pool, b)
  {
    assert forall m | m in a :: m in a + b;
    assert forall m | m in b :: m in a + b;
    if b == [] {
      assert a + b == a;
    } else {
      assert (a + b)[..|a + b| - 1] == a + b[..|b| - 1];
      assert forall m | m in a + b[..|b| - 1] :: m in a + b;
      WeightAndScoreSplit(pool, a, b[..|b| - 1]);
    }
  }

  /** Moving one material to the end changes neither sum. */
  lemma MoveToEnd(pool: map<string, Rarity>, l: seq<Material>, m: Material, r: seq<Material>)
    requires Craftable(pool, l + [m] + r)
    ensures Craftable(pool, l + r + [m])
    ensures Weight(l + [m] + r) == Weight(l + r + [m]) && Score(pool, l + [m] + r) == Score(pool, l + r + [m])
  {
    assert forall x | x in l + r + [m] :: x in l + [m] + r;
    WeightAndScoreSplit(pool, l + [m], r);
    WeightAndScoreSplit(pool, l, [m]);
    WeightAndScoreSplit(pool, l + r, [m]);
    WeightAndScoreSplit(pool, l, r);
  }

  /** Listing the same materials in another order changes neither the weight nor the score. */
  lemma {:induction false} OrderDoesNotMatter(pool: map<string, Rarity>, a: seq<Material>, b: seq<Material>)
    requires multiset(a) == multiset(b) && Craftable(pool, a) && Craftable(pool, b)
    ensures Weight(a) == Weight(b) && Score(pool, a) == Score(pool, b)
    decreases |a|
  {
    if a == [] {
      assert |multiset(b)| == 0;
    } else {
      var init, last := a[..|a| - 1], a[|a| - 1];
      var l, r := Locate(a, b);
      MoveToEnd(pool, l, last, r);
      assert a == init + [last];
      OrderDoesNotMatter(pool, init, l + r);
      WeightAndScoreSplit(pool, init, [last]);
      WeightAndScoreSplit(pool, l + r, [last]);
    }
  }

  lemma SameMembers(a: seq<Material>, b: seq<Material>, m: Material)
    requires multiset(a) == multiset(b)
    ensures m in a <==> m in b
  {
    assert m in a <==> m in multiset(a);
    assert m in b <==> m in multiset(b);
  }

  /** The craft depends on the materials only as a multiset. */
  lemma BaseIgnoresOrder(pool: map<string, Rarity>, a: seq<Material>, b: seq<Material>)
    requires multiset(a) == multiset(b)
    ensures BaseOrder(pool, a) == BaseOrder(pool, b)
  {
    forall m ensures m in a <==> m in b { SameMembers(a, b, m); }
    if Craftable(pool, a) { OrderDoesNotMatter(pool, a, b); }
  }

  // ---- Success rate ----

  function Clamp(v: real, lo: real, hi: real): real { if v < lo then lo else if v > hi then hi else v }

  function CalcSuccessRate(tier: VowTier, nPower: real): real
  {
    if tier.maxNPower <= tier.minNPower then Clamp(tier.maxRate, 0.0, 100.0)
    else
      var t := Clamp((nPower - tier.minNPower) / (tier.maxNPower - tier.minNPower), 0.0, 1.0);
      Clamp(Lerp(tier.minRate, tier.maxRate, t), 0.0, 100.0)
  }

  function Lerp(lo: real, hi: real, t: real): real { lo + (hi - lo) * t }

  lemma LerpMono(lo: real, hi: real, s: real, t: real)
    requires lo <= hi && s <= t
    ensures Lerp(lo, hi, s) <= Lerp(lo, hi, t)
  {}

  lemma DivMono(a: real, b: real, d: real)
    requires a <= b && d > 0.0
    ensures a / d <= b / d
  {
    var p, q := a / d, b / d;
    assert p * d == a && q * d == b;
  }

  /** How far along its range a payment is, as a fraction. */
  function Fraction(tier: VowTier, nPower: real): real
    requires tier.Valid()
  {
    Clamp((nPower - tier.minNPower) / (tier.maxNPower - tier.minNPower), 0.0, 1.0)
  }

  lemma RateIsInterpolated(tier: VowTier, nPower: real)
    requires tier.Valid()
    ensures CalcSuccessRate(tier, nPower) == Lerp(tier.minRate, tier.maxRate, Fraction(tier, nPower))
    ensures tier.minRate <= CalcSuccessRate(tier, nPower) <= tier.maxRate
  {
    LerpMono(tier.minRate, tier.maxRate, 0.0, Fraction(tier, nPower));
    LerpMono(tier.minRate, tier.maxRate, Fraction(tier, nPower), 1.0);
  }

  lemma FractionShape(tier: VowTier, a: real, b: real)
    requires tier.Valid() && a <= b
    ensures Fraction(tier, a) <= Fraction(tier, b)
    ensures Fraction(tier, tier.minNPower) == 0.0 && Fraction(tier, tier.maxNPower) == 1.0
  {
    DivMono(a - tier.minNPower, b - tier.minNPower, tier.maxNPower - tier.minNPower);
  }

  /** Within the range equal steps in payment buy equal steps in odds. */
  lemma OddsAreLinear(tier: VowTier, a: real, b: real)
    requires tier.Valid() && tier.minNPower <= a <= b <= tier.maxNPower
    ensures (CalcSuccessRate(tier, b) - CalcSuccessRate(tier, a)) * (tier.maxNPower - tier.minNPower)
         == (tier.maxRate - tier.minRate) * (b - a)
  {
    RateIsInterpolated(tier, a);
    RateIsInterpolated(tier, b);
    FractionScales(tier, a);
    FractionScales(tier, b);
  }

  lemma FractionScales(tier: VowTier, a: real)
    requires tier.Valid() && tier.minNPower <= a <= tier.maxNPower
    ensures Fraction(tier, a) * (tier.maxNPower - tier.minNPower) == a - tier.minNPower
  {
    DivMono(0.0, a - tier.minNPower, tier.maxNPower - tier.minNPower);
    DivMono(a - tier.minNPower, tier.maxNPower - tier.minNPower, tier.maxNPower - tier.minNPower);
  }

  /** Spending more never lowers the odds, the end points give the tier's rates, and nothing leaves their range. */
  lemma SuccessRateShape(tier: VowTier, a: real, b: real)
    requires tier.Valid() && a <= b
    ensures tier.minRate <= CalcSuccessRate(tier, a) <= CalcSuccessRate(tier, b) <= tier.maxRate
    ensures CalcSuccessRate(tier, tier.minNPower) == tier.minRate
            && CalcSuccessRate(tier, tier.maxNPower) == tier.maxRate
  {
    RateIsInterpolated(tier, a);
    RateIsInterpolated(tier, b);
    RateIsInterpolated(tier, tier.minNPower);
    RateIsInterpolated(tier, tier.maxNPower);
    FractionShape(tier, a, b);
    LerpMono(tier.minRate, tier.maxRate, Fraction(tier, a), Fraction(tier, b));
  }

  // ---- Consuming the materials ----

  /** How many of an item a list of materials asks for in all; the list may name it repeatedly. */
  function Demand(ms: seq<Material>, item: string): int
  {
    if ms == [] then 0
    else Demand(ms[..|ms| - 1], item) + (if ms[|ms| - 1].item == item then ms[|ms| - 1].count else 0)
  }

  /** The stock covers the whole demand for every item. */
  ghost predicate Covered(inv: Inventory, ms: seq<Material>) { forall k :: Demand(ms, k) <= Count(inv, k) }

  /** What is left once the demand is taken out and emptied rows are deleted. */
  function Remaining(inv: Inventory, ms: seq<Material>): Inventory
  {
    map k | k in inv && inv[k] - Demand(ms, k) > 0 :: inv[k] - Demand(ms, k)
  }

  lemma {:induction false} DemandNonNegative(ms: seq<Material>, item: string)
    requires Positive(ms)
    ensures Demand(ms, item) >= 0
  {
    if ms == [] {
    } else {
      DemandNonNegative(ms[..|ms| - 1], item);
      assert ms[|ms| - 1] in ms;
    }
  }

  lemma {:induction false} DemandGrows(ms: seq<Material>, i: nat, item: string)
    requires Positive(ms) && i <= |ms|
    ensures Demand(ms[..i], item) <= Demand(ms, item)
  {
    if i < |ms| {
      assert ms[|ms| - 1] in ms;
      DemandGrows(ms[..|ms| - 1], i, item);
      assert ms[..|ms| - 1][..i] == ms[..i];
    } else {
      assert ms[..i] == ms;
    }
  }

  /** The rows while the updates run: emptied rows stay until the final DELETE. */
  predicate Debited(inv: Inventory, ms: seq<Material>, cur: Inventory)
  {
    cur.Keys == inv.Keys && forall k | k in inv :: cur[k] == inv[k] - Demand(ms, k)
  }

  /** execPray step 2: one conditional UPDATE a material, then DELETE of emptied rows. */
  method ConsumeMaterials(inv: Inventory, ms: seq<Material>) returns (r: Option<Inventory>)
    requires Positive(ms)
    ensures r.Some? <==> Covered(inv, ms)
    ensures r.Some? ==> r.value == Remaining(inv, ms)
  {
    var cur: Inventory := inv;
    for i := 0 to |ms|
      invariant Debited(inv, ms[..i], cur)
      invariant forall k | k !in inv :: Demand(ms[..i], k) <= 0
    {
      var m := ms[i];
      assert ms[..i + 1][..i] == ms[..i];
      if m.item !in cur || cur[m.item] < m.count {
        ghost var short := m.item;
        DemandNonNegative(ms[..i], short);
        DemandGrows(ms, i + 1, short);
        assert m in ms;
        assert Demand(ms, short) > Count(inv, short);
        return None;
      }
      cur := cur[m.item := cur[m.item] - m.count];
    }
    assert ms[..|ms|] == ms;
    r := Some(Prune(cur));
    assert r.value == Remaining(inv, ms);
  }

  /** The rows after the debits and before the DELETE, as one expression. */
  function Debit(inv: Inventory, ms: seq<Material>): Inventory
  {
    map k | k in inv :: Max(0, inv[k] - Demand(ms, k))
  }

  lemma {:induction false} CoveredPrefix(inv: Inventory, ms: seq<Material>)
    requires Positive(ms) && Covered(inv, ms) && ms != []
    ensures Positive(ms[..|ms| - 1]) && Covered(inv, ms[..|ms| - 1])
  {
    var init := ms[..|ms| - 1];
    assert ms[|ms| - 1] in ms;
    forall k ensures Demand(init, k) <= Count(inv, k) {
      assert Demand(ms, k) <= Count(inv, k);
    }
  }

  lemma DebitAt(inv: Inventory, ms: seq<Material>, k: string)
    requires Covered(inv, ms) && k in inv
    ensures Debit(inv, ms)[k] == inv[k] - Demand(ms, k)
  {
    assert Demand(ms, k) <= Count(inv, k);
  }

  lemma DebitOneMore(inv: Inventory, ms: seq<Material>)
    requires Positive(ms) && Covered(inv, ms) && ms != []
    ensures var last := ms[|ms| - 1];
            var before := Debit(inv, ms[..|ms| - 1]);
            last.item in before && before[last.item] >= last.count && last.count > 0
            && Debit(inv, ms) == before[last.item := before[last.item] - last.count]
  {
    var init, last := ms[..|ms| - 1], ms[|ms| - 1];
    assert last in ms;
    CoveredPrefix(inv, ms);
    DemandNonNegative(init, last.item);
    assert Demand(ms, last.item) <= Count(inv, last.item);
    forall k | k in inv
      ensures Debit(inv, ms)[k] == inv[k] - Demand(ms, k) && Debit(inv, init)[k] == inv[k] - Demand(init, k)
    {
      DebitAt(inv, ms, k);
      DebitAt(inv, init, k);
    }
  }

  lemma {:induction false} DebitTotal(inv: Inventory, ms: seq<Material>)
    requires Positive(ms) && Covered(inv, ms)
    ensures Total(Debit(inv, ms)) == Total(inv) - Weight(ms)
  {
    if ms == [] {
      assert Debit(inv, ms) == inv;
    } else {
      var last := ms[|ms| - 1];
      var before := Debit(inv, ms[..|ms| - 1]);
      CoveredPrefix(inv, ms);
      DebitTotal(inv, ms[..|ms| - 1]);
      DebitOneMore(inv, ms);
      TotalUpdate(before, last.item, before[last.item] - last.count);
    }
  }

  lemma RemainingIsPruned(inv: Inventory, ms: seq<Material>)
    ensures Remaining(inv, ms) == Prune(Debit(inv, ms))
  {
    var debited := Debit(inv, ms);
    forall k ensures k in Remaining(inv, ms) <==> k in Prune(debited) {
      if k in inv { assert debited[k] == Max(0, inv[k] - Demand(ms, k)); }
    }
  }

  /** A covered vow takes exactly as many items as its materials weigh, and leaves no empty row. */
  lemma RemainingTotal(inv: Inventory, ms: seq<Material>)
    requires Positive(ms) && Covered(inv, ms)
    ensures Total(Remaining(inv, ms)) == Total(inv) - Weight(ms) && Stocked(Remaining(inv, ms))
  {
    DebitTotal(inv, ms);
    TotalPrune(Debit(inv, ms));
    RemainingIsPruned(inv, ms);
  }
}
