/** The validated game configuration (pkg/gameconfig/gameconfig.go): what every other module may assume. */
module GameConfig {
  import opened Prelude
  import opened Rarities
  import Cairn
  import Vow
  import S = SkinPool
  import E = Economy

  const MAX_SLOT_COUNT := 50
  const MAX_MAX_LAYERS := 100
  const MAX_SPAWN_INTERVAL := 86400
  const MAX_COOLDOWN := 604800

  /** A float of the file; NaN and the infinities are not numbers. */
  datatype Float = Number(value: real) | NotFinite

  /** A <tier> element; numbers may be missing. */
  datatype RawTier = RawTier(target: string, minNPower: Option<Float>, maxNPower: Option<Float>, minRate: Option<Float>,
                             maxRate: Option<Float>)

  datatype Tier = Tier(target: Rarity, range: Vow.VowTier)

  datatype Config = Config(pullCost: Float, cooldown: int, slotCount: int, maxLayers: int, interval: int, required: int)

  // ---- Tiers ----

  /** The rarity a tier targets, if it may be targeted: Common may not. */
  function Target(raw: RawTier): Option<Rarity>
  {
    var r := S.RarityNamed(S.Lower(S.Trim(raw.target)));
    if r == Some(Common) then None else r
  }

  predicate Finite(x: Option<Float>) { x.Some? && x.value.Number? }

  /** One tier by itself: a target, four finite numbers, and ranges the right way round. */
  predicate GoodTier(raw: RawTier)
  {
    && Target(raw).Some?
    && Finite(raw.minNPower) && Finite(raw.maxNPower) && Finite(raw.minRate) && Finite(raw.maxRate)
    && Range(raw).Valid()
  }

  function Range(raw: RawTier): Vow.VowTier
    requires Finite(raw.minNPower) && Finite(raw.maxNPower) && Finite(raw.minRate) && Finite(raw.maxRate)
  {
    Vow.VowTier(raw.minNPower.value.value, raw.maxNPower.value.value, raw.minRate.value.value, raw.maxRate.value.value)
  }

  /** The first n tiers are good, and no target comes twice. */
  predicate GoodUpTo(raw: seq<RawTier>, n: nat)
    requires n <= |raw|
  {
    && (forall i | 0 <= i < n :: GoodTier(raw[i]))
    && (forall i, j | 0 <= i < j < n :: Target(raw[i]) != Target(raw[j]))
  }

  predicate GoodTiers(raw: seq<RawTier>) { GoodUpTo(raw, |raw|) }

  function Targets(raw: seq<RawTier>, n: nat): set<Rarity>
    requires n <= |raw|
  {
    set i | 0 <= i < n && Target(raw[i]).Some? :: Target(raw[i]).value
  }

  /** A good tier extends a good list exactly when its target is new. */
  lemma OneMoreTier(raw: seq<RawTier>, n: nat)
    requires n < |raw| && GoodUpTo(raw, n)
    ensures GoodUpTo(raw, n + 1) <==> GoodTier(raw[n]) && Target(raw[n]).value !in Targets(raw, n)
    ensures GoodTier(raw[n]) ==> Targets(raw, n + 1) == Targets(raw, n) + {Target(raw[n]).value}
    ensures GoodTiers(raw) ==> GoodUpTo(raw, n + 1)
  {
    if GoodTier(raw[n]) && Target(raw[n]).value in Targets(raw, n) {
      var k :| 0 <= k < n && Target(raw[k]).value == Target(raw[n]).value;
      assert Target(raw[k]) == Target(raw[n]);
    }
  }

  function TierOf(raw: RawTier): Tier
    requires GoodTier(raw)
  {
    Tier(Target(raw).value, Range(raw))
  }

  /** validate of one tier, with the comparisons in the order of the code. */
  method ValidateTier(raw: RawTier) returns (ok: bool)
    requires Target(raw).Some?
    ensures ok <==> GoodTier(raw)
  {
    if raw.minNPower.None? || raw.maxNPower.None? || raw.minRate.None? || raw.maxRate.None? {
      return false;
    }
    if raw.minNPower.value.NotFinite? || raw.maxNPower.value.NotFinite? || raw.minRate.value.NotFinite?
        || raw.maxRate.value.NotFinite? {
      return false;
    }
    var lo, hi := raw.minNPower.value.value, raw.maxNPower.value.value;
    var minRate, maxRate := raw.minRate.value.value, raw.maxRate.value.value;
    if lo < 0.0 || hi <= lo {
      return false;
    }
    if minRate < 0.0 || minRate > 100.0 || maxRate < 0.0 || maxRate > 100.0 {
      return false;
    }
    return maxRate >= minRate;
  }

  /** buildVowTiers: accepts exactly the non-empty lists of good tiers, in document order. */
  method BuildVowTiers(raw: seq<RawTier>) returns (tiers: Option<seq<Tier>>)
    ensures tiers.Some? <==> raw != [] && GoodTiers(raw)
    ensures tiers.Some? ==> |tiers.value| == |raw| && forall i | 0 <= i < |raw| :: tiers.value[i] == TierOf(raw[i])
  {
    if |raw| == 0 {
      return None;
    }
    var built: seq<Tier> := [];
    var seen: set<Rarity> := {};
    for i := 0 to |raw|
      invariant GoodUpTo(raw, i) && seen == Targets(raw, i)
      invariant |built| == i && forall k | 0 <= k < i :: built[k] == TierOf(raw[k])
    {
      OneMoreTier(raw, i);
      var target := Target(raw[i]);
      if target.None? || target.value in seen {
        return None;
      }
      var ok := ValidateTier(raw[i]);
      if !ok {
        return None;
      }
      seen := seen + {target.value};
      built := built + [TierOf(raw[i])];
    }
    return Some(built);
  }

  /** The element writes this tier: the target by its name, every number in its own attribute. */
  predicate Writes(raw: RawTier, t: Tier)
  {
    && S.Canonical(raw.target) == S.RarityCell(t.target)
    && raw.minNPower == Some(Number(t.range.minNPower)) && raw.maxNPower == Some(Number(t.range.maxNPower))
    && raw.minRate == Some(Number(t.range.minRate)) && raw.maxRate == Some(Number(t.range.maxRate))
  }

  /** A tier comes from an element exactly when the element writes it, it targets no Common and its ranges are right. */
  lemma TiersAreAsWritten(raw: RawTier, t: Tier)
    ensures GoodTier(raw) && TierOf(raw) == t
       <==> Writes(raw, t) && t.target != Common
            && 0.0 <= t.range.minNPower < t.range.maxNPower && 0.0 <= t.range.minRate <= t.range.maxRate <= 100.0
  {
    S.CellsNameThemselves(S.Canonical(raw.target));
    S.NamedByTheirCells(t.target, S.Top);
  }

  // ---- The whole configuration ----

  predicate GoodConfig(c: Config)
  {
    && c.pullCost.Number? && c.pullCost.value > 0.0
    && 0 < c.cooldown <= MAX_COOLDOWN && c.cooldown % 60 == 0
    && 0 < c.slotCount <= MAX_SLOT_COUNT && 0 < c.maxLayers <= MAX_MAX_LAYERS && 0 < c.interval <= MAX_SPAWN_INTERVAL
    && (c.interval * c.maxLayers) % c.slotCount == 0
    && c.required > 0
  }

  /** validate. */
  method Validate(c: Config) returns (ok: bool)
    ensures ok <==> GoodConfig(c)
  {
    if c.pullCost.NotFinite? || c.pullCost.value <= 0.0 {
      return false;
    }
    if c.cooldown <= 0 || c.cooldown % 60 != 0 {
      return false;
    }
    if c.slotCount <= 0 || c.maxLayers <= 0 || c.interval <= 0 {
      return false;
    }
    if (c.interval * c.maxLayers) % c.slotCount != 0 {
      return false;
    }
    if c.slotCount > MAX_SLOT_COUNT || c.maxLayers > MAX_MAX_LAYERS || c.interval > MAX_SPAWN_INTERVAL
        || c.cooldown > MAX_COOLDOWN {
      return false;
    }
    return c.required > 0;
  }

  /** The tiers by target, as the vow handler indexes them. */
  function ByTarget(tiers: seq<Tier>): map<Rarity, Vow.VowTier>
  {
    if tiers == [] then map[] else ByTarget(tiers[..|tiers| - 1])[tiers[|tiers| - 1].target := tiers[|tiers| - 1].range]
  }

  function RulesOf(c: Config, tiers: seq<Tier>, pool: map<string, Rarity>): E.Rules
    requires GoodConfig(c)
  {
    E.Rules(Cairn.Config(c.slotCount, c.maxLayers, c.interval), c.pullCost.value, c.cooldown, c.required,
        ByTarget(tiers), pool)
  }

  lemma {:induction false} ByTargetIs(tiers: seq<Tier>, i: nat)
    requires i < |tiers| && forall j, k | 0 <= j < k < |tiers| :: tiers[j].target != tiers[k].target
    ensures tiers[i].target in ByTarget(tiers) && ByTarget(tiers)[tiers[i].target] == tiers[i].range
  {
    if i == |tiers| - 1 {
    } else {
      ByTargetIs(tiers[..|tiers| - 1], i);
    }
  }

  lemma {:induction false} ByTargetValid(tiers: seq<Tier>)
    requires forall i | 0 <= i < |tiers| :: tiers[i].range.Valid()
    ensures forall r | r in ByTarget(tiers) :: ByTarget(tiers)[r].Valid()
  {
    if tiers == [] {
    } else {
      ByTargetValid(tiers[..|tiers| - 1]);
    }
  }

  /**
   * What an accepted file promises the handlers: valid rules, every authored tier in force, none for
   * Common, and no phase lost to integer division.
   */
  lemma AcceptedRulesAreValid(c: Config, raw: seq<RawTier>, tiers: seq<Tier>, pool: map<string, Rarity>)
    requires GoodConfig(c) && GoodTiers(raw) && |tiers| == |raw|
    requires forall i | 0 <= i < |raw| :: tiers[i] == TierOf(raw[i])
    ensures var rules := RulesOf(c, tiers, pool);
            && rules.Valid()
            && (forall i | 0 <= i < |tiers| ::
                  tiers[i].target in rules.tiers && rules.tiers[tiers[i].target] == tiers[i].range)
            && (forall i | 0 <= i < |tiers| :: tiers[i].target != Common)
            && rules.cairn.interval * rules.cairn.maxLayers / rules.cairn.slotCount * rules.cairn.slotCount
               == rules.cairn.interval * rules.cairn.maxLayers
            && rules.cairn.slotCount <= 50 && rules.cairn.maxLayers <= 100 && rules.cairn.interval <= 86400
            && rules.cooldown <= 604800 && rules.cooldown % 60 == 0
  {
    ByTargetValid(tiers);
    forall j, k | 0 <= j < k < |tiers| ensures tiers[j].target != tiers[k].target {
      assert Target(raw[j]) != Target(raw[k]);
    }
    forall i | 0 <= i < |tiers|
      ensures tiers[i].target in ByTarget(tiers) && ByTarget(tiers)[tiers[i].target] == tiers[i].range
    {
      ByTargetIs(tiers, i);
    }
  }
}
