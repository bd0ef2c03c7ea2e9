/**
 * The handlers as they run: one player's rows updated statement by statement, with rollback.
 *
 * Each method is proved to have exactly the effect of its transition in Economy, so every theorem
 * about runs of transitions is about runs of these methods.
 */
module PlayerStore {
  import opened Prelude
  import opened Rarities
  import opened Inventory
  import opened Economy
  import Cairn
  import D = Draws
  import S = SkinPool
  import Vow

  class PlayerStore {
    const rules: Rules
    const pool: S.SkinPool
    ghost const skins: seq<S.Skin>
    const seed: Cairn.Seed
    const rate: real
    var balance: real
    var lastSync: Option<int>
    var nextGacha: Option<int>
    var anchor: Option<int>
    var slots: map<nat, nat>
    var inventory: Inventory
    var log: seq<LogRow>

    /** The rows as one value. */
    function State(): Player
      reads this
    {
      Player(balance, rate, lastSync, nextGacha, Cairn.Growth(anchor, slots), inventory, log)
    }

    /** The server starts only with valid rules and a pool that loaded. */
    ghost predicate Serving() { rules.Valid() && D.Loaded(rules, skins, pool) }

    /** initPlayerState: a new row whose accrual clock starts now; the growth anchor is set by the login. */
    constructor (rules: Rules, pool: S.SkinPool, ghost skins: seq<S.Skin>, seed: Cairn.Seed, rate: real, now: int)
      requires rules.Valid() && D.Loaded(rules, skins, pool)
      ensures Serving() && this.rules == rules && this.pool == pool && this.seed == seed && this.rate == rate
      ensures State() == NewPlayer(rules, rate, now)
    {
      this.rules, this.pool, this.skins, this.seed, this.rate := rules, pool, skins, seed, rate;
      balance, lastSync, nextGacha, anchor := 0.0, Some(now), None, None;
      slots, inventory, log := map[], map[], [];
      new;
      InitializeSlots();
    }

    /** Transaction rollback: every row as it was. */
    method Rollback(saved: Player)
      requires saved.rate == rate
      modifies this
      ensures State() == saved
    {
      balance, lastSync, nextGacha := saved.balance, saved.lastSync, saved.nextGacha;
      anchor, slots := saved.growth.anchor, saved.growth.slots;
      inventory, log := saved.inventory, saved.log;
    }

    // ---- Cairn ----

    /** INSERT ... ON CONFLICT DO NOTHING for every configured slot. */
    method InitializeSlots()
      modifies this`slots
      ensures slots == InitSlots(rules, old(slots))
    {
      for i := 0 to rules.cairn.slotCount
        invariant forall k: nat | k < i :: k in slots && slots[k] == Cairn.At(old(slots), k)
        invariant forall k | k in slots :: k < i || (k in old(slots) && slots[k] == old(slots)[k])
        invariant forall k | k in old(slots) :: k in slots && slots[k] == old(slots)[k]
      {
        if i !in slots {
          slots := slots[i := 0];
        }
      }
    }

    /** The stored slot indexes in ascending order. */
    method LoadSlots() returns (rows: seq<nat>)
      ensures |rows| < rules.cairn.slotCount <==> !Cairn.AllPresent(rules.cairn, slots)
    {
      rows := [];
      for i := 0 to rules.cairn.slotCount
        invariant |rows| <= i
        invariant |rows| == i <==> forall k: nat | k < i :: k in slots
      {
        if i in slots {
          rows := rows + [i];
        }
      }
    }

    /** ApplyGrowth: read the anchor, distribute the steps, swap the anchor, write the slots that gained. */
    method ApplyGrowth(now: int)
      requires rules.Valid()
      modifies this`anchor, this`slots
      ensures Cairn.Growth(anchor, slots) == Cairn.Grow(rules.cairn, seed, old(Cairn.Growth(anchor, slots)), now)
    {
      var cfg := rules.cairn;
      if anchor.None? {
        anchor := Some(now);
        return;
      }
      var raw := anchor.value;
      if now >= raw { Cairn.StepsIsQuotient(cfg, raw, now); }
      var steps := if now < raw then 0 else (now - raw) / cfg.interval;
      if steps <= 0 {
        return;
      }
      var rows := LoadSlots();
      if |rows| < cfg.slotCount {
        return;
      }
      var applied := Cairn.Distribute(cfg, seed, slots, raw, steps);
      if anchor != Some(raw) {
        return;
      }
      anchor := Some(Cairn.StepTime(cfg, raw, steps));
      WriteGains(applied);
    }

    /** UPDATE layer_count = layer_count + n, for the slots that gained. */
    method WriteGains(applied: seq<nat>)
      requires Cairn.AllPresent(rules.cairn, slots) && |applied| == rules.cairn.slotCount
      modifies this`slots
      ensures slots == Cairn.Plus(old(slots), applied)
    {
      for j := 0 to |applied|
        invariant slots == Cairn.Plus(old(slots), applied[..j])
      {
        if applied[j] != 0 {
          slots := slots[j := slots[j] + applied[j]];
        }
        assert slots == Cairn.Plus(old(slots), applied[..j + 1]);
      }
      assert applied[..|applied|] == applied;
    }

    // ---- Handlers ----

    /** POST /player/sync. */
    method Sync(grew: bool, now: int) returns (answer: Outcome)
      requires rules.Valid()
      modifies this
      ensures (State(), answer) == Step(rules, seed, old(State()), Request.Sync(grew), now)
    {
      balance := Available(State(), now);
      lastSync := Some(now);
      answer := Synced(balance);
      if grew {
        ApplyGrowth(now);
      }
    }

    /** GET /player/state. */
    method GetState(now: int) returns (answer: Outcome)
      requires rules.Valid()
      modifies this
      ensures (State(), answer) == Step(rules, seed, old(State()), Request.GetState, now)
    {
      var rows := LoadSlots();
      if |rows| < rules.cairn.slotCount {
        InitializeSlots();
      }
      ApplyGrowth(now);
      answer := Viewed(slots);
    }

    /** The accrue-and-deduct UPDATE; false when the balance does not cover the cost. */
    method AccrueAndDeduct(now: int, kind: Kind, id: int, delay: nat, cost: real) returns (paid: bool)
      modifies this`balance, this`lastSync, this`log
      ensures var s := Spend(old(State()), now, kind, id, delay, cost);
              paid == s.Some? && State() == if paid then s.value else old(State())
    {
      var before := balance;
      var available := Available(State(), now);
      if available < cost {
        return false;
      }
      balance := available - cost;
      lastSync := Some(now);
      log := log + [LogRow(kind, id, now + delay, cost, balance - before + cost, before, balance)];
      return true;
    }

    /** Roll, then GrantItem. */
    method GrantRolled(n: D.Numbers) returns (item: string)
      requires Serving()
      modifies this`inventory
      ensures item == D.Drawn(pool, D.PullRarity(n), n) && inventory == Grant(old(inventory), item)
    {
      var rarity;
      item, rarity := S.Roll(pool, n.roll, n.part, n.skin, skins);
      inventory := Grant(inventory, item);
    }

    /** PickByRarity, which always answers, then GrantItem. */
    method GrantPicked(rarity: Rarity, n: D.Numbers) returns (item: string)
      requires Serving()
      modifies this`inventory
      ensures item == D.Drawn(pool, rarity, n) && inventory == Grant(old(inventory), item)
    {
      D.DrawHasTheRarity(rules, skins, pool, rarity, n);
      item := S.PickByRarity(pool, rarity, n.part, n.skin).value;
      inventory := Grant(inventory, item);
    }

    /** The first statements of execPull: the cooldown gate, growth, and the claim of a complete slot. */
    method ClaimSlot(slot: nat, now: int) returns (why: Option<Reject>)
      requires rules.Valid()
      modifies this`nextGacha, this`anchor, this`slots
      ensures var g := Cairn.Grow(rules.cairn, seed, old(Cairn.Growth(anchor, slots)), now);
              && why == (if old(nextGacha).Some? && now < old(nextGacha).value then Some(CooldownActive)
                         else if slot !in g.slots then Some(SlotNotFound)
                         else if g.slots[slot] < rules.cairn.maxLayers then Some(SlotIncomplete)
                         else None)
              && (why.None? ==>
                    nextGacha == Some(now + rules.cooldown) && anchor == g.anchor && slots == g.slots[slot := 0])
    {
      if nextGacha.Some? && now < nextGacha.value {
        return Some(CooldownActive);
      }
      nextGacha := Some(now + rules.cooldown);
      ApplyGrowth(now);
      if slot !in slots {
        return Some(SlotNotFound);
      }
      if slots[slot] < rules.cairn.maxLayers {
        return Some(SlotIncomplete);
      }
      slots := slots[slot := 0];
      return None;
    }

    /** execPull up to the roll: every rejection is behind it, whatever will be drawn. */
    method ClaimAndPay(slot: nat, id: int, delay: nat, now: int) returns (why: Option<Reject>)
      requires rules.Valid() && slot < rules.cairn.slotCount
      modifies this
      ensures forall item: string ::
                PullStep(rules, seed, old(State()), slot, item, id, delay, now)
                == if why.Some? then (State(), Rejected(why.value))
                   else (State().(inventory := Grant(inventory, item)),
                         Pulled(item, Grant(inventory, item)[item], now + rules.cooldown, balance))
      ensures why.Some? ==> State() == old(State())
    {
      var saved := State();
      why := ClaimSlot(slot, now);
      if why.Some? {
        Rollback(saved);
        return;
      }
      var paid := AccrueAndDeduct(now, GachaPull, id, delay, rules.pullCost);
      if !paid {
        Rollback(saved);
        return Some(InsufficientPoints);
      }
    }

    /** POST /gacha/pull: gate, growth, slot claim, payment, roll, grant and log in one transaction. */
    method Pull(slot: int, n: D.Numbers, id: int, delay: nat, now: int) returns (answer: Outcome)
      requires Serving()
      modifies this
      ensures (State(), answer)
              == PullStep(rules, seed, old(State()), slot, D.Drawn(pool, D.PullRarity(n), n), id, delay, now)
      ensures answer.Rejected? ==> State() == old(State())
    {
      if slot < 0 || slot >= rules.cairn.slotCount {
        return Rejected(InvalidSlot);
      }
      var why := ClaimAndPay(slot, id, delay, now);
      if why.Some? {
        return Rejected(why.value);
      }
      var item := GrantRolled(n);
      return Pulled(item, inventory[item], now + rules.cooldown, balance);
    }

    /**
     * The checks before the transaction: positive counts, exact total, craftable rarities, tier and range.
     * They yield the success rate and the base and target rarity.
     */
    method ValidatePray(ms: seq<Vow.Material>, nPower: real) returns (plan: Option<(real, Rarity, Rarity)>)
      ensures plan.Some? <==> PrayCheck(rules, ms, nPower).Some?
      ensures plan.Some? ==>
                && plan.value.0 == PrayCheck(rules, ms, nPower).value
                && Vow.BaseOrder(rules.pool, ms).Some? && 1 <= Vow.BaseOrder(rules.pool, ms).value < 5
                && plan.value.1 == Vow.OrderRarity(Vow.BaseOrder(rules.pool, ms).value)
                && plan.value.2 == Vow.OrderRarity(Vow.BaseOrder(rules.pool, ms).value + 1)
    {
      var total := 0;
      for i := 0 to |ms|
        invariant Vow.Positive(ms[..i]) && total == Vow.Weight(ms[..i])
      {
        assert ms[i] in ms && ms[..i + 1][..i] == ms[..i];
        if ms[i].count <= 0 {
          return None;
        }
        total := total + ms[i].count;
      }
      assert ms[..|ms|] == ms;
      if total != rules.required {
        return None;
      }
      var rarities := Vow.ComputeRarities(rules.pool, ms);
      if rarities.None? {
        return None;
      }
      var base, target := rarities.value.0, rarities.value.1;
      if target !in rules.tiers {
        return None;
      }
      var tier := rules.tiers[target];
      if nPower < tier.minNPower || nPower > tier.maxNPower {
        return None;
      }
      return Some((Vow.CalcSuccessRate(tier, nPower), base, target));
    }

    /** The payment and the materials of a vow: its last rejections, and every one rolls back. */
    method PayVow(ms: seq<Vow.Material>, nPower: real, id: int, delay: nat, now: int) returns (why: Option<Reject>)
      requires Vow.Positive(ms)
      modifies this
      ensures var s := Spend(old(State()), now, VowPrayer, id, delay, nPower);
              && why == (if s.None? then Some(InsufficientPoints)
                         else if !Vow.Covered(old(inventory), ms) then Some(InsufficientMaterials)
                         else None)
              && (why.None? ==> State() == s.value.(inventory := Vow.Remaining(old(inventory), ms)))
      ensures why.Some? ==> State() == old(State())
    {
      var saved := State();
      var paid := AccrueAndDeduct(now, VowPrayer, id, delay, nPower);
      if !paid {
        return Some(InsufficientPoints);
      }
      var left := Vow.ConsumeMaterials(inventory, ms);
      if left.None? {
        Rollback(saved);
        return Some(InsufficientMaterials);
      }
      inventory := left.value;
      return None;
    }

    /** POST /vow/pray: validation, then payment, materials, roll, draw and reward in one transaction. */
    method Pray(ms: seq<Vow.Material>, nPower: real, roll: real, n: D.Numbers, id: int, delay: nat, now: int)
      returns (answer: Outcome)
      requires Serving()
      modifies this
      ensures (State(), answer)
           == Step(rules, seed, old(State()), D.Draw(rules, pool, D.RawPray(ms, nPower, roll, n, id, delay)), now)
      ensures answer.Rejected? ==> State() == old(State())
    {
      var plan := ValidatePray(ms, nPower);
      if plan.None? {
        return Rejected(InvalidRequest);
      }
      var why := PayVow(ms, nPower, id, delay, now);
      if why.Some? {
        return Rejected(why.value);
      }
      ghost var paid := State();
      var success := roll <= plan.value.0;
      var reward := GrantPicked(if success then plan.value.2 else plan.value.1, n);
      assert State() == paid.(inventory := Grant(paid.inventory, reward));
      D.PaidVow(rules, seed, pool, old(State()), D.RawPray(ms, nPower, roll, n, id, delay), now, paid, success, reward);
      return Prayed(success, reward, inventory[reward], balance);
    }

    /** resetAccrualAnchor, the last step of a login. */
    method ResetAccrualAnchor(now: int) returns (answer: Outcome)
      requires rules.Valid()
      modifies this`lastSync, this`anchor
      ensures (State(), answer) == Step(rules, seed, old(State()), Login, now)
    {
      lastSync, anchor := Some(now), Some(now);
      answer := LoggedIn;
    }
  }
}
