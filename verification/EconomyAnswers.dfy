/**
 * When a pull or a vow goes through, and what it says when it does not (internal/gacha/gacha.go lines
 * 206-311, internal/vow/vow.go lines 118-306), from what the requests so far have earned, spent and pulled.
 */
module EconomyAnswers {
  import opened Prelude
  import opened Economy
  import opened EconomyBooks
  import opened Inventory
  import Cairn
  import Vow

  /** What a ledger leaves of a player's points at now: earned and neither spent nor thrown away. */
  function Left(p0: Player, l: Ledger, now: int): real
    requires p0.lastSync.Some?
  {
    p0.balance + Earned(p0.rate, now - p0.lastSync.value - l.lost) - l.spent
  }

  /** What the run has left, up to now. */
  ghost function Funds(c: Rules, seed: Cairn.Seed, p: Player, calls: seq<Call>, now: int): real
    requires c.Valid() && p.lastSync.Some?
  {
    Left(p, Books(c, seed, p, calls), now)
  }

  lemma BalancedAvailable(p0: Player, p: Player, l: Ledger, now: int)
    requires Balanced(p0, p, l) && p.lastSync.value <= now && p.rate >= 0.0
    ensures Available(p, now) == Left(p0, l, now)
  {
    AccrualIsEarned(p, now);
    EarnedAdd(p0.rate, p.lastSync.value - p0.lastSync.value - l.lost, now - p.lastSync.value);
  }

  lemma FundsAreAvailable(c: Rules, seed: Cairn.Seed, p: Player, start: int, calls: seq<Call>, now: int)
    requires c.Valid() && Started(c, p, start) && Monotone(start, calls) && p.balance >= 0.0
    requires Until(start, calls) <= now
    ensures Available(Final(c, seed, p, calls), now) == Funds(c, seed, p, calls, now)
  {
    PointsBalance(c, seed, p, start, calls);
    StartedRun(c, seed, p, start, calls);
    BalancedAvailable(p, Final(c, seed, p, calls), Books(c, seed, p, calls), now);
  }

  // ---- Pulls ----

  function NextAfter(c: Rules, times: seq<int>): Option<int>
  {
    if times == [] then None else Some(Last(times) + c.cooldown)
  }

  lemma OneMoreTime(c: Rules, seed: Cairn.Seed, q: Player, r: Request, now: int, times: seq<int>)
    requires c.Valid() && q.nextGacha == NextAfter(c, times)
    ensures Step(c, seed, q, r, now).0.nextGacha
         == NextAfter(c, times + if Step(c, seed, q, r, now).1.Pulled? then [now] else [])
  {
    CooldownStep(c, seed, q, r, now);
  }

  /** The last committed pull of the run is what the cooldown counts from. */
  lemma {:induction false} CooldownFromLastPull(c: Rules, seed: Cairn.Seed, p: Player, calls: seq<Call>)
    requires c.Valid() && p.nextGacha.None?
    ensures Final(c, seed, p, calls).nextGacha == NextAfter(c, PullTimes(c, seed, p, calls))
  {
    if calls == [] {
    } else {
      CooldownFromLastPull(c, seed, p, Front(calls));
      OneMoreTime(c, seed, Final(c, seed, p, Front(calls)), Last(calls).req, Last(calls).now,
                  PullTimes(c, seed, p, Front(calls)));
    }
  }

  /** Some committed pull of the run is less than a cooldown ago. */
  ghost predicate PulledLately(c: Rules, seed: Cairn.Seed, p: Player, calls: seq<Call>, now: int)
    requires c.Valid()
  {
    exists t :: t in PullTimes(c, seed, p, calls) && now < t + c.cooldown
  }

  lemma CoolingDownIsLately(c: Rules, seed: Cairn.Seed, p: Player, calls: seq<Call>, now: int)
    requires c.Valid() && p.nextGacha.None?
    ensures CoolingDown(Final(c, seed, p, calls), now) <==> PulledLately(c, seed, p, calls, now)
  {
    var times := PullTimes(c, seed, p, calls);
    CooldownFromLastPull(c, seed, p, calls);
    PullsAreSpaced(c, seed, p, calls);
    if times != [] && now < Last(times) + c.cooldown { assert Last(times) in times; }
    if PulledLately(c, seed, p, calls, now) {
      var t :| t in times && now < t + c.cooldown;
      var i :| 0 <= i < |times| && times[i] == t;
    }
  }

  /** The layers of a slot once growth has caught up. */
  function LayersAt(c: Rules, seed: Cairn.Seed, p: Player, slot: nat, now: int): nat
    requires c.Valid()
  {
    Cairn.At(Cairn.Grow(c.cairn, seed, p.growth, now).slots, slot)
  }

  /**
   * Main result: after any run, a pull is committed exactly when its slot exists and is full, no committed
   * pull is less than a cooldown ago and the run's funds cover the cost; it leaves what the cost leaves.
   */
  lemma PullIsCommittedExactlyWhen(c: Rules, seed: Cairn.Seed, p: Player, start: int, calls: seq<Call>, r: Request,
                                   now: int)
    requires c.Valid() && Started(c, p, start) && Monotone(start, calls) && Until(start, calls) <= now
    requires p.balance >= 0.0 && p.nextGacha.None? && Cairn.Capped(c.cairn, p.growth.slots) && r.Pull?
    ensures var q := Final(c, seed, p, calls);
            var answer := Step(c, seed, q, r, now).1;
            && (answer.Pulled?
                <==> 0 <= r.slot < c.cairn.slotCount && LayersAt(c, seed, q, r.slot, now) == c.cairn.maxLayers
                     && !PulledLately(c, seed, p, calls, now) && c.pullCost <= Funds(c, seed, p, calls, now))
            && (answer.Pulled? ==>
                  answer.points == Funds(c, seed, p, calls, now) - c.pullCost && answer.next == now + c.cooldown
                  && answer.item == r.item)
  {
    PullState(c, seed, p, start, calls, r.slot, now);
  }

  /** The three conditions of a pull in terms of the player's rows. */
  lemma PullState(c: Rules, seed: Cairn.Seed, p: Player, start: int, calls: seq<Call>, slot: int, now: int)
    requires c.Valid() && Started(c, p, start) && Monotone(start, calls) && Until(start, calls) <= now
    requires p.balance >= 0.0 && p.nextGacha.None? && Cairn.Capped(c.cairn, p.growth.slots)
    ensures var q := Final(c, seed, p, calls);
            var g := Cairn.Grow(c.cairn, seed, q.growth, now);
            && Available(q, now) == Funds(c, seed, p, calls, now)
            && (CoolingDown(q, now) <==> PulledLately(c, seed, p, calls, now))
            && (0 <= slot < c.cairn.slotCount ==> slot in g.slots && g.slots[slot] <= c.cairn.maxLayers)
  {
    FundsAreAvailable(c, seed, p, start, calls, now);
    CoolingDownIsLately(c, seed, p, calls, now);
    StartedRun(c, seed, p, start, calls);
    LayersBalance(c, seed, p, start, calls);
    MonotoneStart(start, calls);
    var q := Final(c, seed, p, calls);
    GrowCredits(c, seed, q.growth, now, Since(p, start), Books(c, seed, p, calls).credited);
  }

  /** Why a pull is refused: the first condition that fails, in the order of the handler. */
  lemma PullsSayWhy(c: Rules, seed: Cairn.Seed, p: Player, start: int, calls: seq<Call>, r: Request, now: int)
    requires c.Valid() && Started(c, p, start) && Monotone(start, calls) && Until(start, calls) <= now
    requires p.balance >= 0.0 && p.nextGacha.None? && Cairn.Capped(c.cairn, p.growth.slots) && r.Pull?
    ensures var q := Final(c, seed, p, calls);
            var answer := Step(c, seed, q, r, now).1;
            var inRange, lately := 0 <= r.slot < c.cairn.slotCount, PulledLately(c, seed, p, calls, now);
            && (answer == Rejected(InvalidSlot) <==> !inRange)
            && (answer == Rejected(CooldownActive) <==> inRange && lately)
            && (answer == Rejected(SlotIncomplete)
                <==> inRange && !lately && LayersAt(c, seed, q, r.slot, now) < c.cairn.maxLayers)
            && (answer == Rejected(InsufficientPoints)
                <==> inRange && !lately && LayersAt(c, seed, q, r.slot, now) == c.cairn.maxLayers
                     && Funds(c, seed, p, calls, now) < c.pullCost)
  {
    PullState(c, seed, p, start, calls, r.slot, now);
  }

  // ---- Vows ----

  /** The tier whose target is one rarity above what the materials make. */
  predicate TierFor(c: Rules, ms: seq<Vow.Material>, t: Vow.VowTier)
  {
    && Vow.BaseOrder(c.pool, ms).Some? && 1 <= Vow.BaseOrder(c.pool, ms).value < 5
    && Vow.OrderRarity(Vow.BaseOrder(c.pool, ms).value + 1) in c.tiers
    && c.tiers[Vow.OrderRarity(Vow.BaseOrder(c.pool, ms).value + 1)] == t
  }

  /** A payment passes exactly when craftable materials of the exact count make a base whose tier has it in range. */
  lemma PaymentsPassExactlyWhen(c: Rules, ms: seq<Vow.Material>, nPower: real)
    requires c.Valid()
    ensures PrayCheck(c, ms, nPower).Some?
       <==> Vow.Positive(ms) && Vow.Weight(ms) == c.required && Vow.Craftable(c.pool, ms)
            && exists t: Vow.VowTier :: TierFor(c, ms, t) && t.minNPower <= nPower <= t.maxNPower
  {
    if Vow.BaseOrder(c.pool, ms).Some? && 1 <= Vow.BaseOrder(c.pool, ms).value < 5
       && Vow.OrderRarity(Vow.BaseOrder(c.pool, ms).value + 1) in c.tiers
    {
      assert TierFor(c, ms, c.tiers[Vow.OrderRarity(Vow.BaseOrder(c.pool, ms).value + 1)]);
    }
  }

  /** The odds a payment buys, without a division: the line from the tier's lower corner to its upper one. */
  predicate Wins(t: Vow.VowTier, nPower: real, roll: real)
  {
    (roll - t.minRate) * (t.maxNPower - t.minNPower) <= (t.maxRate - t.minRate) * (nPower - t.minNPower)
  }

  /** The success rate lies on the line. */
  lemma RateOnTheLine(t: Vow.VowTier, nPower: real)
    requires t.Valid() && t.minNPower <= nPower <= t.maxNPower
    ensures (Vow.CalcSuccessRate(t, nPower) - t.minRate) * (t.maxNPower - t.minNPower)
         == (t.maxRate - t.minRate) * (nPower - t.minNPower)
  {
    assert Vow.CalcSuccessRate(t, t.minNPower) == t.minRate by { Vow.SuccessRateShape(t, t.minNPower, nPower); }
    Vow.OddsAreLinear(t, t.minNPower, nPower);
  }

  lemma RateWins(t: Vow.VowTier, nPower: real, roll: real)
    requires t.Valid() && t.minNPower <= nPower <= t.maxNPower
    ensures roll <= Vow.CalcSuccessRate(t, nPower) <==> Wins(t, nPower, roll)
  {
    RateOnTheLine(t, nPower);
    LineWins(t, nPower, roll, Vow.CalcSuccessRate(t, nPower));
  }

  lemma LineWins(t: Vow.VowTier, nPower: real, roll: real, rate: real)
    requires t.minNPower < t.maxNPower
    requires (rate - t.minRate) * (t.maxNPower - t.minNPower) == (t.maxRate - t.minRate) * (nPower - t.minNPower)
    ensures roll <= rate <==> Wins(t, nPower, roll)
  {
    BelowTheLine(roll - t.minRate, rate - t.minRate, t.maxNPower - t.minNPower,
                 (t.maxRate - t.minRate) * (nPower - t.minNPower));
  }

  lemma BelowTheLine(x: real, y: real, d: real, e: real)
    requires d > 0.0 && y * d == e
    ensures x <= y <==> x * d <= e
  {
    if x <= y { Vow.Scaled(x, y, d); } else { Vow.ScaledBelow(y, x, d); }
  }

  /** A vow that passed the checks wins exactly when its roll is within the odds its payment buys. */
  lemma CheckedRateIsTheOdds(c: Rules, ms: seq<Vow.Material>, nPower: real, roll: real, t: Vow.VowTier)
    requires c.Valid() && PrayCheck(c, ms, nPower).Some? && TierFor(c, ms, t)
    ensures t.minNPower <= nPower <= t.maxNPower
    ensures roll <= PrayCheck(c, ms, nPower).value <==> Wins(t, nPower, roll)
  {
    RateWins(t, nPower, roll);
  }

  /** A vow in terms of the player's rows. */
  lemma VowState(c: Rules, seed: Cairn.Seed, p: Player, r: Request, now: int)
    requires c.Valid() && r.Pray?
    ensures var answer, check := Step(c, seed, p, r, now).1, PrayCheck(c, r.materials, r.nPower);
            && (answer.Prayed? ==> check.Some? && answer.points == Available(p, now) - r.nPower
                                   && (answer.success <==> r.roll <= check.value))
            && answer.Prayed? == (check.Some? && r.nPower <= Available(p, now) && Vow.Covered(p.inventory, r.materials))
            && (answer == Rejected(InvalidRequest) <==> check.None?)
            && (answer == Rejected(InsufficientPoints) <==> check.Some? && Available(p, now) < r.nPower)
            && (answer == Rejected(InsufficientMaterials)
                <==> check.Some? && r.nPower <= Available(p, now) && !Vow.Covered(p.inventory, r.materials))
  {}

  /**
   * Main result: after any run, a vow is answered exactly when its payment passes, the run's funds cover it
   * and the stock covers the materials; it then succeeds exactly within the odds of its tier.
   */
  lemma VowIsAnsweredExactlyWhen(c: Rules, seed: Cairn.Seed, p: Player, start: int, calls: seq<Call>, r: Request,
                                 now: int)
    requires c.Valid() && Started(c, p, start) && Monotone(start, calls) && Until(start, calls) <= now
    requires p.balance >= 0.0 && r.Pray?
    ensures var q := Final(c, seed, p, calls);
            var answer := Step(c, seed, q, r, now).1;
            && (answer.Prayed?
                <==> PrayCheck(c, r.materials, r.nPower).Some? && r.nPower <= Funds(c, seed, p, calls, now)
                     && Vow.Covered(q.inventory, r.materials))
            && (answer.Prayed? ==> answer.points == Funds(c, seed, p, calls, now) - r.nPower)
    ensures var answer := Step(c, seed, Final(c, seed, p, calls), r, now).1;
            answer.Prayed? ==>
              exists t: Vow.VowTier :: TierFor(c, r.materials, t) && t.minNPower <= r.nPower <= t.maxNPower
                                       && (answer.success <==> Wins(t, r.nPower, r.roll))
  {
    FundsAreAvailable(c, seed, p, start, calls, now);
    VowState(c, seed, Final(c, seed, p, calls), r, now);
    if PrayCheck(c, r.materials, r.nPower).Some? {
      var t := c.tiers[Vow.OrderRarity(Vow.BaseOrder(c.pool, r.materials).value + 1)];
      assert TierFor(c, r.materials, t);
      CheckedRateIsTheOdds(c, r.materials, r.nPower, r.roll, t);
    }
  }

  /** Why a vow is refused: an invalid request, then the funds, then the stock. */
  lemma VowsSayWhy(c: Rules, seed: Cairn.Seed, p: Player, start: int, calls: seq<Call>, r: Request, now: int)
    requires c.Valid() && Started(c, p, start) && Monotone(start, calls) && Until(start, calls) <= now
    requires p.balance >= 0.0 && r.Pray?
    ensures var q := Final(c, seed, p, calls);
            var answer := Step(c, seed, q, r, now).1;
            var passes, pays := PrayCheck(c, r.materials, r.nPower).Some?, r.nPower <= Funds(c, seed, p, calls, now);
            && (answer == Rejected(InvalidRequest) <==> !passes)
            && (answer == Rejected(InsufficientPoints) <==> passes && !pays)
            && (answer == Rejected(InsufficientMaterials)
                <==> passes && pays && exists k :: Vow.Demand(r.materials, k) > Count(q.inventory, k))
  {
    FundsAreAvailable(c, seed, p, start, calls, now);
    VowState(c, seed, Final(c, seed, p, calls), r, now);
  }

  // ---- What the other answers show ----

  /** A commit answers what is then in stock. */
  lemma CommitsAnswerTheStock(c: Rules, seed: Cairn.Seed, p: Player, r: Request, now: int)
    requires c.Valid() && (r.Pull? || r.Pray?)
    ensures var s := Step(c, seed, p, r, now);
            match s.1
            case Pulled(item, count, _, _) => count == Count(s.0.inventory, item) && count >= 1
            case Prayed(_, item, count, _) => count == Count(s.0.inventory, item) && count >= 1
            case _ => true
  {}

  /** A sync answers the run's funds, a state read the layers up to date; a commit answers what is then in stock. */
  lemma AnswersAreCurrent(c: Rules, seed: Cairn.Seed, p: Player, start: int, calls: seq<Call>, r: Request, now: int)
    requires c.Valid() && Started(c, p, start) && Monotone(start, calls) && Until(start, calls) <= now
    requires p.balance >= 0.0
    ensures var q := Final(c, seed, p, calls);
            var s := Step(c, seed, q, r, now);
            match s.1
            case Synced(points) => points == Funds(c, seed, p, calls, now)
            case Viewed(layers) =>
              forall k: nat | k < c.cairn.slotCount :: k in layers && layers[k] == LayersAt(c, seed, q, k, now)
            case Pulled(item, count, _, _) => count == Count(s.0.inventory, item) && count >= 1
            case Prayed(_, item, count, _) => count == Count(s.0.inventory, item) && count >= 1
            case _ => true
  {
    if r.Pull? || r.Pray? {
      CommitsAnswerTheStock(c, seed, Final(c, seed, p, calls), r, now);
    } else {
      FundsAreAvailable(c, seed, p, start, calls, now);
      StartedRun(c, seed, p, start, calls);
    }
  }
}
