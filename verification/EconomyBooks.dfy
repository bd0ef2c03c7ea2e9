/**
 * The books of one player over any run, logins included: every point, layer and item is accounted for.
 *
 * A ledger counts what a run did from its requests and answers alone; the theorems tie it to the
 * player's rows.
 */
module EconomyBooks {
  import opened Prelude
  import opened Economy
  import opened Inventory
  import Cairn
  import Vow

  /** Points spent, offline seconds thrown away by logins, committed pulls and vows, layers credited. */
  datatype Ledger = Ledger(spent: real, lost: int, pulls: nat, vows: nat, credited: nat)

  /** Layers that growth at now credits: one a step until the slots are full. */
  function Credit(c: Rules, g: Cairn.Growth, now: int): nat
    requires c.Valid()
  {
    if g.anchor.None? || !Cairn.AllPresent(c.cairn, g.slots) then 0
    else Min(Cairn.Steps(c.cairn, g.anchor.value, now), Cairn.Capacity(c.cairn, g.slots))
  }

  /** What one answered request adds to the ledger; a rejected one adds nothing. */
  ghost function Entry(c: Rules, l: Ledger, p: Player, r: Request, now: int, answer: Outcome): Ledger
    requires c.Valid()
  {
    match r
    case Sync(grew) => if grew then l.(credited := l.credited + Credit(c, p.growth, now)) else l
    case GetState => l.(credited := l.credited + Credit(c, p.growth, now))
    case Pull(_, _, _, _) =>
      if answer.Rejected? then l
      else l.(spent := l.spent + c.pullCost, pulls := l.pulls + 1, credited := l.credited + Credit(c, p.growth, now))
    case Pray(_, nPower, _, _, _, _, _) =>
      if answer.Rejected? then l else l.(spent := l.spent + nPower, vows := l.vows + 1)
    case Login => if p.lastSync.Some? then l.(lost := l.lost + now - p.lastSync.value) else l
  }

  ghost function Books(c: Rules, seed: Cairn.Seed, p: Player, calls: seq<Call>): Ledger
    requires c.Valid()
  {
    if calls == [] then Ledger(0.0, 0, 0, 0, 0)
    else
      Entry(c, Books(c, seed, p, Front(calls)), Final(c, seed, p, Front(calls)),
            Last(calls).req, Last(calls).now, Answer(c, seed, p, calls))
  }

  // ---- Points: no second is paid twice, and the balance never goes negative ----

  /** rate * (t seconds), as used on both sides of the balance equation. */
  function Earned(rate: real, t: int): real { t as real * rate }

  lemma EarnedAdd(rate: real, a: int, b: int)
    ensures Earned(rate, a + b) == Earned(rate, a) + Earned(rate, b)
  {
    assert (a + b) as real == a as real + b as real;
  }

  /** balance + spent = initial + rate * (last_sync_at - start - offline time thrown away) */
  predicate Balanced(p0: Player, p: Player, l: Ledger)
  {
    && p0.lastSync.Some? && p.lastSync.Some? && p.rate == p0.rate
    && p.balance + l.spent == p0.balance + Earned(p0.rate, p.lastSync.value - p0.lastSync.value - l.lost)
    && p.balance >= 0.0
  }

  lemma AccrualIsEarned(p: Player, now: int)
    requires p.lastSync.Some? && p.lastSync.value <= now && p.rate >= 0.0
    ensures Accrual(p, now) == Earned(p.rate, now - p.lastSync.value) >= 0.0
  {
    Nonneg(now - p.lastSync.value, p.rate);
  }

  /** Whatever the clocks say: seconds since the last sync are paid, a clock that went back takes nothing. */
  lemma AccrualNeverTakes(p: Player, now: int)
    requires p.rate >= 0.0
    ensures Accrual(p, now) == if p.lastSync.Some? then Earned(p.rate, Max(0, now - p.lastSync.value)) else 0.0
    ensures Accrual(p, now) >= 0.0
  {
    if p.lastSync.Some? {
      Nonneg(Max(0, now - p.lastSync.value), p.rate);
      if now < p.lastSync.value { Nonneg(p.lastSync.value - now, p.rate); }
    }
  }

  lemma Nonneg(t: int, rate: real)
    requires t >= 0 && rate >= 0.0
    ensures t as real * rate >= 0.0
  {}

  lemma BalancedStep(c: Rules, seed: Cairn.Seed, p0: Player, p: Player, l: Ledger, r: Request, now: int)
    requires c.Valid() && Started(c, p, now) && Balanced(p0, p, l)
    ensures var s := Step(c, seed, p, r, now); Balanced(p0, s.0, Entry(c, l, p, r, now, s.1))
  {
    AccrualIsEarned(p, now);
    EarnedAdd(p0.rate, p.lastSync.value - p0.lastSync.value - l.lost, now - p.lastSync.value);
  }

  /** Over every run with logins anywhere: each second up to the last sync is paid exactly once or thrown away. */
  lemma {:induction false} PointsBalance(c: Rules, seed: Cairn.Seed, p: Player, start: int, calls: seq<Call>)
    requires c.Valid() && Started(c, p, start) && Monotone(start, calls) && p.balance >= 0.0
    ensures Balanced(p, Final(c, seed, p, calls), Books(c, seed, p, calls))
  {
    if calls == [] {
      assert Earned(p.rate, 0) == 0.0;
    } else {
      PointsBalance(c, seed, p, start, Front(calls));
      StartedRun(c, seed, p, start, Front(calls));
      BalancedStep(c, seed, p, Final(c, seed, p, Front(calls)), Books(c, seed, p, Front(calls)), Last(calls).req,
          Last(calls).now);
    }
  }

  /** Every log row satisfies after = before + accrued - cost with no negative accrual. */
  predicate RowsHold(log: seq<LogRow>)
  {
    forall i: nat | i < |log| :: log[i].after == log[i].before + log[i].accrued - log[i].cost && log[i].accrued >= 0.0
  }

  /** A step appends at most one row, and that row's identity holds. */
  lemma LogStep(c: Rules, seed: Cairn.Seed, p: Player, r: Request, now: int)
    requires c.Valid() && Started(c, p, now)
    ensures var log := Step(c, seed, p, r, now).0.log;
            || log == p.log
            || (exists row ::
                  log == p.log + [row] && row.after == row.before + row.accrued - row.cost && row.accrued >= 0.0)
  {
    AccrualIsEarned(p, now);
    var log := Step(c, seed, p, r, now).0.log;
    if log != p.log {
      var row := log[|p.log|];
      assert log == p.log + [row];
    }
  }

  lemma {:induction false} LogRowsHold(c: Rules, seed: Cairn.Seed, p: Player, start: int, calls: seq<Call>)
    requires c.Valid() && Started(c, p, start) && Monotone(start, calls) && RowsHold(p.log)
    ensures RowsHold(Final(c, seed, p, calls).log) && p.log <= Final(c, seed, p, calls).log
  {
    if calls == [] {
    } else {
      LogRowsHold(c, seed, p, start, Front(calls));
      StartedRun(c, seed, p, start, Front(calls));
      LogStep(c, seed, Final(c, seed, p, Front(calls)), Last(calls).req, Last(calls).now);
    }
  }

  // ---- Layers: pulls are bounded by growth, growth by elapsed time ----

  /** Where growth starts to count: the anchor, or the first clock reading while there is none. */
  function Since(p: Player, start: int): int { if p.growth.anchor.Some? then p.growth.anchor.value else start }

  /** The credit fits the anchor's advance since a0. */
  predicate Advanced(c: Rules, a0: int, g: Cairn.Growth, credited: nat)
  {
    match g.anchor
    case None => credited == 0
    case Some(a) => Cairn.StepTime(c.cairn, a0, credited) <= a
  }

  /** layers + MaxLayers * pulls = initial layers + credited, and the credit fits the anchor's advance. */
  predicate Layered(c: Rules, a0: int, initial: nat, p: Player, l: Ledger)
  {
    && Cairn.Capped(c.cairn, p.growth.slots)
    && Cairn.LayerSum(c.cairn, p.growth.slots) + c.cairn.maxLayers * l.pulls == initial + l.credited
    && Advanced(c, a0, p.growth, l.credited)
  }

  /** Growth at now credits exactly Credit layers and keeps within the anchor's advance. */
  lemma GrowCredits(c: Rules, seed: Cairn.Seed, g: Cairn.Growth, now: int, a0: int, k: nat)
    requires c.Valid() && Cairn.AllPresent(c.cairn, g.slots) && Cairn.Capped(c.cairn, g.slots) && a0 <= now
    requires Advanced(c, a0, g, k)
    ensures var r := Cairn.Grow(c.cairn, seed, g, now);
            && Cairn.Capped(c.cairn, r.slots) && Cairn.AllPresent(c.cairn, r.slots)
            && Cairn.LayerSum(c.cairn, r.slots) == Cairn.LayerSum(c.cairn, g.slots) + Credit(c, g, now)
            && Advanced(c, a0, r, k + Credit(c, g, now))
  {
    if g.anchor.Some? {
      var n := Cairn.Steps(c.cairn, g.anchor.value, now);
      Cairn.GrowStepsCredit(c.cairn, seed, g.slots, g.anchor.value, n);
      Cairn.StepTimeAdd(c.cairn, a0, k, Credit(c, g, now));
      Cairn.StepTimeMono(c.cairn, Cairn.StepTime(c.cairn, a0, k), g.anchor.value, Credit(c, g, now), n);
    }
  }

  /** A committed pull takes a slot that holds exactly MaxLayers. */
  lemma ClaimTakesFullSlot(c: Rules, slots: map<nat, nat>, slot: nat)
    requires c.Valid() && slot < c.cairn.slotCount && slot in slots && slots[slot] >= c.cairn.maxLayers
    requires Cairn.Capped(c.cairn, slots)
    ensures Cairn.LayerSum(c.cairn, slots[slot := 0]) + c.cairn.maxLayers == Cairn.LayerSum(c.cairn, slots)
    ensures Cairn.Capped(c.cairn, slots[slot := 0])
  {
    Cairn.UpdateSums(c.cairn, slots, slot, 0, c.cairn.slotCount);
  }

  lemma PullLayers(c: Rules, seed: Cairn.Seed, p: Player, r: Request, now: int, a0: int, k: nat)
    requires c.Valid() && Started(c, p, now) && r.Pull? && Cairn.Capped(c.cairn, p.growth.slots) && a0 <= now
    requires Advanced(c, a0, p.growth, k) && !Step(c, seed, p, r, now).1.Rejected?
    ensures var g := Step(c, seed, p, r, now).0.growth;
            && Cairn.Capped(c.cairn, g.slots)
            && Cairn.LayerSum(c.cairn, g.slots) + c.cairn.maxLayers
               == Cairn.LayerSum(c.cairn, p.growth.slots) + Credit(c, p.growth, now)
            && Advanced(c, a0, g, k + Credit(c, p.growth, now))
  {
    GrowCredits(c, seed, p.growth, now, a0, k);
    ClaimTakesFullSlot(c, Cairn.Grow(c.cairn, seed, p.growth, now).slots, r.slot);
  }

  lemma LayeredPull(c: Rules, seed: Cairn.Seed, a0: int, initial: nat, p: Player, l: Ledger, r: Request, now: int)
    requires c.Valid() && Started(c, p, now) && Layered(c, a0, initial, p, l) && r.Pull? && a0 <= now
    ensures var s := Step(c, seed, p, r, now); Layered(c, a0, initial, s.0, Entry(c, l, p, r, now, s.1))
  {
    if !Step(c, seed, p, r, now).1.Rejected? {
      PullLayers(c, seed, p, r, now, a0, l.credited);
      OneMore(c.cairn.maxLayers, l.pulls);
    }
  }

  lemma LayeredLogin(c: Rules, a0: int, initial: nat, p: Player, l: Ledger, now: int)
    requires c.Valid() && Started(c, p, now) && Layered(c, a0, initial, p, l) && a0 <= now
    ensures Layered(c, a0, initial, LoginStep(p, now), l)
  {}

  lemma LayeredStep(c: Rules, seed: Cairn.Seed, a0: int, initial: nat, p: Player, l: Ledger, r: Request, now: int)
    requires c.Valid() && Started(c, p, now) && Layered(c, a0, initial, p, l) && a0 <= now
    ensures var s := Step(c, seed, p, r, now); Layered(c, a0, initial, s.0, Entry(c, l, p, r, now, s.1))
  {
    match r
    case Pull(_, _, _, _) => LayeredPull(c, seed, a0, initial, p, l, r, now);
    case Login => LayeredLogin(c, a0, initial, p, l, now);
    case _ => GrowCredits(c, seed, p.growth, now, a0, l.credited);
  }

  /** Over every run: failed pulls, vows and logins contribute no layer, and pulls cost what growth gave. */
  lemma {:induction false} LayersBalance(c: Rules, seed: Cairn.Seed, p: Player, start: int, calls: seq<Call>)
    requires c.Valid() && Started(c, p, start) && Monotone(start, calls) && Cairn.Capped(c.cairn, p.growth.slots)
    ensures Layered(c, Since(p, start), Cairn.LayerSum(c.cairn, p.growth.slots), Final(c, seed, p, calls),
                    Books(c, seed, p, calls))
  {
    if calls == [] {
      assert c.cairn.maxLayers * 0 == 0;
    } else {
      LayersBalance(c, seed, p, start, Front(calls));
      StartedRun(c, seed, p, start, Front(calls));
      MonotoneStart(start, Front(calls));
      LayeredStep(c, seed, Since(p, start), Cairn.LayerSum(c.cairn, p.growth.slots), Final(c, seed, p, Front(calls)),
          Books(c, seed, p, Front(calls)), Last(calls).req, Last(calls).now);
    }
  }

  /** Hence pulls are bounded by the layers at hand and the time that has passed. */
  lemma PullsAreBounded(c: Rules, seed: Cairn.Seed, p: Player, start: int, calls: seq<Call>)
    requires c.Valid() && Started(c, p, start) && Monotone(start, calls) && Cairn.Capped(c.cairn, p.growth.slots)
    ensures var pulls, elapsed := Books(c, seed, p, calls).pulls, Until(start, calls) - Since(p, start);
            (c.cairn.maxLayers * pulls - Cairn.LayerSum(c.cairn, p.growth.slots)) * c.cairn.interval <= elapsed
  {
    LayersBalance(c, seed, p, start, calls);
    StartedRun(c, seed, p, start, calls);
    MonotoneStart(start, calls);
    var l, initial := Books(c, seed, p, calls), Cairn.LayerSum(c.cairn, p.growth.slots);
    Cairn.StepTimeIs(c.cairn, Since(p, start), l.credited);
    MulMono(c.cairn.maxLayers * l.pulls - initial, l.credited, c.cairn.interval);
  }

  // ---- New players ----

  /** Nothing in the slots, no points, no items. */
  predicate Bare(c: Rules, p: Player)
  {
    && Cairn.Capped(c.cairn, p.growth.slots) && Cairn.LayerSum(c.cairn, p.growth.slots) == 0
    && p.balance == 0.0 && p.inventory == map[]
  }

  lemma NewPlayerIsBare(c: Rules, rate: real, now: int)
    requires c.Valid() && rate >= 0.0
    ensures Started(c, NewPlayer(c, rate, now), now) && Bare(c, NewPlayer(c, rate, now))
  {
    NothingStored(c, c.cairn.slotCount);
  }

  lemma {:induction false} NothingStored(c: Rules, n: nat)
    requires n <= c.cairn.slotCount
    ensures Cairn.SumUpTo(InitSlots(c, map[]), n) == 0
  {
    if n == 0 {
    } else {
      NothingStored(c, n - 1);
    }
  }

  /** All that a player holds after a run from nothing. */
  ghost predicate FromNothing(c: Rules, p0: Player, p: Player, l: Ledger, elapsed: int)
  {
    && c.cairn.maxLayers * l.pulls * c.cairn.interval <= elapsed
    && Balanced(p0, p, l)
    && Total(p.inventory) == l.pulls + l.vows - c.required * l.vows
  }

  lemma BareRun(c: Rules, seed: Cairn.Seed, p: Player, start: int, calls: seq<Call>)
    requires c.Valid() && Started(c, p, start) && Bare(c, p) && Monotone(start, calls)
    ensures FromNothing(c, p, Final(c, seed, p, calls), Books(c, seed, p, calls), Until(start, calls) - Since(p, start))
  {
    PullsAreBounded(c, seed, p, start, calls);
    PointsBalance(c, seed, p, start, calls);
    ItemsBalance(c, seed, p, calls);
  }

  /**
   * A new player starts with nothing: over every run every layer pulled has grown since the row was made,
   * every point has accrued since then, and every item comes from a pull or a vow.
   */
  lemma NewPlayersStartWithNothing(c: Rules, seed: Cairn.Seed, rate: real, start: int, calls: seq<Call>)
    requires c.Valid() && rate >= 0.0 && Monotone(start, calls)
    ensures var p := NewPlayer(c, rate, start);
            FromNothing(c, p, Final(c, seed, p, calls), Books(c, seed, p, calls), Until(start, calls) - start)
  {
    NewPlayerIsBare(c, rate, start);
    BareRun(c, seed, NewPlayer(c, rate, start), start, calls);
  }

  /** Growth starts at the first login: until then the new player's anchor is unset. */
  lemma FirstLoginStartsGrowth(c: Rules, seed: Cairn.Seed, rate: real, made: int, login: int, calls: seq<Call>)
    requires c.Valid() && rate >= 0.0 && made <= login && Monotone(login, calls)
    ensures var p := LoginStep(NewPlayer(c, rate, made), login);
            FromNothing(c, p, Final(c, seed, p, calls), Books(c, seed, p, calls), Until(login, calls) - login)
  {
    NewPlayerIsBare(c, rate, made);
    BareRun(c, seed, LoginStep(NewPlayer(c, rate, made), login), login, calls);
  }

  // ---- Items ----

  /** items = initial + pulls + vows - requiredItemCount * vows, and no stored row is empty. */
  ghost predicate Itemised(c: Rules, p0: Player, p: Player, l: Ledger)
  {
    && Stocked(p.inventory)
    && Total(p.inventory) == Total(p0.inventory) + l.pulls + l.vows - c.required * l.vows
  }

  lemma GrantTotal(inv: Inventory, item: string)
    requires Stocked(inv)
    ensures Stocked(Grant(inv, item)) && Total(Grant(inv, item)) == Total(inv) + 1
  {
    TotalUpdate(inv, item, Count(inv, item) + 1);
  }

  lemma PrayTotals(c: Rules, p: Player, r: Request, now: int)
    requires c.Valid() && r.Pray? && Stocked(p.inventory)
    ensures var s := PrayStep(c, p, r, now);
            && Stocked(s.0.inventory)
            && (if s.1.Rejected? then s.0 == p else Total(s.0.inventory) + c.required == Total(p.inventory) + 1)
  {
    var s := PrayStep(c, p, r, now);
    if !s.1.Rejected? {
      Vow.RemainingTotal(p.inventory, r.materials);
      GrantTotal(Vow.Remaining(p.inventory, r.materials), s.1.item);
    }
  }

  lemma OneMore(d: nat, n: nat)
    ensures d * (n + 1) == d * n + d
  {}

  lemma ItemisedPull(c: Rules, seed: Cairn.Seed, p0: Player, p: Player, l: Ledger, r: Request, now: int)
    requires c.Valid() && Itemised(c, p0, p, l) && r.Pull?
    ensures var s := Step(c, seed, p, r, now); Itemised(c, p0, s.0, Entry(c, l, p, r, now, s.1))
  {
    GrantTotal(p.inventory, r.item);
  }

  lemma ItemisedStep(c: Rules, seed: Cairn.Seed, p0: Player, p: Player, l: Ledger, r: Request, now: int)
    requires c.Valid() && Itemised(c, p0, p, l)
    ensures var s := Step(c, seed, p, r, now); Itemised(c, p0, s.0, Entry(c, l, p, r, now, s.1))
  {
    match r
    case Pray(_, _, _, _, _, _, _) =>
      PrayTotals(c, p, r, now);
      OneMore(c.required, l.vows);
    case Pull(_, _, _, _) => ItemisedPull(c, seed, p0, p, l, r, now);
    case _ =>
  }

  lemma {:induction false} ItemsBalance(c: Rules, seed: Cairn.Seed, p: Player, calls: seq<Call>)
    requires c.Valid() && Stocked(p.inventory)
    ensures Itemised(c, p, Final(c, seed, p, calls), Books(c, seed, p, calls))
  {
    if calls == [] {
      assert c.required * 0 == 0;
    } else {
      ItemsBalance(c, seed, p, Front(calls));
      ItemisedStep(c, seed, p, Final(c, seed, p, Front(calls)), Books(c, seed, p, Front(calls)), Last(calls).req,
          Last(calls).now);
    }
  }

  // ---- Cooldown ----

  /** The clock readings of the committed pulls of a run, in order. */
  ghost function PullTimes(c: Rules, seed: Cairn.Seed, p: Player, calls: seq<Call>): seq<int>
    requires c.Valid()
  {
    if calls == [] then []
    else
      PullTimes(c, seed, p, Front(calls))
      + (if Answer(c, seed, p, calls).Pulled? then [Last(calls).now] else [])
  }

  ghost predicate Spaced(c: Rules, times: seq<int>, next: Option<int>)
  {
    && (forall i, j | 0 <= i < j < |times| :: times[j] - times[i] >= c.cooldown)
    && (forall i | 0 <= i < |times| :: next.Some? && times[i] + c.cooldown <= next.value)
  }

  lemma CooldownStep(c: Rules, seed: Cairn.Seed, p: Player, r: Request, now: int)
    requires c.Valid()
    ensures var s := Step(c, seed, p, r, now);
            if s.1.Pulled? then !CoolingDown(p, now) && s.0.nextGacha == Some(now + c.cooldown)
            else s.0.nextGacha == p.nextGacha
  {}

  /** Any two committed pulls are at least a cooldown apart, whatever else the run holds. */
  lemma {:induction false} PullsAreSpaced(c: Rules, seed: Cairn.Seed, p: Player, calls: seq<Call>)
    requires c.Valid()
    ensures Spaced(c, PullTimes(c, seed, p, calls), Final(c, seed, p, calls).nextGacha)
  {
    if calls == [] {
    } else {
      var q, now := Final(c, seed, p, Front(calls)), Last(calls).now;
      PullsAreSpaced(c, seed, p, Front(calls));
      CooldownStep(c, seed, q, Last(calls).req, now);
      var times := PullTimes(c, seed, p, Front(calls));
      if Answer(c, seed, p, calls).Pulled? {
        assert forall i | 0 <= i < |times| :: times[i] + c.cooldown <= now;
        assert PullTimes(c, seed, p, calls) == times + [now];
      } else {
        assert PullTimes(c, seed, p, calls) == times;
      }
    }
  }
}
