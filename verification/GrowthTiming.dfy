/**
 * When growth happens and to whom: which step lands on which slot, what a missing slot postpones, what a
 * repair leaves alone, and how long an emptied slot takes to fill (internal/cairn/cairn.go).
 */
module GrowthTiming {
  import opened Prelude
  import opened Economy
  import Cairn

  // ---- One step ----

  /** How many slots below n are still incomplete. */
  function OpenBelow(cfg: Cairn.Config, slots: map<nat, nat>, n: nat): nat
  {
    if n == 0 then 0 else OpenBelow(cfg, slots, n - 1) + Once(Cairn.At(slots, n - 1) < cfg.maxLayers)
  }

  lemma {:induction false} OpenIsCounted(cfg: Cairn.Config, slots: map<nat, nat>, n: nat)
    ensures |Cairn.IncompleteUpTo(cfg, slots, n)| == OpenBelow(cfg, slots, n)
    ensures forall k | 0 <= k < |Cairn.IncompleteUpTo(cfg, slots, n)| ::
              OpenBelow(cfg, slots, Cairn.IncompleteUpTo(cfg, slots, n)[k]) == k
  {
    if n == 0 {
    } else {
      OpenIsCounted(cfg, slots, n - 1);
    }
  }

  /** The slot with exactly as many incomplete slots below it as the hash leaves over. */
  predicate Picked(cfg: Cairn.Config, slots: map<nat, nat>, hash: nat, p: nat)
  {
    && p < cfg.slotCount && Cairn.At(slots, p) < cfg.maxLayers
    && OpenBelow(cfg, slots, cfg.slotCount) > 0
    && OpenBelow(cfg, slots, p) == hash % OpenBelow(cfg, slots, cfg.slotCount)
  }

  /** A step adds one layer to the picked slot and nothing else; with no slot incomplete it adds nothing. */
  lemma StepGrowsThePickedSlot(cfg: Cairn.Config, seed: Cairn.Seed, slots: map<nat, nat>, at: int)
    ensures OpenBelow(cfg, slots, cfg.slotCount) == 0 ==> Cairn.GrowOne(cfg, seed, slots, at) == slots
    ensures OpenBelow(cfg, slots, cfg.slotCount) > 0 ==>
              exists p :: Picked(cfg, slots, seed(at), p)
                          && Cairn.GrowOne(cfg, seed, slots, at) == slots[p := Cairn.At(slots, p) + 1]
  {
    OpenIsCounted(cfg, slots, cfg.slotCount);
    var open := Cairn.Incomplete(cfg, slots);
    if open != [] {
      PickIsMod(seed(at), |open|);
      assert Picked(cfg, slots, seed(at), open[Pick(seed(at), |open|)]);
    }
  }

  /** The steps of a call hash the seconds anchor + i * interval for i = 1, 2, .. and no others. */
  predicate SameStamps(cfg: Cairn.Config, seed: Cairn.Seed, other: Cairn.Seed, anchor: int, n: nat)
  {
    forall i | 1 <= i <= n :: seed(anchor + i * cfg.interval) == other(anchor + i * cfg.interval)
  }

  lemma {:induction false} SameSteps(cfg: Cairn.Config, seed: Cairn.Seed, other: Cairn.Seed, slots: map<nat, nat>,
                                     anchor: int, n: nat)
    requires SameStamps(cfg, seed, other, anchor, n)
    ensures Cairn.GrowSteps(cfg, seed, slots, anchor, n) == Cairn.GrowSteps(cfg, other, slots, anchor, n)
  {
    if n == 0 {
    } else {
      SameSteps(cfg, seed, other, slots, anchor, n - 1);
      Cairn.GrowStepsNext(cfg, seed, slots, anchor, n);
      Cairn.GrowStepsNext(cfg, other, slots, anchor, n);
      Cairn.StepTimeIs(cfg, anchor, n);
    }
  }

  /** Growth depends on the hash at the stamps of its own steps only. */
  lemma GrowthReadsItsStamps(cfg: Cairn.Config, seed: Cairn.Seed, other: Cairn.Seed, g: Cairn.Growth, now: int)
    requires cfg.Valid() && g.anchor.Some?
    requires SameStamps(cfg, seed, other, g.anchor.value, Cairn.Steps(cfg, g.anchor.value, now))
    ensures Cairn.Grow(cfg, seed, g, now) == Cairn.Grow(cfg, other, g, now)
  {
    SameSteps(cfg, seed, other, g.slots, g.anchor.value, Cairn.Steps(cfg, g.anchor.value, now));
  }

  // ---- Nothing is banked, nothing is lost ----

  /** After growth the anchor is less than an interval behind the clock, however full the slots are. */
  lemma NothingIsBanked(cfg: Cairn.Config, seed: Cairn.Seed, g: Cairn.Growth, now: int)
    requires cfg.Valid() && g.anchor.Some? && g.anchor.value <= now && Cairn.AllPresent(cfg, g.slots)
    ensures var r := Cairn.Grow(cfg, seed, g, now); r.anchor.value <= now < r.anchor.value + cfg.interval
  {
    Cairn.StepsBounds(cfg, g.anchor.value, now);
  }

  /** A missing slot postpones growth: a sync that comes before the repair takes nothing from it. */
  lemma SyncBeforeRepair(c: Rules, seed: Cairn.Seed, p: Player, t1: int, t2: int)
    requires c.Valid() && p.growth.anchor.Some? && t1 <= t2
    ensures GetStateStep(c, seed, SyncStep(c, seed, p, true, t1), t2).growth == GetStateStep(c, seed, p, t2).growth
  {
    if Cairn.AllPresent(c.cairn, p.growth.slots) { Cairn.GrowTwice(c.cairn, seed, p.growth, t1, t2); }
  }

  /** A repair makes every slot present, keeps every stored layer and adds none. */
  lemma {:induction false} RepairAddsNothing(c: Rules, slots: map<nat, nat>, n: nat)
    requires n <= c.cairn.slotCount
    ensures Cairn.AllPresent(c.cairn, InitSlots(c, slots))
    ensures forall i | i in slots :: i in InitSlots(c, slots) && InitSlots(c, slots)[i] == slots[i]
    ensures Cairn.SumUpTo(InitSlots(c, slots), n) == Cairn.SumUpTo(slots, n)
  {
    if n == 0 {
    } else {
      RepairAddsNothing(c, slots, n - 1);
    }
  }

  // ---- How long a slot takes ----

  /** n steps add at most n layers to any one slot. */
  lemma {:induction false} OneLayerAStep(cfg: Cairn.Config, seed: Cairn.Seed, slots: map<nat, nat>, anchor: int, n: nat,
                                         k: nat)
    ensures Cairn.At(Cairn.GrowSteps(cfg, seed, slots, anchor, n), k) <= Cairn.At(slots, k) + n
  {
    if n == 0 {
    } else {
      OneLayerAStep(cfg, seed, slots, anchor, n - 1, k);
      Cairn.GrowStepsNext(cfg, seed, slots, anchor, n);
    }
  }

  /** Slot k has no more layers than steps have passed since second a. */
  predicate GrownSince(c: Rules, g: Cairn.Growth, a: int, k: nat)
  {
    g.anchor.Some? && Cairn.StepTime(c.cairn, a, Cairn.At(g.slots, k)) <= g.anchor.value
  }

  lemma GrowGrownSince(c: Rules, seed: Cairn.Seed, g: Cairn.Growth, now: int, a: int, k: nat)
    requires c.Valid() && GrownSince(c, g, a, k)
    ensures GrownSince(c, Cairn.Grow(c.cairn, seed, g, now), a, k)
  {
    var n := Cairn.Steps(c.cairn, g.anchor.value, now);
    var layers := Cairn.At(g.slots, k);
    OneLayerAStep(c.cairn, seed, g.slots, g.anchor.value, n, k);
    Cairn.StepTimeAdd(c.cairn, a, layers, n);
    Cairn.StepTimeMono(c.cairn, Cairn.StepTime(c.cairn, a, layers), g.anchor.value, n, n);
    var grown := Cairn.At(Cairn.GrowSteps(c.cairn, seed, g.slots, g.anchor.value, n), k);
    Cairn.StepTimeMono(c.cairn, a, a, grown, layers + n);
  }

  lemma GrownSinceStep(c: Rules, seed: Cairn.Seed, p: Player, r: Request, now: int, a: int, k: nat)
    requires c.Valid() && Ready(c, p, now) && GrownSince(c, p.growth, a, k)
    ensures GrownSince(c, Step(c, seed, p, r, now).0.growth, a, k)
  {
    GrowGrownSince(c, seed, p.growth, now, a, k);
    var grown := Cairn.Grow(c.cairn, seed, p.growth, now);
    Cairn.StepTimeMono(c.cairn, a, a, 0, Cairn.At(grown.slots, k));
  }

  lemma {:induction false} GrownSinceRun(c: Rules, seed: Cairn.Seed, p: Player, start: int, calls: seq<Call>, a: int,
                                         k: nat)
    requires c.Valid() && Ready(c, p, start) && Monotone(start, calls) && GrownSince(c, p.growth, a, k)
    ensures GrownSince(c, Final(c, seed, p, calls).growth, a, k)
  {
    if calls == [] {
    } else {
      GrownSinceRun(c, seed, p, start, Front(calls), a, k);
      ReadyRun(c, seed, p, start, Front(calls));
      GrownSinceStep(c, seed, Final(c, seed, p, Front(calls)), Last(calls).req, Last(calls).now, a, k);
    }
  }

  /** A committed pull leaves its slot empty, with the anchor less than an interval behind. */
  lemma CommitEmptiesTheSlot(c: Rules, seed: Cairn.Seed, p: Player, r: Request, now: int)
    requires c.Valid() && Ready(c, p, now) && r.Pull? && Step(c, seed, p, r, now).1.Pulled?
    ensures var g := Step(c, seed, p, r, now).0.growth;
            && r.slot >= 0 && Cairn.At(g.slots, r.slot) == 0
            && g.anchor.Some? && now < g.anchor.value + c.cairn.interval
  {
    NothingIsBanked(c.cairn, seed, p.growth, now);
  }

  /** And it finds the slot full. */
  lemma CommitFindsTheSlotFull(c: Rules, seed: Cairn.Seed, p: Player, r: Request, now: int)
    requires c.Valid() && r.Pull? && Step(c, seed, p, r, now).1.Pulled?
    ensures r.slot >= 0
            && c.cairn.maxLayers <= Cairn.At(Cairn.Grow(c.cairn, seed, p.growth, now).slots, r.slot)
  {}

  /** A slot with n layers since second a has taken n intervals. */
  lemma LayersTakeIntervals(c: Rules, g: Cairn.Growth, a: int, k: nat, n: nat)
    requires c.Valid() && GrownSince(c, g, a, k) && n <= Cairn.At(g.slots, k)
    ensures a + n * c.cairn.interval <= g.anchor.value
  {
    Cairn.StepTimeMono(c.cairn, a, a, n, Cairn.At(g.slots, k));
    Cairn.StepTimeIs(c.cairn, a, n);
  }

  /** So a pull of a slot that has grown since second a comes maxLayers intervals after a. */
  lemma PullComesAfterGrowth(c: Rules, seed: Cairn.Seed, p: Player, r: Request, now: int, a: int)
    requires c.Valid() && Ready(c, p, now) && r.Pull? && Step(c, seed, p, r, now).1.Pulled?
    requires r.slot >= 0 && GrownSince(c, p.growth, a, r.slot)
    ensures a + c.cairn.maxLayers * c.cairn.interval <= now
  {
    CommitFindsTheSlotFull(c, seed, p, r, now);
    GrowGrownSince(c, seed, p.growth, now, a, r.slot);
    GrowKeepsAnchor(c.cairn, seed, p.growth, now);
    LayersTakeIntervals(c, Cairn.Grow(c.cairn, seed, p.growth, now), a, r.slot, c.cairn.maxLayers);
  }

  /**
   * Main result: two committed pulls of one slot, with any run between them, are more than maxLayers - 1
   * growth intervals apart.
   */
  lemma SlotsTakeTimeToFill(c: Rules, seed: Cairn.Seed, p: Player, first: Request, now: int, calls: seq<Call>,
                            second: Request, later: int)
    requires c.Valid() && Ready(c, p, now) && first.Pull? && Step(c, seed, p, first, now).1.Pulled?
    requires Monotone(now, calls) && Until(now, calls) <= later && second.Pull? && second.slot == first.slot
    requires var u := Final(c, seed, Step(c, seed, p, first, now).0, calls); Step(c, seed, u, second, later).1.Pulled?
    ensures (c.cairn.maxLayers - 1) * c.cairn.interval < later - now
  {
    var q := Step(c, seed, p, first, now).0;
    CommitEmptiesTheSlot(c, seed, p, first, now);
    ReadyStep(c, seed, p, first, now);
    FillsAgain(c, seed, q, now, calls, second, later, q.growth.anchor.value);
    Distributed(c.cairn.maxLayers, c.cairn.interval);
  }

  lemma FillsAgain(c: Rules, seed: Cairn.Seed, q: Player, now: int, calls: seq<Call>, r: Request, later: int, a: int)
    requires c.Valid() && Ready(c, q, now) && Monotone(now, calls) && Until(now, calls) <= later
    requires r.Pull? && r.slot >= 0 && Step(c, seed, Final(c, seed, q, calls), r, later).1.Pulled?
    requires GrownSince(c, q.growth, a, r.slot)
    ensures a + c.cairn.maxLayers * c.cairn.interval <= later
  {
    ReadyRun(c, seed, q, now, calls);
    GrownSinceRun(c, seed, q, now, calls, a, r.slot);
    PullComesAfterGrowth(c, seed, Final(c, seed, q, calls), r, later, a);
  }

  lemma Distributed(n: int, d: int)
    ensures n * d == (n - 1) * d + d
  {}
}
