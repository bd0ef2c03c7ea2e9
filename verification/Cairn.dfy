/**
 * WishCairn growth (internal/cairn/cairn.go).
 *
 * One player's cairn is a growth anchor and a table of slot layers.  Growth is lazy: a request
 * that happens to arrive at `now` credits one layer per whole interval since the anchor, each to
 * an incomplete slot chosen by a hash of the step's own timestamp.
 */
module Cairn {
  import opened Prelude

  /** internal/cairn/cairn.go Config, under the bounds that gameconfig's validate enforces. */
  datatype Config = Config(slotCount: nat, maxLayers: nat, interval: nat) {
    predicate Valid() { slotCount > 0 && maxLayers > 0 && interval > 0 }
  }

  /** cairn_last_growth_at and the wish_cairn_slots rows (slot_index -> layer_count) of a player. */
  datatype Growth = Growth(anchor: Option<int>, slots: map<nat, nat>)

  /** growthSeed for one fixed player: a hash of the step's unix second. */
  type Seed = int -> nat

  /** The layer_count of slot i. */
  function At(slots: map<nat, nat>, i: nat): nat { if i in slots then slots[i] else 0 }

  predicate AllPresent(cfg: Config, slots: map<nat, nat>) { forall i: nat | i < cfg.slotCount :: i in slots }

  /** The table holds no row beyond the configured slots (boot prunes them). */
  predicate InRange(cfg: Config, slots: map<nat, nat>) { forall i | i in slots :: i < cfg.slotCount }

  // ---- One step ----

  /** Slots below n whose layer is still below the cap, ascending. */
  function IncompleteUpTo(cfg: Config, slots: map<nat, nat>, n: nat): (r: seq<nat>)
    ensures forall k: nat | k < |r| :: r[k] < n && At(slots, r[k]) < cfg.maxLayers
  {
    if n == 0 then []
    else IncompleteUpTo(cfg, slots, n - 1) + (if At(slots, n - 1) < cfg.maxLayers then [n - 1] else [])
  }

  function Incomplete(cfg: Config, slots: map<nat, nat>): seq<nat> { IncompleteUpTo(cfg, slots, cfg.slotCount) }

  /** The growth step stamped `at`: one incomplete slot gains a layer, or nothing when all are complete. */
  function GrowOne(cfg: Config, seed: Seed, slots: map<nat, nat>, at: int): map<nat, nat>
  {
    var open := Incomplete(cfg, slots);
    if open == [] then slots
    else
      var p := open[Pick(seed(at), |open|)];
      slots[p := At(slots, p) + 1]
  }

  /** Timestamp of the i-th step after an anchor: anchor + i * interval (StepTimeIs). */
  function StepTime(cfg: Config, anchor: int, i: nat): int
  {
    if i == 0 then anchor else StepTime(cfg, anchor, i - 1) + cfg.interval
  }

  lemma StepTimeIs(cfg: Config, anchor: int, i: nat)
    ensures StepTime(cfg, anchor, i) == anchor + i * cfg.interval
  {
    if i == 0 {
    } else {
      StepTimeIs(cfg, anchor, i - 1);
      assert i * cfg.interval == (i - 1) * cfg.interval + cfg.interval;
    }
  }

  lemma StepTimeAdd(cfg: Config, anchor: int, m: nat, n: nat)
    ensures StepTime(cfg, StepTime(cfg, anchor, m), n) == StepTime(cfg, anchor, m + n)
  {
    if n == 0 {
    } else {
      StepTimeAdd(cfg, anchor, m, n - 1);
    }
  }

  /** n steps of any kind, the i-th one given the i-th step time. */
  function IterateAt<T>(cfg: Config, step: (T, int) -> T, x: T, anchor: int, n: nat): T
  {
    if n == 0 then x else step(IterateAt(cfg, step, x, anchor, n - 1), StepTime(cfg, anchor, n))
  }

  lemma {:induction false} IterateCompose<T>(cfg: Config, step: (T, int) -> T, x: T, anchor: int, m: nat, n: nat)
    ensures IterateAt(cfg, step, IterateAt(cfg, step, x, anchor, m), StepTime(cfg, anchor, m), n)
         == IterateAt(cfg, step, x, anchor, m + n)
  {
    if n == 0 {
    } else {
      IterateCompose(cfg, step, x, anchor, m, n - 1);
      StepTimeAdd(cfg, anchor, m, n);
    }
  }

  lemma {:induction false} IterateFixed<T>(cfg: Config, step: (T, int) -> T, x: T, anchor: int, m: nat, n: nat)
    requires m <= n && forall t :: step(IterateAt(cfg, step, x, anchor, m), t) == IterateAt(cfg, step, x, anchor, m)
    ensures IterateAt(cfg, step, x, anchor, n) == IterateAt(cfg, step, x, anchor, m)
  {
    if n == m {
    } else {
      IterateFixed(cfg, step, x, anchor, m, n - 1);
    }
  }

  function Stepper(cfg: Config, seed: Seed): (map<nat, nat>, int) -> map<nat, nat>
  {
    (s, t) => GrowOne(cfg, seed, s, t)
  }

  /** The slots after n growth steps. */
  function GrowSteps(cfg: Config, seed: Seed, slots: map<nat, nat>, anchor: int, n: nat): map<nat, nat>
  {
    IterateAt(cfg, Stepper(cfg, seed), slots, anchor, n)
  }

  lemma {:induction false} GrowStepsKeys(cfg: Config, seed: Seed, slots: map<nat, nat>, anchor: int, n: nat)
    requires AllPresent(cfg, slots)
    ensures GrowSteps(cfg, seed, slots, anchor, n).Keys == slots.Keys
  {
    if n == 0 {
    } else {
      GrowStepsKeys(cfg, seed, slots, anchor, n - 1);
    }
  }

  // ---- A whole call ----

  /** Whole intervals elapsed (StepsIsQuotient); a clock at or behind the anchor gives none. */
  function Steps(cfg: Config, anchor: int, now: int): nat
    requires cfg.Valid()
    decreases now - anchor
  {
    if now - anchor < cfg.interval then 0 else 1 + Steps(cfg, anchor + cfg.interval, now)
  }

  /** Effect of ApplyGrowth on the player's cairn. */
  function Grow(cfg: Config, seed: Seed, g: Growth, now: int): (r: Growth)
    requires cfg.Valid()
    ensures r.slots.Keys == g.slots.Keys && r.anchor.Some?
  {
    match g.anchor
    case None => Growth(Some(now), g.slots)
    case Some(anchor) =>
      var n := Steps(cfg, anchor, now);
      if n == 0 || !AllPresent(cfg, g.slots) then g
      else
        GrowStepsKeys(cfg, seed, g.slots, anchor, n);
        After(cfg, seed, g.slots, anchor, n)
  }

  /** The cairn n steps after anchor a. */
  function After(cfg: Config, seed: Seed, slots: map<nat, nat>, a: int, n: nat): Growth
  {
    Growth(Some(StepTime(cfg, a, n)), GrowSteps(cfg, seed, slots, a, n))
  }

  // ---- Growth does not depend on when it is asked for ----

  lemma StepTimeShift(cfg: Config, anchor: int, k: nat)
    ensures StepTime(cfg, anchor + cfg.interval, k) == StepTime(cfg, anchor, k) + cfg.interval
  {
    if k == 0 {
    } else {
      StepTimeShift(cfg, anchor, k - 1);
    }
  }

  /** The steps that count are those stamped no later than now. */
  lemma {:induction false} StepsBounds(cfg: Config, anchor: int, now: int)
    requires cfg.Valid() && now >= anchor
    ensures StepTime(cfg, anchor, Steps(cfg, anchor, now)) <= now < StepTime(cfg, anchor, Steps(cfg, anchor, now))
            + cfg.interval
    decreases now - anchor
  {
    if now - anchor < cfg.interval {
    } else {
      StepsBounds(cfg, anchor + cfg.interval, now);
      StepTimeShift(cfg, anchor, Steps(cfg, anchor + cfg.interval, now));
    }
  }

  lemma {:induction false} StepsUnique(cfg: Config, anchor: int, now: int, k: nat)
    requires cfg.Valid() && StepTime(cfg, anchor, k) <= now < StepTime(cfg, anchor, k) + cfg.interval
    ensures Steps(cfg, anchor, now) == k
    decreases k
  {
    if k == 0 {
    } else {
      StepTimeShift(cfg, anchor, k - 1);
      StepsUnique(cfg, anchor + cfg.interval, now, k - 1);
    }
  }

  lemma {:induction false} StepTimeMono(cfg: Config, a: int, b: int, m: nat, n: nat)
    requires a <= b && m <= n
    ensures StepTime(cfg, a, m) <= StepTime(cfg, b, n)
    decreases m + n
  {
    if n == 0 {
    } else if m < n {
      StepTimeMono(cfg, a, b, m, n - 1);
    } else {
      StepTimeMono(cfg, a, b, m - 1, n - 1);
    }
  }

  lemma StepsIsQuotient(cfg: Config, anchor: int, now: int)
    requires cfg.Valid() && now >= anchor
    ensures Steps(cfg, anchor, now) == (now - anchor) / cfg.interval
  {
    var k := Steps(cfg, anchor, now);
    StepsBounds(cfg, anchor, now);
    StepTimeIs(cfg, anchor, k);
    DivUnique(now - anchor, cfg.interval, k);
  }

  /** A clock within the step begun at the k-th step time owes nothing more. */
  lemma NothingOwed(cfg: Config, anchor: int, now: int, k: nat)
    requires cfg.Valid() && now < StepTime(cfg, anchor, k) + cfg.interval
    ensures Steps(cfg, StepTime(cfg, anchor, k), now) == 0
  {
    var a := StepTime(cfg, anchor, k);
    if now >= a { StepsUnique(cfg, a, now, 0); }
  }

  /** The steps to a clock past the k-th step time are k and those from there. */
  lemma StepsFrom(cfg: Config, anchor: int, now: int, k: nat)
    requires cfg.Valid() && StepTime(cfg, anchor, k) <= now
    ensures k + Steps(cfg, StepTime(cfg, anchor, k), now) == Steps(cfg, anchor, now)
  {
    var a := StepTime(cfg, anchor, k);
    var j := Steps(cfg, a, now);
    StepsBounds(cfg, a, now);
    StepTimeAdd(cfg, anchor, k, j);
    StepsUnique(cfg, anchor, now, k + j);
  }

  /** Asking at t1 leaves exactly the steps that asking at the later of the two would still owe. */
  lemma StepsSplit(cfg: Config, anchor: int, t1: int, t2: int)
    requires cfg.Valid()
    ensures var k := Steps(cfg, anchor, t1);
            k + Steps(cfg, StepTime(cfg, anchor, k), t2) == Steps(cfg, anchor, Max(t1, t2))
  {
    var k := Steps(cfg, anchor, t1);
    if t1 >= anchor { StepsBounds(cfg, anchor, t1); }
    if t2 < t1 {
      if t1 >= anchor { NothingOwed(cfg, anchor, t2, k); }
    } else if t2 >= StepTime(cfg, anchor, k) {
      StepsFrom(cfg, anchor, t2, k);
    }
  }

  lemma AfterAfter(cfg: Config, seed: Seed, slots: map<nat, nat>, a: int, m: nat, n: nat)
    ensures After(cfg, seed, GrowSteps(cfg, seed, slots, a, m), StepTime(cfg, a, m), n)
            == After(cfg, seed, slots, a, m + n)
  {
    IterateCompose(cfg, Stepper(cfg, seed), slots, a, m, n);
    StepTimeAdd(cfg, a, m, n);
  }

  /** Two calls, in either order of their clocks, leave what one call at the later clock leaves. */
  lemma GrowTwice(cfg: Config, seed: Seed, g: Growth, t1: int, t2: int)
    requires cfg.Valid() && g.anchor.Some?
    ensures Grow(cfg, seed, Grow(cfg, seed, g, t1), t2) == Grow(cfg, seed, g, Max(t1, t2))
  {
    if AllPresent(cfg, g.slots) {
      var a := g.anchor.value;
      var k1 := Steps(cfg, a, t1);
      StepsSplit(cfg, a, t1, t2);
      AfterAfter(cfg, seed, g.slots, a, k1, Steps(cfg, StepTime(cfg, a, k1), t2));
    }
  }

  function GrowAll(cfg: Config, seed: Seed, g: Growth, ts: seq<int>): Growth
    requires cfg.Valid()
    decreases |ts|
  {
    if ts == [] then g else GrowAll(cfg, seed, Grow(cfg, seed, g, ts[0]), ts[1..])
  }

  /** Any schedule of calls, even out of order, leaves what one call at the latest clock leaves. */
  lemma {:induction false} GrowthIsScheduleIndependent(cfg: Config, seed: Seed, g: Growth, ts: seq<int>)
    requires cfg.Valid() && g.anchor.Some? && ts != []
    ensures GrowAll(cfg, seed, g, ts) == Grow(cfg, seed, g, MaxOf(ts))
    decreases |ts|
  {
    var g1 := Grow(cfg, seed, g, ts[0]);
    if |ts| > 1 {
      GrowthIsScheduleIndependent(cfg, seed, g1, ts[1..]);
      GrowTwice(cfg, seed, g, ts[0], MaxOf(ts[1..]));
    } else {
      assert ts[1..] == [];
    }
  }

  // ---- What a call credits ----

  function SumUpTo(slots: map<nat, nat>, n: nat): nat
  {
    if n == 0 then 0 else SumUpTo(slots, n - 1) + At(slots, n - 1)
  }

  /** All the player's layers. */
  function LayerSum(cfg: Config, slots: map<nat, nat>): nat { SumUpTo(slots, cfg.slotCount) }

  function RoomUpTo(cfg: Config, slots: map<nat, nat>, n: nat): nat
  {
    if n == 0 then 0 else RoomUpTo(cfg, slots, n - 1) + Max(0, cfg.maxLayers - At(slots, n - 1))
  }

  /** Layers that still fit under the cap. */
  function Capacity(cfg: Config, slots: map<nat, nat>): nat { RoomUpTo(cfg, slots, cfg.slotCount) }

  predicate Capped(cfg: Config, slots: map<nat, nat>) { forall i | i in slots :: slots[i] <= cfg.maxLayers }

  lemma {:induction false} UpdateSums(cfg: Config, slots: map<nat, nat>, p: nat, v: nat, n: nat)
    ensures SumUpTo(slots[p := v], n) == SumUpTo(slots, n) + (if p < n then v - At(slots, p) else 0)
    ensures RoomUpTo(cfg, slots[p := v], n)
         == RoomUpTo(cfg, slots, n)
            + (if p < n then Max(0, cfg.maxLayers - v) - Max(0, cfg.maxLayers - At(slots, p)) else 0)
  {
    if n == 0 {
    } else {
      UpdateSums(cfg, slots, p, v, n - 1);
    }
  }

  lemma {:induction false} CapacityZero(cfg: Config, slots: map<nat, nat>, n: nat)
    ensures RoomUpTo(cfg, slots, n) == 0 <==> IncompleteUpTo(cfg, slots, n) == []
  {
    if n == 0 {
    } else {
      CapacityZero(cfg, slots, n - 1);
    }
  }

  /** One step either finds every slot complete or adds one layer below the cap. */
  lemma GrowOneAt(cfg: Config, seed: Seed, slots: map<nat, nat>, at: int)
    ensures var r := GrowOne(cfg, seed, slots, at);
            && LayerSum(cfg, r) == LayerSum(cfg, slots) + Min(1, Capacity(cfg, slots))
            && Capacity(cfg, r) == Capacity(cfg, slots) - Min(1, Capacity(cfg, slots))
            && (Capped(cfg, slots) ==> Capped(cfg, r))
  {
    CapacityZero(cfg, slots, cfg.slotCount);
    var open := Incomplete(cfg, slots);
    if open != [] {
      var p := open[Pick(seed(at), |open|)];
      UpdateSums(cfg, slots, p, At(slots, p) + 1, cfg.slotCount);
    }
  }

  /** n steps credit exactly min(n, remaining capacity) layers and never pass the cap. */
  lemma {:induction false} GrowStepsCredit(cfg: Config, seed: Seed, slots: map<nat, nat>, anchor: int, n: nat)
    ensures var r := GrowSteps(cfg, seed, slots, anchor, n);
            && LayerSum(cfg, r) == LayerSum(cfg, slots) + Min(n, Capacity(cfg, slots))
            && Capacity(cfg, r) == Capacity(cfg, slots) - Min(n, Capacity(cfg, slots))
            && (Capped(cfg, slots) ==> Capped(cfg, r))
  {
    if n == 0 {
    } else {
      GrowStepsCredit(cfg, seed, slots, anchor, n - 1);
      GrowOneAt(cfg, seed, GrowSteps(cfg, seed, slots, anchor, n - 1), StepTime(cfg, anchor, n));
    }
  }

  /** Growth takes no layer away from any slot. */
  lemma {:induction false} GrowStepsMonotone(cfg: Config, seed: Seed, slots: map<nat, nat>, anchor: int, n: nat, i: nat)
    ensures At(GrowSteps(cfg, seed, slots, anchor, n), i) >= At(slots, i)
  {
    if n == 0 {
    } else {
      GrowStepsMonotone(cfg, seed, slots, anchor, n - 1, i);
    }
  }

  /** Once every slot is complete further steps change nothing: the loop's early exit is sound. */
  lemma Saturated(cfg: Config, seed: Seed, slots: map<nat, nat>, anchor: int, m: nat, n: nat, full: map<nat, nat>)
    requires m <= n && full == GrowSteps(cfg, seed, slots, anchor, m) && Incomplete(cfg, full) == []
    ensures full == GrowSteps(cfg, seed, slots, anchor, n)
  {
    IterateFixed(cfg, Stepper(cfg, seed), slots, anchor, m, n);
  }

  // ---- The loop of ApplyGrowth ----

  /** The table with applied[j] layers added to slot j. */
  function Plus(slots: map<nat, nat>, applied: seq<nat>): (r: map<nat, nat>)
    ensures r.Keys == slots.Keys
    ensures forall i | i in slots && i < |applied| :: r[i] == slots[i] + applied[i]
    ensures forall i | i in slots && i >= |applied| :: r[i] == slots[i]
  {
    map i | i in slots :: slots[i] + (if i < |applied| then applied[i] else 0)
  }

  lemma GrowStepsNext(cfg: Config, seed: Seed, slots: map<nat, nat>, anchor: int, i: nat)
    requires i > 0
    ensures GrowSteps(cfg, seed, slots, anchor, i)
         == GrowOne(cfg, seed, GrowSteps(cfg, seed, slots, anchor, i - 1), StepTime(cfg, anchor, i))
  {}

  lemma GrowOnePick(cfg: Config, seed: Seed, cur: map<nat, nat>, at: int, open: seq<nat>)
    requires open == Incomplete(cfg, cur) && open != []
    ensures var p := open[Pick(seed(at), |open|)];
            GrowOne(cfg, seed, cur, at) == cur[p := At(cur, p) + 1]
  {}

  /** The inner loop: the slots that the layers gained so far leave incomplete. */
  method OpenSlots(cfg: Config, slots: map<nat, nat>, applied: seq<nat>) returns (open: seq<nat>)
    requires AllPresent(cfg, slots) && |applied| == cfg.slotCount
    ensures open == Incomplete(cfg, Plus(slots, applied))
  {
    open := [];
    for j := 0 to cfg.slotCount
      invariant open == IncompleteUpTo(cfg, Plus(slots, applied), j)
    {
      if slots[j] + applied[j] < cfg.maxLayers {
        open := open + [j];
      }
    }
  }

  /** One pass of the loop: pick a slot for the step stamped `at`, or report that none is left. */
  method PassOnce(cfg: Config, seed: Seed, slots: map<nat, nat>, at: int, applied: seq<nat>)
    returns (next: seq<nat>, full: bool)
    requires AllPresent(cfg, slots) && |applied| == cfg.slotCount
    ensures |next| == cfg.slotCount
    ensures full <==> Incomplete(cfg, Plus(slots, applied)) == []
    ensures Plus(slots, next) == GrowOne(cfg, seed, Plus(slots, applied), at)
  {
    var incomplete := OpenSlots(cfg, slots, applied);
    if incomplete == [] {
      return applied, true;
    }
    PickIsMod(seed(at), |incomplete|);
    var pos := incomplete[seed(at) % |incomplete|];
    GrowOnePick(cfg, seed, Plus(slots, applied), at, incomplete);
    return applied[pos := applied[pos] + 1], false;
  }

  /** The distribution loop: how many layers each loaded slot gains over `steps` steps. */
  method Distribute(cfg: Config, seed: Seed, slots: map<nat, nat>, anchor: int, steps: nat) returns (applied: seq<nat>)
    requires AllPresent(cfg, slots)
    ensures |applied| == cfg.slotCount
    ensures Plus(slots, applied) == GrowSteps(cfg, seed, slots, anchor, steps)
  {
    applied := seq(cfg.slotCount, _ => 0);
    var i := 1;
    while i <= steps
      invariant 1 <= i <= steps + 1
      invariant |applied| == cfg.slotCount
      invariant Plus(slots, applied) == GrowSteps(cfg, seed, slots, anchor, i - 1)
    {
      var next, full := PassOnce(cfg, seed, slots, StepTime(cfg, anchor, i), applied);
      if full {
        Saturated(cfg, seed, slots, anchor, i - 1, steps, Plus(slots, applied));
        break;
      }
      GrowStepsNext(cfg, seed, slots, anchor, i);
      applied, i := next, i + 1;
    }
  }
}
