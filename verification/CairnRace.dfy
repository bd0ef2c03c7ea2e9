/**
 * Concurrent growth (ApplyGrowth, internal/cairn/cairn.go lines 166-291), one SQL statement a step.
 *
 * Any number of calls run against one player row, none of them holding a transaction, while the
 * clock advances and logins re-anchor the row.  A run is any sequence of actions; an action whose
 * guard fails leaves the state alone, so every interleaving is a run.
 */
module CairnRace {
  import opened Prelude
  import opened Cairn

  /** Where one call of ApplyGrowth stands. */
  datatype Call =
    | Waiting
    | Began(now: int)
    | HasAnchor(now: int, raw: int)
    | HasSlots(now: int, raw: int, seen: map<nat, nat>)
    | Writing(applied: seq<nat>, next: nat)
    | Finished

  /** A stretch of time whose growth a compare-and-swap winner has taken. */
  datatype Window = Window(from: int, to: int)

  datatype State = State(clock: int, anchor: int, slots: map<nat, nat>, calls: seq<Call>,
                         claims: seq<Window>, credited: nat)

  datatype Action =
    | Tick(t: int)
    | Relogin
    | Begin(i: nat)
    | ReadAnchor(i: nat)
    | LoadSlots(i: nat)
    | SwapAnchor(i: nat)
    | Increment(i: nat)

  /** What a call that saw `seen` at anchor raw adds to each slot. */
  function Gain(cfg: Config, seed: Seed, seen: map<nat, nat>, raw: int, n: nat): (r: seq<nat>)
    ensures |r| == cfg.slotCount
  {
    seq(cfg.slotCount, j requires 0 <= j < cfg.slotCount =>
      Max(0, At(GrowSteps(cfg, seed, seen, raw, n), j) - At(seen, j)))
  }

  function SumSeq(xs: seq<nat>): nat { if xs == [] then 0 else SumSeq(xs[..|xs| - 1]) + xs[|xs| - 1] }

  /** One statement of one call, a clock tick, or a login. */
  function Apply(cfg: Config, seed: Seed, s: State, a: Action): State
    requires cfg.Valid()
  {
    match a
    case Tick(t) => if t > s.clock then s.(clock := t) else s
    case Relogin => s.(anchor := s.clock)
    case Begin(i) =>
      if i < |s.calls| && s.calls[i].Waiting? then s.(calls := s.calls[i := Began(s.clock)]) else s
    case ReadAnchor(i) =>
      if i < |s.calls| && s.calls[i].Began? then
        var now := s.calls[i].now;
        s.(calls := s.calls[i := if Steps(cfg, s.anchor, now) == 0 then Finished else HasAnchor(now, s.anchor)])
      else s
    case LoadSlots(i) =>
      if i < |s.calls| && s.calls[i].HasAnchor? then
        s.(calls := s.calls[i := if AllPresent(cfg, s.slots) then HasSlots(s.calls[i].now, s.calls[i].raw, s.slots)
                                 else Finished])
      else s
    case SwapAnchor(i) =>
      if i < |s.calls| && s.calls[i].HasSlots? then
        var c := s.calls[i];
        if s.anchor != c.raw then s.(calls := s.calls[i := Finished])
        else
          var n := Steps(cfg, c.raw, c.now);
          var gain := Gain(cfg, seed, c.seen, c.raw, n);
          var to := StepTime(cfg, c.raw, n);
          s.(anchor := to, calls := s.calls[i := Writing(gain, 0)],
             claims := s.claims + [Window(c.raw, to)], credited := s.credited + SumSeq(gain))
      else s
    case Increment(i) =>
      if i < |s.calls| && s.calls[i].Writing? then
        var c := s.calls[i];
        if c.next < |c.applied| then
          s.(slots := if c.next in s.slots then s.slots[c.next := s.slots[c.next] + c.applied[c.next]] else s.slots,
             calls := s.calls[i := Writing(c.applied, c.next + 1)])
        else s.(calls := s.calls[i := Finished])
      else s
  }

  function Run(cfg: Config, seed: Seed, s: State, acts: seq<Action>): State
    requires cfg.Valid()
  {
    if acts == [] then s else Apply(cfg, seed, Run(cfg, seed, s, acts[..|acts| - 1]), acts[|acts| - 1])
  }

  /** Any number of calls yet to begin, on a complete table whose anchor the clock has reached. */
  predicate Initial(cfg: Config, s: State)
  {
    && s.anchor <= s.clock && AllPresent(cfg, s.slots) && InRange(cfg, s.slots)
    && (forall i | 0 <= i < |s.calls| :: s.calls[i].Waiting?)
    && s.claims == [] && s.credited == 0
  }

  // ---- No window is credited twice ----

  predicate Disjoint(a: Window, b: Window) { a.to <= b.from || b.to <= a.from }

  predicate CallOk(cfg: Config, s: State, c: Call)
    requires cfg.Valid()
  {
    match c
    case Began(now) => now <= s.clock
    case HasAnchor(now, raw) => now <= s.clock && Steps(cfg, raw, now) > 0
    case HasSlots(now, raw, seen) => now <= s.clock && Steps(cfg, raw, now) > 0 && AllPresent(cfg, seen)
    case Writing(applied, next) => |applied| == cfg.slotCount && next <= |applied|
    case _ => true
  }

  predicate ClaimsOk(s: State)
  {
    && s.anchor <= s.clock
    && (forall k | 0 <= k < |s.claims| :: s.claims[k].from < s.claims[k].to <= s.anchor)
    && (forall j, k | 0 <= j < k < |s.claims| :: s.claims[j].to <= s.claims[k].from)
  }

  predicate Inv(cfg: Config, s: State)
    requires cfg.Valid()
  {
    ClaimsOk(s) && forall i | 0 <= i < |s.calls| :: CallOk(cfg, s, s.calls[i])
  }

  lemma WindowIsProper(cfg: Config, raw: int, now: int)
    requires cfg.Valid() && Steps(cfg, raw, now) > 0
    ensures raw < StepTime(cfg, raw, Steps(cfg, raw, now)) <= now
  {
    StepsBounds(cfg, raw, now);
  }

  lemma InvStep(cfg: Config, seed: Seed, s: State, a: Action)
    requires cfg.Valid() && Inv(cfg, s)
    ensures Inv(cfg, Apply(cfg, seed, s, a))
  {
    var r := Apply(cfg, seed, s, a);
    if a.SwapAnchor? && a.i < |s.calls| && s.calls[a.i].HasSlots? && s.anchor == s.calls[a.i].raw {
      WindowIsProper(cfg, s.calls[a.i].raw, s.calls[a.i].now);
    }
    assert ClaimsOk(r);
    forall i | 0 <= i < |r.calls| ensures CallOk(cfg, r, r.calls[i]) {
      assert CallOk(cfg, s, s.calls[i]);
    }
  }

  lemma {:induction false} InvRun(cfg: Config, seed: Seed, s: State, acts: seq<Action>)
    requires cfg.Valid() && Initial(cfg, s)
    ensures Inv(cfg, Run(cfg, seed, s, acts))
  {
    if acts == [] {
    } else {
      InvRun(cfg, seed, s, acts[..|acts| - 1]);
      InvStep(cfg, seed, Run(cfg, seed, s, acts[..|acts| - 1]), acts[|acts| - 1]);
    }
  }

  /** Over every interleaving, with logins anywhere, two winners never take overlapping windows. */
  lemma NoWindowCreditedTwice(cfg: Config, seed: Seed, s: State, acts: seq<Action>, j: nat, k: nat)
    requires cfg.Valid() && Initial(cfg, s)
    requires j < |Run(cfg, seed, s, acts).claims| && k < |Run(cfg, seed, s, acts).claims| && j != k
    ensures var claims := Run(cfg, seed, s, acts).claims;
            claims[j].from < claims[j].to && Disjoint(claims[j], claims[k])
  {
    InvRun(cfg, seed, s, acts);
  }

  // ---- Layers written stay within the anchor's advance ----

  /** Layers a call has won and not yet written. */
  function Pending(c: Call): nat
  {
    if c.Writing? && c.next <= |c.applied| then SumSeq(c.applied[c.next..]) else 0
  }

  function PendingAll(calls: seq<Call>): nat
  {
    if calls == [] then 0 else PendingAll(calls[..|calls| - 1]) + Pending(calls[|calls| - 1])
  }

  lemma {:induction false} PendingUpdate(calls: seq<Call>, i: nat, c: Call)
    requires i < |calls|
    ensures PendingAll(calls[i := c]) == PendingAll(calls) - Pending(calls[i]) + Pending(c)
  {
    var n := |calls| - 1;
    if i == n {
      assert calls[i := c][..n] == calls[..n];
    } else {
      PendingUpdate(calls[..n], i, c);
      assert calls[i := c][..n] == calls[..n][i := c];
    }
  }

  lemma {:induction false} SumSplit(xs: seq<nat>, ys: seq<nat>)
    ensures SumSeq(xs + ys) == SumSeq(xs) + SumSeq(ys)
  {
    if ys == [] {
      assert xs + ys == xs;
    } else {
      var n := |ys| - 1;
      assert (xs + ys)[..|xs + ys| - 1] == xs + ys[..n];
      SumSplit(xs, ys[..n]);
    }
  }

  lemma SumHead(xs: seq<nat>, k: nat)
    requires k < |xs|
    ensures SumSeq(xs[k..]) == xs[k] + SumSeq(xs[k + 1..])
  {
    assert xs[k..] == [xs[k]] + xs[k + 1..];
    assert [xs[k]][..0] == [];
    SumSplit([xs[k]], xs[k + 1..]);
  }

  /** A winner's gains add up to no more than the steps of its window. */
  lemma GainBound(cfg: Config, seed: Seed, seen: map<nat, nat>, raw: int, n: nat)
    ensures SumSeq(Gain(cfg, seed, seen, raw, n)) <= n
  {
    GainIsDifference(cfg, seed, seen, raw, n, cfg.slotCount);
    GrowStepsCredit(cfg, seed, seen, raw, n);
    var g := Gain(cfg, seed, seen, raw, n);
    assert g[..cfg.slotCount] == g;
  }

  lemma {:induction false} GainIsDifference(cfg: Config, seed: Seed, seen: map<nat, nat>, raw: int, n: nat, k: nat)
    requires k <= cfg.slotCount
    ensures SumSeq(Gain(cfg, seed, seen, raw, n)[..k])
         == SumUpTo(GrowSteps(cfg, seed, seen, raw, n), k) - SumUpTo(seen, k)
  {
    if k == 0 {
    } else {
      var g := Gain(cfg, seed, seen, raw, n);
      GainIsDifference(cfg, seed, seen, raw, n, k - 1);
      GrowStepsMonotone(cfg, seed, seen, raw, n, k - 1);
      assert g[..k][..k - 1] == g[..k - 1];
    }
  }

  /** Every layer in the table or still to be written was there at the start or paid for by time. */
  predicate Books(cfg: Config, s: State, start: int, base: nat)
  {
    && AllPresent(cfg, s.slots)
    && LayerSum(cfg, s.slots) + PendingAll(s.calls) == base + s.credited
    && StepTime(cfg, start, s.credited) <= s.anchor
  }

  lemma BooksSwap(cfg: Config, seed: Seed, s: State, i: nat, start: int, base: nat)
    requires cfg.Valid() && Inv(cfg, s) && Books(cfg, s, start, base)
    ensures Books(cfg, Apply(cfg, seed, s, SwapAnchor(i)), start, base)
  {
    if i < |s.calls| && s.calls[i].HasSlots? {
      var c := s.calls[i];
      PendingUpdate(s.calls, i, Finished);
      if s.anchor == c.raw {
        var n := Steps(cfg, c.raw, c.now);
        var gain := Gain(cfg, seed, c.seen, c.raw, n);
        PendingUpdate(s.calls, i, Writing(gain, 0));
        assert gain[0..] == gain;
        GainBound(cfg, seed, c.seen, c.raw, n);
        StepTimeAdd(cfg, start, s.credited, SumSeq(gain));
        StepTimeMono(cfg, StepTime(cfg, start, s.credited), c.raw, SumSeq(gain), n);
      }
    }
  }

  lemma WriteOne(cfg: Config, slots: map<nat, nat>, j: nat, v: nat)
    requires j < cfg.slotCount && AllPresent(cfg, slots)
    ensures var r := slots[j := slots[j] + v]; AllPresent(cfg, r) && LayerSum(cfg, r) == LayerSum(cfg, slots) + v
  {
    UpdateSums(cfg, slots, j, slots[j] + v, cfg.slotCount);
  }

  lemma PendingNext(c: Call)
    requires c.Writing? && c.next < |c.applied|
    ensures Pending(c) == c.applied[c.next] + Pending(Writing(c.applied, c.next + 1))
  {
    SumHead(c.applied, c.next);
  }

  lemma BooksIncrement(cfg: Config, seed: Seed, s: State, i: nat, start: int, base: nat)
    requires cfg.Valid() && Books(cfg, s, start, base)
    requires i < |s.calls| && s.calls[i].Writing? && CallOk(cfg, s, s.calls[i])
    ensures Books(cfg, Apply(cfg, seed, s, Increment(i)), start, base)
  {
    var c := s.calls[i];
    if c.next < |c.applied| {
      PendingNext(c);
      PendingUpdate(s.calls, i, Writing(c.applied, c.next + 1));
      WriteOne(cfg, s.slots, c.next, c.applied[c.next]);
    } else {
      PendingUpdate(s.calls, i, Finished);
    }
  }

  lemma BooksStep(cfg: Config, seed: Seed, s: State, a: Action, start: int, base: nat)
    requires cfg.Valid() && Inv(cfg, s) && Books(cfg, s, start, base)
    ensures Books(cfg, Apply(cfg, seed, s, a), start, base)
  {
    match a
    case Tick(t) =>
    case Relogin =>
    case Begin(i) => if i < |s.calls| && s.calls[i].Waiting? { PendingUpdate(s.calls, i, Began(s.clock)); }
    case ReadAnchor(i) =>
      if i < |s.calls| && s.calls[i].Began? {
        PendingUpdate(s.calls, i, Finished);
        PendingUpdate(s.calls, i, HasAnchor(s.calls[i].now, s.anchor));
      }
    case LoadSlots(i) =>
      if i < |s.calls| && s.calls[i].HasAnchor? {
        PendingUpdate(s.calls, i, HasSlots(s.calls[i].now, s.calls[i].raw, s.slots));
      }
    case SwapAnchor(i) => BooksSwap(cfg, seed, s, i, start, base);
    case Increment(i) =>
      if i < |s.calls| && s.calls[i].Writing? { BooksIncrement(cfg, seed, s, i, start, base); }
  }

  lemma {:induction false} NothingPending(calls: seq<Call>)
    requires forall i | 0 <= i < |calls| :: calls[i].Waiting?
    ensures PendingAll(calls) == 0
  {
    if calls == [] {
    } else {
      NothingPending(calls[..|calls| - 1]);
    }
  }

  /**
   * Even without transactions the layers ever written, plus those won and still unwritten, are the
   * initial ones plus `credited`, and `credited` whole intervals fit into the anchor's advance.
   */
  lemma {:induction false} CreditFitsElapsedTime(cfg: Config, seed: Seed, s: State, acts: seq<Action>)
    requires cfg.Valid() && Initial(cfg, s)
    ensures var r := Run(cfg, seed, s, acts);
            && LayerSum(cfg, r.slots) + PendingAll(r.calls) == LayerSum(cfg, s.slots) + r.credited
            && s.anchor + r.credited * cfg.interval <= r.anchor
    ensures Books(cfg, Run(cfg, seed, s, acts), s.anchor, LayerSum(cfg, s.slots))
  {
    if acts == [] {
      NothingPending(s.calls);
    } else {
      var prev := acts[..|acts| - 1];
      CreditFitsElapsedTime(cfg, seed, s, prev);
      InvRun(cfg, seed, s, prev);
      BooksStep(cfg, seed, Run(cfg, seed, s, prev), acts[|acts| - 1], s.anchor, LayerSum(cfg, s.slots));
    }
    StepTimeIs(cfg, s.anchor, Run(cfg, seed, s, acts).credited);
  }

  // ---- Why the callers hold a transaction ----

  /** Extends a run that has reached r by one action. */
  lemma Extend(cfg: Config, seed: Seed, s: State, acts: seq<Action>, r: State, a: Action)
    returns (longer: seq<Action>, next: State)
    requires cfg.Valid() && Run(cfg, seed, s, acts) == r
    ensures Run(cfg, seed, s, longer) == next == Apply(cfg, seed, r, a)
  {
    longer, next := acts + [a], Apply(cfg, seed, r, a);
    assert longer[..|acts|] == acts;
  }

  // ---- A call alone ----

  /** The slots once the first k of them have been written. */
  predicate WrittenUpTo(slots: map<nat, nat>, was: map<nat, nat>, gain: seq<nat>, k: nat)
    requires k <= |gain|
  {
    && slots.Keys == was.Keys
    && forall j | j in was :: slots[j] == was[j] + (if j < k then gain[j] else 0)
  }

  /** The increments of a winner, one slot at a time. */
  lemma {:induction false} WritesThrough(cfg: Config, seed: Seed, s: State, acts: seq<Action>, r: State, i: nat,
                                         was: map<nat, nat>)
    returns (longer: seq<Action>, next: State)
    requires cfg.Valid() && Run(cfg, seed, s, acts) == r && i < |r.calls| && r.calls[i].Writing?
    requires r.calls[i].next <= |r.calls[i].applied|
    requires WrittenUpTo(r.slots, was, r.calls[i].applied, r.calls[i].next)
    ensures Run(cfg, seed, s, longer) == next && next.anchor == r.anchor && next.calls == r.calls[i := Finished]
    ensures WrittenUpTo(next.slots, was, r.calls[i].applied, |r.calls[i].applied|)
    decreases |r.calls[i].applied| - r.calls[i].next
  {
    longer, next := Extend(cfg, seed, s, acts, r, Increment(i));
    if r.calls[i].next == |r.calls[i].applied| {
    } else {
      longer, next := WritesThrough(cfg, seed, s, longer, next, i, was);
    }
  }

  /** Adding the gains is growing. */
  lemma GainsAreGrowth(cfg: Config, seed: Seed, slots: map<nat, nat>, raw: int, n: nat, grown: map<nat, nat>)
    requires AllPresent(cfg, slots) && InRange(cfg, slots)
    requires WrittenUpTo(grown, slots, Gain(cfg, seed, slots, raw, n), cfg.slotCount)
    ensures grown == GrowSteps(cfg, seed, slots, raw, n)
  {
    GrowStepsKeys(cfg, seed, slots, raw, n);
    forall j | j in slots ensures grown[j] == GrowSteps(cfg, seed, slots, raw, n)[j] {
      GrowStepsMonotone(cfg, seed, slots, raw, n, j);
    }
  }

  /** Up to the compare-and-swap, when there is something to credit. */
  lemma CallWins(cfg: Config, seed: Seed, s: State, i: nat) returns (acts: seq<Action>, r: State)
    requires cfg.Valid() && AllPresent(cfg, s.slots) && i < |s.calls| && s.calls[i].Waiting?
    requires Steps(cfg, s.anchor, s.clock) > 0
    ensures var n := Steps(cfg, s.anchor, s.clock);
            && Run(cfg, seed, s, acts) == r && r.slots == s.slots && r.anchor == StepTime(cfg, s.anchor, n)
            && r.calls == s.calls[i := Writing(Gain(cfg, seed, s.slots, s.anchor, n), 0)]
  {
    assert Run(cfg, seed, s, []) == s;
    acts, r := Extend(cfg, seed, s, [], s, Begin(i));
    acts, r := Extend(cfg, seed, s, acts, r, ReadAnchor(i));
    assert r == s.(calls := s.calls[i := HasAnchor(s.clock, s.anchor)]);
    acts, r := Extend(cfg, seed, s, acts, r, LoadSlots(i));
    assert r == s.(calls := s.calls[i := HasSlots(s.clock, s.anchor, s.slots)]);
    acts, r := Extend(cfg, seed, s, acts, r, SwapAnchor(i));
  }

  lemma CallIdles(cfg: Config, seed: Seed, s: State, i: nat) returns (acts: seq<Action>, r: State)
    requires cfg.Valid() && i < |s.calls| && s.calls[i].Waiting? && Steps(cfg, s.anchor, s.clock) == 0
    ensures Run(cfg, seed, s, acts) == r && r.slots == s.slots && r.anchor == s.anchor
    ensures r.calls == s.calls[i := Finished]
  {
    assert Run(cfg, seed, s, []) == s;
    acts, r := Extend(cfg, seed, s, [], s, Begin(i));
    acts, r := Extend(cfg, seed, s, acts, r, ReadAnchor(i));
  }

  /** The statements of a call that nobody disturbs do exactly what the growth of Cairn does. */
  lemma UndisturbedCallIsGrow(cfg: Config, seed: Seed, s: State, i: nat) returns (acts: seq<Action>)
    requires cfg.Valid() && AllPresent(cfg, s.slots) && InRange(cfg, s.slots) && i < |s.calls| && s.calls[i].Waiting?
    ensures var t := Run(cfg, seed, s, acts);
            && t.calls == s.calls[i := Finished]
            && Growth(Some(t.anchor), t.slots) == Grow(cfg, seed, Growth(Some(s.anchor), s.slots), s.clock)
  {
    var n := Steps(cfg, s.anchor, s.clock);
    var r;
    if n == 0 {
      acts, r := CallIdles(cfg, seed, s, i);
    } else {
      acts, r := CallWins(cfg, seed, s, i);
      acts, r := WritesThrough(cfg, seed, s, acts, r, i, s.slots);
      GainsAreGrowth(cfg, seed, s.slots, s.anchor, n, r.slots);
    }
  }

  // ---- Two calls at once ----

  lemma OneSlotGain(seed: Seed, raw: int)
    ensures var cfg := Config(1, 1, 1);
            Steps(cfg, raw, raw + 1) == 1 && StepTime(cfg, raw, 1) == raw + 1
            && Gain(cfg, seed, map[0 := 0], raw, 1) == [1]
  {
    var cfg := Config(1, 1, 1);
    assert Incomplete(cfg, map[0 := 0]) == [0] by { assert IncompleteUpTo(cfg, map[0 := 0], 0) == []; }
    GrowStepsNext(cfg, seed, map[0 := 0], raw, 1);
  }

  /** One second later a call begins and reads the anchor. */
  lemma CallReads(cfg: Config, seed: Seed, s: State, acts: seq<Action>, r: State, i: nat)
    returns (longer: seq<Action>, next: State)
    requires cfg == Config(1, 1, 1) && Run(cfg, seed, s, acts) == r
    requires r.anchor == r.clock && i < |r.calls| && r.calls[i].Waiting?
    ensures Run(cfg, seed, s, longer) == next
    ensures next == r.(clock := r.clock + 1, calls := r.calls[i := HasAnchor(r.clock + 1, r.anchor)])
  {
    OneSlotGain(seed, r.anchor);
    longer, next := Extend(cfg, seed, s, acts, r, Tick(r.clock + 1));
    longer, next := Extend(cfg, seed, s, longer, next, Begin(i));
    longer, next := Extend(cfg, seed, s, longer, next, ReadAnchor(i));
  }

  /** It loads the still empty slot and wins its window. */
  lemma CallSwaps(cfg: Config, seed: Seed, s: State, acts: seq<Action>, r: State, i: nat)
    returns (longer: seq<Action>, next: State)
    requires cfg == Config(1, 1, 1) && Run(cfg, seed, s, acts) == r
    requires r.clock == r.anchor + 1 && r.slots == map[0 := 0] && i < |r.calls|
            && r.calls[i] == HasAnchor(r.clock, r.anchor)
    ensures Run(cfg, seed, s, longer) == next
    ensures next.anchor == next.clock && next.slots == map[0 := 0] && next.calls == r.calls[i := Writing([1], 0)]
  {
    OneSlotGain(seed, r.anchor);
    longer, next := Extend(cfg, seed, s, acts, r, LoadSlots(i));
    assert next == r.(calls := r.calls[i := HasSlots(r.clock, r.anchor, r.slots)]);
    longer, next := Extend(cfg, seed, s, longer, next, SwapAnchor(i));
  }

  lemma BothWrite(cfg: Config, seed: Seed, s: State, acts: seq<Action>, r: State)
    returns (longer: seq<Action>, next: State)
    requires cfg == Config(1, 1, 1) && Run(cfg, seed, s, acts) == r
    requires r.slots == map[0 := 0] && r.calls == [Writing([1], 0), Writing([1], 0)]
    ensures Run(cfg, seed, s, longer) == next && next.slots == map[0 := 2]
  {
    longer, next := Extend(cfg, seed, s, acts, r, Increment(0));
    assert next.slots == map[0 := 1] && next.calls[1] == Writing([1], 0);
    longer, next := Extend(cfg, seed, s, longer, next, Increment(1));
  }

  /**
   * The atomic read-swap-write is needed: when the second call loads the slots after the first has
   * swapped the anchor but not yet written, both write and the slot ends above the cap.
   */
  lemma WithoutTransactionsASlotOverfills(seed: Seed) returns (s: State, acts: seq<Action>)
    ensures var cfg := Config(1, 1, 1);
            && Initial(cfg, s) && Capped(cfg, s.slots)
            && Run(cfg, seed, s, acts).slots == map[0 := 2]
  {
    var cfg := Config(1, 1, 1);
    s := State(0, 0, map[0 := 0], [Waiting, Waiting], [], 0);
    acts := [];
    var r := s;
    acts, r := CallReads(cfg, seed, s, acts, r, 0);
    acts, r := CallSwaps(cfg, seed, s, acts, r, 0);
    acts, r := CallReads(cfg, seed, s, acts, r, 1);
    acts, r := CallSwaps(cfg, seed, s, acts, r, 1);
    acts, r := BothWrite(cfg, seed, s, acts, r);
  }
}
