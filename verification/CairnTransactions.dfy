/**
 * Why growth runs in a transaction (ApplyGrowthTx, internal/cairn/cairn.go lines 293-308).
 *
 * The machine of CairnRace lets a slot pass the cap.  It never does when slots are loaded only while
 * nobody is writing, and callers that hold a transaction never load them at any other time.
 */
module CairnTransactions {
  import opened Cairn
  import opened CairnRace

  predicate NobodyWrites(s: State) { forall i | 0 <= i < |s.calls| :: !s.calls[i].Writing? }

  /** Slots are not loaded while a winner is still writing. */
  predicate Quiet(s: State, a: Action)
  {
    a.LoadSlots? && a.i < |s.calls| && s.calls[a.i].HasAnchor? ==> NobodyWrites(s)
  }

  predicate QuietRun(cfg: Config, seed: Seed, s: State, acts: seq<Action>)
    requires cfg.Valid()
  {
    acts == []
    || (QuietRun(cfg, seed, s, acts[..|acts| - 1]) && Quiet(Run(cfg, seed, s, acts[..|acts| - 1]), acts[|acts| - 1]))
  }

  // ---- The invariant ----

  /** Anchors only rise, so what a call has read is at most the anchor. */
  predicate ReadsPast(s: State)
  {
    forall i | 0 <= i < |s.calls| && (s.calls[i].HasAnchor? || s.calls[i].HasSlots?) :: s.calls[i].raw <= s.anchor
  }

  /** A call that can still win has seen the slots as they are, and nobody is writing. */
  predicate WinnersAreCurrent(s: State)
  {
    forall i | 0 <= i < |s.calls| && s.calls[i].HasSlots? && s.calls[i].raw == s.anchor ::
      s.calls[i].seen == s.slots && NobodyWrites(s)
  }

  predicate OneWriter(s: State)
  {
    forall i, j | 0 <= i < j < |s.calls| :: !(s.calls[i].Writing? && s.calls[j].Writing?)
  }

  /** What a call still owes slot j. */
  function Owed(c: Call, j: nat): nat { if c.Writing? && c.next <= j < |c.applied| then c.applied[j] else 0 }

  /** Every slot stays within the cap with what each writer owes it. */
  predicate OwedFits(cfg: Config, s: State)
  {
    && Capped(cfg, s.slots)
    && forall i, j: nat | 0 <= i < |s.calls| && j in s.slots :: s.slots[j] + Owed(s.calls[i], j) <= cfg.maxLayers
  }

  predicate TableWhole(cfg: Config, s: State) { AllPresent(cfg, s.slots) && InRange(cfg, s.slots) }

  predicate QuietInv(cfg: Config, s: State)
    requires cfg.Valid()
  {
    Inv(cfg, s) && TableWhole(cfg, s) && ReadsPast(s) && WinnersAreCurrent(s) && OneWriter(s) && OwedFits(cfg, s)
  }

  /** A winner moves the anchor strictly forward. */
  lemma WinnerAdvances(cfg: Config, s: State, i: nat)
    requires cfg.Valid() && Inv(cfg, s) && i < |s.calls| && s.calls[i].HasSlots?
    ensures s.calls[i].raw < StepTime(cfg, s.calls[i].raw, Steps(cfg, s.calls[i].raw, s.calls[i].now))
  {
    assert CallOk(cfg, s, s.calls[i]);
    WindowIsProper(cfg, s.calls[i].raw, s.calls[i].now);
  }

  lemma ReadsPastStep(cfg: Config, seed: Seed, s: State, a: Action)
    requires cfg.Valid() && Inv(cfg, s) && ReadsPast(s)
    ensures ReadsPast(Apply(cfg, seed, s, a))
  {
    if a.SwapAnchor? && a.i < |s.calls| && s.calls[a.i].HasSlots? { WinnerAdvances(cfg, s, a.i); }
  }

  lemma WinnersAreCurrentStep(cfg: Config, seed: Seed, s: State, a: Action)
    requires cfg.Valid() && QuietInv(cfg, s) && Quiet(s, a)
    ensures WinnersAreCurrent(Apply(cfg, seed, s, a))
  {
    if a.SwapAnchor? && a.i < |s.calls| && s.calls[a.i].HasSlots? { WinnerAdvances(cfg, s, a.i); }
  }

  lemma OneWriterStep(cfg: Config, seed: Seed, s: State, a: Action)
    requires cfg.Valid() && QuietInv(cfg, s)
    ensures OneWriter(Apply(cfg, seed, s, a))
  {}

  /** What a current winner will write fits under the cap. */
  lemma GainFits(cfg: Config, seed: Seed, slots: map<nat, nat>, raw: int, n: nat, j: nat)
    requires Capped(cfg, slots) && AllPresent(cfg, slots) && j in slots && j < cfg.slotCount
    ensures slots[j] + Gain(cfg, seed, slots, raw, n)[j] <= cfg.maxLayers
  {
    GrowStepsCredit(cfg, seed, slots, raw, n);
    GrowStepsMonotone(cfg, seed, slots, raw, n, j);
    GrowStepsKeys(cfg, seed, slots, raw, n);
  }

  lemma OwedFitsSwap(cfg: Config, seed: Seed, s: State, i: nat)
    requires cfg.Valid() && QuietInv(cfg, s)
    ensures OwedFits(cfg, Apply(cfg, seed, s, SwapAnchor(i)))
  {
    if i < |s.calls| && s.calls[i].HasSlots? && s.anchor == s.calls[i].raw {
      var c := s.calls[i];
      var t := Apply(cfg, seed, s, SwapAnchor(i));
      forall k, j: nat | 0 <= k < |t.calls| && j in t.slots ensures t.slots[j] + Owed(t.calls[k], j) <= cfg.maxLayers {
        GainFits(cfg, seed, s.slots, c.raw, Steps(cfg, c.raw, c.now), j);
      }
    }
  }

  lemma OwedFitsStep(cfg: Config, seed: Seed, s: State, a: Action)
    requires cfg.Valid() && QuietInv(cfg, s)
    ensures OwedFits(cfg, Apply(cfg, seed, s, a))
  {
    match a
    case SwapAnchor(i) => OwedFitsSwap(cfg, seed, s, i);
    case _ =>
  }

  lemma {:induction false} QuietInvRun(cfg: Config, seed: Seed, s: State, acts: seq<Action>)
    requires cfg.Valid() && Initial(cfg, s) && Capped(cfg, s.slots) && QuietRun(cfg, seed, s, acts)
    ensures QuietInv(cfg, Run(cfg, seed, s, acts))
  {
    if acts == [] {
    } else {
      var a, r := acts[|acts| - 1], Run(cfg, seed, s, acts[..|acts| - 1]);
      QuietInvRun(cfg, seed, s, acts[..|acts| - 1]);
      InvStep(cfg, seed, r, a);
      ReadsPastStep(cfg, seed, r, a);
      WinnersAreCurrentStep(cfg, seed, r, a);
      OneWriterStep(cfg, seed, r, a);
      OwedFitsStep(cfg, seed, r, a);
    }
  }

  /** Over every interleaving with logins in which slots load only while nobody writes, no slot passes the cap. */
  lemma QuietRunsKeepTheCap(cfg: Config, seed: Seed, s: State, acts: seq<Action>)
    requires cfg.Valid() && Initial(cfg, s) && Capped(cfg, s.slots) && QuietRun(cfg, seed, s, acts)
    ensures Capped(cfg, Run(cfg, seed, s, acts).slots)
  {
    QuietInvRun(cfg, seed, s, acts);
  }

  // ---- Transactions ----

  /** Between reading the anchor and the end. */
  predicate InTransaction(c: Call) { c.HasAnchor? || c.HasSlots? || c.Writing? }

  /** A call reads the anchor only while no other call is in its transaction. */
  predicate TransactionFree(s: State, a: Action)
  {
    a.ReadAnchor? ==> forall j | 0 <= j < |s.calls| :: !InTransaction(s.calls[j])
  }

  predicate TransactionalRun(cfg: Config, seed: Seed, s: State, acts: seq<Action>)
    requires cfg.Valid()
  {
    acts == []
    || (TransactionalRun(cfg, seed, s, acts[..|acts| - 1])
        && TransactionFree(Run(cfg, seed, s, acts[..|acts| - 1]), acts[|acts| - 1]))
  }

  predicate OneTransaction(s: State)
  {
    forall i, j | 0 <= i < j < |s.calls| :: !(InTransaction(s.calls[i]) && InTransaction(s.calls[j]))
  }

  lemma OneTransactionStep(cfg: Config, seed: Seed, s: State, a: Action)
    requires cfg.Valid() && OneTransaction(s) && TransactionFree(s, a)
    ensures OneTransaction(Apply(cfg, seed, s, a))
  {}

  lemma {:induction false} TransactionalIsQuiet(cfg: Config, seed: Seed, s: State, acts: seq<Action>)
    requires cfg.Valid() && Initial(cfg, s) && TransactionalRun(cfg, seed, s, acts)
    ensures QuietRun(cfg, seed, s, acts) && OneTransaction(Run(cfg, seed, s, acts))
  {
    if acts == [] {
    } else {
      var a, r := acts[|acts| - 1], Run(cfg, seed, s, acts[..|acts| - 1]);
      TransactionalIsQuiet(cfg, seed, s, acts[..|acts| - 1]);
      OneTransactionStep(cfg, seed, r, a);
    }
  }

  /**
   * Main result: over every interleaving of calls that hold a transaction each, with logins anywhere, the
   * cap holds.
   */
  lemma TransactionsKeepTheCap(cfg: Config, seed: Seed, s: State, acts: seq<Action>)
    requires cfg.Valid() && Initial(cfg, s) && Capped(cfg, s.slots) && TransactionalRun(cfg, seed, s, acts)
    ensures Capped(cfg, Run(cfg, seed, s, acts).slots)
  {
    TransactionalIsQuiet(cfg, seed, s, acts);
    QuietRunsKeepTheCap(cfg, seed, s, acts);
  }
}
