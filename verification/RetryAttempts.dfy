/**
 * Nothing is given up early (processOne, internal/achievement/worker.go lines 175-214): over every run,
 * disturbed or not, with crashes anywhere, the failures counted on a row are calls that were made, and a
 * failed row waits its turn behind everything due within a tick.
 */
module RetryAttempts {
  import opened Prelude
  import opened RetryQueue
  import opened RetryRecovery

  function Failures(s: State, p: Pair): nat { if p in s.rows then s.rows[p].count else 0 }

  /** A failed call that is not counted yet. */
  function Uncounted(s: State, p: Pair): nat { Once(s.worker.pc == CountUp(p)) }

  /** Every counted failure, and one about to be counted, is a call to Steam. */
  ghost predicate FailuresAreCalls(s: State)
  {
    forall p: Pair :: Failures(s, p) + Uncounted(s, p) <= Tally(s.calls, p)
  }

  lemma FailuresUnlock(cfg: Config, s: State, i: nat, ok: bool)
    requires FailuresAreCalls(s) && i < |s.unlocks|
    ensures FailuresAreCalls(DoUnlock(cfg, s, i, ok))
  {
    var t := DoUnlock(cfg, s, i, ok);
    forall p: Pair ensures Failures(t, p) + Uncounted(t, p) <= Tally(t.calls, p) {
      assert Failures(s, p) + Uncounted(s, p) <= Tally(s.calls, p);
      assert t.calls == s.calls && t.worker == s.worker;
    }
  }

  lemma FailuresWork(cfg: Config, s: State, ok: bool)
    requires FailuresAreCalls(s)
    ensures FailuresAreCalls(DoWork(cfg, s, ok))
  {
    var t := DoWork(cfg, s, ok);
    forall p: Pair ensures Failures(t, p) + Uncounted(t, p) <= Tally(t.calls, p) {
      assert Failures(s, p) + Uncounted(s, p) <= Tally(s.calls, p);
    }
  }

  lemma FailuresStep(cfg: Config, s: State, a: Action)
    requires FailuresAreCalls(s)
    ensures FailuresAreCalls(Apply(cfg, s, a))
  {
    match a
    case UnlockStep(i, ok) => if s.up && i < |s.unlocks| { FailuresUnlock(cfg, s, i, ok); }
    case WorkStep(ok) => if s.up { FailuresWork(cfg, s, ok); }
    case _ =>
      var t := Apply(cfg, s, a);
      forall p: Pair ensures Failures(t, p) + Uncounted(t, p) <= Tally(t.calls, p) {
        assert Failures(s, p) + Uncounted(s, p) <= Tally(s.calls, p);
      }
  }

  lemma {:induction false} FailuresRun(cfg: Config, s: State, acts: seq<Action>)
    requires Initial(s)
    ensures FailuresAreCalls(Run(cfg, s, acts))
  {
    if acts == [] {
    } else {
      FailuresRun(cfg, s, acts[..|acts| - 1]);
      FailuresStep(cfg, Run(cfg, s, acts[..|acts| - 1]), acts[|acts| - 1]);
    }
  }

  /** Main result: a row dead-lettered at the limit has been asked for maxRetries times. */
  lemma DeadLettersWereRetried(cfg: Config, s: State, acts: seq<Action>, p: Pair)
    requires Initial(s) && p in Run(cfg, s, acts).rows
    ensures var t := Run(cfg, s, acts);
            && t.rows[p].count <= Tally(t.calls, p)
            && (!t.rows[p].resolved && !Pending(cfg, t.rows, p) ==> cfg.maxRetries <= Tally(t.calls, p))
  {
    FailuresRun(cfg, s, acts);
    assert Failures(Run(cfg, s, acts), p) + Uncounted(Run(cfg, s, acts), p) <= Tally(Run(cfg, s, acts).calls, p);
  }

  // ---- When a failed row comes up again ----

  /** What has not failed is due, and what has is due within a tick. */
  predicate DueTimes(cfg: Config, s: State)
  {
    forall p | p in s.rows :: s.rows[p].nextRetry <= if s.rows[p].count == 0 then s.now else s.now + cfg.tickInterval
  }

  lemma {:induction false} DueTimesRun(cfg: Config, s: State, acts: seq<Action>)
    requires Initial(s)
    ensures DueTimes(cfg, Run(cfg, s, acts))
  {
    if acts == [] {
    } else {
      DueTimesRun(cfg, s, acts[..|acts| - 1]);
      DueTimesStep(cfg, Run(cfg, s, acts[..|acts| - 1]), acts[|acts| - 1]);
    }
  }

  lemma DueTimesStep(cfg: Config, s: State, a: Action)
    requires DueTimes(cfg, s)
    ensures DueTimes(cfg, Apply(cfg, s, a))
  {}

  /**
   * A row whose failure is counted at s.now comes up in every later reload that finds it unchanged: behind
   * what is due within a tick of the failure, before what is due after it.
   */
  lemma FailedRowTakesItsTurn(cfg: Config, s: State, rows: map<Pair, Row>, answer: seq<Pair>, i: nat, j: nat)
    requires s.worker.pc.CountUp? && Pending(cfg, s.rows, s.worker.pc.item) && s.worker.pc.item in rows
    requires rows[s.worker.pc.item] == DoWork(cfg, s, false).rows[s.worker.pc.item]
    requires PendingInOrder(cfg, rows, answer) && i < |answer| && j < |answer| && answer[i] == s.worker.pc.item
    ensures rows[answer[j]].nextRetry < s.now + cfg.tickInterval ==> j < i
    ensures rows[answer[j]].nextRetry > s.now + cfg.tickInterval ==> i < j
  {
    if i < j { assert rows[answer[i]].nextRetry <= rows[answer[j]].nextRetry; }
    if j < i { assert rows[answer[j]].nextRetry <= rows[answer[i]].nextRetry; }
  }

  /** So at any point of any run, a failure puts its row behind every row that has not failed yet. */
  lemma FailureGoesToTheBack(cfg: Config, s: State, acts: seq<Action>, answer: seq<Pair>, i: nat, j: nat)
    requires Initial(s) && cfg.tickInterval > 0
    requires var r := Run(cfg, s, acts); r.worker.pc.CountUp? && Pending(cfg, r.rows, r.worker.pc.item)
    requires var t := DoWork(cfg, Run(cfg, s, acts), false);
             && PendingInOrder(cfg, t.rows, answer) && i < |answer| && j < |answer|
             && answer[i] == Run(cfg, s, acts).worker.pc.item && t.rows[answer[j]].count == 0
    ensures j < i
  {
    var r := Run(cfg, s, acts);
    DueTimesRun(cfg, s, acts);
    var t := DoWork(cfg, r, false);
    assert answer[j] in t.rows && answer[j] != r.worker.pc.item;
    assert t.rows[answer[j]] == r.rows[answer[j]];
    FailedRowTakesItsTurn(cfg, r, t.rows, answer, i, j);
  }
}
