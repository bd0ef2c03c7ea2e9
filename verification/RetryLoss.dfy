/**
 * Which unlocks are lost for ever (internal/achievement/handler.go lines 112-166 and 218-226), with
 * enqueueRetry as one step or as the two it is: exactly those that are neither marked as synced nor in the
 * table of retries, and of which no winning request is left, that is, whose winner a crash has killed.
 */
module RetryLoss {
  import opened RetryQueue
  import opened RetryRecovery

  /** In every continuation p is neither marked as synced nor in the table of retries. */
  ghost predicate Lost(cfg: Config, s: State, p: Pair)
  {
    p in s.unlocked && forall more: seq<Action> :: p !in Run(cfg, s, more).synced && p !in Run(cfg, s, more).rows
  }

  /** A request that won p is still on its way or has answered. */
  predicate WinnerLeft(s: State, p: Pair)
  {
    exists i | 0 <= i < |s.unlocks| :: Won(s.unlocks[i]) && s.unlocks[i].pair == p
  }

  /** A request that won p has neither answered nor brought it into the table. */
  predicate WinnerOnItsWay(s: State, p: Pair)
  {
    exists i | 0 <= i < |s.unlocks| :: Winning(s.unlocks[i]) && s.unlocks[i].pair == p
  }

  // ---- What holds in every run ----

  predicate WinnersUnlocked(s: State)
  {
    forall i | 0 <= i < |s.unlocks| && Won(s.unlocks[i]) :: s.unlocks[i].pair in s.unlocked
  }

  /** An answered winner has left its pair synced or in the table. */
  predicate AnswersKept(s: State)
  {
    forall i | 0 <= i < |s.unlocks| && s.unlocks[i].pc == Answered(true) ::
      s.unlocks[i].pair in s.synced || s.unlocks[i].pair in s.rows
  }

  /** While the server is up nothing is held but what has a row or a winner. */
  ghost predicate HeldHasSource(s: State)
  {
    forall p: Pair | p !in s.rows && !WinnerLeft(s, p) :: Held(s, p) == 0
  }

  ghost predicate LossInv(cfg: Config, s: State)
  {
    WinnersUnlocked(s) && AnswersKept(s) && StopsClean(cfg, s) && (s.up ==> HeldHasSource(s))
  }

  /** A winner stays one, and only a winner writes. */
  lemma WinnersStay(cfg: Config, s: State, i: nat, ok: bool, p: Pair)
    requires i < |s.unlocks|
    ensures var t := DoUnlock(cfg, s, i, ok);
            !WinnerLeft(t, p) ==> !WinnerLeft(s, p) && !Pushes(s.unlocks[i], p) && (p in t.rows <==> p in s.rows)
  {
    var t := DoUnlock(cfg, s, i, ok);
    if WinnerLeft(s, p) {
      var j :| 0 <= j < |s.unlocks| && Won(s.unlocks[j]) && s.unlocks[j].pair == p;
      assert Won(t.unlocks[j]) && t.unlocks[j].pair == p;
    }
    if s.unlocks[i].pair == p && Won(t.unlocks[i]) { assert WinnerLeft(t, p); }
  }

  lemma UnlockKeeps(cfg: Config, s: State, i: nat, ok: bool)
    requires WinnersUnlocked(s) && AnswersKept(s) && i < |s.unlocks|
    ensures WinnersUnlocked(DoUnlock(cfg, s, i, ok)) && AnswersKept(DoUnlock(cfg, s, i, ok))
  {}

  lemma LossUnlock(cfg: Config, s: State, i: nat, ok: bool)
    requires LossInv(cfg, s) && s.up && i < |s.unlocks|
    ensures LossInv(cfg, DoUnlock(cfg, s, i, ok))
  {
    var t := DoUnlock(cfg, s, i, ok);
    UnlockKeeps(cfg, s, i, ok);
    forall p: Pair | p !in t.rows && !WinnerLeft(t, p) ensures Held(t, p) == 0 {
      WinnersStay(cfg, s, i, ok, p);
      HeldUnlock(cfg, s, i, ok, p);
    }
  }

  /** The worker's statements add to what is synced and change no more than the contents of rows. */
  lemma WorkKeepsKeys(cfg: Config, s: State, ok: bool)
    ensures var t := DoWork(cfg, s, ok);
            && t.unlocks == s.unlocks && t.unlocked == s.unlocked && t.up == s.up
            && (forall p :: p in t.rows <==> p in s.rows) && s.synced <= t.synced
  {}

  lemma LossWork(cfg: Config, s: State, ok: bool)
    requires LossInv(cfg, s) && s.up
    ensures LossInv(cfg, DoWork(cfg, s, ok))
  {
    var t := DoWork(cfg, s, ok);
    WorkKeepsKeys(cfg, s, ok);
    forall p: Pair | p !in t.rows && !WinnerLeft(t, p) ensures Held(t, p) == 0 { DroppedHeld(cfg, s, p, ok); }
  }

  /** What the reload starts with is in the table. */
  lemma LossReload(cfg: Config, s: State)
    requires LossInv(cfg, s) && !s.up
    ensures LossInv(cfg, DoReload(s))
  {
    StopsCleanStep(cfg, s, ReloadStep);
    if DoReload(s).up {
      ReloadingStep(cfg, s);
      StartHoldsPending(cfg, DoReload(s));
    }
  }

  lemma LossStep(cfg: Config, s: State, a: Action)
    requires LossInv(cfg, s)
    ensures LossInv(cfg, Apply(cfg, s, a))
  {
    match a
    case UnlockStep(i, ok) => if s.up && i < |s.unlocks| { LossUnlock(cfg, s, i, ok); }
    case WorkStep(ok) => if s.up { LossWork(cfg, s, ok); }
    case ReloadStep => if !s.up { LossReload(cfg, s); }
    case Tick(t) => assert forall p: Pair :: Held(Apply(cfg, s, a), p) == Held(s, p);
    case _ =>
  }

  lemma {:induction false} LossInvRun(cfg: Config, s: State, acts: seq<Action>)
    requires Initial(s)
    ensures LossInv(cfg, Run(cfg, s, acts))
  {
    if acts == [] {
    } else {
      LossInvRun(cfg, s, acts[..|acts| - 1]);
      LossStep(cfg, Run(cfg, s, acts[..|acts| - 1]), acts[|acts| - 1]);
    }
  }

  // ---- The two directions ----

  /** Statements a winner is away from the table when Steam and the update fail. */
  function Distance(pc: UnlockPc): nat
  {
    if pc.CallSteam? || pc.MarkUnlock? then 3 else if pc.EnqueueRetry? then 2 else 1
  }

  /** From any of its statements a winner can bring its pair into the table. */
  lemma {:induction false} WinnerCanEnqueue(cfg: Config, s: State, acts: seq<Action>, r: State, i: nat)
    returns (longer: seq<Action>)
    requires Run(cfg, s, acts) == r && r.up && i < |r.unlocks| && Winning(r.unlocks[i])
    ensures r.unlocks[i].pair in Run(cfg, s, longer).rows
    decreases Distance(r.unlocks[i].pc)
  {
    var next;
    longer, next := Extend(cfg, s, acts, r, UnlockStep(i, false));
    if r.unlocks[i].pc.InsertRow? || (r.unlocks[i].pc.EnqueueRetry? && !cfg.split) {
    } else {
      longer := WinnerCanEnqueue(cfg, s, longer, next, i);
    }
  }

  /** A pair with a winner left is or can come to be synced or queued. */
  lemma WinnerCanGoOn(cfg: Config, s: State, p: Pair) returns (more: seq<Action>)
    requires LossInv(cfg, s) && WinnerLeft(s, p)
    ensures p in Run(cfg, s, more).rows || p in Run(cfg, s, more).synced
  {
    var i :| 0 <= i < |s.unlocks| && Won(s.unlocks[i]) && s.unlocks[i].pair == p;
    more := [];
    if Winning(s.unlocks[i]) {
      more := WinnerCanEnqueue(cfg, s, [], s, i);
    }
  }

  lemma LostWhenBare(cfg: Config, s: State, p: Pair)
    requires LossInv(cfg, s) && p in s.unlocked && !WinnerLeft(s, p) && p !in s.synced && p !in s.rows
    ensures Lost(cfg, s, p)
  {
    forall i | 0 <= i < |s.unlocks| && s.unlocks[i].pair == p ensures !Winning(s.unlocks[i]) {}
    forall more: seq<Action> ensures p !in Run(cfg, s, more).synced && p !in Run(cfg, s, more).rows {
      DroppedForever(cfg, s, more, p);
    }
  }

  /**
   * Main result, at any point of any run: an unlocked pair is lost if and only if it is neither marked as
   * synced nor in the table of retries and no request that won it is left.
   */
  lemma LostExactlyWithoutWinner(cfg: Config, s: State, acts: seq<Action>, p: Pair)
    requires Initial(s) && p in Run(cfg, s, acts).unlocked
    ensures var t := Run(cfg, s, acts);
            Lost(cfg, t, p) <==> !WinnerLeft(t, p) && p !in t.synced && p !in t.rows
  {
    var t := Run(cfg, s, acts);
    LossInvRun(cfg, s, acts);
    assert Run(cfg, t, []) == t;
    if WinnerLeft(t, p) {
      var more := WinnerCanGoOn(cfg, t, p);
      assert p in Run(cfg, t, more).synced || p in Run(cfg, t, more).rows;
    } else if p !in t.synced && p !in t.rows {
      LostWhenBare(cfg, t, p);
    }
  }

  /** After a crash only answered winners are left. */
  lemma CrashKillsWinners(cfg: Config, s: State, survivors: seq<Pair>, p: Pair)
    requires LossInv(cfg, s) && p !in s.synced && p !in s.rows
    ensures !WinnerLeft(Apply(cfg, s, Crash(survivors)), p)
    ensures WinnerLeft(s, p) ==> WinnerOnItsWay(s, p)
  {
    var t := Apply(cfg, s, Crash(survivors));
    forall j | 0 <= j < |t.unlocks| && t.unlocks[j].pair == p ensures !Won(t.unlocks[j]) {
      assert t.unlocks[j] == Kill(s.unlocks[j]);
    }
  }

  /**
   * A crash leaves lost exactly what is neither marked as synced nor in the table, and so adds to what was
   * lost exactly such pairs whose winner is on its way, between its INSERT and that of the row.
   */
  lemma CrashLosesExactly(cfg: Config, s: State, acts: seq<Action>, survivors: seq<Pair>, p: Pair)
    requires Initial(s) && p in Run(cfg, s, acts).unlocked
    ensures var r := Run(cfg, s, acts);
            var t := Apply(cfg, r, Crash(survivors));
            && (Lost(cfg, t, p) <==> p !in r.synced && p !in r.rows)
            && (Lost(cfg, t, p) && !Lost(cfg, r, p) <==> WinnerOnItsWay(r, p) && p !in r.synced && p !in r.rows)
  {
    var r := Run(cfg, s, acts);
    assert (acts + [Crash(survivors)])[..|acts|] == acts;
    LossInvRun(cfg, s, acts);
    LostExactlyWithoutWinner(cfg, s, acts, p);
    LostExactlyWithoutWinner(cfg, s, acts + [Crash(survivors)], p);
    if p !in r.synced && p !in r.rows { CrashKillsWinners(cfg, r, survivors, p); }
    assert WinnerOnItsWay(r, p) ==> WinnerLeft(r, p);
  }

  // ---- Crashes inside enqueueRetry ----

  /** The push has come, the row has not. */
  lemma PushComes(cfg: Config, p: Pair, now: int) returns (acts: seq<Action>, r: State)
    requires cfg.split
    ensures Run(cfg, Fresh(p, now), acts) == r
    ensures r == Fresh(p, now).(unlocked := {p}, queue := [p], unlocks := [Unlock(p, InsertRow)])
  {
    acts, r := UnlockInserts(cfg, p, now);
    acts, r := Extend(cfg, Fresh(p, now), acts, r, UnlockStep(0, false));
    acts, r := Extend(cfg, Fresh(p, now), acts, r, UnlockStep(0, true));
  }

  /** A crash between the two statements loses the unlock, although its item was in the deque. */
  lemma CrashBetweenPushAndInsertLoses(cfg: Config, p: Pair, now: int) returns (acts: seq<Action>, r: State)
    requires cfg.split
    ensures Initial(Fresh(p, now)) && r == Run(cfg, Fresh(p, now), acts) && r.up && r.queue == [p]
    ensures forall survivors: seq<Pair> :: Lost(cfg, Apply(cfg, r, Crash(survivors)), p)
  {
    acts, r := PushComes(cfg, p, now);
    forall survivors: seq<Pair> ensures Lost(cfg, Apply(cfg, r, Crash(survivors)), p) {
      CrashLosesExactly(cfg, Fresh(p, now), acts, survivors, p);
    }
  }

  /** The worker's call succeeds and the pair is marked as synced. */
  lemma WorkerSyncs(cfg: Config, s: State, acts: seq<Action>, r: State, p: Pair)
    returns (longer: seq<Action>, next: State)
    requires Run(cfg, s, acts) == r && r.up && r.worker == Worker(Call(p), []) && p in r.unlocked
    ensures Run(cfg, s, longer) == next
    ensures p in next.synced && next.rows == r.rows && next.unlocks == r.unlocks
  {
    longer, next := Extend(cfg, s, acts, r, WorkStep(true));
    longer, next := Extend(cfg, s, longer, next, WorkStep(true));
  }

  /** Unless the worker was faster: then the pair is marked as synced, with neither a row nor a winner left. */
  lemma SyncedBeforeItsRow(cfg: Config, p: Pair, now: int) returns (acts: seq<Action>)
    requires cfg.split
    ensures Initial(Fresh(p, now))
    ensures var t := Run(cfg, Fresh(p, now), acts); !WinnerLeft(t, p) && p !in t.rows && p in t.synced
  {
    var r;
    acts, r := PushComes(cfg, p, now);
    acts, r := WorkerTakes(cfg, Fresh(p, now), acts, r, p);
    acts, r := WorkerSyncs(cfg, Fresh(p, now), acts, r, p);
    acts, r := Extend(cfg, Fresh(p, now), acts, r, Crash([]));
    assert r.unlocks[0] == Unlock(p, Killed);
  }
}
