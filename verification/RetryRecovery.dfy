/** Crashes of the server around the retry queue: what a boot restores, and what it cannot. */
module RetryRecovery {
  import opened Prelude
  import opened RetryQueue

  /** While the server is down nobody works, and the reload is where its statements have brought it. */
  ghost predicate StopsClean(cfg: Config, s: State) { !s.up ==> Stopped(s) && Reloading(cfg, s) }

  lemma StopsCleanStep(cfg: Config, s: State, a: Action)
    requires StopsClean(cfg, s)
    ensures StopsClean(cfg, Apply(cfg, s, a))
  {
    if a.ReloadStep? && !s.up { ReloadingStep(cfg, s); }
  }

  lemma {:induction false} StopsCleanRun(cfg: Config, s: State, acts: seq<Action>)
    requires Initial(s)
    ensures StopsClean(cfg, Run(cfg, s, acts))
  {
    if acts == [] {
    } else {
      StopsCleanRun(cfg, s, acts[..|acts| - 1]);
      StopsCleanStep(cfg, Run(cfg, s, acts[..|acts| - 1]), acts[|acts| - 1]);
    }
  }

  /**
   * Over every run, whatever the worker has dropped or synced before its row, with crashes at any statement
   * including those of the reload, leaving anything in the deque: whenever a step starts the server, popping
   * the deque yields exactly the pending rows, each once, in next_retry_at order, and nothing else has changed.
   */
  lemma BootRestoresAgreement(cfg: Config, s: State, acts: seq<Action>, a: Action)
    requires Initial(s) && !Run(cfg, s, acts).up && Run(cfg, s, acts + [a]).up
    ensures var r, t := Run(cfg, s, acts), Run(cfg, s, acts + [a]);
            && PendingInOrder(cfg, t.rows, Reversed(t.queue)) && HoldsPending(cfg, t)
            && t.worker == Worker(Rest, []) && t.rows == r.rows
  {
    assert (acts + [a])[..|acts|] == acts;
    StopsCleanRun(cfg, s, acts);
    ReloadingStep(cfg, Run(cfg, s, acts));
    StartHoldsPending(cfg, Run(cfg, s, acts + [a]));
  }

  /** Puts p behind everything due no later. */
  function InsertDue(rows: map<Pair, Row>, items: seq<Pair>, p: Pair): (r: seq<Pair>)
    requires p in rows && forall i | 0 <= i < |items| :: items[i] in rows
    ensures forall i | 0 <= i < |r| :: r[i] in rows
  {
    if items == [] || rows[items[|items| - 1]].nextRetry <= rows[p].nextRetry then items + [p]
    else InsertDue(rows, items[..|items| - 1], p) + [items[|items| - 1]]
  }

  lemma {:induction false} CountInsertDue(rows: map<Pair, Row>, items: seq<Pair>, p: Pair, q: Pair)
    requires p in rows && forall i | 0 <= i < |items| :: items[i] in rows
    ensures Count(InsertDue(rows, items, p), q) == Count(items, q) + Once(p == q)
  {
    if items == [] || rows[items[|items| - 1]].nextRetry <= rows[p].nextRetry {
      CountBack(items, p, q);
    } else {
      CountInsertDue(rows, items[..|items| - 1], p, q);
      CountBack(InsertDue(rows, items[..|items| - 1], p), items[|items| - 1], q);
    }
  }

  /** Everything is due by `latest`. */
  predicate DueBy(rows: map<Pair, Row>, items: seq<Pair>, latest: int)
  {
    forall i | 0 <= i < |items| :: items[i] in rows && rows[items[i]].nextRetry <= latest
  }

  lemma {:induction false} InsertDueInOrder(rows: map<Pair, Row>, items: seq<Pair>, p: Pair, latest: int)
    requires p in rows && DueInOrder(rows, items)
    requires DueBy(rows, items, latest) && rows[p].nextRetry <= latest
    ensures DueInOrder(rows, InsertDue(rows, items, p)) && DueBy(rows, InsertDue(rows, items, p), latest)
  {
    if items == [] {
    } else if rows[items[|items| - 1]].nextRetry <= rows[p].nextRetry {
    } else {
      InsertDueInOrder(rows, items[..|items| - 1], p, rows[items[|items| - 1]].nextRetry);
    }
  }

  /** Exactly the pending rows among these, in order. */
  ghost predicate DueAmong(cfg: Config, rows: map<Pair, Row>, among: set<Pair>, items: seq<Pair>)
  {
    DueInOrder(rows, items) && forall q: Pair :: Count(items, q) == Once(q in among && Pending(cfg, rows, q))
  }

  function WithRow(cfg: Config, rows: map<Pair, Row>, items: seq<Pair>, p: Pair): seq<Pair>
    requires p in rows && DueInOrder(rows, items)
  {
    if Pending(cfg, rows, p) then InsertDue(rows, items, p) else items
  }

  lemma CountWithRow(cfg: Config, rows: map<Pair, Row>, rest: seq<Pair>, among: set<Pair>, p: Pair, q: Pair)
    requires p in rows && p in among && DueInOrder(rows, rest)
    requires Count(rest, q) == Once(q in among - {p} && Pending(cfg, rows, q))
    ensures Count(WithRow(cfg, rows, rest, p), q) == Once(q in among && Pending(cfg, rows, q))
  {
    if Pending(cfg, rows, p) { CountInsertDue(rows, rest, p, q); }
  }

  lemma OneMoreDue(cfg: Config, rows: map<Pair, Row>, rest: seq<Pair>, among: set<Pair>, p: Pair)
    requires p in rows && p in among && DueAmong(cfg, rows, among - {p}, rest)
    ensures DueAmong(cfg, rows, among, WithRow(cfg, rows, rest, p))
  {
    var items := WithRow(cfg, rows, rest, p);
    forall q: Pair ensures Count(items, q) == Once(q in among && Pending(cfg, rows, q)) {
      CountWithRow(cfg, rows, rest, among, p, q);
    }
    assert DueInOrder(rows, items) by {
      var latest := rows[p].nextRetry;
      if rest != [] && rows[rest[|rest| - 1]].nextRetry > latest { latest := rows[rest[|rest| - 1]].nextRetry; }
      InsertDueInOrder(rows, rest, p, latest);
    }
  }

  lemma {:induction false} OrderAmong(cfg: Config, rows: map<Pair, Row>, among: set<Pair>) returns (items: seq<Pair>)
    requires among <= rows.Keys
    ensures DueAmong(cfg, rows, among, items)
    decreases among
  {
    if among == {} {
      items := [];
    } else {
      var p :| p in among;
      var rest := OrderAmong(cfg, rows, among - {p});
      OneMoreDue(cfg, rows, rest, among, p);
      items := WithRow(cfg, rows, rest, p);
    }
  }

  /** The reload always has an order to load in. */
  lemma SomeOrder(cfg: Config, rows: map<Pair, Row>) returns (items: seq<Pair>)
    ensures PendingInOrder(cfg, rows, items)
  {
    items := OrderAmong(cfg, rows, rows.Keys);
    forall q: Pair ensures Count(items, q) == Once(Pending(cfg, rows, q)) {}
  }

  /** Extends a run that has reached r by one action. */
  lemma Extend(cfg: Config, s: State, acts: seq<Action>, r: State, a: Action) returns (longer: seq<Action>, next: State)
    requires Run(cfg, s, acts) == r
    ensures Run(cfg, s, longer) == next == Apply(cfg, r, a)
  {
    longer, next := acts + [a], Apply(cfg, r, a);
    assert longer[..|acts|] == acts;
  }

  /** The drain loop ends, whatever has survived. */
  lemma {:induction false} DrainEnds(cfg: Config, s: State, acts: seq<Action>, r: State)
    returns (longer: seq<Action>, next: State)
    requires Run(cfg, s, acts) == r && !r.up && r.reload.Draining?
    ensures Run(cfg, s, longer) == next == r.(queue := [], reload := Pushing(r.reload.items, 0))
    decreases |r.queue|
  {
    longer, next := Extend(cfg, s, acts, r, ReloadStep);
    if r.queue == [] {
    } else {
      longer, next := DrainEnds(cfg, s, longer, next);
    }
  }

  /** One push of the reload. */
  lemma PushOne(cfg: Config, s: State, acts: seq<Action>, r: State, items: seq<Pair>, k: nat)
    returns (longer: seq<Action>, next: State)
    requires Run(cfg, s, acts) == r && !r.up && k < |items| && r.reload == Pushing(items, k)
            && Reversed(r.queue) == items[..k]
    ensures Run(cfg, s, longer) == next == r.(queue := [items[k]] + r.queue, reload := Pushing(items, k + 1))
    ensures Reversed(next.queue) == items[..k + 1]
  {
    longer, next := Extend(cfg, s, acts, r, ReloadStep);
    NextPushed(r.queue, items, k);
  }

  /** The push loop ends with every row of the answer pushed, the first one next to be popped. */
  lemma {:induction false} PushEnds(cfg: Config, s: State, acts: seq<Action>, r: State, items: seq<Pair>, k: nat)
    returns (longer: seq<Action>, next: State)
    requires Run(cfg, s, acts) == r && !r.up && k <= |items| && r.reload == Pushing(items, k)
            && Reversed(r.queue) == items[..k]
    ensures Run(cfg, s, longer) == next == r.(queue := Reversed(items), reload := NoReload, up := true)
    decreases |items| - k
  {
    if k == |items| {
      longer, next := Extend(cfg, s, acts, r, ReloadStep);
      assert items[..k] == items;
      ReversedTwice(r.queue);
    } else {
      longer, next := PushOne(cfg, s, acts, r, items, k);
      longer, next := PushEnds(cfg, s, longer, next, items, k + 1);
    }
  }

  lemma ReloadEnds(cfg: Config, s: State, acts: seq<Action>, r: State, answer: seq<Pair>)
    returns (longer: seq<Action>, next: State)
    requires Run(cfg, s, acts) == r && !r.up && r.reload.NoReload? && PendingInOrder(cfg, r.rows, answer)
    ensures Run(cfg, s, longer) == next == r.(queue := Reversed(answer), up := true)
  {
    longer, next := Extend(cfg, s, acts, r, Query(answer));
    longer, next := DrainEnds(cfg, s, longer, next);
    longer, next := PushEnds(cfg, s, longer, next, answer, 0);
  }

  /** An undisturbed reload always starts the server, and its queue is the query's answer to be popped in order. */
  lemma ReloadComesUp(cfg: Config, s: State, answer: seq<Pair>) returns (acts: seq<Action>)
    requires !s.up && s.reload.NoReload? && PendingInOrder(cfg, s.rows, answer)
    ensures Run(cfg, s, acts) == s.(queue := Reversed(answer), up := true)
  {
    assert Run(cfg, s, []) == s;
    var r;
    acts, r := ReloadEnds(cfg, s, [], s, answer);
  }

  /** From any state at all, a crash that leaves anything in the deque and an undisturbed reload repair it. */
  lemma RestartRepairs(cfg: Config, s: State, survivors: seq<Pair>) returns (acts: seq<Action>)
    ensures var t := Run(cfg, s, acts);
            && t.up && HoldsPending(cfg, t) && t.rows == s.rows && t.unlocked == s.unlocked && t.synced == s.synced
  {
    assert Run(cfg, s, []) == s;
    var r;
    acts, r := Extend(cfg, s, [], s, Crash(survivors));
    var answer := SomeOrder(cfg, r.rows);
    acts, r := ReloadEnds(cfg, s, acts, r, answer);
    ReversedTwice(answer);
    StartHoldsPending(cfg, r);
  }

  // ---- Where the protocol loses a retry ----

  /** Nobody holds p or will put it into the deque. */
  ghost predicate Dropped(cfg: Config, s: State, p: Pair)
  {
    && p in s.unlocked && p !in s.synced
    && (if s.up then Held(s, p) == 0 else s.worker == Worker(Rest, []) && Reloading(cfg, s))
    && (forall i | 0 <= i < |s.unlocks| && s.unlocks[i].pair == p :: !Winning(s.unlocks[i]))
  }

  lemma DroppedUnlock(cfg: Config, s: State, p: Pair, i: nat, ok: bool)
    requires Dropped(cfg, s, p) && s.up && i < |s.unlocks|
    ensures Dropped(cfg, DoUnlock(cfg, s, i, ok), p)
    ensures p in s.rows ==> p in DoUnlock(cfg, s, i, ok).rows && DoUnlock(cfg, s, i, ok).rows[p] == s.rows[p]
    ensures p !in s.rows ==> p !in DoUnlock(cfg, s, i, ok).rows
  {
    HeldUnlock(cfg, s, i, ok, p);
  }

  lemma DroppedHeld(cfg: Config, s: State, p: Pair, ok: bool)
    requires Held(s, p) == 0
    ensures Held(DoWork(cfg, s, ok), p) == 0
  {
    if s.worker.pc.CountUp? {
      HeldCountUp(cfg, s, ok, p);
    } else if s.worker.pc.MarkResolved? {
      assert DoWork(cfg, s, ok).queue == s.queue;
    } else {
      HeldMoves(cfg, s, ok, p);
    }
  }

  lemma DroppedWork(cfg: Config, s: State, p: Pair, ok: bool)
    requires Dropped(cfg, s, p) && s.up
    ensures Dropped(cfg, DoWork(cfg, s, ok), p)
    ensures p in s.rows ==> p in DoWork(cfg, s, ok).rows && DoWork(cfg, s, ok).rows[p] == s.rows[p]
    ensures p !in s.rows ==> p !in DoWork(cfg, s, ok).rows
  {
    DroppedHeld(cfg, s, p, ok);
  }

  /** Until the next crash a dropped pair stays dropped: its row is never counted up nor resolved. */
  lemma {:induction false} DroppedUntilBoot(cfg: Config, s: State, acts: seq<Action>, p: Pair)
    requires Dropped(cfg, s, p) && s.up && forall a | a in acts :: !a.Crash?
    ensures var t := Run(cfg, s, acts);
            t.up && Dropped(cfg, t, p) && (p in s.rows ==> p in t.rows && t.rows[p] == s.rows[p])
  {
    if acts == [] {
    } else {
      var a, prev := acts[|acts| - 1], acts[..|acts| - 1];
      assert a in acts && forall x | x in prev :: x in acts;
      DroppedUntilBoot(cfg, s, prev, p);
      var r := Run(cfg, s, prev);
      match a
      case UnlockStep(i, ok) => if i < |r.unlocks| { DroppedUnlock(cfg, r, p, i, ok); }
      case WorkStep(ok) => DroppedWork(cfg, r, p, ok);
      case _ =>
    }
  }

  lemma DroppedThroughReload(cfg: Config, s: State, p: Pair, a: Action)
    requires Dropped(cfg, s, p) && p !in s.rows && (a.Crash? || a.Query? || a.ReloadStep?)
    ensures Dropped(cfg, Apply(cfg, s, a), p) && p !in Apply(cfg, s, a).rows
  {
    if a.ReloadStep? && !s.up {
      ReloadingStep(cfg, s);
      ReversedTwice(s.queue);
      CountReversed(Reversed(s.queue), p);
    }
  }

  /** Without a row not even a boot brings a dropped pair back: it is never synced. */
  lemma {:induction false} DroppedForever(cfg: Config, s: State, acts: seq<Action>, p: Pair)
    requires Dropped(cfg, s, p) && p !in s.rows
    ensures Dropped(cfg, Run(cfg, s, acts), p) && p !in Run(cfg, s, acts).rows
  {
    if acts == [] {
    } else {
      var a, prev := acts[|acts| - 1], acts[..|acts| - 1];
      DroppedForever(cfg, s, prev, p);
      var r := Run(cfg, s, prev);
      match a
      case UnlockStep(i, ok) => if r.up && i < |r.unlocks| { DroppedUnlock(cfg, r, p, i, ok); }
      case WorkStep(ok) => if r.up { DroppedWork(cfg, r, p, ok); }
      case Tick(_) =>
      case _ => DroppedThroughReload(cfg, r, p, a);
    }
  }

  function Fresh(p: Pair, now: int): State
  {
    State(now, {}, {}, map[], map[], [], Worker(Rest, []), [Unlock(p, Check)], map[], 0, true, NoReload)
  }

  /** An unlock is inserted. */
  lemma UnlockInserts(cfg: Config, p: Pair, now: int) returns (acts: seq<Action>, r: State)
    ensures Run(cfg, Fresh(p, now), acts) == r == Fresh(p, now).(unlocked := {p}, unlocks := [Unlock(p, CallSteam)])
  {
    assert Run(cfg, Fresh(p, now), []) == Fresh(p, now);
    acts, r := Extend(cfg, Fresh(p, now), [], Fresh(p, now), UnlockStep(0, true));
    acts, r := Extend(cfg, Fresh(p, now), acts, r, UnlockStep(0, true));
  }

  /**
   * A crash between the unlock's INSERT and enqueueRetry: the unlock was never answered, every later
   * request is told it is already unlocked, and no run from here ever marks it as synced.
   */
  lemma CrashedUnlockIsNeverSynced(cfg: Config, p: Pair, now: int) returns (acts: seq<Action>)
    ensures Initial(Fresh(p, now))
    ensures var t := Run(cfg, Fresh(p, now), acts);
            && t.up && p in t.unlocked
            && forall more: seq<Action> :: p !in Run(cfg, t, more).synced
  {
    var r;
    acts, r := UnlockInserts(cfg, p, now);
    acts, r := Extend(cfg, Fresh(p, now), acts, r, Crash([]));
    assert PendingInOrder(cfg, r.rows, []);
    acts, r := Extend(cfg, Fresh(p, now), acts, r, Query([]));
    acts, r := Extend(cfg, Fresh(p, now), acts, r, ReloadStep);
    acts, r := Extend(cfg, Fresh(p, now), acts, r, ReloadStep);
    assert Held(r, p) == 0 && r.unlocks == [Unlock(p, Killed)];
    forall more: seq<Action> ensures p !in Run(cfg, r, more).synced { DroppedForever(cfg, r, more, p); }
  }

  lemma WorkerTakes(cfg: Config, s: State, acts: seq<Action>, r: State, p: Pair)
    returns (longer: seq<Action>, next: State)
    requires Run(cfg, s, acts) == r && r.up && r.queue == [p] && r.worker == Worker(Rest, [])
    ensures Run(cfg, s, longer) == next == r.(queue := [], worker := Worker(Call(p), []))
  {
    longer, next := Extend(cfg, s, acts, r, WorkStep(false));
    longer, next := Extend(cfg, s, longer, next, WorkStep(false));
  }

  lemma WorkerFails(cfg: Config, s: State, acts: seq<Action>, r: State, p: Pair)
    returns (longer: seq<Action>, next: State)
    requires Run(cfg, s, acts) == r && r.up && r.worker == Worker(Call(p), []) && p !in r.rows
    ensures Run(cfg, s, longer) == next == r.(calls := Bump(r.calls, p), worker := Worker(Pop, []))
  {
    longer, next := Extend(cfg, s, acts, r, WorkStep(false));
    longer, next := Extend(cfg, s, longer, next, WorkStep(false));
  }

  lemma WorkerEnds(cfg: Config, s: State, acts: seq<Action>, r: State) returns (longer: seq<Action>, next: State)
    requires Run(cfg, s, acts) == r && r.up && r.worker == Worker(Pop, []) && r.queue == []
    ensures Run(cfg, s, longer) == next == r.(worker := Worker(Rest, []))
  {
    longer, next := Extend(cfg, s, acts, r, WorkStep(false));
    longer, next := Extend(cfg, s, longer, next, WorkStep(false));
  }

  /** The push comes first, then a whole batch of the worker, then the row. */
  lemma BatchBetween(cfg: Config, p: Pair, now: int) returns (acts: seq<Action>, r: State)
    requires cfg.split
    ensures Run(cfg, Fresh(p, now), acts) == r
    ensures r == Fresh(p, now).(unlocked := {p}, rows := map[p := Row(0, false, now)], inserts := map[p := 1],
                                unlocks := [Unlock(p, Answered(true))], calls := map[p := 1])
  {
    acts, r := UnlockInserts(cfg, p, now);
    acts, r := Extend(cfg, Fresh(p, now), acts, r, UnlockStep(0, false));
    acts, r := Extend(cfg, Fresh(p, now), acts, r, UnlockStep(0, true));
    acts, r := WorkerTakes(cfg, Fresh(p, now), acts, r, p);
    acts, r := WorkerFails(cfg, Fresh(p, now), acts, r, p);
    acts, r := WorkerEnds(cfg, Fresh(p, now), acts, r);
    acts, r := Extend(cfg, Fresh(p, now), acts, r, UnlockStep(0, true));
  }

  /**
   * enqueueRetry pushes before it inserts.  When the worker pops in between, the failed item is dropped
   * for want of a row, and the row inserted afterwards waits, uncounted, for the next crash and boot.
   */
  lemma PushBeforeInsertDropsTheItem(cfg: Config, p: Pair, now: int) returns (acts: seq<Action>)
    requires cfg.split && cfg.maxRetries > 0
    ensures Initial(Fresh(p, now))
    ensures var t := Run(cfg, Fresh(p, now), acts);
            && t.up && t.crashes == 0 && t.unlocks == [Unlock(p, Answered(true))]
            && Pending(cfg, t.rows, p) && Held(t, p) == 0
            && forall more: seq<Action> | (forall a | a in more :: !a.Crash?) ::
                 p in Run(cfg, t, more).rows && Run(cfg, t, more).rows[p] == t.rows[p]
  {
    var r;
    acts, r := BatchBetween(cfg, p, now);
    assert Held(r, p) == 0;
    forall more: seq<Action> | (forall a | a in more :: !a.Crash?)
      ensures p in Run(cfg, r, more).rows && Run(cfg, r, more).rows[p] == r.rows[p]
    {
      DroppedUntilBoot(cfg, r, more, p);
    }
  }

  /** That restart brings the dropped item back: the row that waited is in the deque again. */
  lemma RestartBringsTheItemBack(cfg: Config, p: Pair, now: int, survivors: seq<Pair>)
    returns (acts: seq<Action>, more: seq<Action>)
    requires cfg.split && cfg.maxRetries > 0
    ensures var t := Run(cfg, Fresh(p, now), acts); t.up && Pending(cfg, t.rows, p) && Held(t, p) == 0
    ensures var t := Run(cfg, Run(cfg, Fresh(p, now), acts), more); t.up && Pending(cfg, t.rows, p) && Held(t, p) == 1
  {
    acts := PushBeforeInsertDropsTheItem(cfg, p, now);
    more := RestartRepairs(cfg, Run(cfg, Fresh(p, now), acts), survivors);
  }
}
