/**
 * The achievement retry queue (internal/achievement/handler.go, internal/achievement/worker.go).
 *
 * Unlock requests and the retry worker interleave one statement at a time over a database and a deque;
 * the server may crash at any statement and boot again.  Every database statement succeeds, except that
 * marking a fresh unlock as synced may fail, and enqueueRetry is one step unless `split` is set.
 */
module RetryQueue {
  import opened Prelude

  datatype Pair = Pair(player: string, achievement: string)

  datatype Row = Row(count: nat, resolved: bool, nextRetry: int)

  /** The next statement of an unlock request. */
  datatype UnlockPc =
    | Check | Insert | CallSteam | MarkUnlock | EnqueueRetry | InsertRow | Answered(won: bool) | Killed

  datatype Unlock = Unlock(pair: Pair, pc: UnlockPc)

  /** The next statement of the worker. */
  datatype WorkerPc =
    | Rest | Pop | Call(item: Pair) | CountUp(item: Pair) | MarkSynced(item: Pair) | MarkResolved(item: Pair) | PushBack

  datatype Worker = Worker(pc: WorkerPc, toRequeue: seq<Pair>)

  /** Where ReloadPendingRetries stands at boot: the query's answer, and how many of its rows are pushed. */
  datatype Reload = NoReload | Draining(items: seq<Pair>) | Pushing(items: seq<Pair>, next: nat)

  /**
   * `rows` is achievement_retry_queue by pair, faithful as long as `inserts`, which counts the INSERTs, has
   * no pair twice.  `calls` counts the worker's Steam calls.  The deque's head is on the left.
   */
  datatype State = State(now: int, unlocked: set<Pair>, synced: set<Pair>, rows: map<Pair, Row>,
                         inserts: map<Pair, nat>, queue: seq<Pair>, worker: Worker, unlocks: seq<Unlock>,
                         calls: map<Pair, nat>, crashes: nat, up: bool, reload: Reload)

  datatype Action =
    | Tick(t: int)
    | UnlockStep(i: nat, ok: bool)
    | WorkStep(ok: bool)
    | Crash(survivors: seq<Pair>)
    | Query(answer: seq<Pair>)
    | ReloadStep

  datatype Config = Config(maxRetries: nat, tickInterval: nat, split: bool)

  predicate Pending(cfg: Config, rows: map<Pair, Row>, p: Pair)
  {
    p in rows && !rows[p].resolved && rows[p].count < cfg.maxRetries
  }

  function Count(items: seq<Pair>, p: Pair): nat
  {
    if items == [] then 0 else Count(items[..|items| - 1], p) + Once(items[|items| - 1] == p)
  }

  function Tally(m: map<Pair, nat>, p: Pair): nat { if p in m then m[p] else 0 }

  function Bump(m: map<Pair, nat>, p: Pair): map<Pair, nat> { m[p := Tally(m, p) + 1] }

  /** What one statement writes.  PushHead and NewRow together are enqueueRetry. */
  datatype Write =
    | Nothing
    | NewUnlock(p: Pair) | Sync(p: Pair)
    | PushHead(p: Pair) | NewRow(p: Pair) | Enqueue(p: Pair)
    | PopTail | PushTail(p: Pair)
    | SteamCall(p: Pair) | CountFailure(p: Pair) | Resolve(p: Pair)

  function RowsAfter(cfg: Config, s: State, w: Write): map<Pair, Row>
  {
    match w
    case NewRow(p) => s.rows[p := Row(0, false, s.now)]
    case Enqueue(p) => s.rows[p := Row(0, false, s.now)]
    case CountFailure(p) =>
      if Pending(cfg, s.rows, p) then s.rows[p := Row(s.rows[p].count + 1, false, s.now + cfg.tickInterval)] else s.rows
    case Resolve(p) => if p in s.rows then s.rows[p := s.rows[p].(resolved := true)] else s.rows
    case _ => s.rows
  }

  function QueueAfter(queue: seq<Pair>, w: Write): seq<Pair>
  {
    match w
    case PushHead(p) => [p] + queue
    case Enqueue(p) => [p] + queue
    case PushTail(p) => queue + [p]
    case PopTail => if queue == [] then queue else queue[..|queue| - 1]
    case _ => queue
  }

  function Written(cfg: Config, s: State, w: Write): State
  {
    s.(unlocked := if w.NewUnlock? then s.unlocked + {w.p} else s.unlocked,
       synced := if w.Sync? && w.p in s.unlocked then s.synced + {w.p} else s.synced,
       rows := RowsAfter(cfg, s, w),
       inserts := if w.NewRow? || w.Enqueue? then Bump(s.inserts, w.p) else s.inserts,
       queue := QueueAfter(s.queue, w),
       calls := if w.SteamCall? then Bump(s.calls, w.p) else s.calls)
  }

  /** The next statement of an unlock; `ok` is what the condition check, Steam or the update answers. */
  function UnlockCall(cfg: Config, s: State, u: Unlock, ok: bool): (Write, UnlockPc)
  {
    var p := u.pair;
    match u.pc
    case Check => (Nothing, if p in s.unlocked || !ok then Answered(false) else Insert)
    case Insert => if p in s.unlocked then (Nothing, Answered(false)) else (NewUnlock(p), CallSteam)
    case CallSteam => (Nothing, if ok then MarkUnlock else EnqueueRetry)
    case MarkUnlock => if ok then (Sync(p), Answered(true)) else (Nothing, EnqueueRetry)
    case EnqueueRetry => if cfg.split then (PushHead(p), InsertRow) else (Enqueue(p), Answered(true))
    case InsertRow => (NewRow(p), Answered(true))
    case Answered(won) => (Nothing, Answered(won))
    case Killed => (Nothing, Killed)
  }

  function DoUnlock(cfg: Config, s: State, i: nat, ok: bool): State
    requires i < |s.unlocks|
  {
    var c := UnlockCall(cfg, s, s.unlocks[i], ok);
    Written(cfg, s, c.0).(unlocks := s.unlocks[i := s.unlocks[i].(pc := c.1)])
  }

  /** Whether the UPDATE that counts a failure of p says to requeue it. */
  predicate Requeues(cfg: Config, s: State, p: Pair)
  {
    Pending(cfg, s.rows, p) && s.rows[p].count + 1 < cfg.maxRetries
  }

  /** The next statement of processBatch or processOne; `ok` is what Steam answers. */
  function WorkCall(cfg: Config, s: State, ok: bool): (Write, Worker)
  {
    var left := s.worker.toRequeue;
    match s.worker.pc
    case Rest => (Nothing, Worker(Pop, left))
    case Pop => (PopTail, Worker(if s.queue == [] then PushBack else Call(s.queue[|s.queue| - 1]), left))
    case Call(p) => (SteamCall(p), Worker(if ok then MarkSynced(p) else CountUp(p), left))
    case CountUp(p) => (CountFailure(p), Worker(Pop, if Requeues(cfg, s, p) then left + [p] else left))
    case MarkSynced(p) => (Sync(p), Worker(MarkResolved(p), left))
    case MarkResolved(p) => (Resolve(p), Worker(Pop, left))
    case PushBack =>
      if left == [] then (Nothing, Worker(Rest, left))
          else (PushTail(left[|left| - 1]), Worker(PushBack, left[..|left| - 1]))
  }

  function DoWork(cfg: Config, s: State, ok: bool): State
  {
    var c := WorkCall(cfg, s, ok);
    Written(cfg, s, c.0).(worker := c.1)
  }

  function Kill(u: Unlock): Unlock
  {
    if u.pc.Check? || u.pc.Answered? then u else u.(pc := Killed)
  }

  function KillAll(us: seq<Unlock>): (r: seq<Unlock>)
    ensures |r| == |us| && forall i | 0 <= i < |us| :: r[i] == Kill(us[i])
  {
    if us == [] then [] else KillAll(us[..|us| - 1]) + [Kill(us[|us| - 1])]
  }

  predicate DueInOrder(rows: map<Pair, Row>, items: seq<Pair>)
  {
    && (forall i | 0 <= i < |items| :: items[i] in rows)
    && (forall i, j | 0 <= i < j < |items| :: rows[items[i]].nextRetry <= rows[items[j]].nextRetry)
  }

  /** What SELECT ... ORDER BY next_retry_at may answer: the pending rows, ties in any order. */
  ghost predicate PendingInOrder(cfg: Config, rows: map<Pair, Row>, items: seq<Pair>)
  {
    DueInOrder(rows, items) && forall p: Pair :: Count(items, p) == Once(Pending(cfg, rows, p))
  }

  /** The next statement of the reload: a pop of the drain loop, one push, or the start of the server. */
  function ReloadCall(queue: seq<Pair>, reload: Reload): (seq<Pair>, Reload)
  {
    match reload
    case NoReload => (queue, NoReload)
    case Draining(items) => if queue == [] then (queue, Pushing(items, 0)) else (queue[..|queue| - 1], reload)
    case Pushing(items, next) =>
      if next < |items| then ([items[next]] + queue, Pushing(items, next + 1)) else (queue, NoReload)
  }

  function DoReload(s: State): State
  {
    var c := ReloadCall(s.queue, s.reload);
    s.(queue := c.0, reload := c.1, up := s.up || (s.reload.Pushing? && c.1.NoReload?))
  }

  /**
   * A crash kills every request in flight, loses what the worker holds and leaves anything at all in the
   * deque; it may also come at any statement of the reload, which runs before anything else does.
   */
  ghost function Apply(cfg: Config, s: State, a: Action): State
  {
    match a
    case Tick(t) => if t > s.now then s.(now := t) else s
    case UnlockStep(i, ok) => if s.up && i < |s.unlocks| then DoUnlock(cfg, s, i, ok) else s
    case WorkStep(ok) => if s.up then DoWork(cfg, s, ok) else s
    case Crash(survivors) =>
      s.(queue := survivors, worker := Worker(Rest, []), unlocks := KillAll(s.unlocks), crashes := s.crashes + 1,
         up := false, reload := NoReload)
    case Query(answer) =>
      if !s.up && s.reload.NoReload? && PendingInOrder(cfg, s.rows, answer) then s.(reload := Draining(answer)) else s
    case ReloadStep => if s.up then s else DoReload(s)
  }

  ghost function Run(cfg: Config, s: State, acts: seq<Action>): State
  {
    if acts == [] then s else Apply(cfg, Run(cfg, s, acts[..|acts| - 1]), acts[|acts| - 1])
  }

  predicate Initial(s: State)
  {
    && s.unlocked == {} && s.synced == {} && s.rows == map[] && s.inserts == map[] && s.queue == []
    && s.worker == Worker(Rest, []) && s.calls == map[] && s.crashes == 0 && s.up && s.reload == NoReload
    && forall i | 0 <= i < |s.unlocks| :: s.unlocks[i].pc.Check?
  }

  // ---- One winner, one row ----

  /** Inserted its achievement and has not put it into the table of retries. */
  predicate Winning(u: Unlock) { u.pc.CallSteam? || u.pc.MarkUnlock? || u.pc.EnqueueRetry? || u.pc.InsertRow? }

  predicate Won(u: Unlock) { Winning(u) || u.pc == Answered(true) }

  predicate OneWinner(s: State)
  {
    && (forall i | 0 <= i < |s.unlocks| && Won(s.unlocks[i]) :: s.unlocks[i].pair in s.unlocked)
    && (forall i, j | 0 <= i < j < |s.unlocks| && Won(s.unlocks[i]) && Won(s.unlocks[j]) ::
          s.unlocks[i].pair != s.unlocks[j].pair)
  }

  ghost predicate OneRow(s: State)
  {
    && (forall p: Pair :: Tally(s.inserts, p) == Once(p in s.rows))
    && (forall p: Pair | p in s.rows :: p in s.unlocked)
    && (forall i | 0 <= i < |s.unlocks| && Winning(s.unlocks[i]) :: s.unlocks[i].pair !in s.rows)
  }

  /** Some unlock has pushed p and not yet inserted its row. */
  predicate Inside(s: State, p: Pair) { exists i | 0 <= i < |s.unlocks| :: s.unlocks[i] == Unlock(p, InsertRow) }

  /** With enqueueRetry as one step nobody is inside it. */
  predicate NoneInside(s: State) { forall i | 0 <= i < |s.unlocks| :: !s.unlocks[i].pc.InsertRow? }

  /** What the worker holds. */
  predicate Holding(pc: WorkerPc) { pc.Call? || pc.CountUp? || pc.MarkSynced? || pc.MarkResolved? }

  /** How often p is in the deque or the worker's hands. */
  function Held(s: State, p: Pair): nat
  {
    Count(s.queue, p) + Count(s.worker.toRequeue, p) + Once(Holding(s.worker.pc) && s.worker.pc.item == p)
  }

  /** p is pending, or about to be. */
  predicate Due(cfg: Config, s: State, p: Pair) { Pending(cfg, s.rows, p) || Inside(s, p) }

  /** The deque and the worker hold exactly the rows that are due, each once. */
  ghost predicate Agree(cfg: Config, s: State)
  {
    forall p: Pair :: Held(s, p) == Once(Due(cfg, s, p))
  }

  /** The worker does not finish an item whose row is still missing. */
  predicate Undisturbed(s: State, a: Action)
  {
    a.WorkStep? && s.up && (s.worker.pc.CountUp? || s.worker.pc.MarkResolved?) ==> !Inside(s, s.worker.pc.item)
  }

  ghost predicate UndisturbedRun(cfg: Config, s: State, acts: seq<Action>)
  {
    acts == [] || (UndisturbedRun(cfg, s, acts[..|acts| - 1])
        && Undisturbed(Run(cfg, s, acts[..|acts| - 1]), acts[|acts| - 1]))
  }

  /** Every answered unlock is synced or has its row; resolved rows are synced. */
  ghost predicate Settled(s: State)
  {
    && (forall i | 0 <= i < |s.unlocks| && s.unlocks[i].pc == Answered(true) ::
          s.unlocks[i].pair in s.synced || s.unlocks[i].pair in s.rows)
    && (forall p: Pair | p in s.rows && s.rows[p].resolved :: p in s.synced)
    && (s.worker.pc.MarkResolved? ==> s.worker.pc.item in s.synced)
  }

  /** Calls accounted for: failures counted, a success resolved, one in flight. */
  function Accounted(s: State, p: Pair): nat
  {
    (if p in s.rows then s.rows[p].count + (if s.rows[p].resolved then 1 else 0) else 0)
    + (if Holding(s.worker.pc) && !s.worker.pc.Call? && s.worker.pc.item == p then 1 else 0)
  }

  ghost predicate CallsCounted(cfg: Config, s: State)
  {
    && (forall p: Pair :: Tally(s.calls, p) <= Accounted(s, p) + s.crashes)
    && (forall p: Pair | p in s.rows ::
          s.rows[p].count <= cfg.maxRetries && (s.rows[p].resolved ==> s.rows[p].count < cfg.maxRetries))
  }

  /** While the server is down nobody is working. */
  predicate Stopped(s: State)
  {
    s.worker == Worker(Rest, []) && forall i | 0 <= i < |s.unlocks| :: !Winning(s.unlocks[i])
  }

  /** While the reload pushes, popping the deque yields what it has pushed so far. */
  ghost predicate Reloading(cfg: Config, s: State)
  {
    match s.reload
    case NoReload => true
    case Draining(items) => PendingInOrder(cfg, s.rows, items)
    case Pushing(items, next) =>
      next <= |items| && PendingInOrder(cfg, s.rows, items) && Reversed(s.queue) == items[..next]
  }

  ghost predicate Inv(cfg: Config, s: State)
  {
    && OneWinner(s) && OneRow(s) && Settled(s) && CallsCounted(cfg, s)
    && (if s.up then Agree(cfg, s) else Stopped(s) && Reloading(cfg, s))
  }

  // ---- Every step keeps the invariant ----

  lemma OneRowUnlock(cfg: Config, s: State, i: nat, ok: bool)
    requires OneWinner(s) && OneRow(s) && i < |s.unlocks|
    ensures OneRow(DoUnlock(cfg, s, i, ok))
  {
    var t, u := DoUnlock(cfg, s, i, ok), s.unlocks[i];
    forall p: Pair ensures Tally(t.inserts, p) == Once(p in t.rows) {
      assert Tally(s.inserts, p) == Once(p in s.rows);
      assert Winning(u) && p == u.pair ==> p !in s.rows;
    }
    forall j | 0 <= j < |t.unlocks| && Winning(t.unlocks[j]) ensures t.unlocks[j].pair !in t.rows {
      assert j != i ==> t.unlocks[j] == s.unlocks[j];
      assert j != i && Winning(u) ==> s.unlocks[j].pair != u.pair;
    }
  }

  lemma OneRowWork(cfg: Config, s: State, ok: bool)
    requires OneRow(s)
    ensures OneRow(DoWork(cfg, s, ok))
  {}

  lemma CountBack(items: seq<Pair>, x: Pair, p: Pair)
    ensures Count(items + [x], p) == Count(items, p) + Once(x == p)
  {
    assert (items + [x])[..|items|] == items;
  }

  lemma {:induction false} CountFront(items: seq<Pair>, x: Pair, p: Pair)
    ensures Count([x] + items, p) == Count(items, p) + Once(x == p)
  {
    if items == [] {
      assert ([x] + items)[..0] == [];
    } else {
      CountFront(items[..|items| - 1], x, p);
      assert ([x] + items)[..|items|] == [x] + items[..|items| - 1];
    }
  }

  lemma NoneInsideStep(cfg: Config, s: State, i: nat, ok: bool)
    requires !cfg.split && NoneInside(s) && i < |s.unlocks|
    ensures NoneInside(DoUnlock(cfg, s, i, ok))
  {}

  /** Only the stepping unlock's pair enters or leaves enqueueRetry. */
  lemma InsideStep(cfg: Config, s: State, i: nat, ok: bool, p: Pair)
    requires OneWinner(s) && i < |s.unlocks|
    ensures p != s.unlocks[i].pair ==> (Inside(DoUnlock(cfg, s, i, ok), p) <==> Inside(s, p))
    ensures Inside(DoUnlock(cfg, s, i, ok), s.unlocks[i].pair) ==>
              DoUnlock(cfg, s, i, ok).unlocks[i].pc.InsertRow? || (Inside(s, s.unlocks[i].pair) && !Won(s.unlocks[i]))
    ensures Inside(s, s.unlocks[i].pair) ==> s.unlocks[i].pc.InsertRow? || !Won(s.unlocks[i])
    ensures Inside(s, s.unlocks[i].pair) && !s.unlocks[i].pc.InsertRow?
            ==> Inside(DoUnlock(cfg, s, i, ok), s.unlocks[i].pair)
  {
    var t := DoUnlock(cfg, s, i, ok);
    if Inside(s, p) {
      var j :| 0 <= j < |s.unlocks| && s.unlocks[j] == Unlock(p, InsertRow);
      assert j != i ==> t.unlocks[j] == s.unlocks[j];
    }
    if Inside(t, p) {
      var j :| 0 <= j < |t.unlocks| && t.unlocks[j] == Unlock(p, InsertRow);
      assert j != i ==> s.unlocks[j] == t.unlocks[j];
    }
    if Inside(s, s.unlocks[i].pair) {
      var j :| 0 <= j < |s.unlocks| && s.unlocks[j] == Unlock(s.unlocks[i].pair, InsertRow);
      assert j != i ==> t.unlocks[j] == s.unlocks[j] && Won(s.unlocks[j]);
    }
    if Inside(t, s.unlocks[i].pair) {
      var j :| 0 <= j < |t.unlocks| && t.unlocks[j] == Unlock(s.unlocks[i].pair, InsertRow);
      assert j != i ==> s.unlocks[j] == t.unlocks[j] && Won(s.unlocks[j]);
    }
  }

  /** Whether the statement puts p into the deque. */
  predicate Pushes(u: Unlock, p: Pair) { u.pc.EnqueueRetry? && u.pair == p }

  lemma HeldUnlock(cfg: Config, s: State, i: nat, ok: bool, p: Pair)
    requires i < |s.unlocks|
    ensures Held(DoUnlock(cfg, s, i, ok), p) == Held(s, p) + Once(Pushes(s.unlocks[i], p))
  {
    var t, q := DoUnlock(cfg, s, i, ok), s.unlocks[i].pair;
    assert t.worker == s.worker;
    if s.unlocks[i].pc.EnqueueRetry? {
      assert t.queue == [q] + s.queue;
      CountFront(s.queue, q, p);
    } else {
      assert t.queue == s.queue;
    }
  }

  /** The statement makes the row of its own pair due, and no other, exactly when it pushes. */
  lemma DueUnlock(cfg: Config, s: State, i: nat, ok: bool, p: Pair)
    requires cfg.maxRetries > 0 && OneWinner(s) && OneRow(s) && i < |s.unlocks|
    ensures Once(Due(cfg, DoUnlock(cfg, s, i, ok), p)) == Once(Due(cfg, s, p)) + Once(Pushes(s.unlocks[i], p))
  {
    var t, u := DoUnlock(cfg, s, i, ok), s.unlocks[i];
    InsideStep(cfg, s, i, ok, p);
    if p != u.pair {
      assert Pending(cfg, t.rows, p) == Pending(cfg, s.rows, p);
    } else if u.pc.EnqueueRetry? {
      assert !Pending(cfg, s.rows, p) && Winning(u);
      assert t.unlocks[i].pair == p;
      assert cfg.split ==> Inside(t, p);
    } else if u.pc.InsertRow? {
      assert Inside(s, p) && Pending(cfg, t.rows, p);
    } else {
      assert t.rows == s.rows;
    }
  }

  /** An unlock adds to what is held exactly when its row becomes due. */
  lemma AgreeUnlock(cfg: Config, s: State, i: nat, ok: bool)
    requires cfg.maxRetries > 0 && OneWinner(s) && OneRow(s) && Agree(cfg, s) && i < |s.unlocks|
    ensures Agree(cfg, DoUnlock(cfg, s, i, ok))
  {
    var t := DoUnlock(cfg, s, i, ok);
    forall p: Pair ensures Held(t, p) == Once(Due(cfg, t, p)) {
      assert Held(s, p) == Once(Due(cfg, s, p));
      HeldUnlock(cfg, s, i, ok, p);
      DueUnlock(cfg, s, i, ok, p);
    }
  }

  /** Whether the statement moves an item between the deque and the worker. */
  predicate Moves(s: State)
  {
    (s.worker.pc.Pop? && s.queue != []) || (s.worker.pc.PushBack? && s.worker.toRequeue != [])
  }

  lemma HeldMoved(cfg: Config, s: State, ok: bool, p: Pair)
    requires Moves(s)
    ensures Held(DoWork(cfg, s, ok), p) == Held(s, p)
  {
    var t, left := DoWork(cfg, s, ok), s.worker.toRequeue;
    if s.worker.pc.PushBack? {
      assert t.queue == s.queue + [left[|left| - 1]] && t.worker == Worker(PushBack, left[..|left| - 1]);
      CountBack(s.queue, left[|left| - 1], p);
    } else {
      assert t.queue == s.queue[..|s.queue| - 1] && t.worker == Worker(Call(s.queue[|s.queue| - 1]), left);
    }
  }

  /** Neither does a statement that moves nothing change what is held, short of finishing an item. */
  lemma HeldMoves(cfg: Config, s: State, ok: bool, p: Pair)
    requires !s.worker.pc.CountUp? && !s.worker.pc.MarkResolved?
    ensures Held(DoWork(cfg, s, ok), p) == Held(s, p)
  {
    if Moves(s) {
      HeldMoved(cfg, s, ok, p);
    } else {
      assert DoWork(cfg, s, ok).queue == s.queue;
    }
  }

  lemma DueMoves(cfg: Config, s: State, ok: bool, p: Pair)
    requires !s.worker.pc.CountUp? && !s.worker.pc.MarkResolved?
    ensures Due(cfg, DoWork(cfg, s, ok), p) == Due(cfg, s, p)
  {
    assert DoWork(cfg, s, ok).unlocks == s.unlocks && DoWork(cfg, s, ok).rows == s.rows;
  }

  /** A failed call lets go of the item unless it is kept for the next batch. */
  lemma HeldCountUp(cfg: Config, s: State, ok: bool, p: Pair)
    requires s.worker.pc.CountUp?
    ensures var q := s.worker.pc.item;
            Held(DoWork(cfg, s, ok), p) == Held(s, p) - Once(p == q && !Requeues(cfg, s, q))
  {
    var t, q, left := DoWork(cfg, s, ok), s.worker.pc.item, s.worker.toRequeue;
    assert t.queue == s.queue && t.worker == Worker(Pop, if Requeues(cfg, s, q) then left + [q] else left);
    CountBack(left, q, p);
  }

  lemma DueCountUp(cfg: Config, s: State, ok: bool, p: Pair)
    requires s.worker.pc.CountUp? && !Inside(s, s.worker.pc.item)
    ensures var q := s.worker.pc.item;
            Due(cfg, DoWork(cfg, s, ok), p) <==> if p == q then Requeues(cfg, s, q) else Due(cfg, s, p)
  {
    assert DoWork(cfg, s, ok).unlocks == s.unlocks;
    assert DoWork(cfg, s, ok).rows == RowsAfter(cfg, s, CountFailure(s.worker.pc.item));
  }

  /** So the item is kept exactly while its row stays pending. */
  lemma HeldCounts(cfg: Config, s: State, ok: bool, p: Pair)
    requires Agree(cfg, s) && s.worker.pc.CountUp? && !Inside(s, s.worker.pc.item)
    ensures Held(DoWork(cfg, s, ok), p) == Once(Due(cfg, DoWork(cfg, s, ok), p))
  {
    InHandIsDue(cfg, s);
    assert Held(s, p) == Once(Due(cfg, s, p));
    HeldCountUp(cfg, s, ok, p);
    DueCountUp(cfg, s, ok, p);
  }

  lemma HeldResolves(cfg: Config, s: State, ok: bool, p: Pair)
    requires Agree(cfg, s) && s.worker.pc.MarkResolved? && !Inside(s, s.worker.pc.item)
    ensures Held(DoWork(cfg, s, ok), p) == Once(Due(cfg, DoWork(cfg, s, ok), p))
  {
    InHandIsDue(cfg, s);
    assert Held(s, p) == Once(Due(cfg, s, p));
    assert DoWork(cfg, s, ok).queue == s.queue && DoWork(cfg, s, ok).unlocks == s.unlocks;
  }

  /** Finishing an item whose row is missing lets go of a pair that is still due. */
  lemma HeldLost(cfg: Config, s: State, ok: bool)
    requires Agree(cfg, s) && OneRow(s) && (s.worker.pc.CountUp? || s.worker.pc.MarkResolved?)
            && Inside(s, s.worker.pc.item)
    ensures Held(DoWork(cfg, s, ok), s.worker.pc.item) == 0 && Inside(DoWork(cfg, s, ok), s.worker.pc.item)
  {
    var q, t := s.worker.pc.item, DoWork(cfg, s, ok);
    assert Held(s, q) == Once(Due(cfg, s, q));
    var i :| 0 <= i < |s.unlocks| && s.unlocks[i] == Unlock(q, InsertRow);
    assert Winning(s.unlocks[i]);
    assert t.unlocks == s.unlocks && t.queue == s.queue && t.worker.toRequeue == s.worker.toRequeue;
  }

  /** The worker keeps the agreement exactly when it does not finish an item whose row is missing. */
  lemma AgreeWork(cfg: Config, s: State, ok: bool)
    requires Agree(cfg, s) && OneRow(s) && s.up
    ensures Agree(cfg, DoWork(cfg, s, ok)) <==> Undisturbed(s, WorkStep(ok))
  {
    var t := DoWork(cfg, s, ok);
    if Undisturbed(s, WorkStep(ok)) {
      forall p: Pair ensures Held(t, p) == Once(Due(cfg, t, p)) {
        assert Held(s, p) == Once(Due(cfg, s, p));
        if s.worker.pc.CountUp? {
          HeldCounts(cfg, s, ok, p);
        } else if s.worker.pc.MarkResolved? {
          HeldResolves(cfg, s, ok, p);
        } else {
          HeldMoves(cfg, s, ok, p);
          DueMoves(cfg, s, ok, p);
        }
      }
    } else {
      HeldLost(cfg, s, ok);
      assert Held(t, s.worker.pc.item) != Once(Due(cfg, t, s.worker.pc.item));
    }
  }

  /** What the worker has in hand is due. */
  lemma InHandIsDue(cfg: Config, s: State)
    requires Agree(cfg, s) && Holding(s.worker.pc)
    ensures Due(cfg, s, s.worker.pc.item)
  {
    assert Held(s, s.worker.pc.item) == Once(Due(cfg, s, s.worker.pc.item));
  }

  lemma SettledUnlock(cfg: Config, s: State, i: nat, ok: bool)
    requires OneWinner(s) && Settled(s) && i < |s.unlocks|
    ensures Settled(DoUnlock(cfg, s, i, ok))
  {}

  lemma SettledWork(cfg: Config, s: State, ok: bool)
    requires OneWinner(s) && OneRow(s) && Settled(s) && Agree(cfg, s)
    ensures Settled(DoWork(cfg, s, ok))
  {
    if Holding(s.worker.pc) { InHandIsDue(cfg, s); }
  }

  lemma CallsUnlock(cfg: Config, s: State, i: nat, ok: bool)
    requires cfg.maxRetries > 0 && OneRow(s) && CallsCounted(cfg, s) && i < |s.unlocks|
    ensures CallsCounted(cfg, DoUnlock(cfg, s, i, ok))
  {
    var t := DoUnlock(cfg, s, i, ok);
    forall p: Pair ensures Tally(t.calls, p) <= Accounted(t, p) + t.crashes {
      assert Tally(s.calls, p) <= Accounted(s, p) + s.crashes;
    }
  }

  /** Every statement of the worker accounts for the call it makes or finishes. */
  lemma TallyWork(cfg: Config, s: State, ok: bool, p: Pair)
    requires CallsCounted(cfg, s) && Agree(cfg, s) && s.up && Undisturbed(s, WorkStep(ok))
    ensures Tally(DoWork(cfg, s, ok).calls, p) <= Accounted(DoWork(cfg, s, ok), p) + s.crashes
  {
    var t, pc := DoWork(cfg, s, ok), s.worker.pc;
    assert Tally(s.calls, p) <= Accounted(s, p) + s.crashes;
    if pc.CountUp? || pc.MarkResolved? {
      InHandIsDue(cfg, s);
      assert Pending(cfg, s.rows, pc.item) && t.calls == s.calls && t.worker.pc == Pop;
    } else if pc.Call? {
      assert t.calls == Bump(s.calls, pc.item) && t.rows == s.rows;
      assert Holding(t.worker.pc) && !t.worker.pc.Call? && t.worker.pc.item == pc.item;
    } else {
      assert t.calls == s.calls && t.rows == s.rows;
    }
  }

  lemma CallsWork(cfg: Config, s: State, ok: bool)
    requires CallsCounted(cfg, s) && Agree(cfg, s) && s.up && Undisturbed(s, WorkStep(ok))
    ensures CallsCounted(cfg, DoWork(cfg, s, ok))
  {
    if s.worker.pc.MarkResolved? {
      InHandIsDue(cfg, s);
      assert Pending(cfg, s.rows, s.worker.pc.item);
    }
    forall p: Pair ensures Tally(DoWork(cfg, s, ok).calls, p) <= Accounted(DoWork(cfg, s, ok), p) + s.crashes {
      TallyWork(cfg, s, ok, p);
    }
  }

  // ---- Crash and boot ----

  lemma CrashWinners(cfg: Config, s: State, survivors: seq<Pair>)
    requires OneWinner(s) && OneRow(s)
    ensures var t := Apply(cfg, s, Crash(survivors)); OneWinner(t) && OneRow(t) && Stopped(t)
  {}

  lemma CrashStep(cfg: Config, s: State, survivors: seq<Pair>)
    requires Inv(cfg, s)
    ensures Inv(cfg, Apply(cfg, s, Crash(survivors)))
  {
    CrashWinners(cfg, s, survivors);
  }

  lemma {:induction false} CountReversed(items: seq<Pair>, p: Pair)
    ensures Count(Reversed(items), p) == Count(items, p)
  {
    if items == [] {
    } else {
      CountReversed(items[..|items| - 1], p);
      CountFront(Reversed(items[..|items| - 1]), items[|items| - 1], p);
    }
  }

  /** A push of the reload is popped after those before it. */
  lemma NextPushed(queue: seq<Pair>, items: seq<Pair>, k: nat)
    requires k < |items| && Reversed(queue) == items[..k]
    ensures Reversed([items[k]] + queue) == items[..k + 1]
  {
    ReversedPush(queue, items[k]);
    assert items[..k + 1] == items[..k] + [items[k]];
  }

  lemma ReloadingStep(cfg: Config, s: State)
    requires !s.up && Reloading(cfg, s)
    ensures !DoReload(s).up ==> Reloading(cfg, DoReload(s))
    ensures DoReload(s).up ==> PendingInOrder(cfg, s.rows, Reversed(s.queue)) && DoReload(s).queue == s.queue
  {
    match s.reload
    case Pushing(items, next) =>
      if next < |items| {
        NextPushed(s.queue, items, next);
      } else {
        assert items[..next] == items;
      }
    case _ =>
  }

  /** The deque and the worker hold exactly the pending rows, each once. */
  ghost predicate HoldsPending(cfg: Config, s: State)
  {
    forall p: Pair :: Held(s, p) == Once(Pending(cfg, s.rows, p))
  }

  /** Popping exactly the pending rows in order, with nobody working, is holding them. */
  lemma StartHoldsPending(cfg: Config, s: State)
    requires s.worker == Worker(Rest, []) && PendingInOrder(cfg, s.rows, Reversed(s.queue))
    ensures HoldsPending(cfg, s)
  {
    ReversedTwice(s.queue);
    forall p: Pair ensures Held(s, p) == Once(Pending(cfg, s.rows, p)) { CountReversed(Reversed(s.queue), p); }
  }

  /** The deque agrees with the table when the server starts. */
  lemma StartAgrees(cfg: Config, s: State)
    requires Stopped(s) && PendingInOrder(cfg, s.rows, Reversed(s.queue))
    ensures Agree(cfg, s)
  {
    StartHoldsPending(cfg, s);
    forall p: Pair ensures Held(s, p) == Once(Due(cfg, s, p)) {}
  }

  lemma ReloadInv(cfg: Config, s: State)
    requires Inv(cfg, s) && !s.up
    ensures Inv(cfg, DoReload(s))
  {
    ReloadingStep(cfg, s);
    if DoReload(s).up { StartAgrees(cfg, DoReload(s)); }
  }

  lemma WorkStepInv(cfg: Config, s: State, ok: bool)
    requires Inv(cfg, s) && s.up && Undisturbed(s, WorkStep(ok))
    ensures Inv(cfg, DoWork(cfg, s, ok))
  {
    OneRowWork(cfg, s, ok);
    SettledWork(cfg, s, ok);
    CallsWork(cfg, s, ok);
    AgreeWork(cfg, s, ok);
  }

  lemma UnlockStepInv(cfg: Config, s: State, i: nat, ok: bool)
    requires cfg.maxRetries > 0 && Inv(cfg, s) && s.up && i < |s.unlocks|
    ensures Inv(cfg, DoUnlock(cfg, s, i, ok))
  {
    OneRowUnlock(cfg, s, i, ok);
    SettledUnlock(cfg, s, i, ok);
    CallsUnlock(cfg, s, i, ok);
    AgreeUnlock(cfg, s, i, ok);
  }

  lemma TickInv(cfg: Config, s: State, t: int)
    requires Inv(cfg, s)
    ensures Inv(cfg, s.(now := t))
  {
    var r := s.(now := t);
    assert forall p: Pair ::
        Held(r, p) == Held(s, p) && Accounted(r, p) == Accounted(s, p) && Due(cfg, r, p) == Due(cfg, s, p);
  }

  lemma QueryInv(cfg: Config, s: State, answer: seq<Pair>)
    requires Inv(cfg, s)
    ensures Inv(cfg, Apply(cfg, s, Query(answer)))
  {
    var t := Apply(cfg, s, Query(answer));
    assert forall p: Pair ::
        Held(t, p) == Held(s, p) && Accounted(t, p) == Accounted(s, p) && Due(cfg, t, p) == Due(cfg, s, p);
  }

  lemma InvStep(cfg: Config, s: State, a: Action)
    requires cfg.maxRetries > 0 && Inv(cfg, s) && Undisturbed(s, a)
    ensures Inv(cfg, Apply(cfg, s, a))
  {
    match a
    case Tick(t) => TickInv(cfg, s, t);
    case UnlockStep(i, ok) => if s.up && i < |s.unlocks| { UnlockStepInv(cfg, s, i, ok); }
    case WorkStep(ok) => if s.up { WorkStepInv(cfg, s, ok); }
    case Crash(survivors) => CrashStep(cfg, s, survivors);
    case Query(answer) => QueryInv(cfg, s, answer);
    case ReloadStep => if !s.up { ReloadInv(cfg, s); }
  }

  lemma {:induction false} InvRun(cfg: Config, s: State, acts: seq<Action>)
    requires cfg.maxRetries > 0 && Initial(s) && UndisturbedRun(cfg, s, acts)
    ensures Inv(cfg, Run(cfg, s, acts))
  {
    if acts == [] {
    } else {
      InvRun(cfg, s, acts[..|acts| - 1]);
      InvStep(cfg, Run(cfg, s, acts[..|acts| - 1]), acts[|acts| - 1]);
    }
  }

  lemma {:induction false} NoneInsideRun(cfg: Config, s: State, acts: seq<Action>)
    requires !cfg.split && Initial(s)
    ensures NoneInside(Run(cfg, s, acts)) && UndisturbedRun(cfg, s, acts)
  {
    if acts == [] {
    } else {
      var a, r := acts[|acts| - 1], Run(cfg, s, acts[..|acts| - 1]);
      NoneInsideRun(cfg, s, acts[..|acts| - 1]);
      if a.UnlockStep? && r.up && a.i < |r.unlocks| { NoneInsideStep(cfg, r, a.i, a.ok); }
    }
  }

  /**
   * Main result, over every run with crashes anywhere: no pair is ever inserted twice, and whenever the
   * server is up the deque plus the worker's hands hold exactly the pending rows, each once.
   */
  lemma QueueAgreesWithTable(cfg: Config, s: State, acts: seq<Action>, p: Pair)
    requires !cfg.split && cfg.maxRetries > 0 && Initial(s)
    ensures var t := Run(cfg, s, acts);
            && Tally(t.inserts, p) == Once(p in t.rows)
            && (t.up ==> Held(t, p) == Once(Pending(cfg, t.rows, p)))
  {
    NoneInsideRun(cfg, s, acts);
    InvRun(cfg, s, acts);
    var t := Run(cfg, s, acts);
    assert t.up ==> Held(t, p) == Once(Due(cfg, t, p));
  }

  /**
   * With enqueueRetry as the two statements it is: a run keeps the deque in agreement with the rows that
   * are or are about to be pending as long as, and exactly as long as, the worker never finishes an item
   * between its push and the insertion of its row.
   */
  lemma AgreesExactlyWhileUndisturbed(cfg: Config, s: State, acts: seq<Action>, a: Action)
    requires cfg.maxRetries > 0 && Initial(s) && UndisturbedRun(cfg, s, acts)
    ensures Run(cfg, s, acts).up ==> Agree(cfg, Run(cfg, s, acts))
    ensures var r := Run(cfg, s, acts);
            Apply(cfg, r, a).up ==> (Agree(cfg, Apply(cfg, r, a)) <==> Undisturbed(r, a))
  {
    InvRun(cfg, s, acts);
    var r := Run(cfg, s, acts);
    if a.WorkStep? {
      if r.up { AgreeWork(cfg, r, a.ok); }
    } else {
      InvStep(cfg, r, a);
    }
  }

  /** The worker asks Steam at most maxRetries times per row, and once more for each crash. */
  lemma RetriesAreBounded(cfg: Config, s: State, acts: seq<Action>, p: Pair)
    requires cfg.maxRetries > 0 && Initial(s) && UndisturbedRun(cfg, s, acts)
    ensures var t := Run(cfg, s, acts); Tally(t.calls, p) <= cfg.maxRetries + t.crashes
  {
    InvRun(cfg, s, acts);
    var t := Run(cfg, s, acts);
    assert Tally(t.calls, p) <= Accounted(t, p) + t.crashes;
    if t.up && Holding(t.worker.pc) { InHandIsDue(cfg, t); }
  }

  /** Every unlock answered as new is synced, waiting to be retried, or dead-lettered with its count at the limit. */
  lemma NoAnsweredUnlockIsForgotten(cfg: Config, s: State, acts: seq<Action>, i: nat)
    requires cfg.maxRetries > 0 && Initial(s) && UndisturbedRun(cfg, s, acts)
    requires i < |Run(cfg, s, acts).unlocks| && Run(cfg, s, acts).unlocks[i].pc == Answered(true)
    ensures var t := Run(cfg, s, acts);
            var p := t.unlocks[i].pair;
            || p in t.synced
            || (Pending(cfg, t.rows, p) && (t.up ==> Held(t, p) == 1))
            || (p in t.rows && t.rows[p].count == cfg.maxRetries)
  {
    InvRun(cfg, s, acts);
    var t := Run(cfg, s, acts);
    assert t.up ==> Held(t, t.unlocks[i].pair) == Once(Due(cfg, t, t.unlocks[i].pair));
  }
}
