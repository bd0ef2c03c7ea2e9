/**
 * The retry worker's loops (internal/achievement/worker.go) over the deque of a MemStore: how a batch
 * keeps the order of its items, and how a boot rebuilds the deque.
 */
module RetryWorker {
  import opened Prelude
  import opened RetryQueue
  import opened RetryRecovery
  import M = MemStore

  const RETRY_QUEUE: string := "ach:retry"

  datatype Db = Db(players: set<string>, unlocked: set<Pair>, rows: map<Pair, Row>, synced: set<Pair>)

  // ---- Items ----

  function Item(player: string, achievement: string): string { player + ":" + achievement }

  /** strings.SplitN(item, ":", 2), when it yields two parts. */
  function Split(item: string): Option<Pair>
  {
    if item == "" then None
    else if item[0] == ':' then Some(Pair("", item[1..]))
    else
      match Split(item[1..])
      case None => None
      case Some(ids) => Some(Pair([item[0]] + ids.player, ids.achievement))
  }

  lemma {:induction false} SplitFirst(player: string, achievement: string)
    requires ':' !in player
    ensures Split(Item(player, achievement)) == Some(Pair(player, achievement))
  {
    if player == "" {
      assert Item(player, achievement)[1..] == achievement;
    } else {
      SplitFirst(player[1..], achievement);
      assert Item(player, achievement)[1..] == Item(player[1..], achievement);
      assert Item(player, achievement)[0] == player[0] && player == [player[0]] + player[1..];
    }
  }

  lemma {:induction false} SplitHasNoColon(item: string)
    ensures Split(item).Some?
            ==> ':' !in Split(item).value.player
                && item == Item(Split(item).value.player, Split(item).value.achievement)
    ensures Split(item).None? <==> ':' !in item
  {
    if item == "" || item[0] == ':' {
    } else {
      SplitHasNoColon(item[1..]);
    }
  }

  /** An item names its row again exactly when the player id has no colon; achievements may have some. */
  lemma ItemRoundTrips(player: string, achievement: string)
    ensures Split(Item(player, achievement)) == Some(Pair(player, achievement)) <==> ':' !in player
  {
    if ':' !in player { SplitFirst(player, achievement); } else { SplitHasNoColon(Item(player, achievement)); }
  }

  // ---- One item ----

  /** Whether the worker asks Steam about this item at all. */
  predicate Asks(db: Db, item: string) { Split(item).Some? && Split(item).value.player in db.players }

  /** What one item does to the tables, and whether it comes back next tick. */
  function One(cfg: Config, db: Db, item: string, ok: bool, now: int): (Db, bool)
  {
    if !Asks(db, item) then (db, false)
    else
      var ids := Split(item).value;
      if ok then
        (db.(rows := if ids in db.rows && !db.rows[ids].resolved then db.rows[ids := db.rows[ids].(resolved := true)]
            else db.rows,
             synced := if ids in db.unlocked then db.synced + {ids} else db.synced), false)
      else if Pending(cfg, db.rows, ids) then
        var row := Row(db.rows[ids].count + 1, false, now + cfg.tickInterval);
        (db.(rows := db.rows[ids := row]), row.count < cfg.maxRetries)
      else (db, false)
  }

  /** An item comes back exactly when its row is still pending; dropping one otherwise loses nothing. */
  lemma ComesBackWhilePending(cfg: Config, db: Db, item: string, ok: bool, now: int)
    requires Asks(db, item)
    ensures One(cfg, db, item, ok, now).1
            <==> !ok && Pending(cfg, One(cfg, db, item, ok, now).0.rows, Split(item).value)
    ensures ok ==> !Pending(cfg, One(cfg, db, item, ok, now).0.rows, Split(item).value)
    ensures forall ids: Pair | ids != Split(item).value ::
              Pending(cfg, One(cfg, db, item, ok, now).0.rows, ids) <==> Pending(cfg, db.rows, ids)
  {}

  /** A whole batch, one item after the other; the i-th item gets Steam's i-th answer. */
  function Batch(cfg: Config, db: Db, items: seq<string>, steam: nat -> bool, now: int): (r: (Db, seq<bool>))
    ensures |r.1| == |items|
  {
    if items == [] then (db, [])
    else
      var before := Batch(cfg, db, items[..|items| - 1], steam, now);
      var last := One(cfg, before.0, items[|items| - 1], steam(|items| - 1), now);
      (last.0, before.1 + [last.1])
  }

  function Kept(items: seq<string>, flags: seq<bool>): seq<string>
    requires |items| == |flags|
  {
    if items == [] then []
    else
      var front := Kept(items[..|items| - 1], flags[..|items| - 1]);
      if flags[|items| - 1] then front + [items[|items| - 1]] else front
  }

  /**
   * Undisturbed, the worker's statements in RetryQueue do to the tables and to what is requeued exactly
   * what processing the item does.
   */
  lemma StatementsAreProcessOne(cfg: Config, s: State, db: Db, ok: bool)
    requires s.worker.pc.Call? && s.worker.pc.item.player in db.players && ':' !in s.worker.pc.item.player
    requires db.rows == s.rows && db.synced == s.synced && db.unlocked == s.unlocked
    ensures var p := s.worker.pc.item;
            var t := if ok then DoWork(cfg, DoWork(cfg, DoWork(cfg, s, ok), ok), ok)
                else DoWork(cfg, DoWork(cfg, s, ok), ok);
            var r := One(cfg, db, Item(p.player, p.achievement), ok, s.now);
            && t.rows == r.0.rows && t.synced == r.0.synced && t.unlocked == r.0.unlocked && t.queue == s.queue
            && t.worker == Worker(Pop, if r.1 then s.worker.toRequeue + [p] else s.worker.toRequeue)
  {
    var p := s.worker.pc.item;
    SplitFirst(p.player, p.achievement);
    assert Split(Item(p.player, p.achievement)).value == p;
    var called := DoWork(cfg, s, ok);
    if ok {
      var marked := DoWork(cfg, called, ok);
      assert marked.worker.pc == MarkResolved(p) && marked.rows == s.rows;
    }
  }

  // ---- Deques ----

  // RPop yields what a list holds in reverse.

  function Flat(arrivals: seq<seq<string>>): seq<string>
  {
    if arrivals == [] then [] else Flat(arrivals[..|arrivals| - 1]) + arrivals[|arrivals| - 1]
  }

  function Queue(s: M.State): seq<string> { M.ListAt(s.lists, RETRY_QUEUE) }

  /** Unlock requests LPush their items one after the other. */
  method PushAll(kv: M.MemStore, items: seq<string>, now: int)
    modifies kv`lists
    ensures Reversed(Queue(kv.Contents())) == Reversed(Queue(old(kv.Contents()))) + items
  {
    for i := 0 to |items|
      invariant Reversed(Queue(kv.Contents())) == Reversed(Queue(old(kv.Contents()))) + items[..i]
    {
      ReversedPush(Queue(kv.Contents()), items[i]);
      var _ := kv.LPush(RETRY_QUEUE, items[i], now);
    }
  }

  /** The RPush loop: from the last failed item to the first. */
  method PushBackAll(kv: M.MemStore, toRequeue: seq<string>, now: int)
    modifies kv`lists
    ensures Reversed(Queue(kv.Contents())) == toRequeue + Reversed(Queue(old(kv.Contents())))
  {
    var i := |toRequeue|;
    while i > 0
      invariant 0 <= i <= |toRequeue|
      invariant Reversed(Queue(kv.Contents())) == toRequeue[i..] + Reversed(Queue(old(kv.Contents())))
    {
      i := i - 1;
      ReversedPush(Queue(kv.Contents()), toRequeue[i]);
      var _ := kv.RPush(RETRY_QUEUE, toRequeue[i], now);
    }
  }

  /** The tables the worker updates. */
  class Tables {
    var db: Db

    constructor (db: Db)
      ensures this.db == db
    {
      this.db := db;
    }

    /** processOne. */
    method ProcessOne(cfg: Config, item: string, ok: bool, now: int) returns (requeue: bool)
      modifies this
      ensures (db, requeue) == One(cfg, old(db), item, ok, now)
    {
      var parts := Split(item);
      if parts.None? || parts.value.player !in db.players {
        return false;
      }
      var ids := parts.value;
      if !ok {
        if !Pending(cfg, db.rows, ids) {
          return false;
        }
        var newCount := db.rows[ids].count + 1;
        db := db.(rows := db.rows[ids := Row(newCount, false, now + cfg.tickInterval)]);
        return newCount < cfg.maxRetries;
      }
      if ids in db.unlocked {
        db := db.(synced := db.synced + {ids});
      }
      if ids in db.rows && !db.rows[ids].resolved {
        db := db.(rows := db.rows[ids := db.rows[ids].(resolved := true)]);
      }
      return false;
    }
  }

  /** RPop takes the item that is first in pop order. */
  method PopItem(kv: M.MemStore, now: int) returns (r: M.Reply)
    modifies kv`lists
    ensures r.NotFound? || r.Value?
    ensures r.NotFound? ==> Queue(kv.Contents()) == Queue(old(kv.Contents())) == []
    ensures r.Value? ==> Reversed(Queue(old(kv.Contents()))) == [r.val] + Reversed(Queue(kv.Contents()))
                         && |Queue(kv.Contents())| < |Queue(old(kv.Contents()))|
  {
    r := kv.RPop(RETRY_QUEUE, now);
  }

  /** The batch so far: what has been attempted, with what answers, and what is to be pushed back. */
  datatype Progress = Progress(attempts: seq<string>, flags: seq<bool>, toRequeue: seq<string>)

  ghost predicate Tried(cfg: Config, before: Db, steam: nat -> bool, now: int, done: Progress, db: Db)
  {
    && |done.flags| == |done.attempts|
    && (db, done.flags) == Batch(cfg, before, done.attempts, steam, now)
    && done.toRequeue == Kept(done.attempts, done.flags)
  }

  function OneMore(done: Progress, item: string, requeue: bool): Progress
  {
    Progress(done.attempts + [item], done.flags + [requeue], if requeue then done.toRequeue + [item]
        else done.toRequeue)
  }

  lemma TriedOneMore(cfg: Config, before: Db, steam: nat -> bool, now: int, done: Progress, db: Db, item: string)
    requires Tried(cfg, before, steam, now, done, db)
    ensures var r := One(cfg, db, item, steam(|done.attempts|), now);
            Tried(cfg, before, steam, now, OneMore(done, item, r.1), r.0)
  {
    var r := One(cfg, db, item, steam(|done.attempts|), now);
    var next := OneMore(done, item, r.1);
    assert next.attempts[..|done.attempts|] == done.attempts && next.flags[..|done.attempts|] == done.flags;
  }

  /** Attempted so far, and still in the deque: what was there at first and what has arrived. */
  ghost predicate InOrder(start: seq<string>, arrivals: seq<seq<string>>, k: nat, attempts: seq<string>,
                          pops: seq<string>)
    requires k <= |arrivals|
  {
    attempts + pops == start + Flat(arrivals[..k])
  }

  lemma OneMoreArrival(start: seq<string>, arrivals: seq<seq<string>>, k: nat, attempts: seq<string>, pops: seq<string>)
    requires k < |arrivals| && InOrder(start, arrivals, k, attempts, pops)
    ensures InOrder(start, arrivals, k + 1, attempts, pops + arrivals[k])
  {
    assert arrivals[..k + 1][..k] == arrivals[..k];
    assert attempts + (pops + arrivals[k]) == (attempts + pops) + arrivals[k];
    assert start + (Flat(arrivals[..k]) + arrivals[k]) == (start + Flat(arrivals[..k])) + arrivals[k];
  }

  lemma OneMoreAttempt(start: seq<string>, arrivals: seq<seq<string>>, k: nat, attempts: seq<string>, x: string,
                       rest: seq<string>)
    requires k <= |arrivals| && InOrder(start, arrivals, k, attempts, [x] + rest)
    ensures InOrder(start, arrivals, k, attempts + [x], rest)
  {
    assert attempts + ([x] + rest) == (attempts + [x]) + rest;
  }

  /** What arrives before the next pop. */
  method Arrive(kv: M.MemStore, arrivals: seq<seq<string>>, k: nat, now: int, ghost start: seq<string>,
                ghost attempts: seq<string>)
    returns (next: nat)
    requires k <= |arrivals| && InOrder(start, arrivals, k, attempts, Reversed(Queue(kv.Contents())))
    modifies kv`lists
    ensures k <= next <= |arrivals| && InOrder(start, arrivals, next, attempts, Reversed(Queue(kv.Contents())))
    ensures next == k ==> Queue(kv.Contents()) == Queue(old(kv.Contents()))
  {
    next := k;
    if k < |arrivals| {
      OneMoreArrival(start, arrivals, k, attempts, Reversed(Queue(kv.Contents())));
      PushAll(kv, arrivals[k], now);
      next := k + 1;
    }
  }

  /** The pop loop of processBatch: it ends when a pop finds the deque empty. */
  method TryAll(kv: M.MemStore, tables: Tables, cfg: Config, steam: nat -> bool, arrivals: seq<seq<string>>, now: int)
    returns (done: Progress, inTime: nat)
    modifies kv`lists, tables
    ensures inTime <= |arrivals| && Queue(kv.Contents()) == []
    ensures InOrder(Reversed(Queue(old(kv.Contents()))), arrivals, inTime, done.attempts, [])
    ensures Tried(cfg, old(tables.db), steam, now, done, tables.db)
  {
    ghost var start := Reversed(Queue(kv.Contents()));
    done, inTime := Progress([], [], []), 0;
    assert InOrder(start, arrivals, 0, [], start);
    while true
      invariant inTime <= |arrivals|
      invariant InOrder(start, arrivals, inTime, done.attempts, Reversed(Queue(kv.Contents())))
      invariant Tried(cfg, old(tables.db), steam, now, done, tables.db)
      decreases |arrivals| - inTime, |Queue(kv.Contents())|
    {
      inTime := Arrive(kv, arrivals, inTime, now, start, done.attempts);
      var item := PopItem(kv, now);
      if item.NotFound? {
        break;
      }
      TriedOneMore(cfg, old(tables.db), steam, now, done, tables.db, item.val);
      OneMoreAttempt(start, arrivals, inTime, done.attempts, item.val, Reversed(Queue(kv.Contents())));
      var requeue := tables.ProcessOne(cfg, item.val, steam(|done.attempts|), now);
      done := OneMore(done, item.val, requeue);
    }
  }

  /**
   * processBatch.  arrivals[k] is LPushed just before the k-th pop, or, once a pop has found the deque
   * empty, before the failed items are pushed back.  Every item of the deque and every arrival in time is
   * attempted once, in pop order; afterwards the failed items come first, in that order, ahead of all
   * later arrivals.
   */
  method ProcessBatch(kv: M.MemStore, tables: Tables, cfg: Config, steam: nat -> bool, arrivals: seq<seq<string>>,
                      now: int)
    returns (attempts: seq<string>, flags: seq<bool>, inTime: nat)
    modifies kv`lists, tables
    ensures inTime <= |arrivals|
    ensures attempts == Reversed(Queue(old(kv.Contents()))) + Flat(arrivals[..inTime])
    ensures (tables.db, flags) == Batch(cfg, old(tables.db), attempts, steam, now)
    ensures |flags| == |attempts|
    ensures Reversed(Queue(kv.Contents())) == Kept(attempts, flags) + Flat(arrivals[inTime..])
  {
    var done: Progress;
    done, inTime := TryAll(kv, tables, cfg, steam, arrivals, now);
    attempts, flags := done.attempts, done.flags;
    assert attempts + [] == attempts;
    PushRest(kv, arrivals, inTime, now);
    PushBackAll(kv, done.toRequeue, now);
  }

  /** What arrives after the last pop. */
  method PushRest(kv: M.MemStore, arrivals: seq<seq<string>>, first: nat, now: int)
    requires first <= |arrivals|
    modifies kv`lists
    ensures Reversed(Queue(kv.Contents())) == Reversed(Queue(old(kv.Contents()))) + Flat(arrivals[first..])
  {
    for k := first to |arrivals|
      invariant Reversed(Queue(kv.Contents())) == Reversed(Queue(old(kv.Contents()))) + Flat(arrivals[first..k])
    {
      PushAll(kv, arrivals[k], now);
      assert arrivals[first..k + 1][..k - first] == arrivals[first..k];
    }
    assert arrivals[first..|arrivals|] == arrivals[first..];
  }

  /** SELECT ... WHERE resolved_at IS NULL AND retry_count < maxRetries ORDER BY next_retry_at. */
  method QueryPending(cfg: Config, rows: map<Pair, Row>) returns (items: seq<Pair>)
    ensures PendingInOrder(cfg, rows, items)
  {
    items := [];
    var todo := rows.Keys;
    while todo != {}
      invariant todo <= rows.Keys
      invariant DueAmong(cfg, rows, rows.Keys - todo, items)
      decreases todo
    {
      var p :| p in todo;
      var seen := rows.Keys - (todo - {p});
      assert seen - {p} == rows.Keys - todo;
      OneMoreDue(cfg, rows, items, seen, p);
      items := WithRow(cfg, rows, items, p);
      todo := todo - {p};
    }
    forall q: Pair ensures Count(items, q) == Once(Pending(cfg, rows, q)) {}
  }

  function Items(rows: seq<Pair>): (r: seq<string>)
    ensures |r| == |rows|
    ensures forall i | 0 <= i < |rows| :: r[i] == Item(rows[i].player, rows[i].achievement)
  {
    if rows == [] then [] else Items(rows[..|rows| - 1]) + [Item(rows[|rows| - 1].player, rows[|rows| - 1].achievement)]
  }

  /** The drain loop: whatever the deque held is gone. */
  method Drain(kv: M.MemStore, now: int)
    modifies kv`lists
    ensures Queue(kv.Contents()) == []
  {
    while true
      decreases |Queue(kv.Contents())|
    {
      var gone := PopItem(kv, now);
      if gone.NotFound? {
        break;
      }
    }
  }

  /**
   * ReloadPendingRetries: whatever the deque held, popping it afterwards yields the items of exactly the
   * pending rows, each once, in next_retry_at order.
   */
  method ReloadPendingRetries(kv: M.MemStore, tables: Tables, cfg: Config, now: int)
    returns (n: nat, ghost rows: seq<Pair>)
    modifies kv`lists
    ensures PendingInOrder(cfg, tables.db.rows, rows) && n == |rows|
    ensures Reversed(Queue(kv.Contents())) == Items(rows)
  {
    var answer := QueryPending(cfg, tables.db.rows);
    rows := answer;
    var items: seq<string> := [];
    for i := 0 to |answer|
      invariant items == Items(answer[..i])
    {
      assert answer[..i + 1][..i] == answer[..i];
      items := items + [Item(answer[i].player, answer[i].achievement)];
    }
    assert answer[..|answer|] == answer;
    Drain(kv, now);
    PushAll(kv, items, now);
    return |items|, rows;
  }

  /** No player id has a colon, so every item names its row. */
  predicate PlainPlayers(rows: map<Pair, Row>) { forall p | p in rows :: ':' !in p.player }

  /**
   * What the loops load is what the interleaved reload loads: item by item the deque decodes to the queue
   * with which RetryQueue starts the server on the same answer of the query.
   */
  lemma ReloadedIsMachineQueue(cfg: Config, s: State, list: seq<string>, rows: seq<Pair>) returns (acts: seq<Action>)
    requires !s.up && s.reload.NoReload? && PlainPlayers(s.rows)
    requires PendingInOrder(cfg, s.rows, rows) && Reversed(list) == Items(rows)
    ensures var t := Run(cfg, s, acts);
            && t.up && |t.queue| == |list| && PendingInOrder(cfg, t.rows, Reversed(t.queue))
            && forall i | 0 <= i < |list| :: Split(list[i]) == Some(t.queue[i])
  {
    acts := ReloadComesUp(cfg, s, rows);
    ReversedTwice(rows);
    ReversedTwice(list);
    forall i | 0 <= i < |list| ensures Split(list[i]) == Some(Reversed(rows)[i]) {
      ReversedAt(rows, i);
      ReversedAt(Reversed(list), i);
      var p := rows[|rows| - 1 - i];
      assert p in s.rows;
      ItemRoundTrips(p.player, p.achievement);
    }
  }
}
