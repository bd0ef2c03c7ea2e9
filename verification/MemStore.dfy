/**
 * MemStore (pkg/kvstore/memory.go): a key-value store with lazy expiry, a periodic sweeper, counters
 * and list deques.
 *
 * Expired entries linger until an access or a sweep meets them.  MemStore refines a plain map of the
 * unexpired entries: no operation can tell that they linger, nor whether or when sweeps run.
 */
module MemStore {
  import opened Prelude
  import opened TtlMap
  import opened Decimal

  type Entries = map<string, Entry<string>>
  type Lists = map<string, seq<string>>

  datatype State = State(kv: Entries, lists: Lists)

  datatype Op =
    | Get(key: string)
    | Set(key: string, val: string, ttl: int)
    | SetNX(key: string, val: string, ttl: int)
    | Del(keys: seq<string>)
    | Exists(key: string)
    | IncrBy(key: string, n: int)
    | Expire(key: string, ttl: int)
    | LPush(key: string, val: string)
    | RPush(key: string, val: string)
    | RPop(key: string)
    | Sweep

  datatype Reply = Done | Value(val: string) | NotFound | Flag(yes: bool) | Number(n: int) | NotANumber
                 | Swept(swept: nat, remaining: nat)

  // ---- Reference: a plain map of entries that are all live ----

  function ListAt(lists: Lists, key: string): seq<string> { if key in lists then lists[key] else [] }

  function Names(keys: seq<string>): set<string> { set k | k in keys }

  /** An operation on plain maps, as if there were no expired entries at all. */
  function Plain(s: State, op: Op, now: int): (State, Reply)
  {
    match op
    case Get(k) => (s, if k in s.kv then Value(s.kv[k].val) else NotFound)
    case Set(k, v, ttl) => (s.(kv := s.kv[k := Stored(v, ttl, now)]), Done)
    case SetNX(k, v, ttl) =>
      if k in s.kv then (s, Flag(false)) else (s.(kv := s.kv[k := Stored(v, ttl, now)]), Flag(true))
    case Del(ks) => (s.(kv := s.kv - Names(ks)), Done)
    case Exists(k) => (s, Flag(k in s.kv))
    case IncrBy(k, n) =>
      if k !in s.kv then (s.(kv := s.kv[k := Entry(FormatInt(n), None)]), Number(n))
      else
        (match ParseInt(s.kv[k].val)
         case None => (s, NotANumber)
         case Some(v) => (s.(kv := s.kv[k := Entry(FormatInt(Wrap(v + n)), s.kv[k].expiresAt)]), Number(Wrap(v + n))))
    case Expire(k, ttl) =>
      (if k !in s.kv then s
       else if ttl < 0 then s.(kv := s.kv - {k})
       else s.(kv := s.kv[k := Entry(s.kv[k].val, Some(now + ttl))]), Done)
    case LPush(k, v) => (s.(lists := s.lists[k := [v] + ListAt(s.lists, k)]), Done)
    case RPush(k, v) => (s.(lists := s.lists[k := ListAt(s.lists, k) + [v]]), Done)
    case RPop(k) =>
      var items := ListAt(s.lists, k);
      if items == [] then (s, NotFound)
      else (s.(lists := s.lists[k := items[..|items| - 1]]), Value(items[|items| - 1]))
    case Sweep => (s, Swept(0, |s.kv|))
  }

  /** The state with only its unexpired entries. */
  function View(s: State, now: int): State { s.(kv := Live(s.kv, now)) }

  // ---- The store itself ----

  class MemStore {
    var kv: Entries
    var lists: Lists

    function Contents(): State
      reads this
    {
      State(kv, lists)
    }

    constructor ()
      ensures Contents() == State(map[], map[])
    {
      kv, lists := map[], map[];
    }

    /** getEntry: an expired entry is deleted when it is met. */
    method GetEntry(key: string, now: int) returns (e: Option<Entry<string>>)
      modifies this`kv
      ensures e == if key in old(kv) && !Expired(old(kv)[key], now) then Some(old(kv)[key]) else None
      ensures Live(kv, now) == Live(old(kv), now)
      ensures key in kv <==> e.Some?
      ensures e.Some? ==> kv == old(kv)
    {
      if key !in kv {
        return None;
      }
      if Expired(kv[key], now) {
        kv := kv - {key};
        return None;
      }
      return Some(kv[key]);
    }

    method Get(key: string, now: int) returns (r: Reply)
      modifies this`kv
      ensures (View(Contents(), now), r) == Plain(View(old(Contents()), now), Op.Get(key), now)
    {
      var e := GetEntry(key, now);
      return if e.None? then NotFound else Value(e.value.val);
    }

    method Set(key: string, val: string, ttl: int, now: int) returns (r: Reply)
      modifies this`kv
      ensures (View(Contents(), now), r) == Plain(View(old(Contents()), now), Op.Set(key, val, ttl), now)
    {
      PutIsLive(kv, key, Stored(val, ttl, now), now);
      kv := kv[key := Stored(val, ttl, now)];
      return Done;
    }

    method SetNX(key: string, val: string, ttl: int, now: int) returns (r: Reply)
      modifies this`kv
      ensures (View(Contents(), now), r) == Plain(View(old(Contents()), now), Op.SetNX(key, val, ttl), now)
    {
      var e := GetEntry(key, now);
      if e.Some? {
        return Flag(false);
      }
      PutIsLive(kv, key, Stored(val, ttl, now), now);
      kv := kv[key := Stored(val, ttl, now)];
      return Flag(true);
    }

    method Del(keys: seq<string>, now: int) returns (r: Reply)
      modifies this`kv
      ensures (View(Contents(), now), r) == Plain(View(old(Contents()), now), Op.Del(keys), now)
    {
      for i := 0 to |keys|
        invariant kv == old(kv) - Names(keys[..i])
      {
        kv := kv - {keys[i]};
      }
      assert keys[..|keys|] == keys;
      DropIsLive(old(kv), Names(keys), now);
      return Done;
    }

    method Exists(key: string, now: int) returns (r: Reply)
      modifies this`kv
      ensures (View(Contents(), now), r) == Plain(View(old(Contents()), now), Op.Exists(key), now)
    {
      var e := GetEntry(key, now);
      return Flag(e.Some?);
    }

    method IncrBy(key: string, n: int, now: int) returns (r: Reply)
      modifies this`kv
      ensures (View(Contents(), now), r) == Plain(View(old(Contents()), now), Op.IncrBy(key, n), now)
    {
      var e := GetEntry(key, now);
      if e.None? {
        PutIsLive(kv, key, Entry(FormatInt(n), None), now);
        kv := kv[key := Entry(FormatInt(n), None)];
        return Number(n);
      }
      var cur := ParseInt(e.value.val);
      if cur.None? {
        return NotANumber;
      }
      var newVal := Wrap(cur.value + n);
      PutIsLive(kv, key, Entry(FormatInt(newVal), e.value.expiresAt), now);
      kv := kv[key := Entry(FormatInt(newVal), e.value.expiresAt)];
      return Number(newVal);
    }

    method Expire(key: string, ttl: int, now: int) returns (r: Reply)
      modifies this`kv
      ensures (View(Contents(), now), r) == Plain(View(old(Contents()), now), Op.Expire(key, ttl), now)
    {
      if key !in kv || Expired(kv[key], now) {
        return Done;
      }
      if ttl >= 0 {
        PutIsLive(kv, key, Entry(kv[key].val, Some(now + ttl)), now);
      } else {
        PutIsOver(kv, key, Entry(kv[key].val, Some(now + ttl)), now);
      }
      kv := kv[key := Entry(kv[key].val, Some(now + ttl))];
      return Done;
    }

    method LPush(key: string, val: string, now: int) returns (r: Reply)
      modifies this`lists
      ensures (View(Contents(), now), r) == Plain(View(old(Contents()), now), Op.LPush(key, val), now)
    {
      lists := lists[key := [val] + ListAt(lists, key)];
      return Done;
    }

    method RPush(key: string, val: string, now: int) returns (r: Reply)
      modifies this`lists
      ensures (View(Contents(), now), r) == Plain(View(old(Contents()), now), Op.RPush(key, val), now)
    {
      lists := lists[key := ListAt(lists, key) + [val]];
      return Done;
    }

    method RPop(key: string, now: int) returns (r: Reply)
      modifies this`lists
      ensures (View(Contents(), now), r) == Plain(View(old(Contents()), now), Op.RPop(key), now)
    {
      var items := ListAt(lists, key);
      if |items| == 0 {
        return NotFound;
      }
      lists := lists[key := items[..|items| - 1]];
      return Value(items[|items| - 1]);
    }

    /** sweep: evicts exactly the expired entries and counts both kinds. */
    method Sweep(now: int) returns (swept: nat, remaining: nat)
      modifies this`kv
      ensures kv == Live(old(kv), now)
      ensures remaining == |kv| && swept + remaining == |old(kv)|
    {
      var todo := kv.Keys;
      swept := 0;
      while todo != {}
        invariant todo <= kv.Keys
        invariant forall k | k in kv :: k in old(kv) && kv[k] == old(kv)[k] && (k in todo || !Expired(kv[k], now))
        invariant forall k | k in old(kv) && k !in kv :: Expired(old(kv)[k], now)
        invariant swept + |kv| == |old(kv)|
        decreases todo
      {
        var k :| k in todo;
        todo := todo - {k};
        if Expired(kv[k], now) {
          assert |kv - {k}| == |kv| - 1 by { assert (kv - {k}).Keys == kv.Keys - {k}; assert |kv.Keys| == |kv|; }
          kv := kv - {k};
          swept := swept + 1;
        }
      }
      remaining := |kv|;
    }
  }

  /** Writing an entry that is not already over writes it into the live map. */
  lemma PutIsLive(m: Entries, k: string, e: Entry<string>, now: int)
    requires !Expired(e, now)
    ensures Live(m[k := e], now) == Live(m, now)[k := e]
  {}

  /** Writing an entry that is already over removes the key. */
  lemma PutIsOver(m: Entries, k: string, e: Entry<string>, now: int)
    requires Expired(e, now)
    ensures Live(m[k := e], now) == Live(m, now) - {k}
  {}

  lemma DropIsLive(m: Entries, ks: set<string>, now: int)
    ensures Live(m - ks, now) == Live(m, now) - ks
  {}

  // ---- What the operations promise each other ----

  /** What a read of key k answers at a later time. */
  function ReadLater(s: State, k: string, later: int): Reply { Plain(View(s, later), Get(k), later).1 }

  predicate AllLive(s: State, now: int) { forall k | k in s.kv :: !Expired(s.kv[k], now) }

  /** A written value is read until its time to live is over, and for ever without one; nobody else notices. */
  lemma WritesAreRead(s: State, k: string, v: string, ttl: int, now: int, later: int, other: string)
    requires AllLive(s, now) && now <= later && other != k
    ensures var t := Plain(s, Set(k, v, ttl), now).0;
            && ReadLater(t, k, later) == (if ttl <= 0 || later <= now + ttl then Value(v) else NotFound)
            && ReadLater(t, other, later) == ReadLater(s, other, later)
    ensures var r := Plain(s, SetNX(k, v, ttl), now);
            && (r.1 == Flag(true) <==> ReadLater(s, k, now) == NotFound)
            && r.0 == if r.1 == Flag(true) then Plain(s, Set(k, v, ttl), now).0 else s
    ensures Plain(s, Exists(k), now) == (s, Flag(ReadLater(s, k, now).Value?))
  {}

  /** Expire moves the end of a key's life and nothing else; deleted keys are not found. */
  lemma LivesEnd(s: State, k: string, ttl: int, now: int, later: int, other: string, keys: seq<string>)
    requires AllLive(s, now) && now <= later && other != k
    ensures var t := Plain(s, Expire(k, ttl), now).0;
            && ReadLater(t, k, later) == (if k in s.kv && later <= now + ttl then Value(s.kv[k].val) else NotFound)
            && ReadLater(t, other, later) == ReadLater(s, other, later)
    ensures var t := Plain(s, Del(keys), now).0;
            ReadLater(t, k, later) == if k in keys then NotFound else ReadLater(s, k, later)
  {}

  /** A counter starts at what is added, is read back in decimal and never expires by itself. */
  lemma CountersStart(s: State, k: string, n: int, now: int, later: int)
    requires ReadLater(s, k, now) == NotFound && AllLive(s, now)
    ensures var r := Plain(s, IncrBy(k, n), now); r.1 == Number(n) && ReadLater(r.0, k, later) == Value(FormatInt(n))
  {}

  /** A list is a deque: RPop undoes RPush, and takes first what LPush put first. */
  lemma ListsAreDeques(s: State, k: string, v: string, now: int)
    ensures var r := Plain(Plain(s, RPush(k, v), now).0, RPop(k), now);
            r.1 == Value(v) && ListAt(r.0.lists, k) == ListAt(s.lists, k)
    ensures var r, first := Plain(Plain(s, LPush(k, v), now).0, RPop(k), now), Plain(s, RPop(k), now);
            if first.1 == NotFound then r.1 == Value(v) && ListAt(r.0.lists, k) == []
            else r.1 == first.1 && ListAt(r.0.lists, k) == [v] + ListAt(first.0.lists, k)
  {
    var items := ListAt(s.lists, k);
    assert (items + [v])[..|items|] == items;
    if items == [] {
      assert [v] + items == [v];
    } else {
      assert ([v] + items)[..|items|] == [v] + items[..|items| - 1];
    }
  }

  // ---- Whole runs ----

  datatype Call = Call(op: Op, now: int)

  /** What the methods above promise about one call. */
  predicate Behaves(s: State, c: Call, t: State, r: Reply)
  {
    if c.op.Sweep? then View(t, c.now) == View(s, c.now)
    else (View(t, c.now), r) == Plain(View(s, c.now), c.op, c.now)
  }

  /** A run of the store: the states it goes through and what it replies, under a monotone clock. */
  predicate Trace(calls: seq<Call>, states: seq<State>, replies: seq<Reply>)
  {
    && |states| == |calls| + 1 && |replies| == |calls|
    && (forall i | 0 <= i < |calls| :: Behaves(states[i], calls[i], states[i + 1], replies[i]))
    && (forall i, j | 0 <= i < j < |calls| :: calls[i].now <= calls[j].now)
  }

  function EraseSweeps(calls: seq<Call>): seq<Call>
  {
    if calls == [] then []
    else if calls[|calls| - 1].op.Sweep? then EraseSweeps(Front(calls))
    else EraseSweeps(Front(calls)) + [calls[|calls| - 1]]
  }

  /** The replies to everything but the sweeps. */
  function Observed(calls: seq<Call>, replies: seq<Reply>): seq<Reply>
    requires |replies| == |calls|
  {
    if calls == [] then []
    else if calls[|calls| - 1].op.Sweep? then Observed(Front(calls), Front(replies))
    else Observed(Front(calls), Front(replies)) + [replies[|replies| - 1]]
  }

  /** The plain map over a run: entries vanish as they expire, and each operation sees only live ones. */
  function PlainRun(s: State, calls: seq<Call>): (State, seq<Reply>)
  {
    if calls == [] then (s, [])
    else
      var c := calls[|calls| - 1];
      var before := PlainRun(s, Front(calls));
      var after := Plain(View(before.0, c.now), c.op, c.now);
      (after.0, before.1 + [after.1])
  }

  lemma SameViewLater(s: State, t: State, now: int, later: int)
    requires View(s, now) == View(t, now) && now <= later
    ensures View(s, later) == View(t, later)
  {
    LiveLater(s.kv, now, later);
    LiveLater(t.kv, now, later);
    assert Live(s.kv, now) == View(s, now).kv == Live(t.kv, now);
    assert s.lists == View(s, now).lists == t.lists;
  }

  /**
   * Main result: in every run with sweeps anywhere, all other replies are those of the plain map on the
   * run without its sweeps.
   */
  lemma {:induction false} StoreRefinesPlainMap(calls: seq<Call>, states: seq<State>, replies: seq<Reply>)
    requires Trace(calls, states, replies)
    ensures Observed(calls, replies) == PlainRun(states[0], EraseSweeps(calls)).1
    ensures calls != [] ==> var now := calls[|calls| - 1].now;
                            View(states[|calls|], now) == View(PlainRun(states[0], EraseSweeps(calls)).0, now)
    ensures calls == [] ==> states[0] == PlainRun(states[0], EraseSweeps(calls)).0
  {
    if calls == [] {
    } else {
      var n := |calls| - 1;
      var c := calls[n];
      var prev := EraseSweeps(Front(calls));
      TracePrefix(calls, states, replies);
      StoreRefinesPlainMap(Front(calls), Front(states), Front(replies));
      var p := PlainRun(states[0], prev).0;
      assert View(states[n], c.now) == View(p, c.now) by {
        if n > 0 { SameViewLater(states[n], p, calls[n - 1].now, c.now); }
      }
      assert Behaves(states[n], c, states[n + 1], replies[n]);
      if !c.op.Sweep? {
        assert Front(EraseSweeps(calls)) == prev;
      }
    }
  }

  lemma TracePrefix(calls: seq<Call>, states: seq<State>, replies: seq<Reply>)
    requires Trace(calls, states, replies) && calls != []
    ensures Trace(Front(calls), Front(states), Front(replies)) && Front(states)[0] == states[0]
  {
    forall i | 0 <= i < |Front(calls)|
      ensures Behaves(Front(states)[i], Front(calls)[i], Front(states)[i + 1], Front(replies)[i])
    {
      assert Behaves(states[i], calls[i], states[i + 1], replies[i]);
    }
  }

  /** A counter holding n below the 64-bit limit counts on to n + 1 and keeps its expiry. */
  lemma CounterCounts(s: State, key: string, n: int, now: int)
    requires key in s.kv && s.kv[key].val == FormatInt(n) && InRange(n) && InRange(n + 1)
    ensures Plain(s, Op.IncrBy(key, 1), now)
         == (s.(kv := s.kv[key := Entry(FormatInt(n + 1), s.kv[key].expiresAt)]), Number(n + 1))
  {
    ParseFormat(n);
  }
}
