/**
 * The fixed-window rate limiter (internal/middleware/ratelimit.go) under concurrency.
 *
 * Any number of requests share one counter key; each store call is one step, keys expire as the clock
 * ticks, and Expire and Del may fail.  A lifetime of the key runs from its creation to its expiry or
 * deletion.
 */
module RateLimit {
  import opened Prelude

  /** The stored counter; `life` names the lifetime and is not part of the store. */
  datatype Counter = Counter(count: nat, expires: Option<int>, life: nat)

  datatype Request =
    | Arrived
    | MustIncrement
    | MustRearm(life: nat)
    | MustDelete(life: nat)
    | Counted(count: nat, life: nat)

  /** `lost` is set once a key without a TTL has been left behind by a failed deletion. */
  datatype State = State(now: int, key: Option<Counter>, lives: nat, requests: seq<Request>, lost: bool)

  datatype Action =
    | Tick(t: int)
    | SetNX(i: nat)
    | IncrBy(i: nat)
    | Expire(i: nat, ok: bool)
    | Del(i: nat, ok: bool)

  predicate Expired(c: Counter, now: int) { c.expires.Some? && now > c.expires.value }

  predicate KeyLive(s: State) { s.key.Some? && !Expired(s.key.value, s.now) }

  function Apply(window: nat, s: State, a: Action): State
  {
    match a
    case Tick(t) => if t > s.now then s.(now := t) else s
    case SetNX(i) =>
      if i >= |s.requests| || !s.requests[i].Arrived? then s
      else if KeyLive(s) then s.(requests := s.requests[i := MustIncrement])
      else
        s.(key := Some(Counter(1, Some(s.now + window), s.lives)), lives := s.lives + 1,
           requests := s.requests[i := Counted(1, s.lives)])
    case IncrBy(i) =>
      if i >= |s.requests| || !s.requests[i].MustIncrement? then s
      else if KeyLive(s) then
        var k := s.key.value.(count := s.key.value.count + 1);
        s.(key := Some(k), requests := s.requests[i := if k.count == 1 then MustRearm(k.life)
            else Counted(k.count, k.life)])
      else
        s.(key := Some(Counter(1, None, s.lives)), lives := s.lives + 1,
            requests := s.requests[i := MustRearm(s.lives)])
    case Expire(i, ok) =>
      if i >= |s.requests| || !s.requests[i].MustRearm? then s
      else if ok then
        s.(key := if KeyLive(s) then Some(s.key.value.(expires := Some(s.now + window))) else s.key,
           requests := s.requests[i := Counted(1, s.requests[i].life)])
      else s.(requests := s.requests[i := MustDelete(s.requests[i].life)])
    case Del(i, ok) =>
      if i >= |s.requests| || !s.requests[i].MustDelete? then s
      else
        s.(key := if ok then None else s.key, lost := s.lost || !ok,
           requests := s.requests[i := Counted(1, s.requests[i].life)])
  }

  function Run(window: nat, s: State, acts: seq<Action>): State
  {
    if acts == [] then s else Apply(window, Run(window, s, acts[..|acts| - 1]), acts[|acts| - 1])
  }

  predicate Initial(s: State)
  {
    s.key.None? && s.lives == 0 && !s.lost && forall i | 0 <= i < |s.requests| :: s.requests[i].Arrived?
  }

  /** Between IncrBy having created the key and its re-arm or deletion. */
  predicate Guards(r: Request) { r.MustRearm? || r.MustDelete? }

  /** A request that has its count, and which. */
  predicate HasCount(r: Request) { Guards(r) || r.Counted? }

  function CountOf(r: Request): nat
    requires HasCount(r)
  {
    if r.Counted? then r.count else 1
  }

  // ---- A key without TTL is always somebody's to repair ----

  /** A guard's key is there, without a TTL, in the lifetime the guard created. */
  predicate GuardsOwn(s: State)
  {
    forall i | 0 <= i < |s.requests| && Guards(s.requests[i]) ::
      s.key.Some? && s.key.value.expires.None? && s.key.value.life == s.requests[i].life && !s.lost
  }

  predicate OneGuard(s: State)
  {
    forall i, j | 0 <= i < j < |s.requests| :: !(Guards(s.requests[i]) && Guards(s.requests[j]))
  }

  predicate Guarded(s: State) { exists i :: 0 <= i < |s.requests| && Guards(s.requests[i]) }

  predicate GuardInv(s: State)
  {
    && GuardsOwn(s) && OneGuard(s)
    && (s.key.Some? && s.key.value.expires.None? && !s.lost ==> Guarded(s))
    && (s.lost ==> s.key.Some? && s.key.value.expires.None?)
  }

  predicate CountsBounded(s: State)
  {
    && (s.key.Some? ==> s.key.value.life < s.lives && s.key.value.count >= 1)
    && (forall i | 0 <= i < |s.requests| && HasCount(s.requests[i]) ::
          && s.requests[i].life < s.lives && CountOf(s.requests[i]) >= 1
          && (s.key.Some? && s.requests[i].life == s.key.value.life ==> CountOf(s.requests[i]) <= s.key.value.count))
  }

  predicate CountsDistinct(s: State)
  {
    forall i, j | 0 <= i < j < |s.requests| && HasCount(s.requests[i]) && HasCount(s.requests[j])
                  && s.requests[i].life == s.requests[j].life :: CountOf(s.requests[i]) != CountOf(s.requests[j])
  }

  /** Request i has count n in this lifetime. */
  predicate HasNth(s: State, life: nat, n: nat, i: nat)
  {
    i < |s.requests| && HasCount(s.requests[i]) && s.requests[i].life == life && CountOf(s.requests[i]) == n
  }

  predicate Taken(s: State, life: nat, n: nat) { exists i: nat | i < |s.requests| :: HasNth(s, life, n, i) }

  /** Every count the key has reached is some request's. */
  predicate CountsCovered(s: State)
  {
    s.key.Some? ==> forall n: nat | 1 <= n <= s.key.value.count :: Taken(s, s.key.value.life, n)
  }

  predicate CountInv(s: State) { CountsBounded(s) && CountsDistinct(s) && CountsCovered(s) }

  lemma OneGuardStep(window: nat, s: State, a: Action)
    requires GuardInv(s) && CountsBounded(s)
    ensures OneGuard(Apply(window, s, a))
  {}

  lemma GuardStep(window: nat, s: State, a: Action)
    requires GuardInv(s) && CountsBounded(s)
    ensures GuardInv(Apply(window, s, a))
  {
    var t := Apply(window, s, a);
    OneGuardStep(window, s, a);
    if t.key.Some? && t.key.value.expires.None? && !t.lost {
      if a.IncrBy? && a.i < |s.requests| && s.requests[a.i].MustIncrement? && !KeyLive(s) {
        assert Guards(t.requests[a.i]);
      } else {
        var g :| 0 <= g < |s.requests| && Guards(s.requests[g]);
        assert Guards(t.requests[g]);
      }
    }
  }

  lemma CountsBoundedStep(window: nat, s: State, a: Action)
    requires GuardsOwn(s) && CountInv(s)
    ensures CountsBounded(Apply(window, s, a))
  {}

  lemma CountsDistinctStep(window: nat, s: State, a: Action)
    requires GuardsOwn(s) && CountInv(s)
    ensures CountsDistinct(Apply(window, s, a))
  {}

  /** A count once given stays given while its lifetime lasts. */
  lemma NthStays(window: nat, s: State, a: Action, n: nat, i: nat)
    requires s.key.Some? && HasNth(s, s.key.value.life, n, i)
    ensures HasNth(Apply(window, s, a), s.key.value.life, n, i)
  {}

  lemma CountsCoveredStep(window: nat, s: State, a: Action)
    requires GuardsOwn(s) && CountInv(s)
    ensures CountsCovered(Apply(window, s, a))
  {
    var t := Apply(window, s, a);
    if t.key.Some? {
      forall n: nat | 1 <= n <= t.key.value.count ensures Taken(t, t.key.value.life, n) {
        if s.key.Some? && t.key.value.life == s.key.value.life && n <= s.key.value.count {
          assert Taken(s, s.key.value.life, n);
          var i: nat :| i < |s.requests| && HasNth(s, s.key.value.life, n, i);
          NthStays(window, s, a, n, i);
        } else {
          assert HasNth(t, t.key.value.life, n, a.i);
        }
      }
    }
  }

  lemma CountStep(window: nat, s: State, a: Action)
    requires GuardInv(s) && CountInv(s)
    ensures CountInv(Apply(window, s, a))
  {
    CountsBoundedStep(window, s, a);
    CountsDistinctStep(window, s, a);
    CountsCoveredStep(window, s, a);
  }

  lemma {:induction false} InvRun(window: nat, s: State, acts: seq<Action>)
    requires Initial(s)
    ensures GuardInv(Run(window, s, acts)) && CountInv(Run(window, s, acts))
  {
    if acts == [] {
    } else {
      InvRun(window, s, acts[..|acts| - 1]);
      var prev := Run(window, s, acts[..|acts| - 1]);
      GuardStep(window, prev, acts[|acts| - 1]);
      CountStep(window, prev, acts[|acts| - 1]);
    }
  }

  /**
   * Over every interleaving: a counter key without a TTL exists exactly while one request is between
   * its IncrBy and the repair of that key, or after that repair has failed twice.
   */
  lemma NoTtlExactlyWhileRepairing(window: nat, s: State, acts: seq<Action>)
    requires Initial(s)
    ensures var t := Run(window, s, acts);
            (t.key.Some? && t.key.value.expires.None?) <==>
            (t.lost || Guarded(t))
  {
    InvRun(window, s, acts);
  }

  predicate NoFailedDelete(acts: seq<Action>) { forall a | a in acts :: !(a.Del? && !a.ok) }

  lemma {:induction false} NothingLost(window: nat, s: State, acts: seq<Action>)
    requires !s.lost && NoFailedDelete(acts)
    ensures !Run(window, s, acts).lost
  {
    if acts == [] {
    } else {
      var prev, a := acts[..|acts| - 1], acts[|acts| - 1];
      assert a in acts && forall x | x in prev :: x in acts;
      NothingLost(window, s, prev);
    }
  }

  /** With Expire free to fail but Del not, no caller is left pinned: at rest every key has a TTL. */
  lemma AtRestEveryKeyExpires(window: nat, s: State, acts: seq<Action>)
    requires Initial(s) && NoFailedDelete(acts)
    ensures var t := Run(window, s, acts);
            (forall i | 0 <= i < |t.requests| :: !Guards(t.requests[i])) && t.key.Some? ==> t.key.value.expires.Some?
  {
    InvRun(window, s, acts);
    NothingLost(window, s, acts);
  }

  /** When both repairs fail the key is pinned: no later step of any request, at any time, frees it. */
  lemma {:induction false} LostIsForever(window: nat, s: State, before: seq<Action>, after: seq<Action>)
    requires Initial(s) && Run(window, s, before).lost
    ensures var t := Run(window, s, before + after); t.lost && KeyLive(t) && t.key.value.expires.None?
  {
    InvRun(window, s, before + after);
    if after == [] {
      assert before + after == before;
    } else {
      LostIsForever(window, s, before, after[..|after| - 1]);
      assert (before + after)[..|before + after| - 1] == before + after[..|after| - 1];
    }
  }

  lemma Extend(window: nat, s: State, acts: seq<Action>, r: State, a: Action) returns (longer: seq<Action>, next: State)
    requires Run(window, s, acts) == r
    ensures Run(window, s, longer) == next == Apply(window, r, a)
  {
    longer, next := acts + [a], Apply(window, r, a);
    assert longer[..|acts|] == acts;
  }

  /**
   * That happens, for any window: the key expires between the SetNX and the IncrBy of a second request, and
   * both of its repairs fail.
   */
  lemma BothRepairsFail(window: nat) returns (s: State, acts: seq<Action>)
    ensures Initial(s) && Run(window, s, acts).lost
  {
    s := State(0, None, 0, [Arrived, Arrived], false);
    acts := [];
    var r := s;
    acts, r := Extend(window, s, acts, r, SetNX(0));
    acts, r := Extend(window, s, acts, r, SetNX(1));
    assert r.requests[1] == MustIncrement;
    acts, r := Extend(window, s, acts, r, Tick(window + 1));
    acts, r := Extend(window, s, acts, r, IncrBy(1));
    acts, r := Extend(window, s, acts, r, Expire(1, false));
    acts, r := Extend(window, s, acts, r, Del(1, false));
  }

  /** A key that a request creates or re-arms lives exactly one window from then. */
  lemma KeysLiveOneWindow(window: nat, s: State, i: nat, later: int)
    requires i < |s.requests| && s.now <= later
    ensures s.requests[i].Arrived? && !KeyLive(s) ==>
              (KeyLive(Apply(window, s, SetNX(i)).(now := later)) <==> later <= s.now + window)
    ensures s.requests[i].MustRearm? && KeyLive(s) ==>
              (KeyLive(Apply(window, s, Expire(i, true)).(now := later)) <==> later <= s.now + window)
  {}

  // ---- At most `limit` requests are admitted in one lifetime ----

  /** The requests of one lifetime that the limit lets through. */
  function Admitted(s: State, life: nat, limit: nat): set<nat>
  {
    set i: nat | i < |s.requests| && s.requests[i].Counted? && s.requests[i].life == life
        && s.requests[i].count <= limit
  }

  /** Distinct counts from 1 to limit leave room for at most `limit` requests. */
  lemma {:induction false} DistinctCounts(s: State, life: nat, limit: nat)
    requires CountInv(s)
    ensures |Admitted(s, life, limit)| <= limit
  {
    var all := Admitted(s, life, limit);
    if limit == 0 {
      assert all == {};
    } else {
      var below := Admitted(s, life, limit - 1);
      DistinctCounts(s, life, limit - 1);
      if i: nat :| i in all && s.requests[i].count == limit {
        forall j | j in all ensures j == i || j in below {
          if j < i { assert CountOf(s.requests[j]) != CountOf(s.requests[i]); }
          if i < j { assert CountOf(s.requests[i]) != CountOf(s.requests[j]); }
        }
        assert all == below + {i};
      } else {
        assert all == below;
      }
    }
  }

  /** Main result: over every interleaving, with keys expiring and repairs failing anywhere. */
  lemma AtMostLimitAdmitted(window: nat, s: State, acts: seq<Action>, life: nat, limit: nat)
    requires Initial(s)
    ensures |Admitted(Run(window, s, acts), life, limit)| <= limit
  {
    InvRun(window, s, acts);
    DistinctCounts(Run(window, s, acts), life, limit);
  }

  /** Covered counts from 1 to n need n requests. */
  lemma {:induction false} CoveredCounts(s: State, life: nat, n: nat)
    requires forall k: nat | 1 <= k <= n :: Taken(s, life, k)
    requires forall i | 0 <= i < |s.requests| :: !Guards(s.requests[i])
    ensures |Admitted(s, life, n)| >= n
  {
    if n == 0 {
    } else {
      CoveredCounts(s, life, n - 1);
      var below, all := Admitted(s, life, n - 1), Admitted(s, life, n);
      assert Taken(s, life, n);
      var i: nat :| i < |s.requests| && HasNth(s, life, n, i);
      assert i in all && i !in below && below <= all;
      MoreThan(below, all, i);
    }
  }

  lemma MoreThan(a: set<nat>, b: set<nat>, x: nat)
    requires a <= b && x in b && x !in a
    ensures |b| >= |a| + 1
  {
    var rest := b - {x};
    assert a <= rest && |rest| == |b| - 1;
    SmallerSubset(a, rest);
  }

  lemma {:induction false} SmallerSubset(a: set<nat>, b: set<nat>)
    requires a <= b
    ensures |a| <= |b|
    decreases a
  {
    if a == {} {
    } else {
      var x :| x in a;
      SmallerSubset(a - {x}, b - {x});
    }
  }

  /**
   * Main result: while a key lives and nobody is repairing it, exactly as many of its requests have been
   * admitted as have been counted, up to the limit.
   */
  lemma ExactlyTheLimitIsAdmitted(window: nat, s: State, acts: seq<Action>, limit: nat)
    requires Initial(s)
    ensures var t := Run(window, s, acts);
            t.key.Some? && (forall i | 0 <= i < |t.requests| :: !Guards(t.requests[i]))
            ==> |Admitted(t, t.key.value.life, limit)| == Min(limit, t.key.value.count)
  {
    InvRun(window, s, acts);
    var t := Run(window, s, acts);
    if t.key.Some? && forall i | 0 <= i < |t.requests| :: !Guards(t.requests[i]) {
      var life, count := t.key.value.life, t.key.value.count;
      DistinctCounts(t, life, limit);
      if limit <= count {
        CoveredCounts(t, life, limit);
      } else {
        CoveredCounts(t, life, count);
        DistinctCounts(t, life, count);
        assert Admitted(t, life, limit) == Admitted(t, life, count);
      }
    }
  }
}
