/**
 * The cached cooldown (internal/gacha/gacha.go): pulls and status requests read next_gacha_at through a
 * key-value cache and refill it.  The store may drop the entry at any time, and a write to it may fail
 * unnoticed; each handler call is one step.
 */
module CooldownCache {
  import opened Prelude
  import opened TtlMap
  import opened Economy
  import Cairn

  datatype Server = Server(player: Player, cache: Option<Entry<int>>)

  /** A request to the economy, a status request, or the store losing the entry. */
  datatype Op = Handle(req: Request) | Status | Evict

  /** `kept` says whether the cache write of this call succeeds. */
  datatype CachedCall = CachedCall(op: Op, now: int, kept: bool)

  datatype Reply = Answered(outcome: Outcome) | State(canPull: bool, next: Option<int>) | Nothing

  // ---- Handlers ----

  predicate Hit(s: Server, now: int) { s.cache.Some? && !Expired(s.cache.value, now) }

  /** getNextGachaAt: what it answers. */
  function NextGachaAt(s: Server, now: int): Option<int>
  {
    if Hit(s, now) then Some(s.cache.value.val) else s.player.nextGacha
  }

  /** getNextGachaAt: what it leaves in the cache. */
  function Refilled(s: Server, now: int, kept: bool): Option<Entry<int>>
  {
    if !Hit(s, now) && CoolingDown(s.player, now) && kept then
      Some(Stored(s.player.nextGacha.value, s.player.nextGacha.value - now, now))
    else s.cache
  }

  predicate Before(now: int, next: Option<int>) { next.Some? && now < next.value }

  /** GET /gacha/status. */
  function StatusStep(s: Server, now: int, kept: bool): (Server, Reply)
  {
    var next := NextGachaAt(s, now);
    (s.(cache := Refilled(s, now, kept)), State(!Before(now, next), if Before(now, next) then next else None))
  }

  /** POST /gacha/pull: the fast path through the cache, then the transaction with its own gate. */
  function CachedPull(c: Rules, seed: Cairn.Seed, s: Server, slot: int, item: string, id: int, delay: nat, now: int,
                      kept: bool)
    : (Server, Outcome)
    requires c.Valid()
  {
    if slot < 0 || slot >= c.cairn.slotCount then (s, Rejected(InvalidSlot))
    else
      var looked := s.(cache := Refilled(s, now, kept));
      if Before(now, NextGachaAt(s, now)) then (looked, Rejected(CooldownActive))
      else
        var r := PullStep(c, seed, s.player, slot, item, id, delay, now);
        (Server(r.0, if r.1.Pulled? && kept then Some(Stored(now + c.cooldown, c.cooldown, now + delay))
            else looked.cache), r.1)
  }

  /** Past the fast path a pull is its transaction and, after a commit, the new entry. */
  lemma SlowPath(c: Rules, seed: Cairn.Seed, s: Server, slot: int, item: string, id: int, delay: nat, now: int,
                 kept: bool,
                 t: Server, answer: Outcome)
    requires c.Valid() && 0 <= slot < c.cairn.slotCount && !Before(now, NextGachaAt(s, now))
    requires (t.player, answer) == PullStep(c, seed, s.player, slot, item, id, delay, now)
    requires t.cache == if answer.Pulled? && kept then Some(Stored(answer.next, c.cooldown, now + delay))
            else Refilled(s, now, kept)
    ensures (t, answer) == CachedPull(c, seed, s, slot, item, id, delay, now, kept)
  {}

  ghost function CachedStep(c: Rules, seed: Cairn.Seed, s: Server, call: CachedCall): (Server, Reply)
    requires c.Valid()
  {
    match call.op
    case Handle(Pull(slot, item, id, delay)) =>
      var r := CachedPull(c, seed, s, slot, item, id, delay, call.now, call.kept);
      (r.0, Answered(r.1))
    case Handle(req) =>
      var r := Step(c, seed, s.player, req, call.now);
      (s.(player := r.0), Answered(r.1))
    case Status => StatusStep(s, call.now, call.kept)
    case Evict => (s.(cache := None), Nothing)
  }

  ghost function CachedRun(c: Rules, seed: Cairn.Seed, s: Server, calls: seq<CachedCall>): Server
    requires c.Valid()
  {
    if calls == [] then s else CachedStep(c, seed, CachedRun(c, seed, s, Front(calls)), Last(calls)).0
  }

  // ---- The same run without a cache ----

  /** The economy requests among the calls. */
  function Handled(calls: seq<CachedCall>): seq<Call>
  {
    if calls == [] then []
    else if Last(calls).op.Handle? then Handled(Front(calls)) + [Call(Last(calls).op.req, Last(calls).now)]
    else Handled(Front(calls))
  }

  predicate InTimeOrder(start: int, calls: seq<CachedCall>)
  {
    calls == [] || (InTimeOrder(start, Front(calls)) && Ended(start, Front(calls)) <= Last(calls).now)
  }

  function Ended(start: int, calls: seq<CachedCall>): int
  {
    if calls == [] then start
    else Last(calls).now + if Last(calls).op.Handle? then Delay(Last(calls).op.req) else 0
  }

  /** What a status request reading only the database would answer. */
  function PlainStatus(p: Player, now: int): Reply
  {
    State(!CoolingDown(p, now), if CoolingDown(p, now) then p.nextGacha else None)
  }

  /** A live cached value is the stored one. */
  predicate Exact(s: Server, now: int) { Hit(s, now) ==> s.player.nextGacha == Some(s.cache.value.val) }

  /** A live cached value is not later than the stored one. */
  predicate Behind(s: Server, now: int)
  {
    Hit(s, now) ==> s.player.nextGacha.Some? && s.cache.value.val <= s.player.nextGacha.value
  }

  lemma BehindStep(c: Rules, seed: Cairn.Seed, s: Server, call: CachedCall, later: int)
    requires c.Valid() && Behind(s, call.now) && call.now <= later
    ensures Behind(CachedStep(c, seed, s, call).0, later)
  {}

  /** A live entry never rejects a pull that the transaction would accept. */
  lemma SamePull(c: Rules, seed: Cairn.Seed, s: Server, slot: int, item: string, id: int, delay: nat, now: int,
                 kept: bool)
    requires c.Valid() && Behind(s, now)
    ensures var r := CachedPull(c, seed, s, slot, item, id, delay, now, kept);
            (r.0.player, r.1) == PullStep(c, seed, s.player, slot, item, id, delay, now)
  {}

  lemma BehindLater(s: Server, now: int, later: int)
    requires Behind(s, now) && now <= later
    ensures Behind(s, later)
  {}

  lemma {:induction false} BehindRun(c: Rules, seed: Cairn.Seed, s: Server, start: int, calls: seq<CachedCall>)
    requires c.Valid() && Behind(s, start) && InTimeOrder(start, calls)
    ensures Behind(CachedRun(c, seed, s, calls), Ended(start, calls))
  {
    if calls == [] {
    } else {
      BehindRun(c, seed, s, start, Front(calls));
      BehindLater(CachedRun(c, seed, s, Front(calls)), Ended(start, Front(calls)), Last(calls).now);
      BehindStep(c, seed, CachedRun(c, seed, s, Front(calls)), Last(calls), Ended(start, calls));
    }
  }

  /**
   * Main result: with entries lost and cache writes failing anywhere, every run leaves the player exactly
   * as the same requests without a cache do.
   */
  lemma {:induction false} CacheChangesNoRun(c: Rules, seed: Cairn.Seed, s: Server, start: int, calls: seq<CachedCall>)
    requires c.Valid() && Behind(s, start) && InTimeOrder(start, calls)
    ensures CachedRun(c, seed, s, calls).player == Final(c, seed, s.player, Handled(calls))
  {
    if calls == [] {
    } else {
      CacheChangesNoRun(c, seed, s, start, Front(calls));
      BehindRun(c, seed, s, start, Front(calls));
      var r, call := CachedRun(c, seed, s, Front(calls)), Last(calls);
      BehindLater(r, Ended(start, Front(calls)), call.now);
      if call.op.Handle? {
        assert Front(Handled(calls)) == Handled(Front(calls));
        if call.op.req.Pull? {
          SamePull(c, seed, r, call.op.req.slot, call.op.req.item, call.op.req.id, call.op.req.delay, call.now,
              call.kept);
        }
      }
    }
  }

  /** And the last call is answered alike. */
  lemma CacheChangesNoAnswer(c: Rules, seed: Cairn.Seed, s: Server, start: int, calls: seq<CachedCall>)
    requires c.Valid() && Behind(s, start) && InTimeOrder(start, calls) && calls != [] && Last(calls).op.Handle?
    ensures CachedStep(c, seed, CachedRun(c, seed, s, Front(calls)), Last(calls)).1
         == Answered(Economy.Answer(c, seed, s.player, Handled(calls)))
  {
    var r, call := CachedRun(c, seed, s, Front(calls)), Last(calls);
    CacheChangesNoRun(c, seed, s, start, Front(calls));
    BehindRun(c, seed, s, start, Front(calls));
    BehindLater(r, Ended(start, Front(calls)), call.now);
    assert Front(Handled(calls)) == Handled(Front(calls));
    if call.op.req.Pull? {
      SamePull(c, seed, r, call.op.req.slot, call.op.req.item, call.op.req.id, call.op.req.delay, call.now, call.kept);
    }
  }

  // ---- Status requests ----

  lemma ExactStep(c: Rules, seed: Cairn.Seed, s: Server, call: CachedCall, later: int)
    requires c.Valid() && Exact(s, call.now) && call.now <= later && call.kept
    ensures Exact(CachedStep(c, seed, s, call).0, later)
  {}

  /** When no cache write fails, a live cached value always equals the stored next_gacha_at. */
  lemma {:induction false} CachedIsStored(c: Rules, seed: Cairn.Seed, s: Server, start: int, calls: seq<CachedCall>)
    requires c.Valid() && Exact(s, start) && InTimeOrder(start, calls) && forall x | x in calls :: x.kept
    ensures Exact(CachedRun(c, seed, s, calls), Ended(start, calls))
  {
    if calls == [] {
    } else {
      assert Last(calls) in calls && forall x | x in Front(calls) :: x in calls;
      CachedIsStored(c, seed, s, start, Front(calls));
      ExactStep(c, seed, CachedRun(c, seed, s, Front(calls)), Last(calls), Ended(start, calls));
    }
  }

  /**
   * What the database's status says is what a pull would meet: it can pull exactly when no pull is refused
   * for the cooldown, and otherwise it names the first second at which none is.
   */
  lemma StatusPredictsThePull(c: Rules, seed: Cairn.Seed, p: Player, slot: int, item: string, id: int, delay: nat,
                              now: int, later: int)
    requires c.Valid() && 0 <= slot < c.cairn.slotCount
    ensures var status := PlainStatus(p, now);
            && (status.canPull <==> PullStep(c, seed, p, slot, item, id, delay, now).1 != Rejected(CooldownActive))
            && (status.canPull <==> status.next.None?)
            && (status.next.Some? ==>
                  (PullStep(c, seed, p, slot, item, id, delay, later).1 == Rejected(CooldownActive)
                  <==> later < status.next.value))
  {}

  /** A status request is right exactly unless a live entry disagrees while the cooldown still runs. */
  lemma StatusIsRight(s: Server, now: int, kept: bool)
    requires Behind(s, now)
    ensures StatusStep(s, now, kept).1 == PlainStatus(s.player, now)
       <==> !(Hit(s, now) && CoolingDown(s.player, now) && s.player.nextGacha != Some(s.cache.value.val))
  {}

  /**
   * That happens: when the cache write of a pull fails and the entry of the pull before still lives, a
   * status request answers that the player can pull while every pull is rejected.
   */
  lemma AFailedWriteMisleadsStatus(c: Rules, seed: Cairn.Seed, s: Server, slot: int, item: string, id: int,
                                   delay: nat, now: int,
                                   later: int)
    requires c.Valid() && Exact(s, now)
    requires CachedPull(c, seed, s, slot, item, id, delay, now, false).1.Pulled?
    requires now <= later < now + c.cooldown && Hit(s, later)
    ensures var t := CachedPull(c, seed, s, slot, item, id, delay, now, false).0;
            && StatusStep(t, later, true).1 == State(true, None)
            && forall slot2: int, item2, id2, delay2 | 0 <= slot2 < c.cairn.slotCount ::
                 CachedPull(c, seed, t, slot2, item2, id2, delay2, later, true).1 == Rejected(CooldownActive)
  {}

  // ---- How long a status request can be misled ----

  /**
   * An entry outlives the time it holds by at most d seconds, and holds either the stored time or one that
   * a later pull has left a whole cooldown behind.
   */
  predicate Trails(c: Rules, s: Server, d: int)
  {
    s.cache.Some? ==>
      && s.cache.value.expiresAt.Some? && s.cache.value.expiresAt.value <= s.cache.value.val + d
      && s.player.nextGacha.Some?
      && (s.cache.value.val == s.player.nextGacha.value || s.cache.value.val + c.cooldown <= s.player.nextGacha.value)
  }

  predicate DelaysWithin(calls: seq<CachedCall>, d: int)
  {
    forall x | x in calls && x.op.Handle? :: Delay(x.op.req) <= d
  }

  lemma TrailsStep(c: Rules, seed: Cairn.Seed, s: Server, call: CachedCall, d: int)
    requires c.Valid() && Trails(c, s, d) && d >= 0 && (call.op.Handle? ==> Delay(call.op.req) <= d)
    ensures Trails(c, CachedStep(c, seed, s, call).0, d)
  {}

  lemma {:induction false} TrailsRun(c: Rules, seed: Cairn.Seed, s: Server, calls: seq<CachedCall>, d: int)
    requires c.Valid() && Trails(c, s, d) && d >= 0 && DelaysWithin(calls, d)
    ensures Trails(c, CachedRun(c, seed, s, calls), d)
  {
    if calls == [] {
    } else {
      assert Last(calls) in calls && forall x | x in Front(calls) :: x in calls;
      TrailsRun(c, seed, s, Front(calls), d);
      TrailsStep(c, seed, CachedRun(c, seed, s, Front(calls)), Last(calls), d);
    }
  }

  /**
   * Over every run with entries lost and writes failing anywhere: a status answer is wrong only within d
   * seconds of the last pull, when no call takes longer than d seconds from its clock reading to its write.
   */
  lemma MisledOnlyBriefly(c: Rules, seed: Cairn.Seed, s: Server, calls: seq<CachedCall>, d: int, now: int, kept: bool)
    requires c.Valid() && Trails(c, s, d) && d >= 0 && DelaysWithin(calls, d)
    requires var t := CachedRun(c, seed, s, calls); StatusStep(t, now, kept).1 != PlainStatus(t.player, now)
    ensures var next := CachedRun(c, seed, s, calls).player.nextGacha;
            next.Some? && now <= next.value - c.cooldown + d
  {
    TrailsRun(c, seed, s, calls, d);
  }

  /** One slot that takes a minute to grow back, a cooldown of a minute, and points for two pulls. */
  function MinuteRules(): Rules
  {
    Rules(Cairn.Config(1, 1, 60), 1.0, 60, 1, map[], map[])
  }

  function MinutePlayer(): Player
  {
    Player(2.0, 0.0, Some(0), None, Cairn.Growth(Some(0), map[0 := 1]), map[], [])
  }

  /** The first pull writes its entry five seconds late; the entry then lives until 65. */
  lemma FirstMinutePull(seed: Cairn.Seed)
    ensures var r := CachedPull(MinuteRules(), seed, Server(MinutePlayer(), None), 0, "a", 1, 5, 0, true);
            && r.0.cache == Some(Entry(60, Some(65)))
            && r.0.player.balance == 1.0 && r.0.player.rate == 0.0 && r.0.player.lastSync == Some(0)
            && r.0.player.nextGacha == Some(60) && r.0.player.growth == Cairn.Growth(Some(0), map[0 := 0])
  {
    var cfg := MinuteRules().cairn;
    assert Cairn.Steps(cfg, 0, 0) == 0;
    assert Cairn.GrowSteps(cfg, seed, map[0 := 1], 0, 0) == map[0 := 1];
  }

  lemma SecondMinutePull(seed: Cairn.Seed, s: Server)
    requires s.cache == Some(Entry(60, Some(65)))
    requires s.player.balance == 1.0 && s.player.rate == 0.0 && s.player.lastSync == Some(0)
    requires s.player.nextGacha == Some(60) && s.player.growth == Cairn.Growth(Some(0), map[0 := 0])
    ensures var r := CachedPull(MinuteRules(), seed, s, 0, "a", 2, 0, 60, false);
            r.1.Pulled? && r.0.cache == s.cache && r.0.player.nextGacha == Some(120)
  {}

  /** A whole run that ends in a wrong status: two pulls a cooldown apart, the second write lost, a status request. */
  lemma AMisledRun(seed: Cairn.Seed) returns (calls: seq<CachedCall>)
    ensures MinuteRules().Valid() && InTimeOrder(0, calls) && DelaysWithin(calls, 5)
    ensures var t := CachedRun(MinuteRules(), seed, Server(MinutePlayer(), None), calls);
            && CoolingDown(t.player, 61)
            && StatusStep(t, 61, true).1 == State(true, None)
  {
    var c, s := MinuteRules(), Server(MinutePlayer(), None);
    var first := CachedCall(Handle(Pull(0, "a", 1, 5)), 0, true);
    var second := CachedCall(Handle(Pull(0, "a", 2, 0)), 60, false);
    calls := [first, second];
    assert Front(calls) == [first] && Front([first]) == [];
    assert CachedRun(c, seed, s, []) == s;
    var r := CachedRun(c, seed, s, [first]);
    FirstMinutePull(seed);
    assert r == CachedPull(c, seed, s, 0, "a", 1, 5, 0, true).0;
    SecondMinutePull(seed, r);
    assert CachedRun(c, seed, s, calls) == CachedPull(c, seed, r, 0, "a", 2, 0, 60, false).0;
  }
}
