/**
 * Idle requests are invisible: sync and state requests between two logins decide nothing.
 *
 * Accrual and growth are lazy, so how often a client happens to poll must not matter.  Erasing every
 * Sync and GetState from a run leaves each pull and vow with the same answer and, once both players
 * are settled at the same time, the same player.
 */
module IdleRequests {
  import opened Prelude
  import opened Economy
  import opened Inventory
  import Cairn

  predicate Idle(r: Request) { r.Sync? || r.GetState? }

  /** The run without its idle requests. */
  function Erase(calls: seq<Call>): seq<Call>
  {
    if calls == [] then []
    else Erase(Front(calls)) + (if Idle(Last(calls).req) then [] else [Last(calls)])
  }

  /** What the pulls and vows of a run answered, in order. */
  ghost function Decisions(c: Rules, seed: Cairn.Seed, p: Player, calls: seq<Call>): seq<Outcome>
    requires c.Valid()
  {
    if calls == [] then []
    else
      Decisions(c, seed, p, Front(calls))
      + (if Idle(Last(calls).req) then [] else [Answer(c, seed, p, calls)])
  }

  predicate NoLogin(calls: seq<Call>) { forall k | k in calls :: !k.req.Login? }

  /** A log without the columns that record how much was pending at the time. */
  function Redact(log: seq<LogRow>): (r: seq<LogRow>)
    ensures |r| == |log|
  {
    seq(|log|, i requires 0 <= i < |log| => log[i].(before := 0.0, accrued := 0.0))
  }

  /** The player with everything pending credited up to now. */
  function Settle(c: Rules, seed: Cairn.Seed, p: Player, now: int): Player
    requires c.Valid()
  {
    p.(balance := Available(p, now), lastSync := Some(now),
       growth := Cairn.Grow(c.cairn, seed, p.growth, now), log := Redact(p.log))
  }

  /** Two players that no request at or after now can tell apart. */
  predicate Same(c: Rules, seed: Cairn.Seed, p: Player, q: Player, now: int)
    requires c.Valid()
  {
    Ready(c, p, now) && Ready(c, q, now) && Settle(c, seed, p, now) == Settle(c, seed, q, now)
  }

  lemma AccrualLater(p: Player, now: int, later: int)
    requires p.lastSync.Some? && p.lastSync.value <= now <= later && p.rate >= 0.0
    ensures Available(p, later) == Available(p, now) + (later - now) as real * p.rate
  {
    assert (later - p.lastSync.value) as real * p.rate
        == (now - p.lastSync.value) as real * p.rate + (later - now) as real * p.rate;
  }

  /** Being the same survives the passing of time. */
  lemma SameLater(c: Rules, seed: Cairn.Seed, p: Player, q: Player, now: int, later: int)
    requires c.Valid() && Same(c, seed, p, q, now) && now <= later
    ensures Same(c, seed, p, q, later)
  {
    AccrualLater(p, now, later);
    AccrualLater(q, now, later);
    assert p.rate == Settle(c, seed, p, now).rate == q.rate;
    assert Available(p, now) == Settle(c, seed, p, now).balance == Available(q, now);
    assert Cairn.Grow(c.cairn, seed, p.growth, now) == Cairn.Grow(c.cairn, seed, q.growth, now);
    Cairn.GrowTwice(c.cairn, seed, p.growth, now, later);
    Cairn.GrowTwice(c.cairn, seed, q.growth, now, later);
    var sp, sq := Settle(c, seed, p, later), Settle(c, seed, q, later);
    assert sp.log == Settle(c, seed, p, now).log && sq.log == Settle(c, seed, q, now).log;
    assert sp.inventory == Settle(c, seed, p, now).inventory && sp.nextGacha == Settle(c, seed, p, now).nextGacha;
  }

  lemma GrowAtOnce(c: Cairn.Config, seed: Cairn.Seed, g: Cairn.Growth, now: int)
    requires c.Valid() && g.anchor.Some?
    ensures Cairn.Grow(c, seed, Cairn.Grow(c, seed, g, now), now) == Cairn.Grow(c, seed, g, now)
  {
    Cairn.GrowTwice(c, seed, g, now, now);
  }

  /** An idle request credits what was pending, and nothing else. */
  lemma IdleStep(c: Rules, seed: Cairn.Seed, p: Player, r: Request, now: int)
    requires c.Valid() && Ready(c, p, now) && Idle(r)
    ensures Settle(c, seed, Step(c, seed, p, r, now).0, now) == Settle(c, seed, p, now)
  {
    GrowAtOnce(c.cairn, seed, p.growth, now);
  }

  lemma RedactOneMore(log: seq<LogRow>, row: LogRow)
    ensures Redact(log + [row]) == Redact(log) + [row.(before := 0.0, accrued := 0.0)]
  {}

  /** A spend depends on the stored balance and clock only through what is available. */
  lemma SameSpend(c: Rules, seed: Cairn.Seed, p: Player, q: Player, now: int, kind: Kind, id: int, delay: nat,
                  cost: real)
    requires c.Valid() && Same(c, seed, p, q, now)
    ensures var a, b := Spend(p, now, kind, id, delay, cost), Spend(q, now, kind, id, delay, cost);
            a.Some? == b.Some?
            && (a.Some? ==> a.value.balance == b.value.balance && Redact(a.value.log) == Redact(b.value.log))
  {
    assert Available(p, now) == Settle(c, seed, p, now).balance == Available(q, now);
    assert Redact(p.log) == Settle(c, seed, p, now).log == Redact(q.log);
    var after := Available(p, now) - cost;
    RedactOneMore(p.log, LogRow(kind, id, now + delay, cost, after - p.balance + cost, p.balance, after));
    RedactOneMore(q.log, LogRow(kind, id, now + delay, cost, after - q.balance + cost, q.balance, after));
  }

  /** A pull or vow answers the same for both players and leaves them the same. */
  lemma SameStep(c: Rules, seed: Cairn.Seed, p: Player, q: Player, r: Request, now: int)
    requires c.Valid() && Same(c, seed, p, q, now) && !Idle(r) && !r.Login?
    ensures Step(c, seed, p, r, now).1 == Step(c, seed, q, r, now).1
    ensures Same(c, seed, Step(c, seed, p, r, now).0, Step(c, seed, q, r, now).0, now)
  {
    ReadyStep(c, seed, p, r, now);
    ReadyStep(c, seed, q, r, now);
    var sp, sq := Settle(c, seed, p, now), Settle(c, seed, q, now);
    assert p.rate == sp.rate == q.rate && p.nextGacha == sp.nextGacha == q.nextGacha;
    assert p.inventory == sp.inventory == q.inventory;
    assert Cairn.Grow(c.cairn, seed, p.growth, now) == sp.growth == Cairn.Grow(c.cairn, seed, q.growth, now);
    match r
    case Pull(slot, item, id, delay) => SameSpend(c, seed, p, q, now, GachaPull, id, delay, c.pullCost);
    case Pray(_, _, _, _, _, id, delay) => SameSpend(c, seed, p, q, now, VowPrayer, id, delay, r.nPower);
  }

  /** How the erased run ends, by the kind of the last call. */
  lemma EraseLast(calls: seq<Call>)
    requires calls != []
    ensures Idle(Last(calls).req) ==> Erase(calls) == Erase(Front(calls))
    ensures !Idle(Last(calls).req)
            ==> Erase(calls) != [] && Front(Erase(calls)) == Erase(Front(calls)) && Last(Erase(calls)) == Last(calls)
  {}

  /** The erased run is a run: its clock is monotone too. */
  lemma {:induction false} ErasedIsMonotone(start: int, calls: seq<Call>)
    requires Monotone(start, calls)
    ensures Monotone(start, Erase(calls)) && Until(start, Erase(calls)) <= Until(start, calls)
  {
    if calls == [] {
    } else {
      ErasedIsMonotone(start, Front(calls));
      EraseLast(calls);
    }
  }

  /**
   * Main result: from a ready player, any run without logins and the same run without its idle
   * requests decide every pull and vow alike and end in the same settled player.
   */
  lemma {:induction false} IdleRequestsAreInvisible(c: Rules, seed: Cairn.Seed, p: Player, start: int, calls: seq<Call>)
    requires c.Valid() && Ready(c, p, start) && Monotone(start, calls) && NoLogin(calls)
    ensures Decisions(c, seed, p, calls) == Decisions(c, seed, p, Erase(calls))
    ensures Same(c, seed, Final(c, seed, p, calls), Final(c, seed, p, Erase(calls)), Until(start, calls))
  {
    if calls == [] {
    } else {
      var prev, k := Front(calls), Last(calls);
      assert k in calls && forall x | x in prev :: x in calls;
      IdleRequestsAreInvisible(c, seed, p, start, prev);
      var a, b := Final(c, seed, p, prev), Final(c, seed, p, Erase(prev));
      SameLater(c, seed, a, b, Until(start, prev), k.now);
      SameAfterCall(c, seed, p, calls, a, b);
      SameLater(c, seed, Final(c, seed, p, calls), Final(c, seed, p, Erase(calls)), k.now, Until(start, calls));
    }
  }

  lemma SameAfterCall(c: Rules, seed: Cairn.Seed, p: Player, calls: seq<Call>, a: Player, b: Player)
    requires c.Valid() && calls != [] && !Last(calls).req.Login?
    requires a == Final(c, seed, p, Front(calls)) && b == Final(c, seed, p, Erase(Front(calls)))
    requires Same(c, seed, a, b, Last(calls).now)
    requires Decisions(c, seed, p, Front(calls)) == Decisions(c, seed, p, Erase(Front(calls)))
    ensures Decisions(c, seed, p, calls) == Decisions(c, seed, p, Erase(calls))
    ensures Same(c, seed, Final(c, seed, p, calls), Final(c, seed, p, Erase(calls)), Last(calls).now)
  {
    var k := Last(calls);
    EraseLast(calls);
    if Idle(k.req) {
      IdleStep(c, seed, a, k.req, k.now);
      ReadyStep(c, seed, a, k.req, k.now);
    } else {
      SameStep(c, seed, a, b, k.req, k.now);
    }
  }

  // ---- Where the claim stops: a login discards what a sync would have saved ----

  /** A sync just before a login is invisible exactly when nothing was pending. */
  lemma SyncBeforeLogin(c: Rules, seed: Cairn.Seed, p: Player, now: int)
    requires c.Valid() && Ready(c, p, now)
    ensures LoginStep(SyncStep(c, seed, p, true, now), now) == LoginStep(p, now)
       <==> Accrual(p, now) == 0.0 && Cairn.Grow(c.cairn, seed, p.growth, now).slots == p.growth.slots
  {}
}
