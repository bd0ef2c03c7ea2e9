/** The gacha handler (internal/gacha/gacha.go) over a player's rows and the cached cooldown, both updated in place. */
module GachaHandler {
  import opened Prelude
  import opened TtlMap
  import opened Economy
  import C = CooldownCache
  import D = Draws
  import P = PlayerStore

  class GachaHandler {
    const store: P.PlayerStore
    var cache: Option<Entry<int>>

    constructor (store: P.PlayerStore)
      ensures this.store == store && cache == None
    {
      this.store, cache := store, None;
    }

    function Server(): C.Server
      reads this, store
    {
      C.Server(store.State(), cache)
    }

    /** getNextGachaAt: the cache first; a miss falls back to the row and refills the cache while it matters. */
    method GetNextGachaAt(now: int, kept: bool) returns (next: Option<int>)
      modifies this
      ensures next == C.NextGachaAt(old(Server()), now)
      ensures cache == C.Refilled(old(Server()), now, kept)
    {
      if cache.Some? && !Expired(cache.value, now) {
        return Some(cache.value.val);
      }
      next := store.nextGacha;
      if next.Some? && now < next.value && kept {
        cache := Some(Stored(next.value, next.value - now, now));
      }
    }

    method SetCooldown(next: int, now: int, kept: bool)
      modifies this
      ensures cache == if kept then Some(Stored(next, store.rules.cooldown, now)) else old(cache)
    {
      if kept {
        cache := Some(Stored(next, store.rules.cooldown, now));
      }
    }

    /** GET /gacha/status. */
    method Status(now: int, kept: bool) returns (canPull: bool, next: Option<int>)
      modifies this
      ensures (Server(), C.Reply.State(canPull, next)) == C.StatusStep(old(Server()), now, kept)
    {
      var nextAt := GetNextGachaAt(now, kept);
      canPull := nextAt.None? || now >= nextAt.value;
      next := if canPull then None else nextAt;
    }

    /** The transaction, and setCooldown after a commit. */
    method Commit(slot: int, n: D.Numbers, id: int, delay: nat, now: int, kept: bool) returns (answer: Outcome)
      requires store.Serving()
      modifies this, store
      ensures (store.State(), answer)
           == PullStep(store.rules, store.seed, old(store.State()), slot, D.Drawn(store.pool, D.PullRarity(n), n), id,
               delay, now)
      ensures cache == if answer.Pulled? && kept then Some(Stored(answer.next, store.rules.cooldown, now + delay))
              else old(cache)
    {
      answer := store.Pull(slot, n, id, delay, now);
      if answer.Pulled? {
        SetCooldown(answer.next, now + delay, kept);
      }
    }

    /** POST /gacha/pull. */
    method Pull(slot: int, n: D.Numbers, id: int, delay: nat, now: int, kept: bool) returns (answer: Outcome)
      requires store.Serving()
      modifies this, store
      ensures (Server(), answer)
           == C.CachedPull(store.rules, store.seed, old(Server()), slot, D.Drawn(store.pool, D.PullRarity(n), n), id,
               delay, now, kept)
    {
      ghost var before := Server();
      if slot < 0 || slot >= store.rules.cairn.slotCount {
        return Rejected(InvalidSlot);
      }
      var nextAt := GetNextGachaAt(now, kept);
      if nextAt.Some? && now < nextAt.value {
        return Rejected(CooldownActive);
      }
      answer := Commit(slot, n, id, delay, now, kept);
      C.SlowPath(store.rules, store.seed, before, slot, D.Drawn(store.pool, D.PullRarity(n), n), id, delay, now, kept,
          Server(), answer);
    }
  }
}
