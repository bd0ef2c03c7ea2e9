/** incrRateLimit (internal/middleware/ratelimit.go) as it runs on a MemStore, one clock reading a store call. */
module Limiter {
  import opened Prelude
  import opened TtlMap
  import opened Decimal
  import M = MemStore

  /** The key holds count n and will expire. */
  predicate Counting(kv: M.Entries, key: string, n: int)
  {
    key in kv && kv[key].val == FormatInt(n) && kv[key].expiresAt.Some?
  }

  /**
   * Counts one request without interference.  The clock may pass the key's expiry between the calls; in
   * every case the count continues a live window or starts one at 1, and the key has a TTL afterwards.
   */
  method IncrRateLimit(kv: M.MemStore, key: string, window: nat, t1: int, t2: int, t3: int, ghost n: int)
    returns (count: int)
    requires window > 0 && t1 <= t2 <= t3 && 1 <= n < MAX64
    requires key in Live(kv.kv, t1) ==> Counting(kv.kv, key, n)
    modifies kv
    ensures var was := Live(old(kv.kv), t1);
            count == if key in was && key in Live(old(kv.kv), t2) then n + 1 else 1
    ensures Counting(kv.kv, key, count)
    ensures kv.kv[key].expiresAt.value == if key !in Live(old(kv.kv), t1) then t1 + window
                                          else if key in Live(old(kv.kv), t2) then old(kv.kv[key].expiresAt.value)
                                          else t3 + window
  {
    ghost var start := kv.kv;
    LiveLater(start, t1, t2);
    var created := kv.SetNX(key, FormatInt(1), window, t1);
    ghost var afterSet := kv.kv;
    if created.yes {
      assert key in Live(kv.kv, t1);
      return 1;
    }
    assert Live(afterSet, t1) == Live(start, t1);
    LiveLater(afterSet, t1, t2);
    assert key in Live(start, t1) && Live(start, t1)[key] == start[key];
    ParseFormat(n);
    var r := kv.IncrBy(key, 1, t2);
    if r.n == 1 {
      assert Live(kv.kv, t2)[key] == Entry(FormatInt(1), None);
      var armed := kv.Expire(key, window, t3);
      assert key in Live(kv.kv, t3);
    } else {
      assert Live(start, t2)[key] == start[key];
      assert key in Live(kv.kv, t2);
    }
    return r.n;
  }
}
