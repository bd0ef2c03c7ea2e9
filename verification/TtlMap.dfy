/** A map whose entries may expire: the meaning of every key-value store the server uses. */
module TtlMap {
  import opened Prelude

  datatype Entry<+V> = Entry(val: V, expiresAt: Option<int>)

  /** An entry is still there in the very instant it expires (time.Now().After). */
  predicate Expired<V>(e: Entry<V>, now: int) { e.expiresAt.Some? && now > e.expiresAt.value }

  /** The unexpired entries. */
  function Live<K, V>(m: map<K, Entry<V>>, now: int): map<K, Entry<V>>
  {
    map k | k in m && !Expired(m[k], now) :: m[k]
  }

  function Lookup<K, V>(m: map<K, Entry<V>>, k: K, now: int): Option<V>
  {
    if k in m && !Expired(m[k], now) then Some(m[k].val) else None
  }

  /** A stored value; a ttl that is not positive means no expiry. */
  function Stored<V>(v: V, ttl: int, now: int): Entry<V> { Entry(v, if ttl > 0 then Some(now + ttl) else None) }

  /** Expiry only removes: looking later at what is live now is looking later. */
  lemma LiveLater<K, V>(m: map<K, Entry<V>>, now: int, later: int)
    requires now <= later
    ensures Live(Live(m, now), later) == Live(m, later)
  {}
}
