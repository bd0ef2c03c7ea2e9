/**
 * The session functions (internal/auth/session.go) and the refresh handler (internal/auth/refresh.go) as
 * they run on a MemStore without interference, all at one clock reading.  Sessions and RefreshTokens treat
 * the same calls interleaved.
 */
module SessionStore {
  import opened TtlMap
  import opened Sessions
  import M = MemStore

  type Store = map<string, Entry<string>>

  datatype Outcome = Ok | InvalidToken | InProgress | Revoked | LoginInProgress

  // ---- Keys ----

  function LockKey(player: string): string { "session:lock:" + player }

  function CurrentKey(player: string): string { "session:current:" + player }

  function SessionKey(jti: string): string { "session:" + jti }

  function RefreshKey(player: string): string { "refresh:" + player }

  function LookupKey(token: string): string { "refresh_lookup:" + token }

  function RefreshLockKey(player: string): string { "refresh_lock:" + player }

  function CooldownKey(player: string): string { "refresh_cooldown:" + player }

  /** Token ids are UUIDs; all that matters is that they have no colon. */
  predicate PlainId(jti: string) { ':' !in jti }

  /** Without colons in token ids no two kinds of keys meet. */
  lemma SessionKeysApart(player: string, jti: string)
    requires PlainId(jti)
    ensures SessionKey(jti) != LockKey(player) && SessionKey(jti) != CurrentKey(player)
            && LockKey(player) != CurrentKey(player)
  {
    if |jti| > 7 {
      assert SessionKey(jti)[12] == jti[4] && SessionKey(jti)[15] == jti[7];
    } else if |jti| > 4 {
      assert SessionKey(jti)[12] == jti[4];
    }
    assert LockKey(player)[12] == ':' && CurrentKey(player)[15] == ':';
    assert LockKey(player)[8] == 'l' && CurrentKey(player)[8] == 'c';
  }

  predicate SessionSide(k: string) { k != "" && k[0] == 's' }

  lemma RefreshKeysApart(p: string, t: string)
    ensures !SessionSide(RefreshKey(p)) && !SessionSide(LookupKey(t)) && !SessionSide(RefreshLockKey(p))
            && !SessionSide(CooldownKey(p))
    ensures RefreshKey(p) != LookupKey(t) && RefreshKey(p) != RefreshLockKey(p) && RefreshKey(p) != CooldownKey(p)
    ensures LookupKey(t) != RefreshLockKey(p) && LookupKey(t) != CooldownKey(p) && RefreshLockKey(p) != CooldownKey(p)
  {
    assert RefreshKey(p)[7] == ':' && LookupKey(t)[7] == '_' && RefreshLockKey(p)[7] == '_' && CooldownKey(p)[7] == '_';
    assert CooldownKey(p)[8] == 'c' && LookupKey(t)[8] == 'l' && RefreshLockKey(p)[8] == 'l';
    assert LookupKey(t)[10] == 'o' && RefreshLockKey(p)[10] == 'c';
  }

  lemma SessionKeysSide(player: string, jti: string)
    ensures SessionSide(LockKey(player)) && SessionSide(CurrentKey(player)) && SessionSide(SessionKey(jti))
  {}

  // ---- One session ----

  /** The session the store calls current, if any. */
  function CurrentOf(m: Store, player: string): string
  {
    if CurrentKey(player) in m then m[CurrentKey(player)].val else ""
  }

  /** The stored pointer is a token id. */
  predicate GoodPointer(m: Store, player: string) { PlainId(CurrentOf(m, player)) }

  /** The key of the session that the store calls current. */
  function Evicted(m: Store, player: string): set<string>
  {
    if CurrentOf(m, player) == "" then {} else {SessionKey(CurrentOf(m, player))}
  }

  /** jti as the player's session. */
  function Installed(m: Store, player: string, jti: string, now: int): Store
  {
    m[SessionKey(jti) := Stored("1", SESSION_TTL, now)][CurrentKey(player) := Stored(jti, SESSION_TTL, now)]
  }

  /** What is live after jti has become the player's session. */
  function Enforced(m: Store, player: string, jti: string, now: int): Store
  {
    Installed(m - Evicted(m, player), player, jti, now)
  }

  /** The lock's owner deletes the session that is current, if any. */
  method Evict(kv: M.MemStore, player: string, now: int)
    modifies kv`kv
    ensures Live(kv.kv, now) == Live(old(kv.kv), now) - Evicted(Live(old(kv.kv), now), player)
  {
    var stored := kv.Get(CurrentKey(player), now);
    if stored.Value? && stored.val != "" {
      var _ := kv.Del([SessionKey(stored.val)], now);
      assert M.Names([SessionKey(stored.val)]) == {SessionKey(stored.val)};
    }
  }

  /** It stores the new session and the pointer to it, and releases the lock. */
  method Install(kv: M.MemStore, player: string, jti: string, now: int)
    modifies kv`kv
    ensures Live(kv.kv, now) == Installed(Live(old(kv.kv), now), player, jti, now) - {LockKey(player)}
  {
    var _ := kv.Set(SessionKey(jti), "1", SESSION_TTL, now);
    var _ := kv.Set(CurrentKey(player), jti, SESSION_TTL, now);
    var _ := kv.Del([LockKey(player)], now);
    assert M.Names([LockKey(player)]) == {LockKey(player)};
  }

  /** The lock does not touch what the section reads and writes. */
  lemma LockLeavesNoTrace(m: Store, player: string, jti: string, e: Entry<string>, now: int)
    requires PlainId(jti) && GoodPointer(m, player) && LockKey(player) !in m
    ensures var locked := m[LockKey(player) := e];
            Installed(locked - Evicted(locked, player), player, jti, now) - {LockKey(player)}
            == Enforced(m, player, jti, now)
  {
    SessionKeysApart(player, jti);
    SessionKeysApart(player, CurrentOf(m, player));
    assert CurrentOf(m[LockKey(player) := e], player) == CurrentOf(m, player);
  }

  /** The lock leaves no trace, the old session is gone and the new one is current; or nothing happens. */
  method EnforceSingleSession(kv: M.MemStore, player: string, jti: string, now: int) returns (ok: bool)
    requires PlainId(jti) && GoodPointer(Live(kv.kv, now), player)
    modifies kv`kv
    ensures ok <==> LockKey(player) !in Live(old(kv.kv), now)
    ensures Live(kv.kv, now)
         == if ok then Enforced(Live(old(kv.kv), now), player, jti, now) else Live(old(kv.kv), now)
  {
    var locked := kv.SetNX(LockKey(player), "1", SESSION_LOCK_TTL, now);
    if !locked.yes {
      return false;
    }
    LockLeavesNoTrace(Live(old(kv.kv), now), player, jti, Live(kv.kv, now)[LockKey(player)], now);
    Evict(kv, player, now);
    Install(kv, player, jti, now);
    return true;
  }

  /** The player's old and new sessions: only the new one is left, and it is the current one. */
  lemma OnlyTheNewSession(m: Store, player: string, jti: string, now: int)
    requires PlainId(jti) && GoodPointer(m, player)
    ensures var t := Enforced(m, player, jti, now);
            && SessionKey(jti) in t && CurrentOf(t, player) == jti && GoodPointer(t, player)
            && (CurrentOf(m, player) != "" && CurrentOf(m, player) != jti ==> SessionKey(CurrentOf(m, player)) !in t)
            && (forall k | k in t :: k in m || k == SessionKey(jti) || k == CurrentKey(player))
  {
    SessionKeysApart(player, jti);
    SessionKeysApart(player, CurrentOf(m, player));
    var prior := CurrentOf(m, player);
    if prior != jti {
      assert SessionKey(prior)[8..] == prior && SessionKey(jti)[8..] == jti;
    }
  }

  /** logoutSession: the session goes; if it was the current one, so do the pointer and the refresh token. */
  method LogoutSession(kv: M.MemStore, player: string, jti: string, now: int)
    modifies kv`kv
    ensures Live(kv.kv, now) == Live(old(kv.kv), now)
                                - if CurrentOf(Live(old(kv.kv), now), player) == jti
                                  then {SessionKey(jti), CurrentKey(player), RefreshKey(player)} else {SessionKey(jti)}
  {
    var stored := kv.Get(CurrentKey(player), now);
    var current := if stored.Value? then stored.val else "";
    if current == jti {
      var _ := kv.Del([SessionKey(jti), CurrentKey(player), RefreshKey(player)], now);
      assert M.Names([SessionKey(jti), CurrentKey(player), RefreshKey(player)])
          == {SessionKey(jti), CurrentKey(player), RefreshKey(player)};
    } else {
      var _ := kv.Del([SessionKey(jti)], now);
      assert M.Names([SessionKey(jti)]) == {SessionKey(jti)};
    }
  }

  // ---- Refresh ----

  /** What presenting a token is answered. */
  function Answer(m: Store, token: string): Outcome
  {
    if LookupKey(token) !in m then InvalidToken
    else
      var p := m[LookupKey(token)].val;
      if RefreshLockKey(p) in m || CooldownKey(p) in m then InProgress
      else if RefreshKey(p) !in m then InvalidToken
      else if m[RefreshKey(p)].val != token then Revoked
      else if LockKey(p) in m then LoginInProgress
      else Ok
  }

  /** What is live after a token of the player has been rotated. */
  function Rotated(m: Store, player: string, token: string, jti: string, newToken: string, now: int): Store
  {
    Enforced(m, player, jti, now)
      [CooldownKey(player) := Stored("1", COOLDOWN_TTL, now)]
      [RefreshKey(player) := Stored(newToken, REFRESH_TTL, now)]
      [LookupKey(newToken) := Stored(player, REFRESH_TTL, now)]
      - {LookupKey(token)}
  }

  /** storeRefreshToken. */
  method StoreRefreshToken(kv: M.MemStore, player: string, token: string, now: int)
    modifies kv`kv
    ensures Live(kv.kv, now) == Live(old(kv.kv), now)[RefreshKey(player) := Stored(token, REFRESH_TTL, now)]
                                                     [LookupKey(token) := Stored(player, REFRESH_TTL, now)]
  {
    var _ := kv.Set(RefreshKey(player), token, REFRESH_TTL, now);
    var _ := kv.Set(LookupKey(token), player, REFRESH_TTL, now);
  }

  /** The part under the refresh lock, which the caller releases on every path. */
  method RotateLocked(kv: M.MemStore, player: string, token: string, jti: string, newToken: string, now: int)
    returns (r: Outcome)
    requires PlainId(jti) && GoodPointer(Live(kv.kv, now), player)
    modifies kv`kv
    ensures var m := Live(old(kv.kv), now);
            && r == (if CooldownKey(player) in m then InProgress
                     else if RefreshKey(player) !in m then InvalidToken
                     else if m[RefreshKey(player)].val != token then Revoked
                     else if LockKey(player) in m then LoginInProgress
                     else Ok)
            && Live(kv.kv, now) == if r == Ok then Rotated(m, player, token, jti, newToken, now) else m
  {
    var cooling := kv.Get(CooldownKey(player), now);
    if cooling.Value? {
      return InProgress;
    }
    var stored := kv.Get(RefreshKey(player), now);
    if stored.NotFound? {
      return InvalidToken;
    }
    if stored.val != token {
      return Revoked;
    }
    var ok := EnforceSingleSession(kv, player, jti, now);
    if !ok {
      return LoginInProgress;
    }
    var _ := kv.Set(CooldownKey(player), "1", COOLDOWN_TTL, now);
    StoreRefreshToken(kv, player, newToken, now);
    var _ := kv.Del([LookupKey(token)], now);
    assert M.Names([LookupKey(token)]) == {LookupKey(token)};
    return Ok;
  }

  /** Taking the refresh lock changes nothing the section looks at, and releasing it undoes it. */
  lemma RefreshLockLeavesNoTrace(m: Store, p: string, token: string, jti: string, newToken: string, now: int,
                                 e: Entry<string>)
    requires RefreshLockKey(p) !in m
    ensures var locked := m[RefreshLockKey(p) := e];
            && CurrentOf(locked, p) == CurrentOf(m, p)
            && (LockKey(p) in locked <==> LockKey(p) in m)
            && (CooldownKey(p) in locked <==> CooldownKey(p) in m)
            && (RefreshKey(p) in locked <==> RefreshKey(p) in m)
            && (RefreshKey(p) in m ==> locked[RefreshKey(p)] == m[RefreshKey(p)])
            && locked - {RefreshLockKey(p)} == m
            && Rotated(locked, p, token, jti, newToken, now) - {RefreshLockKey(p)}
                == Rotated(m, p, token, jti, newToken, now)
  {
    RefreshKeysApart(p, token);
    RefreshKeysApart(p, newToken);
    SessionKeysSide(p, jti);
    SessionKeysSide(p, CurrentOf(m, p));
  }

  /** AuthRefresh: rotates exactly when the answer is Ok, and otherwise leaves everything live as it was. */
  method AuthRefresh(kv: M.MemStore, token: string, jti: string, newToken: string, now: int) returns (r: Outcome)
    requires PlainId(jti) && forall p: string :: GoodPointer(Live(kv.kv, now), p)
    modifies kv`kv
    ensures var m := Live(old(kv.kv), now);
            && r == Answer(m, token)
            && Live(kv.kv, now) == if r == Ok then Rotated(m, m[LookupKey(token)].val, token, jti, newToken, now) else m
  {
    ghost var m := Live(kv.kv, now);
    var player := kv.Get(LookupKey(token), now);
    if player.NotFound? {
      return InvalidToken;
    }
    var p := player.val;
    assert GoodPointer(m, p);
    var acquired := kv.SetNX(RefreshLockKey(p), "1", REFRESH_LOCK_TTL, now);
    if !acquired.yes {
      return InProgress;
    }
    RefreshLockLeavesNoTrace(m, p, token, jti, newToken, now, Stored("1", REFRESH_LOCK_TTL, now));
    r := RotateLocked(kv, p, token, jti, newToken, now);
    var _ := kv.Del([RefreshLockKey(p)], now);
    assert M.Names([RefreshLockKey(p)]) == {RefreshLockKey(p)};
  }

  /** The rotated token is refused at once and for good; the new one is the one the store accepts. */
  lemma OldTokenIsRefused(m: Store, token: string, jti: string, newToken: string, now: int, later: int)
    requires PlainId(jti) && Answer(m, token) == Ok && newToken != token && now <= later <= now + REFRESH_TTL
    ensures var p := m[LookupKey(token)].val;
            var t := Live(Rotated(m, p, token, jti, newToken, now), later);
            && Answer(t, token) == InvalidToken
            && LookupKey(newToken) in t && t[LookupKey(newToken)].val == p && t[RefreshKey(p)].val == newToken
            && (later > now + COOLDOWN_TTL ==> Answer(t, newToken) == Ok)
  {
    var p := m[LookupKey(token)].val;
    RefreshKeysApart(p, token);
    RefreshKeysApart(p, newToken);
    SessionKeysSide(p, jti);
    SessionKeysSide(p, CurrentOf(m, p));
    assert LookupKey(token)[15..] == token && LookupKey(newToken)[15..] == newToken;
    SessionKeysApart(p, jti);
  }

  /** A token that a later login has replaced is told so. */
  lemma ReplacedTokenIsRevoked(m: Store, token: string, newer: string, now: int)
    requires Answer(m, token) == Ok && newer != token
    ensures var p := m[LookupKey(token)].val;
            var t := m[RefreshKey(p) := Stored(newer, REFRESH_TTL, now)]
                      [LookupKey(newer) := Stored(p, REFRESH_TTL, now)];
            Answer(t, token) == Revoked && Answer(t, newer) == Ok
  {
    var p := m[LookupKey(token)].val;
    RefreshKeysApart(p, token);
    RefreshKeysApart(p, newer);
    SessionKeysSide(p, "");
    assert LookupKey(token)[15..] == token && LookupKey(newer)[15..] == newer;
  }

  /** While another refresh, the cooldown after one, or a login is under way, a good token has to wait. */
  lemma GoodTokensWait(m: Store, token: string, e: Entry<string>)
    requires Answer(m, token) == Ok
    ensures var p := m[LookupKey(token)].val;
            && Answer(m[RefreshLockKey(p) := e], token) == InProgress
            && Answer(m[CooldownKey(p) := e], token) == InProgress
            && Answer(m[LockKey(p) := e], token) == LoginInProgress
            && Answer(m - {RefreshKey(p)}, token) == InvalidToken
            && Answer(m - {LookupKey(token)}, token) == InvalidToken
  {
    var p := m[LookupKey(token)].val;
    RefreshKeysApart(p, token);
    SessionKeysSide(p, "");
  }

  /** The token that a refresh hands out waits for the cooldown, then is good until its time is over. */
  lemma NewTokenLives(m: Store, token: string, jti: string, newToken: string, now: int, later: int)
    requires PlainId(jti) && Answer(m, token) == Ok && newToken != token && now <= later
    ensures var p := m[LookupKey(token)].val;
            var t := Live(Rotated(m, p, token, jti, newToken, now), later);
            && (later <= now + COOLDOWN_TTL ==> Answer(t, newToken) == InProgress)
            && (later > now + REFRESH_TTL ==> Answer(t, newToken) == InvalidToken)
  {
    var p := m[LookupKey(token)].val;
    RefreshKeysApart(p, token);
    RefreshKeysApart(p, newToken);
    SessionKeysSide(p, jti);
    SessionKeysSide(p, CurrentOf(m, p));
    assert LookupKey(token)[15..] == token && LookupKey(newToken)[15..] == newToken;
    SessionKeysApart(p, jti);
  }
}
