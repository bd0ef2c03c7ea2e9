/**
 * Sessions and refresh tokens (internal/auth/session.go, internal/auth/refresh.go, internal/auth/handler.go).
 *
 * Logins and refreshes of any number of players interleave one key-value call at a time, keys expire as
 * the clock ticks, and logouts happen as one step.  Request i draws the fresh ids i: its token id (the
 * `jti` claim of section 4.1.7 of RFC 7519) is Jti(i) and its refresh token is Token(i).
 */
module Sessions {
  import opened Prelude
  import opened TtlMap

  const SESSION_TTL: nat := 86400
  const REFRESH_TTL: nat := 2592000
  const SESSION_LOCK_TTL: nat := 5
  const REFRESH_LOCK_TTL: nat := 10
  const COOLDOWN_TTL: nat := 3

  datatype Key =
    | SessionLock(player: nat) | Current(player: nat) | Session(jti: nat)
    | Refresh(player: nat) | Lookup(token: nat) | RefreshLock(player: nat) | Cooldown(player: nat)

  datatype Val = Mark | Jti(jti: nat) | Token(token: nat) | Owner(player: nat)

  datatype Kind = Login | Rotate(presented: nat)

  /** The next call a request will make. */
  datatype Pc =
    | Begin
    | TakeRefreshLock | CheckCooldown | ReadStored
    | TakeSessionLock | ReadCurrent | DropOld(prior: Option<nat>) | SetSession | SetCurrent | FreeSessionLock
    | SetCooldown | StoreRefresh | StoreLookup | DropLookup | FreeRefreshLock(ok: bool)
    | Succeeded | Failed

  /** `player` is given for a login and found by the token lookup for a refresh. */
  datatype Proc = Proc(kind: Kind, player: nat, pc: Pc, sessionUntil: int, refreshUntil: int)

  datatype State = State(now: int, kv: map<Key, Entry<Val>>, procs: seq<Proc>)

  datatype Action = Tick(t: int) | Step(i: nat) | Logout(player: nat, jti: nat)

  predicate HoldsSession(p: Proc)
  {
    p.pc.ReadCurrent? || p.pc.DropOld? || p.pc.SetSession? || p.pc.SetCurrent? || p.pc.FreeSessionLock?
  }

  predicate HoldsRefresh(p: Proc)
  {
    || p.pc.CheckCooldown? || p.pc.ReadStored? || p.pc.SetCooldown? || p.pc.DropLookup? || p.pc.FreeRefreshLock?
    || (p.kind.Rotate? && (HoldsSession(p) || p.pc.TakeSessionLock? || p.pc.StoreRefresh? || p.pc.StoreLookup?))
  }

  function Get(s: State, k: Key): Option<Val> { TtlMap.Lookup(s.kv, k, s.now) }

  /** What one call writes. */
  datatype Write = Nothing | Put(key: Key, val: Val, ttl: nat) | Del(key: Key)

  /** The key written, and where the request goes next. */
  datatype Effect = Effect(write: Write, next: Proc)

  function Goto(me: Proc, pc: Pc): Effect { Effect(Nothing, me.(pc := pc)) }

  function AfterPut(me: Proc, k: Key, v: Val, ttl: nat, pc: Pc): Effect { Effect(Put(k, v, ttl), me.(pc := pc)) }

  function AfterDel(me: Proc, k: Key, pc: Pc): Effect { Effect(Del(k), me.(pc := pc)) }

  /** lookupRefreshToken, then the two locks. */
  function BeginCall(s: State, me: Proc): Effect
  {
    match me.kind
    case Login => Goto(me, TakeSessionLock)
    case Rotate(t) =>
      match Get(s, Lookup(t))
      case Some(Owner(q)) => Goto(me.(player := q), TakeRefreshLock)
      case _ => Goto(me, Failed)
  }

  function RefreshLockCall(s: State, me: Proc): Effect
  {
    if Get(s, RefreshLock(me.player)).Some? then Goto(me, Failed)
    else AfterPut(me.(refreshUntil := s.now + REFRESH_LOCK_TTL), RefreshLock(me.player), Mark, REFRESH_LOCK_TTL,
        CheckCooldown)
  }

  function SessionLockCall(s: State, me: Proc): Effect
  {
    if Get(s, SessionLock(me.player)).Some? then Goto(me, if me.kind.Login? then Failed else FreeRefreshLock(false))
    else AfterPut(me.(sessionUntil := s.now + SESSION_LOCK_TTL), SessionLock(me.player), Mark, SESSION_LOCK_TTL,
        ReadCurrent)
  }

  /** The next call of request i. */
  function Call(s: State, i: nat): Effect
    requires i < |s.procs|
  {
    var me := s.procs[i];
    var p := me.player;
    match me.pc
    case Begin => BeginCall(s, me)
    case TakeRefreshLock => RefreshLockCall(s, me)
    case CheckCooldown => Goto(me, if Get(s, Cooldown(p)).Some? then FreeRefreshLock(false) else ReadStored)
    case ReadStored =>
      Goto(me, if me.kind.Rotate? && Get(s, Refresh(p)) == Some(Token(me.kind.presented)) then TakeSessionLock
               else FreeRefreshLock(false))
    case TakeSessionLock => SessionLockCall(s, me)
    case ReadCurrent => Goto(me, DropOld(match Get(s, Current(p)) case Some(Jti(j)) => Some(j) case _ => None))
    case DropOld(prior) => if prior.Some? then AfterDel(me, Session(prior.value), SetSession) else Goto(me, SetSession)
    case SetSession => AfterPut(me, Session(i), Mark, SESSION_TTL, SetCurrent)
    case SetCurrent => AfterPut(me, Current(p), Jti(i), SESSION_TTL, FreeSessionLock)
    case FreeSessionLock => AfterDel(me, SessionLock(p), if me.kind.Login? then StoreRefresh else SetCooldown)
    case SetCooldown => AfterPut(me, Cooldown(p), Mark, COOLDOWN_TTL, StoreRefresh)
    case StoreRefresh => AfterPut(me, Refresh(p), Token(i), REFRESH_TTL, StoreLookup)
    case StoreLookup => AfterPut(me, Lookup(i), Owner(p), REFRESH_TTL, if me.kind.Login? then Succeeded else DropLookup)
    case DropLookup =>
      if me.kind.Rotate? then AfterDel(me, Lookup(me.kind.presented), FreeRefreshLock(true)) else Goto(me, Succeeded)
    case FreeRefreshLock(ok) => AfterDel(me, RefreshLock(p), if ok then Succeeded else Failed)
    case Succeeded => Goto(me, Succeeded)
    case Failed => Goto(me, Failed)
  }

  function Written(kv: map<Key, Entry<Val>>, w: Write, now: int): map<Key, Entry<Val>>
  {
    match w
    case Nothing => kv
    case Put(k, v, ttl) => kv[k := Stored(v, ttl, now)]
    case Del(k) => kv - {k}
  }

  function StepProc(s: State, i: nat): State
    requires i < |s.procs|
  {
    var e := Call(s, i);
    s.(kv := Written(s.kv, e.write, s.now), procs := s.procs[i := e.next])
  }

  /** logoutSession. */
  function LogoutStep(s: State, player: nat, jti: nat): State
  {
    if Get(s, Current(player)) == Some(Jti(jti)) then
      s.(kv := s.kv - {Session(jti), Current(player), Refresh(player)})
    else s.(kv := s.kv - {Session(jti)})
  }

  function Apply(s: State, a: Action): State
  {
    match a
    case Tick(t) => if t > s.now then s.(now := t) else s
    case Step(i) => if i < |s.procs| then StepProc(s, i) else s
    case Logout(player, jti) => LogoutStep(s, player, jti)
  }

  function Run(s: State, acts: seq<Action>): State
  {
    if acts == [] then s else Apply(Run(s, acts[..|acts| - 1]), acts[|acts| - 1])
  }

  /** An empty store and any requests yet to begin. */
  predicate Initial(s: State)
  {
    s.kv == map[] && forall i | 0 <= i < |s.procs| :: s.procs[i].pc.Begin?
  }

  /** Nobody is inside a section whose lock has run out. */
  predicate SessionsInTime(s: State)
  {
    forall i | 0 <= i < |s.procs| && HoldsSession(s.procs[i]) :: s.now <= s.procs[i].sessionUntil
  }

  /** Throughout the run, sections guarded by the session lock are shorter than its TTL. */
  predicate PromptSessions(s: State, acts: seq<Action>)
  {
    SessionsInTime(Run(s, acts)) && (acts == [] || PromptSessions(s, acts[..|acts| - 1]))
  }

  // ---- The session lock excludes ----

  predicate LockedUntil(s: State, k: Key, until: int) { k in s.kv && s.kv[k].expiresAt == Some(until) }

  /** A holder's lock is there until the time the holder noted. */
  predicate SessionLocked(s: State)
  {
    forall i | 0 <= i < |s.procs| && HoldsSession(s.procs[i]) ::
      LockedUntil(s, SessionLock(s.procs[i].player), s.procs[i].sessionUntil)
  }

  predicate OneHolder(s: State)
  {
    forall i, j | 0 <= i < j < |s.procs| && HoldsSession(s.procs[i]) && HoldsSession(s.procs[j]) ::
      s.procs[i].player != s.procs[j].player
  }

  predicate SessionLocks(s: State) { SessionLocked(s) && OneHolder(s) }

  lemma SessionLockedStep(s: State, a: Action)
    requires SessionLocks(s) && SessionsInTime(s)
    ensures SessionLocked(Apply(s, a))
  {}

  lemma OneHolderStep(s: State, a: Action)
    requires SessionLocks(s) && SessionsInTime(s)
    ensures OneHolder(Apply(s, a))
  {}

  // ---- One session per player ----

  predicate PastSet(p: Proc)
  {
    || p.pc.SetCurrent? || p.pc.FreeSessionLock? || p.pc.SetCooldown? || p.pc.StoreRefresh? || p.pc.StoreLookup?
    || p.pc.DropLookup? || p.pc == FreeRefreshLock(true) || p.pc.Succeeded?
  }

  predicate LiveSession(s: State, j: nat) { Get(s, Session(j)).Some? }

  /** Every session was set by the request it names, for one TTL. */
  ghost predicate SessionsIssued(s: State)
  {
    forall j: nat | Session(j) in s.kv ::
      && j < |s.procs| && PastSet(s.procs[j])
      && s.kv[Session(j)].expiresAt.Some? && s.kv[Session(j)].expiresAt.value <= s.now + SESSION_TTL
  }

  /** The player's current pointer names session j and outlives it. */
  predicate Pointed(s: State, j: nat)
    requires j < |s.procs|
  {
    var c := Current(s.procs[j].player);
    && Session(j) in s.kv && c in s.kv && s.kv[c].val == Jti(j)
    && s.kv[c].expiresAt.Some? && s.kv[Session(j)].expiresAt.Some?
    && s.kv[Session(j)].expiresAt.value <= s.kv[c].expiresAt.value
  }

  /** A live session is pointed at, or its request is just about to point at it. */
  predicate SessionsPointed(s: State)
  {
    forall j: nat | j < |s.procs| && LiveSession(s, j) :: Pointed(s, j) || s.procs[j].pc.SetCurrent?
  }

  /** Which live sessions of its player the holder of the lock can still meet. */
  predicate Meets(p: Proc, i: nat, j: nat)
  {
    && (p.pc.DropOld? ==> p.pc.prior == Some(j))
    && !p.pc.SetSession?
    && (p.pc.SetCurrent? ==> i == j)
  }

  predicate HoldersMeet(s: State)
  {
    forall i: nat, j: nat | i < |s.procs| && j < |s.procs| && LiveSession(s, j)
        && s.procs[i].player == s.procs[j].player ::
      Meets(s.procs[i], i, j)
  }

  ghost predicate SessionInv(s: State)
  {
    SessionLocks(s) && SessionsIssued(s) && SessionsPointed(s) && HoldersMeet(s)
  }

  lemma SessionsIssuedStep(s: State, a: Action)
    requires SessionsIssued(s)
    ensures SessionsIssued(Apply(s, a))
  {}

  lemma SessionsPointedStep(s: State, a: Action)
    requires SessionInv(s) && SessionsInTime(s)
    ensures SessionsPointed(Apply(s, a))
  {}

  /** A live session was live before, unless this very step set it. */
  lemma LiveBefore(s: State, k: nat, j: nat)
    requires k < |s.procs| && LiveSession(StepProc(s, k), j)
    ensures LiveSession(s, j) || (k == j && s.procs[k].pc.SetSession?)
  {}

  /** What the stepping request can meet afterwards. */
  lemma StepperMeets(s: State, k: nat, j: nat)
    requires SessionInv(s) && SessionsInTime(s) && k < |s.procs| && j < |s.procs|
    requires LiveSession(StepProc(s, k), j) && StepProc(s, k).procs[k].player == StepProc(s, k).procs[j].player
    ensures Meets(StepProc(s, k).procs[k], k, j)
  {
    LiveBefore(s, k, j);
    if s.procs[k].pc.ReadCurrent? { assert Pointed(s, j); }
  }

  /** What every other request can meet afterwards: only a holder of the lock sets a session. */
  lemma OtherMeets(s: State, k: nat, i: nat, j: nat)
    requires SessionInv(s) && SessionsInTime(s) && k < |s.procs| && i < |s.procs| && j < |s.procs| && i != k
    requires LiveSession(StepProc(s, k), j) && s.procs[i].player == StepProc(s, k).procs[j].player
    ensures Meets(s.procs[i], i, j)
  {
    LiveBefore(s, k, j);
    if LiveSession(s, j) {
      assert StepProc(s, k).procs[j].player == s.procs[j].player;
    } else {
      assert HoldsSession(s.procs[k]);
    }
  }

  lemma HoldersMeetStep(s: State, a: Action)
    requires SessionInv(s) && SessionsInTime(s)
    ensures HoldersMeet(Apply(s, a))
  {
    if a.Step? && a.i < |s.procs| {
      var t := StepProc(s, a.i);
      forall i: nat, j: nat | i < |t.procs| && j < |t.procs| && LiveSession(t, j)
          && t.procs[i].player == t.procs[j].player
        ensures Meets(t.procs[i], i, j)
      {
        if i == a.i { StepperMeets(s, i, j); } else { OtherMeets(s, a.i, i, j); }
      }
    }
  }

  lemma {:induction false} SessionInvRun(s: State, acts: seq<Action>)
    requires Initial(s) && PromptSessions(s, acts)
    ensures SessionInv(Run(s, acts))
  {
    if acts == [] {
    } else {
      var prev, a := acts[..|acts| - 1], acts[|acts| - 1];
      SessionInvRun(s, prev);
      SessionLockedStep(Run(s, prev), a);
      OneHolderStep(Run(s, prev), a);
      SessionsIssuedStep(Run(s, prev), a);
      SessionsPointedStep(Run(s, prev), a);
      HoldersMeetStep(Run(s, prev), a);
    }
  }

  /**
   * Main result: at every instant of every prompt run a player has at most one live session, and
   * whenever the player's lock is free the current pointer names it.
   */
  lemma AtMostOneSession(s: State, acts: seq<Action>, j: nat)
    requires Initial(s) && PromptSessions(s, acts)
    requires LiveSession(Run(s, acts), j)
    ensures var t := Run(s, acts);
            && j < |t.procs|
            && (Get(t, SessionLock(t.procs[j].player)).None? ==> Get(t, Current(t.procs[j].player)) == Some(Jti(j)))
            && forall k: nat | k < |t.procs| && LiveSession(t, k) && t.procs[k].player == t.procs[j].player :: k == j
  {
    SessionInvRun(s, acts);
  }

  // ---- A login by itself ----

  function Stepper(i: nat): State -> State { (s: State) => Apply(s, Step(i)) }

  /** n calls of request i and nobody else's. */
  function Alone(s: State, i: nat, n: nat): State { Iterate(Stepper(i), s, n) }

  lemma AloneMore(s: State, i: nat, m: nat, n: nat)
    ensures Alone(Alone(s, i, m), i, n) == Alone(s, i, m + n)
  {
    IterateMore(Stepper(i), s, m, n);
  }

  /** The session that entering the section removes. */
  function Evicted(s: State, p: nat): set<Key>
  {
    match Get(s, Current(p))
    case Some(Jti(j)) => {Session(j)}
    case _ => {}
  }

  /** From a free session lock to SetSession. */
  lemma SectionEnters(s: State, i: nat)
    requires i < |s.procs| && s.procs[i].pc.TakeSessionLock? && Get(s, SessionLock(s.procs[i].player)).None?
    ensures var p := s.procs[i].player;
            Alone(s, i, 3) == s.(
              kv := s.kv[SessionLock(p) := Stored(Mark, SESSION_LOCK_TTL, s.now)] - Evicted(s, p),
              procs := s.procs[i := s.procs[i].(pc := SetSession, sessionUntil := s.now + SESSION_LOCK_TTL)])
  {
    var one := StepProc(s, i);
    assert Alone(s, i, 1) == one && one.procs[i].pc == ReadCurrent
        && Get(one, Current(s.procs[i].player)) == Get(s, Current(s.procs[i].player));
    var two := StepProc(one, i);
    assert Alone(s, i, 2) == two && two.procs[i].pc.DropOld?;
  }

  /** The rest of the section: the new session, the pointer to it, the lock. */
  lemma SectionEnds(s: State, i: nat)
    requires i < |s.procs| && s.procs[i].pc.SetSession?
    ensures var p := s.procs[i].player;
            Alone(s, i, 3) == s.(
              kv := s.kv[Session(i) := Stored(Mark, SESSION_TTL, s.now)]
                    [Current(p) := Stored(Jti(i), SESSION_TTL, s.now)]
                    - {SessionLock(p)},
              procs := s.procs[i := s.procs[i].(pc := if s.procs[i].kind.Login? then StoreRefresh else SetCooldown)])
  {
    assert Alone(s, i, 2) == StepProc(StepProc(s, i), i) by { assert Alone(s, i, 1) == StepProc(s, i); }
  }

  lemma LoginStores(s: State, i: nat)
    requires i < |s.procs| && s.procs[i].kind.Login? && s.procs[i].pc.StoreRefresh?
    ensures var p := s.procs[i].player;
            Alone(s, i, 2) == s.(
              kv := s.kv[Refresh(p) := Stored(Token(i), REFRESH_TTL, s.now)]
                    [Lookup(i) := Stored(Owner(p), REFRESH_TTL, s.now)],
              procs := s.procs[i := s.procs[i].(pc := Succeeded)])
  {
    assert Alone(s, i, 1) == StepProc(s, i);
  }

  /** The keys after the section, which leaves no trace of its lock. */
  function Enforced(kv: map<Key, Entry<Val>>, p: nat, i: nat, evicted: set<Key>, now: int): map<Key, Entry<Val>>
  {
    (kv - evicted)[Session(i) := Stored(Mark, SESSION_TTL, now)]
      [Current(p) := Stored(Jti(i), SESSION_TTL, now)] - {SessionLock(p)}
  }

  lemma LockLeavesNoTrace(kv: map<Key, Entry<Val>>, lock: Key, e: Entry<Val>, gone: set<Key>, a: Key, ea: Entry<Val>,
                          b: Key,
                          eb: Entry<Val>)
    requires lock != a && lock != b
    ensures (kv[lock := e] - gone)[a := ea][b := eb] - {lock} == (kv - gone)[a := ea][b := eb] - {lock}
  {}

  /** The whole section. */
  lemma SectionRuns(s: State, i: nat)
    requires i < |s.procs| && s.procs[i].pc.TakeSessionLock? && Get(s, SessionLock(s.procs[i].player)).None?
    ensures var p := s.procs[i].player;
            Alone(s, i, 6) == s.(
              kv := Enforced(s.kv, p, i, Evicted(s, p), s.now),
              procs := s.procs[i := s.procs[i].(pc := if s.procs[i].kind.Login? then StoreRefresh else SetCooldown,
                                                sessionUntil := s.now + SESSION_LOCK_TTL)])
  {
    var p := s.procs[i].player;
    SectionEnters(s, i);
    SectionEnds(Alone(s, i, 3), i);
    AloneMore(s, i, 3, 3);
    LockLeavesNoTrace(s.kv, SessionLock(p), Stored(Mark, SESSION_LOCK_TTL, s.now), Evicted(s, p), Session(i),
                      Stored(Mark, SESSION_TTL, s.now), Current(p), Stored(Jti(i), SESSION_TTL, s.now));
  }

  /** What a login that gets the lock leaves. */
  function AfterLogin(s: State, i: nat): map<Key, Entry<Val>>
    requires i < |s.procs|
  {
    var p := s.procs[i].player;
    Enforced(s.kv, p, i, Evicted(s, p), s.now)
      [Refresh(p) := Stored(Token(i), REFRESH_TTL, s.now)][Lookup(i) := Stored(Owner(p), REFRESH_TTL, s.now)]
  }

  lemma LoginRuns(s: State, i: nat)
    requires i < |s.procs| && s.procs[i].kind.Login? && s.procs[i].pc.Begin?
    requires Get(s, SessionLock(s.procs[i].player)).None?
    ensures var t := Alone(s, i, 9);
            t.now == s.now && |t.procs| == |s.procs| && t.procs[i].pc.Succeeded? && t.kv == AfterLogin(s, i)
  {
    var begun := Apply(s, Step(i));
    assert Alone(s, i, 1) == begun && Evicted(begun, s.procs[i].player) == Evicted(s, s.procs[i].player);
    SectionRuns(begun, i);
    AloneMore(s, i, 1, 6);
    LoginStores(Alone(s, i, 7), i);
    AloneMore(s, i, 7, 2);
  }

  /**
   * An undisturbed login that finds the lock free succeeds: its own session and token are current, the
   * player's previous session is gone and everybody else's keys are as they were.
   */
  lemma LoginSucceeds(s: State, i: nat)
    requires i < |s.procs| && s.procs[i].kind.Login? && s.procs[i].pc.Begin?
    requires Get(s, SessionLock(s.procs[i].player)).None?
    ensures var p, t := s.procs[i].player, Alone(s, i, 9);
            && i < |t.procs| && t.procs[i].pc.Succeeded?
            && LiveSession(t, i) && Get(t, Current(p)) == Some(Jti(i))
            && Get(t, Refresh(p)) == Some(Token(i)) && Get(t, Lookup(i)) == Some(Owner(p))
            && Get(t, SessionLock(p)).None?
            && (forall j: nat | Get(s, Current(p)) == Some(Jti(j)) && j != i :: !LiveSession(t, j))
            && (forall k | k in t.kv && k !in {Session(i), Current(p), Refresh(p), Lookup(i)} ::
                  k in s.kv && t.kv[k] == s.kv[k])
  {
    LoginRuns(s, i);
  }

  /** One that finds it taken fails and writes nothing. */
  lemma LoginRefused(s: State, i: nat)
    requires i < |s.procs| && s.procs[i].kind.Login? && s.procs[i].pc.Begin?
    requires Get(s, SessionLock(s.procs[i].player)).Some?
    ensures Alone(s, i, 2) == s.(procs := s.procs[i := s.procs[i].(pc := Failed)])
  {
    assert Alone(s, i, 1) == Apply(s, Step(i));
  }

  // ---- Why sections must be shorter than the lock's TTL ----

  /** Extends a run that has reached r by one action. */
  lemma Extend(s: State, acts: seq<Action>, r: State, a: Action) returns (longer: seq<Action>, next: State)
    requires Run(s, acts) == r
    ensures Run(s, longer) == next == Apply(r, a)
  {
    longer, next := acts + [a], Apply(r, a);
    assert longer[..|acts|] == acts;
  }

  lemma {:induction false} ExtendAlone(s: State, acts: seq<Action>, r: State, i: nat,
                                       n: nat)
    returns (longer: seq<Action>, next: State)
    requires Run(s, acts) == r && i < |r.procs|
    ensures Run(s, longer) == next == Alone(r, i, n)
  {
    longer, next := acts, r;
    if n == 0 {
    } else {
      longer, next := ExtendAlone(s, acts, r, i, n - 1);
      longer, next := Extend(s, longer, next, Step(i));
    }
  }

  /** A login that finds the store without a lock or a current session reaches SetSession. */
  lemma LoginEnters(s: State, acts: seq<Action>, r: State, i: nat) returns (longer: seq<Action>, next: State)
    requires Run(s, acts) == r && i < |r.procs| && r.procs[i].kind.Login? && r.procs[i].pc.Begin?
    requires Get(r, SessionLock(r.procs[i].player)).None? && Get(r, Current(r.procs[i].player)).None?
    ensures Run(s, longer) == next && next.now == r.now
    ensures next.kv == r.kv[SessionLock(r.procs[i].player) := Stored(Mark, SESSION_LOCK_TTL, r.now)]
    ensures next.procs == r.procs[i := r.procs[i].(pc := SetSession, sessionUntil := r.now + SESSION_LOCK_TTL)]
  {
    longer, next := Extend(s, acts, r, Step(i));
    SectionEnters(next, i);
    longer, next := ExtendAlone(s, longer, next, i, 3);
  }

  /**
   * A login that stalls in its section past the lock's five seconds lets a second one in, and both
   * sessions of the player are then live.
   */
  lemma AStalledLoginLeavesTwoSessions() returns (s: State, acts: seq<Action>)
    ensures Initial(s) && !PromptSessions(s, acts)
    ensures var t := Run(s, acts);
            |t.procs| == 2 && t.procs[0].player == t.procs[1].player && LiveSession(t, 0) && LiveSession(t, 1)
  {
    var p := Proc(Login, 0, Begin, 0, 0);
    s := State(0, map[], [p, p]);
    acts := [];
    var r := s;
    acts, r := LoginEnters(s, acts, r, 0);
    acts, r := Extend(s, acts, r, Tick(SESSION_LOCK_TTL + 1));
    acts, r := LoginEnters(s, acts, r, 1);
    acts, r := Extend(s, acts, r, Step(1));
    acts, r := Extend(s, acts, r, Step(0));
    assert !SessionsInTime(r) by { assert HoldsSession(r.procs[0]); }
  }

  // ---- Logouts ----

  /** The request has set its session and will not set it again. */
  predicate PastSession(pc: Pc)
  {
    || pc.SetCurrent? || pc.FreeSessionLock? || pc.SetCooldown? || pc.StoreRefresh? || pc.StoreLookup?
    || pc.DropLookup? || pc.FreeRefreshLock? || pc.Succeeded? || pc.Failed?
  }

  lemma PastSessionStep(s: State, a: Action, j: nat)
    requires j < |s.procs| && PastSession(s.procs[j].pc) && Session(j) !in s.kv
    ensures var t := Apply(s, a); j < |t.procs| && PastSession(t.procs[j].pc) && Session(j) !in t.kv
  {}

  /** A logout ends its session for good, whatever runs afterwards. */
  lemma {:induction false} LoggedOutForGood(s: State, player: nat, jti: nat, acts: seq<Action>)
    requires jti < |s.procs| && PastSession(s.procs[jti].pc)
    ensures var t := Run(LogoutStep(s, player, jti), acts);
            jti < |t.procs| && PastSession(t.procs[jti].pc) && Session(jti) !in t.kv
  {
    if acts == [] {
    } else {
      LoggedOutForGood(s, player, jti, acts[..|acts| - 1]);
      PastSessionStep(Run(LogoutStep(s, player, jti), acts[..|acts| - 1]), acts[|acts| - 1], jti);
    }
  }

  /** Logging out of the current session takes its pointer and its refresh token along; another's leaves both. */
  lemma LogoutTakesTheCurrentSession(s: State, player: nat, jti: nat)
    ensures var t := LogoutStep(s, player, jti);
            && (Get(s, Current(player)) == Some(Jti(jti)) ==>
                  Get(t, Current(player)).None? && Get(t, Refresh(player)).None?)
            && (Get(s, Current(player)) != Some(Jti(jti)) ==>
                  && Get(t, Current(player)) == Get(s, Current(player))
                  && Get(t, Refresh(player)) == Get(s, Refresh(player)))
            && forall k | k !in {Session(jti), Current(player), Refresh(player)} :: Get(t, k) == Get(s, k)
  {}
}
