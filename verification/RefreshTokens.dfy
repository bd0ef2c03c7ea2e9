/**
 * Each refresh token is redeemed at most once (internal/auth/refresh.go), in every interleaving of the
 * Sessions machine.  Redeemed means answered with success: the presented token has been replaced.
 */
module RefreshTokens {
  import opened Prelude
  import opened TtlMap
  import opened Sessions

  /** Nobody is inside a refresh whose lock has run out. */
  predicate RefreshesInTime(s: State)
  {
    forall i | 0 <= i < |s.procs| && HoldsRefresh(s.procs[i]) :: s.now <= s.procs[i].refreshUntil
  }

  /** Throughout the run, refreshes are shorter than the refresh lock's TTL. */
  predicate PromptRefreshes(s: State, acts: seq<Action>)
  {
    RefreshesInTime(Run(s, acts)) && (acts == [] || PromptRefreshes(s, acts[..|acts| - 1]))
  }

  // ---- The refresh lock excludes ----

  predicate RefreshLocked(s: State)
  {
    forall i | 0 <= i < |s.procs| && HoldsRefresh(s.procs[i]) ::
      LockedUntil(s, RefreshLock(s.procs[i].player), s.procs[i].refreshUntil)
  }

  predicate OneRefresher(s: State)
  {
    forall i, j | 0 <= i < j < |s.procs| && HoldsRefresh(s.procs[i]) && HoldsRefresh(s.procs[j]) ::
      s.procs[i].player != s.procs[j].player
  }

  predicate RefreshLocks(s: State) { RefreshLocked(s) && OneRefresher(s) }

  lemma RefreshLockedStep(s: State, a: Action)
    requires RefreshLocks(s) && RefreshesInTime(s)
    ensures RefreshLocked(Apply(s, a))
  {}

  lemma OneRefresherStep(s: State, a: Action)
    requires RefreshLocks(s) && RefreshesInTime(s)
    ensures OneRefresher(Apply(s, a))
  {}

  // ---- Tokens know their players ----

  /** The request has stored its fresh token. */
  predicate Issued(p: Proc)
  {
    p.pc.StoreLookup? || p.pc.DropLookup? || p.pc == FreeRefreshLock(true) || p.pc.Succeeded?
  }

  /** Token t was issued, to player p. */
  predicate IssuedTo(s: State, t: nat, p: nat) { t < |s.procs| && Issued(s.procs[t]) && s.procs[t].player == p }

  ghost predicate LookupsIssued(s: State)
  {
    forall t: nat | Lookup(t) in s.kv :: s.kv[Lookup(t)].val.Owner? && IssuedTo(s, t, s.kv[Lookup(t)].val.player)
  }

  ghost predicate StoredIssued(s: State)
  {
    forall p: nat | Refresh(p) in s.kv :: s.kv[Refresh(p)].val.Token? && IssuedTo(s, s.kv[Refresh(p)].val.token, p)
  }

  /** A refresh past its lookup works for the player its token was issued to. */
  predicate PresentedIssued(s: State)
  {
    forall i | 0 <= i < |s.procs| && s.procs[i].kind.Rotate? && !s.procs[i].pc.Begin? && !s.procs[i].pc.Failed? ::
      IssuedTo(s, s.procs[i].kind.presented, s.procs[i].player)
  }

  ghost predicate TokensKnown(s: State) { LookupsIssued(s) && StoredIssued(s) && PresentedIssued(s) }

  lemma LookupsIssuedStep(s: State, a: Action)
    requires TokensKnown(s)
    ensures LookupsIssued(Apply(s, a))
  {}

  lemma StoredIssuedStep(s: State, a: Action)
    requires TokensKnown(s)
    ensures StoredIssued(Apply(s, a))
  {}

  lemma PresentedIssuedStep(s: State, a: Action)
    requires TokensKnown(s)
    ensures PresentedIssued(Apply(s, a))
  {}

  // ---- A replaced token stays replaced ----

  /** The refresh has found its token stored and has not replaced it yet. */
  predicate Checked(p: Proc)
  {
    p.kind.Rotate? && (p.pc.TakeSessionLock? || HoldsSession(p) || p.pc.SetCooldown? || p.pc.StoreRefresh?)
  }

  /** The refresh has replaced its token. */
  predicate Redeemed(p: Proc) { p.kind.Rotate? && Issued(p) }

  /** Whoever redeemed a token is alone in having checked it. */
  predicate RedeemedAlone(s: State)
  {
    forall i, k | 0 <= i < |s.procs| && 0 <= k < |s.procs| && i != k && Redeemed(s.procs[k])
                  && (Checked(s.procs[i]) || Redeemed(s.procs[i])) ::
      s.procs[i].kind.presented != s.procs[k].kind.presented
  }

  /** No player's stored token has been redeemed. */
  ghost predicate StoredFresh(s: State)
  {
    forall p: nat, k | Refresh(p) in s.kv && 0 <= k < |s.procs| && Redeemed(s.procs[k]) ::
      s.kv[Refresh(p)].val != Token(s.procs[k].kind.presented)
  }

  ghost predicate TokenInv(s: State)
  {
    RefreshLocks(s) && TokensKnown(s) && RedeemedAlone(s) && StoredFresh(s)
  }

  lemma KindStays(s: State, j: nat, i: nat)
    requires j < |s.procs| && i < |s.procs|
    ensures StepProc(s, j).procs[i].kind == s.procs[i].kind
  {}

  lemma RedeemedAloneCall(s: State, j: nat)
    requires TokenInv(s) && j < |s.procs|
    ensures RedeemedAlone(StepProc(s, j))
  {
    var t := StepProc(s, j);
    forall i, k | 0 <= i < |t.procs| && 0 <= k < |t.procs| && i != k && Redeemed(t.procs[k])
                  && (Checked(t.procs[i]) || Redeemed(t.procs[i]))
      ensures t.procs[i].kind.presented != t.procs[k].kind.presented
    {
      KindStays(s, j, i);
      KindStays(s, j, k);
    }
  }

  lemma RedeemedAloneStep(s: State, a: Action)
    requires TokenInv(s)
    ensures RedeemedAlone(Apply(s, a))
  {
    if a.Step? && a.i < |s.procs| { RedeemedAloneCall(s, a.i); }
  }

  /** What player p has stored after request j steps, against one redeemed token. */
  lemma StoredPairStep(s: State, j: nat, p: nat, k: nat)
    requires TokenInv(s) && j < |s.procs| && k < |s.procs|
    requires Refresh(p) in StepProc(s, j).kv && Redeemed(StepProc(s, j).procs[k])
    ensures StepProc(s, j).kv[Refresh(p)].val != Token(s.procs[k].kind.presented)
  {
    var me := s.procs[j];
    if me.pc.StoreRefresh? {
      assert IssuedTo(s, s.procs[k].kind.presented, s.procs[k].player);
    } else {
      assert Redeemed(s.procs[k]);
    }
  }

  lemma StoredFreshCall(s: State, j: nat)
    requires TokenInv(s) && j < |s.procs|
    ensures StoredFresh(StepProc(s, j))
  {
    var t := StepProc(s, j);
    forall p: nat, k | Refresh(p) in t.kv && 0 <= k < |t.procs| && Redeemed(t.procs[k])
      ensures t.kv[Refresh(p)].val != Token(t.procs[k].kind.presented)
    {
      StoredPairStep(s, j, p, k);
      KindStays(s, j, k);
    }
  }

  lemma StoredFreshStep(s: State, a: Action)
    requires TokenInv(s)
    ensures StoredFresh(Apply(s, a))
  {
    if a.Step? && a.i < |s.procs| { StoredFreshCall(s, a.i); }
  }

  lemma {:induction false} TokenInvRun(s: State, acts: seq<Action>)
    requires Initial(s) && PromptRefreshes(s, acts)
    ensures TokenInv(Run(s, acts))
  {
    if acts == [] {
    } else {
      var prev, a := acts[..|acts| - 1], acts[|acts| - 1];
      TokenInvRun(s, prev);
      RefreshLockedStep(Run(s, prev), a);
      OneRefresherStep(Run(s, prev), a);
      LookupsIssuedStep(Run(s, prev), a);
      StoredIssuedStep(Run(s, prev), a);
      PresentedIssuedStep(Run(s, prev), a);
      RedeemedAloneStep(Run(s, prev), a);
      StoredFreshStep(Run(s, prev), a);
    }
  }

  /**
   * Main result: in every interleaving of prompt refreshes with logins, logouts and expiry, no two
   * refreshes succeed with the same token, and a player's stored token is always an unredeemed one that
   * was issued to that player.
   */
  lemma RedeemedAtMostOnce(s: State, acts: seq<Action>, i: nat, k: nat, p: nat)
    requires Initial(s) && PromptRefreshes(s, acts)
    ensures var t := Run(s, acts);
            && (i < |t.procs| && k < |t.procs| && i != k && t.procs[i].kind.Rotate? && t.procs[k].kind.Rotate?
                && t.procs[i].pc.Succeeded? && t.procs[k].pc.Succeeded?
                ==> t.procs[i].kind.presented != t.procs[k].kind.presented)
            && (Get(t, Refresh(p)).Some? ==>
                  && Get(t, Refresh(p)).value.Token?
                  && IssuedTo(t, Get(t, Refresh(p)).value.token, p)
                  && (i < |t.procs| && t.procs[i].kind.Rotate? && t.procs[i].pc.Succeeded?
                      ==> t.procs[i].kind.presented != Get(t, Refresh(p)).value.token))
  {
    TokenInvRun(s, acts);
  }

  // ---- Why refreshes must be shorter than the lock's TTL ----

  /** A refresh that finds its token stored and no lock gets as far as the session lock. */
  lemma RefreshEnters(s: State, i: nat, p: nat)
    requires i < |s.procs| && s.procs[i].kind.Rotate? && s.procs[i].pc.Begin?
    requires Get(s, Lookup(s.procs[i].kind.presented)) == Some(Owner(p))
    requires Get(s, Refresh(p)) == Some(Token(s.procs[i].kind.presented))
    requires Get(s, RefreshLock(p)).None? && Get(s, Cooldown(p)).None?
    ensures Alone(s, i, 4) == s.(
              kv := s.kv[RefreshLock(p) := Stored(Mark, REFRESH_LOCK_TTL, s.now)],
              procs := s.procs[i := s.procs[i].(player := p, pc := TakeSessionLock,
                  refreshUntil := s.now + REFRESH_LOCK_TTL)])
  {
    var one := StepProc(s, i);
    var two := StepProc(one, i);
    assert Alone(s, i, 1) == one && Alone(s, i, 2) == two && two.procs[i].pc.CheckCooldown?;
    assert Get(two, Cooldown(p)).None? && Get(two, Refresh(p)) == Get(s, Refresh(p));
    assert Alone(s, i, 3) == StepProc(two, i);
  }

  lemma RefreshStores(s: State, i: nat)
    requires i < |s.procs| && s.procs[i].kind.Rotate? && s.procs[i].pc.SetCooldown?
    ensures var p := s.procs[i].player;
            Alone(s, i, 3) == s.(
              kv := s.kv[Cooldown(p) := Stored(Mark, COOLDOWN_TTL, s.now)]
                    [Refresh(p) := Stored(Token(i), REFRESH_TTL, s.now)]
                    [Lookup(i) := Stored(Owner(p), REFRESH_TTL, s.now)],
              procs := s.procs[i := s.procs[i].(pc := DropLookup)])
  {
    assert Alone(s, i, 2) == StepProc(StepProc(s, i), i) by { assert Alone(s, i, 1) == StepProc(s, i); }
  }

  lemma RefreshEnds(s: State, i: nat)
    requires i < |s.procs| && s.procs[i].kind.Rotate? && s.procs[i].pc.DropLookup?
    ensures Alone(s, i, 2) == s.(
              kv := s.kv - {Lookup(s.procs[i].kind.presented)} - {RefreshLock(s.procs[i].player)},
              procs := s.procs[i := s.procs[i].(pc := Succeeded)])
  {
    assert Alone(s, i, 1) == StepProc(s, i);
  }

  /** What a refresh past its check leaves, whatever is stored by then. */
  function AfterRefresh(s: State, i: nat): map<Key, Entry<Val>>
    requires i < |s.procs| && s.procs[i].kind.Rotate?
  {
    var p := s.procs[i].player;
    Enforced(s.kv, p, i, Evicted(s, p), s.now)
      [Cooldown(p) := Stored(Mark, COOLDOWN_TTL, s.now)][Refresh(p) := Stored(Token(i), REFRESH_TTL, s.now)]
      [Lookup(i) := Stored(Owner(p), REFRESH_TTL, s.now)]
      - {Lookup(s.procs[i].kind.presented)} - {RefreshLock(p)}
  }

  lemma RefreshFinishes(s: State, i: nat)
    requires i < |s.procs| && s.procs[i].kind.Rotate? && s.procs[i].pc.TakeSessionLock?
    requires Get(s, SessionLock(s.procs[i].player)).None?
    ensures Alone(s, i, 11) == s.(
              kv := AfterRefresh(s, i),
              procs := s.procs[i := s.procs[i].(pc := Succeeded, sessionUntil := s.now + SESSION_LOCK_TTL)])
  {
    SectionRuns(s, i);
    RefreshStores(Alone(s, i, 6), i);
    AloneMore(s, i, 6, 3);
    RefreshEnds(Alone(s, i, 9), i);
    AloneMore(s, i, 9, 2);
  }

  /** An undisturbed refresh of the stored token succeeds and rotates it: the old token is not even found. */
  lemma RefreshSucceeds(s: State, i: nat, p: nat)
    requires i < |s.procs| && s.procs[i].kind.Rotate? && s.procs[i].pc.Begin? && s.procs[i].kind.presented != i
    requires Get(s, Lookup(s.procs[i].kind.presented)) == Some(Owner(p))
    requires Get(s, Refresh(p)) == Some(Token(s.procs[i].kind.presented))
    requires Get(s, RefreshLock(p)).None? && Get(s, Cooldown(p)).None? && Get(s, SessionLock(p)).None?
    ensures var t := Alone(s, i, 15);
            && i < |t.procs| && t.procs[i].pc.Succeeded?
            && LiveSession(t, i) && Get(t, Current(p)) == Some(Jti(i)) && Get(t, Refresh(p)) == Some(Token(i))
            && Get(t, Lookup(i)) == Some(Owner(p)) && Get(t, Lookup(s.procs[i].kind.presented)).None?
            && Get(t, SessionLock(p)).None? && Get(t, RefreshLock(p)).None? && Get(t, Cooldown(p)) == Some(Mark)
  {
    RefreshEnters(s, i, p);
    var r := Alone(s, i, 4);
    assert r.procs[i].player == p && r.procs[i].kind == s.procs[i].kind && Get(r, SessionLock(p)).None?;
    RefreshFinishes(r, i);
    AloneMore(s, i, 4, 11);
    RotatedKeys(r, i);
  }

  /** The keys a finished refresh leaves for its player. */
  lemma RotatedKeys(r: State, i: nat)
    requires i < |r.procs| && r.procs[i].kind.Rotate? && r.procs[i].kind.presented != i
    ensures var p, kv := r.procs[i].player, AfterRefresh(r, i);
            && Session(i) in kv && kv[Session(i)] == Stored(Mark, SESSION_TTL, r.now)
            && Current(p) in kv && kv[Current(p)] == Stored(Jti(i), SESSION_TTL, r.now)
            && Refresh(p) in kv && kv[Refresh(p)] == Stored(Token(i), REFRESH_TTL, r.now)
            && Lookup(i) in kv && kv[Lookup(i)] == Stored(Owner(p), REFRESH_TTL, r.now)
            && Lookup(r.procs[i].kind.presented) !in kv && RefreshLock(p) !in kv && SessionLock(p) !in kv
            && Cooldown(p) in kv && kv[Cooldown(p)] == Stored(Mark, COOLDOWN_TTL, r.now)
  {}

  /** What a refresh of a known token needs besides the token. */
  predicate FreeToRefresh(s: State, p: nat, token: nat)
  {
    Get(s, Cooldown(p)).None? && Get(s, Refresh(p)) == Some(Token(token)) && Get(s, SessionLock(p)).None?
  }

  /** The store of s with player p's refresh lock taken by request i. */
  predicate LockedBy(s: State, r: State, i: nat, p: nat)
  {
    && Get(s, RefreshLock(p)).None? && r.now == s.now
    && r.kv == s.kv[RefreshLock(p) := Stored(Mark, REFRESH_LOCK_TTL, s.now)]
    && i < |r.procs| && r.procs[i].kind.Rotate? && r.procs[i].player == p
  }

  /** Failed, with every key as in s. */
  ghost predicate Refused(s: State, t: State, i: nat)
  {
    i < |t.procs| && t.procs[i].pc.Failed? && forall k :: Get(t, k) == Get(s, k)
  }

  /** One call of request i, then n more. */
  lemma AfterOne(s: State, r: State, i: nat, n: nat)
    requires i < |s.procs| && r == StepProc(s, i)
    ensures Alone(s, i, n + 1) == Alone(r, i, n)
  {
    assert Alone(s, i, 1) == r;
    AloneMore(s, i, 1, n);
  }

  lemma LockFreed(s: State, r: State, i: nat, p: nat)
    requires LockedBy(s, r, i, p) && r.procs[i].pc == FreeRefreshLock(false)
    ensures Refused(s, Alone(r, i, 1), i)
  {
    assert Alone(r, i, 1) == StepProc(r, i);
  }

  lemma SessionIsTaken(s: State, r: State, i: nat, p: nat)
    requires LockedBy(s, r, i, p) && r.procs[i].pc.TakeSessionLock? && Get(s, SessionLock(p)).Some?
    ensures Refused(s, Alone(r, i, 2), i)
  {
    var next := StepProc(r, i);
    assert Get(r, SessionLock(p)).Some?;
    LockFreed(s, next, i, p);
    AfterOne(r, next, i, 1);
  }

  lemma TokenIsNotStored(s: State, r: State, i: nat, p: nat) returns (n: nat)
    requires LockedBy(s, r, i, p) && r.procs[i].pc.ReadStored?
    requires Get(s, Refresh(p)) != Some(Token(r.procs[i].kind.presented)) || Get(s, SessionLock(p)).Some?
    ensures Refused(s, Alone(r, i, n), i)
  {
    var next := StepProc(r, i);
    assert Get(r, Refresh(p)) == Get(s, Refresh(p));
    if Get(s, Refresh(p)) == Some(Token(r.procs[i].kind.presented)) {
      SessionIsTaken(s, next, i, p);
      AfterOne(r, next, i, 2);
      n := 3;
    } else {
      LockFreed(s, next, i, p);
      AfterOne(r, next, i, 1);
      n := 2;
    }
  }

  lemma CoolsDown(s: State, r: State, i: nat, p: nat) returns (n: nat)
    requires LockedBy(s, r, i, p) && r.procs[i].pc.CheckCooldown?
    requires !FreeToRefresh(s, p, r.procs[i].kind.presented)
    ensures Refused(s, Alone(r, i, n), i)
  {
    var next := StepProc(r, i);
    assert Get(r, Cooldown(p)) == Get(s, Cooldown(p));
    if Get(s, Cooldown(p)).Some? {
      LockFreed(s, next, i, p);
      AfterOne(r, next, i, 1);
      n := 2;
    } else {
      var more := TokenIsNotStored(s, next, i, p);
      AfterOne(r, next, i, more);
      n := more + 1;
    }
  }

  /** The refresh lock is taken, the section ends early, and the lock is freed again. */
  lemma RefreshBacksOut(s: State, i: nat, p: nat) returns (n: nat)
    requires i < |s.procs| && s.procs[i].kind.Rotate? && s.procs[i].pc.TakeRefreshLock? && s.procs[i].player == p
    requires Get(s, RefreshLock(p)).None? && !FreeToRefresh(s, p, s.procs[i].kind.presented)
    ensures Refused(s, Alone(s, i, n), i)
  {
    var r := StepProc(s, i);
    var more := CoolsDown(s, r, i, p);
    AfterOne(s, r, i, more);
    n := more + 1;
  }

  /** An undisturbed refresh that is refused, for whatever reason, leaves every key as it was and holds no lock. */
  lemma RefreshRefused(s: State, i: nat) returns (n: nat)
    requires i < |s.procs| && s.procs[i].kind.Rotate? && s.procs[i].pc.Begin?
    requires match Get(s, Lookup(s.procs[i].kind.presented))
             case Some(Owner(p)) => Get(s, RefreshLock(p)).Some? || !FreeToRefresh(s, p, s.procs[i].kind.presented)
             case _ => true
    ensures Refused(s, Alone(s, i, n), i)
  {
    var r := StepProc(s, i);
    AfterOne(s, r, i, 0);
    n := 1;
    match Get(s, Lookup(s.procs[i].kind.presented))
    case Some(Owner(p)) =>
      if Get(s, RefreshLock(p)).Some? {
        AfterOne(r, StepProc(r, i), i, 0);
        AfterOne(s, r, i, 1);
        n := 2;
      } else {
        var more := RefreshBacksOut(r, i, p);
        AfterOne(s, r, i, more);
        n := more + 1;
      }
    case _ =>
  }

  /** A refresh that stalls past the lock's ten seconds lets a second one redeem the same token. */
  lemma AStalledRefreshRedeemsTwice() returns (s: State, acts: seq<Action>)
    ensures Initial(s)
    ensures var t := Run(s, acts);
            && |t.procs| == 3 && t.procs[1].pc.Succeeded? && t.procs[2].pc.Succeeded?
            && t.procs[1].kind == t.procs[2].kind == Rotate(0)
  {
    var r;
    s, acts, r := TwoChecked();
    RefreshFinishes(r, 1);
    RotatedKeys(r, 1);
    acts, r := ExtendAlone(s, acts, r, 1, 11);
    RefreshFinishes(r, 2);
    acts, r := ExtendAlone(s, acts, r, 2, 11);
  }

  /** Player 0 has logged in; one refresh checks the token and stalls, and later another checks it too. */
  lemma TwoChecked() returns (s: State, acts: seq<Action>, r: State)
    ensures Initial(s) && Run(s, acts) == r && |r.procs| == 3 && Get(r, SessionLock(0)).None?
    ensures forall i | 1 <= i < 3 ::
              r.procs[i].kind == Rotate(0) && r.procs[i].pc.TakeSessionLock? && r.procs[i].player == 0
  {
    var again := Proc(Rotate(0), 0, Begin, 0, 0);
    s := State(0, map[], [Proc(Login, 0, Begin, 0, 0), again, again]);
    assert Run(s, []) == s;
    acts, r := LoggedIn(s);
    acts, r := Checks(s, acts, r, 1);
    acts, r := Extend(s, acts, r, Tick(REFRESH_LOCK_TTL + 1));
    acts, r := Checks(s, acts, r, 2);
  }

  /** Token 0 of player 0 is stored, and no lock but an expired one is. */
  predicate Redeemable(s: State)
  {
    && Get(s, Lookup(0)) == Some(Owner(0)) && Get(s, Refresh(0)) == Some(Token(0))
    && Get(s, RefreshLock(0)).None? && Get(s, Cooldown(0)).None? && Get(s, SessionLock(0)).None?
  }

  lemma LoggedIn(s: State) returns (acts: seq<Action>, r: State)
    requires Initial(s) && |s.procs| == 3 && s.procs[0] == Proc(Login, 0, Begin, 0, 0) && s.now == 0
    ensures Run(s, acts) == r && r.now == 0 && |r.procs| == 3 && r.procs[1] == s.procs[1] && r.procs[2] == s.procs[2]
    ensures JustStored(r.kv)
  {
    assert Run(s, []) == s;
    LoginRuns(s, 0);
    acts, r := ExtendAlone(s, [], s, 0, 9);
    OthersWait(s, 0, 9);
    FirstLoginKeys(s);
  }

  predicate JustStored(kv: map<Key, Entry<Val>>)
  {
    && Lookup(0) in kv && kv[Lookup(0)] == Stored(Owner(0), REFRESH_TTL, 0)
    && Refresh(0) in kv && kv[Refresh(0)] == Stored(Token(0), REFRESH_TTL, 0)
    && RefreshLock(0) !in kv && Cooldown(0) !in kv && SessionLock(0) !in kv
  }

  lemma FirstLoginKeys(s: State)
    requires |s.procs| > 0 && s.procs[0].player == 0 && s.kv == map[] && s.now == 0
    ensures JustStored(AfterLogin(s, 0))
  {}

  lemma Checks(s: State, acts: seq<Action>, r: State, i: nat) returns (longer: seq<Action>, next: State)
    requires Run(s, acts) == r && i < |r.procs| && r.procs[i] == Proc(Rotate(0), 0, Begin, 0, 0) && Redeemable(r)
    ensures Run(s, longer) == next
    ensures next == r.(
              kv := r.kv[RefreshLock(0) := Stored(Mark, REFRESH_LOCK_TTL, r.now)],
              procs := r.procs[i := Proc(Rotate(0), 0, TakeSessionLock, 0, r.now + REFRESH_LOCK_TTL)])
  {
    RefreshEnters(r, i, 0);
    longer, next := ExtendAlone(s, acts, r, i, 4);
  }

  /** Nobody else moves meanwhile. */
  lemma {:induction false} OthersWait(s: State, i: nat, n: nat)
    ensures |Alone(s, i, n).procs| == |s.procs| && forall j | 0 <= j < |s.procs| && j != i
            :: Alone(s, i, n).procs[j] == s.procs[j]
  {
    if n == 0 {
    } else {
      OthersWait(s, i, n - 1);
    }
  }
}
