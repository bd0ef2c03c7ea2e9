/** What an audit report means: honest ledgers pass, and a passing report is an accounting equation. */
module AuditTheorems {
  import opened Prelude
  import opened Economy
  import opened Audit
  import EconomyBooks

  // ---- The audited order depends only on the rows as a multiset ----

  /** What the transition checks look at. */
  datatype Key = Key(at: int, before: real, after: real)

  function KeyOf(e: LogRow): Key { Key(e.at, e.before, e.after) }

  function Keys(es: seq<LogRow>): (r: seq<Key>)
    ensures |r| == |es| && forall i | 0 <= i < |es| :: r[i] == KeyOf(es[i])
  {
    seq(|es|, i requires 0 <= i < |es| => KeyOf(es[i]))
  }

  /** The audited order without the id tiebreak. */
  predicate KeyLess(a: Key, b: Key)
  {
    if a.at != b.at then a.at < b.at
    else if a.before != b.before then a.before > b.before
    else a.after > b.after
  }

  predicate KeySorted(ks: seq<Key>) { forall i, j | 0 <= i < j < |ks| :: !KeyLess(ks[j], ks[i]) }

  lemma {:induction false} KeysOfPermutation(a: seq<LogRow>, b: seq<LogRow>)
    requires multiset(a) == multiset(b)
    ensures multiset(Keys(a)) == multiset(Keys(b))
    decreases |a|
  {
    if a == [] {
      assert |multiset(b)| == 0;
    } else {
      var l, r := Locate(a, b);
      KeysOfPermutation(Front(a), l + r);
      assert Keys(a) == Keys(Front(a)) + [KeyOf(Last(a))];
      assert Keys(b) == Keys(l) + [KeyOf(Last(a))] + Keys(r);
      assert Keys(l + r) == Keys(l) + Keys(r);
    }
  }

  /** Two sorted arrangements of the same keys are equal. */
  lemma {:induction false} SortedIsUnique(a: seq<Key>, b: seq<Key>)
    requires KeySorted(a) && KeySorted(b) && multiset(a) == multiset(b)
    ensures a == b
    decreases |a|
  {
    if a == [] {
      assert |multiset(b)| == 0;
    } else {
      assert |a| == |multiset(a)| == |multiset(b)| == |b|;
      LastIsGreatest(a, b);
      LastIsGreatest(b, a);
      WithoutLast(a);
      WithoutLast(b);
      SortedIsUnique(Front(a), Front(b));
    }
  }

  lemma WithoutLast<T>(s: seq<T>)
    requires s != []
    ensures s == Front(s) + [Last(s)] && multiset(Front(s)) == multiset(s) - multiset{Last(s)}
  {
    assert s == Front(s) + [Last(s)];
  }

  lemma LastIsGreatest(a: seq<Key>, b: seq<Key>)
    requires KeySorted(a) && a != [] && b != [] && multiset(a) == multiset(b)
    ensures !KeyLess(Last(a), Last(b))
  {
    assert Last(b) in multiset(a);
    var k :| 0 <= k < |a| && a[k] == Last(b);
  }

  /** The auditor walks any query result of these rows in this order, up to rows with equal keys. */
  lemma AuditedOrder(rows: seq<LogRow>, es: seq<LogRow>)
    requires multiset(rows) == multiset(es) && KeySorted(Keys(es))
    ensures Keys(SortEvents(rows)) == Keys(es)
  {
    KeysOfPermutation(SortEvents(rows), es);
    SortedIsUnique(Keys(SortEvents(rows)), Keys(es));
  }

  // ---- No anomaly ----

  predicate AllExplained(es: seq<LogRow>, rate: real)
  {
    forall i | 1 <= i < |es| :: Explained(es[i - 1], es[i], rate)
  }

  lemma {:induction false} NoGapFaults(es: seq<LogRow>, rate: real)
    ensures GapFaults(es, rate) == [] <==> AllExplained(es, rate)
  {
    if |es| < 2 {
    } else {
      NoGapFaults(Front(es), rate);
      assert forall i | 0 <= i < |es| - 1 :: Front(es)[i] == es[i];
      if AllExplained(es, rate) {
        assert Explained(es[|es| - 1 - 1], es[|es| - 1], rate);
      }
    }
  }

  lemma {:induction false} NoRowFaults(es: seq<LogRow>)
    ensures RowFaults(es) == [] <==> forall e | e in es :: IdentityHolds(e)
  {
    if es == [] {
    } else {
      NoRowFaults(Front(es));
      assert es == Front(es) + [Last(es)];
    }
  }

  lemma ExplainedByKeys(es: seq<LogRow>, fs: seq<LogRow>, rate: real)
    requires Keys(es) == Keys(fs)
    ensures AllExplained(es, rate) <==> AllExplained(fs, rate)
  {
    assert |es| == |Keys(es)| == |fs|;
    forall i | 1 <= i < |es| ensures Explained(es[i - 1], es[i], rate) <==> Explained(fs[i - 1], fs[i], rate) {
      assert Keys(es)[i] == Keys(fs)[i] && Keys(es)[i - 1] == Keys(fs)[i - 1];
    }
  }

  /** The report is clean exactly when every row's identity and every transition in key order hold. */
  lemma CleanReport(rows: seq<LogRow>, es: seq<LogRow>, rate: real)
    requires multiset(rows) == multiset(es) && KeySorted(Keys(es))
    ensures ReportOf(rows, rate).anomalies == [] <==> (forall e | e in es :: IdentityHolds(e)) && AllExplained(es, rate)
  {
    var sorted := SortEvents(rows);
    AuditedOrder(rows, es);
    NoGapFaults(sorted, rate);
    NoRowFaults(sorted);
    ExplainedByKeys(sorted, es, rate);
    forall e ensures e in sorted <==> e in es {
      assert e in sorted <==> e in multiset(sorted);
      assert e in es <==> e in multiset(es);
    }
  }

  // ---- Honest ledgers pass ----

  function Earned(rate: real, t: int): real { EconomyBooks.Earned(rate, t) }

  lemma EarnedMono(rate: real, a: int, b: int)
    requires rate >= 0.0 && a <= b
    ensures Earned(rate, a) <= Earned(rate, b)
  {
    EconomyBooks.EarnedAdd(rate, a, b - a);
    EconomyBooks.Nonneg(b - a, rate);
  }

  /** A row whose columns are true: identity, no negative accrual, no negative cost. */
  predicate TrueRow(e: LogRow) { Residual(e) == 0.0 && e.accrued >= 0.0 && e.cost >= 0.0 }

  /** Between two rows only passive accrual happened; stamps may trail the accrual clock by `slack`. */
  predicate OnlyAccrual(prev: LogRow, cur: LogRow, rate: real, slack: int)
  {
    && prev.at <= cur.at && 0.0 <= Gap(prev, cur)
    && Gap(prev, cur) + cur.accrued <= Earned(rate, cur.at - prev.at + slack)
  }

  /** A chronological ledger of true rows. */
  predicate Honest(es: seq<LogRow>, rate: real, slack: int)
  {
    && (forall i | 0 <= i < |es| :: TrueRow(es[i]))
    && (forall i | 1 <= i < |es| :: OnlyAccrual(es[i - 1], es[i], rate, slack))
  }

  /** Within one second no row starts above the row before it. */
  predicate Descending(es: seq<LogRow>)
  {
    forall i | 1 <= i < |es| && es[i - 1].at == es[i].at ::
      es[i].before < es[i - 1].before || (es[i].before == es[i - 1].before && es[i].after <= es[i - 1].after)
  }

  lemma {:induction false} ChronologicalIsSorted(es: seq<LogRow>, rate: real, slack: int, i: nat, j: nat)
    requires Honest(es, rate, slack) && Descending(es) && i < j < |es|
    ensures !KeyLess(KeyOf(es[j]), KeyOf(es[i]))
    decreases j
  {
    assert OnlyAccrual(es[j - 1], es[j], rate, slack);
    if i == j - 1 {
    } else {
      ChronologicalIsSorted(es, rate, slack, i, j - 1);
    }
  }

  lemma AccrualIsExplained(prev: LogRow, cur: LogRow, rate: real, slack: int)
    requires OnlyAccrual(prev, cur, rate, slack) && cur.accrued >= 0.0 && rate >= 0.0 && slack <= MARGIN_SECS
    ensures 0.0 <= Gap(prev, cur) <= Ceiling(prev, cur, rate) && Explained(prev, cur, rate)
  {
    EarnedMono(rate, cur.at - prev.at + slack, cur.at - prev.at + MARGIN_SECS);
  }

  /** Whatever order the query returns the rows in, an honest descending ledger reconciles. */
  lemma HonestLedgerReconciles(rows: seq<LogRow>, es: seq<LogRow>, rate: real, slack: int)
    requires multiset(rows) == multiset(es) && rate >= 0.0
    requires Honest(es, rate, slack) && slack <= MARGIN_SECS && Descending(es)
    ensures ReportOf(rows, rate).anomalies == []
  {
    forall i, j | 0 <= i < j < |es| ensures !KeyLess(Keys(es)[j], Keys(es)[i]) {
      ChronologicalIsSorted(es, rate, slack, i, j);
    }
    forall i | 1 <= i < |es| ensures Explained(es[i - 1], es[i], rate) {
      AccrualIsExplained(es[i - 1], es[i], rate, slack);
    }
    CleanReport(rows, es, rate);
  }

  // ---- Every run of the economy writes an honest ledger ----

  predicate Prompt(calls: seq<Call>, slack: int) { forall k | k in calls :: Delay(k.req) <= slack }

  /** The stored balance has drifted from the last row by no more than accrual since that row allows. */
  predicate Tracks(p: Player, until: int, slack: int)
  {
    && p.lastSync.Some?
    && Honest(p.log, p.rate, slack)
    && (p.log != [] ==>
          && Last(p.log).at <= until
          && Last(p.log).after <= p.balance
          && p.balance - Last(p.log).after <= Earned(p.rate, p.lastSync.value - Last(p.log).at + slack))
  }

  /** Passive accrual and logins keep the balance on track. */
  lemma TracksIdle(p: Player, q: Player, until: int, now: int, slack: int)
    requires Tracks(p, until, slack) && p.lastSync.value <= now && p.rate >= 0.0 && until <= now
    requires q.log == p.log && q.rate == p.rate
    requires (q.balance == p.balance && q.lastSync == p.lastSync)
          || (q.lastSync == Some(now) && (q.balance == p.balance || q.balance == Available(p, now)))
    ensures Tracks(q, now, slack)
  {
    if p.log != [] {
      var at := Last(p.log).at;
      EconomyBooks.AccrualIsEarned(p, now);
      EconomyBooks.EarnedAdd(p.rate, p.lastSync.value - at + slack, now - p.lastSync.value);
    }
  }

  /** A committed spend appends an honest row and restarts the drift. */
  lemma TracksSpend(p: Player, q: Player, until: int, now: int, slack: int, kind: Kind, id: int, delay: nat, cost: real)
    requires Tracks(p, until, slack) && p.lastSync.value <= now && p.rate >= 0.0 && until <= now && delay <= slack
    requires cost >= 0.0 && Spend(p, now, kind, id, delay, cost) == Some(q)
    ensures Tracks(q, now + delay, slack)
  {
    var row := Last(q.log);
    EconomyBooks.AccrualIsEarned(p, now);
    if p.log != [] {
      var at := Last(p.log).at;
      EconomyBooks.EarnedAdd(p.rate, p.lastSync.value - at + slack, now - p.lastSync.value);
      EarnedMono(p.rate, now - at + slack, row.at - at + slack);
    }
    assert q.log == p.log + [row];
    EconomyBooks.Nonneg(slack - delay, p.rate);
  }

  /** What a step does to the balance, its clock and the log: one spend, or at most accrual. */
  lemma StepShape(c: Rules, seed: int -> nat, p: Player, r: Request, now: int)
    returns (paid: Option<Player>, kind: Kind, id: int, cost: real)
    requires c.Valid()
    ensures var q := Step(c, seed, p, r, now).0;
            && q.rate == p.rate
            && (if paid.Some? then
                  && cost >= 0.0
                  && Spend(p, now, kind, id, Delay(r), cost) == paid
                  && q.balance == paid.value.balance && q.lastSync == paid.value.lastSync && q.log == paid.value.log
                else
                  && q.log == p.log
                  && ((q.balance == p.balance && q.lastSync == p.lastSync)
                      || (q.lastSync == Some(now) && (q.balance == p.balance || q.balance == Available(p, now)))))
  {
    paid, kind, id, cost := None, GachaPull, 0, 0.0;
    if !Step(c, seed, p, r, now).1.Rejected? {
      match r
      case Pull(_, _, i, delay) =>
        kind, id, cost := GachaPull, i, c.pullCost;
        paid := Spend(p, now, kind, id, delay, cost);
      case Pray(_, nPower, _, _, _, i, delay) =>
        kind, id, cost := VowPrayer, i, nPower;
        paid := Spend(p, now, kind, id, delay, cost);
      case _ =>
    }
  }

  lemma TracksStep(c: Rules, seed: int -> nat, p: Player, r: Request, until: int, now: int, slack: int)
    requires c.Valid() && Tracks(p, until, slack) && until <= now && Delay(r) <= slack
    requires p.lastSync.value <= now && p.rate >= 0.0
    ensures Tracks(Step(c, seed, p, r, now).0, now + Delay(r), slack) && Step(c, seed, p, r, now).0.rate == p.rate
  {
    var q := Step(c, seed, p, r, now).0;
    var paid, kind, id, cost := StepShape(c, seed, p, r, now);
    if paid.Some? {
      TracksSpend(p, paid.value, until, now, slack, kind, id, Delay(r), cost);
    } else {
      TracksIdle(p, q, until, now, slack);
    }
  }

  lemma {:induction false} RunTracks(c: Rules, seed: int -> nat, p: Player, start: int, calls: seq<Call>, slack: int)
    requires c.Valid() && Ready(c, p, start) && Monotone(start, calls) && Prompt(calls, slack) && p.log == []
    ensures Tracks(Final(c, seed, p, calls), Until(start, calls), slack) && Final(c, seed, p, calls).rate == p.rate
  {
    if calls == [] {
    } else {
      var k := Last(calls);
      assert k in calls && forall x | x in Front(calls) :: x in calls;
      RunTracks(c, seed, p, start, Front(calls), slack);
      var q := Final(c, seed, p, Front(calls));
      assert q.lastSync.value <= k.now && q.rate >= 0.0 by { ReadyRun(c, seed, p, start, Front(calls)); }
      TracksStep(c, seed, q, k.req, Until(start, Front(calls)), k.now, slack);
    }
  }

  /**
   * Main result: for every run of syncs, pulls, vows and logins whose log rows are stamped within the
   * margin, if no row within one second starts above its predecessor the audit finds no anomaly.
   */
  lemma HonestRunReconciles(c: Rules, seed: int -> nat, p: Player, start: int, calls: seq<Call>, rows: seq<LogRow>)
    requires c.Valid() && Ready(c, p, start) && Monotone(start, calls) && Prompt(calls, MARGIN_SECS) && p.log == []
    requires Descending(Final(c, seed, p, calls).log)
    requires multiset(rows) == multiset(Final(c, seed, p, calls).log)
    ensures ReportOf(rows, p.rate).anomalies == []
  {
    RunTracks(c, seed, p, start, calls, MARGIN_SECS);
    HonestLedgerReconciles(rows, Final(c, seed, p, calls).log, p.rate, MARGIN_SECS);
  }

  /** Rows stamped in the second they accrue: sharing a second leaves no time to earn anything. */
  lemma SharedSecondEarnsNothing(prev: LogRow, cur: LogRow, rate: real)
    requires OnlyAccrual(prev, cur, rate, 0) && TrueRow(cur) && prev.at == cur.at
    ensures cur.before == prev.after && cur.accrued == 0.0 && cur.after <= cur.before
  {
    assert Earned(rate, 0) == 0.0;
  }

  /** No row that shares its second raises the balance. */
  predicate NoSharedRaise(es: seq<LogRow>)
  {
    forall i | 1 <= i < |es| && es[i - 1].at == es[i].at :: es[i - 1].after <= es[i - 1].before
  }

  /** When rows are stamped at once and no row sharing its second raises the balance, the audit is clean. */
  lemma PromptRunReconciles(c: Rules, seed: int -> nat, p: Player, start: int, calls: seq<Call>, rows: seq<LogRow>)
    requires c.Valid() && Ready(c, p, start) && Monotone(start, calls) && Prompt(calls, 0) && p.log == []
    requires NoSharedRaise(Final(c, seed, p, calls).log)
    requires multiset(rows) == multiset(Final(c, seed, p, calls).log)
    ensures ReportOf(rows, p.rate).anomalies == []
  {
    RunTracks(c, seed, p, start, calls, 0);
    var es := Final(c, seed, p, calls).log;
    forall i | 1 <= i < |es| && es[i - 1].at == es[i].at
      ensures es[i].before < es[i - 1].before || (es[i].before == es[i - 1].before && es[i].after <= es[i - 1].after)
    {
      SharedSecondEarnsNothing(es[i - 1], es[i], p.rate);
    }
    HonestLedgerReconciles(rows, es, p.rate, 0);
  }

  // ---- A passing report is an accounting equation ----

  function SumTolerance(es: seq<LogRow>): real
  {
    if es == [] then 0.0 else SumTolerance(Front(es)) + Tolerance(Last(es))
  }

  predicate DistinctSeconds(es: seq<LogRow>) { forall i | 1 <= i < |es| :: es[i - 1].at < es[i].at }

  function SumResidual(es: seq<LogRow>): real { if es == [] then 0.0 else SumResidual(Front(es)) + Residual(Last(es)) }

  lemma {:induction false} ResidualsTolerable(es: seq<LogRow>)
    requires forall e | e in es :: IdentityHolds(e)
    ensures AbsR(SumResidual(es)) <= SumTolerance(es)
  {
    if es == [] {
    } else {
      assert Last(es) in es && forall e | e in Front(es) :: e in es;
      ResidualsTolerable(Front(es));
    }
  }

  /** Across distinct seconds the accepted gaps and the rows add up to the whole change of balance. */
  lemma {:induction false} Telescope(es: seq<LogRow>, rate: real)
    requires es != [] && DistinctSeconds(es) && AllExplained(es, rate)
    ensures Last(es).after - es[0].before == SumAccrued(es) - SumCost(es) + Unlogged(es, rate) + SumResidual(es)
  {
    if |es| > 1 {
      var init := Front(es);
      assert forall i | 0 <= i < |init| :: init[i] == es[i];
      Telescope(init, rate);
      assert Explained(es[|es| - 1 - 1], es[|es| - 1], rate) && es[|es| - 1 - 1].at < es[|es| - 1].at;
    } else {
      assert Front(es) == [];
    }
  }

  lemma {:induction false} SumsSplit(a: seq<LogRow>, b: seq<LogRow>)
    ensures SumAccrued(a + b) == SumAccrued(a) + SumAccrued(b) && SumCost(a + b) == SumCost(a) + SumCost(b)
    ensures SumTolerance(a + b) == SumTolerance(a) + SumTolerance(b)
  {
    if b == [] {
      assert a + b == a;
    } else {
      assert Front(a + b) == a + Front(b);
      SumsSplit(a, Front(b));
    }
  }

  lemma {:induction false} SumsOfPermutation(a: seq<LogRow>, b: seq<LogRow>)
    requires multiset(a) == multiset(b)
    ensures SumAccrued(a) == SumAccrued(b) && SumCost(a) == SumCost(b) && SumTolerance(a) == SumTolerance(b)
    decreases |a|
  {
    if a == [] {
      assert |multiset(b)| == 0;
    } else {
      var l, r := Locate(a, b);
      SumsOfPermutation(Front(a), l + r);
      SumsSplit(l, r);
      SumsSplit(l + [Last(a)], r);
      SumsSplit(l, [Last(a)]);
      SumsSplit([], [Last(a)]);
      assert Front([Last(a)]) == [];
    }
  }

  /** How far last = first + accrued - cost + unlogged is from holding. */
  function Imbalance(first: real, last: real, accrued: real, cost: real, unlogged: real): real
  {
    AbsR(last - first - (accrued - cost + unlogged))
  }

  lemma SortedBalances(es: seq<LogRow>, rate: real)
    requires es != [] && DistinctSeconds(es) && RowFaults(es) + GapFaults(es, rate) == []
    ensures Imbalance(es[0].before, Last(es).after, SumAccrued(es), SumCost(es), Unlogged(es, rate)) <= SumTolerance(es)
  {
    NoGapFaults(es, rate);
    NoRowFaults(es);
    Telescope(es, rate);
    ResidualsTolerable(es);
  }

  /** For any ledger, honest or not: no anomaly and distinct seconds mean the window's books balance. */
  lemma CleanAuditBalances(rows: seq<LogRow>, rate: real)
    requires rows != [] && ReportOf(rows, rate).anomalies == [] && DistinctSeconds(SortEvents(rows))
    ensures var r := ReportOf(rows, rate);
            && r.first.Some? && r.last.Some?
            && Imbalance(r.first.value, r.last.value, r.totalAccrued, r.totalCost, r.unlogged) <= SumTolerance(rows)
  {
    var es := Ordered(rows, rate);
    SortedBalances(es, rate);
    SumsOfPermutation(rows, es);
  }

  /** The ledger in audited order, with what the report says about it. */
  lemma Ordered(rows: seq<LogRow>, rate: real) returns (es: seq<LogRow>)
    requires rows != []
    ensures es == SortEvents(rows) && es != [] && multiset(es) == multiset(rows)
    ensures var r := ReportOf(rows, rate);
            && r.first == Some(es[0].before) && r.last == Some(Last(es).after) && r.unlogged == Unlogged(es, rate)
            && r.totalAccrued == SumAccrued(rows) && r.totalCost == SumCost(rows)
            && r.anomalies == RowFaults(es) + GapFaults(es, rate)
  {
    es := SortEvents(rows);
    assert |es| == |multiset(es)| == |rows|;
  }

  // ---- Unlogged accrual stays under the ceilings ----

  /** Transitions across seconds. */
  function Gaps(es: seq<LogRow>): nat
  {
    if |es| < 2 then 0 else Gaps(Front(es)) + (if Elapsed(es[|es| - 2], Last(es)) > 0 then 1 else 0)
  }

  /** For every ledger: unlogged_accrual <= max_plausible_accrual + one epsilon a gap. */
  lemma {:induction false} UnloggedIsPlausible(es: seq<LogRow>, rate: real)
    requires rate >= 0.0
    ensures Unlogged(es, rate) <= MaxPlausible(es, rate) + Gaps(es) as real * EPSILON
  {
    if |es| < 2 {
    } else {
      UnloggedIsPlausible(Front(es), rate);
      EconomyBooks.Nonneg(Elapsed(es[|es| - 2], Last(es)) + MARGIN_SECS, rate);
    }
  }

  /** The epsilon is needed: an accepted gap can put unlogged_accrual above max_plausible_accrual. */
  lemma UnloggedCanPassTheCeiling()
    ensures var es := [LogRow(GachaPull, 1, 0, 30.0, 0.0, 100.0, 70.0),
                       LogRow(GachaPull, 2, 1, 30.0, 0.0, 73.0000005, 43.0000005)];
            GapFaults(es, 1.0) == [] && Unlogged(es, 1.0) > MaxPlausible(es, 1.0)
  {
    var es := [LogRow(GachaPull, 1, 0, 30.0, 0.0, 100.0, 70.0),
               LogRow(GachaPull, 2, 1, 30.0, 0.0, 73.0000005, 43.0000005)];
    assert |Front(es)| < 2;
    assert Explained(es[0], es[1], 1.0);
  }

  // ---- When the promise of the ceiling holds without epsilons ----

  /** No accepted gap across seconds is above its ceiling. */
  predicate WithinCeilings(es: seq<LogRow>, rate: real)
  {
    forall i | 1 <= i < |es| && es[i - 1].at < es[i].at && Explained(es[i - 1], es[i], rate) ::
      Gap(es[i - 1], es[i]) <= Ceiling(es[i - 1], es[i], rate)
  }

  /** Seconds never fall. */
  predicate InOrder(es: seq<LogRow>) { forall i | 1 <= i < |es| :: es[i - 1].at <= es[i].at }

  /** For any ledger: accepted gaps within their ceilings keep unlogged_accrual within max_plausible_accrual. */
  lemma {:induction false} WithinCeilingsIsPlausible(es: seq<LogRow>, rate: real)
    requires rate >= 0.0 && WithinCeilings(es, rate) && InOrder(es)
    ensures Unlogged(es, rate) <= MaxPlausible(es, rate)
  {
    if |es| < 2 {
    } else {
      var n := |es| - 1;
      assert forall i | 0 <= i < n :: Front(es)[i] == es[i];
      WithinCeilingsIsPlausible(Front(es), rate);
      assert es[n - 1].at < es[n].at && Explained(es[n - 1], es[n], rate)
          ==> Gap(es[n - 1], es[n]) <= Ceiling(es[n - 1], es[n], rate);
    }
  }

  /** The part of a ledger from row i up to row j. */
  function Part(es: seq<LogRow>, i: nat, j: nat): seq<LogRow>
    requires i <= j <= |es|
  {
    es[i..j]
  }

  /** Two neighbours keep the promise exactly when their gap is within its ceiling or rejected. */
  lemma PairIsPlausible(a: LogRow, b: LogRow, rate: real)
    requires rate >= 0.0 && a.at <= b.at
    ensures Unlogged([a, b], rate) <= MaxPlausible([a, b], rate)
            <==> (a.at < b.at && Explained(a, b, rate) ==> Gap(a, b) <= Ceiling(a, b, rate))
  {
    assert Front([a, b]) == [a] && Last([a, b]) == b;
    assert Unlogged([a], rate) == 0.0 == MaxPlausible([a], rate);
    EconomyBooks.Nonneg(Elapsed(a, b) + MARGIN_SECS, rate);
  }

  lemma PartWithin(es: seq<LogRow>, rate: real, i: nat, j: nat)
    requires i <= j <= |es| && InOrder(es) && WithinCeilings(es, rate)
    ensures InOrder(Part(es, i, j)) && WithinCeilings(Part(es, i, j), rate)
  {
    var part := Part(es, i, j);
    assert forall k | 0 <= k < |part| :: part[k] == es[i + k];
  }

  /**
   * The promise of the ceiling, exactly: it holds for every contiguous part of a ledger if and only if every
   * accepted gap is within its own ceiling.
   */
  lemma PlausibleExactlyWithinCeilings(es: seq<LogRow>, rate: real)
    requires rate >= 0.0 && InOrder(es)
    ensures WithinCeilings(es, rate)
            <==> forall i: nat, j: nat | i <= j <= |es| ::
                   Unlogged(Part(es, i, j), rate) <= MaxPlausible(Part(es, i, j), rate)
  {
    if WithinCeilings(es, rate) {
      forall i: nat, j: nat | i <= j <= |es|
        ensures Unlogged(Part(es, i, j), rate) <= MaxPlausible(Part(es, i, j), rate)
      {
        PartWithin(es, rate, i, j);
        WithinCeilingsIsPlausible(Part(es, i, j), rate);
      }
    } else {
      var i :| 1 <= i < |es| && es[i - 1].at < es[i].at && Explained(es[i - 1], es[i], rate)
               && Gap(es[i - 1], es[i]) > Ceiling(es[i - 1], es[i], rate);
      PairIsPlausible(es[i - 1], es[i], rate);
      assert Part(es, i - 1, i + 1) == [es[i - 1], es[i]];
    }
  }

  /** Both sums look at nothing but the keys. */
  lemma {:induction false} SumsByKeys(es: seq<LogRow>, fs: seq<LogRow>, rate: real)
    requires Keys(es) == Keys(fs)
    ensures Unlogged(es, rate) == Unlogged(fs, rate) && MaxPlausible(es, rate) == MaxPlausible(fs, rate)
    decreases |es|
  {
    assert |es| == |Keys(es)| == |fs|;
    if |es| < 2 {
    } else {
      var n := |es| - 1;
      assert Keys(es)[n] == Keys(fs)[n] && Keys(es)[n - 1] == Keys(fs)[n - 1];
      SumsByKeys(Front(es), Front(fs), rate);
    }
  }

  lemma AuditedSums(rows: seq<LogRow>, es: seq<LogRow>, rate: real)
    requires multiset(rows) == multiset(es) && KeySorted(Keys(es))
    ensures Unlogged(SortEvents(rows), rate) == Unlogged(es, rate)
    ensures MaxPlausible(SortEvents(rows), rate) == MaxPlausible(es, rate)
  {
    AuditedOrder(rows, es);
    SumsByKeys(SortEvents(rows), es, rate);
  }

  /** The report of rows that sort into es. */
  lemma PlausibleReport(rows: seq<LogRow>, es: seq<LogRow>, rate: real)
    requires multiset(rows) == multiset(es) && KeySorted(Keys(es))
    requires rate >= 0.0 && WithinCeilings(es, rate)
    ensures ReportOf(rows, rate).unlogged <= ReportOf(rows, rate).maxPlausible
  {
    assert Unlogged(es, rate) <= MaxPlausible(es, rate) by {
      WithinCeilingsIsPlausible(es, rate);
    }
    AuditedSums(rows, es, rate);
  }

  /** Honest descending ledgers, stamped within the margin, keep the promise as it stands. */
  lemma HonestLedgerIsPlausible(rows: seq<LogRow>, es: seq<LogRow>, rate: real, slack: int)
    requires multiset(rows) == multiset(es) && rate >= 0.0
    requires Honest(es, rate, slack) && slack <= MARGIN_SECS && Descending(es)
    ensures ReportOf(rows, rate).unlogged <= ReportOf(rows, rate).maxPlausible
  {
    forall i, j | 0 <= i < j < |es| ensures !KeyLess(Keys(es)[j], Keys(es)[i]) {
      ChronologicalIsSorted(es, rate, slack, i, j);
    }
    forall i | 1 <= i < |es| ensures Gap(es[i - 1], es[i]) <= Ceiling(es[i - 1], es[i], rate) {
      AccrualIsExplained(es[i - 1], es[i], rate, slack);
    }
    PlausibleReport(rows, es, rate);
  }

  /** And so does every run of the economy whose shared seconds descend. */
  lemma HonestRunIsPlausible(c: Rules, seed: int -> nat, p: Player, start: int, calls: seq<Call>, rows: seq<LogRow>)
    requires c.Valid() && Ready(c, p, start) && Monotone(start, calls) && Prompt(calls, MARGIN_SECS) && p.log == []
    requires Descending(Final(c, seed, p, calls).log)
    requires multiset(rows) == multiset(Final(c, seed, p, calls).log)
    ensures ReportOf(rows, p.rate).unlogged <= ReportOf(rows, p.rate).maxPlausible
  {
    RunTracks(c, seed, p, start, calls, MARGIN_SECS);
    HonestLedgerIsPlausible(rows, Final(c, seed, p, calls).log, p.rate, MARGIN_SECS);
  }

  // ---- What an anomaly says ----

  /** The anomaly names row i and states by how much which rule is broken there. */
  predicate Names(a: Anomaly, es: seq<LogRow>, rate: real, i: nat)
  {
    && i < |es| && a.kind == es[i].kind && a.id == es[i].id && a.at == es[i].at
    && match a.fault
       case RowIdentity =>
         es[i].after == es[i].before + es[i].accrued - es[i].cost + a.delta && AbsR(a.delta) > Tolerance(es[i])
       case NegativeContinuity => i > 0 && es[i].before == es[i - 1].after + a.delta && a.delta < -EPSILON
       case ExcessAccrual =>
         i > 0 && es[i].before == es[i - 1].after + Ceiling(es[i - 1], es[i], rate) + a.delta && a.delta > EPSILON
  }

  lemma {:induction false} RowFaultIsReal(es: seq<LogRow>, rate: real, a: Anomaly) returns (i: nat)
    requires a in RowFaults(es)
    ensures Names(a, es, rate, i)
  {
    if a in RowFaults(Front(es)) {
      i := RowFaultIsReal(Front(es), rate, a);
    } else {
      i := |es| - 1;
    }
  }

  lemma {:induction false} GapFaultIsReal(es: seq<LogRow>, rate: real, a: Anomaly) returns (i: nat)
    requires a in GapFaults(es, rate) && rate >= 0.0
    ensures Names(a, es, rate, i)
  {
    if a in GapFaults(Front(es), rate) {
      i := GapFaultIsReal(Front(es), rate, a);
    } else {
      i := |es| - 1;
    }
  }

  /** Each anomaly of a report names a row, and the residual, drop or excess it states is there. */
  lemma AnomaliesAreReal(rows: seq<LogRow>, rate: real, a: Anomaly) returns (i: nat)
    requires a in ReportOf(rows, rate).anomalies && rate >= 0.0
    ensures Names(a, SortEvents(rows), rate, i)
  {
    var es := SortEvents(rows);
    if a in RowFaults(es) { i := RowFaultIsReal(es, rate, a); } else { i := GapFaultIsReal(es, rate, a); }
  }
}
