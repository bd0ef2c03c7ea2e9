/**
 * The log of a run is the run's committed requests, and the audit's totals are its books: what a reader of
 * the report can say about the requests (internal/diag/economy.go lines 155-182 and 243-300).
 */
module LedgerTrail {
  import opened Prelude
  import opened Economy
  import opened EconomyBooks
  import opened Audit
  import T = AuditTheorems
  import Cairn

  // ---- The log ----

  /** What an answered request leaves: nothing unless it was committed. */
  function RowsOf(c: Rules, before: real, r: Request, now: int, answer: Outcome): seq<LogRow>
  {
    match (r, answer)
    case (Pull(_, _, id, delay), Pulled(_, _, _, points)) =>
      [LogRow(GachaPull, id, now + delay, c.pullCost, points - before + c.pullCost, before, points)]
    case (Pray(_, nPower, _, _, _, id, delay), Prayed(_, _, _, points)) =>
      [LogRow(VowPrayer, id, now + delay, nPower, points - before + nPower, before, points)]
    case _ => []
  }

  /** The rows that a run's committed requests should leave, from its requests, answers and balances. */
  ghost function Trail(c: Rules, seed: Cairn.Seed, p: Player, calls: seq<Call>): seq<LogRow>
    requires c.Valid()
  {
    if calls == [] then []
    else
      Trail(c, seed, p, Front(calls))
      + RowsOf(c, Final(c, seed, p, Front(calls)).balance, Last(calls).req, Last(calls).now, Answer(c, seed, p, calls))
  }

  lemma PullTrace(c: Rules, seed: Cairn.Seed, p: Player, r: Request, now: int)
    requires c.Valid() && r.Pull?
    ensures var s := Step(c, seed, p, r, now); s.0.log == p.log + RowsOf(c, p.balance, r, now, s.1)
  {}

  lemma PrayTrace(c: Rules, seed: Cairn.Seed, p: Player, r: Request, now: int)
    requires c.Valid() && r.Pray?
    ensures var s := Step(c, seed, p, r, now); s.0.log == p.log + RowsOf(c, p.balance, r, now, s.1)
  {}

  lemma TraceStep(c: Rules, seed: Cairn.Seed, p: Player, r: Request, now: int)
    requires c.Valid()
    ensures var s := Step(c, seed, p, r, now); s.0.log == p.log + RowsOf(c, p.balance, r, now, s.1)
  {
    match r
    case Pull(_, _, _, _) => PullTrace(c, seed, p, r, now);
    case Pray(_, _, _, _, _, _, _) => PrayTrace(c, seed, p, r, now);
    case _ =>
  }

  /** Main result: a run appends exactly the rows of its committed requests, in order. */
  lemma {:induction false} LogIsTheTrail(c: Rules, seed: Cairn.Seed, p: Player, calls: seq<Call>)
    requires c.Valid()
    ensures Final(c, seed, p, calls).log == p.log + Trail(c, seed, p, calls)
  {
    if calls == [] {
    } else {
      LogIsTheTrail(c, seed, p, Front(calls));
      TraceStep(c, seed, Final(c, seed, p, Front(calls)), Last(calls).req, Last(calls).now);
    }
  }

  // ---- Totals ----

  /** The points that a request banks without a row. */
  function BankedBy(p: Player, r: Request, now: int): real { if r.Sync? then Accrual(p, now) else 0.0 }

  /** The points that the syncs of a run have banked. */
  ghost function Banked(c: Rules, seed: Cairn.Seed, p: Player, calls: seq<Call>): real
    requires c.Valid()
  {
    if calls == [] then 0.0
    else
      Banked(c, seed, p, Front(calls)) + BankedBy(Final(c, seed, p, Front(calls)), Last(calls).req, Last(calls).now)
  }

  /** The totals of the log are those of the books. */
  predicate Totalled(p0: Player, p: Player, log: seq<LogRow>, l: Ledger, banked: real)
  {
    && CountKind(log, GachaPull) == l.pulls && CountKind(log, VowPrayer) == l.vows && SumCost(log) == l.spent
    && p.balance == p0.balance + banked + SumAccrued(log) - SumCost(log)
  }

  lemma SumsOneMore(log: seq<LogRow>, row: LogRow)
    ensures SumCost(log + [row]) == SumCost(log) + row.cost && SumAccrued(log + [row]) == SumAccrued(log) + row.accrued
    ensures forall k :: CountKind(log + [row], k) == CountKind(log, k) + (if row.kind == k then 1 else 0)
  {
    assert Front(log + [row]) == log;
  }

  /** One more row, for one more pull or vow, keeps the totals. */
  lemma TotalledOneMore(p0: Player, p: Player, q: Player, log: seq<LogRow>, row: LogRow, l: Ledger, more: Ledger,
                        banked: real)
    requires Totalled(p0, p, log, l, banked) && q.balance == p.balance + row.accrued - row.cost
    requires more.spent == l.spent + row.cost
    requires more.pulls == l.pulls + Once(row.kind.GachaPull?) && more.vows == l.vows + Once(row.kind.VowPrayer?)
    ensures Totalled(p0, q, log + [row], more, banked)
  {
    SumsOneMore(log, row);
  }

  lemma RowsAreBooked(c: Rules, seed: Cairn.Seed, p: Player, r: Request, now: int, l: Ledger)
    requires c.Valid() && (r.Pull? || r.Pray?)
    ensures var s := Step(c, seed, p, r, now);
            var rows, more := RowsOf(c, p.balance, r, now, s.1), Entry(c, l, p, r, now, s.1);
            if s.1.Rejected? then rows == [] && s.0 == p && more == l
            else
              && rows == [rows[0]] && s.0.balance == p.balance + rows[0].accrued - rows[0].cost
              && more.spent == l.spent + rows[0].cost
              && more.pulls == l.pulls + Once(rows[0].kind.GachaPull?)
              && more.vows == l.vows + Once(rows[0].kind.VowPrayer?)
  {}

  lemma TotalledRow(c: Rules, seed: Cairn.Seed, p0: Player, p: Player, r: Request, now: int, log: seq<LogRow>,
                    l: Ledger, banked: real)
    requires c.Valid() && Totalled(p0, p, log, l, banked) && (r.Pull? || r.Pray?)
    ensures var s := Step(c, seed, p, r, now);
            Totalled(p0, s.0, log + RowsOf(c, p.balance, r, now, s.1), Entry(c, l, p, r, now, s.1), banked)
  {
    var s := Step(c, seed, p, r, now);
    var rows := RowsOf(c, p.balance, r, now, s.1);
    RowsAreBooked(c, seed, p, r, now, l);
    if rows == [] {
      assert log + rows == log;
    } else {
      TotalledOneMore(p0, p, s.0, log, rows[0], l, Entry(c, l, p, r, now, s.1), banked);
    }
  }

  lemma TotalledStep(c: Rules, seed: Cairn.Seed, p0: Player, p: Player, r: Request, now: int, log: seq<LogRow>,
                     l: Ledger, banked: real)
    requires c.Valid() && Totalled(p0, p, log, l, banked)
    ensures var s := Step(c, seed, p, r, now);
            Totalled(p0, s.0, log + RowsOf(c, p.balance, r, now, s.1), Entry(c, l, p, r, now, s.1),
                     banked + BankedBy(p, r, now))
  {
    if r.Pull? || r.Pray? {
      TotalledRow(c, seed, p0, p, r, now, log, l, banked);
    } else {
      assert log + [] == log;
    }
  }

  lemma {:induction false} TrailIsTotalled(c: Rules, seed: Cairn.Seed, p: Player, calls: seq<Call>)
    requires c.Valid()
    ensures Totalled(p, Final(c, seed, p, calls), Trail(c, seed, p, calls), Books(c, seed, p, calls),
                     Banked(c, seed, p, calls))
  {
    if calls == [] {
    } else {
      TrailIsTotalled(c, seed, p, Front(calls));
      TotalledStep(c, seed, p, Final(c, seed, p, Front(calls)), Last(calls).req, Last(calls).now,
                   Trail(c, seed, p, Front(calls)), Books(c, seed, p, Front(calls)), Banked(c, seed, p, Front(calls)));
    }
  }

  /** Totals do not depend on the order in which the query returns the rows. */
  lemma {:induction false} TotalsIgnoreOrder(a: seq<LogRow>, b: seq<LogRow>)
    requires multiset(a) == multiset(b)
    ensures SumCost(a) == SumCost(b) && SumAccrued(a) == SumAccrued(b)
    ensures forall k :: CountKind(a, k) == CountKind(b, k)
  {
    if a == [] {
      assert multiset(b) == multiset{};
    } else {
      var l, r := Locate(a, b);
      TotalsIgnoreOrder(Front(a), l + r);
      MovedTotals(l, Last(a), r);
    }
  }

  lemma {:induction false} MovedTotals(l: seq<LogRow>, x: LogRow, r: seq<LogRow>)
    ensures SumCost(l + [x] + r) == SumCost(l + r) + x.cost && SumAccrued(l + [x] + r) == SumAccrued(l + r) + x.accrued
    ensures forall k :: CountKind(l + [x] + r, k) == CountKind(l + r, k) + (if x.kind == k then 1 else 0)
  {
    if r == [] {
      assert l + [x] + r == l + [x] && l + r == l;
      SumsOneMore(l, x);
    } else {
      MovedTotals(l, x, Front(r));
      assert l + [x] + r == (l + [x] + Front(r)) + [Last(r)] && l + r == (l + Front(r)) + [Last(r)];
      SumsOneMore(l + [x] + Front(r), Last(r));
      SumsOneMore(l + Front(r), Last(r));
    }
  }

  lemma TotalsOfReport(rows: seq<LogRow>, log: seq<LogRow>, rate: real)
    requires multiset(rows) == multiset(log)
    ensures var r := ReportOf(rows, rate);
            && r.pulls == CountKind(log, GachaPull) && r.vows == CountKind(log, VowPrayer)
            && r.totalCost == SumCost(log) && r.totalAccrued == SumAccrued(log)
  {
    TotalsIgnoreOrder(rows, log);
  }

  /** The report says what the ledger says. */
  predicate Agrees(r: Report, p0: Player, p: Player, l: Ledger, banked: real)
  {
    && r.pulls == l.pulls && r.vows == l.vows && r.totalCost == l.spent
    && p0.lastSync.Some? && p.lastSync.Some?
    && r.totalAccrued + banked == Earned(p0.rate, p.lastSync.value - p0.lastSync.value - l.lost)
  }

  lemma ReportOfBalance(p0: Player, p: Player, rows: seq<LogRow>, log: seq<LogRow>, l: Ledger, banked: real)
    requires Totalled(p0, p, log, l, banked) && Balanced(p0, p, l) && multiset(rows) == multiset(log)
    ensures Agrees(ReportOf(rows, p0.rate), p0, p, l, banked)
  {
    TotalsOfReport(rows, log, p0.rate);
  }

  /**
   * Main result: for every run from an empty log, whatever order the query returns, the report counts the
   * run's pulls and vows, its cost is what they spent, and its accrual is what was earned since the start
   * less what syncs have banked and logins thrown away.
   */
  lemma ReportIsTheBooks(c: Rules, seed: Cairn.Seed, p: Player, start: int, calls: seq<Call>, rows: seq<LogRow>)
    requires c.Valid() && Started(c, p, start) && Monotone(start, calls) && p.balance >= 0.0 && p.log == []
    requires multiset(rows) == multiset(Final(c, seed, p, calls).log)
    ensures Agrees(ReportOf(rows, p.rate), p, Final(c, seed, p, calls), Books(c, seed, p, calls),
                   Banked(c, seed, p, calls))
  {
    LogIsTheTrail(c, seed, p, calls);
    assert p.log + Trail(c, seed, p, calls) == Trail(c, seed, p, calls);
    TrailIsTotalled(c, seed, p, calls);
    PointsBalance(c, seed, p, start, calls);
    ReportOfBalance(p, Final(c, seed, p, calls), rows, Trail(c, seed, p, calls), Books(c, seed, p, calls),
                    Banked(c, seed, p, calls));
  }

  // ---- Seconds ----

  /** Two rows carry the same second. */
  predicate SharesSecond(rows: seq<LogRow>) { exists i, j | 0 <= i < j < |rows| :: rows[i].at == rows[j].at }

  predicate Rising(es: seq<LogRow>) { forall i, j | 0 <= i < j < |es| :: es[i].at <= es[j].at }

  lemma SharedIsNeighbouring(es: seq<LogRow>)
    requires Rising(es)
    ensures SomeSecondShared(es) <==> SharesSecond(es)
  {
    if SomeSecondShared(es) {
      var i :| 1 <= i < |es| && Elapsed(es[i - 1], es[i]) == 0;
      assert es[i - 1].at == es[i].at;
    }
    if SharesSecond(es) {
      var i, j :| 0 <= i < j < |es| && es[i].at == es[j].at;
      assert es[i].at <= es[i + 1].at && (i + 1 < j ==> es[i + 1].at <= es[j].at);
      assert Elapsed(es[i + 1 - 1], es[i + 1]) == 0;
    }
  }

  /** How many rows carry second t. */
  function AtSecond(rows: seq<LogRow>, t: int): nat
  {
    if rows == [] then 0 else AtSecond(Front(rows), t) + Once(Last(rows).at == t)
  }

  lemma {:induction false} AtSecondSome(rows: seq<LogRow>, t: int)
    ensures AtSecond(rows, t) >= 1 <==> exists i :: 0 <= i < |rows| && rows[i].at == t
  {
    if rows == [] {
    } else {
      AtSecondSome(Front(rows), t);
      assert Last(rows) == rows[|rows| - 1];
      assert forall i | 0 <= i < |rows| - 1 :: Front(rows)[i] == rows[i];
    }
  }

  lemma {:induction false} AtSecondTwice(rows: seq<LogRow>, t: int)
    ensures AtSecond(rows, t) >= 2 <==> exists i, j :: 0 <= i < j < |rows| && rows[i].at == t && rows[j].at == t
  {
    if rows == [] {
    } else {
      var n := |rows| - 1;
      AtSecondTwice(Front(rows), t);
      AtSecondSome(Front(rows), t);
      assert forall i | 0 <= i < n :: Front(rows)[i] == rows[i];
      if AtSecond(rows, t) >= 2 && AtSecond(Front(rows), t) < 2 {
        var i :| 0 <= i < n && Front(rows)[i].at == t;
        assert rows[i].at == t && rows[n].at == t;
      }
    }
  }

  lemma {:induction false} AtSecondIgnoresOrder(a: seq<LogRow>, b: seq<LogRow>, t: int)
    requires multiset(a) == multiset(b)
    ensures AtSecond(a, t) == AtSecond(b, t)
  {
    if a == [] {
      assert multiset(b) == multiset{};
    } else {
      var l, r := Locate(a, b);
      AtSecondIgnoresOrder(Front(a), l + r, t);
      MovedSecond(l, Last(a), r, t);
    }
  }

  lemma {:induction false} MovedSecond(l: seq<LogRow>, x: LogRow, r: seq<LogRow>, t: int)
    ensures AtSecond(l + [x] + r, t) == AtSecond(l + r, t) + Once(x.at == t)
  {
    if r == [] {
      assert l + [x] + r == l + [x] && l + r == l;
      assert Front(l + [x]) == l;
    } else {
      MovedSecond(l, x, Front(r), t);
      assert Front(l + [x] + r) == l + [x] + Front(r) && Front(l + r) == l + Front(r);
    }
  }

  lemma SharesSecondIgnoresOrder(a: seq<LogRow>, b: seq<LogRow>)
    requires multiset(a) == multiset(b) && SharesSecond(a)
    ensures SharesSecond(b)
  {
    var i, j :| 0 <= i < j < |a| && a[i].at == a[j].at;
    AtSecondTwice(a, a[i].at);
    AtSecondIgnoresOrder(a, b, a[i].at);
    AtSecondTwice(b, a[i].at);
  }

  /** same_second_events is set exactly when two rows carry the same second, in any order of the query. */
  lemma SameSecondIsReported(rows: seq<LogRow>, rate: real)
    ensures ReportOf(rows, rate).sameSecond <==> SharesSecond(rows)
  {
    var es := SortEvents(rows);
    forall i, j | 0 <= i < j < |es| ensures es[i].at <= es[j].at { assert !Less(es[j], es[i]); }
    SharedIsNeighbouring(es);
    if SharesSecond(rows) { SharesSecondIgnoresOrder(rows, es); }
    if SharesSecond(es) { SharesSecondIgnoresOrder(es, rows); }
  }

  // ---- The ceiling ----

  /** The seconds that the ceilings allow for. */
  function CeilingSeconds(es: seq<LogRow>): int
  {
    if |es| < 2 then 0
    else
      var elapsed := Elapsed(es[|es| - 2], Last(es));
      CeilingSeconds(Front(es)) + if elapsed != 0 then elapsed + MARGIN_SECS else 0
  }

  lemma {:induction false} CeilingsAreSeconds(es: seq<LogRow>, rate: real)
    ensures MaxPlausible(es, rate) == Earned(rate, CeilingSeconds(es))
  {
    if |es| < 2 {
      assert Earned(rate, 0) == 0.0;
    } else {
      CeilingsAreSeconds(Front(es), rate);
      EarnedAdd(rate, CeilingSeconds(Front(es)), Elapsed(es[|es| - 2], Last(es)) + MARGIN_SECS);
    }
  }

  lemma {:induction false} SecondsTelescope(es: seq<LogRow>)
    requires es != [] && T.InOrder(es)
    ensures CeilingSeconds(es) == Last(es).at - es[0].at + MARGIN_SECS * T.Gaps(es)
  {
    if |es| == 1 {
    } else {
      assert Last(Front(es)) == es[|es| - 2] && Front(es)[0] == es[0];
      SecondsTelescope(Front(es));
    }
  }

  /** max_plausible_accrual of rows in order is the rate over their span and one margin for each change of second. */
  lemma CeilingsTelescope(es: seq<LogRow>, rate: real)
    requires es != [] && T.InOrder(es)
    ensures MaxPlausible(es, rate) == Earned(rate, Last(es).at - es[0].at + MARGIN_SECS * T.Gaps(es))
  {
    CeilingsAreSeconds(es, rate);
    SecondsTelescope(es);
  }
}
