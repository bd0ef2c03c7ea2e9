/**
 * The ledger auditor (EconomyHandler, internal/diag/economy.go).
 *
 * It sorts a player's log rows, checks each row's balance identity and each transition between
 * neighbours, and totals what the log explains.
 */
module Audit {
  import opened Prelude
  import opened Economy

  const EPSILON: real := 0.000001
  const REL_EPSILON: real := 0.000000000001
  const MARGIN_SECS: int := 2

  datatype Fault = RowIdentity | NegativeContinuity | ExcessAccrual
  datatype Anomaly = Anomaly(fault: Fault, kind: Kind, id: int, at: int, delta: real)

  /** The computed part of economyAudit. */
  datatype Report = Report(pulls: nat, vows: nat, totalAccrued: real, totalCost: real,
                           first: Option<real>, last: Option<real>,
                           unlogged: real, maxPlausible: real, sameSecond: bool, anomalies: seq<Anomaly>)

  // ---- Order of events ----

  /** Earlier second first; within a second the higher balance_before, then balance_after; then id. */
  predicate Less(a: LogRow, b: LogRow)
  {
    if a.at != b.at then a.at < b.at
    else if a.before != b.before then a.before > b.before
    else if a.after != b.after then a.after > b.after
    else a.id < b.id
  }

  predicate Sorted(es: seq<LogRow>) { forall i, j | 0 <= i < j < |es| :: !Less(es[j], es[i]) }

  /** Inserts e into a sorted ledger, after every row not greater than it. */
  function Insert(es: seq<LogRow>, e: LogRow): (r: seq<LogRow>)
    requires Sorted(es)
    ensures Sorted(r) && multiset(r) == multiset(es) + multiset{e}
  {
    if es == [] || !Less(e, Last(es)) then
      es + [e]
    else
      assert es == Front(es) + [Last(es)];
      var r := Insert(Front(es), e) + [Last(es)];
      InsertedBelow(Front(es), e, Insert(Front(es), e), Last(es));
      r
  }

  lemma InsertedBelow(init: seq<LogRow>, e: LogRow, ins: seq<LogRow>, last: LogRow)
    requires Sorted(init + [last]) && Less(e, last) && Sorted(ins)
    requires multiset(ins) == multiset(init) + multiset{e}
    ensures Sorted(ins + [last])
  {
    forall i | 0 <= i < |ins| ensures !Less(last, ins[i]) {
      assert ins[i] in multiset(ins);
      if ins[i] != e {
        assert ins[i] in multiset(init);
        var k :| 0 <= k < |init| && init[k] == ins[i];
        assert (init + [last])[k] == ins[i] && (init + [last])[|init|] == last;
      }
    }
  }

  /** sort.SliceStable under Less; the id tiebreak makes the order total on distinct rows. */
  function SortEvents(rows: seq<LogRow>): (r: seq<LogRow>)
    ensures Sorted(r) && multiset(r) == multiset(rows)
  {
    if rows == [] then []
    else
      assert rows == Front(rows) + [Last(rows)];
      Insert(SortEvents(Front(rows)), Last(rows))
  }

  // ---- The checks ----

  function Tolerance(e: LogRow): real { EPSILON + REL_EPSILON * MaxR(AbsR(e.before), AbsR(e.after)) }

  function Residual(e: LogRow): real { e.after - (e.before + e.accrued - e.cost) }

  predicate IdentityHolds(e: LogRow) { AbsR(Residual(e)) <= Tolerance(e) }

  function Elapsed(prev: LogRow, cur: LogRow): int { Max(0, cur.at - prev.at) }

  function CeilingOf(elapsed: int, rate: real): real { (elapsed + MARGIN_SECS) as real * rate }

  function Ceiling(prev: LogRow, cur: LogRow, rate: real): real { CeilingOf(Elapsed(prev, cur), rate) }

  function Gap(prev: LogRow, cur: LogRow): real { cur.before - prev.after }

  function ReverseGap(prev: LogRow, cur: LogRow): real { prev.before - cur.after }

  predicate InBounds(gap: real, ceiling: real) { gap >= -EPSILON && gap <= ceiling + EPSILON }

  /** A transition some ordering explains: either direction within one second, forward across seconds. */
  predicate Explained(prev: LogRow, cur: LogRow, rate: real)
  {
    var ceiling := Ceiling(prev, cur, rate);
    InBounds(Gap(prev, cur), ceiling) || (Elapsed(prev, cur) == 0 && InBounds(ReverseGap(prev, cur), ceiling))
  }

  /** How an unexplained transition is reported. */
  function Classify(prev: LogRow, cur: LogRow, rate: real): Anomaly
  {
    if Gap(prev, cur) < -EPSILON then Anomaly(NegativeContinuity, cur.kind, cur.id, cur.at, Gap(prev, cur))
    else Anomaly(ExcessAccrual, cur.kind, cur.id, cur.at, Gap(prev, cur) - Ceiling(prev, cur, rate))
  }

  // ---- What the loops accumulate over a ledger in order ----

  function RowFaults(es: seq<LogRow>): seq<Anomaly>
  {
    if es == [] then []
    else
      var e := Last(es);
      if IdentityHolds(e) then RowFaults(Front(es))
      else RowFaults(Front(es)) + [Anomaly(RowIdentity, e.kind, e.id, e.at, Residual(e))]
  }

  function GapFaults(es: seq<LogRow>, rate: real): seq<Anomaly>
  {
    if |es| < 2 then []
    else
      if Explained(es[|es| - 2], Last(es), rate) then GapFaults(Front(es), rate)
      else GapFaults(Front(es), rate) + [Classify(es[|es| - 2], Last(es), rate)]
  }

  /** Balance banked between logged events: the accepted gaps across seconds. */
  function Unlogged(es: seq<LogRow>, rate: real): real
  {
    if |es| < 2 then 0.0
    else
      var prev, cur := es[|es| - 2], Last(es);
      Unlogged(Front(es), rate)
      + (if Elapsed(prev, cur) != 0 && Explained(prev, cur, rate) then Gap(prev, cur) else 0.0)
  }

  /** The ceilings of all transitions across seconds. */
  function MaxPlausible(es: seq<LogRow>, rate: real): real
  {
    if |es| < 2 then 0.0
    else
      var prev, cur := es[|es| - 2], Last(es);
      MaxPlausible(Front(es), rate) + (if Elapsed(prev, cur) != 0 then Ceiling(prev, cur, rate) else 0.0)
  }

  predicate SomeSecondShared(es: seq<LogRow>)
  {
    exists i | 1 <= i < |es| :: Elapsed(es[i - 1], es[i]) == 0
  }

  function SumAccrued(rows: seq<LogRow>): real
  {
    if rows == [] then 0.0 else SumAccrued(Front(rows)) + Last(rows).accrued
  }

  function SumCost(rows: seq<LogRow>): real { if rows == [] then 0.0 else SumCost(Front(rows)) + Last(rows).cost }

  function CountKind(rows: seq<LogRow>, k: Kind): nat
  {
    if rows == [] then 0 else CountKind(Front(rows), k) + (if Last(rows).kind == k then 1 else 0)
  }

  /** The report a ledger should get. */
  function ReportOf(rows: seq<LogRow>, rate: real): Report
  {
    var es := SortEvents(rows);
    Report(CountKind(rows, GachaPull), CountKind(rows, VowPrayer), SumAccrued(rows), SumCost(rows),
           if es == [] then None else Some(es[0].before), if es == [] then None else Some(Last(es).after),
           Unlogged(es, rate), MaxPlausible(es, rate), SomeSecondShared(es), RowFaults(es) + GapFaults(es, rate))
  }

  lemma Prefix<T>(s: seq<T>, i: nat)
    requires i < |s|
    ensures Front(s[..i + 1]) == s[..i] && Last(s[..i + 1]) == s[i]
    ensures i > 0 ==> s[..i + 1][|s[..i + 1]| - 2] == s[i - 1]
  {}

  /** Totals over the rows in the order the query returned them. */
  method Totals(rows: seq<LogRow>) returns (accrued: real, cost: real, pulls: nat, vows: nat)
    ensures accrued == SumAccrued(rows) && cost == SumCost(rows)
    ensures pulls == CountKind(rows, GachaPull) && vows == CountKind(rows, VowPrayer)
  {
    accrued, cost, pulls, vows := 0.0, 0.0, 0, 0;
    for i := 0 to |rows|
      invariant accrued == SumAccrued(rows[..i]) && cost == SumCost(rows[..i])
      invariant pulls == CountKind(rows[..i], GachaPull) && vows == CountKind(rows[..i], VowPrayer)
    {
      Prefix(rows, i);
      accrued := accrued + rows[i].accrued;
      cost := cost + rows[i].cost;
      if rows[i].kind == GachaPull {
        pulls := pulls + 1;
      } else {
        vows := vows + 1;
      }
    }
    assert rows[..|rows|] == rows;
  }

  /** Pass (1): per-row identity. */
  method CheckRows(events: seq<LogRow>) returns (anomalies: seq<Anomaly>)
    ensures anomalies == RowFaults(events)
  {
    anomalies := [];
    for i := 0 to |events|
      invariant anomalies == RowFaults(events[..i])
    {
      Prefix(events, i);
      var e := events[i];
      var tol := EPSILON + REL_EPSILON * MaxR(AbsR(e.before), AbsR(e.after));
      var d := e.after - (e.before + e.accrued - e.cost);
      if AbsR(d) > tol {
        anomalies := anomalies + [Anomaly(RowIdentity, e.kind, e.id, e.at, d)];
      }
    }
    assert events[..|events|] == events;
  }

  /** The body of pass (2) for one transition, with the branches of the handler's loop. */
  method CheckTransition(prev: LogRow, cur: LogRow, rate: real)
    returns (fault: Option<Anomaly>, banked: real, plausible: real, sameSecond: bool)
    ensures sameSecond <==> Elapsed(prev, cur) == 0
    ensures fault == if Explained(prev, cur, rate) then None else Some(Classify(prev, cur, rate))
    ensures banked == if !sameSecond && Explained(prev, cur, rate) then Gap(prev, cur) else 0.0
    ensures plausible == if sameSecond then 0.0 else Ceiling(prev, cur, rate)
  {
    fault, banked, plausible, sameSecond := None, 0.0, 0.0, false;
    var elapsed := cur.at - prev.at;
    if elapsed < 0 {
      elapsed := 0;
    }
    var ceiling := CeilingOf(elapsed, rate);
    var gap := cur.before - prev.after;
    if elapsed == 0 {
      sameSecond := true;
      var revGap := prev.before - cur.after;
      if InBounds(gap, ceiling) || InBounds(revGap, ceiling) {
        return;
      }
    } else {
      plausible := ceiling;
      if InBounds(gap, ceiling) {
        banked := gap;
        return;
      }
    }
    if gap < -EPSILON {
      fault := Some(Anomaly(NegativeContinuity, cur.kind, cur.id, cur.at, gap));
    } else {
      fault := Some(Anomaly(ExcessAccrual, cur.kind, cur.id, cur.at, gap - ceiling));
    }
  }

  /** Pass (2): continuity between neighbours. */
  method CheckGaps(events: seq<LogRow>, rate: real)
    returns (anomalies: seq<Anomaly>, unlogged: real, maxPlausible: real, sameSecond: bool)
    ensures anomalies == GapFaults(events, rate) && sameSecond == SomeSecondShared(events)
    ensures unlogged == Unlogged(events, rate) && maxPlausible == MaxPlausible(events, rate)
  {
    anomalies, unlogged, maxPlausible, sameSecond := [], 0.0, 0.0, false;
    if |events| < 2 {
      return;
    }
    for i := 1 to |events|
      invariant anomalies == GapFaults(events[..i], rate)
      invariant unlogged == Unlogged(events[..i], rate) && maxPlausible == MaxPlausible(events[..i], rate)
      invariant sameSecond <==> exists k | 1 <= k < i :: Elapsed(events[k - 1], events[k]) == 0
    {
      Prefix(events, i);
      var fault, banked, plausible, same := CheckTransition(events[i - 1], events[i], rate);
      if fault.Some? {
        anomalies := anomalies + [fault.value];
      }
      unlogged, maxPlausible, sameSecond := unlogged + banked, maxPlausible + plausible, sameSecond || same;
    }
    assert events[..|events|] == events;
  }

  /** The handler's computation over the rows the query returned. */
  method AuditLedger(rows: seq<LogRow>, rate: real) returns (r: Report)
    ensures r == ReportOf(rows, rate)
  {
    var accrued, cost, pulls, vows := Totals(rows);
    var events := SortEvents(rows);
    var rowFaults := CheckRows(events);
    var gapFaults, unlogged, maxPlausible, sameSecond := CheckGaps(events, rate);
    var first, last := None, None;
    if |events| > 0 {
      first, last := Some(events[0].before), Some(events[|events| - 1].after);
    }
    r := Report(pulls, vows, accrued, cost, first, last, unlogged, maxPlausible, sameSecond, rowFaults + gapFaults);
  }
}
