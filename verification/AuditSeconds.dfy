/**
 * Where the auditor errs: a raise and then spends in one second.
 *
 * The handler's comment holds that same-second events lower the balance monotonically.  They need not:
 * a pull that banks minutes of accrual raises the balance, and vows in the same second then spend.  The
 * sort moves the raising row behind every later row of its second that starts above it, so neighbours
 * are compared that never were neighbours.  For honest ledgers stamped at once, with any number of rows
 * a second, the audit is clean exactly when those comparisons happen to come out.
 */
module AuditSeconds {
  import opened Prelude
  import opened Economy
  import opened Audit
  import opened AuditTheorems

  predicate Stamped(es: seq<LogRow>, rate: real) { Honest(es, rate, 0) && rate >= 0.0 }

  /** Row i shares its second with the next row and raises the balance. */
  predicate Raises(es: seq<LogRow>, i: nat)
  {
    i + 1 < |es| && es[i].at == es[i + 1].at && es[i].after > es[i].before
  }

  /** From row k on, the rows of row i's second that the sort puts ahead of it. */
  function Passing(es: seq<LogRow>, i: nat, k: nat): (m: nat)
    requires i < k <= |es|
    ensures k + m <= |es|
    ensures forall t | k <= t < k + m :: es[t].at == es[i].at && es[t].before > es[i].before
    ensures k + m < |es| ==> es[k + m].at != es[i].at || es[k + m].before <= es[i].before
    decreases |es| - k
  {
    if k < |es| && es[k].at == es[i].at && es[k].before > es[i].before then 1 + Passing(es, i, k + 1) else 0
  }

  /** The last row that the sort puts ahead of row i, which is row i itself unless it raises. */
  function Behind(es: seq<LogRow>, i: nat): (j: nat)
    requires i < |es|
    ensures i <= j < |es|
  {
    if Raises(es, i) then i + Passing(es, i, i + 1) else i
  }

  /** The balance the audit sees first when it comes to row i. */
  function FirstSeen(es: seq<LogRow>, i: nat): real
    requires i < |es|
  {
    if Raises(es, i) then es[i + 1].before else es[i].before
  }

  /** What two seconds may earn, and the tolerance. */
  function Leeway(rate: real): real { CeilingOf(0, rate) + EPSILON }

  /** The raising row i, moved behind row j, starts about where row j ended, or row j started where it ended. */
  predicate FitsBehind(es: seq<LogRow>, i: nat, j: nat, rate: real)
    requires i < |es| && j < |es|
  {
    || es[j].after - EPSILON <= es[i].before <= es[j].after + Leeway(rate)
    || es[i].after <= es[j].before + EPSILON
  }

  /** What follows row i there: a lower row of the same second, or the next second. */
  predicate FitsAhead(es: seq<LogRow>, i: nat, k: nat, rate: real)
    requires i < |es| && k < |es|
  {
    if es[k].at == es[i].at then es[i].before <= es[k].after + Leeway(rate) || es[i].after <= es[k].before + EPSILON
    else es[i].after <= FirstSeen(es, k) + EPSILON
  }

  predicate Fits(es: seq<LogRow>, i: nat, rate: real)
    requires i < |es|
  {
    var j := Behind(es, i);
    FitsBehind(es, i, j, rate) && (j + 1 < |es| ==> FitsAhead(es, i, j + 1, rate))
  }

  predicate RaisesFit(es: seq<LogRow>, rate: real, from: nat)
  {
    forall i: nat | from <= i < |es| && Raises(es, i) :: Fits(es, i, rate)
  }

  /** Row i after the rows that pass it. */
  function Block(es: seq<LogRow>, i: nat): (b: seq<LogRow>)
    requires i < |es|
    ensures b != [] && Last(b) == es[i] && |b| == Behind(es, i) - i + 1
    ensures b[0] == if Behind(es, i) == i then es[i] else es[i + 1]
  {
    es[i + 1..Behind(es, i) + 1] + [es[i]]
  }

  /** The ledger from row i on in the order the audit walks it. */
  function Walked(es: seq<LogRow>, i: nat): (r: seq<LogRow>)
    requires i <= |es|
    decreases |es| - i
  {
    if i == |es| then [] else Block(es, i) + Walked(es, Behind(es, i) + 1)
  }

  lemma BlockRows(es: seq<LogRow>, i: nat)
    requires i < |es|
    ensures multiset(Block(es, i)) + multiset(es[Behind(es, i) + 1..]) == multiset(es[i..])
  {
    var j := Behind(es, i);
    assert es[i..] == [es[i]] + es[i + 1..j + 1] + es[j + 1..];
  }

  lemma {:induction false} WalkedRows(es: seq<LogRow>, i: nat)
    requires i <= |es|
    ensures multiset(Walked(es, i)) == multiset(es[i..])
    decreases |es| - i
  {
    if i == |es| {
    } else {
      WalkedRows(es, Behind(es, i) + 1);
      BlockRows(es, i);
    }
  }

  // ---- One second of an honest ledger ----

  lemma {:induction false} SecondsRise(es: seq<LogRow>, rate: real, i: nat, k: nat)
    requires Stamped(es, rate) && i <= k < |es|
    ensures es[i].at <= es[k].at
    decreases k
  {
    if i == k {
    } else {
      SecondsRise(es, rate, i, k - 1);
      assert OnlyAccrual(es[k - 1], es[k], rate, 0);
    }
  }

  /** Only the first row of a second can raise; the others start where the one before ended. */
  lemma SecondDescends(es: seq<LogRow>, rate: real, k: nat)
    requires Stamped(es, rate) && k + 1 < |es| && es[k].at == es[k + 1].at
    ensures es[k + 1].before == es[k].after && es[k + 1].after <= es[k + 1].before && !Raises(es, k + 1)
  {
    assert OnlyAccrual(es[k + 1 - 1], es[k + 1], rate, 0) && TrueRow(es[k + 1]);
    SharedSecondEarnsNothing(es[k], es[k + 1], rate);
  }

  /** A row that passes a raising one descends from it. */
  lemma {:induction false} PassingRow(es: seq<LogRow>, rate: real, i: nat, t: nat)
    requires Stamped(es, rate) && Raises(es, i) && i < t <= Behind(es, i)
    ensures es[t].at == es[i].at && es[t].before > es[i].before && !Raises(es, t)
    ensures es[t].before == es[t - 1].after && es[t].after <= es[t].before <= es[i].after
    decreases t
  {
    if t == i + 1 {
    } else {
      PassingRow(es, rate, i, t - 1);
    }
    SecondDescends(es, rate, t - 1);
  }

  /** What stands before and after a raising row in the walk. */
  lemma RaisePasses(es: seq<LogRow>, rate: real, i: nat)
    requires Stamped(es, rate) && Raises(es, i)
    ensures var j := Behind(es, i);
            && i < j && es[j].at == es[i].at && es[i].before < es[j].before <= es[i].after
                && es[j].after <= es[j].before
            && (j + 1 < |es| && es[j + 1].at == es[i].at ==>
                  es[j + 1].before == es[j].after <= es[i].before && es[j + 1].after <= es[j + 1].before
                      && !Raises(es, j + 1))
  {
    var j := Behind(es, i);
    SecondDescends(es, rate, i);
    assert j > i;
    PassingRow(es, rate, i, j);
    if j + 1 < |es| && es[j + 1].at == es[i].at { SecondDescends(es, rate, j); }
  }

  /** Only the first row of a block can raise. */
  lemma SkipBlock(es: seq<LogRow>, rate: real, i: nat)
    requires Stamped(es, rate) && i < |es|
    ensures RaisesFit(es, rate, i)
            <==> (Raises(es, i) ==> Fits(es, i, rate)) && RaisesFit(es, rate, Behind(es, i) + 1)
  {
    forall t: nat | i < t <= Behind(es, i) ensures !Raises(es, t) { PassingRow(es, rate, i, t); }
  }

  /** What the audit sees of the walk from row k on. */
  predicate SeenFrom(es: seq<LogRow>, k: nat, rest: seq<LogRow>)
    requires k <= |es|
  {
    && (rest == [] <==> k == |es|)
    && (rest != [] ==> rest[0].at == es[k].at && rest[0].before == FirstSeen(es, k))
    && (rest != [] && !Raises(es, k) ==> rest[0] == es[k])
  }

  lemma WalkedIsSeen(es: seq<LogRow>, rate: real, k: nat)
    requires Stamped(es, rate) && k <= |es|
    ensures SeenFrom(es, k, Walked(es, k))
  {
    if k < |es| {
      assert Walked(es, k)[0] == Block(es, k)[0];
      if Raises(es, k) { RaisePasses(es, rate, k); }
    }
  }

  // ---- The walked order is the sorted order ----

  /** Neighbours are in key order. */
  predicate Ordered(ws: seq<LogRow>) { forall i | 1 <= i < |ws| :: !KeyLess(KeyOf(ws[i]), KeyOf(ws[i - 1])) }

  lemma ConcatOrdered(a: seq<LogRow>, b: seq<LogRow>)
    requires Ordered(a) && Ordered(b)
    requires a != [] && b != [] ==> !KeyLess(KeyOf(b[0]), KeyOf(Last(a)))
    ensures Ordered(a + b)
  {
    var c := a + b;
    forall i | 1 <= i < |c| ensures !KeyLess(KeyOf(c[i]), KeyOf(c[i - 1])) {
      if i > |a| { assert c[i] == b[i - |a|] && c[i - 1] == b[i - |a| - 1]; }
    }
  }

  lemma {:induction false} OrderedPair(ws: seq<LogRow>, i: nat, j: nat)
    requires Ordered(ws) && i < j < |ws|
    ensures !KeyLess(KeyOf(ws[j]), KeyOf(ws[i]))
    decreases j
  {
    if i == j - 1 {
    } else {
      OrderedPair(ws, i, j - 1);
      assert !KeyLess(KeyOf(ws[j]), KeyOf(ws[j - 1]));
    }
  }

  lemma OrderedIsSorted(ws: seq<LogRow>)
    requires Ordered(ws)
    ensures KeySorted(Keys(ws))
  {
    forall i, j | 0 <= i < j < |ws| ensures !KeyLess(Keys(ws)[j], Keys(ws)[i]) { OrderedPair(ws, i, j); }
  }

  lemma BlockOrdered(es: seq<LogRow>, rate: real, i: nat)
    requires Stamped(es, rate) && i < |es|
    ensures Ordered(Block(es, i))
  {
    var b := Block(es, i);
    forall t | 1 <= t < |b| ensures !KeyLess(KeyOf(b[t]), KeyOf(b[t - 1])) {
      PassingRow(es, rate, i, i + t);
      if t < |b| - 1 { PassingRow(es, rate, i, i + t + 1); }
    }
  }

  /** Row i comes before whatever the audit sees after its block. */
  lemma NextOrdered(es: seq<LogRow>, rate: real, i: nat, rest: seq<LogRow>)
    requires Stamped(es, rate) && i < |es| && SeenFrom(es, Behind(es, i) + 1, rest) && rest != []
    ensures !KeyLess(KeyOf(rest[0]), KeyOf(es[i]))
  {
    var k := Behind(es, i) + 1;
    SecondsRise(es, rate, i, k);
    if es[i].at == es[k].at {
      if Raises(es, i) { RaisePasses(es, rate, i); } else { SecondDescends(es, rate, i); }
    }
  }

  lemma {:induction false} WalkedIsOrdered(es: seq<LogRow>, rate: real, i: nat)
    requires Stamped(es, rate) && i <= |es|
    ensures Ordered(Walked(es, i))
    decreases |es| - i
  {
    if i == |es| {
    } else {
      var rest := Walked(es, Behind(es, i) + 1);
      WalkedIsOrdered(es, rate, Behind(es, i) + 1);
      WalkedIsSeen(es, rate, Behind(es, i) + 1);
      BlockOrdered(es, rate, i);
      if rest != [] { NextOrdered(es, rate, i, rest); }
      ConcatOrdered(Block(es, i), rest);
    }
  }

  // ---- Which transitions of the walk are explained ----

  lemma ConcatExplained(a: seq<LogRow>, b: seq<LogRow>, rate: real)
    requires a != []
    ensures AllExplained(a + b, rate)
            <==> AllExplained(a, rate) && AllExplained(b, rate) && (b == [] || Explained(Last(a), b[0], rate))
  {
    var c := a + b;
    if AllExplained(c, rate) {
      forall i | 1 <= i < |a| ensures Explained(a[i - 1], a[i], rate) { assert Explained(c[i - 1], c[i], rate); }
      forall i | 1 <= i < |b| ensures Explained(b[i - 1], b[i], rate) {
        assert Explained(c[|a| + i - 1], c[|a| + i], rate);
      }
      if b != [] { assert Explained(c[|a| - 1], c[|a|], rate); }
    }
    if AllExplained(a, rate) && AllExplained(b, rate) && (b == [] || Explained(Last(a), b[0], rate)) {
      forall i | 1 <= i < |c| ensures Explained(c[i - 1], c[i], rate) {
        if i < |a| { assert Explained(a[i - 1], a[i], rate); }
        if i > |a| { assert Explained(b[i - |a| - 1], b[i - |a|], rate); }
      }
    }
  }

  /** What is seen first at row k is within accrual of the row chronologically before it. */
  lemma FirstSeenBounds(es: seq<LogRow>, rate: real, k: nat)
    requires Stamped(es, rate) && 1 <= k < |es|
    ensures es[k - 1].after <= FirstSeen(es, k)
    ensures FirstSeen(es, k) - es[k - 1].after <= CeilingOf(es[k].at - es[k - 1].at, rate)
  {
    assert OnlyAccrual(es[k - 1], es[k], rate, 0) && TrueRow(es[k]);
    EarnedMono(rate, es[k].at - es[k - 1].at, es[k].at - es[k - 1].at + MARGIN_SECS);
    if Raises(es, k) { SecondDescends(es, rate, k); }
  }

  /** Coming to a raising row from the rows that pass it is explained exactly when it fits behind them. */
  lemma ArrivalExplained(es: seq<LogRow>, rate: real, i: nat)
    requires Stamped(es, rate) && Raises(es, i)
    ensures Explained(es[Behind(es, i)], es[i], rate) <==> FitsBehind(es, i, Behind(es, i), rate)
  {
    RaisePasses(es, rate, i);
    EarnedMono(rate, 0, MARGIN_SECS);
    assert Earned(rate, 0) == 0.0;
  }

  /** The next second is never too far above a raising row, but it may be below it. */
  lemma NextSecondExplained(es: seq<LogRow>, rate: real, i: nat, j: nat, next: LogRow)
    requires Stamped(es, rate) && i < |es| && j + 1 < |es| && es[j].at == es[i].at < es[j + 1].at == next.at
    requires es[j].after <= es[i].after && next.before == FirstSeen(es, j + 1)
    ensures Explained(es[i], next, rate) <==> FitsAhead(es, i, j + 1, rate)
  {
    FirstSeenBounds(es, rate, j + 1);
  }

  /** Leaving it is explained exactly when what follows fits. */
  lemma DepartureExplained(es: seq<LogRow>, rate: real, i: nat, next: LogRow)
    requires Stamped(es, rate) && Raises(es, i) && Behind(es, i) + 1 < |es|
    requires next.at == es[Behind(es, i) + 1].at && next.before == FirstSeen(es, Behind(es, i) + 1)
    requires !Raises(es, Behind(es, i) + 1) ==> next == es[Behind(es, i) + 1]
    ensures Explained(es[i], next, rate) <==> FitsAhead(es, i, Behind(es, i) + 1, rate)
  {
    var j := Behind(es, i);
    RaisePasses(es, rate, i);
    SecondsRise(es, rate, j, j + 1);
    if es[j + 1].at != es[i].at { NextSecondExplained(es, rate, i, j, next); }
  }

  /** Within a block only the transition into the raising row can be unexplained. */
  lemma BlockExplained(es: seq<LogRow>, rate: real, i: nat)
    requires Stamped(es, rate) && i < |es|
    ensures AllExplained(Block(es, i), rate) <==> (Raises(es, i) ==> FitsBehind(es, i, Behind(es, i), rate))
  {
    var b, n := Block(es, i), Behind(es, i) - i;
    forall t | 1 <= t < n ensures Explained(b[t - 1], b[t], rate) {
      assert b[t - 1] == es[i + t] && b[t] == es[i + t + 1];
    }
    if Raises(es, i) {
      RaisePasses(es, rate, i);
      ArrivalExplained(es, rate, i);
      assert b[n - 1] == es[Behind(es, i)] && b[n] == es[i];
    }
  }

  lemma NextExplained(es: seq<LogRow>, rate: real, i: nat, next: LogRow)
    requires Stamped(es, rate) && i < |es| && SeenFrom(es, Behind(es, i) + 1, [next])
    ensures Explained(es[i], next, rate) <==> (Raises(es, i) ==> FitsAhead(es, i, Behind(es, i) + 1, rate))
  {
    if Raises(es, i) { DepartureExplained(es, rate, i, next); }
  }

  /** The transitions in a block and out of it are explained exactly when its raise fits. */
  lemma StepExplained(es: seq<LogRow>, rate: real, i: nat, rest: seq<LogRow>)
    requires Stamped(es, rate) && i < |es| && SeenFrom(es, Behind(es, i) + 1, rest)
    ensures AllExplained(Block(es, i) + rest, rate)
            <==> (Raises(es, i) ==> Fits(es, i, rate)) && AllExplained(rest, rate)
  {
    BlockExplained(es, rate, i);
    if rest != [] { NextExplained(es, rate, i, rest[0]); }
    ConcatExplained(Block(es, i), rest, rate);
  }

  lemma {:induction false} WalkExplained(es: seq<LogRow>, rate: real, i: nat)
    requires Stamped(es, rate) && i <= |es|
    ensures AllExplained(Walked(es, i), rate) <==> RaisesFit(es, rate, i)
    decreases |es| - i
  {
    if i == |es| {
    } else {
      var k := Behind(es, i) + 1;
      var rest := Walked(es, k);
      calc {
        AllExplained(Walked(es, i), rate);
        AllExplained(Block(es, i) + rest, rate);
        { WalkedIsSeen(es, rate, k); StepExplained(es, rate, i, rest); }
        (Raises(es, i) ==> Fits(es, i, rate)) && AllExplained(rest, rate);
        { WalkExplained(es, rate, k); }
        (Raises(es, i) ==> Fits(es, i, rate)) && RaisesFit(es, rate, k);
        { SkipBlock(es, rate, i); }
        RaisesFit(es, rate, i);
      }
    }
  }

  // ---- The exact condition ----

  /**
   * Main result: for every honest ledger stamped at once, the audit is clean exactly when each balance
   * that was raised and then spent from in one second fits where the sort puts its row.
   */
  lemma CleanExactlyWhenRaisesFit(rows: seq<LogRow>, es: seq<LogRow>, rate: real)
    requires multiset(rows) == multiset(es) && Stamped(es, rate)
    ensures ReportOf(rows, rate).anomalies == [] <==> RaisesFit(es, rate, 0)
  {
    var ws := Walked(es, 0);
    WalkedRows(es, 0);
    assert es[0..] == es;
    WalkedIsOrdered(es, rate, 0);
    OrderedIsSorted(ws);
    WalkExplained(es, rate, 0);
    forall i | 0 <= i < |ws| ensures TrueRow(ws[i]) { assert ws[i] in multiset(ws) && ws[i] in es; }
    CleanReport(rows, ws, rate);
  }

  /** The same for every run of the economy: this is what a reader of a report can conclude. */
  lemma RunCleanExactlyWhenRaisesFit(c: Rules, seed: int -> nat, p: Player, start: int, calls: seq<Call>,
                                     rows: seq<LogRow>)
    requires c.Valid() && Ready(c, p, start) && Monotone(start, calls) && Prompt(calls, 0) && p.log == []
    requires multiset(rows) == multiset(Final(c, seed, p, calls).log)
    ensures ReportOf(rows, p.rate).anomalies == [] <==> RaisesFit(Final(c, seed, p, calls).log, p.rate, 0)
  {
    RunTracks(c, seed, p, start, calls, 0);
    CleanExactlyWhenRaisesFit(rows, Final(c, seed, p, calls).log, p.rate);
  }

  /** With at most two rows a second only the next second matters: it must have earned the spend back. */
  lemma PairsNeedEarningBack(es: seq<LogRow>, rate: real, i: nat)
    requires Stamped(es, rate) && Raises(es, i) && (i + 2 < |es| ==> es[i].at < es[i + 2].at)
    ensures Fits(es, i, rate) <==> (i + 2 < |es| ==> es[i].after <= FirstSeen(es, i + 2) + EPSILON)
  {
    RaisePasses(es, rate, i);
    assert Behind(es, i) == i + 1;
  }

  // ---- The ceiling of unlogged accrual ----

  /** Leaving any row, or a row ending above it in its second, for the next second is within the ceiling. */
  lemma NextSecondWithin(es: seq<LogRow>, rate: real, j: nat, last: LogRow, next: LogRow)
    requires Stamped(es, rate) && j + 1 < |es| && last.at == es[j].at < es[j + 1].at == next.at
    requires es[j].after <= last.after && next.before == FirstSeen(es, j + 1)
    ensures Gap(last, next) <= Ceiling(last, next, rate)
  {
    FirstSeenBounds(es, rate, j + 1);
  }

  lemma StepWithin(es: seq<LogRow>, rate: real, i: nat, rest: seq<LogRow>)
    requires Stamped(es, rate) && i < |es| && SeenFrom(es, Behind(es, i) + 1, rest) && WithinCeilings(rest, rate)
    ensures WithinCeilings(Block(es, i) + rest, rate)
  {
    var j := Behind(es, i);
    if Raises(es, i) { RaisePasses(es, rate, i); }
    if rest != [] && es[j].at < es[j + 1].at { NextSecondWithin(es, rate, j, es[i], rest[0]); }
  }

  lemma {:induction false} WalkedWithin(es: seq<LogRow>, rate: real, i: nat)
    requires Stamped(es, rate) && i <= |es|
    ensures WithinCeilings(Walked(es, i), rate)
    decreases |es| - i
  {
    if i == |es| {
    } else {
      WalkedWithin(es, rate, Behind(es, i) + 1);
      WalkedIsSeen(es, rate, Behind(es, i) + 1);
      StepWithin(es, rate, i, Walked(es, Behind(es, i) + 1));
    }
  }

  /** Honest ledgers stamped at once never report more unlogged accrual than is plausible, flagged or not. */
  lemma StampedLedgerIsPlausible(rows: seq<LogRow>, es: seq<LogRow>, rate: real)
    requires multiset(rows) == multiset(es) && Stamped(es, rate)
    ensures ReportOf(rows, rate).unlogged <= ReportOf(rows, rate).maxPlausible
  {
    WalkedRows(es, 0);
    assert es[0..] == es;
    WalkedIsOrdered(es, rate, 0);
    OrderedIsSorted(Walked(es, 0));
    WalkedWithin(es, rate, 0);
    PlausibleReport(rows, Walked(es, 0), rate);
  }

  lemma StampedRunIsPlausible(c: Rules, seed: int -> nat, p: Player, start: int, calls: seq<Call>, rows: seq<LogRow>)
    requires c.Valid() && Ready(c, p, start) && Monotone(start, calls) && Prompt(calls, 0) && p.log == []
    requires multiset(rows) == multiset(Final(c, seed, p, calls).log)
    ensures ReportOf(rows, p.rate).unlogged <= ReportOf(rows, p.rate).maxPlausible
  {
    RunTracks(c, seed, p, start, calls, 0);
    StampedLedgerIsPlausible(rows, Final(c, seed, p, calls).log, p.rate);
  }

  // ---- Examples ----

  /** A pull costing 100 that banks 300 idle points, a vow costing 50 in the same second, a vow ten seconds later. */
  function PullThenVow(): seq<LogRow>
  {
    [LogRow(GachaPull, 1, 300, 100.0, 300.0, 100.0, 300.0),
     LogRow(VowPrayer, 2, 300, 50.0, 0.0, 300.0, 250.0),
     LogRow(VowPrayer, 3, 310, 20.0, 10.0, 250.0, 240.0)]
  }

  lemma Flagged(es: seq<LogRow>, rate: real, i: nat)
    requires Stamped(es, rate) && i < |es| && Raises(es, i) && !Fits(es, i, rate)
    ensures ReportOf(es, rate).anomalies != []
  {
    CleanExactlyWhenRaisesFit(es, es, rate);
  }

  /** An honest ledger that the audit flags. */
  lemma HonestLedgerFlagged()
    ensures Stamped(PullThenVow(), 1.0) && ReportOf(PullThenVow(), 1.0).anomalies != []
  {
    var es := PullThenVow();
    assert FirstSeen(es, 2) == 250.0;
    PairsNeedEarningBack(es, 1.0, 0);
    Flagged(es, 1.0, 0);
  }

  /** Three vows in one second, and a fourth that finds even more than the balance raised by the first. */
  function ThreeVows(): seq<LogRow>
  {
    [LogRow(VowPrayer, 1, 300, 100.0, 300.0, 100.0, 300.0),
     LogRow(VowPrayer, 2, 300, 50.0, 0.0, 300.0, 250.0),
     LogRow(VowPrayer, 3, 300, 50.0, 0.0, 250.0, 200.0),
     LogRow(VowPrayer, 4, 500, 20.0, 10.0, 390.0, 380.0)]
  }

  /** Three rows in one second, whose raised balance the row after them has reached again. */
  predicate EarnedBackByFourth(es: seq<LogRow>)
  {
    |es| == 4 && es[0].at == es[1].at == es[2].at < es[3].at && Raises(es, 0) && es[0].after <= es[3].before
  }

  /** The second and the third vow pass the first, which then starts far from where the third ended. */
  lemma ThreeVowsLedger() returns (es: seq<LogRow>)
    ensures EarnedBackByFourth(es) && Stamped(es, 1.0) && Behind(es, 0) == 2 && !FitsBehind(es, 0, 2, 1.0)
  {
    es := ThreeVows();
    assert Passing(es, 0, 3) == 0;
    assert Passing(es, 0, 2) == 1;
    assert Leeway(1.0) == 2.0 + EPSILON;
  }

  /** With three rows a second earning the spend back is not enough. */
  lemma EarningBackIsNotEnough() returns (es: seq<LogRow>)
    ensures EarnedBackByFourth(es) && Stamped(es, 1.0) && ReportOf(es, 1.0).anomalies != []
  {
    es := ThreeVowsLedger();
    assert !Fits(es, 0, 1.0);
    Flagged(es, 1.0, 0);
  }
}
