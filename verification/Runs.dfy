/** What a sequence of trades in any order at all leaves in buckets, completed rows and table. */
module Runs {
  import opened Int64
  import opened Intervals
  import opened Klines
  import opened Tables
  import opened Buckets

  /** The buckets after some trades. */
  function Process(data: Buckets, ts: seq<Trade>): Buckets
    decreases |ts|
  {
    if ts == [] then data else Process(Updated(data, ts[0]), ts[1..])
  }

  /** The rows completed by some trades, in order. */
  function Completed(data: Buckets, ts: seq<Trade>): seq<Row>
    decreases |ts|
  {
    if ts == [] then [] else Closed(data, ts[0]) + Completed(Updated(data, ts[0]), ts[1..])
  }

  /** Each bucket is of the interval it is stored under. */
  ghost predicate Placed(data: Buckets) { forall iv :: iv in data ==> data[iv].interval == iv }

  lemma PlacedNext(data: Buckets, t: Trade)
    requires Placed(data)
    ensures Placed(Updated(data, t)) && forall iv :: iv in Updated(data, t)
  {
    hide Align;
    NthRank(0);
  }

  lemma {:induction false} ClosedOnly(data: Buckets, t: Trade, iv: Interval, i: nat)
    requires Placed(data) && i <= 7
    ensures Only(iv, ClosedTo(data, t, i)) == if Rank(iv) < i && Closes(data, iv, t) then [data[iv]] else []
  {
    hide Align;
    if i > 0 {
      ClosedOnly(data, t, iv, i - 1);
      NthRank(i - 1);
      var j := Nth(i - 1);
      var last := if Closes(data, j, t) then [data[j]] else [];
      OnlyConcat(iv, ClosedTo(data, t, i - 1), last);
      if Closes(data, j, t) {
        OnlyOne(iv, data[j]);
      }
    }
  }

  // ---------------------------------------------------------------- maximal runs

  predicate Together(iv: Interval, t: Trade, u: Trade) {
    Align(iv, t.timestamp) == Align(iv, u.timestamp)
  }

  /** Splits trades wherever the window of the interval changes; `run` is the run at hand. */
  function RunsFrom(iv: Interval, run: seq<Trade>, ts: seq<Trade>): seq<seq<Trade>>
    requires run != []
    decreases |ts|
  {
    if ts == [] then [run]
    else if Together(iv, run[0], ts[0]) then RunsFrom(iv, run + [ts[0]], ts[1..])
    else [run] + RunsFrom(iv, [ts[0]], ts[1..])
  }

  function RunsOf(iv: Interval, ts: seq<Trade>): seq<seq<Trade>> {
    if ts == [] then [] else RunsFrom(iv, [ts[0]], ts[1..])
  }

  function Flat(runs: seq<seq<Trade>>): seq<Trade> {
    if runs == [] then [] else runs[0] + Flat(runs[1..])
  }

  /** A run is a stretch of trades of one window. */
  ghost predicate Uniform(iv: Interval, run: seq<Trade>) {
    run != [] && forall i :: 0 <= i < |run| ==> Together(iv, run[0], run[i])
  }

  /** The runs are uniform, and no two neighbours could be one. */
  ghost predicate Maximal(iv: Interval, runs: seq<seq<Trade>>) {
    && (forall i :: 0 <= i < |runs| ==> Uniform(iv, runs[i]))
    && forall i :: 0 < i < |runs| ==> !Together(iv, runs[i - 1][0], runs[i][0])
  }

  lemma OneRun(iv: Interval, run: seq<Trade>)
    requires Uniform(iv, run)
    ensures Maximal(iv, [run]) && Flat([run]) == run
  {
    assert [run][1..] == [] && run + [] == run;
  }

  lemma {:induction false} RunsFromFacts(iv: Interval, run: seq<Trade>, ts: seq<Trade>)
    requires Uniform(iv, run)
    ensures var runs := RunsFrom(iv, run, ts);
            Flat(runs) == run + ts && Maximal(iv, runs) && runs != [] && runs[0][0] == run[0]
    decreases |ts|
  {
    hide Align, Flat, Maximal;
    if ts == [] {
      OneRun(iv, run);
      assert run + [] == run;
    } else {
      assert [ts[0]] + ts[1..] == ts;
      if Together(iv, run[0], ts[0]) {
        RunsFromFacts(iv, run + [ts[0]], ts[1..]);
        assert run + [ts[0]] + ts[1..] == run + ts;
      } else {
        RunsFromFacts(iv, [ts[0]], ts[1..]);
        NextRun(iv, run, RunsFrom(iv, [ts[0]], ts[1..]));
      }
    }
  }

  lemma NextRun(iv: Interval, run: seq<Trade>, rest: seq<seq<Trade>>)
    requires Uniform(iv, run) && Maximal(iv, rest) && rest != [] && !Together(iv, run[0], rest[0][0])
    ensures Maximal(iv, [run] + rest) && Flat([run] + rest) == run + Flat(rest)
  {
    hide Together;
    assert ([run] + rest)[1..] == rest;
  }

  /** Grouping is a partition of the trades into their maximal runs. */
  lemma RunsAreMaximal(iv: Interval, ts: seq<Trade>)
    ensures Flat(RunsOf(iv, ts)) == ts && Maximal(iv, RunsOf(iv, ts))
  {
    if ts != [] {
      RunsFromFacts(iv, [ts[0]], ts[1..]);
      assert [ts[0]] + ts[1..] == ts;
    }
  }

  function FoldRun(iv: Interval, run: seq<Trade>): Row
    requires run != []
  {
    FoldWindow(iv, Align(iv, run[0].timestamp), run)
  }

  ghost predicate AllNonEmpty(runs: seq<seq<Trade>>) { forall i :: 0 <= i < |runs| ==> runs[i] != [] }

  function FoldRuns(iv: Interval, runs: seq<seq<Trade>>): seq<Row>
    requires AllNonEmpty(runs)
  {
    if runs == [] then [] else [FoldRun(iv, runs[0])] + FoldRuns(iv, runs[1..])
  }

  /** The completed rows of an interval, then the open one. */
  function RowsMade(iv: Interval, data: Buckets, ts: seq<Trade>): seq<Row> {
    Only(iv, Completed(data, ts)) + (if iv in Process(data, ts) then [Process(data, ts)[iv]] else [])
  }

  lemma {:induction false} GroupingFrom(iv: Interval, run: seq<Trade>, data: Buckets, ts: seq<Trade>)
    requires Placed(data) && Uniform(iv, run) && iv in data && data[iv] == FoldRun(iv, run)
    ensures var runs := RunsFrom(iv, run, ts); AllNonEmpty(runs) && RowsMade(iv, data, ts) == FoldRuns(iv, runs)
    decreases |ts|
  {
    hide Align, Apply, Updated, Closed, FoldFrom, OpenRow;
    var runs := RunsFrom(iv, run, ts);
    RunsFromFacts(iv, run, ts);
    if ts == [] {
      assert [run][1..] == [];
      assert FoldRuns(iv, [run]) == [FoldRun(iv, run)] + FoldRuns(iv, []);
    } else {
      var t := ts[0];
      var data' := Updated(data, t);
      StepRun(iv, run, data, t);
      var done := Only(iv, Closed(data, t));
      OnlyConcat(iv, Closed(data, t), Completed(data', ts[1..]));
      if Together(iv, run[0], t) {
        GroupingFrom(iv, run + [t], data', ts[1..]);
        assert [] + RowsMade(iv, data', ts[1..]) == RowsMade(iv, data', ts[1..]);
      } else {
        GroupingFrom(iv, [t], data', ts[1..]);
        var rest := RunsFrom(iv, [t], ts[1..]);
        assert ([run] + rest)[1..] == rest;
      }
      assert RowsMade(iv, data, ts) == done + RowsMade(iv, data', ts[1..]);
    }
  }

  /** One trade either extends the run of an interval or completes it and starts the next. */
  lemma StepRun(iv: Interval, run: seq<Trade>, data: Buckets, t: Trade)
    requires Placed(data) && Uniform(iv, run) && iv in data && data[iv] == FoldRun(iv, run)
    ensures var data' := Updated(data, t);
            && Placed(data') && iv in data'
            && (if Together(iv, run[0], t)
                then data'[iv] == FoldRun(iv, run + [t]) && Only(iv, Closed(data, t)) == [] && Uniform(iv, run + [t])
                else data'[iv] == FoldRun(iv, [t]) && Only(iv, Closed(data, t)) == [data[iv]] && Uniform(iv, [t]))
  {
    hide Align, NextRow, ClosedTo, FoldRun, Placed;
    RunStart(iv, run);
    PlacedNext(data, t);
    UpdatedAt(data, t, iv);
    ClosedOnly(data, t, iv, 7);
    NthRank(0);
    RunNext(iv, run, data, t);
  }

  lemma RunStart(iv: Interval, run: seq<Trade>)
    requires run != []
    ensures FoldRun(iv, run).start == Align(iv, run[0].timestamp)
  {
    FoldKeepsKey(OpenRow(iv, Align(iv, run[0].timestamp), run[0].price), run);
  }

  lemma RunNext(iv: Interval, run: seq<Trade>, data: Buckets, t: Trade)
    requires Uniform(iv, run) && iv in data && data[iv] == FoldRun(iv, run)
    ensures if Together(iv, run[0], t) then NextRow(data, iv, t) == FoldRun(iv, run + [t]) && Uniform(iv, run + [t])
            else NextRow(data, iv, t) == FoldRun(iv, [t]) && Uniform(iv, [t])
  {
    RunStart(iv, run);
    hide Align, Apply, FoldFrom, OpenRow;
    if Together(iv, run[0], t) {
      FoldSnoc(iv, Align(iv, run[0].timestamp), run, t);
    } else {
      FoldOne(OpenRow(iv, Align(iv, t.timestamp), t.price), t);
    }
  }

  /** For any trades in any order, the completed rows of an interval followed by the open one are the folds
      of the maximal runs of trades with the same aligned start. */
  lemma Grouping(iv: Interval, ts: seq<Trade>)
    ensures AllNonEmpty(RunsOf(iv, ts)) && RowsMade(iv, map[], ts) == FoldRuns(iv, RunsOf(iv, ts))
  {
    if ts != [] {
      FirstTrade(iv, ts[0]);
      var data := Updated(map[], ts[0]);
      hide Align, Updated, Closed, FoldRun, FoldRuns;
      GroupingFrom(iv, [ts[0]], data, ts[1..]);
      OnlyConcat(iv, Closed(map[], ts[0]), Completed(data, ts[1..]));
      assert [] + RowsMade(iv, data, ts[1..]) == RowsMade(iv, data, ts[1..]);
    }
  }

  lemma FirstTrade(iv: Interval, t: Trade)
    ensures var data := Updated(map[], t);
            Placed(data) && iv in data && data[iv] == FoldRun(iv, [t]) && Uniform(iv, [t])
            && Only(iv, Closed(map[], t)) == []
  {
    hide Align, Apply, OpenRow;
    PlacedNext(map[], t);
    ClosedOnly(map[], t, iv, 7);
    NthRank(0);
    FoldOne(OpenRow(iv, Align(iv, t.timestamp), t.price), t);
  }

  // ---------------------------------------------------------------- conservation

  datatype Totals = Totals(volume: int, amount: int, buyVol: int, buyAmt: int, count: int)
  {
    function Plus(o: Totals): Totals {
      Totals(volume + o.volume, amount + o.amount, buyVol + o.buyVol, buyAmt + o.buyAmt, count + o.count)
    }
  }

  const NOTHING := Totals(0, 0, 0, 0, 0)

  function TradeTotals(ts: seq<Trade>): Totals {
    Totals(Quantities(ts), Amounts(ts), Quantities(TakerBuys(ts)), Amounts(TakerBuys(ts)), |ts|)
  }

  function RowTotals(rows: seq<Row>): Totals {
    if rows == [] then NOTHING
    else
      Totals(rows[0].volume, rows[0].amount, rows[0].buyVol, rows[0].buyAmt, rows[0].count)
      .Plus(RowTotals(rows[1..]))
  }

  /** No sum reaches the largest decimal and the count fits. */
  predicate Fits(t: Totals) {
    t.volume <= MAX && t.amount <= MAX && t.buyVol <= MAX && t.buyAmt <= MAX && t.count < 0x8000_0000
  }

  lemma {:induction false} SumsConcat(a: seq<Trade>, b: seq<Trade>)
    ensures Quantities(a + b) == Quantities(a) + Quantities(b) && Amounts(a + b) == Amounts(a) + Amounts(b)
  {
    if a == [] {
      assert a + b == b;
    } else {
      assert (a + b)[1..] == a[1..] + b;
      SumsConcat(a[1..], b);
    }
  }

  lemma {:induction false} BuysConcat(a: seq<Trade>, b: seq<Trade>)
    ensures TakerBuys(a + b) == TakerBuys(a) + TakerBuys(b)
  {
    if a == [] {
      assert a + b == b;
    } else {
      assert (a + b)[1..] == a[1..] + b;
      BuysConcat(a[1..], b);
    }
  }

  lemma TotalsConcat(a: seq<Trade>, b: seq<Trade>)
    ensures TradeTotals(a + b) == TradeTotals(a).Plus(TradeTotals(b))
  {
    hide Quantities, Amounts, TakerBuys;
    SumsConcat(a, b);
    BuysConcat(a, b);
    SumsConcat(TakerBuys(a), TakerBuys(b));
  }

  lemma TotalsNonNegative(ts: seq<Trade>)
    requires NonNegative(ts)
    ensures var t := TradeTotals(ts); t.volume >= 0 && t.amount >= 0 && t.buyVol >= 0 && t.buyAmt >= 0
  {
    SumsNonNegative(ts);
    SumsNonNegative(TakerBuys(ts));
  }

  lemma NonNegativeParts(a: seq<Trade>, b: seq<Trade>)
    requires NonNegative(a + b)
    ensures NonNegative(a) && NonNegative(b)
  {
    assert forall i :: 0 <= i < |a| ==> (a + b)[i] == a[i];
    assert forall i :: 0 <= i < |b| ==> (a + b)[|a| + i] == b[i];
  }

  lemma RunTotals(iv: Interval, run: seq<Trade>)
    requires run != [] && NonNegative(run) && Fits(TradeTotals(run))
    ensures var r := FoldRun(iv, run);
            Totals(r.volume, r.amount, r.buyVol, r.buyAmt, r.count) == TradeTotals(run)
  {
    var open := OpenRow(iv, Align(iv, run[0].timestamp), run[0].price);
    FoldSums(open, run);
    FoldCount(open, run);
  }

  lemma {:induction false} RunsTotals(iv: Interval, runs: seq<seq<Trade>>)
    requires AllNonEmpty(runs) && NonNegative(Flat(runs)) && Fits(TradeTotals(Flat(runs)))
    ensures RowTotals(FoldRuns(iv, runs)) == TradeTotals(Flat(runs))
  {
    hide Align, FoldRun, TradeTotals;
    if runs == [] {
      NoTrades();
    } else {
      var rest := Flat(runs[1..]);
      NonNegativeParts(runs[0], rest);
      TotalsConcat(runs[0], rest);
      TotalsNonNegative(runs[0]);
      TotalsNonNegative(rest);
      PartsFit(runs[0], rest);
      RunTotals(iv, runs[0]);
      RunsTotals(iv, runs[1..]);
      assert ([FoldRun(iv, runs[0])] + FoldRuns(iv, runs[1..]))[1..] == FoldRuns(iv, runs[1..]);
    }
  }

  lemma NoTrades()
    ensures TradeTotals([]) == NOTHING
  {
  }

  lemma PartsFit(a: seq<Trade>, b: seq<Trade>)
    requires NonNegative(a) && NonNegative(b) && Fits(TradeTotals(a + b))
    ensures Fits(TradeTotals(a)) && Fits(TradeTotals(b))
  {
    TotalsConcat(a, b);
    TotalsNonNegative(a);
    TotalsNonNegative(b);
  }

  /** Nothing is lost or counted twice, in any order of trades: the rows of each interval add up to the trades. */
  lemma Conservation(iv: Interval, ts: seq<Trade>)
    requires NonNegative(ts) && Fits(TradeTotals(ts))
    ensures RowTotals(RowsMade(iv, map[], ts)) == TradeTotals(ts)
  {
    Grouping(iv, ts);
    RunsAreMaximal(iv, ts);
    RunsTotals(iv, RunsOf(iv, ts));
  }

  /** So the seven intervals agree. */
  lemma IntervalsAgree(iv: Interval, jv: Interval, ts: seq<Trade>)
    requires NonNegative(ts) && Fits(TradeTotals(ts))
    ensures RowTotals(RowsMade(iv, map[], ts)) == RowTotals(RowsMade(jv, map[], ts))
  {
    Conservation(iv, ts);
    Conservation(jv, ts);
  }
}
