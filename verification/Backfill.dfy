/** Rebuilding a long window from stored one-minute rows (internal/kline/continuity.go). */
module Backfill {
  import opened Int64
  import opened Decimal
  import opened Intervals
  import opened Klines
  import opened Tables
  import opened Windows
  import opened Options

  /** The kinds that are rebuilt from minutes. */
  predicate Target(iv: Interval) { iv == Minute10 || iv == Minute30 || iv == Hour1 }

  // ---------------------------------------------------------------- merging rows

  function MergeStep(m: Row, k: Row): Row {
    m.(high := if Cmp(k.high, m.high) > 0 then k.high else m.high,
       low := if Cmp(k.low, m.low) < 0 then k.low else m.low,
       close := k.close,
       volume := Clamp(m.volume + k.volume),
       amount := Clamp(m.amount + k.amount),
       buyVol := Clamp(m.buyVol + k.buyVol),
       buyAmt := Clamp(m.buyAmt + k.buyAmt),
       count := Wrap32(m.count as int + k.count as int))
  }

  function MergeFrom(m: Row, ks: seq<Row>): Row
    decreases |ks|
  {
    if ks == [] then m else MergeFrom(MergeStep(m, ks[0]), ks[1..])
  }

  function MergeStart(iv: Interval, start: int, k: Row): Row {
    OpenRow(iv, start, k.open).(high := k.high, low := k.low, close := k.close)
  }

  /** The row that mergeOneMKlines builds from at least one row. */
  function MergeRows(iv: Interval, start: int, ks: seq<Row>): Row
    requires ks != []
  {
    Seal(MergeFrom(MergeStart(iv, start, ks[0]), ks))
  }

  lemma {:induction false} MergeClose(m: Row, c: D, ks: seq<Row>)
    ensures MergeFrom(m.(close := c), ks) == if ks == [] then m.(close := c) else MergeFrom(m, ks)
    ensures ks != [] ==> MergeFrom(m, ks).close == ks[|ks| - 1].close
    decreases |ks|
  {
    if ks != [] {
      var m' := MergeStep(m, ks[0]);
      assert MergeStep(m.(close := c), ks[0]) == m';
      MergeClose(m', m'.close, ks[1..]);
      assert ks[1..] != [] ==> ks[1..][|ks| - 2] == ks[|ks| - 1];
    }
  }

  method MergeOneMKlines(klines: seq<Row>, iv: Interval, start: int) returns (r: Option<Row>)
    ensures r == if klines == [] then None else Some(MergeRows(iv, start, klines))
  {
    if klines == [] {
      return None;
    }
    var last := klines[|klines| - 1].close;
    var merged := MergeStart(iv, start, klines[0]).(close := last);
    var rest := klines;
    MergeClose(MergeStart(iv, start, klines[0]), last, klines);
    while rest != []
      invariant merged.close == last && (rest != [] ==> rest[|rest| - 1].close == last)
      invariant MergeFrom(merged, rest) == MergeFrom(MergeStart(iv, start, klines[0]), klines)
      decreases |rest|
    {
      var k := rest[0];
      ghost var next := MergeStep(merged, k);
      if Cmp(k.high, merged.high) > 0 {
        merged := merged.(high := k.high);
      }
      if Cmp(k.low, merged.low) < 0 {
        merged := merged.(low := k.low);
      }
      var volume := Sum(merged.volume, k.volume);
      var amount := Sum(merged.amount, k.amount);
      var buyVol := Sum(merged.buyVol, k.buyVol);
      var buyAmt := Sum(merged.buyAmt, k.buyAmt);
      merged := merged.(volume := volume, amount := amount, buyVol := buyVol, buyAmt := buyAmt,
                        count := Wrap32(merged.count as int + k.count as int));
      rest := rest[1..];
      assert merged == next.(close := last);
      MergeClose(next, last, rest);
    }
    if Sign(merged.volume) > 0 {
      merged := merged.(avg := Quo(merged.amount, merged.volume));
    }
    return Some(merged);
  }

  // ---------------------------------------------------------------- merging is folding

  lemma CountStep(m: int, r: int)
    ensures Wrap32(m + Wrap32(r + 1)) == Wrap32(Wrap32(m + r) + 1)
  {
    Wrap32Sum(m, r + 1);
    Wrap32Sum(m + r, 1);
  }

  /** Merging in a row that has one more trade is merging in the row and then folding the trade. */
  lemma AbsorbStep(m: Row, r: Row, t: Trade)
    requires NonNegativeSums(m) && NonNegativeSums(r) && t.quantity >= 0 && t.amount >= 0
    ensures MergeStep(m, Apply(r, t)) == Apply(MergeStep(m, r), t)
    ensures NonNegativeSums(Apply(r, t)) && NonNegativeSums(MergeStep(m, r))
  {
    CountStep(m.count, r.count);
  }

  lemma {:induction false} Absorb(m: Row, r: Row, ts: seq<Trade>)
    requires NonNegativeSums(m) && NonNegativeSums(r) && NonNegative(ts)
    ensures MergeStep(m, FoldFrom(r, ts)) == FoldFrom(MergeStep(m, r), ts)
    decreases |ts|
  {
    if ts != [] {
      NonNegativeTail(ts);
      AbsorbStep(m, r, ts[0]);
      Absorb(m, Apply(r, ts[0]), ts[1..]);
    }
  }

  /** Merging in the row of some trades is folding those trades. */
  lemma AbsorbWindow(m: Row, k: Key, h: seq<Trade>)
    requires NonNegativeSums(m) && NonNegative(h) && WindowTrades(k, h) != []
    ensures MergeStep(m, WindowRow(k, h)) == FoldFrom(m, WindowTrades(k, h))
    ensures NonNegativeSums(FoldFrom(m, WindowTrades(k, h)))
  {
    WindowNonNegative(k, h);
    AbsorbFold(m, k.interval, k.start, WindowTrades(k, h));
    FoldSums(m, WindowTrades(k, h));
  }

  lemma AbsorbFold(m: Row, iv: Interval, start: int, ts: seq<Trade>)
    requires NonNegativeSums(m) && NonNegative(ts) && ts != []
    ensures MergeStep(m, Seal(FoldWindow(iv, start, ts))) == FoldFrom(m, ts)
  {
    var o := NewRow(iv, start, OpenRow(iv, start, ts[0].price).closeTime, ts[0].price);
    Absorb(m, o, ts);
    NonNegativeTail(ts);
    AbsorbFresh(m, o, ts[0]);
    SealIgnored(m, FoldFrom(o, ts));
  }

  lemma AbsorbFresh(m: Row, o: Row, t: Trade)
    requires NonNegativeSums(m) && t.quantity >= 0 && t.amount >= 0
    requires o == NewRow(o.interval, o.start, o.closeTime, t.price)
    ensures Apply(MergeStep(m, o), t) == Apply(m, t)
  {
  }

  lemma SealIgnored(m: Row, r: Row)
    ensures MergeStep(m, Seal(r)) == MergeStep(m, r)
  {
  }

  // ---------------------------------------------------------------- gathering a window from its minutes

  function TradesOf(ks: seq<Key>, h: seq<Trade>): seq<Trade> {
    if ks == [] then [] else WindowTrades(ks[0], h) + TradesOf(ks[1..], h)
  }

  /** The trades whose minute is one of `ks`. */
  function InMinutes(ks: seq<Key>, h: seq<Trade>): seq<Trade>
    decreases |h|
  {
    if h == [] then []
    else if WindowOf(Minute1, h[0]) in ks then [h[0]] + InMinutes(ks, h[1..])
    else InMinutes(ks, h[1..])
  }

  lemma LaterMinutesOnly(k: Key, h: seq<Trade>)
    requires Ordered(h) && h != [] && k.interval == Minute1 && k.start < Align(Minute1, h[0].timestamp)
    ensures WindowTrades(k, h) == []
  {
    if WindowTrades(k, h) != [] {
      WindowIsAligned(k, h);
      var i :| 0 <= i < |h| && WindowOf(Minute1, h[i]) == k;
      AlignMonotone(Minute1, h[0].timestamp, h[i].timestamp);
    }
  }

  /** In time order the trades of the first minute come before those of later minutes. */
  lemma {:induction false} PeelMinute(k: Key, ks: seq<Key>, h: seq<Trade>)
    requires Ordered(h) && k.interval == Minute1
    requires forall i :: 0 <= i < |ks| ==> ks[i].interval == Minute1 && k.start < ks[i].start
    ensures InMinutes([k] + ks, h) == WindowTrades(k, h) + InMinutes(ks, h)
    decreases |h|
  {
    if h != [] {
      var w := WindowOf(Minute1, h[0]);
      PeelMinute(k, ks, h[1..]);
      if w in ks {
        LaterMinutesOnly(k, h);
      }
    }
  }

  lemma {:induction false} GatherMinutes(ks: seq<Key>, h: seq<Trade>)
    requires Ordered(h) && AscendingKeys(ks) && forall i :: 0 <= i < |ks| ==> ks[i].interval == Minute1
    ensures TradesOf(ks, h) == InMinutes(ks, h)
  {
    if ks == [] {
      NoMinutes(h);
    } else {
      GatherMinutes(ks[1..], h);
      PeelMinute(ks[0], ks[1..], h);
      assert [ks[0]] + ks[1..] == ks;
    }
  }

  lemma {:induction false} NoMinutes(h: seq<Trade>)
    ensures InMinutes([], h) == []
    decreases |h|
  {
    if h != [] {
      NoMinutes(h[1..]);
    }
  }

  /** When `ks` lists exactly the minutes of a window that have trades, the trades in those
      minutes are the trades of the window. */
  lemma {:induction false} MinutesOfWindow(k: Key, ks: seq<Key>, h: seq<Trade>)
    requires forall t :: t in h ==> (WindowOf(Minute1, t) in ks <==> WindowOf(k.interval, t) == k)
    ensures InMinutes(ks, h) == WindowTrades(k, h)
    decreases |h|
  {
    if h != [] {
      assert h[0] in h && forall t :: t in h[1..] ==> t in h;
      MinutesOfWindow(k, ks, h[1..]);
    }
  }

  lemma {:induction false} MergeIsFold(m: Row, ks: seq<Key>, h: seq<Trade>, rows: seq<Row>)
    requires NonNegativeSums(m) && NonNegative(h) && |rows| == |ks|
    requires forall i :: 0 <= i < |ks| ==> WindowTrades(ks[i], h) != [] && rows[i] == WindowRow(ks[i], h)
    ensures MergeFrom(m, rows) == FoldFrom(m, TradesOf(ks, h))
    decreases |ks|
  {
    if ks != [] {
      var ts := WindowTrades(ks[0], h);
      AbsorbWindow(m, ks[0], h);
      MergeIsFold(FoldFrom(m, ts), ks[1..], h, rows[1..]);
      FoldConcat(m, ts, TradesOf(ks[1..], h));
    }
  }

  lemma StartIsOpen(iv: Interval, start: int, k: Key, h: seq<Trade>)
    requires WindowTrades(k, h) != []
    ensures var r := WindowRow(k, h);
            MergeStep(MergeStart(iv, start, r), r) == MergeStep(OpenRow(iv, start, WindowTrades(k, h)[0].price), r)
  {
    var ts := WindowTrades(k, h);
    var o := OpenRow(k.interval, k.start, ts[0].price);
    FoldKeepsKey(o, ts);
    FoldExtremes(o, ts);
  }

  /** Merging the rows of some minutes is folding the trades of those minutes. */
  lemma MergeFolds(k: Key, ks: seq<Key>, h: seq<Trade>, rows: seq<Row>)
    requires Ordered(h) && NonNegative(h) && ks != [] && AscendingKeys(ks) && |rows| == |ks|
    requires forall i :: 0 <= i < |ks| ==>
               ks[i].interval == Minute1 && WindowTrades(ks[i], h) != [] && rows[i] == WindowRow(ks[i], h)
    ensures var ts := InMinutes(ks, h);
            ts != [] && MergeRows(k.interval, k.start, rows) == Seal(FoldWindow(k.interval, k.start, ts))
  {
    GatherMinutes(ks, h);
    var ts := InMinutes(ks, h);
    assert ts == WindowTrades(ks[0], h) + TradesOf(ks[1..], h);
    assert ts[0] == WindowTrades(ks[0], h)[0];
    var o := OpenRow(k.interval, k.start, ts[0].price);
    StartIsOpen(k.interval, k.start, ks[0], h);
    MergeIsFold(o, ks, h, rows);
  }

  /** The backfilled row of a long window is the row its own trades fold to, whenever the rows
      given are those of exactly its minutes that have trades, in ascending order. */
  lemma MergeEqualsFold(k: Key, ks: seq<Key>, h: seq<Trade>, rows: seq<Row>)
    requires Ordered(h) && NonNegative(h) && ks != [] && AscendingKeys(ks) && |rows| == |ks|
    requires forall i :: 0 <= i < |ks| ==>
               ks[i].interval == Minute1 && WindowTrades(ks[i], h) != [] && rows[i] == WindowRow(ks[i], h)
    requires forall t :: t in h ==> (WindowOf(Minute1, t) in ks <==> WindowOf(k.interval, t) == k)
    ensures WindowTrades(k, h) != [] && MergeRows(k.interval, k.start, rows) == WindowRow(k, h)
  {
    hide Align, MergeRows;
    MergeFolds(k, ks, h, rows);
    MinutesOfWindow(k, ks, h);
  }

  lemma {:induction false} FewerTrades(k: Key, ks: seq<Key>, h: seq<Trade>)
    requires forall t :: t in h && WindowOf(Minute1, t) in ks ==> WindowOf(k.interval, t) == k
    ensures |InMinutes(ks, h)| <= |WindowTrades(k, h)| <= |h|
    ensures (exists t :: t in h && WindowOf(k.interval, t) == k && WindowOf(Minute1, t) !in ks) ==>
              |InMinutes(ks, h)| < |WindowTrades(k, h)|
    decreases |h|
  {
    hide Align;
    if h != [] {
      assert h[0] in h && forall t :: t in h[1..] ==> t in h;
      assert forall t :: t in h ==> t == h[0] || t in h[1..];
      FewerTrades(k, ks, h[1..]);
    }
  }

  /** When the 1m answer is cut short, the rebuilt row is wrong: merging rows of minutes of the window gives
      the window's own row exactly when no minute with trades is left out. */
  lemma MergeExactly(k: Key, ks: seq<Key>, h: seq<Trade>, rows: seq<Row>)
    requires Ordered(h) && NonNegative(h) && ks != [] && AscendingKeys(ks) && |rows| == |ks| && |h| < 0x8000_0000
    requires forall i :: 0 <= i < |ks| ==>
               ks[i].interval == Minute1 && WindowTrades(ks[i], h) != [] && rows[i] == WindowRow(ks[i], h)
    requires forall t :: t in h && WindowOf(Minute1, t) in ks ==> WindowOf(k.interval, t) == k
    ensures WindowTrades(k, h) != [] && MergeRows(k.interval, k.start, rows) == WindowRow(k, h)
            <==> forall t :: t in h && WindowOf(k.interval, t) == k ==> WindowOf(Minute1, t) in ks
  {
    hide Align, MergeRows, WindowRow, FoldWindow;
    MergeFolds(k, ks, h, rows);
    FewerTrades(k, ks, h);
    if forall t :: t in h && WindowOf(k.interval, t) == k ==> WindowOf(Minute1, t) in ks {
      MergeEqualsFold(k, ks, h, rows);
    } else {
      SealedCount(k, InMinutes(ks, h));
      RowCount(k, h);
    }
  }

  // ---------------------------------------------------------------- minutes of a window

  lemma AlignedToMinute(iv: Interval, ws: int)
    requires Target(iv) && ws >= 0 && Align(iv, ws) == ws
    ensures ws % iv.Width() == 0 && ws % 60_000 == 0
  {
    hide AlignN;
    FixedAlign(iv.Width(), ws);
    var q, k := ws / iv.Width(), iv.Width() / 60_000;
    assert k * 60_000 == iv.Width();
    ModOfProduct(q, iv.Width());
    MulAssoc(q, k, 60_000);
    ModOfProduct(q * k, 60_000);
  }

  /** A minute starts inside a window exactly when its trades belong to the window. */
  lemma MinuteInWindow(iv: Interval, ws: int, t: Trade)
    requires Target(iv) && ws >= 0 && Align(iv, ws) == ws
    ensures var s := Align(Minute1, t.timestamp);
            ws <= s < ws + iv.Width() <==> WindowOf(iv, t) == Key(iv, ws)
  {
    hide AlignN;
    var s := Align(Minute1, t.timestamp);
    FixedAlign(60_000, t.timestamp);
    FixedAlign(iv.Width(), s);
    Nesting(Minute1, iv, t.timestamp);
    AlignedToMinute(iv, ws);
    if ws <= s < ws + iv.Width() {
      FixedWindow(iv.Width(), ws, s);
    }
  }

  lemma SealTwice(r: Row)
    ensures Seal(Seal(r)) == Seal(r)
  {
  }

  lemma {:induction false} MergeKeepsKey(m: Row, rows: seq<Row>)
    ensures KeyOf(MergeFrom(m, rows)) == KeyOf(m)
    decreases |rows|
  {
    if rows != [] {
      MergeKeepsKey(MergeStep(m, rows[0]), rows[1..]);
    }
  }

  lemma MergedKey(k: Key, rows: seq<Row>)
    requires rows != []
    ensures var r := MergeRows(k.interval, k.start, rows); KeyOf(r) == k && Seal(r) == r
  {
    MergeKeepsKey(MergeStart(k.interval, k.start, rows[0]), rows);
    SealTwice(MergeFrom(MergeStart(k.interval, k.start, rows[0]), rows));
  }

  // ---------------------------------------------------------------- counting

  function CountSum(rows: seq<Row>): int {
    if rows == [] then 0 else rows[0].count + CountSum(rows[1..])
  }

  lemma {:induction false} MergeCount(m: Row, rows: seq<Row>)
    ensures MergeFrom(m, rows).count == Wrap32(m.count + CountSum(rows))
    decreases |rows|
  {
    if rows != [] {
      MergeCount(MergeStep(m, rows[0]), rows[1..]);
      Wrap32Sum(m.count + rows[0].count, CountSum(rows[1..]));
    }
  }

  /** The trades of some minutes, counted minute by minute. */
  function MinuteSum(ks: seq<Key>, h: seq<Trade>): nat {
    if ks == [] then 0 else |WindowTrades(ks[0], h)| + MinuteSum(ks[1..], h)
  }

  ghost predicate Minutes(ks: seq<Key>) {
    AscendingKeys(ks) && forall i :: 0 <= i < |ks| ==> ks[i].interval == Minute1
  }

  lemma {:induction false} MinuteSumHead(ks: seq<Key>, h: seq<Trade>)
    requires Minutes(ks) && h != []
    ensures MinuteSum(ks, h) == MinuteSum(ks, h[1..]) + if WindowOf(Minute1, h[0]) in ks then 1 else 0
    decreases |ks|
  {
    hide Align;
    if ks != [] {
      MinuteSumHead(ks[1..], h);
      assert WindowOf(Minute1, h[0]) in ks <==> WindowOf(Minute1, h[0]) == ks[0] || WindowOf(Minute1, h[0]) in ks[1..];
      assert forall i :: 0 < i < |ks| ==> ks[0].start < ks[i].start && ks[i] == ks[1..][i - 1];
    }
  }

  lemma {:induction false} MinuteSumIs(ks: seq<Key>, h: seq<Trade>)
    requires Minutes(ks)
    ensures MinuteSum(ks, h) == |InMinutes(ks, h)|
    decreases |h|
  {
    hide Align;
    if h == [] {
      NoTradesNoSum(ks);
    } else {
      MinuteSumHead(ks, h);
      MinuteSumIs(ks, h[1..]);
    }
  }

  lemma {:induction false} NoTradesNoSum(ks: seq<Key>)
    ensures MinuteSum(ks, []) == 0
  {
    if ks != [] {
      NoTradesNoSum(ks[1..]);
    }
  }
}
