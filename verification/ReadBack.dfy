/** Which window rows survive their text columns (internal/repository/kline_repo.go). */
module ReadBack {
  import opened Int64
  import opened Decimal
  import opened Options
  import opened Calendar
  import opened Intervals
  import opened Klines
  import opened Tables
  import opened Windows

  lemma ExtremeNotMin(m: D, p: D, ts: seq<Trade>)
    requires IsMax(m, p, ts) || IsMin(m, p, ts)
    requires p != MIN && forall i :: 0 <= i < |ts| ==> ts[i].price != MIN
    ensures m != MIN
  {
  }

  lemma QuoNonNegative(a: D, b: D)
    requires 0 <= a <= QUO_LIMIT && b > 0
    ensures Quo(a, b) >= 0
  {
    hide Quo, TruncDiv;
    QuoExact(a, b);
    TruncNonNegative(a * SCALE, b);
  }

  lemma TruncNonNegative(x: int, b: int)
    requires x >= 0 && b > 0
    ensures TruncDiv(x, b) >= 0
  {
  }

  /** The row of a window is read back as it was written, exactly when its average is not the most negative value and
      its count has not wrapped below zero; an amount in the range in which the quotient does not wrap rules out the
      first, fewer than 2^31 trades the second. */
  lemma RowReadBack(k: Key, h: seq<Trade>)
    requires WindowTrades(k, h) != [] && k.start >= MIN_TIME && NonNegative(h)
    requires forall i :: 0 <= i < |h| ==> h[i].price != MIN
    ensures var r := WindowRow(k, h);
            && (WriteRead(r) == Some(r) <==> r.avg != MIN && r.count >= 0)
            && (r.amount <= QUO_LIMIT ==> r.avg >= 0)
            && (|WindowTrades(k, h)| < 0x8000_0000 ==> r.count >= 0)
  {
    hide Align, WriteRead, FoldFrom, TakerBuys;
    var ts := WindowTrades(k, h);
    RowCount(k, h);
    WindowNonNegative(k, h);
    forall i | 0 <= i < |ts|
      ensures ts[i].price != MIN
    {
      WindowMember(k, h, ts[i]);
      assert ts[i] in ts;
    }
    FoldMeaning(k.interval, k.start, ts);
    var f := FoldWindow(k.interval, k.start, ts);
    ExtremeNotMin(f.high, ts[0].price, ts);
    ExtremeNotMin(f.low, ts[0].price, ts);
    SumsNonNegative(ts);
    SumsNonNegative(TakerBuys(ts));
    FoldKeepsKey(OpenRow(k.interval, k.start, ts[0].price), ts);
    PersistedExactly(WindowRow(k, h));
    if f.amount <= QUO_LIMIT && f.volume > 0 {
      QuoNonNegative(f.amount, f.volume);
    }
  }
}
