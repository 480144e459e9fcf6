/** Trades, candlestick rows and the fold that makes one from the other (internal/model). */
module Klines {
  import opened Int64
  import opened Decimal
  import opened DecimalText
  import opened DecimalRoundTrip
  import opened Calendar
  import opened Intervals

  /** A trade; `timestamp` is in milliseconds since the epoch. */
  datatype Trade = Trade(symbol: string, id: int, price: D, quantity: D, amount: D, takerBuy: bool, timestamp: nat)

  /** The value of a kline. The creation and update times are wall-clock readings and are left out. */
  datatype Row = Row(interval: Interval, start: int, closeTime: int,
                     open: D, high: D, low: D, close: D,
                     volume: D, amount: D, buyVol: D, buyAmt: D,
                     count: int32, avg: D)

  function NewRow(iv: Interval, start: int, closeTime: int, price: D): Row {
    Row(iv, start, closeTime, price, price, price, price, 0, 0, 0, 0, 0, 0)
  }

  /** Update on values. */
  function Apply(r: Row, t: Trade): Row {
    var s := r.(high := if Cmp(t.price, r.high) > 0 then t.price else r.high,
                low := if Cmp(t.price, r.low) < 0 then t.price else r.low,
                close := t.price,
                volume := Clamp(r.volume + t.quantity),
                amount := Clamp(r.amount + t.amount),
                count := Wrap32(r.count as int + 1));
    if t.takerBuy then s.(buyVol := Clamp(r.buyVol + t.quantity), buyAmt := Clamp(r.buyAmt + t.amount)) else s
  }

  /** ComputeAvg on values: what BatchSave does to a row before writing it. */
  function Seal(r: Row): Row {
    if Sign(r.volume) > 0 then r.(avg := Quo(r.amount, r.volume)) else r
  }

  /** The fold of trades into an open row. */
  function FoldFrom(r: Row, ts: seq<Trade>): Row
    decreases |ts|
  {
    if ts == [] then r else FoldFrom(Apply(r, ts[0]), ts[1..])
  }

  /** The row that starts with the first of `ts` and takes in all of them. */
  function FoldWindow(iv: Interval, start: int, ts: seq<Trade>): Row
    requires ts != []
  {
    FoldFrom(OpenRow(iv, start, ts[0].price), ts)
  }

  /** The empty row of a window. Starts before the calendar's first year do not occur. */
  function OpenRow(iv: Interval, start: int, price: D): Row {
    NewRow(iv, start, if start >= MIN_TIME then CalcCloseTime(iv, start) else start, price)
  }

  lemma {:induction false} FoldConcat(r: Row, ts: seq<Trade>, us: seq<Trade>)
    ensures FoldFrom(r, ts + us) == FoldFrom(FoldFrom(r, ts), us)
    decreases |ts|
  {
    if ts == [] {
      assert ts + us == us;
    } else {
      assert (ts + us)[1..] == ts[1..] + us;
      FoldConcat(Apply(r, ts[0]), ts[1..], us);
    }
  }

  lemma FoldSnoc(iv: Interval, start: int, ts: seq<Trade>, t: Trade)
    requires ts != []
    ensures FoldWindow(iv, start, ts + [t]) == Apply(FoldWindow(iv, start, ts), t)
  {
    FoldConcat(OpenRow(iv, start, ts[0].price), ts, [t]);
    FoldOne(FoldWindow(iv, start, ts), t);
  }

  lemma FoldOne(r: Row, t: Trade)
    ensures FoldFrom(r, [t]) == Apply(r, t)
  {
    assert [t][1..] == [];
  }

  lemma {:induction false} FoldKeepsKey(r: Row, ts: seq<Trade>)
    ensures var f := FoldFrom(r, ts);
            f.interval == r.interval && f.start == r.start && f.closeTime == r.closeTime
            && f.open == r.open && f.avg == r.avg
    decreases |ts|
  {
    if ts != [] {
      FoldKeepsKey(Apply(r, ts[0]), ts[1..]);
    }
  }

  // ---------------------------------------------------------------- what a fold means

  ghost predicate NonNegative(ts: seq<Trade>) {
    forall i :: 0 <= i < |ts| ==> ts[i].quantity >= 0 && ts[i].amount >= 0
  }

  lemma NonNegativeTail(ts: seq<Trade>)
    requires NonNegative(ts) && ts != []
    ensures NonNegative(ts[1..]) && ts[0].quantity >= 0 && ts[0].amount >= 0
  {
  }

  predicate NonNegativeSums(r: Row) {
    r.volume >= 0 && r.amount >= 0 && r.buyVol >= 0 && r.buyAmt >= 0
  }

  function Quantities(ts: seq<Trade>): int {
    if ts == [] then 0 else ts[0].quantity + Quantities(ts[1..])
  }

  function Amounts(ts: seq<Trade>): int {
    if ts == [] then 0 else ts[0].amount + Amounts(ts[1..])
  }

  /** The trades whose taker bought. */
  function TakerBuys(ts: seq<Trade>): seq<Trade> {
    if ts == [] then []
    else if ts[0].takerBuy then [ts[0]] + TakerBuys(ts[1..])
    else TakerBuys(ts[1..])
  }

  function Capped(x: int): int { if x > MAX then MAX else x }

  ghost predicate IsMax(m: D, p: D, ts: seq<Trade>) {
    && (m == p || exists i :: 0 <= i < |ts| && ts[i].price == m)
    && p <= m && forall i :: 0 <= i < |ts| ==> ts[i].price <= m
  }

  ghost predicate IsMin(m: D, p: D, ts: seq<Trade>) {
    && (m == p || exists i :: 0 <= i < |ts| && ts[i].price == m)
    && m <= p && forall i :: 0 <= i < |ts| ==> m <= ts[i].price
  }

  lemma {:induction false} SumsNonNegative(ts: seq<Trade>)
    requires NonNegative(ts)
    ensures Quantities(ts) >= 0 && Amounts(ts) >= 0
    ensures NonNegative(TakerBuys(ts))
  {
    if ts != [] {
      NonNegativeTail(ts);
      SumsNonNegative(ts[1..]);
    }
  }

  lemma BuysTail(ts: seq<Trade>)
    requires ts != []
    ensures var b, b' := TakerBuys(ts), TakerBuys(ts[1..]);
            Quantities(b) == Quantities(b') + (if ts[0].takerBuy then ts[0].quantity else 0)
            && Amounts(b) == Amounts(b') + (if ts[0].takerBuy then ts[0].amount else 0)
  {
    var b' := TakerBuys(ts[1..]);
    assert ([ts[0]] + b')[1..] == b';
  }

  /** The sums of a fold are the true sums, capped once at the largest decimal; the count wraps. */
  lemma {:induction false} FoldSums(r: Row, ts: seq<Trade>)
    requires NonNegativeSums(r) && NonNegative(ts)
    ensures var f := FoldFrom(r, ts);
            NonNegativeSums(f)
            && f.volume == Capped(r.volume + Quantities(ts))
            && f.amount == Capped(r.amount + Amounts(ts))
            && f.buyVol == Capped(r.buyVol + Quantities(TakerBuys(ts)))
            && f.buyAmt == Capped(r.buyAmt + Amounts(TakerBuys(ts)))
    decreases |ts|
  {
    if ts != [] {
      var t := ts[0];
      NonNegativeTail(ts);
      SumsNonNegative(ts[1..]);
      SumsNonNegative(TakerBuys(ts[1..]));
      BuysTail(ts);
      FoldSums(Apply(r, t), ts[1..]);
    }
  }

  lemma {:induction false} FoldCount(r: Row, ts: seq<Trade>)
    ensures FoldFrom(r, ts).count == Wrap32(r.count + |ts|)
    decreases |ts|
  {
    if ts != [] {
      FoldCount(Apply(r, ts[0]), ts[1..]);
      Wrap32Sum(r.count + 1, |ts| - 1);
    }
  }

  lemma {:induction false} FoldExtremes(r: Row, ts: seq<Trade>)
    ensures var f := FoldFrom(r, ts);
            IsMax(f.high, r.high, ts) && IsMin(f.low, r.low, ts)
            && f.close == if ts == [] then r.close else ts[|ts| - 1].price
    decreases |ts|
  {
    if ts != [] {
      var s := Apply(r, ts[0]);
      FoldExtremes(s, ts[1..]);
      var f := FoldFrom(r, ts);
      assert ts[1..] != [] ==> ts[1..][|ts| - 2] == ts[|ts| - 1];
      forall i | 0 <= i < |ts|
        ensures ts[i].price <= f.high && f.low <= ts[i].price
      {
        assert i > 0 ==> ts[1..][i - 1] == ts[i];
      }
    }
  }

  /** Field by field, what the row of a window of trades holds. */
  lemma FoldMeaning(iv: Interval, start: Time, ts: seq<Trade>)
    requires ts != [] && NonNegative(ts)
    ensures var f := FoldWindow(iv, start, ts);
            && f.interval == iv && f.start == start && f.closeTime == CalcCloseTime(iv, start)
            && f.open == ts[0].price && f.close == ts[|ts| - 1].price
            && IsMax(f.high, ts[0].price, ts) && IsMin(f.low, ts[0].price, ts)
            && f.volume == Capped(Quantities(ts)) && f.amount == Capped(Amounts(ts))
            && f.buyVol == Capped(Quantities(TakerBuys(ts))) && f.buyAmt == Capped(Amounts(TakerBuys(ts)))
            && f.count == Wrap32(|ts|)
  {
    hide Apply, FoldFrom, Capped, Quantities, Amounts, TakerBuys;
    var r := OpenRow(iv, start, ts[0].price);
    FoldKeepsKey(r, ts);
    FoldSums(r, ts);
    FoldCount(r, ts);
    FoldExtremes(r, ts);
  }

  // ---------------------------------------------------------------- the mutable kline

  class Kline {
    /** The symbol whose buckets the kline was made for. */
    ghost const symbol: string
    const interval: Interval
    const start: int
    const closeTime: int
    var open: D
    var high: D
    var low: D
    var close: D
    var volume: D
    var amount: D
    var buyTakerVol: D
    var buyTakerAmt: D
    var tradeCount: int32
    var weightedAvg: D

    function Value(): Row
      reads this
    {
      Row(interval, start, closeTime, open, high, low, close, volume, amount, buyTakerVol, buyTakerAmt,
          tradeCount, weightedAvg)
    }

    constructor (ghost sym: string, iv: Interval, startTime: int, closing: int, price: D)
      ensures symbol == sym && Value() == NewRow(iv, startTime, closing, price)
    {
      symbol := sym;
      interval, start, closeTime := iv, startTime, closing;
      open, high, low, close := price, price, price, price;
      volume, amount, buyTakerVol, buyTakerAmt := 0, 0, 0, 0;
      tradeCount, weightedAvg := 0, 0;
    }

    constructor FromValue(ghost sym: string, r: Row)
      ensures symbol == sym && Value() == r
    {
      symbol := sym;
      interval, start, closeTime := r.interval, r.start, r.closeTime;
      open, high, low, close := r.open, r.high, r.low, r.close;
      volume, amount, buyTakerVol, buyTakerAmt := r.volume, r.amount, r.buyVol, r.buyAmt;
      tradeCount, weightedAvg := r.count, r.avg;
    }

    method Update(t: Trade)
      modifies this
      ensures Value() == Apply(old(Value()), t)
    {
      if Cmp(t.price, high) > 0 {
        high := t.price;
      }
      if Cmp(t.price, low) < 0 {
        low := t.price;
      }
      close := t.price;
      volume := Sum(volume, t.quantity);
      amount := Sum(amount, t.amount);
      tradeCount := Wrap32(tradeCount as int + 1);
      if t.takerBuy {
        buyTakerVol := Sum(buyTakerVol, t.quantity);
        buyTakerAmt := Sum(buyTakerAmt, t.amount);
      }
    }

    method ComputeAvg()
      modifies this
      ensures Value() == Seal(old(Value()))
    {
      if Sign(volume) > 0 {
        weightedAvg := Quo(amount, volume);
      }
    }
  }

  // ---------------------------------------------------------------- ticks

  /** The message of the matching engine, and of the push to subscribers. */
  datatype Tick = Tick(symbol: string, id: int, price: string, quantity: string, side: string, time: nat)

  function NewTradeFromTick(k: Tick): Trade {
    var price, qty := ParseDec(k.price), ParseDec(k.quantity);
    Trade(k.symbol, k.id, price, qty, Mul(price, qty), k.side == "BUY", k.time)
  }

  /** What broadcastLoop sends for a trade. */
  function TickOf(t: Trade): Tick {
    Tick(t.symbol, t.id, Trim(Show(t.price)), Trim(Show(t.quantity)), if t.takerBuy then "BUY" else "SELL", t.timestamp)
  }

  /** A subscriber that reads a pushed tick back gets the trade itself, exactly when neither
      decimal is the most negative one and the amount is the product. */
  lemma TickRoundTrip(t: Trade)
    ensures NewTradeFromTick(TickOf(t)) == t <==>
            t.price != MIN && t.quantity != MIN && t.amount == Mul(t.price, t.quantity)
  {
    TrimmedRoundTrip(t.price);
    TrimmedRoundTrip(t.quantity);
    assert "SELL"[0] != "BUY"[0];
  }

  /** A tick whose price and quantity are the texts of two decimals is the trade with that price and quantity, whose
      amount is their product and whose taker bought when the side is BUY. */
  lemma TickMeaning(k: Tick, p: D, q: D)
    requires p != MIN && q != MIN && k.price == Trim(Show(p)) && k.quantity == Trim(Show(q))
    requires k.side == "BUY" || k.side == "SELL"
    ensures var t := NewTradeFromTick(k);
            && t.symbol == k.symbol && t.id == k.id && t.timestamp == k.time
            && t.price == p && t.quantity == q && t.amount == Mul(p, q)
            && (k.side == "BUY" ==> t.takerBuy) && (k.side == "SELL" ==> !t.takerBuy)
  {
    TrimmedRoundTrip(p);
    TrimmedRoundTrip(q);
    assert "SELL"[0] != "BUY"[0];
  }

  /** What a subscriber is sent for a trade: the side of its taker and texts that read back as its decimals. */
  lemma PushMeaning(t: Trade)
    requires t.price != MIN && t.quantity != MIN
    ensures var k := TickOf(t);
            && k.symbol == t.symbol && k.id == t.id && k.time == t.timestamp
            && ParseDec(k.price) == t.price && ParseDec(k.quantity) == t.quantity
            && (t.takerBuy ==> k.side == "BUY") && (!t.takerBuy ==> k.side == "SELL")
  {
    TrimmedRoundTrip(t.price);
    TrimmedRoundTrip(t.quantity);
  }
}
