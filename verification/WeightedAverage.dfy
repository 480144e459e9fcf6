/** How far the stored weighted average can be from the prices it averages, given that every
    amount was rounded down when the trade was made and the quotient is rounded down again. */
module WeightedAverage {
  import opened Int64
  import opened Decimal
  import opened Calendar
  import opened Intervals
  import opened Klines

  /** Prices and quantities are not negative, and every amount is the product, which fits. */
  ghost predicate Priced(ts: seq<Trade>) {
    forall i :: 0 <= i < |ts| ==> PricedTrade(ts[i])
  }

  predicate PricedTrade(t: Trade) {
    t.price >= 0 && t.quantity >= 0 && t.amount == Mul(t.price, t.quantity) && (t.price * t.quantity) / SCALE <= MAX
  }

  lemma AmountOfTrade(t: Trade)
    requires PricedTrade(t)
    ensures t.amount >= 0
    ensures t.price * t.quantity - (SCALE - 1) <= t.amount * SCALE <= t.price * t.quantity
  {
    MulMonotone(0, t.price, t.quantity);
    MulExact(t.price, t.quantity);
  }

  lemma PricedNonNegative(ts: seq<Trade>)
    requires Priced(ts)
    ensures NonNegative(ts)
  {
    forall i | 0 <= i < |ts|
      ensures ts[i].quantity >= 0 && ts[i].amount >= 0
    {
      AmountOfTrade(ts[i]);
    }
  }

  /** Every price is within the bounds. */
  ghost predicate Within(lo: D, hi: D, ts: seq<Trade>) {
    forall i :: 0 <= i < |ts| ==> lo <= ts[i].price <= hi
  }

  lemma {:induction false} AmountBounds(lo: D, hi: D, ts: seq<Trade>)
    requires Priced(ts) && Within(lo, hi, ts)
    ensures lo * Quantities(ts) - |ts| * (SCALE - 1) <= Amounts(ts) * SCALE <= hi * Quantities(ts)
  {
    if ts != [] {
      var t, q := ts[0], Quantities(ts[1..]);
      AmountBounds(lo, hi, ts[1..]);
      AmountOfTrade(t);
      BoundsStep(lo, hi, t.price, t.quantity, q);
    }
  }

  lemma BoundsStep(lo: int, hi: int, price: int, quantity: int, q: int)
    requires lo <= price <= hi && quantity >= 0
    ensures lo * (quantity + q) <= price * quantity + lo * q
    ensures price * quantity + hi * q <= hi * (quantity + q)
  {
    MulMonotone(lo, price, quantity);
    MulMonotone(price, hi, quantity);
    assert lo * (quantity + q) == lo * quantity + lo * q;
    assert hi * (quantity + q) == hi * quantity + hi * q;
  }

  function CeilDiv(x: int, y: int): int
    requires y > 0
  {
    (x + y - 1) / y
  }

  /** A rounded-down quotient lies between the bounds of its dividend. */
  lemma QuotientBounds(x: int, v: int, lo: int, hi: int, slack: int)
    requires v > 0 && lo * v - slack <= x <= hi * v
    ensures lo - CeilDiv(slack, v) <= x / v <= hi
  {
    var q, c := x / v, CeilDiv(slack, v);
    assert x == q * v + x % v;
    assert slack + v - 1 == c * v + (slack + v - 1) % v;
    assert (q + 1) * v == q * v + v && (lo - c) * v == lo * v - c * v && (hi + 1) * v == hi * v + v;
    if q > hi {
      MulMonotone(hi + 1, q, v);
    }
    if q < lo - c {
      MulMonotone(q + 1, lo - c, v);
    }
  }

  /** The stored average never exceeds the highest price, and falls short of the lowest one by at
      most one rounding unit per trade, spread over the volume. */
  lemma AverageBounds(iv: Interval, start: Time, ts: seq<Trade>)
    requires ts != [] && Priced(ts)
    requires 0 < Quantities(ts) <= MAX && 0 <= Amounts(ts) <= QUO_LIMIT
    ensures var f := Seal(FoldWindow(iv, start, ts));
            f.low - CeilDiv(|ts| * (SCALE - 1), Quantities(ts)) <= f.avg <= f.high
  {
    PricedNonNegative(ts);
    FoldMeaning(iv, start, ts);
    var f := FoldWindow(iv, start, ts);
    AmountBounds(f.low, f.high, ts);
    AverageIsQuotient(f);
    QuotientBounds(f.amount * SCALE, f.volume, f.low, f.high, |ts| * (SCALE - 1));
  }

  lemma AverageIsQuotient(f: Row)
    requires f.volume > 0 && 0 <= f.amount <= QUO_LIMIT
    ensures Seal(f) == f.(avg := (f.amount * SCALE) / f.volume)
  {
    QuoExact(f.amount, f.volume);
  }

  /** The average can really fall below the lowest price: a trade whose product is less than one unit
      averages to nothing. */
  lemma AverageBelowLow(iv: Interval, start: Time, t: Trade)
    requires t.price > 0 && t.quantity > 0 && t.price * t.quantity < SCALE && t.amount == Mul(t.price, t.quantity)
    ensures var f := Seal(FoldWindow(iv, start, [t])); f.avg == 0 < f.low == t.price
  {
    TinyAmount(t.price, t.quantity);
    FoldMeaning(iv, start, [t]);
    OneTrade(t);
    hide Mul, Quo, FoldFrom, Quantities, Amounts, TakerBuys, Apply;
    var f := FoldWindow(iv, start, [t]);
    assert f.amount == 0 && f.volume == t.quantity && f.low == t.price;
    AverageIsQuotient(f);
    NothingAveraged(f);
  }

  lemma TinyAmount(price: D, quantity: D)
    requires price > 0 && quantity > 0 && price * quantity < SCALE
    ensures Mul(price, quantity) == 0
  {
    MulMonotone(0, price, quantity);
    MulExact(price, quantity);
  }

  lemma NothingAveraged(f: Row)
    requires f.volume > 0 && f.amount == 0
    ensures (f.amount * SCALE) / f.volume == 0
  {
  }

  lemma OneTrade(t: Trade)
    ensures Quantities([t]) == t.quantity && Amounts([t]) == t.amount
  {
    assert [t][1..] == [];
  }
}
