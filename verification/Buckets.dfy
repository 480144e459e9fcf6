/** The open buckets of one symbol (internal/kline/aggregator.go, updateBuckets and recoverLocked). */
module Buckets {
  import opened Calendar
  import opened Intervals
  import opened Klines
  import opened Tables
  import opened Windows

  type Buckets = map<Interval, Row>

  const ALL: set<Interval> := {Minute1, Minute10, Minute30, Hour1, Week1, Month1, Year1}

  /** The bucket of one interval after a trade. */
  function NextRow(data: Buckets, iv: Interval, t: Trade): Row {
    var start := Align(iv, t.timestamp);
    if iv in data && data[iv].start == start then Apply(data[iv], t)
    else Apply(OpenRow(iv, start, t.price), t)
  }

  /** All seven buckets after a trade. */
  function Updated(data: Buckets, t: Trade): Buckets {
    map iv | iv in ALL :: NextRow(data, iv, t)
  }

  /** A trade of another window completes the bucket of an interval. */
  predicate Closes(data: Buckets, iv: Interval, t: Trade) {
    iv in data && data[iv].start != Align(iv, t.timestamp)
  }

  /** The interval list by position. */
  function Nth(i: nat): (iv: Interval)
    requires i < 7
  {
    if i == 0 then Minute1 else if i == 1 then Minute10 else if i == 2 then Minute30
    else if i == 3 then Hour1 else if i == 4 then Week1 else if i == 5 then Month1 else Year1
  }

  function Rank(iv: Interval): (i: nat)
    ensures i < 7
  {
    match iv
    case Minute1 => 0
    case Minute10 => 1
    case Minute30 => 2
    case Hour1 => 3
    case Week1 => 4
    case Month1 => 5
    case Year1 => 6
  }

  lemma NthRank(i: nat)
    requires i < 7
    ensures INTERVALS[i] == Nth(i) && Rank(Nth(i)) == i
    ensures forall iv :: Nth(Rank(iv)) == iv && iv in ALL
    ensures forall iv :: Rank(iv) == i <==> iv == Nth(i)
  {
  }

  /** The rows a trade completes in the first `i` rounds, in the order of the interval list. */
  function ClosedTo(data: Buckets, t: Trade, i: nat): seq<Row>
    requires i <= 7
  {
    if i == 0 then []
    else ClosedTo(data, t, i - 1) + (if Closes(data, Nth(i - 1), t) then [data[Nth(i - 1)]] else [])
  }

  function Closed(data: Buckets, t: Trade): seq<Row> { ClosedTo(data, t, 7) }

  lemma {:induction false} ClosedExactTo(data: Buckets, t: Trade, i: nat, r: Row)
    requires i <= 7
    ensures r in ClosedTo(data, t, i) <==>
            exists iv :: Rank(iv) < i && Closes(data, iv, t) && data[iv] == r
  {
    hide Align;
    if i > 0 {
      ClosedExactTo(data, t, i - 1, r);
      NthRank(i - 1);
    }
  }

  /** The completed rows are exactly the buckets that the trade does not belong to. */
  lemma ClosedExact(data: Buckets, t: Trade, r: Row)
    ensures r in Closed(data, t) <==> exists iv :: Closes(data, iv, t) && data[iv] == r
  {
    hide Align;
    ClosedExactTo(data, t, 7, r);
    if iv :| Closes(data, iv, t) && data[iv] == r {
      assert Rank(iv) < 7;
    }
  }

  lemma UpdatedAt(data: Buckets, t: Trade, iv: Interval)
    ensures iv in Updated(data, t) && Updated(data, t)[iv] == NextRow(data, iv, t)
  {
    hide Align, NextRow;
    NthRank(0);
  }

  /** recoverLocked, read as a sequential load: the stored rows of the windows that the trade is in, except
      where the load fails. */
  function Recovered(db: Table, t: Trade, failed: set<Interval>): Buckets {
    map iv | iv in ALL && iv !in failed && WindowOf(iv, t) in db :: db[WindowOf(iv, t)]
  }

  /** The buckets that a trade finds: those of memory, or the stored ones for the first trade of a process. */
  function FoundIn(data: Buckets, db: Table, t: Trade, failed: set<Interval>): Buckets {
    if data == map[] then Recovered(db, t, failed) else data
  }

  /** An order in which ranging over the bucket map meets the rows that have trades. */
  ghost predicate Lists(order: seq<Interval>, data: Buckets) {
    && (forall i, j :: 0 <= i < j < |order| ==> order[i] != order[j])
    && (forall iv :: iv in order <==> iv in data && data[iv].count > 0)
  }

  function RowsAt(data: Buckets, order: seq<Interval>): seq<Row>
    requires forall iv :: iv in order ==> iv in data
  {
    seq(|order|, i requires 0 <= i < |order| => data[order[i]])
  }

  /** The rows with trades, in some order. */
  ghost predicate IsSnapshot(rows: seq<Row>, data: Buckets) {
    exists order :: Lists(order, data) && rows == RowsAt(data, order)
  }

  /** The mutable buckets of a symbol. */
  class SymbolBuckets {
    const symbol: string
    var data: map<Interval, Kline>

    /** Each bucket is of the interval and the symbol it is stored under, so none is shared. */
    ghost predicate Valid()
      reads this
    {
      forall iv :: iv in data ==> data[iv].interval == iv && data[iv].symbol == symbol
    }

    function Rows(): Buckets
      reads this, data.Values
    {
      map iv | iv in data :: data[iv].Value()
    }

    constructor (x: string)
      ensures Valid() && symbol == x && data == map[] && Rows() == map[]
    {
      symbol, data := x, map[];
    }

    /** recoverLocked, as a sequential load. */
    method Recover(db: Table, t: Trade, failed: set<Interval>)
      requires data == map[] && Keyed(db)
      modifies this
      ensures Valid() && Rows() == Recovered(db, t, failed)
      ensures forall iv :: iv in data ==> fresh(data[iv])
    {
      hide Align, Kline.Value, ALL;
      for i := 0 to 7
        invariant Valid() && forall iv :: iv in data ==> fresh(data[iv])
        invariant forall iv :: iv in data <==> Rank(iv) < i && iv !in failed && WindowOf(iv, t) in db
        invariant forall iv :: iv in data ==> data[iv].Value() == db[WindowOf(iv, t)]
      {
        NthRank(i);
        var iv := Nth(i);
        if iv !in failed && WindowOf(iv, t) in db {
          LoadBucket(iv, db[WindowOf(iv, t)]);
        }
      }
      NthRank(0);
    }

    method LoadBucket(iv: Interval, r: Row)
      requires Valid() && r.interval == iv
      modifies `data
      ensures Valid() && iv in data && data == old(data)[iv := data[iv]] && fresh(data[iv]) && data[iv].Value() == r
    {
      hide Kline.Value;
      var k := new Kline.FromValue(symbol, r);
      IntervalOfValue(k);
      data := data[iv := k];
    }

    /** A new bucket for the window of a trade. */
    method NewBucket(iv: Interval, startMs: int, t: Trade) returns (k: Kline)
      ensures fresh(k) && k.symbol == symbol && k.interval == iv && k.Value() == OpenRow(iv, startMs, t.price)
    {
      var closing := if startMs >= MIN_TIME then CalcCloseTime(iv, startMs) else startMs;
      hide CalcCloseTime;
      k := new Kline(symbol, iv, startMs, closing, t.price);
    }

    /** The bucket that the trade belongs to is there afterwards; one of another window is handed over. */
    method Switch(iv: Interval, t: Trade) returns (done: seq<Kline>)
      requires Valid()
      modifies `data
      ensures Valid() && iv in data && data == old(data)[iv := data[iv]]
      ensures Apply(data[iv].Value(), t) == NextRow(old(Rows()), iv, t)
      ensures data[iv] in old(data.Values) || fresh(data[iv])
      ensures done == if Closes(old(Rows()), iv, t) then [old(data[iv])] else []
      ensures done != [] ==> fresh(data[iv])
    {
      if iv in data {
        StartOfValue(data[iv]);
      }
      NextIs(Rows(), iv, t);
      hide Align, Apply, OpenRow, NextRow, Kline.Value;
      var startMs := Align(iv, t.timestamp);
      done := [];
      var known := iv in data;
      if known && data[iv].start != startMs {
        done := [data[iv]];
        known := false;
      }
      if !known {
        var bucket := NewBucket(iv, startMs, t);
        data := data[iv := bucket];
      }
    }

    /** One round of the interval loop of updateBuckets. */
    method UpdateInterval(iv: Interval, t: Trade) returns (done: seq<Kline>)
      requires Valid()
      modifies this, data.Values
      ensures Valid() && Rows() == old(Rows())[iv := NextRow(old(Rows()), iv, t)]
      ensures forall c :: c in data.Values ==> c in old(data.Values) || fresh(c)
      ensures done == if Closes(old(Rows()), iv, t) then [old(data[iv])] else []
      ensures done != [] ==> done[0] !in data.Values && done[0].Value() == old(Rows()[iv])
    {
      hide Align, Apply, NextRow, Kline.Value;
      done := Switch(iv, t);
      data[iv].Update(t);
    }

    /** The interval loop of updateBuckets. */
    method UpdateAll(t: Trade) returns (completed: seq<Kline>)
      requires Valid()
      modifies this, data.Values
      ensures Valid() && Rows() == Updated(old(Rows()), t)
      ensures forall c :: c in data.Values ==> c in old(data.Values) || fresh(c)
      ensures |completed| == |Closed(old(Rows()), t)|
      ensures forall i :: 0 <= i < |completed| ==>
                completed[i].Value() == Closed(old(Rows()), t)[i] && completed[i] !in data.Values
    {
      hide Align, NextRow, PartlyUpdated, Updated, ALL, Rows, Kline.Value;
      completed := [];
      ghost var before := Rows();
      PartlyStart(before, t);
      for i := 0 to 7
        invariant Valid() && Rows() == PartlyUpdated(before, t, i)
        invariant forall c :: c in data.Values ==> c in old(data.Values) || fresh(c)
        invariant |completed| == |ClosedTo(before, t, i)|
        invariant forall j :: 0 <= j < |completed| ==>
                    completed[j].Value() == ClosedTo(before, t, i)[j] && completed[j] !in data.Values
      {
        NotYetUpdated(before, t, i);
        var done := UpdateInterval(Nth(i), t);
        completed := completed + done;
      }
      AllUpdated(before, t);
    }

    /** The rows that a checkpoint takes: those with trades, in whatever order the map is ranged over. */
    method Snapshot() returns (rows: seq<Row>)
      requires Valid()
      ensures IsSnapshot(rows, Rows())
    {
      hide Kline.Value;
      rows := [];
      ghost var order: seq<Interval> := [];
      var left := data.Keys;
      while left != {}
        invariant left <= data.Keys
        invariant forall iv :: iv in order <==> iv in data && iv !in left && Rows()[iv].count > 0
        invariant forall i, j :: 0 <= i < j < |order| ==> order[i] != order[j]
        invariant |rows| == |order| && forall i :: 0 <= i < |order| ==> order[i] in data && rows[i] == Rows()[order[i]]
        decreases left
      {
        var iv :| iv in left;
        CountOfValue(data[iv]);
        if data[iv].tradeCount > 0 {
          rows, order := rows + [data[iv].Value()], order + [iv];
        }
        left := left - {iv};
      }
      assert Lists(order, Rows()) && rows == RowsAt(Rows(), order);
    }

    /** updateBuckets: an empty set of buckets is first loaded from the table. The completed klines are no longer
        in the buckets and are handed over as values. */
    method UpdateBuckets(db: Table, t: Trade, failed: set<Interval>) returns (completed: seq<Row>)
      requires Valid() && Keyed(db)
      modifies this, data.Values
      ensures Valid()
      ensures forall c :: c in data.Values ==> c in old(data.Values) || fresh(c)
      ensures var found := FoundIn(old(Rows()), db, t, failed);
              Rows() == Updated(found, t) && completed == Closed(found, t)
    {
      NoneIffEmpty();
      hide Align, Updated, Closed, Recovered, Rows, Kline.Value, Keyed;
      if data == map[] {
        Recover(db, t, failed);
      }
      completed := UpdateFound(t);
    }

    lemma NoneIffEmpty()
      ensures data == map[] <==> Rows() == map[]
    {
      assert data.Keys == Rows().Keys;
    }

    /** The loop, and the completed klines as values. */
    method UpdateFound(t: Trade) returns (completed: seq<Row>)
      requires Valid()
      modifies this, data.Values
      ensures Valid() && Rows() == Updated(old(Rows()), t) && completed == Closed(old(Rows()), t)
      ensures forall c :: c in data.Values ==> c in old(data.Values) || fresh(c)
    {
      hide Align, Updated, Closed, Rows, Kline.Value;
      var klines := UpdateAll(t);
      completed := ValuesOf(klines);
    }
  }

  /** Snapshots of klines. */
  method ValuesOf(klines: seq<Kline>) returns (rows: seq<Row>)
    ensures |rows| == |klines| && forall i :: 0 <= i < |rows| ==> rows[i] == klines[i].Value()
  {
    rows := [];
    for i := 0 to |klines|
      invariant |rows| == i && forall j :: 0 <= j < i ==> rows[j] == klines[j].Value()
    {
      rows := rows + [klines[i].Value()];
    }
  }

  lemma CountOfValue(k: Kline)
    ensures k.Value().count == k.tradeCount
  {
  }

  lemma StartOfValue(k: Kline)
    ensures k.Value().start == k.start
  {
  }

  /** The next row, by whether the bucket is kept. */
  lemma NextIs(data: Buckets, iv: Interval, t: Trade)
    ensures iv in data && !Closes(data, iv, t) ==> NextRow(data, iv, t) == Apply(data[iv], t)
    ensures !(iv in data) || Closes(data, iv, t) ==>
              NextRow(data, iv, t) == Apply(OpenRow(iv, Align(iv, t.timestamp), t.price), t)
  {
    hide Align, Apply, OpenRow;
  }

  lemma IntervalOfValue(k: Kline)
    ensures k.Value().interval == k.interval
  {
  }

  /** The buckets after the first `i` rounds. */
  function PartlyUpdated(data: Buckets, t: Trade, i: nat): Buckets
    requires i <= 7
  {
    if i == 0 then data else PartlyUpdated(data, t, i - 1)[Nth(i - 1) := NextRow(data, Nth(i - 1), t)]
  }

  lemma PartlyStart(data: Buckets, t: Trade)
    ensures PartlyUpdated(data, t, 0) == data
  {
  }

  lemma {:induction false} PartlyAt(data: Buckets, t: Trade, i: nat, iv: Interval)
    requires i <= 7
    ensures var p := PartlyUpdated(data, t, i);
            if Rank(iv) < i then iv in p && p[iv] == NextRow(data, iv, t)
            else (iv in p <==> iv in data) && (iv in data ==> p[iv] == data[iv])
  {
    hide NextRow;
    if i > 0 {
      PartlyAt(data, t, i - 1, iv);
      NthRank(i - 1);
    }
  }

  lemma NotYetUpdated(data: Buckets, t: Trade, i: nat)
    requires i < 7
    ensures var iv, p := Nth(i), PartlyUpdated(data, t, i);
            PartlyUpdated(data, t, i + 1) == p[iv := NextRow(p, iv, t)]
            && ClosedTo(data, t, i + 1) == ClosedTo(data, t, i) + (if Closes(p, iv, t) then [p[iv]] else [])
  {
    hide Align;
    NthRank(i);
    PartlyAt(data, t, i, Nth(i));
  }

  lemma AllUpdated(data: Buckets, t: Trade)
    ensures PartlyUpdated(data, t, 7) == Updated(data, t)
  {
    hide NextRow, PartlyUpdated;
    forall iv: Interval
      ensures var p := PartlyUpdated(data, t, 7); iv in p && p[iv] == NextRow(data, iv, t) && iv in ALL
    {
      PartlyAt(data, t, 7, iv);
      NthRank(0);
    }
  }
}
