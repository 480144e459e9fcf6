/** How many of a window's trades the rows of the pipeline have seen. */
module Counts {
  import opened Int64
  import opened Intervals
  import opened Klines
  import opened Tables
  import opened Windows
  import opened Buckets
  import opened Options
  import opened Backfill
  import opened Pipeline
  import opened Refinement

  /** The row has counted some of the trades of its window, and, when `strict`, all of them only if they come in one
      stretch. */
  ghost predicate Counted(h: seq<Trade>, r: Row, strict: bool) { exists n: nat :: Saw(h, r, strict, n) }

  ghost predicate Saw(h: seq<Trade>, r: Row, strict: bool, n: nat) {
    var all := |WindowTrades(KeyOf(r), h)|;
    0 < n <= all && r.count == Wrap32(n) && (strict && !Contiguous(KeyOf(r), h) ==> n < all)
  }

  ghost predicate CountInv(s: Sym, strict: bool) {
    && (forall iv :: iv in s.data ==> Counted(s.history, s.data[iv], strict))
    && (forall r :: Pend(s, r) ==> Counted(s.history, r, strict))
    && (forall r :: r in s.snap ==> Counted(s.history, r, strict))
    && (forall k :: k in s.db ==> Counted(s.history, s.db[k], strict))
    && (s.fill.Some? ==> Counted(s.history, s.fill.value, false))
    && (strict ==> s.fill == None && (s.data == map[] ==> s.db == map[]))
  }

  /** A step of one process of a leader in which every save of completed rows succeeds and nothing is rebuilt. */
  predicate Plain(a: Action) {
    match a
    case Update(_, _) => true
    case Append(_, leader) => leader
    case SaveDrained(ok) => ok
    case Gather(_, _) => false
    case Backfill(_) => false
    case Restart(_) => false
    case Crash => false
    case _ => true
  }

  lemma StartCounts(strict: bool)
    ensures CountInv(START, strict)
  {
  }

  lemma UntradedContiguous(k: Key, h: seq<Trade>)
    requires !Traded(h, k)
    ensures Contiguous(k, h)
  {
    hide WindowTrades, InWindow;
    forall i | 0 <= i < |h|
      ensures !InWindow(k, h[i])
    {
      if InWindow(k, h[i]) {
        HasTrade(k, h, i);
      }
    }
  }

  lemma SealCounted(h: seq<Trade>, r: Row, strict: bool)
    requires Counted(h, r, strict)
    ensures Counted(h, Seal(r), strict)
  {
    hide Contiguous;
    var n: nat :| Saw(h, r, strict, n);
    SealKeepsKey(r);
    assert Saw(h, Seal(r), strict, n);
  }

  lemma CountedLater(h: seq<Trade>, t: Trade, r: Row, strict: bool)
    requires Counted(h, r, strict)
    ensures Counted(h + [t], r, strict)
  {
    hide InWindow, Contiguous, WindowTrades;
    var n: nat :| Saw(h, r, strict, n);
    After1(h, t, KeyOf(r));
    ContiguousSnoc(KeyOf(r), h, t);
    assert Saw(h + [t], r, strict, n);
  }

  /** The bucket of a trade's window has seen one trade more. */
  lemma NextCounted(s: Sym, t: Trade, failed: set<Interval>, iv: Interval, strict: bool)
    requires Core(s) && CountInv(s, strict)
    ensures Counted(s.history + [t], NextRow(Found(s, t, failed), iv, t), strict)
  {
    hide Align, Contiguous, WindowTrades, OpenRow, Core, CountInv;
    var h, k, data := s.history, WindowOf(iv, t), Found(s, t, failed);
    var next := NextRow(data, iv, t);
    FoundPlaced(s, t, failed);
    NextKey(data, iv, t);
    After1(h, t, k);
    ContiguousSnoc(k, h, t);
    if iv in data && data[iv].start == Align(iv, t.timestamp) {
      FoundHolds(s, t, failed, iv);
      FoundCounted(s, t, failed, iv, strict);
      var n: nat :| Saw(h, data[iv], strict, n);
      Wrap32Sum(n, 1);
      assert Saw(h + [t], next, strict, n + 1);
    } else {
      FirstCount(iv, t);
      if !Traded(h, k) {
        UntradedContiguous(k, h);
      }
      assert Saw(h + [t], next, strict, 1);
    }
  }

  lemma FirstCount(iv: Interval, t: Trade)
    ensures Apply(OpenRow(iv, Align(iv, t.timestamp), t.price), t).count == Wrap32(1)
  {
    hide Align;
  }

  lemma FoundCounted(s: Sym, t: Trade, failed: set<Interval>, iv: Interval, strict: bool)
    requires Core(s) && CountInv(s, strict) && iv in Found(s, t, failed)
    ensures Counted(s.history, Found(s, t, failed)[iv], strict)
    ensures strict ==> s.data != map[]
  {
    hide Align, Core, Counted;
  }

  lemma CompletedCounted(s: Sym, t: Trade, failed: set<Interval>, r: Row, strict: bool)
    requires Core(s) && CountInv(s, strict) && r in Closed(Found(s, t, failed), t)
    ensures Counted(s.history, r, strict)
  {
    hide Align, Core, Counted;
    ClosedExact(Found(s, t, failed), t, r);
    var iv :| Closes(Found(s, t, failed), iv, t) && Found(s, t, failed)[iv] == r;
    FoundCounted(s, t, failed, iv, strict);
  }

  lemma UpdateCounts(s: Sym, t: Trade, failed: set<Interval>, strict: bool)
    requires Core(s) && CountInv(s, strict)
    ensures CountInv(Step(s, Update(t, failed)), strict)
  {
    hide Align, Core, Counted, Closed, NextRow, Found;
    var h, s' := s.history, Step(s, Update(t, failed));
    forall iv: Interval
      ensures iv in s'.data && Counted(s'.history, s'.data[iv], strict)
    {
      UpdatedAt(Found(s, t, failed), t, iv);
      NextCounted(s, t, failed, iv, strict);
    }
    hide Updated;
    forall r | Pend(s', r)
      ensures Counted(s'.history, r, strict)
    {
      if !Pend(s, r) {
        CompletedCounted(s, t, failed, r, strict);
      }
      CountedLater(h, t, r, strict);
    }
    forall r | r in s'.snap
      ensures Counted(s'.history, r, strict)
    {
      CountedLater(h, t, r, strict);
    }
    forall k | k in s'.db
      ensures Counted(s'.history, s'.db[k], strict)
    {
      CountedLater(h, t, s.db[k], strict);
    }
    if s.fill.Some? {
      CountedLater(h, t, s.fill.value, false);
    }
    assert Minute1 in s'.data;
  }

  lemma SavedCounted(h: seq<Trade>, db: Table, rows: seq<Row>, ok: bool, k: Key, strict: bool)
    requires forall j :: j in db ==> Counted(h, db[j], strict)
    requires forall r :: r in rows ==> Counted(h, r, strict)
    requires k in Saved(db, rows, ok)
    ensures Counted(h, Saved(db, rows, ok)[k], strict)
  {
    hide Counted, Seal, SaveAll;
    if ok && Storable(rows) {
      SaveAllAt(db, rows, k);
      if HasKey(rows, k) {
        var r :| r in rows && KeyOf(r) == k && SaveAll(db, rows)[k] == Seal(r);
        SealCounted(h, r, strict);
      }
    }
  }

  lemma RowsAtCounted(h: seq<Trade>, data: Buckets, order: seq<Interval>, strict: bool)
    requires forall iv :: iv in data ==> Counted(h, data[iv], strict)
    requires forall iv :: iv in order ==> iv in data
    ensures forall r :: r in RowsAt(data, order) ==> Counted(h, r, strict)
  {
    hide Counted;
    assert forall i :: 0 <= i < |order| ==> order[i] in order;
  }

  // ---------------------------------------------------------------- merged rows

  /** Each row has seen some of its minute's trades: so many. */
  lemma {:induction false} MergedSum(h: seq<Trade>, ks: seq<Key>, rows: seq<Row>) returns (n: nat)
    requires |ks| == |rows|
    requires forall i :: 0 <= i < |ks| ==> KeyOf(rows[i]) == ks[i] && Counted(h, rows[i], false)
    ensures |ks| <= n <= MinuteSum(ks, h) && Wrap32(CountSum(rows)) == Wrap32(n)
    decreases |ks|
  {
    hide Contiguous, WindowTrades, Wrap32;
    if ks == [] {
      n := 0;
    } else {
      var m := MergedSum(h, ks[1..], rows[1..]);
      var first: nat :| Saw(h, rows[0], false, first);
      n := first + m;
      WrappedSums(first, m, CountSum(rows[1..]), rows[0].count);
    }
  }

  lemma WrappedSums(first: int, m: int, rest: int, c: int32)
    requires c == Wrap32(first) && Wrap32(rest) == Wrap32(m)
    ensures Wrap32(c as int + rest) == Wrap32(first + m)
  {
    Wrap32Sum(c, rest);
    Wrap32Sum(c, m);
    Wrap32Sum(first, m);
    Wrap32Sum(m, c);
    Wrap32Sum(m, first);
  }

  /** The trades of some minutes of a window are trades of the window. */
  lemma MinutesWithin(k: Key, ks: seq<Key>, h: seq<Trade>)
    requires Gathers(k, ks)
    ensures MinuteSum(ks, h) <= |WindowTrades(k, h)|
    ensures forall t :: t in h && WindowOf(Minute1, t) in ks ==> WindowOf(k.interval, t) == k
  {
    hide Align, WindowTrades, Minutes;
    forall t | t in h && WindowOf(Minute1, t) in ks
      ensures WindowOf(k.interval, t) == k
    {
      MinuteInWindow(k.interval, k.start, t);
    }
    FewerTrades(k, ks, h);
    MinuteSumIs(ks, h);
  }

  lemma StoredCounted(s: Sym, ks: seq<Key>)
    requires DbOk(s) && CountInv(s, false) && forall i :: 0 <= i < |ks| ==> ks[i] in s.db
    ensures var rows := RowsOf(s.db, ks);
            forall i :: 0 <= i < |ks| ==> KeyOf(rows[i]) == ks[i] && Counted(s.history, rows[i], false)
  {
    hide Counted;
    forall i | 0 <= i < |ks|
      ensures KeyOf(s.db[ks[i]]) == ks[i] && Counted(s.history, s.db[ks[i]], false)
    {
      assert DbRowOk(s, ks[i], s.db[ks[i]]);
    }
  }

  lemma GatheredCounted(s: Sym, k: Key, ks: seq<Key>)
    requires DbOk(s) && CountInv(s, false) && Enabled(s, Gather(k, ks))
    ensures Counted(s.history, MergeRows(k.interval, k.start, RowsOf(s.db, ks)), false)
  {
    StoredCounted(s, ks);
    var rows := RowsOf(s.db, ks);
    assert rows != [];
    hide Align, WindowTrades, Contiguous, MergeRows, Gathers, DbOk, CountInv, Counted, Wrap32, RowsOf, Minutes;
    var n := MergedSum(s.history, ks, rows);
    MinutesWithin(k, ks, s.history);
    MergedKey(k, rows);
    MergedCount(k, rows);
    assert Saw(s.history, MergeRows(k.interval, k.start, rows), false, n);
  }

  lemma GatherCounts(s: Sym, k: Key, ks: seq<Key>)
    requires Core(s) && CountInv(s, false) && Enabled(s, Gather(k, ks))
    ensures CountInv(Step(s, Gather(k, ks)), false)
  {
    GatheredCounted(s, k, ks);
    hide Core, Counted, MergeRows, Gathers, Late;
    var s' := Step(s, Gather(k, ks));
    SameLate(s, s');
    assert forall r :: Pend(s', r) ==> Pend(s, r);
  }

  lemma MergedCount(k: Key, rows: seq<Row>)
    requires rows != []
    ensures MergeRows(k.interval, k.start, rows).count == Wrap32(CountSum(rows))
  {
    MergeCount(MergeStart(k.interval, k.start, rows[0]), rows);
  }

  // ---------------------------------------------------------------- steps and runs

  lemma MoveCounts(s: Sym, a: Action, strict: bool)
    requires Core(s) && CountInv(s, strict) && Enabled(s, a)
    requires a.Append? || a.Drain? || a.Snapshot? || a.Finish? || a.Crash?
    requires strict ==> Plain(a)
    ensures CountInv(Step(s, a), strict)
  {
    hide Core, Counted, WindowTrades, Contiguous;
    var s' := Step(s, a);
    forall r | Pend(s', r)
      ensures Counted(s.history, r, strict)
    {
      if a.Append? {
        AppendMoves(s, a.i, a.leader, r);
      }
      assert Pend(s, r);
    }
    if a.Snapshot? {
      RowsAtCounted(s.history, s.data, a.order, strict);
    }
  }

  /** A save of rows that have been counted. */
  lemma WriteCounts(s: Sym, s': Sym, rows: seq<Row>, ok: bool, strict: bool)
    requires CountInv(s, strict) && s'.history == s.history && s'.data == s.data
    requires s'.db == Saved(s.db, rows, ok) && forall r :: r in rows ==> Counted(s.history, r, strict)
    requires (forall r :: Pend(s', r) ==> Pend(s, r)) && (s'.snap == s.snap || s'.snap == [])
    requires (s'.fill == s.fill || s'.fill == None) && (strict ==> s.data != map[])
    ensures CountInv(s', strict)
  {
    hide Counted, Saved, Pend;
    forall k | k in s'.db
      ensures Counted(s.history, s'.db[k], strict)
    {
      SavedCounted(s.history, s.db, rows, ok, k, strict);
    }
  }

  lemma SaveDrainedCounts(s: Sym, ok: bool, strict: bool)
    requires Core(s) && CountInv(s, strict) && Enabled(s, SaveDrained(ok))
    ensures CountInv(Step(s, SaveDrained(ok)), strict)
  {
    var s' := Step(s, SaveDrained(ok));
    assert Pend(s, s.drained[0]);
    hide Core, Counted, Saved, Storable, Late;
    SameLate(s, s');
    assert forall r :: r in s.drained ==> Pend(s, r);
    WriteCounts(s, s', s.drained, ok, strict);
  }

  lemma SaveSnapCounts(s: Sym, ok: bool, strict: bool)
    requires Core(s) && CountInv(s, strict) && Enabled(s, SaveSnap(ok))
    ensures CountInv(Step(s, SaveSnap(ok)), strict)
  {
    var s' := Step(s, SaveSnap(ok));
    assert s.data != map[];
    hide Core, Counted, Saved, Late;
    SameLate(s, s');
    WriteCounts(s, s', s.snap, ok, strict);
  }

  lemma BackfillCounts(s: Sym, ok: bool)
    requires CountInv(s, false) && Enabled(s, Backfill(ok))
    ensures CountInv(Step(s, Backfill(ok)), false)
  {
    var s' := Step(s, Backfill(ok));
    hide Core, Counted, Saved, Late, Exact, PendKey, IsClosed;
    SameLate(s, s');
    WriteCounts(s, s', [s.fill.value], ok, false);
  }

  lemma RestartCounts(s: Sym, order: seq<Interval>)
    requires Core(s) && CountInv(s, false) && Enabled(s, Restart(order))
    ensures CountInv(Step(s, Restart(order)), false)
  {
    hide Core, Counted, WindowTrades, Contiguous, SaveAll, Storable;
    var s' := Step(s, Restart(order));
    var mid, rows := Saved(s.db, s.buf, true), RowsAt(s.data, order);
    RowsAtCounted(s.history, s.data, order, false);
    assert forall r :: r in s.buf ==> Late(s, r) && Pend(s, r);
    forall k | k in mid
      ensures Counted(s.history, mid[k], false)
    {
      SavedCounted(s.history, s.db, s.buf, true, k, false);
    }
    OpenStorable(s.data, order);
    forall k | k in s'.db
      ensures Counted(s.history, s'.db[k], false)
    {
      SavedCounted(s.history, mid, rows, true, k, false);
    }
    assert forall r :: Pend(s', r) ==> Pend(s, r);
  }

  /** Open rows are saved only with a positive count. */
  lemma OpenStorable(data: Buckets, order: seq<Interval>)
    requires Lists(order, data)
    ensures Storable(RowsAt(data, order))
  {
    assert forall i :: 0 <= i < |order| ==> order[i] in order;
  }

  lemma StepCounts(s: Sym, a: Action, strict: bool)
    requires Core(s) && CountInv(s, strict) && Enabled(s, a) && (strict ==> Plain(a))
    ensures CountInv(Step(s, a), strict)
  {
    hide Core, CountInv, Enabled, Step;
    match a
    case Update(t, failed) => UpdateCounts(s, t, failed, strict);
    case Gather(k, ks) => GatherCounts(s, k, ks);
    case Restart(order) => RestartCounts(s, order);
    case SaveDrained(ok) => SaveDrainedCounts(s, ok, strict);
    case SaveSnap(ok) => SaveSnapCounts(s, ok, strict);
    case Backfill(ok) => BackfillCounts(s, ok);
    case _ => MoveCounts(s, a, strict);
  }

  lemma NonNegativeBefore(s: Sym, run: seq<Action>)
    requires Possible(s, run) && NonNegative(After(s, run).history)
    ensures NonNegative(s.history)
    decreases |run|
  {
    if run != [] {
      NonNegativeBefore(Step(s, run[0]), run[1..]);
      if run[0].Update? {
        NonNegativeSnoc(s.history, run[0].t);
      }
    }
  }

  lemma {:induction false} RunCounts(s: Sym, run: seq<Action>, strict: bool)
    requires Inv(s) && CountInv(s, strict) && Possible(s, run) && NonNegative(After(s, run).history)
    requires strict ==> forall a :: a in run ==> Plain(a)
    ensures Core(After(s, run)) && CountInv(After(s, run), strict)
    decreases |run|
  {
    NonNegativeBefore(s, run);
    hide Core, CountInv, Step, Enabled, NonNegative;
    if run != [] {
      assert run[0] in run;
      StepInv(s, run[0]);
      StepCounts(s, run[0], strict);
      RunCounts(Step(s, run[0]), run[1..], strict);
    }
  }

  /** With fewer than 2^31 trades every count is positive, and every row can be stored. */
  lemma CountedPositive(h: seq<Trade>, r: Row, strict: bool)
    requires Counted(h, r, strict) && |h| < 0x8000_0000
    ensures 0 < r.count <= |WindowTrades(KeyOf(r), h)|
    ensures strict && !Contiguous(KeyOf(r), h) ==> r.count < |WindowTrades(KeyOf(r), h)|
  {
    hide Contiguous;
    NoMoreThanAll(KeyOf(r), h);
  }
}
