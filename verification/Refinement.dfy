/** Buckets, buffers, the running checkpoint and the table together always hold exactly the fold of all trades:
    the pipeline of aggregator.go refines "group by window and fold", window by window, for every window
    whose trades come in one stretch. */
module Refinement {
  import opened Intervals
  import opened Klines
  import opened Tables
  import opened Windows
  import opened Buckets
  import opened Bags
  import opened Options
  import opened Backfill
  import opened Pipeline

  /** A window whose bucket sees all of its trades. */
  ghost predicate Good(s: Sym, k: Key) { Contiguous(k, s.history) && k !in s.tainted }

  ghost predicate HoldsNow(h: seq<Trade>, r: Row) { Holds(r, KeyOf(r), WindowTrades(KeyOf(r), h)) }

  /** The row was the window's row at some time. */
  ghost predicate Was(h: seq<Trade>, k: Key, r: Row) {
    exists g :: g <= h && Traded(g, k) && r == WindowRow(k, g)
  }

  /** Each row was its minute's row at some time, if the minute's bucket sees all trades. */
  ghost predicate WereMinutes(s: Sym, ks: seq<Key>, rows: seq<Row>) {
    && |rows| == |ks|
    && forall i :: 0 <= i < |ks| ==> MinuteOk(s, ks[i], rows[i])
  }

  ghost predicate MinuteOk(s: Sym, k: Key, r: Row) {
    (k !in s.tainted ==> Traded(s.history, k)) && (Good(s, k) ==> Was(s.history, k, r))
  }

  ghost predicate MergedFrom(s: Sym, k: Key, r: Row, ks: seq<Key>, rows: seq<Row>) {
    Gathers(k, ks) && WereMinutes(s, ks, rows) && r == MergeRows(k.interval, k.start, rows)
  }

  /** The row was merged from rows of minutes of the window. */
  ghost predicate Merged(s: Sym, k: Key, r: Row) { exists ks, rows :: MergedFrom(s, k, r, ks, rows) }

  // ---------------------------------------------------------------- the invariant

  ghost predicate DataOk(s: Sym) {
    s.data != map[] ==> s.history != [] && forall iv: Interval :: iv in s.data && BucketOk(s, iv)
  }

  ghost predicate BucketOk(s: Sym, iv: Interval)
    requires s.history != [] && iv in s.data
  {
    KeyOf(s.data[iv]) == CurKey(s.history, iv) && (Good(s, KeyOf(s.data[iv])) ==> HoldsNow(s.history, s.data[iv]))
  }

  ghost predicate PendRowOk(s: Sym, r: Row) {
    && Traded(s.history, KeyOf(r))
    && (Contiguous(KeyOf(r), s.history) ==> IsClosed(s.history, KeyOf(r)))
    && (Good(s, KeyOf(r)) ==> HoldsNow(s.history, r))
  }

  ghost predicate PendOk(s: Sym) { forall r :: Pend(s, r) ==> PendRowOk(s, r) }

  ghost predicate ClosedOk(s: Sym) {
    forall k :: Good(s, k) && IsClosed(s.history, k) ==> k in s.lost || PendKey(s, k) || Exact(s, k)
  }

  ghost predicate StoredOk(s: Sym) {
    s.data == map[] ==> forall k :: Good(s, k) && IsOpen(s.history, k) ==> Exact(s, k)
  }

  ghost predicate DbRowOk(s: Sym, k: Key, r: Row) {
    && KeyOf(r) == k && (k !in s.tainted ==> Traded(s.history, k))
    && (Good(s, k) ==> Was(s.history, k, r) || Merged(s, k, r))
    && (k.interval == Minute1 && Good(s, k) ==> Was(s.history, k, r))
  }

  ghost predicate DbOk(s: Sym) { forall k :: k in s.db ==> DbRowOk(s, k, s.db[k]) }

  ghost predicate SnapRowOk(s: Sym, r: Row) {
    && Traded(s.history, KeyOf(r))
    && (Good(s, KeyOf(r)) ==> Was(s.history, KeyOf(r), Seal(r)))
    && (Contiguous(KeyOf(r), s.history) ==>
          && !HasKey(s.drained, KeyOf(r))
          && (IsClosed(s.history, KeyOf(r)) ==> KeyOf(r) in s.lost || LateKey(s, KeyOf(r))))
  }

  ghost predicate SnapOk(s: Sym) {
    && (forall r :: r in s.snap ==> SnapRowOk(s, r))
    && DistinctKeys(s.snap)
  }

  ghost predicate FillOk(s: Sym) {
    s.fill.Some? ==> Merged(s, KeyOf(s.fill.value), s.fill.value)
  }

  ghost predicate PhaseOk(s: Sym) {
    && (s.phase != Saving ==> s.snap == [])
    && (s.phase == Idle ==> s.drained == [])
    && (s.data == map[] ==> s.snap == [] && forall r :: !Pend(s, r))
  }

  ghost predicate Core(s: Sym) {
    && NonNegative(s.history) && DataOk(s) && PendOk(s) && ClosedOk(s) && StoredOk(s) && DbOk(s) && SnapOk(s)
    && FillOk(s) && PhaseOk(s)
  }

  /** What every reachable state satisfies. Negative quantities and amounts are outside the fold's meaning. */
  ghost predicate Inv(s: Sym) { NonNegative(s.history) ==> Core(s) }

  lemma StartInv()
    ensures Inv(START)
  {
  }

  // ---------------------------------------------------------------- a trade

  lemma GoodBefore(s: Sym, t: Trade, failed: set<Interval>, k: Key)
    ensures Good(Step(s, Update(t, failed)), k) ==> Good(s, k) && k !in Missed(s, t, failed)
  {
    hide Contiguous;
    After1(s.history, t, k);
  }

  lemma WasTraded(h: seq<Trade>, k: Key, r: Row)
    requires Was(h, k, r)
    ensures Traded(h, k)
  {
    var g :| g <= h && Traded(g, k) && r == WindowRow(k, g);
    assert h == g + h[|g|..];
    WindowConcat(k, g, h[|g|..]);
  }

  lemma WasLater(h: seq<Trade>, t: Trade, k: Key, r: Row)
    requires Was(h, k, r)
    ensures Was(h + [t], k, r)
  {
    var g :| g <= h && Traded(g, k) && r == WindowRow(k, g);
    assert g <= h + [t];
  }

  lemma NowWas(h: seq<Trade>, k: Key)
    requires Traded(h, k)
    ensures Was(h, k, WindowRow(k, h))
  {
    assert h <= h;
  }

  /** What the trade finds in the bucket of an interval is whole. */
  lemma FoundHolds(s: Sym, t: Trade, failed: set<Interval>, iv: Interval)
    requires Core(s) && iv in Found(s, t, failed)
    ensures var r := Found(s, t, failed)[iv];
            && r.interval == iv
            && (Good(s, KeyOf(r)) && Contiguous(KeyOf(r), s.history + [t]) ==> HoldsNow(s.history, r))
            && (s.data == map[] ==> KeyOf(r) == WindowOf(iv, t))
            && (s.data != map[] ==> KeyOf(r) == CurKey(s.history, iv) && IsOpen(s.history, KeyOf(r)))
  {
    hide Align, Holds, Was, WindowRow, Merged, Contiguous;
    var h := s.history;
    if s.data == map[] {
      var k := WindowOf(iv, t);
      assert DbRowOk(s, k, s.db[k]);
      if Good(s, k) && Contiguous(k, h + [t]) {
        ReturnsOnlyOpen(h, t, k);
        ExactHolds(s, k);
      }
    } else {
      assert BucketOk(s, iv);
      OpenTraded(h, KeyOf(s.data[iv]));
    }
  }

  /** In one stretch a trade comes to a window with trades only while it is open. */
  lemma ReturnsOnlyOpen(h: seq<Trade>, t: Trade, k: Key)
    requires Contiguous(k, h + [t]) && Traded(h, k) && InWindow(k, t)
    ensures IsOpen(h, k)
  {
    hide InWindow, WindowTrades;
    ContiguousSnoc(k, h, t);
  }

  lemma ExactHolds(s: Sym, k: Key)
    requires NonNegative(s.history) && Exact(s, k)
    ensures HoldsNow(s.history, s.db[k]) && KeyOf(s.db[k]) == k
  {
    WindowNonNegative(k, s.history);
    SealedHolds(k, WindowTrades(k, s.history));
    HoldsKey(s.db[k], k, WindowTrades(k, s.history));
  }

  /** A trade in the open window finds its bucket. */
  lemma OpenFound(s: Sym, t: Trade, failed: set<Interval>, iv: Interval)
    requires Core(s) && Good(Step(s, Update(t, failed)), WindowOf(iv, t)) && IsOpen(s.history, WindowOf(iv, t))
    ensures iv in Found(s, t, failed) && Found(s, t, failed)[iv].start == Align(iv, t.timestamp)
  {
    hide Align, Holds, Contiguous, WindowTrades;
    var k := WindowOf(iv, t);
    GoodBefore(s, t, failed, k);
    UpdatedAt(Found(s, t, failed), t, iv);
    NthRank(0);
    OpenTraded(s.history, k);
    if s.data == map[] {
      assert Exact(s, k) && DbRowOk(s, k, s.db[k]);
    } else {
      assert BucketOk(s, iv);
    }
  }

  /** A window whose bucket is missing when a trade arrives in it has no trades yet. */
  lemma MissingIsNew(s: Sym, t: Trade, failed: set<Interval>, iv: Interval)
    requires Core(s) && Good(Step(s, Update(t, failed)), WindowOf(iv, t))
    requires iv !in Found(s, t, failed) || Found(s, t, failed)[iv].start != Align(iv, t.timestamp)
    ensures !Traded(s.history, WindowOf(iv, t))
  {
    hide Align, Holds, Contiguous, WindowTrades, Core, Found;
    if Traded(s.history, WindowOf(iv, t)) {
      GoodBefore(s, t, failed, WindowOf(iv, t));
      ReturnsOnlyOpen(s.history, t, WindowOf(iv, t));
      OpenFound(s, t, failed, iv);
    }
  }

  lemma NextHolds(s: Sym, t: Trade, failed: set<Interval>, iv: Interval)
    requires Core(s) && t.quantity >= 0 && Good(Step(s, Update(t, failed)), WindowOf(iv, t))
    ensures Holds(NextRow(Found(s, t, failed), iv, t), WindowOf(iv, t), WindowTrades(WindowOf(iv, t), s.history + [t]))
  {
    hide Align, Holds, Contiguous;
    var h, k, data := s.history, WindowOf(iv, t), Found(s, t, failed);
    GoodBefore(s, t, failed, k);
    WindowSnoc(k, h, t);
    WindowNonNegative(k, h);
    if iv in data && data[iv].start == Align(iv, t.timestamp) {
      FoundHolds(s, t, failed, iv);
      HoldsNext(data[iv], k, WindowTrades(k, h), t);
    } else {
      MissingIsNew(s, t, failed, iv);
      HoldsFirst(k, t);
      assert WindowTrades(k, h) + [t] == [t];
    }
  }

  lemma NextKey(data: Buckets, iv: Interval, t: Trade)
    requires forall jv :: jv in data ==> data[jv].interval == jv
    ensures KeyOf(NextRow(data, iv, t)) == WindowOf(iv, t)
  {
    hide Align;
  }

  lemma DataAfter(s: Sym, t: Trade, failed: set<Interval>)
    requires Core(s) && t.quantity >= 0
    ensures DataOk(Step(s, Update(t, failed)))
  {
    hide Align, Holds, Contiguous, NextRow, Core;
    var h, s' := s.history, Step(s, Update(t, failed));
    forall iv: Interval
      ensures iv in s'.data && BucketOk(s', iv)
    {
      UpdatedAt(Found(s, t, failed), t, iv);
      FoundPlaced(s, t, failed);
      NextKey(Found(s, t, failed), iv, t);
      assert (h + [t])[|h|] == t;
      if Good(s', WindowOf(iv, t)) {
        NextHolds(s, t, failed, iv);
      }
    }
  }

  lemma FoundPlaced(s: Sym, t: Trade, failed: set<Interval>)
    requires Core(s)
    ensures forall iv :: iv in Found(s, t, failed) ==> Found(s, t, failed)[iv].interval == iv
  {
    hide Core, Found;
    forall iv | iv in Found(s, t, failed)
      ensures Found(s, t, failed)[iv].interval == iv
    {
      FoundHolds(s, t, failed, iv);
    }
  }

  /** The rows a trade completes are of windows that it leaves, and whole. */
  lemma CompletedFinal(s: Sym, t: Trade, failed: set<Interval>, r: Row)
    requires Core(s) && r in Closed(Found(s, t, failed), t)
    ensures s.data != map[] && IsOpen(s.history, KeyOf(r)) && !InWindow(KeyOf(r), t)
    ensures PendRowOk(Step(s, Update(t, failed)), r)
  {
    hide Align, Holds, Contiguous, Core;
    var h := s.history;
    ClosedExact(Found(s, t, failed), t, r);
    var iv :| Closes(Found(s, t, failed), iv, t) && Found(s, t, failed)[iv] == r;
    FoundHolds(s, t, failed, iv);
    OpenTraded(h, KeyOf(r));
    After1(h, t, KeyOf(r));
    GoodBefore(s, t, failed, KeyOf(r));
  }

  lemma PendStays(s: Sym, t: Trade, failed: set<Interval>, r: Row)
    requires PendRowOk(s, r)
    ensures PendRowOk(Step(s, Update(t, failed)), r)
  {
    hide Align, Holds, Contiguous;
    var k := KeyOf(r);
    After1(s.history, t, k);
    GoodBefore(s, t, failed, k);
    if Contiguous(k, s.history + [t]) {
      ClosedStays(s.history, t, k);
    }
  }

  lemma PendAfter(s: Sym, t: Trade, failed: set<Interval>)
    requires Core(s)
    ensures PendOk(Step(s, Update(t, failed)))
  {
    assert PendOk(s);
    hide Align, PendRowOk, Closed, Updated, Core;
    var s' := Step(s, Update(t, failed));
    forall r | Pend(s', r)
      ensures PendRowOk(s', r)
    {
      if Pend(s, r) {
        PendStays(s, t, failed, r);
      } else {
        assert r in Closed(Found(s, t, failed), t);
        CompletedFinal(s, t, failed, r);
      }
    }
  }

  /** A bucket whose window ends with a trade is handed over. */
  lemma OpenIsCompleted(s: Sym, t: Trade, failed: set<Interval>, k: Key)
    requires Core(s) && s.data != map[] && IsOpen(s.history, k) && !InWindow(k, t)
    ensures LateKey(Step(s, Update(t, failed)), k)
  {
    hide Align, Holds, Contiguous;
    var iv, s' := k.interval, Step(s, Update(t, failed));
    OpenTraded(s.history, k);
    assert BucketOk(s, iv);
    var r := s.data[iv];
    assert Closes(s.data, iv, t);
    ClosedExact(s.data, t, r);
    var done := Closed(s.data, t);
    assert done in s'.inflight && r in done;
    assert Late(s', r);
  }

  lemma PendKeyStays(s: Sym, t: Trade, failed: set<Interval>, k: Key)
    ensures PendKey(s, k) ==> PendKey(Step(s, Update(t, failed)), k)
    ensures LateKey(s, k) ==> LateKey(Step(s, Update(t, failed)), k)
  {
    hide Closed, Updated;
    var s' := Step(s, Update(t, failed));
    assert forall r :: Late(s, r) ==> Late(s', r);
    assert forall r :: Pend(s, r) ==> Pend(s', r);
  }

  lemma SameTrades(k: Key, h: seq<Trade>, g: seq<Trade>)
    requires WindowTrades(k, h) == WindowTrades(k, g) != []
    ensures WindowRow(k, h) == WindowRow(k, g)
  {
  }

  lemma ExactStays(s: Sym, t: Trade, failed: set<Interval>, k: Key)
    requires !InWindow(k, t) && Exact(s, k)
    ensures Exact(Step(s, Update(t, failed)), k)
  {
    hide WindowRow, InWindow, WindowTrades;
    After1(s.history, t, k);
    SameTrades(k, s.history, s.history + [t]);
  }

  lemma LateIsPend(s: Sym, k: Key)
    requires LateKey(s, k)
    ensures PendKey(s, k)
  {
    var r :| Late(s, r) && KeyOf(r) == k;
    assert Pend(s, r);
  }

  lemma ClosedAfter(s: Sym, t: Trade, failed: set<Interval>, k: Key)
    requires Core(s)
    requires var s' := Step(s, Update(t, failed)); Good(s', k) && IsClosed(s'.history, k)
    ensures var s' := Step(s, Update(t, failed)); k in s'.lost || PendKey(s', k) || Exact(s', k)
  {
    assert ClosedOk(s) && StoredOk(s);
    hide Align, Exact, Closed, Updated, PendKey, LateKey, Contiguous, WindowTrades, Core, InWindow;
    var h, s' := s.history, Step(s, Update(t, failed));
    After1(h, t, k);
    GoodBefore(s, t, failed, k);
    PendKeyStays(s, t, failed, k);
    if IsClosed(h, k) {
      if Exact(s, k) {
        ExactStays(s, t, failed, k);
      }
    } else if s.data == map[] {
      assert Exact(s, k);
      ExactStays(s, t, failed, k);
    } else {
      OpenIsCompleted(s, t, failed, k);
      LateIsPend(s', k);
    }
  }

  lemma SnapRowAfter(s: Sym, t: Trade, failed: set<Interval>, r: Row)
    requires Core(s) && r in s.snap
    ensures SnapRowOk(Step(s, Update(t, failed)), r)
  {
    assert SnapRowOk(s, r) && s.data != map[];
    hide Align, Holds, Closed, Updated, LateKey, Was, Contiguous, WindowTrades, Core, InWindow, HasKey;
    var h, k, s' := s.history, KeyOf(r), Step(s, Update(t, failed));
    After1(h, t, k);
    GoodBefore(s, t, failed, k);
    PendKeyStays(s, t, failed, k);
    if Good(s', k) {
      WasLater(h, t, k, Seal(r));
    }
    if IsClosed(s'.history, k) && !IsClosed(h, k) {
      OpenIsCompleted(s, t, failed, k);
    }
  }

  lemma MergedLater(s: Sym, t: Trade, failed: set<Interval>, k: Key, r: Row)
    requires Merged(s, k, r)
    ensures Merged(Step(s, Update(t, failed)), k, r)
  {
    hide Align, Was, MergeRows, Contiguous, WindowTrades, Gathers;
    var s' := Step(s, Update(t, failed));
    var ks, rows :| MergedFrom(s, k, r, ks, rows);
    forall i | 0 <= i < |ks|
      ensures MinuteOk(s', ks[i], rows[i])
    {
      assert MinuteOk(s, ks[i], rows[i]);
      After1(s.history, t, ks[i]);
      GoodBefore(s, t, failed, ks[i]);
      if Good(s', ks[i]) {
        WasLater(s.history, t, ks[i], rows[i]);
      }
    }
    assert MergedFrom(s', k, r, ks, rows);
  }

  lemma DbRowAfter(s: Sym, t: Trade, failed: set<Interval>, k: Key)
    requires k in s.db && DbRowOk(s, k, s.db[k])
    ensures DbRowOk(Step(s, Update(t, failed)), k, s.db[k])
  {
    hide Align, Was, Merged, Contiguous, WindowTrades;
    After1(s.history, t, k);
    GoodBefore(s, t, failed, k);
    if Was(s.history, k, s.db[k]) {
      WasLater(s.history, t, k, s.db[k]);
    }
    if Merged(s, k, s.db[k]) {
      MergedLater(s, t, failed, k, s.db[k]);
    }
  }

  lemma NonNegativeSnoc(h: seq<Trade>, t: Trade)
    requires NonNegative(h + [t])
    ensures NonNegative(h) && t.quantity >= 0 && t.amount >= 0
  {
    assert forall i :: 0 <= i < |h| ==> (h + [t])[i] == h[i];
    assert (h + [t])[|h|] == t;
  }

  lemma UpdateCore(s: Sym, t: Trade, failed: set<Interval>)
    requires Core(s) && NonNegative(s.history + [t])
    ensures Core(Step(s, Update(t, failed)))
  {
    hide Align, Closed, Updated, Was, PendOk, SnapRowOk, DbRowOk, Merged, Good, IsClosed, Exact, PendKey;
    var s' := Step(s, Update(t, failed));
    NonNegativeSnoc(s.history, t);
    DataAfter(s, t, failed);
    PendAfter(s, t, failed);
    forall k | Good(s', k) && IsClosed(s'.history, k)
      ensures k in s'.lost || PendKey(s', k) || Exact(s', k)
    {
      ClosedAfter(s, t, failed, k);
    }
    forall r | r in s'.snap
      ensures SnapRowOk(s', r)
    {
      SnapRowAfter(s, t, failed, r);
    }
    forall k | k in s'.db
      ensures DbRowOk(s', k, s'.db[k])
    {
      DbRowAfter(s, t, failed, k);
    }
    if s.fill.Some? {
      MergedLater(s, t, failed, KeyOf(s.fill.value), s.fill.value);
    }
    UpdatedAt(Found(s, t, failed), t, Minute1);
    assert Minute1 in s'.data;
  }

  // ---------------------------------------------------------------- buffers

  /** A row that is right stays right while no trade comes. */
  lemma MergedSame(s: Sym, s': Sym, k: Key, r: Row)
    requires Merged(s, k, r) && s.history == s'.history && s.tainted <= s'.tainted
    ensures Merged(s', k, r)
  {
    hide Align, Was, MergeRows, Contiguous, WindowTrades, Gathers;
    var ks, rows :| MergedFrom(s, k, r, ks, rows);
    assert forall i :: 0 <= i < |ks| ==> MinuteOk(s, ks[i], rows[i]) ==> MinuteOk(s', ks[i], rows[i]);
    assert MergedFrom(s', k, r, ks, rows);
  }

  lemma DbRowSame(s: Sym, s': Sym, k: Key, r: Row)
    requires DbRowOk(s, k, r) && s.history == s'.history && s.tainted <= s'.tainted
    ensures DbRowOk(s', k, r)
  {
    hide Align, Was, Merged, Contiguous, WindowTrades;
    if Merged(s, k, r) {
      MergedSame(s, s', k, r);
    }
  }

  lemma FillSame(s: Sym, s': Sym)
    requires FillOk(s) && s.history == s'.history && s.tainted <= s'.tainted && s'.fill == s.fill
    ensures FillOk(s')
  {
    hide Merged;
    if s.fill.Some? {
      MergedSame(s, s', KeyOf(s.fill.value), s.fill.value);
    }
  }

  /** Appending moves rows from one place to another, or drops them. */
  lemma AppendMoves(s: Sym, i: nat, leader: bool, r: Row)
    requires Enabled(s, Append(i, leader))
    ensures var s' := Step(s, Append(i, leader));
            && (Late(s', r) ==> Late(s, r))
            && (Late(s, r) ==> Late(s', r) || KeyOf(r) in s'.lost)
  {
    var s' := Step(s, Append(i, leader));
    if Late(s', r) && !Late(s, r) {
      if g :| g in s'.inflight && r in g {
        WithoutMembers(s.inflight, i, g);
      }
    }
    if Late(s, r) && r !in s.buf {
      var g :| g in s.inflight && r in g;
      WithoutMembers(s.inflight, i, g);
    }
  }

  lemma AppendMovesKey(s: Sym, i: nat, leader: bool, k: Key)
    requires Enabled(s, Append(i, leader))
    ensures var s' := Step(s, Append(i, leader));
            && (LateKey(s, k) ==> LateKey(s', k) || k in s'.lost)
            && (PendKey(s, k) ==> PendKey(s', k) || k in s'.lost)
  {
    hide Late;
    var s' := Step(s, Append(i, leader));
    forall r | Late(s, r)
      ensures Late(s', r) || KeyOf(r) in s'.lost
    {
      AppendMoves(s, i, leader, r);
    }
    if r :| Pend(s, r) && KeyOf(r) == k {
      assert Pend(s', r) || KeyOf(r) in s'.lost;
    }
  }

  /** Steps that leave buckets, table and history alone and only move rows. */
  lemma MoveCore(s: Sym, s': Sym)
    requires Core(s)
    requires s' == s.(inflight := s'.inflight, buf := s'.buf, phase := s'.phase, drained := s'.drained, lost := s'.lost)
    requires s.lost <= s'.lost
    requires forall r :: Pend(s', r) ==> Pend(s, r)
    requires forall k :: PendKey(s, k) ==> PendKey(s', k) || k in s'.lost
    requires forall r :: r in s.snap ==> SnapRowOk(s', r)
    requires PhaseOk(s')
    ensures Core(s')
  {
    hide Holds, Was, WindowRow, IsClosed, IsOpen, Late, Contiguous, WindowTrades, Merged, PendKey, PhaseOk, SnapRowOk;
    assert forall k :: Good(s', k) == Good(s, k);
    assert forall k :: Exact(s, k) ==> Exact(s', k);
    forall k | k in s'.db
      ensures DbRowOk(s', k, s'.db[k])
    {
      DbRowSame(s, s', k, s.db[k]);
    }
    FillSame(s, s');
    assert forall r :: PendRowOk(s, r) ==> PendRowOk(s', r);
    assert s.history != [] ==> forall iv :: iv in s.data ==> BucketOk(s, iv) ==> BucketOk(s', iv);
  }

  lemma AppendCore(s: Sym, i: nat, leader: bool)
    requires Core(s) && Enabled(s, Append(i, leader))
    ensures Core(Step(s, Append(i, leader)))
  {
    hide Holds, Was, WindowRow, IsClosed, Late, Contiguous, WindowTrades, Merged, DataOk, DbOk;
    var s' := Step(s, Append(i, leader));
    forall r
      ensures Late(s', r) ==> Late(s, r)
      ensures Pend(s', r) ==> Pend(s, r)
    {
      AppendMoves(s, i, leader, r);
    }
    forall k
      ensures LateKey(s, k) ==> LateKey(s', k) || k in s'.lost
      ensures PendKey(s, k) ==> PendKey(s', k) || k in s'.lost
    {
      AppendMovesKey(s, i, leader, k);
    }
    assert forall r :: r in s.snap ==> SnapRowOk(s, r);
    MoveCore(s, s');
  }

  lemma DrainCore(s: Sym)
    requires Core(s) && Enabled(s, Drain)
    ensures Core(Step(s, Drain))
  {
    hide Holds, Was, WindowRow, IsClosed, Contiguous, WindowTrades, Merged, DataOk, DbOk;
    var s' := Step(s, Drain);
    assert forall r :: Pend(s', r) <==> Pend(s, r);
    forall k | PendKey(s, k)
      ensures PendKey(s', k)
    {
      var r :| Pend(s, r) && KeyOf(r) == k;
      assert Pend(s', r);
    }
    MoveCore(s, s');
  }

  lemma FinishCore(s: Sym)
    requires Core(s) && Enabled(s, Finish)
    ensures Core(Step(s, Finish))
  {
    hide Holds, Was, WindowRow, IsClosed, Contiguous, WindowTrades, Merged, DataOk, DbOk;
    var s' := Step(s, Finish);
    assert forall r :: Pend(s', r) <==> Pend(s, r);
    forall k | PendKey(s, k)
      ensures PendKey(s', k)
    {
      var r :| Pend(s, r) && KeyOf(r) == k;
      assert Pend(s', r);
    }
    MoveCore(s, s');
  }

  // ---------------------------------------------------------------- snapshots

  /** An open bucket, averaged, is the row its window has now. */
  lemma OpenIsCurrent(s: Sym, iv: Interval)
    requires Core(s) && s.data != map[]
    ensures s.history != [] && iv in s.data
    ensures var k := CurKey(s.history, iv);
            && KeyOf(s.data[iv]) == k && IsOpen(s.history, k) && Traded(s.history, k)
            && (Good(s, k) ==> Seal(s.data[iv]) == WindowRow(k, s.history))
  {
    hide Align, Contiguous;
    var h, k := s.history, CurKey(s.history, iv);
    assert BucketOk(s, iv);
    OpenTraded(h, k);
    if Good(s, k) {
      WindowNonNegative(k, h);
      HoldsSealed(s.data[iv], k, WindowTrades(k, h));
    }
  }

  lemma DrainedClosed(s: Sym, k: Key)
    requires Core(s) && HasKey(s.drained, k) && Contiguous(k, s.history)
    ensures IsClosed(s.history, k)
  {
    hide Align, Holds, Contiguous;
    var i :| 0 <= i < |s.drained| && KeyOf(s.drained[i]) == k;
    assert Pend(s, s.drained[i]);
  }

  lemma SnapshotRow(s: Sym, order: seq<Interval>, i: nat)
    requires Core(s) && Enabled(s, Snapshot(order)) && i < |order|
    ensures var s' := Step(s, Snapshot(order));
            SnapRowOk(s', s'.snap[i]) && KeyOf(s'.snap[i]).interval == order[i] && s.data != map[]
  {
    hide Align, Holds, WindowRow, Contiguous, Was, WindowTrades, HasKey;
    assert order[i] in order;
    OpenIsCurrent(s, order[i]);
    var k := CurKey(s.history, order[i]);
    NowWas(s.history, k);
    if HasKey(s.drained, k) && Contiguous(k, s.history) {
      DrainedClosed(s, k);
    }
  }

  lemma SnapshotCore(s: Sym, order: seq<Interval>)
    requires Core(s) && Enabled(s, Snapshot(order))
    ensures Core(Step(s, Snapshot(order)))
  {
    hide Align, Holds, Was, WindowRow, HasKey, Contiguous, WindowTrades, Merged, DataOk, DbOk, SnapRowOk, Lists, RowsAt;
    var s' := Step(s, Snapshot(order));
    SnapsOk(s, order);
    SameButSnap(s, s');
  }

  lemma SnapsOk(s: Sym, order: seq<Interval>)
    requires Core(s) && Enabled(s, Snapshot(order))
    ensures SnapOk(Step(s, Snapshot(order))) && PhaseOk(Step(s, Snapshot(order)))
  {
    hide Align, Holds, Was, WindowRow, HasKey, Contiguous, WindowTrades, Merged, DataOk, DbOk, SnapRowOk;
    var s' := Step(s, Snapshot(order));
    forall i | 0 <= i < |s'.snap|
      ensures SnapRowOk(s', s'.snap[i]) && KeyOf(s'.snap[i]).interval == order[i] && s.data != map[]
    {
      SnapshotRow(s, order, i);
    }
    assert forall r :: Pend(s', r) ==> Pend(s, r);
    assert |s'.snap| > 0 ==> KeyOf(s'.snap[0]).interval == order[0];
  }

  lemma SameButSnap(s: Sym, s': Sym)
    requires Core(s) && s' == s.(phase := s'.phase, snap := s'.snap) && SnapOk(s') && PhaseOk(s')
    ensures Core(s')
  {
    hide Holds, WindowRow, IsClosed, IsOpen, Was, Merged, Contiguous, WindowTrades, SnapRowOk, PhaseOk, Late;
    SameLate(s, s');
    assert forall r :: Pend(s', r) <==> Pend(s, r);
    assert forall k :: Exact(s, k) ==> Exact(s', k);
    assert forall k :: Good(s', k) == Good(s, k);
    forall k
      ensures PendKey(s, k) ==> PendKey(s', k)
    {
      if r :| Pend(s, r) && KeyOf(r) == k {
        assert Pend(s', r);
      }
    }
    forall k | k in s'.db
      ensures DbRowOk(s', k, s'.db[k])
    {
      DbRowSame(s, s', k, s.db[k]);
    }
    FillSame(s, s');
    assert forall r :: PendRowOk(s, r) ==> PendRowOk(s', r);
    assert s.history != [] ==> forall iv :: iv in s.data ==> BucketOk(s, iv) ==> BucketOk(s', iv);
  }

  lemma SameLate(s: Sym, s': Sym)
    requires s.buf == s'.buf && s.inflight == s'.inflight
    ensures forall r :: Late(s', r) <==> Late(s, r)
  {
  }

  // ---------------------------------------------------------------- saves

  lemma PendSealed(s: Sym, r: Row)
    requires Core(s) && Pend(s, r) && Good(s, KeyOf(r))
    ensures Traded(s.history, KeyOf(r)) && Seal(r) == WindowRow(KeyOf(r), s.history) && IsClosed(s.history, KeyOf(r))
  {
    hide Align, Contiguous;
    var k := KeyOf(r);
    assert PendRowOk(s, r);
    WindowNonNegative(k, s.history);
    HoldsSealed(r, k, WindowTrades(k, s.history));
  }

  lemma PendKeySplit(s: Sym, k: Key)
    ensures PendKey(s, k) <==> LateKey(s, k) || HasKey(s.drained, k)
  {
    hide Late;
    if r :| Pend(s, r) && KeyOf(r) == k {
      if r in s.drained {
        HasKeyMember(s.drained, r);
      } else {
        assert Late(s, r);
      }
    }
    if LateKey(s, k) {
      LateIsPend(s, k);
    }
    if HasKey(s.drained, k) {
      var i :| 0 <= i < |s.drained| && KeyOf(s.drained[i]) == k;
      assert Pend(s, s.drained[i]);
    }
  }

  /** An open window has no completed row. */
  lemma OpenNotPending(s: Sym, k: Key)
    requires Core(s) && IsOpen(s.history, k) && Contiguous(k, s.history)
    ensures !PendKey(s, k)
  {
    hide Align, Holds, WindowRow, Contiguous;
    forall r | Pend(s, r)
      ensures KeyOf(r) != k
    {
      assert PendRowOk(s, r);
    }
  }

  /** A stored row that is the window's present row. */
  lemma ExactRowOk(s: Sym, k: Key)
    requires Exact(s, k)
    ensures DbRowOk(s, k, s.db[k])
  {
    hide Merged, Contiguous;
    NowWas(s.history, k);
    RowKeepsKey(k, s.history);
  }

  /** Saving the drained rows writes nothing but final rows of windows in one stretch, and touches no others. */
  lemma DrainedSaved(s: Sym, k: Key)
    requires Core(s) && Enabled(s, SaveDrained(true)) && Storable(s.drained)
    ensures var s' := Step(s, SaveDrained(true));
            && (HasKey(s.drained, k) ==> k in s'.db && KeyOf(s'.db[k]) == k && Traded(s.history, k)
                                         && (Good(s, k) ==> IsClosed(s.history, k) && Exact(s', k)))
            && (!HasKey(s.drained, k) ==> (k in s'.db <==> k in s.db) && (k in s.db ==> s'.db[k] == s.db[k]))
  {
    hide Align, Holds, WindowRow, Contiguous, WindowTrades;
    SaveAllAt(s.db, s.drained, k);
    var out := SaveAll(s.db, s.drained);
    if HasKey(s.drained, k) {
      var r :| r in s.drained && KeyOf(r) == k && out[k] == Seal(r);
      SealKeepsKey(r);
      assert Pend(s, r) && PendRowOk(s, r);
      if Good(s, k) {
        PendSealed(s, r);
      }
    }
  }

  lemma SaveDrainedKey(s: Sym, ok: bool, k: Key)
    requires Core(s) && Enabled(s, SaveDrained(ok))
    ensures var s' := Step(s, SaveDrained(ok));
            && LateKey(s', k) == LateKey(s, k)
            && (PendKey(s, k) && Good(s, k) ==> PendKey(s', k) || k in s'.lost || Exact(s', k))
            && (Exact(s, k) && Good(s, k) ==> Exact(s', k))
            && (k in s'.db ==> DbRowOk(s', k, s'.db[k]))
  {
    hide Align, Holds, WindowRow, SaveAll, Late, Was, Merged, Contiguous, WindowTrades, HasKey;
    var s' := Step(s, SaveDrained(ok));
    SameLate(s, s');
    PendKeySplit(s, k);
    PendKeySplit(s', k);
    assert k in s.db ==> DbRowOk(s, k, s.db[k]);
    if k in s.db {
      DbRowSame(s, s', k, s.db[k]);
    }
    if ok && Storable(s.drained) {
      DrainedSaved(s, k);
      if Exact(s', k) {
        ExactRowOk(s', k);
      }
    } else if HasKey(s.drained, k) {
      DrainedIsLost(s, k);
    }
  }

  lemma DrainedIsLost(s: Sym, k: Key)
    requires HasKey(s.drained, k)
    ensures k in Keys(s.drained)
  {
    var i :| 0 <= i < |s.drained| && KeyOf(s.drained[i]) == k;
    assert s.drained[i] in s.drained;
  }

  lemma NothingDrained(s: Sym)
    requires s.drained == []
    ensures forall k :: !HasKey(s.drained, k)
  {
  }

  /** Steps that leave buckets and history alone and write the table. */
  lemma WriteCore(s: Sym, s': Sym)
    requires Core(s)
    requires s' == s.(drained := s'.drained, snap := s'.snap, db := s'.db, lost := s'.lost)
    requires s.lost <= s'.lost && (s'.drained == s.drained || s'.drained == []) && (s'.snap == s.snap || s'.snap == [])
    requires forall k :: Good(s, k) && IsClosed(s.history, k) && (PendKey(s, k) || Exact(s, k)) ==>
               k in s'.lost || PendKey(s', k) || Exact(s', k)
    requires s.data == map[] ==> forall k :: Good(s, k) && IsOpen(s.history, k) && Exact(s, k) ==> Exact(s', k)
    requires forall k :: k in s'.db ==> DbRowOk(s', k, s'.db[k])
    ensures Core(s')
  {
    hide Holds, Was, WindowRow, IsClosed, IsOpen, Late, Contiguous, WindowTrades, Merged, PendKey, Exact, DbRowOk;
    SameLate(s, s');
    NothingDrained(s.(drained := []));
    assert forall r :: Pend(s', r) ==> Pend(s, r);
    assert forall k :: Good(s', k) == Good(s, k);
    assert forall r :: PendRowOk(s, r) ==> PendRowOk(s', r);
    assert s.history != [] ==> forall iv :: iv in s.data ==> BucketOk(s, iv) ==> BucketOk(s', iv);
    assert forall k :: LateKey(s', k) == LateKey(s, k);
    assert forall r :: r in s'.snap ==> SnapRowOk(s, r);
    FillSame(s, s');
  }

  lemma SaveDrainedCore(s: Sym, ok: bool)
    requires Core(s) && Enabled(s, SaveDrained(ok))
    ensures Core(Step(s, SaveDrained(ok)))
  {
    hide Core, Align, Holds, Was, WindowRow, HasKey, SaveAll, Late, DbRowOk, Exact, Contiguous, PendKey, LateKey, Saved;
    var s' := Step(s, SaveDrained(ok));
    forall k
      ensures PendKey(s, k) && Good(s, k) ==> PendKey(s', k) || k in s'.lost || Exact(s', k)
      ensures Exact(s, k) && Good(s, k) ==> Exact(s', k)
      ensures k in s'.db ==> DbRowOk(s', k, s'.db[k])
    {
      SaveDrainedKey(s, ok, k);
    }
    WriteCore(s, s');
  }

  /** Saving open rows does no harm: what they overwrite is not final, or is still to be written. */
  lemma SaveSnapKey(s: Sym, ok: bool, k: Key)
    requires Core(s) && Enabled(s, SaveSnap(ok))
    ensures var s' := Step(s, SaveSnap(ok));
            && PendKey(s', k) == PendKey(s, k)
            && (Exact(s, k) && Good(s, k) && IsClosed(s.history, k) ==> Exact(s', k) || k in s.lost || PendKey(s', k))
            && (k in s'.db ==> DbRowOk(s', k, s'.db[k]))
  {
    hide Align, Holds, WindowRow, SaveAll, Late, Was, Merged, Contiguous, WindowTrades;
    var s' := Step(s, SaveSnap(ok));
    SameLate(s, s');
    PendKeySplit(s, k);
    PendKeySplit(s', k);
    if k in s.db {
      assert DbRowOk(s, k, s.db[k]);
      DbRowSame(s, s', k, s.db[k]);
    }
    if ok && Storable(s.snap) {
      SaveAllAt(s.db, s.snap, k);
      if HasKey(s.snap, k) {
        var r :| r in s.snap && KeyOf(r) == k && SaveAll(s.db, s.snap)[k] == Seal(r);
        SealKeepsKey(r);
        assert SnapRowOk(s, r);
      }
    }
  }

  lemma SaveSnapCore(s: Sym, ok: bool)
    requires Core(s) && Enabled(s, SaveSnap(ok))
    ensures Core(Step(s, SaveSnap(ok)))
  {
    assert s.data != map[];
    hide Core, Align, Holds, Was, WindowRow, HasKey, SaveAll, Late, DbRowOk, Exact, Contiguous, PendKey, LateKey, Saved;
    var s' := Step(s, SaveSnap(ok));
    forall k
      ensures PendKey(s', k) == PendKey(s, k)
      ensures Exact(s, k) && Good(s, k) && IsClosed(s.history, k) ==> Exact(s', k) || k in s.lost || PendKey(s', k)
      ensures k in s'.db ==> DbRowOk(s', k, s'.db[k])
    {
      SaveSnapKey(s, ok, k);
    }
    WriteCore(s, s');
  }

  // ---------------------------------------------------------------- backfilling

  lemma GatherCore(s: Sym, k: Key, ks: seq<Key>)
    requires Core(s) && Enabled(s, Gather(k, ks))
    ensures Core(Step(s, Gather(k, ks)))
  {
    hide Align, Holds, WindowRow, Contiguous, WindowTrades, MergeRows, Was;
    var rows := RowsOf(s.db, ks);
    forall i | 0 <= i < |ks|
      ensures MinuteOk(s, ks[i], rows[i])
    {
      assert DbRowOk(s, ks[i], s.db[ks[i]]);
    }
    MergedKey(k, rows);
    assert MergedFrom(s, k, MergeRows(k.interval, k.start, rows), ks, rows);
    SameButFill(s, Step(s, Gather(k, ks)));
  }

  lemma SameButFill(s: Sym, s': Sym)
    requires Core(s) && s' == s.(fill := s'.fill)
    requires s'.fill.Some? ==> Merged(s, KeyOf(s'.fill.value), s'.fill.value)
    ensures Core(s')
  {
    hide Holds, WindowRow, IsClosed, IsOpen, Was, Merged, Contiguous, WindowTrades, Late;
    SameLate(s, s');
    assert forall r :: Pend(s', r) <==> Pend(s, r);
    assert forall k :: Exact(s, k) ==> Exact(s', k);
    assert forall k :: Good(s', k) == Good(s, k);
    assert forall k :: LateKey(s', k) == LateKey(s, k);
    forall k
      ensures PendKey(s, k) ==> PendKey(s', k)
    {
      PendKeySplit(s, k);
      PendKeySplit(s', k);
    }
    forall k | k in s'.db
      ensures DbRowOk(s', k, s'.db[k])
    {
      DbRowSame(s, s', k, s.db[k]);
    }
    if s'.fill.Some? {
      MergedSame(s, s', KeyOf(s'.fill.value), s'.fill.value);
    }
    assert forall r :: PendRowOk(s, r) ==> PendRowOk(s', r);
    assert forall r :: SnapRowOk(s, r) ==> SnapRowOk(s', r);
    assert s.history != [] ==> forall iv :: iv in s.data ==> BucketOk(s, iv) ==> BucketOk(s', iv);
  }

  lemma MergedShape(s: Sym, k: Key, r: Row)
    requires Merged(s, k, r)
    ensures KeyOf(r) == k && Seal(r) == r && Target(k.interval)
  {
    hide Align, Was, MergeRows, Contiguous, WindowTrades;
    var ks, rows :| MergedFrom(s, k, r, ks, rows);
    MergedKey(k, rows);
  }

  /** No minute of a window has lost trades for good. */
  ghost predicate MinutesGood(s: Sym, k: Key) {
    forall m: Key :: m.interval == Minute1 && k.start <= m.start < k.start + k.interval.Width() ==> m !in s.tainted
  }

  /** A window with a traded minute is traded. */
  lemma MergedTraded(s: Sym, k: Key, r: Row)
    requires Merged(s, k, r)
    requires MinutesGood(s, k)
    ensures Traded(s.history, k)
  {
    hide Align, Was, MergeRows, Contiguous, WindowTrades;
    var ks, rows :| MergedFrom(s, k, r, ks, rows);
    assert ks[0] !in s.tainted && MinuteOk(s, ks[0], rows[0]);
    WindowIsAligned(ks[0], s.history);
    var t :| t in s.history && WindowOf(Minute1, t) == ks[0];
    MinuteInWindow(k.interval, k.start, t);
    WindowMember(k, s.history, t);
  }

  lemma BackfillKey(s: Sym, ok: bool, k: Key)
    requires Core(s) && Enabled(s, Backfill(ok))
    ensures var s' := Step(s, Backfill(ok));
            && PendKey(s', k) == PendKey(s, k) && LateKey(s', k) == LateKey(s, k)
            && (Good(s', k) && IsClosed(s.history, k) && Exact(s, k) ==> Exact(s', k) || k in s'.lost || PendKey(s', k))
            && (Good(s', k) && IsOpen(s.history, k) && s.data == map[] && Exact(s, k) ==> Exact(s', k))
            && (k in s'.db ==> DbRowOk(s', k, s'.db[k]))
  {
    hide Align, Holds, WindowRow, Late, Was, Merged, Contiguous, WindowTrades;
    var r, s' := s.fill.value, Step(s, Backfill(ok));
    MergedShape(s, KeyOf(r), r);
    MergedSame(s, s', KeyOf(r), r);
    SameLate(s, s');
    PendKeySplit(s, k);
    PendKeySplit(s', k);
    if k in s.db {
      assert DbRowOk(s, k, s.db[k]);
      DbRowSame(s, s', k, s.db[k]);
    }
    OneSaved(s.db, r);
    if k == KeyOf(r) && IsOpen(s.history, k) && Good(s, k) {
      OpenNotPending(s, k);
    }
    SameHistory(s.(fill := None, db := Saved(s.db, [r], ok)), s', k);
    SameHistory(s, s.(fill := None, db := Saved(s.db, [r], ok)), k);
  }

  lemma OneSaved(db: Table, r: Row)
    ensures SaveAll(db, [r]) == db[KeyOf(r) := Seal(r)]
  {
    assert [r][1..] == [];
  }

  lemma SameHistory(s: Sym, s': Sym, k: Key)
    requires s.history == s'.history && s.buf == s'.buf && s.inflight == s'.inflight && s.drained == s'.drained
    ensures PendKey(s, k) == PendKey(s', k)
    ensures (k in s.db && k in s'.db && s.db[k] == s'.db[k]) ==> Exact(s, k) == Exact(s', k)
  {
    hide Late, WindowRow;
    SameLate(s, s');
    PendKeySplit(s, k);
    PendKeySplit(s', k);
  }

  lemma BackfillCore(s: Sym, ok: bool)
    requires Core(s) && Enabled(s, Backfill(ok))
    ensures Core(Step(s, Backfill(ok)))
  {
    hide Align, Holds, Was, WindowRow, HasKey, Late, DbRowOk, Exact, Contiguous, PendKey, LateKey, Merged, WindowTrades;
    hide Saved;
    var s' := Step(s, Backfill(ok));
    assert s' == s.(fill := None, db := s'.db, lost := s'.lost, tainted := s'.tainted);
    assert s.lost <= s'.lost && s.tainted <= s'.tainted;
    forall k
      ensures PendKey(s', k) == PendKey(s, k) && LateKey(s', k) == LateKey(s, k)
      ensures Good(s', k) && IsClosed(s.history, k) && Exact(s, k) ==> Exact(s', k) || k in s'.lost || PendKey(s', k)
      ensures Good(s', k) && IsOpen(s.history, k) && s.data == map[] && Exact(s, k) ==> Exact(s', k)
      ensures k in s'.db ==> DbRowOk(s', k, s'.db[k])
    {
      BackfillKey(s, ok, k);
    }
    hide Step;
    SameLate(s, s');
    assert forall r :: Pend(s', r) <==> Pend(s, r);
    assert forall k :: Good(s', k) ==> Good(s, k);
    assert forall r :: PendRowOk(s, r) ==> PendRowOk(s', r);
    assert forall r :: SnapRowOk(s, r) ==> SnapRowOk(s', r);
    assert s.history != [] ==> forall iv :: iv in s.data ==> BucketOk(s, iv) ==> BucketOk(s', iv);
  }

  // ---------------------------------------------------------------- shutdown and crash

  /** What Close leaves in the table for one window. */
  lemma CloseKey(s: Sym, order: seq<Interval>, k: Key)
    requires Core(s) && Lists(order, s.data)
    ensures var out := SaveAll(Saved(s.db, s.buf, true), RowsAt(s.data, order));
            && (k in out ==> DbRowOk(s, k, out[k]))
            && (Good(s, k) && IsClosed(s.history, k) && HasKey(s.buf, k) && Storable(s.buf) ==>
                  k in out && out[k] == WindowRow(k, s.history))
            && (Good(s, k) && s.data != map[] && IsOpen(s.history, k) && k.interval in order ==>
                  Traded(s.history, k) && k in out && out[k] == WindowRow(k, s.history))
            && (!(s.data != map[] && k.interval in order && IsOpen(s.history, k))
                && !(HasKey(s.buf, k) && Storable(s.buf)) ==>
                  (k in out <==> k in s.db) && (k in s.db ==> out[k] == s.db[k]))
  {
    hide Align, Holds, WindowRow, SaveAll, Was, Merged, Contiguous, WindowTrades;
    var rows := RowsAt(s.data, order);
    var mid := Saved(s.db, s.buf, true);
    if k in s.db {
      assert DbRowOk(s, k, s.db[k]);
    }
    SaveAllAt(s.db, s.buf, k);
    SaveAllAt(mid, rows, k);
    if HasKey(s.buf, k) {
      BufKeyOk(s, k);
    }
    if HasKey(rows, k) {
      RowsKeyOk(s, order, k);
    }
    OpenInRows(s, order, k);
  }

  /** What a save of the buffer would store. */
  lemma BufKeyOk(s: Sym, k: Key)
    requires Core(s) && HasKey(s.buf, k)
    ensures Traded(s.history, k)
    ensures forall r :: r in s.buf && KeyOf(r) == k ==>
              DbRowOk(s, k, Seal(r)) && (Good(s, k) ==> Seal(r) == WindowRow(k, s.history))
  {
    hide Align, Holds, WindowRow, Was, Merged, Contiguous, WindowTrades;
    forall r | r in s.buf && KeyOf(r) == k
      ensures DbRowOk(s, k, Seal(r)) && Traded(s.history, k) && (Good(s, k) ==> Seal(r) == WindowRow(k, s.history))
    {
      SealKeepsKey(r);
      assert Late(s, r) && Pend(s, r) && PendRowOk(s, r);
      if Good(s, k) {
        PendSealed(s, r);
        NowWas(s.history, k);
      }
    }
    var i :| 0 <= i < |s.buf| && KeyOf(s.buf[i]) == k;
    assert s.buf[i] in s.buf && DbRowOk(s, k, Seal(s.buf[i]));
  }

  lemma RowsKeyOk(s: Sym, order: seq<Interval>, k: Key)
    requires Core(s) && Lists(order, s.data) && HasKey(RowsAt(s.data, order), k)
    ensures s.data != map[] && IsOpen(s.history, k) && k.interval in order
    ensures forall r :: r in RowsAt(s.data, order) && KeyOf(r) == k ==>
              DbRowOk(s, k, Seal(r)) && (Good(s, k) ==> Seal(r) == WindowRow(k, s.history))
  {
    hide Align, Holds, WindowRow, Was, Merged, Contiguous, WindowTrades;
    var rows := RowsAt(s.data, order);
    forall r | r in rows && KeyOf(r) == k
      ensures DbRowOk(s, k, Seal(r)) && (Good(s, k) ==> Seal(r) == WindowRow(k, s.history))
      ensures s.data != map[] && IsOpen(s.history, k) && k.interval in order
    {
      var i :| 0 <= i < |order| && rows[i] == r;
      assert order[i] in order;
      OpenIsCurrent(s, order[i]);
      SealKeepsKey(r);
      NowWas(s.history, k);
    }
    var j :| 0 <= j < |rows| && KeyOf(rows[j]) == k;
    assert rows[j] in rows;
  }

  lemma OpenInRows(s: Sym, order: seq<Interval>, k: Key)
    requires Core(s) && Lists(order, s.data)
    ensures s.data != map[] && IsOpen(s.history, k) && k.interval in order ==> HasKey(RowsAt(s.data, order), k)
  {
    hide Align, Holds, WindowRow, Contiguous, WindowTrades;
    if s.data != map[] && IsOpen(s.history, k) && k.interval in order {
      var i :| 0 <= i < |order| && order[i] == k.interval;
      OpenIsCurrent(s, order[i]);
      OpenTraded(s.history, k);
      assert KeyOf(RowsAt(s.data, order)[i]) == k;
    }
  }

  lemma BufKey(s: Sym, k: Key)
    requires s.inflight == []
    ensures LateKey(s, k) <==> HasKey(s.buf, k)
  {
    if r :| Late(s, r) && KeyOf(r) == k {
      HasKeyMember(s.buf, r);
    }
    if HasKey(s.buf, k) {
      var i :| 0 <= i < |s.buf| && KeyOf(s.buf[i]) == k;
      assert Late(s, s.buf[i]);
    }
  }

  lemma RestartKey(s: Sym, order: seq<Interval>, k: Key)
    requires Core(s) && Enabled(s, Restart(order))
    ensures var s' := Step(s, Restart(order));
            && (k in s'.db ==> DbRowOk(s', k, s'.db[k]))
            && (Good(s, k) && IsClosed(s.history, k) ==> k in s'.lost || Exact(s', k))
            && (Good(s, k) && IsOpen(s.history, k) ==> Exact(s', k))
  {
    hide Align, Holds, WindowRow, SaveAll, Was, Merged, Contiguous, WindowTrades, HasKey, Lists;
    var s' := Step(s, Restart(order));
    CloseKey(s, order, k);
    PendKeySplit(s, k);
    BufKey(s, k);
    NothingDrained(s);
    if k in s'.db {
      DbRowSame(s, s', k, s'.db[k]);
    }
    if IsOpen(s.history, k) {
      OpenTraded(s.history, k);
      if Good(s, k) {
        OpenNotPending(s, k);
      }
      OpenListed(s, order, k);
    }
  }

  lemma OpenListed(s: Sym, order: seq<Interval>, k: Key)
    requires Core(s) && Enabled(s, Restart(order)) && IsOpen(s.history, k)
    ensures s.data != map[] ==> k.interval in order
  {
    hide Align, Holds, WindowRow, Contiguous, WindowTrades;
    if s.data != map[] {
      OpenIsCurrent(s, k.interval);
    }
  }

  lemma RestartCore(s: Sym, order: seq<Interval>)
    requires Core(s) && Enabled(s, Restart(order))
    ensures Core(Step(s, Restart(order)))
  {
    hide Align, Holds, Was, WindowRow, SaveAll, DbRowOk, Exact, Contiguous, PendKey, LateKey, Merged, WindowTrades;
    var s' := Step(s, Restart(order));
    forall k
      ensures k in s'.db ==> DbRowOk(s', k, s'.db[k])
      ensures Good(s, k) && IsClosed(s.history, k) ==> k in s'.lost || Exact(s', k)
      ensures Good(s, k) && IsOpen(s.history, k) ==> Exact(s', k)
    {
      RestartKey(s, order, k);
    }
    assert forall r :: !Pend(s', r);
  }

  lemma CrashCore(s: Sym)
    requires Core(s)
    ensures Core(Step(s, Crash))
  {
    hide Align, Holds, Was, WindowRow, DbRowOk, Exact, Contiguous, LateKey, Merged, WindowTrades;
    var s' := Step(s, Crash);
    forall k
      ensures k in s'.db ==> DbRowOk(s', k, s'.db[k])
      ensures Good(s, k) && IsClosed(s.history, k) ==> k in s'.lost || Exact(s', k)
      ensures Good(s', k) && IsOpen(s.history, k) ==> Exact(s', k)
    {
      CrashKey(s, k);
    }
    assert forall r :: !Pend(s', r);
  }

  lemma CrashKey(s: Sym, k: Key)
    requires Core(s)
    ensures var s' := Step(s, Crash);
            && (k in s'.db ==> DbRowOk(s', k, s'.db[k]))
            && (Good(s, k) && IsClosed(s.history, k) ==> k in s'.lost || Exact(s', k))
            && (Good(s', k) && IsOpen(s.history, k) ==> Exact(s', k))
  {
    hide Align, Holds, Was, WindowRow, Contiguous, Merged, WindowTrades;
    var s' := Step(s, Crash);
    if k in s.db {
      assert DbRowOk(s, k, s.db[k]);
      DbRowSame(s, s', k, s.db[k]);
    }
    assert Exact(s, k) ==> Exact(s', k);
    if r :| Pend(s, r) && KeyOf(r) == k {
      assert k in Unsaved(s);
    }
    if IsOpen(s.history, k) {
      OpenTraded(s.history, k);
      NthRank(0);
      assert k.interval in ALL && k == CurKey(s.history, k.interval);
    }
  }

  // ---------------------------------------------------------------- runs

  lemma StepInv(s: Sym, a: Action)
    requires Inv(s) && Enabled(s, a)
    ensures Inv(Step(s, a))
  {
    if NonNegative(Step(s, a).history) {
      if a.Update? {
        NonNegativeSnoc(s.history, a.t);
      }
      hide Core, Enabled, Step, NonNegative;
      match a
      case Update(t, failed) => UpdateCore(s, t, failed);
      case Append(i, leader) => AppendCore(s, i, leader);
      case Drain => DrainCore(s);
      case Snapshot(order) => SnapshotCore(s, order);
      case SaveDrained(ok) => SaveDrainedCore(s, ok);
      case SaveSnap(ok) => SaveSnapCore(s, ok);
      case Finish => FinishCore(s);
      case Gather(k, ks) => GatherCore(s, k, ks);
      case Backfill(ok) => BackfillCore(s, ok);
      case Restart(order) => RestartCore(s, order);
      case Crash => CrashCore(s);
    }
  }

  lemma {:induction false} RunInv(s: Sym, run: seq<Action>)
    requires Inv(s) && Possible(s, run)
    ensures Inv(After(s, run))
    decreases |run|
  {
    hide Inv, Step, Enabled;
    if run != [] {
      StepInv(s, run[0]);
      RunInv(Step(s, run[0]), run[1..]);
    }
  }
}
