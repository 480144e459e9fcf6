/** The continuity checker against the pipeline: what a rebuilt row does to the table, at any time
    (internal/kline/continuity.go:189-206 beside internal/kline/aggregator.go). */
module Rebuilds {
  import opened Intervals
  import opened Options
  import opened Klines
  import opened Tables
  import opened Windows
  import opened Buckets
  import opened Bags
  import opened Backfill
  import opened Pipeline
  import opened Refinement
  import opened Counts
  import opened Guarantees

  /** An earlier row of a window is its present row exactly when no trade has come since. */
  lemma WasCurrent(h: seq<Trade>, k: Key, r: Row)
    requires Was(h, k, r) && |h| < 0x8000_0000
    ensures Traded(h, k) && 0 < r.count <= |WindowTrades(k, h)|
    ensures r == WindowRow(k, h) <==> r.count == |WindowTrades(k, h)|
  {
    hide Align, WindowRow;
    WasTraded(h, k, r);
    var g :| g <= h && Traded(g, k) && r == WindowRow(k, g);
    var rest := h[|g|..];
    assert h == g + rest;
    WindowConcat(k, g, rest);
    NoMoreThanAll(k, h);
    RowCount(k, g);
    RowCount(k, h);
    if r.count == |WindowTrades(k, h)| {
      assert WindowTrades(k, rest) == [];
      assert WindowTrades(k, g) + [] == WindowTrades(k, g);
      SameTrades(k, g, h);
    }
  }

  // ---------------------------------------------------------------- when a rebuilt row is right

  lemma {:induction false} CountsAddUp(h: seq<Trade>, ks: seq<Key>, rows: seq<Row>)
    requires |ks| == |rows| && |h| < 0x8000_0000
    requires forall i :: 0 <= i < |ks| ==> Was(h, ks[i], rows[i])
    ensures |ks| <= CountSum(rows) <= MinuteSum(ks, h)
    ensures CountSum(rows) == MinuteSum(ks, h) ==>
              forall i :: 0 <= i < |ks| ==> Traded(h, ks[i]) && rows[i] == WindowRow(ks[i], h)
    decreases |ks|
  {
    hide WindowRow, WindowTrades, Was;
    if ks != [] {
      WasCurrent(h, ks[0], rows[0]);
      CountsAddUp(h, ks[1..], rows[1..]);
      assert forall i :: 0 < i < |ks| ==> ks[i] == ks[1..][i - 1] && rows[i] == rows[1..][i - 1];
    }
  }

  /** A merged row is the window's row exactly when it has counted all of the window's trades. */
  lemma MergedExactly(s: Sym, k: Key, r: Row)
    requires Merged(s, k, r) && Ordered(s.history) && NonNegative(s.history) && |s.history| < 0x8000_0000
    requires MinutesGood(s, k)
    ensures Traded(s.history, k) && (r == WindowRow(k, s.history) <==> r.count == |WindowTrades(k, s.history)|)
  {
    hide Align, Was, MergeRows, Contiguous, WindowTrades, WindowRow, MinutesGood;
    MergedTraded(s, k, r);
    var h := s.history;
    var ks, rows :| MergedFrom(s, k, r, ks, rows);
    forall i | 0 <= i < |ks|
      ensures Was(h, ks[i], rows[i])
    {
      MinuteIsGood(s, k, ks[i]);
    }
    CountsAddUp(h, ks, rows);
    MinutesWithin(k, ks, h);
    NoMoreThanAll(k, h);
    MergedCount(k, rows);
    RowCount(k, h);
    if r.count == |WindowTrades(k, h)| {
      AllCovered(k, ks, h);
      MergeEqualsFold(k, ks, h, rows);
    }
  }

  lemma MinuteIsGood(s: Sym, k: Key, m: Key)
    requires MinutesGood(s, k) && m.interval == Minute1 && k.start <= m.start < k.start + k.interval.Width()
    requires Ordered(s.history)
    ensures Good(s, m)
  {
    hide Contiguous;
    OrderedContiguous(m, s.history);
  }

  /** If the minutes account for as many trades as the window has, they account for all of them. */
  lemma AllCovered(k: Key, ks: seq<Key>, h: seq<Trade>)
    requires Gathers(k, ks) && MinuteSum(ks, h) == |WindowTrades(k, h)|
    ensures forall t :: t in h ==> (WindowOf(Minute1, t) in ks <==> WindowOf(k.interval, t) == k)
    ensures forall i :: 0 <= i < |ks| ==> ks[i].interval == Minute1
  {
    hide Align, WindowTrades;
    MinutesWithin(k, ks, h);
    MinuteSumIs(ks, h);
    FewerTrades(k, ks, h);
  }

  /** For every run: a row that the checker has rebuilt leaves its window right in the table, whenever it is
      saved, exactly when it has counted all trades that the window has by then. */
  lemma BackfillExactly(run: seq<Action>, s: Sym, r: Row)
    requires Reached(run, s) && Ordered(s.history) && |s.history| < 0x8000_0000
    requires s.fill == Some(r) && MinutesGood(s, KeyOf(r))
    ensures var s', k := Step(s, Backfill(true)), KeyOf(r);
            && Traded(s.history, k) && k in s'.db && s'.db[k] == r
            && (Exact(s', k) <==> r.count == |WindowTrades(k, s.history)|)
  {
    hide Align, Merged, Reached, CountInv, WindowTrades, WindowRow, MinutesGood, PendKey, Contiguous;
    ReachedCore(run, s);
    MergedShape(s, KeyOf(r), r);
    MergedExactly(s, KeyOf(r), r);
    hide Core;
    FillPositive(s, r);
    OneSaved(s.db, r);
  }

  /** When a stored row is the final one, also one that was recorded lost: exactly when it has counted all of the
      window's trades. */
  lemma StoredExactly(run: seq<Action>, s: Sym, k: Key)
    requires Reached(run, s) && Contiguous(k, s.history) && |s.history| < 0x8000_0000
    requires k in s.db && k !in s.tainted && (Target(k.interval) ==> Ordered(s.history) && MinutesGood(s, k))
    ensures Exact(s, k) <==> s.db[k].count == |WindowTrades(k, s.history)|
  {
    hide Was, Merged, Reached, Contiguous, CountInv, Target, WindowTrades, WindowRow, MinutesGood;
    ReachedCore(run, s);
    ReachedNonNegative(run, s);
    TableIsSound(run, s, k);
    if Was(s.history, k, s.db[k]) {
      WasCurrent(s.history, k, s.db[k]);
    } else {
      MergedExactly(s, k, s.db[k]);
    }
  }

  lemma FillPositive(s: Sym, r: Row)
    requires CountInv(s, false) && s.fill == Some(r) && |s.history| < 0x8000_0000
    ensures r.count > 0 && Storable([r])
  {
    hide Counted;
    CountedPositive(s.history, r, false);
  }

  // ---------------------------------------------------------------- final rows stay

  /** The window is over and its row is written. */
  ghost predicate Settled(s: Sym, k: Key) {
    Good(s, k) && IsClosed(s.history, k) && k !in s.lost && !PendKey(s, k)
  }

  /** A save of a rebuilt row of the window that lacks trades. */
  ghost predicate Spoils(s: Sym, a: Action, k: Key)
    requires Enabled(s, a)
  {
    a.Backfill? && KeyOf(s.fill.value) == k && !Exact(Step(s, a), k)
  }

  /** Once settled, a window's stored row is the final one, and stays so through every further step that keeps
      its trades in one stretch, exactly unless a rebuilt row that lacks trades is saved over it: no checkpoint
      of a row that was still open can come later. */
  lemma SettledStays(s: Sym, a: Action, k: Key)
    requires Core(s) && Enabled(s, a) && NonNegative(Step(s, a).history)
    requires Settled(s, k) && Contiguous(k, Step(s, a).history)
    ensures Exact(s, k)
    ensures if Spoils(s, a, k) then k in Step(s, a).lost else Settled(Step(s, a), k) && Exact(Step(s, a), k)
  {
    StepInv(s, a);
    hide Align, Holds, Was, WindowRow, Late, SaveAll, Contiguous, WindowTrades;
    hide Core, PendKey, Step, Enabled, Good, Exact, NonNegative;
    StillExact(s, k);
    if Spoils(s, a, k) {
      SpoiledLost(s, a.ok, k);
    } else {
      StaysSettled(s, a, k);
      StillExact(Step(s, a), k);
    }
  }

  lemma StaysSettled(s: Sym, a: Action, k: Key)
    requires Core(s) && Enabled(s, a) && Settled(s, k) && Contiguous(k, Step(s, a).history) && !Spoils(s, a, k)
    ensures Settled(Step(s, a), k)
  {
    hide Align, Holds, Was, WindowRow, Late, SaveAll, Contiguous, WindowTrades;
    hide Core, PendKey, Exact, Step, Enabled, IsClosed;
    NewTaint(s, a, k);
    NewPendKey(s, a, k);
    if k in Step(s, a).lost {
      NewLost(s, a, k);
    }
    ClosedAgain(s, a, k);
  }

  lemma ClosedAgain(s: Sym, a: Action, k: Key)
    requires Enabled(s, a) && IsClosed(s.history, k) && Contiguous(k, Step(s, a).history)
    ensures IsClosed(Step(s, a).history, k)
  {
    hide Align, WindowRow, Contiguous, WindowTrades, Exact, PendKey;
    if a.Update? {
      ClosedStays(s.history, a.t, k);
    }
  }

  lemma StillExact(s: Sym, k: Key)
    requires Core(s) && Settled(s, k)
    ensures Exact(s, k)
  {
  }

  lemma SpoiledLost(s: Sym, ok: bool, k: Key)
    requires Core(s) && Settled(s, k) && Exact(s, k) && Enabled(s, Backfill(ok)) && Spoils(s, Backfill(ok), k)
    ensures k in Step(s, Backfill(ok)).lost
  {
    hide WindowRow, WindowTrades, Contiguous, Core;
    var after := s.(fill := None, db := Saved(s.db, [s.fill.value], ok));
    SameHistory(s, after, k);
    SameHistory(after, Step(s, Backfill(ok)), k);
  }

  lemma NewTaint(s: Sym, a: Action, k: Key)
    requires Core(s) && Enabled(s, a) && Settled(s, k) && Contiguous(k, Step(s, a).history)
    ensures k !in Step(s, a).tainted
  {
    hide Align, Holds, Was, WindowRow, Late, SaveAll, Contiguous, WindowTrades, Core;
    match a
    case Update(t, failed) =>
      ClosedStays(s.history, t, k);
    case Crash =>
      NotUnfinished(s, k);
    case _ =>
  }

  lemma NotUnfinished(s: Sym, k: Key)
    requires IsClosed(s.history, k)
    ensures k !in Unfinished(s)
  {
    hide Exact, WindowTrades;
    if s.history != [] {
      forall iv: Interval
        ensures CurKey(s.history, iv) != k
      {
        assert IsOpen(s.history, CurKey(s.history, iv));
      }
    }
  }

  lemma NewPending(s: Sym, a: Action, r: Row)
    requires Core(s) && Enabled(s, a) && Pend(Step(s, a), r)
    ensures Pend(s, r) || IsOpen(s.history, KeyOf(r))
  {
    hide Align, Holds, Was, WindowRow, SaveAll, Closed, Updated, Core, Exact;
    match a
    case Update(t, failed) =>
      if !Pend(s, r) {
        CompletedFinal(s, t, failed, r);
      }
    case Append(i, leader) => AppendMoves(s, i, leader, r);
    case _ =>
  }

  lemma NewPendKey(s: Sym, a: Action, k: Key)
    requires Core(s) && Enabled(s, a) && IsClosed(s.history, k)
    ensures PendKey(Step(s, a), k) ==> PendKey(s, k)
  {
    hide Align, Core, Enabled, Step, WindowTrades, Pend;
    if r :| Pend(Step(s, a), r) && KeyOf(r) == k {
      NewPending(s, a, r);
    }
  }

  lemma NewLost(s: Sym, a: Action, k: Key)
    requires Enabled(s, a) && k in Step(s, a).lost
    ensures k in s.lost || PendKey(s, k) || Spoils(s, a, k)
  {
    hide Closed, Updated, WindowRow;
    if k !in s.lost {
      match a
      case Append(i, _) =>
        var r :| r in s.inflight[i] && KeyOf(r) == k;
        assert s.inflight[i] in s.inflight;
        assert Pend(s, r);
      case SaveDrained(_) =>
        var r :| r in s.drained && KeyOf(r) == k;
        assert Pend(s, r);
      case Crash => UnsavedPends(s, k);
      case Backfill(ok) =>
        SameHistory(s.(fill := None, db := Saved(s.db, [s.fill.value], ok)), Step(s, a), k);
    }
  }

  lemma UnsavedPends(s: Sym, k: Key)
    requires k in Unsaved(s)
    ensures PendKey(s, k)
  {
    if r :| r in s.drained && KeyOf(r) == k {
      assert Pend(s, r);
    } else if r :| r in s.buf && KeyOf(r) == k {
      assert Pend(s, r);
    } else {
      var g, r :| g in s.inflight && r in g && KeyOf(r) == k;
      assert Pend(s, r);
    }
  }

  /** A crash records exactly the windows whose row it takes with it, as far as no completed row of theirs was still to
      be saved; those are all recorded. */
  lemma CrashExactly(run: seq<Action>, s: Sym, k: Key)
    requires Reached(run, s) && Contiguous(k, s.history) && k !in s.lost && k !in s.tainted
    ensures var s' := Step(s, Crash);
            if PendKey(s, k) then k in s'.lost
            else Look(s', k) == Expected(s.history, k) <==> k !in s'.lost && k !in s'.tainted
  {
    hide Possible, After, Contiguous, Unsaved, Unfinished, Look, Expected, PendKey, Exact;
    PendsUnsaved(s, k);
    if !PendKey(s, k) {
      if k in Unfinished(s) {
        OpenGone(s, k);
      } else {
        ReachedMore(run, s, Crash);
        Overlay(run + [Crash], Step(s, Crash), k);
      }
    }
  }

  lemma OpenGone(s: Sym, k: Key)
    requires k in Unfinished(s)
    ensures var s' := Step(s, Crash); k in s'.tainted && Look(s', k) != Expected(s.history, k)
  {
    hide WindowRow, WindowTrades, Align;
    assert IsOpen(s.history, k);
    OpenTraded(s.history, k);
    assert FindPending(Step(s, Crash), k) == None;
  }

  lemma PendsUnsaved(s: Sym, k: Key)
    ensures k in Unsaved(s) <==> PendKey(s, k)
  {
    if k in Unsaved(s) {
      UnsavedPends(s, k);
    }
    if PendKey(s, k) {
      var r :| Pend(s, r) && KeyOf(r) == k;
      PendUnsaved(s, r);
    }
  }

  lemma PendUnsaved(s: Sym, r: Row)
    requires Pend(s, r)
    ensures KeyOf(r) in Unsaved(s)
  {
  }

  // ---------------------------------------------------------------- a run in which it happens

  lemma ReachedMore(run: seq<Action>, s: Sym, a: Action)
    requires Reached(run, s) && Enabled(s, a) && NonNegative(Step(s, a).history)
    ensures Reached(run + [a], Step(s, a))
  {
    hide Enabled, Step, NonNegative;
    assert [a][1..] == [];
    RunsConcat(START, run, [a]);
  }

  /** The completed rows of a trade have been appended and saved. */
  ghost predicate Flushed(s: Sym, s': Sym) {
    s' == s.(inflight := [], db := s'.db) && s.phase == Idle && s.buf == [] && s.drained == []
  }

  /** The states of one checkpoint that misses the open buckets, right after a trade. */
  lemma FlushStates(s: Sym) returns (s1: Sym, s2: Sym, s3: Sym, s4: Sym, s': Sym)
    requires s.phase == Idle && s.buf == [] && |s.inflight| == 1 && s.inflight[0] != []
    requires s.drained == [] && s.snap == [] && Storable(s.inflight[0])
    ensures Enabled(s, Append(0, true)) && s1 == Step(s, Append(0, true))
    ensures Enabled(s1, Drain) && s2 == Step(s1, Drain)
    ensures Enabled(s2, Snapshot([])) && s3 == Step(s2, Snapshot([]))
    ensures Enabled(s3, SaveDrained(true)) && s4 == Step(s3, SaveDrained(true))
    ensures Enabled(s4, Finish) && s' == Step(s4, Finish)
    ensures s1.history == s2.history == s3.history == s4.history == s'.history == s.history
    ensures Flushed(s, s')
  {
    hide SaveAll;
    var rows := s.inflight[0];
    assert Without(s.inflight, 0) == [] && [] + rows == rows;
    assert RowsAt(s.data, []) == [];
    s1 := Step(s, Append(0, true));
    s2 := Step(s1, Drain);
    s3 := Step(s2, Snapshot([]));
    s4 := Step(s3, SaveDrained(true));
    s' := Step(s4, Finish);
  }

  lemma FlushRun(run: seq<Action>, s: Sym) returns (run': seq<Action>, s': Sym)
    requires Reached(run, s) && |s.history| < 0x8000_0000
    requires s.phase == Idle && s.buf == [] && |s.inflight| == 1 && s.inflight[0] != []
    ensures Reached(run', s') && Flushed(s, s')
  {
    ReachedCore(run, s);
    ReachedNonNegative(run, s);
    hide Core, CountInv, NonNegative, Reached, Step, Enabled, Flushed, Storable;
    IdleEmpty(s);
    InflightStorable(s, s.inflight[0]);
    var s1, s2, s3, s4;
    s1, s2, s3, s4, s' := FlushStates(s);
    ReachedMore(run, s, Append(0, true));
    var r1 := run + [Append(0, true)];
    ReachedMore(r1, s1, Drain);
    var r2 := r1 + [Drain];
    ReachedMore(r2, s2, Snapshot([]));
    var r3 := r2 + [Snapshot([])];
    ReachedMore(r3, s3, SaveDrained(true));
    var r4 := r3 + [SaveDrained(true)];
    ReachedMore(r4, s4, Finish);
    run' := r4 + [Finish];
  }

  lemma IdleEmpty(s: Sym)
    requires Core(s) && s.phase == Idle
    ensures s.drained == [] && s.snap == []
  {
  }

  lemma InflightStorable(s: Sym, rows: seq<Row>)
    requires CountInv(s, false) && |s.history| < 0x8000_0000 && rows in s.inflight
    ensures Storable(rows)
  {
    hide Counted;
    forall i | 0 <= i < |rows|
      ensures rows[i].count >= 0
    {
      assert Late(s, rows[i]) && Pend(s, rows[i]);
      CountedPositive(s.history, rows[i], false);
    }
  }

  lemma ReachedNonNegative(run: seq<Action>, s: Sym)
    requires Reached(run, s)
    ensures NonNegative(s.history)
  {
  }

  /** A trade that leaves the window of the one before it, and the checkpoint after it. */
  lemma TradeAndFlush(run: seq<Action>, s: Sym, t: Trade, k: Key) returns (run': seq<Action>, s': Sym)
    requires Reached(run, s) && s.phase == Idle && s.buf == [] && s.inflight == [] && s.data != map[]
    requires t.quantity >= 0 && t.amount >= 0 && |s.history| + 1 < 0x8000_0000
    requires IsOpen(s.history, k) && !InWindow(k, t)
    ensures Reached(run', s') && s'.phase == Idle && s'.buf == [] && s'.inflight == [] && s'.drained == []
    ensures s'.data != map[] && s'.history == s.history + [t] && s'.fill == s.fill
    ensures s'.lost == s.lost && s'.tainted == s.tainted
  {
    ReachedCore(run, s);
    ReachedNonNegative(run, s);
    NonNegativeNext(s.history, t);
    hide Core, CountInv, NonNegative, Reached, Closed, Updated, InWindow, IsOpen;
    var s1 := Step(s, Update(t, {}));
    OpenIsCompleted(s, t, {}, k);
    LateNow(s1, k);
    ReachedMore(run, s, Update(t, {}));
    UpdatedAt(s.data, t, Minute1);
    run', s' := FlushRun(run + [Update(t, {})], s1);
  }

  lemma NonNegativeNext(h: seq<Trade>, t: Trade)
    requires NonNegative(h) && t.quantity >= 0 && t.amount >= 0
    ensures NonNegative(h + [t])
  {
  }

  lemma LateNow(s: Sym, k: Key)
    requires LateKey(s, k) && s.buf == []
    ensures s.inflight != []
  {
  }

  /** A window that is over and fully flushed is settled, and right. */
  lemma FlushedSettled(run: seq<Action>, s: Sym, k: Key)
    requires Reached(run, s) && s.buf == [] && s.inflight == [] && s.drained == []
    requires Ordered(s.history) && s.lost == {} && s.tainted == {} && IsClosed(s.history, k)
    ensures Settled(s, k) && Exact(s, k)
  {
    ReachedCore(run, s);
    OrderedContiguous(k, s.history);
    NothingPends(s, k);
    hide Core, CountInv, Reached, Contiguous, IsClosed, Exact, PendKey, Ordered;
    StillExact(s, k);
  }

  lemma NothingPends(s: Sym, k: Key)
    requires s.buf == [] && s.inflight == [] && s.drained == []
    ensures !PendKey(s, k)
  {
    assert forall r :: !Pend(s, r);
  }

  const MINUTE: Key := Key(Minute1, 0)
  const TEN_MINUTES: Key := Key(Minute10, 0)

  /** Two trades in the first two minutes, and one ten minutes on. */
  ghost predicate Three(t: Trade, u: Trade, v: Trade) {
    && t.timestamp < 60_000 <= u.timestamp < 120_000 && 600_000 <= v.timestamp < 660_000
    && NonNegative([t, u, v])
  }

  lemma ThreeWindows(t: Trade, u: Trade, v: Trade)
    requires Three(t, u, v)
    ensures InWindow(MINUTE, t) && !InWindow(MINUTE, u) && !InWindow(MINUTE, v)
    ensures InWindow(TEN_MINUTES, t) && InWindow(TEN_MINUTES, u) && !InWindow(TEN_MINUTES, v)
    ensures Gathers(TEN_MINUTES, [MINUTE])
  {
    hide AlignN;
    FixedWindow(60_000, 0, t.timestamp);
    FixedWindow(60_000, 60_000, u.timestamp);
    FixedWindow(60_000, 600_000, v.timestamp);
    FixedWindow(600_000, 0, t.timestamp);
    FixedWindow(600_000, 0, u.timestamp);
    FixedWindow(600_000, 600_000, v.timestamp);
    FixedWindow(600_000, 0, 0);
  }

  lemma ThreeOrdered(t: Trade, u: Trade, v: Trade)
    requires Three(t, u, v)
    ensures Ordered([t, u, v]) && Ordered([t, u]) && NonNegative([t]) && NonNegative([t, u])
    ensures forall x :: x in [t, u, v] ==> x.quantity >= 0 && x.amount >= 0
  {
    var all := [t, u, v];
    assert forall i :: 0 <= i < 3 ==> all[i].quantity >= 0 && all[i].amount >= 0;
    assert all[0] == t && all[1] == u && all[2] == v;
  }

  lemma FirstUpdate(t: Trade) returns (s: Sym)
    requires t.quantity >= 0 && t.amount >= 0
    ensures Reached([Update(t, {})], s) && s.history == [t] && s.data != map[]
    ensures s == START.(data := s.data, history := [t])
  {
    hide Align, NextRow, Updated, Closed;
    var none: seq<Trade> := [];
    s := Step(START, Update(t, {}));
    NothingClosed(t);
    assert Missed(START, t, {}) == {};
    UpdatedAt(map[], t, Minute1);
    assert none + [t] == [t] && START.tainted + {} == {};
    assert NonNegative([t]) && Reached([], START);
    hide Step, Reached;
    ReachedMore([], START, Update(t, {}));
    assert [] + [Update(t, {})] == [Update(t, {})];
  }

  lemma NothingClosed(t: Trade)
    ensures Recovered(map[], t, {}) == map[] && Closed(map[], t) == []
  {
    hide Align;
    if Closed(map[], t) != [] {
      ClosedExact(map[], t, Closed(map[], t)[0]);
    }
  }

  /** Before the second ten minutes: the first minute is written, its merge gathered. */
  lemma Gathered(t: Trade, u: Trade, v: Trade) returns (run: seq<Action>, s: Sym)
    requires Three(t, u, v)
    ensures Reached(run, s) && s.phase == Idle && s.buf == [] && s.inflight == [] && s.data != map[]
    ensures s.history == [t, u] && s.lost == {} && s.tainted == {}
    ensures s.fill.Some? && KeyOf(s.fill.value) == TEN_MINUTES && s.fill.value.count == 1
  {
    ThreeWindows(t, u, v);
    ThreeOrdered(t, u, v);
    hide InWindow, Gathers, NonNegative, Reached, Exact, Contiguous, MergeRows, WindowRow;
    var s0 := FirstUpdate(t);
    assert IsOpen([t], MINUTE);
    var before, s1 := TradeAndFlush([Update(t, {})], s0, u, MINUTE);
    assert s1.history == [t, u];
    FirstMinute(t, u);
    FlushedSettled(before, s1, MINUTE);
    MinuteCount(s1, t, u);
    assert s0.fill == None;
    GatherOne(s1);
    ReachedMore(before, s1, Gather(TEN_MINUTES, [MINUTE]));
    run, s := before + [Gather(TEN_MINUTES, [MINUTE])], Step(s1, Gather(TEN_MINUTES, [MINUTE]));
  }

  lemma FirstMinute(t: Trade, u: Trade)
    requires InWindow(MINUTE, t) && !InWindow(MINUTE, u)
    ensures IsClosed([t, u], MINUTE) && WindowTrades(MINUTE, [t, u]) == [t]
  {
    hide InWindow;
    assert [t] + [u] == [t, u] && [] + [t] == [t];
    After1([t], u, MINUTE);
    After1([], t, MINUTE);
  }

  lemma MinuteCount(s: Sym, t: Trade, u: Trade)
    requires Exact(s, MINUTE) && s.history == [t, u] && WindowTrades(MINUTE, [t, u]) == [t]
    ensures s.db[MINUTE].count == 1
  {
    RowCount(MINUTE, [t, u]);
  }

  lemma GatherOne(s: Sym)
    requires MINUTE in s.db && s.db[MINUTE].count == 1 && Gathers(TEN_MINUTES, [MINUTE]) && s.fill == None
    ensures Enabled(s, Gather(TEN_MINUTES, [MINUTE]))
    ensures var r := MergeRows(Minute10, 0, RowsOf(s.db, [MINUTE])); KeyOf(r) == TEN_MINUTES && r.count == 1
  {
    var rows := RowsOf(s.db, [MINUTE]);
    assert rows == [s.db[MINUTE]];
    MergedKey(TEN_MINUTES, rows);
    MergedCount(TEN_MINUTES, rows);
    assert rows[1..] == [];
  }

  /** It happens: the checker reads the minutes of a window, a trade closes the window, a checkpoint writes its
      final row, and then the checker's save replaces that row by a shorter one. */
  lemma LateBackfillSpoils(t: Trade, u: Trade, v: Trade) returns (run: seq<Action>, s: Sym)
    requires Three(t, u, v)
    ensures Reached(run, s) && s.history == [t, u, v] && Enabled(s, Backfill(true))
    ensures Settled(s, TEN_MINUTES) && Exact(s, TEN_MINUTES)
    ensures var s' := Step(s, Backfill(true)); !Exact(s', TEN_MINUTES) && TEN_MINUTES in s'.lost
  {
    ThreeWindows(t, u, v);
    ThreeOrdered(t, u, v);
    hide InWindow, NonNegative, Reached, Exact, Contiguous, Core;
    var before, s1 := Gathered(t, u, v);
    run, s := TradeAndFlush(before, s1, v, TEN_MINUTES);
    assert s.history == [t, u, v];
    FirstTen(t, u, v);
    FlushedSettled(run, s, TEN_MINUTES);
    hide Step, Enabled, Settled, MergeRows, IsClosed, WindowTrades, CountInv;
    StaleSpoils(run, s);
  }

  lemma StaleSpoils(run: seq<Action>, s: Sym)
    requires Reached(run, s) && Ordered(s.history) && |s.history| == 3 && s.tainted == {}
    requires s.fill.Some? && KeyOf(s.fill.value) == TEN_MINUTES && s.fill.value.count == 1
    requires |WindowTrades(TEN_MINUTES, s.history)| == 2 && Settled(s, TEN_MINUTES) && Exact(s, TEN_MINUTES)
    ensures Enabled(s, Backfill(true))
    ensures var s' := Step(s, Backfill(true)); !Exact(s', TEN_MINUTES) && TEN_MINUTES in s'.lost
  {
    assert Enabled(s, Backfill(true));
    assert MinutesGood(s, TEN_MINUTES);
    hide Step, Settled, Exact, MergeRows, WindowTrades, CountInv, Core, Reached;
    BackfillExactly(run, s, s.fill.value);
    ReachedCore(run, s);
    SpoiledLost(s, true, TEN_MINUTES);
  }

  lemma FirstTen(t: Trade, u: Trade, v: Trade)
    requires InWindow(TEN_MINUTES, t) && InWindow(TEN_MINUTES, u) && !InWindow(TEN_MINUTES, v)
    ensures IsClosed([t, u, v], TEN_MINUTES) && WindowTrades(TEN_MINUTES, [t, u, v]) == [t, u]
  {
    hide InWindow;
    assert [t, u] + [v] == [t, u, v] && [t] + [u] == [t, u] && [] + [t] == [t];
    After1([t, u], v, TEN_MINUTES);
    After1([t], u, TEN_MINUTES);
    After1([], t, TEN_MINUTES);
  }
}
