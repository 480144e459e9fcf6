/** Close, which cancels a running checkpoint and does not wait for it (internal/kline/aggregator.go:358-396). */
module Shutdown {
  import opened Int64
  import opened Intervals
  import opened Options
  import opened Klines
  import opened Tables
  import opened Windows
  import opened Buckets
  import opened Backfill
  import opened Bags
  import opened Pipeline
  import opened Refinement
  import opened Counts
  import opened Guarantees
  import opened Rebuilds
  import opened Batches

  /** The table after Close. */
  function AfterClose(s: Sym, order: seq<Interval>): Table
    requires forall iv :: iv in order ==> iv in s.data
  {
    SaveAll(Saved(s.db, s.buf, true), RowsAt(s.data, order))
  }

  function Lookup(db: Table, k: Key): Option<Row> {
    if k in db then Some(db[k]) else None
  }

  // ---------------------------------------------------------------- the checkpoint that Close cuts short

  /** Close cancels the context of the checkpoint's saves before it writes anything. A save that is not committing by
      then fails; one that is holds the locks of its rows, so that what Close writes to those rows comes after it. The
      flags say which of the two saves has landed. */
  function Cut(s: Sym, drainedOk: bool, snapOk: bool): Sym {
    s.(phase := Idle, drained := [], snap := [], db := Saved(Saved(s.db, s.drained, drainedOk), s.snap, snapOk),
       lost := s.lost + (if drainedOk && Storable(s.drained) then {} else Keys(s.drained)))
  }

  /** Only a checkpoint that is saving has saves that can land. */
  predicate MayLand(s: Sym, drainedOk: bool, snapOk: bool) { drainedOk || snapOk ==> s.phase == Saving }

  lemma NoneSaved(db: Table)
    ensures forall ok :: Saved(db, [], ok) == db
    ensures Keys([]) == {}
  {
  }

  lemma RunOne(s: Sym, a: Action, rest: seq<Action>)
    requires Enabled(s, a) && Possible(Step(s, a), rest)
    ensures Possible(s, [a] + rest) && After(s, [a] + rest) == After(Step(s, a), rest)
  {
    hide Enabled, Step;
    assert ([a] + rest)[1..] == rest;
  }

  /** The machine takes those steps. */
  lemma CutSaves(s: Sym, drainedOk: bool, snapOk: bool) returns (rest: seq<Action>)
    requires s.phase == Saving
    ensures Possible(s, rest) && After(s, rest) == Cut(s, drainedOk, snapOk)
  {
    NoneSaved(s.db);
    hide Saved, Storable, Keys;
    assert s.lost + {} == s.lost;
    var s1 := if s.drained == [] then s else Step(s, SaveDrained(drainedOk));
    NoneSaved(s1.db);
    var s2 := if s.snap == [] then s1 else Step(s1, SaveSnap(snapOk));
    rest := [];
    RunOne(s2, Finish, rest);
    rest := [Finish] + rest;
    if s.snap != [] {
      RunOne(s1, SaveSnap(snapOk), rest);
      rest := [SaveSnap(snapOk)] + rest;
    }
    if s.drained != [] {
      RunOne(s, SaveDrained(drainedOk), rest);
      rest := [SaveDrained(drainedOk)] + rest;
    }
  }

  lemma CutRun(s: Sym, drainedOk: bool, snapOk: bool) returns (rest: seq<Action>)
    requires PhaseOk(s) && MayLand(s, drainedOk, snapOk)
    ensures Possible(s, rest) && After(s, rest) == Cut(s, drainedOk, snapOk)
  {
    if s.phase == Saving {
      rest := CutSaves(s, drainedOk, snapOk);
    } else if s.phase == Draining {
      var s1 := Step(s, Snapshot([]));
      assert RowsAt(s.data, []) == [];
      rest := CutSaves(s1, drainedOk, snapOk);
      RunOne(s, Snapshot([]), rest);
      rest := [Snapshot([])] + rest;
    } else {
      NoneSaved(s.db);
      assert s.lost + {} == s.lost;
      rest := [];
    }
  }

  lemma CutReached(run: seq<Action>, s: Sym, drainedOk: bool, snapOk: bool) returns (run': seq<Action>)
    requires Reached(run, s) && MayLand(s, drainedOk, snapOk)
    ensures Reached(run', Cut(s, drainedOk, snapOk))
  {
    ReachedCore(run, s);
    hide Possible, After, NonNegative, CountInv, Saved;
    var rest := CutRun(s, drainedOk, snapOk);
    RunsConcat(START, run, rest);
    run' := run + rest;
  }

  // ---------------------------------------------------------------- what Close leaves

  /** Close writes a window: its completed row is buffered in a batch that can be stored, or its open row has
      a positive count. */
  ghost predicate Written(s: Sym, k: Key) {
    if IsOpen(s.history, k) then s.data != map[] && Wrap32(|WindowTrades(k, s.history)|) > 0
    else HasKey(s.buf, k) && Storable(s.buf)
  }

  lemma CloseExactOf(s: Sym, order: seq<Interval>, k: Key)
    requires Core(s) && Lists(order, s.data) && Good(s, k)
    ensures Lookup(AfterClose(s, order), k) == Expected(s.history, k) <==>
            !Traded(s.history, k) || Exact(s, k) || Written(s, k)
  {
    hide Align, Holds, Was, Merged, WindowRow, SaveAll, Contiguous, WindowTrades, DbRowOk, HasKey;
    CloseKey(s, order, k);
    if !Traded(s.history, k) {
      UntradedAbsent(s, AfterClose(s, order), k);
    } else if IsOpen(s.history, k) {
      OpenNotPending(s, k);
      PendKeySplit(s, k);
      BufferedLate(s, k);
      OpenCount(s, k);
      if s.data != map[] {
        assert k.interval in order <==> s.data[k.interval].count > 0;
      }
    }
  }

  lemma BufferedLate(s: Sym, k: Key)
    ensures HasKey(s.buf, k) ==> LateKey(s, k)
  {
    if i :| 0 <= i < |s.buf| && KeyOf(s.buf[i]) == k {
      assert Late(s, s.buf[i]);
    }
  }

  lemma UntradedAbsent(s: Sym, out: Table, k: Key)
    requires !Traded(s.history, k) && k !in s.tainted && (k in out ==> DbRowOk(s, k, out[k]))
    ensures k !in out
  {
  }

  lemma OpenCount(s: Sym, k: Key)
    requires Core(s) && IsOpen(s.history, k) && Good(s, k)
    ensures s.data != map[] ==>
              k.interval in s.data && s.data[k.interval].count == Wrap32(|WindowTrades(k, s.history)|)
  {
    hide Align, Holds, WindowRow, Contiguous, WindowTrades;
    OpenTraded(s.history, k);
    if s.data != map[] {
      OpenIsCurrent(s, k.interval);
      RowCount(k, s.history);
      SealCount(s.data[k.interval]);
    }
  }

  /** For every run, also with trades in flight, lost windows and a checkpoint that is cut short anywhere: after Close
      the table alone holds exactly the fold of a window, and nothing for a key without trades, exactly unless Close
      does not write the window and its final row is not there when Close begins to write. */
  lemma CloseExact(run: seq<Action>, s: Sym, order: seq<Interval>, k: Key, drainedOk: bool, snapOk: bool)
    requires Reached(run, s) && Lists(order, s.data) && MayLand(s, drainedOk, snapOk)
    requires Contiguous(k, s.history) && k !in s.tainted
    ensures var cut := Cut(s, drainedOk, snapOk);
            Lookup(AfterClose(cut, order), k) == Expected(s.history, k) <==>
            !Traded(s.history, k) || Exact(cut, k) || Written(s, k)
  {
    hide Reached, Contiguous, AfterClose, Lookup, Expected, CountInv, Exact, Lists, Core, Saved, HasKey;
    var run' := CutReached(run, s, drainedOk, snapOk);
    ReachedCore(run', Cut(s, drainedOk, snapOk));
    CloseExactOf(Cut(s, drainedOk, snapOk), order, k);
  }

  /** The completed row of a window is where Close does not find it: with a trade that is still being processed, or with
      a checkpoint whose save of it fails. */
  ghost predicate Missing(s: Sym, k: Key, drainedOk: bool) {
    (exists g, r :: g in s.inflight && r in g && KeyOf(r) == k) || (HasKey(s.drained, k) && !drainedOk)
  }

  /** So with fewer than 2^31 trades Close leaves a window right exactly unless its completed row is missing and
      its final row is not in the table either. */
  lemma CloseRight(run: seq<Action>, s: Sym, order: seq<Interval>, k: Key, drainedOk: bool, snapOk: bool)
    requires Reached(run, s) && Lists(order, s.data) && MayLand(s, drainedOk, snapOk)
    requires Contiguous(k, s.history) && k !in s.lost && k !in s.tainted && |s.history| < 0x8000_0000
    ensures var cut := Cut(s, drainedOk, snapOk);
            Lookup(AfterClose(cut, order), k) == Expected(s.history, k) <==>
            !Missing(s, k, drainedOk) || Exact(cut, k)
  {
    hide Reached, Contiguous, AfterClose, Lookup, Expected, CountInv, Exact, Lists, Core, Saved, Missing, Written;
    hide OnceEach;
    ReachedOnce(run, s);
    CloseExact(run, s, order, k, drainedOk, snapOk);
    ReachedCore(run, s);
    var run' := CutReached(run, s, drainedOk, snapOk);
    ReachedCore(run', Cut(s, drainedOk, snapOk));
    if Missing(s, k, drainedOk) {
      MissingNotWritten(s, k, drainedOk);
    } else if Traded(s.history, k) {
      FoundOrExact(s, k, drainedOk, snapOk);
    }
  }

  /** In particular for a row that the checkpoint has drained and whose save fails: what counts is whether the table
      already has a row of the window that has counted all of its trades. */
  lemma DrainedRight(run: seq<Action>, s: Sym, order: seq<Interval>, k: Key, snapOk: bool)
    requires Reached(run, s) && Lists(order, s.data) && MayLand(s, false, snapOk) && HasKey(s.drained, k)
    requires Contiguous(k, s.history) && k !in s.lost && k !in s.tainted && |s.history| < 0x8000_0000
    requires Target(k.interval) ==> Ordered(s.history) && MinutesGood(s, k)
    ensures Lookup(AfterClose(Cut(s, false, snapOk), order), k) == Expected(s.history, k) <==>
            k in s.db && s.db[k].count == |WindowTrades(k, s.history)|
  {
    hide Reached, Contiguous, AfterClose, Lookup, Expected, CountInv, Exact, Lists, Core, MinutesGood, Target, HasKey;
    hide WindowTrades, Cut, MayLand, Storable, Traded;
    CloseRight(run, s, order, k, false, snapOk);
    ReachedCore(run, s);
    SnapElsewhere(s, k, snapOk);
    if k in s.db {
      StoredExactly(run, s, k);
    }
  }

  /** The snapshot has no row of a window whose completed row was drained. */
  lemma SnapElsewhere(s: Sym, k: Key, snapOk: bool)
    requires Core(s) && HasKey(s.drained, k) && Contiguous(k, s.history)
    ensures Exact(Cut(s, false, snapOk), k) == Exact(s, k) && (Exact(s, k) ==> k in s.db)
  {
    hide Align, Holds, Contiguous, WindowTrades, SaveAll, WindowRow, Was, LateKey;
    NotTwice(s, k);
    SaveElsewhere(s.db, s.snap, k);
  }

  lemma MissingNotWritten(s: Sym, k: Key, drainedOk: bool)
    requires Core(s) && OnceEach(s) && Contiguous(k, s.history) && Missing(s, k, drainedOk)
    ensures Traded(s.history, k) && !Written(s, k)
  {
    hide Align, Holds, Contiguous, WindowTrades, Count, CountAll;
    assert PendCount(s, k) <= 1;
    CountAllMember(s.inflight, k);
    CountMember(s.buf, k);
    CountMember(s.drained, k);
    MissingPends(s, k, drainedOk);
    if IsOpen(s.history, k) {
      OpenNotPending(s, k);
    }
    if HasKey(s.buf, k) {
      var i :| 0 <= i < |s.buf| && KeyOf(s.buf[i]) == k;
      assert s.buf[i] in s.buf;
    }
    if HasKey(s.drained, k) {
      var i :| 0 <= i < |s.drained| && KeyOf(s.drained[i]) == k;
      assert s.drained[i] in s.drained;
    }
  }

  lemma MissingPends(s: Sym, k: Key, drainedOk: bool)
    requires Core(s) && Missing(s, k, drainedOk)
    ensures PendKey(s, k) && Traded(s.history, k)
  {
    hide Align, Holds, Contiguous, WindowTrades;
    PendKeySplit(s, k);
    if g, r :| g in s.inflight && r in g && KeyOf(r) == k {
      assert Late(s, r);
    }
    var r :| Pend(s, r) && KeyOf(r) == k;
    assert PendRowOk(s, r);
  }

  lemma FoundOrExact(s: Sym, k: Key, drainedOk: bool, snapOk: bool)
    requires Core(s) && CountInv(s, false) && |s.history| < 0x8000_0000 && Good(s, k) && k !in s.lost
    requires Core(Cut(s, drainedOk, snapOk)) && Traded(s.history, k) && !Missing(s, k, drainedOk)
    ensures Exact(Cut(s, drainedOk, snapOk), k) || Written(s, k)
  {
    hide Align, Holds, Contiguous, WindowTrades, WindowRow, Exact, Saved, Late;
    var cut := Cut(s, drainedOk, snapOk);
    AllStorable(s);
    NoMoreThanAll(k, s.history);
    NotLost(s, k, drainedOk, snapOk);
    assert Good(cut, k);
    if IsOpen(s.history, k) {
      assert s.data == map[] ==> Exact(cut, k);
    } else if !Exact(cut, k) {
      assert PendKey(cut, k);
      FoundBuffered(s, cut, k, drainedOk);
    }
  }

  lemma NotLost(s: Sym, k: Key, drainedOk: bool, snapOk: bool)
    requires k !in s.lost && !Missing(s, k, drainedOk) && Storable(s.drained)
    ensures k !in Cut(s, drainedOk, snapOk).lost
  {
    if r :| r in s.drained && KeyOf(r) == k {
      HasKeyMember(s.drained, r);
    }
  }

  lemma FoundBuffered(s: Sym, cut: Sym, k: Key, drainedOk: bool)
    requires cut.buf == s.buf && cut.inflight == s.inflight && cut.drained == []
    requires PendKey(cut, k) && !Missing(s, k, drainedOk)
    ensures HasKey(s.buf, k)
  {
    var r :| Pend(cut, r) && KeyOf(r) == k;
    assert r in s.buf;
    HasKeyMember(s.buf, r);
  }

  lemma AllStorable(s: Sym)
    requires CountInv(s, false) && |s.history| < 0x8000_0000
    ensures Storable(s.buf) && Storable(s.drained)
  {
    hide Counted;
    forall r | r in s.buf || r in s.drained
      ensures r.count > 0
    {
      assert Pend(s, r);
      CountedPositive(s.history, r, false);
    }
  }

  /** And when nothing else runs, it leaves every window right. */
  lemma QuietClose(run: seq<Action>, s: Sym, order: seq<Interval>, k: Key)
    requires Reached(run, s) && s.phase == Idle && s.inflight == [] && Lists(order, s.data)
    requires Contiguous(k, s.history) && k !in s.lost && k !in s.tainted && |s.history| < 0x8000_0000
    ensures Lookup(AfterClose(s, order), k) == Expected(s.history, k)
  {
    hide Reached, Contiguous, Lookup, Expected, CountInv, Exact, Lists, Core, SaveAll;
    ReachedCore(run, s);
    IdleEmpty(s);
    NothingDrained(s);
    NoneSaved(s.db);
    CloseRight(run, s, order, k, false, false);
  }

  // ---------------------------------------------------------------- a run in which drained rows are lost

  /** It happens: a minute is over, a checkpoint has drained its row, and Close cancels the save. Nothing has failed so
      far, and the minute is not in the table at all. */
  lemma DrainedLost(t: Trade, u: Trade, v: Trade) returns (run: seq<Action>, s: Sym)
    requires Three(t, u, v)
    ensures Reached(run, s) && s.phase == Draining && s.inflight == [] && s.lost == {} && s.tainted == {}
    ensures Traded(s.history, MINUTE) && Contiguous(MINUTE, s.history)
    ensures forall order :: Lists(order, s.data) ==> MINUTE !in AfterClose(Cut(s, false, false), order)
  {
    ThreeWindows(t, u, v);
    ThreeOrdered(t, u, v);
    FirstMinute(t, u);
    OrderedContiguous(MINUTE, [t, u]);
    var s1;
    run, s1 := MinuteCompleted(t, u);
    DrainSteps(s1);
    hide InWindow, NonNegative, Contiguous, WindowTrades, Reached, AfterClose, Lists, Step, Enabled;
    s := Step(Step(s1, Append(0, true)), Drain);
    ReachedMore(run, s1, Append(0, true));
    ReachedMore(run + [Append(0, true)], Step(s1, Append(0, true)), Drain);
    run := run + [Append(0, true)] + [Drain];
    ReachedCore(run, s);
    forall order | Lists(order, s.data)
      ensures MINUTE !in AfterClose(Cut(s, false, false), order)
    {
      NothingWritten(s, order, MINUTE);
    }
  }

  /** The state in which the first minute's row is in flight. */
  lemma MinuteCompleted(t: Trade, u: Trade) returns (run: seq<Action>, s: Sym)
    requires NonNegative([t]) && NonNegative([t, u]) && t.quantity >= 0 && t.amount >= 0
    requires InWindow(MINUTE, t) && !InWindow(MINUTE, u)
    ensures Reached(run, s) && |s.inflight| == 1 && s.history == [t, u]
    ensures s == START.(data := s.data, inflight := s.inflight, history := s.history)
  {
    hide InWindow, NonNegative, Closed, Updated, Core, CountInv;
    var s0 := FirstUpdate(t);
    s := Step(s0, Update(u, {}));
    ReachedCore([Update(t, {})], s0);
    assert [t] + [u] == [t, u] && s0.tainted + {} == {} && IsOpen([t], MINUTE);
    OpenIsCompleted(s0, u, {}, MINUTE);
    LateNow(s, MINUTE);
    hide Reached;
    ReachedMore([Update(t, {})], s0, Update(u, {}));
    run := [Update(t, {})] + [Update(u, {})];
  }

  lemma DrainSteps(s: Sym)
    requires |s.inflight| == 1 && s.buf == [] && s.phase == Idle
    ensures Enabled(s, Append(0, true)) && Enabled(Step(s, Append(0, true)), Drain)
    ensures Step(Step(s, Append(0, true)), Drain) ==
            s.(inflight := [], drained := s.inflight[0], phase := Draining)
    ensures Step(s, Append(0, true)).history == s.history
  {
    assert Without(s.inflight, 0) == [] && [] + s.inflight[0] == s.inflight[0];
  }

  lemma NothingWritten(s: Sym, order: seq<Interval>, k: Key)
    requires Core(s) && Lists(order, s.data) && s.buf == [] && s.db == map[] && s.snap == [] && IsClosed(s.history, k)
    ensures k !in AfterClose(Cut(s, false, false), order)
  {
    hide Align, WindowTrades, SaveAll, Core;
    NoneSaved(s.db);
    CloseKey(s, order, k);
  }
}
