/** When REPLACE keeps a window whole, for trades in any order: exactly when the window's trades come in one stretch. */
module OutOfOrder {
  import opened Intervals
  import opened Klines
  import opened Tables
  import opened Windows
  import opened Buckets
  import opened Pipeline
  import opened Refinement
  import opened Counts
  import opened Guarantees
  import opened Shutdown

  /** Every row that Close writes or leaves has seen trades of one stretch only. */
  lemma CloseCounted(s: Sym, order: seq<Interval>, k: Key)
    requires CountInv(s, true) && Lists(order, s.data) && k in AfterClose(s, order)
    ensures Counted(s.history, AfterClose(s, order)[k], true)
  {
    hide Counted, SaveAll, Storable;
    var mid, rows := Saved(s.db, s.buf, true), RowsAt(s.data, order);
    RowsAtCounted(s.history, s.data, order, true);
    assert forall r :: r in s.buf ==> Late(s, r) && Pend(s, r);
    forall j | j in mid
      ensures Counted(s.history, mid[j], true)
    {
      SavedCounted(s.history, s.db, s.buf, true, j, true);
    }
    OpenStorable(s.data, order);
    SavedCounted(s.history, mid, rows, true, k, true);
  }

  lemma CloseKeysOk(s: Sym, order: seq<Interval>, k: Key)
    requires Core(s) && Lists(order, s.data) && k in AfterClose(s, order)
    ensures KeyOf(AfterClose(s, order)[k]) == k
  {
    hide Align, Holds, Was, Merged, WindowRow, SaveAll, Contiguous, WindowTrades;
    CloseKey(s, order, k);
  }

  lemma PlainLosesNothing(run: seq<Action>, s: Sym)
    requires Reached(run, s) && |s.history| < 0x8000_0000 && forall a :: a in run ==> Plain(a)
    ensures CountInv(s, true) && Core(s) && s.lost == {} && s.tainted == {}
  {
    StartInv();
    StartCounts(true);
    RunCounts(START, run, true);
    NothingLost(START, run, true);
  }

  /** For trades in any order and every run of one process, with appends in any order, checkpoints at any time and
      failing saves of open rows: after Close the table has a window's true row exactly when the window's trades
      came in one stretch; otherwise some stretches have been overwritten. */
  lemma WholeExactly(run: seq<Action>, s: Sym, order: seq<Interval>, k: Key)
    requires Reached(run, s) && |s.history| < 0x8000_0000 && forall a :: a in run ==> Plain(a)
    requires s.phase == Idle && s.inflight == [] && Lists(order, s.data) && Traded(s.history, k)
    ensures var out := AfterClose(s, order);
            (k in out && out[k] == WindowRow(k, s.history)) <==> Contiguous(k, s.history)
  {
    PlainLosesNothing(run, s);
    hide Reached, Core, CountInv, Contiguous, AfterClose, Lists, WindowRow, WindowTrades, Counted;
    var out := AfterClose(s, order);
    if Contiguous(k, s.history) {
      QuietClose(run, s, order, k);
    } else if k in out {
      CloseCounted(s, order, k);
      CloseKeysOk(s, order, k);
      CountedPositive(s.history, out[k], true);
      NoMoreThanAll(k, s.history);
      RowCount(k, s.history);
    }
  }

  /** A late trade loses trades of its minute, whatever checkpoints come in between. */
  lemma LateTradeLoses(run: seq<Action>, s: Sym, order: seq<Interval>, t: Trade, u: Trade, v: Trade)
    requires t.timestamp < 60_000 <= u.timestamp < 120_000 && v.timestamp < 60_000
    requires Reached(run, s) && s.history == [t, u, v] && forall a :: a in run ==> Plain(a)
    requires s.phase == Idle && s.inflight == [] && Lists(order, s.data)
    ensures var out, k := AfterClose(s, order), Key(Minute1, 0);
            Traded(s.history, k) && !(k in out && out[k] == WindowRow(k, s.history))
  {
    var k, ts := Key(Minute1, 0), [t, u, v];
    hide AfterClose, WindowRow, Reached, WindowTrades, Lists, AlignN;
    FixedWindow(60_000, 0, t.timestamp);
    FixedWindow(60_000, 60_000, u.timestamp);
    FixedWindow(60_000, 0, v.timestamp);
    HasTrade(k, ts, 0);
    assert InWindow(k, ts[0]) && !InWindow(k, ts[1]) && InWindow(k, ts[2]);
    WholeExactly(run, s, order, k);
  }
}
