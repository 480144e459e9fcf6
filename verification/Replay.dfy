/** A process that ends without Close: the next one is fed again from the committed offset on, with an empty filter
    (internal/kafka/consumer.go, deduper.go), and takes up the rows that were stored (internal/kline/aggregator.go). */
module Replay {
  import opened Intervals
  import opened Options
  import opened Klines
  import opened Tables
  import opened Windows
  import opened Buckets
  import opened Pipeline
  import opened Refinement
  import opened Counts
  import opened Guarantees
  import opened Rebuilds
  import opened Shutdown

  // ---------------------------------------------------------------- the machine with another past

  /** The same in everything that steps depend on, except that `v` may lack a stored row of one window. */
  predicate Alike(s: Sym, v: Sym, k: Key) {
    && v == s.(db := v.db, history := v.history, lost := v.lost, tainted := v.tainted)
    && (v.db == s.db || (k in s.db && v.db == s.db - {k}))
  }

  /** A step of one process of a leader in which no load and no save of completed rows fails and nothing is rebuilt. */
  predicate Quiet(a: Action) {
    match a
    case Update(_, failed) => failed == {}
    case Append(_, leader) => leader
    case SaveDrained(ok) => ok
    case Gather(_, _) => false
    case Backfill(_) => false
    case Restart(_) => false
    case Crash => false
    case _ => true
  }

  lemma {:induction false} SaveWithout(db: Table, k: Key, rows: seq<Row>)
    ensures SaveAll(db - {k}, rows) == if HasKey(rows, k) then SaveAll(db, rows) else SaveAll(db, rows) - {k}
    decreases |rows|
  {
    if rows != [] {
      var first, rest := KeyOf(rows[0]), rows[1..];
      var next := db[first := Seal(rows[0])];
      assert forall i :: 0 < i < |rows| ==> rows[i] == rest[i - 1];
      if first == k {
        assert (db - {k})[first := Seal(rows[0])] == next;
      } else {
        assert (db - {k})[first := Seal(rows[0])] == next - {k};
        SaveWithout(next, k, rest);
        assert HasKey(rows, k) <==> HasKey(rest, k) by {
          if HasKey(rest, k) {
            var i :| 0 <= i < |rest| && KeyOf(rest[i]) == k;
            assert KeyOf(rows[i + 1]) == k;
          }
        }
      }
    }
  }

  lemma SavedAlike(db: Table, db': Table, k: Key, rows: seq<Row>, ok: bool)
    requires db' == db || (k in db && db' == db - {k})
    ensures var x, y := Saved(db, rows, ok), Saved(db', rows, ok);
            (y == x || (k in x && y == x - {k})) && (db' == db ==> y == x)
  {
    hide SaveAll;
    if ok && Storable(rows) && db' != db {
      SaveWithout(db, k, rows);
      SaveAllAt(db, rows, k);
    }
  }

  /** Recovery of a trade of another window does not see the difference. */
  lemma FoundAlike(s: Sym, v: Sym, t: Trade, k: Key)
    requires Alike(s, v, k) && (v.db == s.db || s.data != map[] || !InWindow(k, t))
    ensures Found(s, t, {}) == Found(v, t, {})
  {
    hide Align;
  }

  lemma StepAlike(s: Sym, v: Sym, a: Action, k: Key)
    requires Alike(s, v, k) && Enabled(s, a) && Quiet(a)
    requires a.Update? ==> v.db == s.db || s.data != map[] || !InWindow(k, a.t)
    ensures Enabled(v, a) && Alike(Step(s, a), Step(v, a), k)
    ensures v.db == s.db ==> Step(v, a).db == Step(s, a).db
  {
    hide Align, Closed, Updated, Found, Saved, InWindow;
    match a
    case Update(t, _) => FoundAlike(s, v, t, k);
    case SaveDrained(ok) => SavedAlike(s.db, v.db, k, s.drained, ok);
    case SaveSnap(ok) => SavedAlike(s.db, v.db, k, s.snap, ok);
    case _ =>
  }

  /** A quiet step of a machine with a past of its own loses nothing, if its rows can be stored. */
  lemma StepKeeps(v: Sym, a: Action, k: Key)
    requires Enabled(v, a) && Quiet(a) && Storable(v.drained) && k !in v.lost && k !in v.tainted
    ensures k !in Step(v, a).lost && k !in Step(v, a).tainted
  {
    hide Updated, Closed;
  }

  function TradeOf(a: Action): seq<Trade> { if a.Update? then [a.t] else [] }

  /** The trades that a run processes. */
  function Trades(run: seq<Action>): seq<Trade> { if run == [] then [] else TradeOf(run[0]) + Trades(run[1..]) }

  lemma StepHistory(s: Sym, a: Action)
    requires Enabled(s, a)
    ensures Step(s, a).history == s.history + TradeOf(a)
    ensures a.Update? ==> Step(s, a).data != map[]
    ensures Quiet(a) && !a.Update? ==> Step(s, a).data == s.data
  {
    hide Updated, Closed, Found;
    if a.Update? {
      UpdatedAt(Found(s, a.t, a.failed), a.t, Minute1);
    }
  }

  lemma NonNegativePart(a: seq<Trade>, b: seq<Trade>)
    requires NonNegative(a + b)
    ensures NonNegative(a) && NonNegative(b)
  {
    assert forall i :: 0 <= i < |a| ==> a[i] == (a + b)[i];
    assert forall i :: 0 <= i < |b| ==> b[i] == (a + b)[|a| + i];
  }

  /** The first trade that is processed does not see the difference. */
  predicate Blind(s: Sym, v: Sym, k: Key, trades: seq<Trade>) {
    v.db == s.db || s.data != map[] || trades == [] || !InWindow(k, trades[0])
  }

  lemma {:induction false} RunAlike(s: Sym, v: Sym, run: seq<Action>, k: Key)
    requires Alike(s, v, k) && Core(s) && CountInv(s, false) && Core(v) && k !in v.lost && k !in v.tainted
    requires Possible(s, run) && (forall a :: a in run ==> Quiet(a)) && Blind(s, v, k, Trades(run))
    requires NonNegative(s.history + Trades(run)) && NonNegative(v.history + Trades(run))
    requires |s.history| + |Trades(run)| < 0x8000_0000
    ensures Possible(v, run) && Alike(After(s, run), After(v, run), k)
    ensures v.db == s.db ==> After(v, run).db == After(s, run).db
    ensures var w := After(v, run);
            Core(w) && k !in w.lost && k !in w.tainted && w.history == v.history + Trades(run)
    decreases |run|
  {
    if run == [] {
      assert v.history + [] == v.history;
    } else {
      var a, rest := run[0], run[1..];
      assert a in run && forall b :: b in rest ==> b in run;
      OneAlike(s, v, run, k);
      hide Step, Enabled, Core, CountInv, Alike, Blind, NonNegative;
      RunAlike(Step(s, a), Step(v, a), rest, k);
    }
  }

  lemma OneAlike(s: Sym, v: Sym, run: seq<Action>, k: Key)
    requires run != [] && Enabled(s, run[0]) && Quiet(run[0]) && Blind(s, v, k, Trades(run))
    requires Alike(s, v, k) && Core(s) && CountInv(s, false) && Core(v) && k !in v.lost && k !in v.tainted
    requires NonNegative(s.history + Trades(run)) && NonNegative(v.history + Trades(run))
    requires |s.history| + |Trades(run)| < 0x8000_0000
    ensures Enabled(v, run[0])
    ensures var s', v', more := Step(s, run[0]), Step(v, run[0]), Trades(run[1..]);
            && Alike(s', v', k) && Core(s') && CountInv(s', false) && Core(v') && k !in v'.lost && k !in v'.tainted
            && Blind(s', v', k, more) && (v.db == s.db ==> v'.db == s'.db)
            && s'.history + more == s.history + Trades(run) && v'.history + more == v.history + Trades(run)
  {
    var a, more := run[0], Trades(run[1..]);
    AllStorable(s);
    hide Core, CountInv, Step, Enabled, NonNegative, InWindow, Storable;
    BlindFirst(s, v, k, run);
    StepAlike(s, v, a, k);
    StepKeeps(v, a, k);
    StepBlind(s, v, k, run);
    StepHistory(s, a);
    StepHistory(v, a);
    Regrouped(s.history, TradeOf(a), more);
    Regrouped(v.history, TradeOf(a), more);
    NonNegativePart(Step(s, a).history, more);
    NonNegativePart(Step(v, a).history, more);
    hide Alike, Blind, Trades, TradeOf, Quiet;
    StepInv(s, a);
    StepInv(v, a);
    StepCounts(s, a, false);
  }

  lemma BlindFirst(s: Sym, v: Sym, k: Key, run: seq<Action>)
    requires run != [] && Blind(s, v, k, Trades(run))
    ensures run[0].Update? ==> v.db == s.db || s.data != map[] || !InWindow(k, run[0].t)
  {
    hide InWindow;
  }

  lemma StepBlind(s: Sym, v: Sym, k: Key, run: seq<Action>)
    requires run != [] && Enabled(s, run[0]) && Enabled(v, run[0]) && Quiet(run[0]) && Blind(s, v, k, Trades(run))
    requires v.db == s.db ==> Step(v, run[0]).db == Step(s, run[0]).db
    ensures Blind(Step(s, run[0]), Step(v, run[0]), k, Trades(run[1..]))
  {
    hide InWindow, Step, Enabled;
    StepHistory(s, run[0]);
    assert !run[0].Update? ==> Trades(run) == Trades(run[1..]);
  }

  lemma Regrouped(a: seq<Trade>, b: seq<Trade>, c: seq<Trade>)
    ensures a + (b + c) == (a + b) + c
  {
  }

  // ---------------------------------------------------------------- the past that a stored row stands for

  /** A new process before its first trade. */
  predicate Empty(c: Sym) {
    c == START.(db := c.db, history := c.history, lost := c.lost, tainted := c.tainted)
  }

  function WindowsOf(g: seq<Trade>): set<Key> { set t, iv | t in g && iv in ALL :: WindowOf(iv, t) }

  /** The same process if exactly the given trades had been processed before; nothing is claimed of other windows. */
  function Assumed(c: Sym, db: Table, g: seq<Trade>, k: Key): Sym {
    c.(db := db, history := g, lost := {}, tainted := db.Keys + WindowsOf(g) - {k})
  }

  lemma TradedListed(g: seq<Trade>, j: Key)
    requires Traded(g, j)
    ensures j in WindowsOf(g)
  {
    hide Align;
    NthRank(0);
    WindowIsAligned(j, g);
    var t :| t in g && WindowOf(j.interval, t) == j;
    assert j.interval in ALL;
  }

  lemma AssumedCore(c: Sym, db: Table, g: seq<Trade>, k: Key)
    requires Empty(c) && Keyed(db) && NonNegative(g)
    requires if k in db then Traded(g, k) && db[k] == WindowRow(k, g) else !Traded(g, k)
    ensures Core(Assumed(c, db, g, k)) && k !in Assumed(c, db, g, k).tainted
  {
    hide WindowRow, WindowTrades, WindowsOf, Contiguous, NonNegative, Merged;
    var v := Assumed(c, db, g, k);
    assert forall r :: !Pend(v, r);
    forall j | Good(v, j) && Traded(g, j)
      ensures j == k && Exact(v, j)
    {
      TradedListed(g, j);
    }
    forall j | IsOpen(g, j)
      ensures Traded(g, j)
    {
      OpenTraded(g, j);
    }
    forall j | j in db
      ensures DbRowOk(v, j, db[j])
    {
      if j == k {
        NowWas(g, k);
      }
    }
  }

  /** What a new process with the given table makes of a window, if the stored row of the window has seen the trades
      `g`, which then may be of that window only: the fold of those and of the trades that it processes. With `anew`
      the stored row is one that the process does not take up. */
  lemma ReplayedRow(c: Sym, run: seq<Action>, g: seq<Trade>, k: Key, anew: bool)
    requires Empty(c) && Core(c) && CountInv(c, false) && Possible(c, run) && forall a :: a in run ==> Quiet(a)
    requires NonNegative(c.history + Trades(run)) && NonNegative(g + Trades(run))
    requires |c.history| + |Trades(run)| < 0x8000_0000 && Contiguous(k, g + Trades(run))
    requires if k in c.db && !anew then Traded(g, k) && c.db[k] == WindowRow(k, g) else !Traded(g, k)
    requires anew ==> Traded(g + Trades(run), k) && Trades(run) != [] && !InWindow(k, Trades(run)[0])
    ensures Look(After(c, run), k) == Expected(g + Trades(run), k)
  {
    var db := if anew then c.db - {k} else c.db;
    var v := Assumed(c, db, g, k);
    NonNegativePart(g, Trades(run));
    CoreKeyed(c);
    AssumedCore(c, db, g, k);
    assert Alike(c, v, k) && Blind(c, v, k, Trades(run));
    hide Core, CountInv, NonNegative, Contiguous, Expected, Look, InWindow, WindowTrades, Assumed, Alike, Empty;
    RunAlike(c, v, run, k);
    assert Good(After(v, run), k);
    OverlayHolds(After(v, run), k);
    if After(v, run).db != After(c, run).db {
      LookAlike(After(c, run), After(v, run), k);
    } else {
      LookSame(After(c, run), After(v, run), k);
    }
  }

  lemma CoreKeyed(c: Sym)
    requires Core(c)
    ensures Keyed(c.db)
  {
    forall k | k in c.db
      ensures KeyOf(c.db[k]) == k
    {
      assert DbRowOk(c, k, c.db[k]);
    }
  }

  lemma LookAlike(s: Sym, v: Sym, k: Key)
    requires Alike(s, v, k) && Look(v, k).Some?
    ensures Look(s, k) == Look(v, k)
  {
  }

  lemma LookSame(s: Sym, v: Sym, k: Key)
    requires Alike(s, v, k) && v.db == s.db
    ensures Look(s, k) == Look(v, k)
  {
  }

  // ---------------------------------------------------------------- trades of one window

  lemma OnlyItsOwn(k: Key, h: seq<Trade>)
    ensures forall i :: 0 <= i < |WindowTrades(k, h)| ==> InWindow(k, WindowTrades(k, h)[i])
    ensures WindowTrades(k, WindowTrades(k, h)) == WindowTrades(k, h)
  {
    hide Align;
    var ts := WindowTrades(k, h);
    forall i | 0 <= i < |ts|
      ensures InWindow(k, ts[i])
    {
      WindowMember(k, h, ts[i]);
      assert ts[i] in ts;
    }
    AllInWindow(k, ts);
  }

  lemma {:induction false} AllInWindow(k: Key, ts: seq<Trade>)
    requires forall i :: 0 <= i < |ts| ==> InWindow(k, ts[i])
    ensures WindowTrades(k, ts) == ts
  {
    hide Align;
    if ts != [] {
      assert InWindow(k, ts[0]);
      AllInWindow(k, ts[1..]);
    }
  }

  /** The trades that a stored row has counted. */
  lemma StoredPast(s: Sym, ts: seq<Trade>, k: Key) returns (g: seq<Trade>)
    requires s.history <= ts && |ts| < 0x8000_0000 && (k in s.db ==> Was(s.history, k, s.db[k]))
    ensures |g| == StoredCount(s, k) && g <= WindowTrades(k, ts) && forall i :: 0 <= i < |g| ==> InWindow(k, g[i])
    ensures if k in s.db then Traded(g, k) && s.db[k] == WindowRow(k, g) else !Traded(g, k)
    ensures WindowTrades(k, g) == g
  {
    hide InWindow, WindowRow, WindowTrades;
    if k in s.db {
      var p :| p <= s.history && Traded(p, k) && s.db[k] == WindowRow(k, p);
      g := WindowTrades(k, p);
      OnlyItsOwn(k, p);
      assert ts == p + ts[|p|..];
      WindowConcat(k, p, ts[|p|..]);
      SameTrades(k, p, g);
      NoMoreThanAll(k, p);
      RowCount(k, p);
    } else {
      g := [];
      NoTrades(k);
    }
  }

  lemma NoTrades(k: Key)
    ensures WindowTrades(k, []) == []
  {
  }

  /** How many trades the stored row of a window has counted. */
  function StoredCount(s: Sym, k: Key): int { if k in s.db then s.db[k].count else 0 }

  lemma SamePast(k: Key, g: seq<Trade>, h: seq<Trade>)
    requires WindowTrades(k, g) == WindowTrades(k, h)
    ensures Expected(g, k) == Expected(h, k)
  {
  }

  lemma OtherPast(k: Key, g: seq<Trade>, h: seq<Trade>)
    requires |WindowTrades(k, g)| != |WindowTrades(k, h)|
    requires |WindowTrades(k, g)| < 0x8000_0000 && |WindowTrades(k, h)| < 0x8000_0000
    ensures Expected(g, k) != Expected(h, k)
  {
    hide WindowTrades, WindowRow;
    if Traded(g, k) && Traded(h, k) {
      RowCount(k, g);
      RowCount(k, h);
    }
  }

  // ---------------------------------------------------------------- after a crash

  /** The window begins after the first trade that is fed again. */
  predicate Anew(k: Key, again: seq<Trade>) { again != [] && !InWindow(k, again[0]) && Traded(again, k) }

  /** In one stretch, such a window had no trades before. */
  lemma AnewIsNew(k: Key, before: seq<Trade>, again: seq<Trade>)
    requires Contiguous(k, before + again) && Anew(k, again)
    ensures WindowTrades(k, before) == []
  {
    hide InWindow, WindowTrades;
    if WindowTrades(k, before) != [] {
      var i := SomeTrade(k, before);
      var j := SomeTrade(k, again);
      ComesBack(k, before, again, i, j);
    }
  }

  lemma ComesBack(k: Key, before: seq<Trade>, again: seq<Trade>, i: nat, j: nat)
    requires i < |before| && j < |again| && InWindow(k, before[i]) && !InWindow(k, again[0]) && InWindow(k, again[j])
    ensures !Contiguous(k, before + again)
  {
    hide InWindow;
    var ts := before + again;
    assert ts[i] == before[i] && ts[|before|] == again[0] && ts[|before| + j] == again[j];
  }

  lemma PastContiguous(k: Key, g: seq<Trade>, before: seq<Trade>, again: seq<Trade>)
    requires Contiguous(k, before + again) && !Anew(k, again) && forall i :: 0 <= i < |g| ==> InWindow(k, g[i])
    ensures Contiguous(k, g + again)
  {
    hide InWindow, WindowTrades;
    var ts, all := before + again, g + again;
    assert forall i :: 0 <= i < |again| ==> ts[|before| + i] == again[i] && all[|g| + i] == again[i];
    forall i, j, l | 0 <= i < j < l < |all| && InWindow(k, all[i]) && InWindow(k, all[l])
      ensures InWindow(k, all[j])
    {
      if j < |g| {
        assert all[j] == g[j];
      } else {
        HasTrade(k, again, l - |g|);
        assert InWindow(k, ts[|before|]);
        assert InWindow(k, ts[|before| + l - |g|]);
        assert j > |g| ==> InWindow(k, ts[|before| + j - |g|]);
      }
    }
  }

  /** What the next process makes of a window is right exactly if the stored row has counted as many of its trades
      as the ones before the offset. */
  lemma PastExactly(k: Key, g: seq<Trade>, before: seq<Trade>, again: seq<Trade>)
    requires g <= WindowTrades(k, before + again) && WindowTrades(k, g) == g
    requires |g| + |before| + |again| < 0x8000_0000
    ensures Expected(g + again, k) == Expected(before + again, k) <==> |g| == |WindowTrades(k, before)|
  {
    hide WindowTrades, Expected;
    WindowConcat(k, g, again);
    WindowConcat(k, before, again);
    NoMoreThanAll(k, before);
    NoMoreThanAll(k, again);
    var own, later := WindowTrades(k, before), WindowTrades(k, again);
    if |g| == |own| {
      assert g == (own + later)[..|g|] == own;
      SamePast(k, g + again, before + again);
    } else {
      OtherPast(k, g + again, before + again);
    }
  }

  /** For every run that ends without Close, and every offset from which the next process is fed, be it before or after
      the last trade that was processed: when the next process has been fed the rest, in whatever interleaving with
      its own checkpoints, a window is the fold of its distinct trades exactly if its stored row had counted as
      many of its trades as lie before the offset, or if it begins after the first trade that is fed. */
  lemma ReplayExactly(run: seq<Action>, s: Sym, ts: seq<Trade>, from: nat, rest: seq<Action>, k: Key)
    requires Reached(run, s) && from <= |ts| && s.history <= ts && NonNegative(ts) && Contiguous(k, ts)
    requires k in s.db ==> Was(s.history, k, s.db[k])
    requires Possible(Step(s, Crash), rest) && (forall a :: a in rest ==> Quiet(a)) && Trades(rest) == ts[from..]
    requires 2 * |ts| < 0x8000_0000
    ensures Look(After(Step(s, Crash), rest), k) == Expected(ts, k) <==>
            StoredCount(s, k) == |WindowTrades(k, ts[..from])| || Anew(k, ts[from..])
  {
    CrashReached(run, s);
    hide Reached, Core, CountInv, NonNegative, Contiguous, WindowTrades, InWindow, Was, Possible, After, Step, Empty;
    hide Look, Expected, WindowRow, StoredCount, Quiet, Trades, Anew;
    var g := StoredPast(s, ts, k);
    PastNonNegative(k, g, s.history, ts, from);
    var before, again := ts[..from], ts[from..];
    assert ts == before + again;
    NoMoreThanAll(k, ts);
    if Anew(k, again) {
      AnewPast(k, before, again);
      ReplayedRow(Step(s, Crash), rest, [], k, true);
    } else {
      PastContiguous(k, g, before, again);
      ReplayedRow(Step(s, Crash), rest, g, k, false);
      PastExactly(k, g, before, again);
    }
  }

  lemma CrashReached(run: seq<Action>, s: Sym)
    requires Reached(run, s)
    ensures var c := Step(s, Crash);
            Enabled(s, Crash) && Empty(c) && Core(c) && CountInv(c, false) && c.db == s.db && c.history == s.history
  {
    hide Core, CountInv, Unsaved, Unfinished;
    ReachedMore(run, s, Crash);
    ReachedCore(run + [Crash], Step(s, Crash));
  }

  lemma AnewPast(k: Key, before: seq<Trade>, again: seq<Trade>)
    requires Anew(k, again) && Contiguous(k, before + again) && NonNegative(again)
    ensures !Traded([], k) && again != [] && !InWindow(k, again[0])
    ensures Traded([] + again, k) && Contiguous(k, [] + again) && NonNegative([] + again)
    ensures Expected([] + again, k) == Expected(before + again, k)
  {
    assert [] + again == again;
    AnewIsNew(k, before, again);
    NoTrades(k);
    ContiguousPart(k, before, again);
    hide WindowTrades, InWindow, Contiguous, NonNegative, Expected;
    WindowConcat(k, before, again);
    assert [] + WindowTrades(k, again) == WindowTrades(k, again);
    SamePast(k, again, before + again);
  }

  lemma ContiguousPart(k: Key, before: seq<Trade>, again: seq<Trade>)
    requires Contiguous(k, before + again)
    ensures Contiguous(k, again)
  {
    hide InWindow;
    assert forall i :: 0 <= i < |again| ==> (before + again)[|before| + i] == again[i];
  }

  lemma PastNonNegative(k: Key, g: seq<Trade>, h: seq<Trade>, ts: seq<Trade>, n: nat)
    requires NonNegative(ts) && h <= ts && g <= WindowTrades(k, ts) && n <= |ts|
    ensures NonNegative(h + ts[n..]) && NonNegative(g + ts[n..]) && NonNegative(ts[n..])
  {
    WindowNonNegative(k, ts);
  }

  // ---------------------------------------------------------------- the service

  /** One worker feeds the trades of a partition to the pipeline in order; `fed` counts those before the next one, and
      `committed` those whose offsets are committed, of which all have been processed (see Committer.CommitsSafe).
      The filter for redelivered trades is empty when a process begins, and so lets them pass. */
  datatype Service = Service(sym: Sym, fed: nat, committed: nat)

  const BEGIN := Service(START, 0, 0)

  datatype Event =
    | Feed(failed: set<Interval>)  // the next trade is processed
    | Commit(upto: nat)            // offsets of processed trades are committed
    | Inner(a: Action)             // another step of the pipeline
    | Fail(end: nat)               // the process ends when the partition has so many trades; the next one is fed from
                                   // the committed offset on, or from the end if none is committed

  ghost predicate CanTake(ts: seq<Trade>, x: Service, e: Event) {
    match e
    case Feed(_) => x.fed < |ts|
    case Commit(upto) => x.committed < upto <= x.fed
    case Inner(a) => !a.Update? && !a.Crash? && Enabled(x.sym, a)
    case Fail(end) => x.fed <= end <= |ts|
  }

  ghost function Take(ts: seq<Trade>, x: Service, e: Event): Service
    requires CanTake(ts, x, e)
  {
    match e
    case Feed(failed) => x.(sym := Step(x.sym, Update(ts[x.fed], failed)), fed := x.fed + 1)
    case Commit(upto) => x.(committed := upto)
    case Inner(a) => x.(sym := Step(x.sym, a))
    case Fail(end) =>
      x.(sym := Step(x.sym, Crash), fed := if x.committed > 0 then x.committed else end)
  }

  ghost predicate CanRun(ts: seq<Trade>, x: Service, es: seq<Event>)
    decreases |es|
  {
    es == [] || (CanTake(ts, x, es[0]) && CanRun(ts, Take(ts, x, es[0]), es[1..]))
  }

  ghost function AfterRun(ts: seq<Trade>, x: Service, es: seq<Event>): Service
    requires CanRun(ts, x, es)
    decreases |es|
  {
    if es == [] then x else AfterRun(ts, Take(ts, x, es[0]), es[1..])
  }

  function ActionsOf(ts: seq<Trade>, fed: nat, e: Event): seq<Action> {
    match e
    case Feed(failed) => if fed < |ts| then [Update(ts[fed], failed)] else []
    case Commit(_) => []
    case Inner(a) => [a]
    case Fail(_) => []
  }

  /** What the pipeline does in a run of one process. */
  function Actions(ts: seq<Trade>, fed: nat, es: seq<Event>): seq<Action>
    decreases |es|
  {
    if es == [] then []
    else ActionsOf(ts, fed, es[0]) + Actions(ts, if es[0].Feed? then fed + 1 else fed, es[1..])
  }

  predicate OneProcess(es: seq<Event>) { forall e :: e in es ==> !e.Fail? }

  lemma TakeActions(ts: seq<Trade>, x: Service, e: Event)
    requires CanTake(ts, x, e) && !e.Fail? && x.committed <= x.fed <= |ts|
    ensures var acts, y := ActionsOf(ts, x.fed, e), Take(ts, x, e);
            && Possible(x.sym, acts) && After(x.sym, acts) == y.sym && y.committed <= y.fed <= |ts|
            && y.fed == (if e.Feed? then x.fed + 1 else x.fed) && Trades(acts) == ts[x.fed..y.fed]
  {
    hide Step;
    var acts := ActionsOf(ts, x.fed, e);
    assert acts != [] ==> acts[1..] == [];
  }

  lemma {:induction false} RunActions(ts: seq<Trade>, x: Service, es: seq<Event>)
    requires CanRun(ts, x, es) && OneProcess(es) && x.committed <= x.fed <= |ts|
    ensures var acts, y := Actions(ts, x.fed, es), AfterRun(ts, x, es);
            && Possible(x.sym, acts) && After(x.sym, acts) == y.sym && y.committed <= y.fed <= |ts|
            && x.fed <= y.fed && Trades(acts) == ts[x.fed..y.fed]
    decreases |es|
  {
    hide Take, CanTake, ActionsOf, Possible, After, Trades;
    if es == [] {
      Nothing(x.sym);
    } else {
      var y, rest := Take(ts, x, es[0]), es[1..];
      assert es[0] in es && forall e :: e in rest ==> e in es;
      TakeActions(ts, x, es[0]);
      RunActions(ts, y, rest);
      var first, more := ActionsOf(ts, x.fed, es[0]), Actions(ts, y.fed, rest);
      RunsConcat(x.sym, first, more);
      TradesConcat(first, more);
      Adjacent(ts, x.fed, y.fed, AfterRun(ts, y, rest).fed);
    }
  }

  lemma Adjacent(ts: seq<Trade>, a: nat, b: nat, c: nat)
    requires a <= b <= c <= |ts|
    ensures ts[a..b] + ts[b..c] == ts[a..c]
  {
  }

  lemma Nothing(s: Sym)
    ensures Possible(s, []) && After(s, []) == s && Trades([]) == []
  {
  }

  lemma {:induction false} TradesConcat(a: seq<Action>, b: seq<Action>)
    ensures Trades(a + b) == Trades(a) + Trades(b)
  {
    if a == [] {
      assert a + b == b && [] + Trades(b) == Trades(b);
    } else {
      assert (a + b)[1..] == a[1..] + b;
      TradesConcat(a[1..], b);
      Regrouped(TradeOf(a[0]), Trades(a[1..]), Trades(b));
    }
  }

  predicate QuietEvent(e: Event) {
    match e
    case Feed(failed) => failed == {}
    case Commit(_) => true
    case Inner(a) => Quiet(a)
    case Fail(_) => false
  }

  lemma {:induction false} QuietActions(ts: seq<Trade>, fed: nat, es: seq<Event>)
    requires forall e :: e in es ==> QuietEvent(e)
    ensures forall a :: a in Actions(ts, fed, es) ==> Quiet(a)
    decreases |es|
  {
    if es != [] {
      assert es[0] in es && forall e :: e in es[1..] ==> e in es;
      QuietActions(ts, if es[0].Feed? then fed + 1 else fed, es[1..]);
    }
  }

  lemma {:induction false} RunHistory(s: Sym, run: seq<Action>)
    requires Possible(s, run)
    ensures After(s, run).history == s.history + Trades(run)
    decreases |run|
  {
    hide Step, Enabled;
    if run != [] {
      StepHistory(s, run[0]);
      RunHistory(Step(s, run[0]), run[1..]);
      Regrouped(s.history, TradeOf(run[0]), Trades(run[1..]));
    }
  }

  lemma PrefixGood(ts: seq<Trade>, n: nat, k: Key)
    requires n <= |ts| && NonNegative(ts) && Contiguous(k, ts)
    ensures NonNegative(ts[..n]) && Contiguous(k, ts[..n])
  {
    hide InWindow;
    assert forall i :: 0 <= i < n ==> ts[..n][i] == ts[i];
  }

  /** A run of one process takes the service from one state to another; no more than what was fed is committed. */
  ghost predicate Serves(ts: seq<Trade>, x: Service, es: seq<Event>, y: Service) {
    CanRun(ts, x, es) && OneProcess(es) && AfterRun(ts, x, es) == y && y.committed <= y.fed <= |ts|
  }

  /** What a run of one process has fed and committed, read off its events. */
  function Feeds(es: seq<Event>): nat { if es == [] then 0 else (if es[0].Feed? then 1 else 0) + Feeds(es[1..]) }

  function LastCommit(es: seq<Event>, before: nat): nat
    decreases |es|
  {
    if es == [] then before else LastCommit(es[1..], if es[0].Commit? then es[0].upto else before)
  }

  lemma {:induction false} RunCounters(ts: seq<Trade>, x: Service, es: seq<Event>)
    requires CanRun(ts, x, es) && OneProcess(es)
    ensures AfterRun(ts, x, es).fed == x.fed + Feeds(es)
    ensures AfterRun(ts, x, es).committed == LastCommit(es, x.committed)
    decreases |es|
  {
    hide Step, Enabled;
    if es != [] {
      assert es[0] in es && forall e :: e in es[1..] ==> e in es;
      RunCounters(ts, Take(ts, x, es[0]), es[1..]);
    }
  }

  /** The first process processes the trades from the first one on, as many as it is fed, and the last commit is what
      is committed. */
  lemma ServesExactly(ts: seq<Trade>, es: seq<Event>, x: Service)
    requires Serves(ts, BEGIN, es, x)
    ensures x.fed == Feeds(es) <= |ts| && x.sym.history == ts[..Feeds(es)] && x.committed == LastCommit(es, 0)
  {
    RunCounters(ts, BEGIN, es);
    RunActions(ts, BEGIN, es);
    RunHistory(START, Actions(ts, 0, es));
    assert [] + ts[0..x.fed] == ts[..x.fed];
  }

  /** The process after a failure processes the trades from the committed offset on, again if need be, or those that
      come after the failure if nothing is committed. */
  lemma ResumesExactly(ts: seq<Trade>, es: seq<Event>, x: Service, end: nat, es': seq<Event>, z: Service)
    requires Serves(ts, BEGIN, es, x) && CanTake(ts, x, Fail(end)) && Serves(ts, Take(ts, x, Fail(end)), es', z)
    ensures var from := if x.committed > 0 then x.committed else end;
            && z.fed == from + Feeds(es') <= |ts|
            && z.sym.history == x.sym.history + ts[from..z.fed]
  {
    var y := Take(ts, x, Fail(end));
    var from := if x.committed > 0 then x.committed else end;
    CrashHistory(x.sym);
    hide Step, Enabled;
    assert y.fed == from && y.sym.history == x.sym.history;
    RunCounters(ts, y, es');
    RunActions(ts, y, es');
    RunHistory(y.sym, Actions(ts, from, es'));
  }

  lemma CrashHistory(s: Sym)
    ensures Enabled(s, Crash) && Step(s, Crash).history == s.history
  {
  }

  /** Over every run with one failure, after which the service has caught up: each window is the fold of the distinct
      trades exactly if at the failure its stored row had counted as many of its trades as lie before the offset from
      which the next process is fed, or if it begins after the first trade that is fed then. Fewer are lost,
      more are counted twice. */
  lemma FailureExactly(ts: seq<Trade>, es: seq<Event>, x: Service, end: nat, es': seq<Event>, z: Service, k: Key)
    requires Serves(ts, BEGIN, es, x) && CanTake(ts, x, Fail(end)) && Serves(ts, Take(ts, x, Fail(end)), es', z)
    requires (forall e :: e in es' ==> QuietEvent(e)) && NonNegative(ts) && Contiguous(k, ts) && 2 * |ts| < 0x8000_0000
    requires z.fed >= x.fed && (k in x.sym.db ==> Was(x.sym.history, k, x.sym.db[k]))
    ensures (if x.committed > 0 then x.committed else end) <= z.fed <= |ts|
    ensures var from := if x.committed > 0 then x.committed else end;
            Look(z.sym, k) == Expected(ts[..z.fed], k) <==>
            StoredCount(x.sym, k) == |WindowTrades(k, ts[..from])| || Anew(k, ts[from..z.fed])
  {
    var from := if x.committed > 0 then x.committed else end;
    var y := Take(ts, x, Fail(end));
    var run, rest := Actions(ts, 0, es), Actions(ts, from, es');
    RunActions(ts, BEGIN, es);
    RunHistory(START, run);
    RunActions(ts, y, es');
    QuietActions(ts, from, es');
    PrefixGood(ts, z.fed, k);
    PrefixGood(ts, x.fed, k);
    hide Possible, After, Contiguous, NonNegative, Look, Expected, Was, WindowTrades, StoredCount, Anew, Actions;
    hide AfterRun, CanRun, Step, Quiet, Trades, QuietEvent;
    Slices(ts, from, x.fed, z.fed);
    assert Reached(run, x.sym);
    hide NonNegative;
    ReplayExactly(run, x.sym, ts[..z.fed], from, rest, k);
  }

  lemma Slices(ts: seq<Trade>, from: nat, fed: nat, n: nat)
    requires from <= n <= |ts| && fed <= n
    ensures [] + ts[0..fed] == ts[..fed] && ts[..fed] <= ts[..n]
    ensures ts[..n][..from] == ts[..from] && ts[..n][from..] == ts[from..n]
  {
  }

  /** A trade is lost for good if its offset is committed before its row is stored, and also if nothing is committed. */
  lemma TradeLost(t: Trade, commits: bool) returns (x: Service)
    ensures Serves([t], BEGIN, [Feed({})] + (if commits then [Commit(1)] else []), x)
    ensures CanTake([t], x, Fail(1))
    ensures var y := Take([t], x, Fail(1)); y.fed == 1 && Look(y.sym, WindowOf(Minute1, t)) == None
  {
    hide Align, Updated, Closed, Found, Missed;
    var ts, last := [t], if commits then [Commit(1)] else [];
    var x1 := Take(ts, BEGIN, Feed({}));
    x := if commits then Take(ts, x1, Commit(1)) else x1;
    assert CanRun(ts, x, []);
    assert [Commit(1)][1..] == [] && CanRun(ts, x1, last) && AfterRun(ts, x1, last) == x;
    assert ([Feed({})] + last)[1..] == last;
  }

  /** A trade that enters the partition while no process runs and nothing is committed is never processed. */
  lemma NeverFed(t: Trade, u: Trade, x: Service, es: seq<Event>, z: Service)
    requires Serves([t, u], BEGIN, [Feed({})], x)
    ensures CanTake([t, u], x, Fail(2))
    ensures Serves([t, u], Take([t, u], x, Fail(2)), es, z) ==> z.sym.history == [t]
  {
    hide Step, Enabled;
    var ts := [t, u];
    assert [Feed({})][1..] == [];
    ServesExactly(ts, [Feed({})], x);
    assert x.fed == 1 && x.committed == 0 && ts[..1] == [t];
    if Serves(ts, Take(ts, x, Fail(2)), es, z) {
      ResumesExactly(ts, [Feed({})], x, 2, es, z);
      assert [t] + ts[2..z.fed] == [t];
    }
  }

  // ---------------------------------------------------------------- a run in which a trade is counted twice

  predicate Together(t: Trade, u: Trade) { WindowOf(Minute1, t) == WindowOf(Minute1, u) }

  lemma BucketOfTwo(t: Trade, u: Trade, iv: Interval)
    ensures var d := Updated(Updated(map[], t), u); iv in d && d[iv].interval == iv && d[iv].count > 0
    ensures var r := Updated(Updated(map[], t), u)[Minute1];
            Together(t, u) ==> KeyOf(r) == WindowOf(Minute1, t) && r.count == 2
  {
    hide Align, Updated;
    UpdatedAt(map[], t, iv);
    UpdatedAt(Updated(map[], t), u, iv);
    UpdatedAt(map[], t, Minute1);
    UpdatedAt(Updated(map[], t), u, Minute1);
  }

  lemma AllListed(d: Buckets)
    requires forall iv: Interval :: iv in d && d[iv].interval == iv && d[iv].count > 0
    ensures Lists(INTERVALS, d) && Storable(RowsAt(d, INTERVALS))
  {
    forall i | 0 <= i < 7
      ensures INTERVALS[i] == Nth(i) && Rank(INTERVALS[i]) == i
    {
      NthRank(i);
    }
    forall iv: Interval
      ensures iv in INTERVALS
    {
      NthRank(0);
      assert INTERVALS[Rank(iv)] == iv;
    }
  }

  /** A checkpoint's save of the open rows stores the row of two trades. */
  lemma TwoStored(d: Buckets, k: Key)
    requires forall iv: Interval :: iv in d && d[iv].interval == iv && d[iv].count > 0
    requires KeyOf(d[Minute1]) == k && d[Minute1].count == 2
    ensures Lists(INTERVALS, d)
    ensures var db := Saved(map[], RowsAt(d, INTERVALS), true); k in db && db[k].count == 2
  {
    AllListed(d);
    var rows := RowsAt(d, INTERVALS);
    SaveAllAt(map[], rows, k);
    NthRank(0);
    assert rows[0] == d[Minute1] && HasKey(rows, k);
  }

  lemma FirstEvent(ts: seq<Trade>, x: Service, e: Event, rest: seq<Event>)
    requires CanTake(ts, x, e) && CanRun(ts, Take(ts, x, e), rest) && OneProcess(rest) && !e.Fail?
    ensures CanRun(ts, x, [e] + rest) && AfterRun(ts, x, [e] + rest) == AfterRun(ts, Take(ts, x, e), rest)
    ensures OneProcess([e] + rest)
  {
    hide Step, Enabled;
    assert ([e] + rest)[1..] == rest;
  }

  function Checkpoint(): seq<Event> {
    [Inner(Drain)] + ([Inner(Snapshot(INTERVALS))] + ([Inner(SaveSnap(true))] + []))
  }

  /** A checkpoint in which no row is completed stores the open rows. */
  lemma CheckpointSteps(ts: seq<Trade>, x: Service, k: Key) returns (y: Service)
    requires x.sym.phase == Idle && x.sym.buf == [] && x.sym.db == map[] && Lists(INTERVALS, x.sym.data)
    requires var db := Saved(map[], RowsAt(x.sym.data, INTERVALS), true); k in db && db[k].count == 2
    ensures CanRun(ts, x, Checkpoint()) && OneProcess(Checkpoint()) && y == AfterRun(ts, x, Checkpoint())
    ensures y.fed == x.fed && y.committed == x.committed && y.sym.tainted == x.sym.tainted
    ensures StoredCount(y.sym, k) == 2
  {
    var x1 := Take(ts, x, Inner(Drain));
    var x2 := Take(ts, x1, Inner(Snapshot(INTERVALS)));
    y := Take(ts, x2, Inner(SaveSnap(true)));
    FirstEvent(ts, x2, Inner(SaveSnap(true)), []);
    FirstEvent(ts, x1, Inner(Snapshot(INTERVALS)), [Inner(SaveSnap(true))] + []);
    FirstEvent(ts, x, Inner(Drain), [Inner(Snapshot(INTERVALS))] + ([Inner(SaveSnap(true))] + []));
  }

  /** Two trades, of which the first is committed, and a checkpoint. */
  function Ahead(): seq<Event> { [Feed({})] + ([Commit(1)] + ([Feed({})] + Checkpoint())) }

  lemma TwoFed(t: Trade, u: Trade) returns (s: Sym)
    ensures s == Step(Step(START, Update(t, {})), Update(u, {}))
    ensures s == START.(data := Updated(Updated(map[], t), u), inflight := s.inflight, history := s.history)
  {
    hide Align, Updated, Closed;
    NothingClosed(t);
    UpdatedAt(map[], t, Minute1);
    s := Step(Step(START, Update(t, {})), Update(u, {}));
  }

  /** The service processes two trades of a minute, commits the first, stores the row of both and fails: the second is
      fed again. */
  lemma StoredAhead(t: Trade, u: Trade) returns (x: Service)
    requires Together(t, u)
    ensures Serves([t, u], BEGIN, Ahead(), x) && x.fed == 2 && x.committed == 1
    ensures CanTake([t, u], x, Fail(2)) && StoredCount(x.sym, WindowOf(Minute1, t)) == 2 && x.sym.tainted == {}
  {
    hide Align, Updated;
    var ts, k := [t, u], WindowOf(Minute1, t);
    var s := TwoFed(t, u);
    forall iv
      ensures iv in s.data && s.data[iv].interval == iv && s.data[iv].count > 0
    {
      BucketOfTwo(t, u, iv);
    }
    BucketOfTwo(t, u, Minute1);
    TwoStored(s.data, k);
    hide Step, Lists, StoredCount, Checkpoint;
    var x1 := Take(ts, BEGIN, Feed({}));
    var x2 := Take(ts, x1, Commit(1));
    var x3 := Take(ts, x2, Feed({}));
    x := CheckpointSteps(ts, x3, k);
    FirstEvent(ts, x2, Feed({}), Checkpoint());
    FirstEvent(ts, x1, Commit(1), [Feed({})] + Checkpoint());
    FirstEvent(ts, BEGIN, Feed({}), [Commit(1)] + ([Feed({})] + Checkpoint()));
  }

  /** Once the service has caught up, the row of the minute is wrong for good: it has counted the second trade twice. */
  lemma CountedTwice(t: Trade, u: Trade, x: Service, es: seq<Event>, z: Service)
    requires Together(t, u) && NonNegative([t, u]) && Serves([t, u], BEGIN, Ahead(), x)
    requires CanTake([t, u], x, Fail(2)) && Serves([t, u], Take([t, u], x, Fail(2)), es, z) && z.fed == 2
    requires forall e :: e in es ==> QuietEvent(e)
    ensures Look(z.sym, WindowOf(Minute1, t)) != Expected([t, u], WindowOf(Minute1, t))
  {
    var ts, k := [t, u], WindowOf(Minute1, t);
    var x' := StoredAhead(t, u);
    TwoTrades(t, u, k);
    hide Step, Enabled, Look, Expected, StoredCount, Anew, Actions, Ahead, Contiguous, WindowTrades, Was, Together;
    hide NonNegative, Reached;
    ServesReached(ts, Ahead(), x);
    ServesExactly(ts, Ahead(), x);
    assert ts[..2] == ts && ts[1..2] == [u] && ts[..1] == [t];
    TableIsSound(Actions(ts, 0, Ahead()), x.sym, k);
    FailureExactly(ts, Ahead(), x, 2, es, z, k);
  }

  lemma ServesReached(ts: seq<Trade>, es: seq<Event>, x: Service)
    requires Serves(ts, BEGIN, es, x) && NonNegative(ts)
    ensures Reached(Actions(ts, 0, es), x.sym)
  {
    RunActions(ts, BEGIN, es);
    ServesExactly(ts, es, x);
  }

  lemma TwoTrades(t: Trade, u: Trade, k: Key)
    requires Together(t, u) && k == WindowOf(Minute1, t)
    ensures Contiguous(k, [t, u]) && |WindowTrades(k, [t])| == 1 && !Anew(k, [u])
  {
    hide Align;
    assert [t][1..] == [];
  }
}
