/** What a client of the pipeline may rely on, over every run of interleaved steps. */
module Guarantees {
  import opened Intervals
  import opened Options
  import opened Klines
  import opened Tables
  import opened Windows
  import opened Buckets
  import opened Backfill
  import opened Pipeline
  import opened Refinement
  import opened Counts

  // ---------------------------------------------------------------- the overlay

  function Find(rows: seq<Row>, k: Key): Option<Row> {
    if rows == [] then None else if KeyOf(rows[0]) == k then Some(rows[0]) else Find(rows[1..], k)
  }

  function FindAny(groups: seq<seq<Row>>, k: Key): Option<Row> {
    if groups == [] then None
    else match Find(groups[0], k)
         case Some(r) => Some(r)
         case None => FindAny(groups[1..], k)
  }

  /** The completed row of a window that is not saved yet. */
  function FindPending(s: Sym, k: Key): Option<Row> {
    match FindAny(s.inflight, k)
    case Some(r) => Some(r)
    case None =>
      match Find(s.buf, k)
      case Some(r) => Some(r)
      case None => Find(s.drained, k)
  }

  /** The row of a window: the open bucket over the completed rows over the table. */
  function Look(s: Sym, k: Key): Option<Row> {
    if k.interval in s.data && KeyOf(s.data[k.interval]) == k then Some(Seal(s.data[k.interval]))
    else match FindPending(s, k)
         case Some(r) => Some(Seal(r))
         case None => if k in s.db then Some(s.db[k]) else None
  }

  lemma {:induction false} FindFinds(rows: seq<Row>, k: Key)
    ensures match Find(rows, k)
            case Some(r) => r in rows && KeyOf(r) == k
            case None => forall r :: r in rows ==> KeyOf(r) != k
  {
    if rows != [] {
      FindFinds(rows[1..], k);
      assert forall r :: r in rows ==> r == rows[0] || r in rows[1..];
    }
  }

  lemma {:induction false} FindAnyFinds(groups: seq<seq<Row>>, k: Key)
    ensures match FindAny(groups, k)
            case Some(r) => KeyOf(r) == k && exists g :: g in groups && r in g
            case None => forall g, r :: g in groups && r in g ==> KeyOf(r) != k
  {
    if groups != [] {
      FindFinds(groups[0], k);
      FindAnyFinds(groups[1..], k);
      assert forall g :: g in groups ==> g == groups[0] || g in groups[1..];
    }
  }

  lemma PendingFound(s: Sym, k: Key)
    ensures match FindPending(s, k)
            case Some(r) => Pend(s, r) && KeyOf(r) == k
            case None => !PendKey(s, k)
  {
    FindAnyFinds(s.inflight, k);
    FindFinds(s.buf, k);
    FindFinds(s.drained, k);
  }

  /** The expected row of a window. */
  function Expected(h: seq<Trade>, k: Key): Option<Row> {
    if Traded(h, k) then Some(WindowRow(k, h)) else None
  }

  lemma OverlayHolds(s: Sym, k: Key)
    requires Core(s) && Good(s, k) && k !in s.lost
    ensures Look(s, k) == Expected(s.history, k)
  {
    hide Align, Holds, WindowRow, FindPending, Was, Merged, Find, Contiguous, WindowTrades;
    PendingFound(s, k);
    if k.interval in s.data && KeyOf(s.data[k.interval]) == k {
      assert s.data != map[];
      OpenIsCurrent(s, k.interval);
    } else {
      NotOpen(s, k);
      if FindPending(s, k).Some? {
        PendSealed(s, FindPending(s, k).value);
      } else if k in s.db {
        assert DbRowOk(s, k, s.db[k]);
      }
    }
  }

  lemma NotOpen(s: Sym, k: Key)
    requires Core(s) && !(k.interval in s.data && KeyOf(s.data[k.interval]) == k)
    ensures s.data != map[] ==> !IsOpen(s.history, k)
  {
    hide Align, Holds, WindowRow, Contiguous, WindowTrades;
    if s.data != map[] {
      OpenIsCurrent(s, k.interval);
      if IsOpen(s.history, k) {
        OpenTraded(s.history, k);
      }
    }
  }

  /** A state that some run reaches, with quantities and amounts that the fold has a meaning for. */
  ghost predicate Reached(run: seq<Action>, s: Sym) {
    Possible(START, run) && After(START, run) == s && NonNegative(s.history)
  }

  lemma ReachedCore(run: seq<Action>, s: Sym)
    requires Reached(run, s)
    ensures Core(s) && CountInv(s, false)
  {
    hide Possible, After, Core, CountInv;
    StartInv();
    StartCounts(false);
    RunCounts(START, run, false);
  }

  /** In every reachable state the buckets, the completed rows and the table together hold, for every window whose
      trades come in one stretch, exactly the fold of its trades, except for the recorded losses. */
  lemma Overlay(run: seq<Action>, s: Sym, k: Key)
    requires Reached(run, s) && Contiguous(k, s.history) && k !in s.lost && k !in s.tainted
    ensures Look(s, k) == Expected(s.history, k)
  {
    hide Core, Look, Expected, Reached, Contiguous;
    ReachedCore(run, s);
    OverlayHolds(s, k);
  }

  /** For trades in order of time that is every window of every kind. */
  lemma OverlayInOrder(run: seq<Action>, s: Sym, k: Key)
    requires Reached(run, s) && Ordered(s.history) && k !in s.lost && k !in s.tainted
    ensures Look(s, k) == Expected(s.history, k)
  {
    hide Look, Expected, Reached, Contiguous;
    OrderedContiguous(k, s.history);
    Overlay(run, s, k);
  }

  // ---------------------------------------------------------------- what causes losses

  predicate Harmless(a: Action) {
    match a
    case Update(_, failed) => failed == {}
    case Append(_, leader) => leader
    case SaveDrained(ok) => ok
    case Backfill(_) => false
    case Crash => false
    case _ => true
  }

  /** Neither does a plain run lose anything, of which not even a load can fail over a stored row. */
  predicate Spares(a: Action, strict: bool) { if strict then Plain(a) else Harmless(a) }

  lemma {:induction false} NothingLost(s: Sym, run: seq<Action>, strict: bool)
    requires Inv(s) && CountInv(s, strict) && Possible(s, run) && NonNegative(After(s, run).history)
    requires |After(s, run).history| < 0x8000_0000 && forall a :: a in run ==> Spares(a, strict)
    ensures After(s, run).lost == s.lost && After(s, run).tainted == s.tainted
    decreases |run|
  {
    NonNegativeBefore(s, run);
    HistoryGrows(s, run);
    hide Core, CountInv, NonNegative;
    if run != [] {
      assert run[0] in run;
      StepInv(s, run[0]);
      StepCounts(s, run[0], strict);
      KeepsLosses(s, run[0], strict);
      NothingLost(Step(s, run[0]), run[1..], strict);
    }
  }

  lemma {:induction false} HistoryGrows(s: Sym, run: seq<Action>)
    requires Possible(s, run)
    ensures |s.history| <= |After(s, run).history|
    decreases |run|
  {
    hide Enabled;
    if run != [] {
      HistoryGrows(Step(s, run[0]), run[1..]);
    }
  }

  lemma KeepsLosses(s: Sym, a: Action, strict: bool)
    requires Core(s) && CountInv(s, strict) && Enabled(s, a) && Spares(a, strict) && |s.history| < 0x8000_0000
    ensures Step(s, a).lost == s.lost && Step(s, a).tainted == s.tainted
  {
    hide Core, Counted;
    if a.SaveDrained? {
      forall i | 0 <= i < |s.drained|
        ensures s.drained[i].count >= 0
      {
        assert Pend(s, s.drained[i]);
        CountedPositive(s.history, s.drained[i], strict);
      }
    }
  }

  /** A leader whose loads and saves of completed rows succeed, and for whom nothing is rebuilt, loses nothing
      before the number of trades leaves 31 bits; saves of open rows may fail. */
  lemma LeaderOverlay(run: seq<Action>, s: Sym, k: Key)
    requires Reached(run, s) && Ordered(s.history) && |s.history| < 0x8000_0000
    requires forall a :: a in run ==> Harmless(a)
    ensures Look(s, k) == Expected(s.history, k)
  {
    hide Look, Expected, Step, Enabled, CountInv, Core;
    StartInv();
    StartCounts(false);
    NothingLost(START, run, false);
    OverlayInOrder(run, s, k);
  }

  /** Whatever fails, a stored row of a window whose bucket saw all of its trades is the row that the window had
      at some time, or was merged from rows that its minutes had. */
  lemma TableIsSound(run: seq<Action>, s: Sym, k: Key)
    requires Reached(run, s) && k in s.db && Contiguous(k, s.history) && k !in s.tainted
    ensures Was(s.history, k, s.db[k]) || Merged(s, k, s.db[k])
    ensures !Target(k.interval) ==> Was(s.history, k, s.db[k])
  {
    hide Was, Merged, Reached, Contiguous, CountInv, Target;
    ReachedCore(run, s);
    assert DbRowOk(s, k, s.db[k]);
    if Merged(s, k, s.db[k]) {
      MergedShape(s, k, s.db[k]);
    }
  }

  /** A bucket begun by the first trade of a process is right exactly if its load did not fail over a stored row. */
  lemma FailedLoadExactly(s: Sym, t: Trade, failed: set<Interval>, iv: Interval)
    requires Core(s) && s.data == map[] && NonNegative(s.history + [t]) && |s.history| + 1 < 0x8000_0000
    requires Good(s, WindowOf(iv, t)) && Contiguous(WindowOf(iv, t), s.history + [t])
    ensures var s', k := Step(s, Update(t, failed)), WindowOf(iv, t);
            && iv in s'.data && Traded(s'.history, k)
            && (Seal(s'.data[iv]) == WindowRow(k, s'.history) <==> !(iv in failed && k in s.db))
  {
    hide Align, Holds, Contiguous, WindowTrades, Core, WindowRow, NonNegative, Was, Merged;
    var s', k := Step(s, Update(t, failed)), WindowOf(iv, t);
    UpdatedAt(Found(s, t, failed), t, iv);
    UpdateCore(s, t, failed);
    assert (s.history + [t])[|s.history|] == t;
    assert s'.data != map[];
    OpenIsCurrent(s', iv);
    if iv in failed && k in s.db {
      StoredIsTraded(s, k);
      FirstCount(iv, t);
      After1(s.history, t, k);
      RowCount(k, s'.history);
      NoMoreThanAll(k, s'.history);
      SealCount(s'.data[iv]);
    }
  }

  lemma StoredIsTraded(s: Sym, k: Key)
    requires Core(s) && k in s.db && k !in s.tainted
    ensures Traded(s.history, k)
  {
    assert DbRowOk(s, k, s.db[k]);
  }

  lemma SealCount(r: Row)
    ensures Seal(r).count == r.count
  {
  }
}
