/** One symbol's way from trades to its table, as interleaved steps (internal/kline/aggregator.go), with the
    continuity checker as a second writer of the table (internal/kline/continuity.go).
    Symbols share no bucket, no buffer entry and no table, so each is a machine of its own. */
module Pipeline {
  import opened Intervals
  import opened Klines
  import opened Tables
  import opened Windows
  import opened Buckets
  import opened Backfill
  import opened Bags
  import opened Options

  /** Where the checkpoint goroutine is: waiting, past its drain, or past its snapshot of the symbol. */
  datatype Phase = Idle | Draining | Saving

  /** The state of a symbol. The last three fields only record what has happened, and nothing else depends on them: the
      trades in the order in which they took the bucket lock; the windows whose final row was dropped or overwritten
      by a shorter one; and the windows whose bucket was begun without some of their trades. */
  datatype Sym = Sym(
    data: Buckets,
    inflight: seq<seq<Row>>,
    buf: seq<Row>,
    phase: Phase,
    drained: seq<Row>,
    snap: seq<Row>,
    fill: Option<Row>,
    db: Table,
    history: seq<Trade>,
    lost: set<Key>,
    tainted: set<Key>)

  const START := Sym(map[], [], [], Idle, [], [], None, map[], [], {}, {})

  datatype Action =
    | Update(t: Trade, failed: set<Interval>)  // updateBuckets, under the bucket lock; some loads of a recovery fail
    | Append(i: nat, leader: bool)             // the end of some ProcessTrade, under the buffer lock
    | Drain                                    // checkpoint, step 1
    | Snapshot(order: seq<Interval>)           // checkpoint, step 2: the map is ranged over in any order
    | SaveDrained(ok: bool)                    // the parallel saves of step 3, in either order
    | SaveSnap(ok: bool)
    | Finish
    | Gather(k: Key, ks: seq<Key>)             // the checker has read stored minutes of a window, perhaps not all
    | Backfill(ok: bool)                       // and saves the row merged from them
    | Restart(order: seq<Interval>)            // Close with nothing running and no failing save, then a new process
    | Crash                                    // a new process without Close

  function Keys(rows: seq<Row>): set<Key> { set r | r in rows :: KeyOf(r) }

  // ---------------------------------------------------------------- windows over time

  predicate Traded(h: seq<Trade>, k: Key) { WindowTrades(k, h) != [] }

  /** The window of the latest trade. */
  predicate IsOpen(h: seq<Trade>, k: Key) { EndsIn(k, h) }

  predicate IsClosed(h: seq<Trade>, k: Key) { Traded(h, k) && !IsOpen(h, k) }

  function CurKey(h: seq<Trade>, iv: Interval): Key
    requires h != []
  {
    WindowOf(iv, h[|h| - 1])
  }

  /** Completed rows that the running checkpoint has not drained. */
  ghost predicate Late(s: Sym, r: Row) {
    r in s.buf || exists g :: g in s.inflight && r in g
  }

  /** Completed rows that are not saved yet. */
  ghost predicate Pend(s: Sym, r: Row) { r in s.drained || Late(s, r) }

  ghost predicate LateKey(s: Sym, k: Key) { exists r :: Late(s, r) && KeyOf(r) == k }

  ghost predicate PendKey(s: Sym, k: Key) { exists r :: Pend(s, r) && KeyOf(r) == k }

  /** The stored row is the fold of all trades of the window. */
  ghost predicate Exact(s: Sym, k: Key) {
    k in s.db && Traded(s.history, k) && s.db[k] == WindowRow(k, s.history)
  }

  // ---------------------------------------------------------------- steps

  ghost predicate Enabled(s: Sym, a: Action) {
    match a
    case Update(_, _) => true
    case Append(i, _) => i < |s.inflight|
    case Drain => s.phase == Idle
    // a symbol that is stored while the symbols are ranged over may be missed
    case Snapshot(order) => s.phase == Draining && (order == [] || Lists(order, s.data))
    case SaveDrained(_) => s.phase == Saving && s.drained != []
    case SaveSnap(_) => s.phase == Saving && s.snap != []
    case Finish => s.phase == Saving && s.drained == [] && s.snap == []
    case Gather(k, ks) => s.fill == None && Gathers(k, ks) && forall i :: 0 <= i < |ks| ==> ks[i] in s.db
    case Backfill(_) => s.fill.Some?
    case Restart(order) => s.phase == Idle && s.inflight == [] && Lists(order, s.data) && Storable(s.buf)
                           && forall iv :: iv in s.data ==> s.data[iv].count > 0
    case Crash => true
  }

  /** Some minutes of a window that can be rebuilt. */
  ghost predicate Gathers(k: Key, ks: seq<Key>) {
    && Target(k.interval) && k.start >= 0 && Align(k.interval, k.start) == k.start
    && ks != [] && Minutes(ks)
    && forall i :: 0 <= i < |ks| ==> k.start <= ks[i].start < k.start + k.interval.Width()
  }

  function Found(s: Sym, t: Trade, failed: set<Interval>): Buckets { FoundIn(s.data, s.db, t, failed) }

  /** The windows that begin again although a row was stored for them. */
  function Missed(s: Sym, t: Trade, failed: set<Interval>): set<Key> {
    if s.data != map[] then {} else set iv | iv in failed && WindowOf(iv, t) in s.db :: WindowOf(iv, t)
  }

  /** The completed rows that a crash takes with it. */
  function Unsaved(s: Sym): set<Key> {
    Keys(s.drained) + Keys(s.buf) + set g, r | g in s.inflight && r in g :: KeyOf(r)
  }

  /** The open windows of which a crash takes some trades with it. */
  ghost function Unfinished(s: Sym): set<Key> {
    if s.history == [] then {} else set iv | iv in ALL && !Exact(s, CurKey(s.history, iv)) :: CurKey(s.history, iv)
  }

  ghost function Step(s: Sym, a: Action): Sym
    requires Enabled(s, a)
  {
    match a
    case Update(t, failed) =>
      var done := Closed(Found(s, t, failed), t);
      s.(data := Updated(Found(s, t, failed), t), inflight := if done == [] then s.inflight else s.inflight + [done],
         history := s.history + [t], tainted := s.tainted + Missed(s, t, failed))
    case Append(i, leader) =>
      var rest := s.(inflight := Without(s.inflight, i));
      if leader then rest.(buf := s.buf + s.inflight[i]) else rest.(lost := s.lost + Keys(s.inflight[i]))
    case Drain => s.(phase := Draining, drained := s.buf, buf := [])
    case Snapshot(order) => s.(phase := Saving, snap := RowsAt(s.data, order))
    case SaveDrained(ok) =>
      s.(db := Saved(s.db, s.drained, ok), drained := [],
         lost := if ok && Storable(s.drained) then s.lost else s.lost + Keys(s.drained))
    case SaveSnap(ok) => s.(db := Saved(s.db, s.snap, ok), snap := [])
    case Finish => s.(phase := Idle)
    case Gather(k, ks) => s.(fill := Some(MergeRows(k.interval, k.start, RowsOf(s.db, ks))))
    case Backfill(ok) => Filled(s, s.fill.value, ok)
    case Restart(order) =>
      s.(db := SaveAll(SaveAll(s.db, s.buf), RowsAt(s.data, order)), buf := [], data := map[], fill := None)
    case Crash =>
      s.(data := map[], inflight := [], buf := [], phase := Idle, drained := [], snap := [], fill := None,
         lost := s.lost + Unsaved(s), tainted := s.tainted + Unfinished(s))
  }

  /** A save of a merged row. One that lacks trades does lasting harm if no completed row of the window is still to
      be written and no bucket of it is in memory, or if the window has no trades at all. */
  ghost function Filled(s: Sym, r: Row, ok: bool): Sym {
    var k := KeyOf(r);
    var after := s.(fill := None, db := Saved(s.db, [r], ok));
    if Exact(after, k) || after.db == s.db || PendKey(s, k) then after
    else if IsClosed(s.history, k) then after.(lost := s.lost + {k})
    else if s.data == map[] || !Traded(s.history, k) then after.(tainted := s.tainted + {k})
    else after
  }

  /** The steps of a run can be taken one after the other. */
  ghost predicate Possible(s: Sym, run: seq<Action>)
    decreases |run|
  {
    run == [] || (Enabled(s, run[0]) && Possible(Step(s, run[0]), run[1..]))
  }

  ghost function After(s: Sym, run: seq<Action>): Sym
    requires Possible(s, run)
    decreases |run|
  {
    if run == [] then s else After(Step(s, run[0]), run[1..])
  }

  lemma {:induction false} RunsConcat(s: Sym, a: seq<Action>, b: seq<Action>)
    requires Possible(s, a) && Possible(After(s, a), b)
    ensures Possible(s, a + b) && After(s, a + b) == After(After(s, a), b)
    decreases |a|
  {
    hide Step, Enabled;
    if a == [] {
      assert a + b == b;
    } else {
      assert (a + b)[0] == a[0] && (a + b)[1..] == a[1..] + b;
      RunsConcat(Step(s, a[0]), a[1..], b);
    }
  }

  /** A state that some run reaches. */
  ghost predicate Ran(s: Sym) { exists run :: Possible(START, run) && After(START, run) == s }

  lemma RanOn(s: Sym, run: seq<Action>)
    requires Ran(s) && Possible(s, run)
    ensures Ran(After(s, run))
  {
    hide Possible, After;
    var before :| Possible(START, before) && After(START, before) == s;
    RunsConcat(START, before, run);
    assert Possible(START, before + run);
  }

  // ---------------------------------------------------------------- one more trade

  lemma OpenTraded(h: seq<Trade>, k: Key)
    requires IsOpen(h, k)
    ensures Traded(h, k) && k == CurKey(h, k.interval)
  {
    HasTrade(k, h, |h| - 1);
  }

  lemma After1(h: seq<Trade>, t: Trade, k: Key)
    ensures IsOpen(h + [t], k) <==> InWindow(k, t)
    ensures WindowTrades(k, h + [t]) == if InWindow(k, t) then WindowTrades(k, h) + [t] else WindowTrades(k, h)
    ensures Contiguous(k, h + [t]) ==> Contiguous(k, h)
  {
    assert (h + [t])[|h|] == t;
    WindowSnoc(k, h, t);
    ContiguousSnoc(k, h, t);
  }

  /** A closed window whose trades come in one stretch gets no more trades. */
  lemma ClosedStays(h: seq<Trade>, t: Trade, k: Key)
    requires Contiguous(k, h + [t]) && IsClosed(h, k)
    ensures IsClosed(h + [t], k) && WindowTrades(k, h + [t]) == WindowTrades(k, h) && !InWindow(k, t)
  {
    hide InWindow, WindowTrades;
    After1(h, t, k);
    ContiguousSnoc(k, h, t);
  }

  // ---------------------------------------------------------------- rows of a window

  /** A row of a window that has seen the given trades; its average may be stale but not made up. */
  ghost predicate Holds(r: Row, k: Key, ts: seq<Trade>) {
    && ts != [] && r.(avg := 0) == FoldWindow(k.interval, k.start, ts)
    && (r.volume == 0 ==> r.avg == 0)
  }

  lemma HoldsKey(r: Row, k: Key, ts: seq<Trade>)
    requires Holds(r, k, ts)
    ensures KeyOf(r) == k
  {
    FoldKeepsKey(OpenRow(k.interval, k.start, ts[0].price), ts);
  }

  lemma HoldsSealed(r: Row, k: Key, ts: seq<Trade>)
    requires Holds(r, k, ts) && NonNegative(ts)
    ensures Seal(r) == Seal(FoldWindow(k.interval, k.start, ts))
  {
    FoldVolume(k, ts);
  }

  /** The volume of a window's row is never negative and its average is not yet made. */
  lemma FoldVolume(k: Key, ts: seq<Trade>)
    requires ts != [] && NonNegative(ts)
    ensures var f := FoldWindow(k.interval, k.start, ts); f.volume >= 0 && f.avg == 0
  {
    FoldKeepsKey(OpenRow(k.interval, k.start, ts[0].price), ts);
    FoldSums(OpenRow(k.interval, k.start, ts[0].price), ts);
  }

  lemma SealedHolds(k: Key, ts: seq<Trade>)
    requires ts != [] && NonNegative(ts)
    ensures Holds(Seal(FoldWindow(k.interval, k.start, ts)), k, ts)
  {
    FoldVolume(k, ts);
  }

  lemma HoldsNext(r: Row, k: Key, ts: seq<Trade>, t: Trade)
    requires Holds(r, k, ts) && NonNegative(ts) && t.quantity >= 0
    ensures Holds(Apply(r, t), k, ts + [t])
  {
    FoldVolume(k, ts);
    FoldSnoc(k.interval, k.start, ts, t);
    ApplyBare(r, t);
  }

  lemma ApplyBare(r: Row, t: Trade)
    ensures Apply(r, t).(avg := 0) == Apply(r.(avg := 0), t) && Apply(r, t).avg == r.avg
  {
  }

  lemma HoldsFirst(k: Key, t: Trade)
    ensures Holds(Apply(OpenRow(k.interval, k.start, t.price), t), k, [t])
  {
    FoldOne(OpenRow(k.interval, k.start, t.price), t);
  }
}
