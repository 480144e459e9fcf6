/** The continuity checker: scanning recent windows backward and rebuilding the missing ones
    (internal/kline/continuity.go). */
module Continuity {
  import opened Int64
  import opened Calendar
  import opened Intervals
  import opened Klines
  import opened Tables
  import opened Windows
  import opened Backfill

  const MINUTE_QUERY_LIMIT := 1000

  // ---------------------------------------------------------------- the backward scan

  /** The start of the window visited in step `i`. Near the epoch the truncating aligner stays at zero. */
  function Visited(iv: Interval, now: nat, i: nat): int
    requires Target(iv)
  {
    var s := Align(iv, now) - i * iv.Width();
    if s >= 0 then s else 0
  }

  lemma MultipleSteps(w: int, q: int, i: nat)
    requires w > 0
    ensures (q - i) * w == q * w - i * w && (i + 1) * w == i * w + w
    ensures q * w - i * w >= 0 ==> q >= i
    ensures q * w - i * w < 0 ==> q * w - i * w <= -w
  {
    if q >= i {
      MulMonotone(0, q - i, w);
    } else {
      MulMonotone(q - i, -1, w);
    }
  }

  /** Every visited start is aligned, and one millisecond before it lies in the next visited window. */
  lemma VisitedAligned(iv: Interval, now: nat, i: nat)
    requires Target(iv)
    ensures var v := Visited(iv, now, i);
            v >= 0 && Align(iv, v) == v && Align(iv, v - 1) == Visited(iv, now, i + 1)
  {
    hide AlignN;
    var w := iv.Width();
    FixedAlign(w, now);
    var q := now / w;
    MultipleSteps(w, q, i);
    MultipleSteps(w, q, i + 1);
    var v := Visited(iv, now, i);
    if q * w - i * w >= 0 {
      ModOfProduct(q - i, w);
      FixedWindow(w, v, v);
      if v >= w {
        ModOfProduct(q - (i + 1), w);
        FixedWindow(w, v - w, v - 1);
      } else {
        BeforeEpoch(w);
      }
    } else {
      FixedWindow(w, 0, 0);
      BeforeEpoch(w);
    }
  }

  /** The aligner truncates toward zero, so the millisecond before the epoch aligns to the epoch. */
  lemma BeforeEpoch(w: int)
    requires w > 1
    ensures AlignN(w, -1) == 0
  {
  }

  /** The scan visits different windows, each directly before the last one, exactly when that many
      windows fit after the epoch. */
  lemma ScanIsConsecutive(iv: Interval, now: nat, n: nat)
    requires Target(iv) && n >= 1
    ensures (forall i: nat, j: nat :: i < j < n ==> Visited(iv, now, i) != Visited(iv, now, j))
            <==> Align(iv, now) >= (n - 1) * iv.Width()
    ensures Visited(iv, now, 0) == Align(iv, now)
    ensures Align(iv, now) >= (n - 1) * iv.Width() ==>
              forall i: nat :: i + 1 < n ==> Visited(iv, now, i + 1) + iv.Width() == Visited(iv, now, i)
  {
    var w, a := iv.Width(), Align(iv, now);
    FixedAlign(w, now);
    if a >= (n - 1) * w {
      forall i: nat | i < n
        ensures Visited(iv, now, i) == a - i * w
      {
        MulMonotone(i, n - 1, w);
      }
      forall i: nat, j: nat | i < j < n
        ensures Visited(iv, now, i) != Visited(iv, now, j)
      {
        MulMonotone(i + 1, j, w);
        assert (i + 1) * w == i * w + w;
      }
      forall i: nat | i + 1 < n
        ensures Visited(iv, now, i + 1) + w == Visited(iv, now, i)
      {
        assert (i + 1) * w == i * w + w;
      }
    } else {
      ScanRepeats(iv, now, n);
    }
  }

  lemma ScanRepeats(iv: Interval, now: nat, n: nat)
    requires Target(iv) && n >= 1 && Align(iv, now) < (n - 1) * iv.Width()
    ensures exists i: nat, j: nat :: i < j < n && Visited(iv, now, i) == Visited(iv, now, j)
  {
    var w := iv.Width();
    FixedAlign(w, now);
    var q := now / w;
    if q >= n - 1 {
      MulMonotone(n - 1, q, w);
    }
    assert q < n - 1;
    assert (q + 1) * w == q * w + w;
    assert Visited(iv, now, q) == 0 && Visited(iv, now, q + 1) == 0;
  }

  /** The starts that the scan reports missing, in the order visited. */
  function Missing(iv: Interval, now: nat, existing: set<Key>, i: nat, n: nat): seq<int>
    requires Target(iv) && i <= n
    decreases n - i
  {
    if i == n then []
    else
      var v := Visited(iv, now, i);
      (if Key(iv, v) in existing then [] else [v]) + Missing(iv, now, existing, i + 1, n)
  }

  lemma VisitedFirst(iv: Interval, now: nat)
    requires Target(iv)
    ensures Visited(iv, now, 0) == Align(iv, now)
  {
    FixedAlign(iv.Width(), now);
  }

  method Scan(iv: Interval, now: nat, existing: set<Key>, checkWindow: nat) returns (missing: seq<int>)
    requires Target(iv)
    ensures missing == Missing(iv, now, existing, 0, checkWindow)
  {
    hide Align, Visited, Missing;
    missing := [];
    var t: Time := now;
    var checked := 0;
    VisitedFirst(iv, now);
    assert [] + Missing(iv, now, existing, 0, checkWindow) == Missing(iv, now, existing, 0, checkWindow);
    while checked < checkWindow
      invariant checked <= checkWindow && t >= MIN_TIME && Align(iv, t) == Visited(iv, now, checked)
      invariant missing + Missing(iv, now, existing, checked, checkWindow) == Missing(iv, now, existing, 0, checkWindow)
    {
      var startMs := Align(iv, t);
      VisitedAligned(iv, now, checked);
      MissingNext(iv, now, existing, checked, checkWindow, missing);
      if Key(iv, startMs) !in existing {
        missing := missing + [startMs];
      }
      t := startMs - 1;
      checked := checked + 1;
    }
    MissingEnd(iv, now, existing, checkWindow, missing);
  }

  lemma MissingNext(iv: Interval, now: nat, existing: set<Key>, i: nat, n: nat, missing: seq<int>)
    requires Target(iv) && i < n
    ensures var v := Visited(iv, now, i);
            missing + Missing(iv, now, existing, i, n) ==
            (if Key(iv, v) in existing then missing else missing + [v]) + Missing(iv, now, existing, i + 1, n)
  {
    hide Visited;
    Regroup(missing, Visited(iv, now, i), Missing(iv, now, existing, i + 1, n));
  }

  lemma Regroup(a: seq<int>, v: int, b: seq<int>)
    ensures a + ([v] + b) == (a + [v]) + b && a + ([] + b) == a + b
  {
  }

  lemma MissingEnd(iv: Interval, now: nat, existing: set<Key>, n: nat, missing: seq<int>)
    requires Target(iv)
    ensures missing + Missing(iv, now, existing, n, n) == missing
  {
  }

  lemma {:induction false} MissingExact(iv: Interval, now: nat, existing: set<Key>, i: nat, n: nat, x: int)
    requires Target(iv) && i <= n
    ensures x in Missing(iv, now, existing, i, n) <==>
            Key(iv, x) !in existing && exists j: nat :: i <= j < n && Visited(iv, now, j) == x
    decreases n - i
  {
    if i < n {
      MissingExact(iv, now, existing, i + 1, n, x);
    }
  }

  // ---------------------------------------------------------------- backfilling

  /** Every minute of a window that has trades has its row. */
  ghost predicate MinutesStored(db: Table, h: seq<Trade>, k: Key) {
    forall t :: t in h && WindowOf(k.interval, t) == k ==> WindowOf(Minute1, t) in db
  }

  lemma StillStored(before: Table, db: Table, h: seq<Trade>, k: Key)
    requires MinutesStored(before, h, k) && forall m :: m in before ==> m in db
    ensures MinutesStored(db, h, k)
  {
  }

  lemma {:induction false} MinutesSpread(ks: seq<Key>, from: int, i: nat)
    requires AscendingKeys(ks) && i < |ks|
    requires forall j :: 0 <= j < |ks| ==> ks[j].start >= from && ks[j].start % 60_000 == from % 60_000
    ensures ks[i].start >= from + 60_000 * i
  {
    if i > 0 {
      MinutesSpread(ks, from, i - 1);
    }
  }

  /** A window of at most an hour holds at most sixty minute rows, so the query limit never cuts the answer. */
  lemma FewMinutes(db: Table, h: seq<Trade>, iv: Interval, ws: int)
    requires Reflects(db, h) && Target(iv) && ws >= 0 && ws % 60_000 == 0
    ensures |KeysIn(db, Minute1, ws, ws + iv.Width())| <= 60
  {
    var s := KeysIn(db, Minute1, ws, ws + iv.Width());
    AscendingFacts(Minute1, s);
    var ks := Ascending(s);
    forall j | 0 <= j < |ks|
      ensures ks[j].start >= ws && ks[j].start % 60_000 == ws % 60_000
    {
      assert ks[j] in s;
      WindowIsAligned(ks[j], h);
      var t :| t in h && WindowOf(Minute1, t) == ks[j];
      FixedTiling(Minute1, t.timestamp);
    }
    if |ks| > 60 {
      var k := ks[60];
      assert k in s;
      MinutesSpread(ks, ws, 60);
    }
  }

  lemma MinuteStored(db: Table, h: seq<Trade>, k: Key, t: Trade)
    requires MinutesStored(db, h, k) && t in h && WindowOf(k.interval, t) == k
    ensures WindowOf(Minute1, t) in db
  {
  }

  /** The minutes selected for a window are those of its trades. */
  lemma SelectedMinutes(db: Table, h: seq<Trade>, iv: Interval, ws: int, t: Trade)
    requires Reflects(db, h) && MinutesStored(db, h, Key(iv, ws)) && t in h
    requires Target(iv) && ws >= 0 && Align(iv, ws) == ws
    ensures var ks := Select(db, Minute1, ws, ws + iv.Width(), MINUTE_QUERY_LIMIT);
            WindowOf(Minute1, t) in ks <==> WindowOf(iv, t) == Key(iv, ws)
  {
    hide Align, Select, Reflects, MinutesStored, Target;
    MinuteInWindow(iv, ws, t);
    if WindowOf(iv, t) == Key(iv, ws) {
      MinuteStored(db, h, Key(iv, ws), t);
    }
    AlignedToMinute(iv, ws);
    FewMinutes(db, h, iv, ws);
    SelectFacts(db, Minute1, ws, ws + iv.Width(), MINUTE_QUERY_LIMIT);
  }

  /** What the rows selected for a window say about it: none when it has no trades, and otherwise
      rows that merge to its own row. */
  lemma SelectedRows(db: Table, h: seq<Trade>, iv: Interval, ws: int, ks: seq<Key>, rows: seq<Row>)
    requires Reflects(db, h) && MinutesStored(db, h, Key(iv, ws)) && Ordered(h) && NonNegative(h)
    requires Target(iv) && ws >= 0 && Align(iv, ws) == ws
    requires ks == Select(db, Minute1, ws, ws + iv.Width(), MINUTE_QUERY_LIMIT)
    requires |rows| == |ks| && forall i :: 0 <= i < |ks| ==> ks[i] in db && rows[i] == db[ks[i]]
    ensures var k := Key(iv, ws);
            if rows == [] then WindowTrades(k, h) == []
            else WindowTrades(k, h) != [] && MergeRows(iv, ws, rows) == WindowRow(k, h)
  {
    hide Align, Select, MergeRows, WindowRow, WindowTrades;
    var k := Key(iv, ws);
    forall t | t in h
      ensures WindowOf(Minute1, t) in ks <==> WindowOf(iv, t) == k
    {
      SelectedMinutes(db, h, iv, ws, t);
    }
    SelectFacts(db, Minute1, ws, ws + iv.Width(), MINUTE_QUERY_LIMIT);
    if rows == [] {
      NoTradesNoMinutes(k, h);
    } else {
      MergeEqualsFold(k, ks, h, rows);
    }
  }

  /** The table with the row of one window put right. */
  function WithWindow(db: Table, k: Key, h: seq<Trade>): Table {
    if WindowTrades(k, h) == [] then db else db[k := WindowRow(k, h)]
  }

  /** The row of the window can be stored: its count has not wrapped below zero. */
  predicate Fits(k: Key, h: seq<Trade>) { WindowTrades(k, h) == [] || WindowRow(k, h).count >= 0 }

  lemma FewFit(k: Key, h: seq<Trade>)
    requires |h| < 0x8000_0000
    ensures Fits(k, h)
  {
    hide WindowRow, WindowTrades;
    NoMoreThanAll(k, h);
    if WindowTrades(k, h) != [] {
      RowCount(k, h);
    }
  }

  lemma SavedWindow(db: Table, k: Key, h: seq<Trade>)
    requires WindowTrades(k, h) != []
    ensures Storable([WindowRow(k, h)]) <==> Fits(k, h)
    ensures SaveAll(db, [WindowRow(k, h)]) == WithWindow(db, k, h)
  {
    assert [WindowRow(k, h)][0] == WindowRow(k, h);
    SaveOne(db, WindowRow(k, h));
    RowKeepsKey(k, h);
    SealTwice(FoldWindow(k.interval, k.start, WindowTrades(k, h)));
  }

  /** How far a check has come after `m` of the missing windows. */
  ghost predicate Progress(before: Table, db: Table, h: seq<Trade>, iv: Interval, missing: seq<int>, m: nat) {
    && m <= |missing| && Reflects(db, h)
    && (forall k :: k in before ==> k in db && db[k] == before[k])
    && (forall k :: k in db && k !in before ==> k.interval == iv && k.start in missing)
    && (forall j :: 0 <= j < m ==> WindowTrades(Key(iv, missing[j]), h) != [] ==> Key(iv, missing[j]) in db)
  }

  lemma ProgressStep(before: Table, db: Table, h: seq<Trade>, iv: Interval, missing: seq<int>, m: nat)
    requires Reflects(before, h) && m < |missing| && Progress(before, db, h, iv, missing, m)
    ensures Progress(before, WithWindow(db, Key(iv, missing[m]), h), h, iv, missing, m + 1)
  {
    hide WindowRow, WindowTrades;
    assert missing[m] in missing;
  }

  /** No stored row is changed, rows appear only for visited windows, and all rows still reflect the history. */
  ghost predicate Grown(before: Table, db: Table, h: seq<Trade>, iv: Interval, now: nat, n: nat)
    requires Target(iv)
  {
    && Reflects(db, h)
    && (forall k :: k in before ==> k in db && db[k] == before[k])
    && (forall k :: k in db && k !in before ==>
          k.interval == iv && exists i: nat :: i < n && k.start == Visited(iv, now, i))
  }

  /** Besides, every visited window with trades has its row. */
  ghost predicate Repaired(before: Table, db: Table, h: seq<Trade>, iv: Interval, now: nat, n: nat)
    requires Target(iv)
  {
    Grown(before, db, h, iv, now, n) && forall i: nat :: i < n ==>
      WindowTrades(Key(iv, Visited(iv, now, i)), h) != [] ==> Key(iv, Visited(iv, now, i)) in db
  }

  lemma ProgressGrown(before: Table, db: Table, h: seq<Trade>, iv: Interval, now: nat, n: nat,
                      existing: set<Key>, missing: seq<int>, m: nat)
    requires Target(iv) && missing == Missing(iv, now, existing, 0, n) && Progress(before, db, h, iv, missing, m)
    ensures Grown(before, db, h, iv, now, n)
  {
    forall k | k in db && k !in before
      ensures exists i: nat :: i < n && k.start == Visited(iv, now, i)
    {
      MissingExact(iv, now, existing, 0, n, k.start);
    }
  }

  lemma ProgressEnd(before: Table, db: Table, h: seq<Trade>, iv: Interval, now: nat, n: nat,
                    existing: set<Key>, missing: seq<int>)
    requires Target(iv) && missing == Missing(iv, now, existing, 0, n) && existing <= before.Keys
    requires Progress(before, db, h, iv, missing, |missing|)
    ensures Repaired(before, db, h, iv, now, n)
  {
    ProgressGrown(before, db, h, iv, now, n, existing, missing, |missing|);
    forall i: nat | i < n
      ensures WindowTrades(Key(iv, Visited(iv, now, i)), h) != [] ==> Key(iv, Visited(iv, now, i)) in db
    {
      var k := Key(iv, Visited(iv, now, i));
      MissingExact(iv, now, existing, 0, n, k.start);
      if k !in existing {
        var j :| 0 <= j < |missing| && missing[j] == k.start;
      } else {
        assert k in before;
      }
    }
  }

  class ContinuityChecker {
    var db: Table
    const checkWindow: nat

    constructor (rows: Table, window: nat)
      ensures db == rows && checkWindow == window
    {
      db, checkWindow := rows, window;
    }

    /** One missing window. It gets its correct row when the window has trades; otherwise nothing is written. */
    method BackfillWindow(iv: Interval, ws: int, ghost h: seq<Trade>) returns (ok: bool)
      requires Reflects(db, h) && MinutesStored(db, h, Key(iv, ws)) && Ordered(h) && NonNegative(h)
      requires Target(iv) && ws >= 0 && Align(iv, ws) == ws
      modifies this
      ensures ok <==> Fits(Key(iv, ws), h)
      ensures db == if ok then WithWindow(old(db), Key(iv, ws), h) else old(db)
    {
      var winEnd := ws + IntervalMs(iv, ws);
      assert winEnd == ws + iv.Width();
      hide Align, Select, MergeRows, WindowRow, WindowTrades, SaveAll, Reflects, MinutesStored, Storable;
      var rows;
      ghost var ks;
      rows, ks := Query(db, Minute1, ws, winEnd, MINUTE_QUERY_LIMIT);
      SelectedRows(db, h, iv, ws, ks, rows);
      if |rows| == 0 {
        return true;
      }
      var merged := MergeOneMKlines(rows, iv, ws);
      SavedWindow(db, Key(iv, ws), h);
      ok := Storable([merged.value]);
      db := Saved(db, [merged.value], true);
    }

    /** Rebuilds the missing windows; the first save that is refused ends the check. */
    method CheckAndBackfill(iv: Interval, now: nat, ghost h: seq<Trade>) returns (ok: bool)
      requires Reflects(db, h) && Ordered(h) && NonNegative(h) && Target(iv)
      requires forall i: nat :: i < checkWindow ==> MinutesStored(db, h, Key(iv, Visited(iv, now, i)))
      modifies this
      ensures Grown(old(db), db, h, iv, now, checkWindow) && (ok ==> Repaired(old(db), db, h, iv, now, checkWindow))
      ensures |h| < 0x8000_0000 ==> ok
    {
      hide MinutesStored, Fits, Align, Reflects, WindowTrades, WindowRow, Progress, Grown, Missing, Visited;
      var found;
      ghost var ks;
      found, ks := Query(db, iv, 0, now, checkWindow * 2);
      var existing := set i | 0 <= i < |found| :: KeyOf(found[i]);
      FoundKeys(db, h, ks, found);
      var missing := Scan(iv, now, existing, checkWindow);
      NoProgress(db, h, iv, missing);
      for m := 0 to |missing|
        invariant Progress(old(db), db, h, iv, missing, m)
      {
        var ws := missing[m];
        MissingStart(iv, now, existing, checkWindow, missing, m);
        ProgressStores(old(db), db, h, iv, missing, m);
        ProgressStep(old(db), db, h, iv, missing, m);
        var saved := BackfillWindow(iv, ws, h);
        if !saved {
          if |h| < 0x8000_0000 {
            FewFit(Key(iv, ws), h);
          }
          ProgressGrown(old(db), db, h, iv, now, checkWindow, existing, missing, m);
          return false;
        }
      }
      ProgressEnd(old(db), db, h, iv, now, checkWindow, existing, missing);
      ProgressGrown(old(db), db, h, iv, now, checkWindow, existing, missing, |missing|);
      ok := true;
    }
  }

  lemma FoundKeys(db: Table, h: seq<Trade>, ks: seq<Key>, found: seq<Row>)
    requires Reflects(db, h) && |found| == |ks| && forall i :: 0 <= i < |ks| ==> ks[i] in db && found[i] == db[ks[i]]
    ensures (set i | 0 <= i < |found| :: KeyOf(found[i])) <= db.Keys
  {
    forall i | 0 <= i < |found|
      ensures KeyOf(found[i]) in db
    {
      RowKeepsKey(ks[i], h);
    }
  }

  lemma NoProgress(db: Table, h: seq<Trade>, iv: Interval, missing: seq<int>)
    requires Reflects(db, h)
    ensures Progress(db, db, h, iv, missing, 0)
  {
  }

  lemma ProgressStores(before: Table, db: Table, h: seq<Trade>, iv: Interval, missing: seq<int>, m: nat)
    requires Progress(before, db, h, iv, missing, m)
    ensures Reflects(db, h) && forall k :: MinutesStored(before, h, k) ==> MinutesStored(db, h, k)
  {
    forall k | MinutesStored(before, h, k)
      ensures MinutesStored(db, h, k)
    {
      StillStored(before, db, h, k);
    }
  }

  lemma MissingStart(iv: Interval, now: nat, existing: set<Key>, n: nat, missing: seq<int>, m: nat)
    requires Target(iv) && missing == Missing(iv, now, existing, 0, n) && m < |missing|
    ensures missing[m] >= 0 && Align(iv, missing[m]) == missing[m]
    ensures exists i: nat :: i < n && missing[m] == Visited(iv, now, i)
  {
    MissingExact(iv, now, existing, 0, n, missing[m]);
    var i: nat :| i < n && Visited(iv, now, i) == missing[m];
    VisitedAligned(iv, now, i);
  }

  lemma NoTradesNoMinutes(k: Key, h: seq<Trade>)
    requires forall t :: t in h ==> WindowOf(k.interval, t) != k
    ensures WindowTrades(k, h) == []
  {
    if WindowTrades(k, h) != [] {
      WindowIsAligned(k, h);
    }
  }

  lemma SaveOne(db: Table, r: Row)
    ensures SaveAll(db, [r]) == db[KeyOf(r) := Seal(r)]
  {
    assert [r][1..] == [];
  }

  /** The kinds that are rebuilt are those of fixed length above the minute, of which the minutes are parts. */
  lemma RebuiltKinds(iv: Interval)
    ensures Target(iv) <==> iv != Minute1 && iv.Width() > 0 && iv.Width() < DAY
    ensures Target(iv) <==> iv.Name() in {"10m", "30m", "1h"}
  {
    var c := iv.Name()[1];
    assert c == "10m"[1] == "30m"[1] || c == "1h"[1] || c == "1m"[1] || c == "1w"[1] || c == "1y"[1];
  }
}
