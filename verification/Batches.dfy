/** The saves of one checkpoint commute: its batch has no key twice, in any reachable state. */
module Batches {
  import opened Intervals
  import opened Klines
  import opened Tables
  import opened Windows
  import opened Buckets
  import opened Bags
  import opened Pipeline
  import opened Refinement
  import opened Counts
  import opened Guarantees

  /** How many rows have a key. */
  function Count(rows: seq<Row>, k: Key): nat {
    if rows == [] then 0 else (if KeyOf(rows[0]) == k then 1 else 0) + Count(rows[1..], k)
  }

  function CountAll(groups: seq<seq<Row>>, k: Key): nat {
    if groups == [] then 0 else Count(groups[0], k) + CountAll(groups[1..], k)
  }

  lemma {:induction false} CountConcat(a: seq<Row>, b: seq<Row>, k: Key)
    ensures Count(a + b, k) == Count(a, k) + Count(b, k)
  {
    if a == [] {
      assert a + b == b;
    } else {
      assert (a + b)[1..] == a[1..] + b;
      CountConcat(a[1..], b, k);
    }
  }

  lemma {:induction false} CountAllConcat(a: seq<seq<Row>>, b: seq<seq<Row>>, k: Key)
    ensures CountAll(a + b, k) == CountAll(a, k) + CountAll(b, k)
  {
    if a == [] {
      assert a + b == b;
    } else {
      assert (a + b)[1..] == a[1..] + b;
      CountAllConcat(a[1..], b, k);
    }
  }

  lemma CountWithout(groups: seq<seq<Row>>, i: nat, k: Key)
    requires i < |groups|
    ensures CountAll(groups, k) == CountAll(Without(groups, i), k) + Count(groups[i], k)
  {
    var left, right := groups[..i], groups[i + 1..];
    assert groups == left + ([groups[i]] + right);
    CountAllConcat(left, [groups[i]] + right, k);
    CountAllConcat([groups[i]], right, k);
    CountAllConcat(left, right, k);
    CountAllOne(groups[i], k);
  }

  lemma CountAllOne(g: seq<Row>, k: Key)
    ensures CountAll([g], k) == Count(g, k)
  {
    assert [g][1..] == [];
  }

  lemma {:induction false} CountMember(rows: seq<Row>, k: Key)
    ensures Count(rows, k) > 0 <==> exists r :: r in rows && KeyOf(r) == k
  {
    if rows != [] {
      CountMember(rows[1..], k);
      assert forall r :: r in rows <==> r == rows[0] || r in rows[1..];
      assert rows[0] in rows;
    }
  }

  lemma {:induction false} CountAllMember(groups: seq<seq<Row>>, k: Key)
    ensures CountAll(groups, k) > 0 <==> exists g, r :: g in groups && r in g && KeyOf(r) == k
  {
    if groups != [] {
      CountMember(groups[0], k);
      CountAllMember(groups[1..], k);
      assert forall g :: g in groups <==> g == groups[0] || g in groups[1..];
      assert groups[0] in groups;
    }
  }

  /** How many unsaved completed rows have a key. */
  function PendCount(s: Sym, k: Key): nat {
    CountAll(s.inflight, k) + Count(s.buf, k) + Count(s.drained, k)
  }

  lemma PendCounted(s: Sym, k: Key)
    ensures PendCount(s, k) > 0 <==> PendKey(s, k)
  {
    CountAllMember(s.inflight, k);
    CountMember(s.buf, k);
    CountMember(s.drained, k);
    if CountAll(s.inflight, k) > 0 {
      var g, r :| g in s.inflight && r in g && KeyOf(r) == k;
      assert Pend(s, r);
    }
    if r :| r in s.buf && KeyOf(r) == k {
      assert Pend(s, r);
    }
    if r :| r in s.drained && KeyOf(r) == k {
      assert Pend(s, r);
    }
  }

  /** A window whose trades come in one stretch has at most one unsaved completed row. */
  ghost predicate OnceEach(s: Sym) { forall k :: Contiguous(k, s.history) ==> PendCount(s, k) <= 1 }

  /** A trade completes at most one row per interval. */
  lemma {:induction false} CompletedOnce(data: Buckets, t: Trade, i: nat, k: Key)
    requires i <= 7 && forall iv :: iv in data ==> data[iv].interval == iv
    ensures Count(ClosedTo(data, t, i), k) <= if Rank(k.interval) < i then 1 else 0
  {
    hide Align;
    if i > 0 {
      CompletedOnce(data, t, i - 1, k);
      NthRank(i - 1);
      var last := if Closes(data, Nth(i - 1), t) then [data[Nth(i - 1)]] else [];
      CountConcat(ClosedTo(data, t, i - 1), last, k);
      CountAtMostOne(last, k, Nth(i - 1));
    }
  }

  lemma CountAtMostOne(rows: seq<Row>, k: Key, iv: Interval)
    requires |rows| <= 1 && forall r :: r in rows ==> r.interval == iv
    ensures Count(rows, k) <= if k.interval == iv then 1 else 0
  {
    if rows != [] {
      assert rows[0] in rows && rows[1..] == [];
    }
  }

  lemma UpdateCount(s: Sym, t: Trade, failed: set<Interval>, k: Key)
    requires Core(s) && OnceEach(s) && Contiguous(k, s.history + [t])
    ensures PendCount(Step(s, Update(t, failed)), k) <= 1
  {
    hide Align, Holds, Core, Updated, PendKey, ClosedTo, Contiguous, Found;
    var done := Closed(Found(s, t, failed), t);
    After1(s.history, t, k);
    assert PendCount(s, k) <= 1;
    FoundPlaced(s, t, failed);
    CompletedOnce(Found(s, t, failed), t, 7, k);
    CountAllConcat(s.inflight, [done], k);
    CountAllOne(done, k);
    CountMember(done, k);
    PendCounted(s, k);
    if r :| r in done && KeyOf(r) == k {
      CompletedFinal(s, t, failed, r);
      OpenNotPending(s, k);
    }
  }

  lemma OnceStep(s: Sym, a: Action)
    requires Core(s) && OnceEach(s) && Enabled(s, a)
    ensures OnceEach(Step(s, a))
  {
    hide Align, Core, Updated, Closed, SaveAll, Count, CountAll, Contiguous, Exact, PendKey, Unsaved, Unfinished;
    var s' := Step(s, a);
    forall k | Contiguous(k, s'.history)
      ensures PendCount(s', k) <= 1
    {
      NoRows(k);
      match a
      case Update(t, failed) => UpdateCount(s, t, failed, k);
      case Append(i, leader) =>
        CountWithout(s.inflight, i, k);
        CountConcat(s.buf, s.inflight[i], k);
        assert PendCount(s, k) <= 1;
      case _ => assert PendCount(s, k) <= 1;
    }
  }

  lemma NoRows(k: Key)
    ensures Count([], k) == 0 && CountAll([], k) == 0
  {
  }

  lemma {:induction false} RunOnce(s: Sym, run: seq<Action>)
    requires Inv(s) && OnceEach(s) && Possible(s, run) && NonNegative(After(s, run).history)
    ensures OnceEach(After(s, run))
    decreases |run|
  {
    NonNegativeBefore(s, run);
    hide Core, OnceEach, Step, Enabled, NonNegative;
    if run != [] {
      StepInv(s, run[0]);
      OnceStep(s, run[0]);
      RunOnce(Step(s, run[0]), run[1..]);
    }
  }

  lemma StartOnce()
    ensures OnceEach(START)
  {
  }

  lemma ReachedOnce(run: seq<Action>, s: Sym)
    requires Reached(run, s)
    ensures Core(s) && OnceEach(s)
  {
    ReachedCore(run, s);
    StartInv();
    StartOnce();
    RunOnce(START, run);
  }

  lemma {:induction false} CountedDistinct(rows: seq<Row>)
    requires forall k :: Count(rows, k) <= 1
    ensures DistinctKeys(rows)
  {
    if rows != [] {
      forall k
        ensures Count(rows[1..], k) <= 1
      {
        assert Count(rows, k) <= 1;
      }
      CountedDistinct(rows[1..]);
      CountMember(rows[1..], KeyOf(rows[0]));
      assert Count(rows, KeyOf(rows[0])) <= 1;
      forall i, j | 0 <= i < j < |rows|
        ensures KeyOf(rows[i]) != KeyOf(rows[j])
      {
        assert rows[j] == rows[1..][j - 1] && rows[1..][j - 1] in rows[1..];
        assert i > 0 ==> rows[i] == rows[1..][i - 1];
      }
    }
  }

  lemma {:induction false} DistinctCount(rows: seq<Row>, k: Key)
    requires DistinctKeys(rows)
    ensures Count(rows, k) <= 1
  {
    if rows != [] {
      assert forall i :: 0 <= i < |rows| - 1 ==> rows[1..][i] == rows[i + 1];
      DistinctCount(rows[1..], k);
      CountMember(rows[1..], k);
    }
  }

  /** At most one kline of a checkpoint's batch has the key of a window whose trades come in one stretch, in any
      reachable state. */
  lemma BatchOnce(run: seq<Action>, s: Sym, k: Key)
    requires Reached(run, s) && Contiguous(k, s.history)
    ensures Count(s.drained + s.snap, k) <= 1
  {
    hide Reached, Contiguous;
    ReachedOnce(run, s);
    hide Align, Was, LateKey, Holds, HasKey;
    assert PendCount(s, k) <= 1;
    CountConcat(s.drained, s.snap, k);
    DistinctCount(s.snap, k);
    NotTwice(s, k);
  }

  lemma NotTwice(s: Sym, k: Key)
    requires Core(s) && Contiguous(k, s.history)
    ensures HasKey(s.snap, k) ==> !HasKey(s.drained, k)
    ensures Count(s.snap, k) == 0 || Count(s.drained, k) == 0
  {
    hide Align, Was, LateKey, Holds, Contiguous;
    CountMember(s.snap, k);
    CountMember(s.drained, k);
    if r :| r in s.snap && KeyOf(r) == k {
      assert SnapRowOk(s, r);
      if u :| u in s.drained && KeyOf(u) == k {
        HasKeyMember(s.drained, u);
      }
    }
  }

  /** So for trades in order of time no two of its klines share a primary key. */
  lemma BatchDistinct(run: seq<Action>, s: Sym)
    requires Reached(run, s) && Ordered(s.history)
    ensures DistinctKeys(s.drained + s.snap)
  {
    hide Reached, Contiguous;
    forall k
      ensures Count(s.drained + s.snap, k) <= 1
    {
      OrderedContiguous(k, s.history);
      BatchOnce(run, s, k);
    }
    CountedDistinct(s.drained + s.snap);
  }

  /** What a batch leaves under a key that it has does not depend on the table before. */
  lemma {:induction false} SaveDecides(db: Table, db': Table, rows: seq<Row>, k: Key)
    requires HasKey(rows, k)
    ensures k in SaveAll(db, rows) && k in SaveAll(db', rows) && SaveAll(db, rows)[k] == SaveAll(db', rows)[k]
    decreases |rows|
  {
    var next, next' := db[KeyOf(rows[0]) := Seal(rows[0])], db'[KeyOf(rows[0]) := Seal(rows[0])];
    if HasKey(rows[1..], k) {
      SaveDecides(next, next', rows[1..], k);
    } else {
      assert forall i :: 0 < i < |rows| ==> rows[i] == rows[1..][i - 1];
      SaveElsewhere(next, rows[1..], k);
      SaveElsewhere(next', rows[1..], k);
    }
  }

  /** Under a key that only one of two batches has, they may be saved in either order. */
  lemma SavesCommute(db: Table, a: seq<Row>, b: seq<Row>, k: Key)
    requires !HasKey(a, k) || !HasKey(b, k)
    ensures var x, y := SaveAll(SaveAll(db, a), b), SaveAll(SaveAll(db, b), a);
            (k in x <==> k in y) && (k in x ==> x[k] == y[k])
  {
    hide SaveAll, HasKey;
    if HasKey(a, k) {
      SaveElsewhere(SaveAll(db, a), b, k);
      SaveDecides(db, SaveAll(db, b), a, k);
    } else {
      SaveElsewhere(SaveAll(db, b), a, k);
      if HasKey(b, k) {
        SaveDecides(SaveAll(db, a), db, b, k);
      } else {
        SaveElsewhere(db, a, k);
        SaveElsewhere(db, b, k);
        SaveElsewhere(SaveAll(db, a), b, k);
      }
    }
  }

  /** The parallel saves of a checkpoint, whichever of them succeed, leave the same row in either order for every
      window whose trades come in one stretch, in any reachable state. */
  lemma SaveOrderIrrelevant(run: seq<Action>, s: Sym, ok: bool, ok': bool, k: Key)
    requires Reached(run, s) && Contiguous(k, s.history)
    ensures var x := Saved(Saved(s.db, s.drained, ok), s.snap, ok');
            var y := Saved(Saved(s.db, s.snap, ok'), s.drained, ok);
            (k in x <==> k in y) && (k in x ==> x[k] == y[k])
  {
    hide SaveAll, Reached, Storable, Contiguous, HasKey, Count;
    ReachedOnce(run, s);
    NotTwice(s, k);
    SavesCommute(s.db, s.drained, s.snap, k);
  }

  /** For trades in order of time they leave the same table. */
  lemma SameTable(run: seq<Action>, s: Sym, ok: bool, ok': bool)
    requires Reached(run, s) && Ordered(s.history)
    ensures Saved(Saved(s.db, s.drained, ok), s.snap, ok') == Saved(Saved(s.db, s.snap, ok'), s.drained, ok)
  {
    hide Saved, Reached, Contiguous;
    forall k
      ensures var x := Saved(Saved(s.db, s.drained, ok), s.snap, ok');
              var y := Saved(Saved(s.db, s.snap, ok'), s.drained, ok);
              (k in x <==> k in y) && (k in x ==> x[k] == y[k])
    {
      OrderedContiguous(k, s.history);
      SaveOrderIrrelevant(run, s, ok, ok', k);
    }
  }

  lemma {:induction false} SaveConcat(db: Table, a: seq<Row>, b: seq<Row>)
    ensures SaveAll(db, a + b) == SaveAll(SaveAll(db, a), b)
    decreases |a|
  {
    if a == [] {
      assert a + b == b;
    } else {
      assert (a + b)[1..] == a[1..] + b;
      SaveConcat(db[KeyOf(a[0]) := Seal(a[0])], a[1..], b);
    }
  }

  /** Two calls of ProcessTrade whose completed rows are ready may append them in either order; a batch saved after it
      leaves the same row for every window whose trades come in one stretch. */
  lemma AppendsCommute(run: seq<Action>, s: Sym, i: nat, j: nat, k: Key)
    requires Reached(run, s) && Contiguous(k, s.history) && i < j < |s.inflight|
    ensures Possible(s, [Append(i, true), Append(j - 1, true)]) && Possible(s, [Append(j, true), Append(i, true)])
    ensures var b, b' := s.buf + s.inflight[i] + s.inflight[j], s.buf + s.inflight[j] + s.inflight[i];
            && After(s, [Append(i, true), Append(j - 1, true)]).buf == b
            && After(s, [Append(j, true), Append(i, true)]).buf == b'
            && (k in SaveAll(s.db, b) <==> k in SaveAll(s.db, b'))
            && (k in SaveAll(s.db, b) ==> SaveAll(s.db, b)[k] == SaveAll(s.db, b')[k])
  {
    hide Reached, Contiguous, Count, CountAll;
    ReachedOnce(run, s);
    TwoSteps(s, Append(i, true), Append(j - 1, true));
    TwoSteps(s, Append(j, true), Append(i, true));
    var a, b, db := s.inflight[i], s.inflight[j], SaveAll(s.db, s.buf);
    assert PendCount(s, k) <= 1;
    CountWithout(s.inflight, i, k);
    CountWithout(Without(s.inflight, i), j - 1, k);
    OnlyOne(a, b, k);
    SaveConcat(s.db, s.buf + a, b);
    SaveConcat(s.db, s.buf, a);
    SaveConcat(s.db, s.buf + b, a);
    SaveConcat(s.db, s.buf, b);
    SavesCommute(db, a, b, k);
  }

  lemma KeyCounted(rows: seq<Row>, k: Key)
    requires HasKey(rows, k)
    ensures Count(rows, k) > 0
  {
    CountMember(rows, k);
    var i :| 0 <= i < |rows| && KeyOf(rows[i]) == k;
    assert rows[i] in rows;
  }

  lemma OnlyOne(a: seq<Row>, b: seq<Row>, k: Key)
    requires Count(a, k) + Count(b, k) <= 1
    ensures !HasKey(a, k) || !HasKey(b, k)
  {
    if HasKey(a, k) {
      KeyCounted(a, k);
    }
    if HasKey(b, k) {
      KeyCounted(b, k);
    }
  }

  lemma TwoSteps(s: Sym, a: Action, b: Action)
    requires Enabled(s, a) && Enabled(Step(s, a), b)
    ensures Possible(s, [a, b]) && After(s, [a, b]) == Step(Step(s, a), b)
  {
    hide Step, Enabled;
    assert [a][1..] == [] && [b][1..] == [];
    RunsConcat(s, [a], [b]);
    assert [a] + [b] == [a, b];
  }
}
