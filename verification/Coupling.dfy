/** One cache key and its table while calls overlap (internal/repository/kline_repo.go): a save commits its rows and
    puts them into the cache some time later, and so does a query with the rows that it has read. */
module Coupling {
  import opened Intervals
  import opened Klines
  import opened Tables
  import opened Cache
  import opened Bags
  import opened Repository

  /** A row, the time of the commit that wrote it, and the time at which a call took it: when it was committed
      or when it was read. */
  datatype Version = Version(row: Row, at: nat, got: nat)

  /** `waiting` is what calls have taken and not yet put; `said` records what the last put said of each key. */
  datatype State = State(
    iv: Interval,
    maxItems: nat,
    db: map<Key, Version>,
    waiting: seq<seq<Version>>,
    cache: seq<Row>,
    said: map<Key, Version>,
    time: nat)

  datatype Action =
    | Commit(rows: seq<Row>)   // a transaction with rows of the interval
    | Read(ks: seq<Key>)       // the rows that a query finds
    | Put(i: nat)              // a call puts what it has taken
    | Expire

  function Start(iv: Interval, maxItems: nat): State { State(iv, maxItems, map[], [], [], map[], 0) }

  ghost predicate Enabled(s: State, a: Action) {
    match a
    case Commit(rows) => OfInterval(s.iv, rows)
    case Read(ks) => forall i :: 0 <= i < |ks| ==> ks[i] in s.db
    case Put(i) => i < |s.waiting|
    case Expire => true
  }

  function KeyOfVersion(v: Version): Key { KeyOf(v.row) }

  /** A map with versions entered one after the other. */
  function Latest(m: map<Key, Version>, vs: seq<Version>): map<Key, Version>
    decreases |vs|
  {
    if vs == [] then m else Latest(m[KeyOfVersion(vs[0]) := vs[0]], vs[1..])
  }

  function Committed(rows: seq<Row>, time: nat): seq<Version> {
    seq(|rows|, i requires 0 <= i < |rows| => Version(Seal(rows[i]), time, time))
  }

  function Taken(db: map<Key, Version>, ks: seq<Key>, time: nat): seq<Version>
    requires forall i :: 0 <= i < |ks| ==> ks[i] in db
  {
    seq(|ks|, i requires 0 <= i < |ks| => Version(Persisted(db[ks[i]].row), db[ks[i]].at, time))
  }

  function RowsIn(vs: seq<Version>): seq<Row> { if vs == [] then [] else [vs[0].row] + RowsIn(vs[1..]) }

  ghost function Step(s: State, a: Action): State
    requires Enabled(s, a)
  {
    match a
    case Commit(rows) =>
      var vs := Committed(rows, s.time);
      s.(db := Latest(s.db, vs), waiting := s.waiting + [vs], time := s.time + 1)
    case Read(ks) => s.(waiting := s.waiting + [Taken(s.db, ks, s.time)], time := s.time + 1)
    case Put(i) =>
      s.(cache := PutAll(s.cache, RowsIn(s.waiting[i]), s.maxItems), said := Latest(s.said, s.waiting[i]),
         waiting := Without(s.waiting, i), time := s.time + 1)
    case Expire => s.(cache := [], time := s.time + 1)
  }

  ghost predicate Possible(s: State, run: seq<Action>)
    decreases |run|
  {
    run == [] || (Enabled(s, run[0]) && Possible(Step(s, run[0]), run[1..]))
  }

  ghost function After(s: State, run: seq<Action>): State
    requires Possible(s, run)
    decreases |run|
  {
    if run == [] then s else After(Step(s, run[0]), run[1..])
  }

  // ---------------------------------------------------------------- the last version of each key

  ghost predicate HasVersion(vs: seq<Version>, k: Key) { exists i :: 0 <= i < |vs| && KeyOfVersion(vs[i]) == k }

  /** Under a key that a list has, what was there before does not matter. */
  lemma {:induction false} LatestAt(m: map<Key, Version>, vs: seq<Version>, k: Key)
    ensures if HasVersion(vs, k)
            then k in Latest(m, vs) && k in Latest(map[], vs) && Latest(m, vs)[k] == Latest(map[], vs)[k]
                 && Latest(m, vs)[k] in vs && KeyOfVersion(Latest(m, vs)[k]) == k
            else (k in Latest(m, vs) <==> k in m) && (k in m ==> Latest(m, vs)[k] == m[k]) && k !in Latest(map[], vs)
    decreases |vs|
  {
    if vs != [] {
      var rest, first := vs[1..], KeyOfVersion(vs[0]);
      assert forall i :: 0 < i < |vs| ==> vs[i] == rest[i - 1];
      LatestAt(m[first := vs[0]], rest, k);
      LatestAt(map[][first := vs[0]], rest, k);
      assert HasVersion(vs, k) <==> first == k || HasVersion(rest, k) by {
        if HasVersion(rest, k) {
          var i :| 0 <= i < |rest| && KeyOfVersion(rest[i]) == k;
          assert KeyOfVersion(vs[i + 1]) == k;
        }
      }
      assert map[first := vs[0]] == map[][first := vs[0]];
    }
  }

  // ---------------------------------------------------------------- the invariant

  /** Every cached row is what the last put said of its key. */
  ghost predicate Held(es: seq<Row>, m: map<Key, Version>) {
    forall x :: x in es ==> KeyOf(x) in m && m[KeyOf(x)].row == x
  }

  /** A version is the stored one exactly if the stored one was there when it was taken, and then it tells its row. */
  ghost predicate Known(s: State, k: Key, v: Version) {
    && KeyOfVersion(v) == k && k in s.db && v.at <= v.got < s.time
    && (v.at == s.db[k].at <==> s.db[k].at <= v.got)
    && (v.at == s.db[k].at ==> Tells(v.row, s.db[k].row))
  }

  ghost predicate CacheOk(s: State) { Sorted(s.cache) && OfInterval(s.iv, s.cache) && Held(s.cache, s.said) }

  ghost predicate StoredOk(s: State) {
    forall k :: k in s.db ==> KeyOfVersion(s.db[k]) == k && k.interval == s.iv && s.db[k].at < s.time
  }

  ghost predicate AllKnown(s: State, m: map<Key, Version>) { forall k :: k in m ==> Known(s, k, m[k]) }

  ghost predicate WaitingOk(s: State, vs: seq<Version>) {
    OfInterval(s.iv, RowsIn(vs)) && AllKnown(s, Latest(map[], vs))
  }

  ghost predicate Inv(s: State) {
    CacheOk(s) && StoredOk(s) && AllKnown(s, s.said) && forall vs :: vs in s.waiting ==> WaitingOk(s, vs)
  }

  lemma {:induction false} UpsertAllHeld(es: seq<Row>, vs: seq<Version>, m: map<Key, Version>, iv: Interval)
    requires Sorted(es) && OfInterval(iv, es) && OfInterval(iv, RowsIn(vs)) && Held(es, m)
    ensures var us := UpsertAll(es, RowsIn(vs)); Sorted(us) && OfInterval(iv, us) && Held(us, Latest(m, vs))
    decreases |vs|
  {
    hide Upsert, Sorted;
    if vs != [] {
      var r, rest := vs[0].row, RowsIn(vs[1..]);
      assert RowsIn(vs)[0] == r && RowsIn(vs)[1..] == rest;
      UpsertSorted(es, r);
      var us := Upsert(es, r);
      forall x | x in us
        ensures x.interval == iv && KeyOf(x) in m[KeyOf(r) := vs[0]] && m[KeyOf(r) := vs[0]][KeyOf(x)].row == x
      {
        UpsertMembers(es, r, x);
      }
      forall i | 0 <= i < |rest|
        ensures rest[i].interval == iv
      {
        assert RowsIn(vs)[i + 1] == rest[i];
      }
      UpsertAllHeld(us, vs[1..], m[KeyOf(r) := vs[0]], iv);
    }
  }

  lemma PutCache(s: State, i: nat)
    requires Inv(s) && i < |s.waiting|
    ensures CacheOk(Step(s, Put(i)))
  {
    hide Sorted, LastN, Held;
    var vs := s.waiting[i];
    assert vs in s.waiting && WaitingOk(s, vs);
    UpsertAllHeld(s.cache, vs, s.said, s.iv);
    LastKept(UpsertAll(s.cache, RowsIn(vs)), s.maxItems, s.iv, Latest(s.said, vs));
  }

  lemma LastKept(es: seq<Row>, n: nat, iv: Interval, m: map<Key, Version>)
    requires Sorted(es) && OfInterval(iv, es) && Held(es, m)
    ensures Sorted(LastN(es, n)) && OfInterval(iv, LastN(es, n)) && Held(LastN(es, n), m)
  {
  }

  lemma PutKnown(s: State, i: nat)
    requires Inv(s) && i < |s.waiting|
    ensures AllKnown(Step(s, Put(i)), Latest(s.said, s.waiting[i]))
  {
    hide Latest;
    var vs := s.waiting[i];
    assert vs in s.waiting && WaitingOk(s, vs);
    forall k | k in Latest(s.said, vs)
      ensures Known(Step(s, Put(i)), k, Latest(s.said, vs)[k])
    {
      LatestAt(s.said, vs, k);
      assert if HasVersion(vs, k) then Known(s, k, Latest(map[], vs)[k]) else Known(s, k, s.said[k]);
    }
  }

  /** A commit makes older versions of its keys stale and leaves the others alone. */
  lemma CommitKnown(s: State, rows: seq<Row>, k: Key, v: Version)
    requires StoredOk(s) && Known(s, k, v) && OfInterval(s.iv, rows)
    ensures Known(Step(s, Commit(rows)), k, v)
  {
    hide Latest;
    var vs := Committed(rows, s.time);
    LatestAt(s.db, vs, k);
  }

  lemma CommitStored(s: State, rows: seq<Row>)
    requires Inv(s) && OfInterval(s.iv, rows)
    ensures var s' := Step(s, Commit(rows)); StoredOk(s') && WaitingOk(s', Committed(rows, s.time))
  {
    hide Latest, Persisted;
    var s', vs := Step(s, Commit(rows)), Committed(rows, s.time);
    forall k
      ensures k in s'.db ==> KeyOfVersion(s'.db[k]) == k && k.interval == s.iv && s'.db[k].at < s'.time
      ensures k in Latest(map[], vs) ==> Known(s', k, Latest(map[], vs)[k])
    {
      LatestAt(s.db, vs, k);
    }
    RowsInAll(vs, s.iv);
  }

  lemma {:induction false} RowsInAll(vs: seq<Version>, iv: Interval)
    requires forall i :: 0 <= i < |vs| ==> vs[i].row.interval == iv
    ensures OfInterval(iv, RowsIn(vs))
  {
    if vs != [] {
      RowsInAll(vs[1..], iv);
    }
  }

  lemma ReadKnown(s: State, ks: seq<Key>)
    requires Inv(s) && Enabled(s, Read(ks))
    ensures WaitingOk(Step(s, Read(ks)), Taken(s.db, ks, s.time))
  {
    hide Latest;
    var vs := Taken(s.db, ks, s.time);
    forall i | 0 <= i < |vs|
      ensures KeyOfVersion(vs[i]) == ks[i] && vs[i].row.interval == s.iv && Tells(vs[i].row, s.db[ks[i]].row)
    {
      assert KeyOfVersion(s.db[ks[i]]) == ks[i];
    }
    hide Persisted, Tells;
    forall k | k in Latest(map[], vs)
      ensures Known(Step(s, Read(ks)), k, Latest(map[], vs)[k])
    {
      LatestAt(map[], vs, k);
    }
    RowsInAll(vs, s.iv);
  }

  lemma SameKnown(s: State, s': State)
    requires s'.db == s.db && s'.iv == s.iv && s'.time == s.time + 1
    ensures forall m :: AllKnown(s, m) ==> AllKnown(s', m)
    ensures forall vs :: WaitingOk(s, vs) ==> WaitingOk(s', vs)
    ensures StoredOk(s) ==> StoredOk(s')
  {
    hide Tells;
  }

  lemma StepInv(s: State, a: Action)
    requires Inv(s) && Enabled(s, a)
    ensures Inv(Step(s, a)) && Step(s, a).time == s.time + 1
  {
    var s' := Step(s, a);
    match a
    case Commit(rows) =>
      CommitStored(s, rows);
      CommitInv(s, rows);
    case Read(ks) =>
      ReadKnown(s, ks);
      hide Latest, WaitingOk, AllKnown, StoredOk, CacheOk;
      SameKnown(s, s');
    case Put(i) =>
      PutCache(s, i);
      PutKnown(s, i);
      hide Latest, WaitingOk, AllKnown, StoredOk, CacheOk;
      SameKnown(s, s');
      forall vs | vs in s'.waiting
        ensures vs in s.waiting
      {
        WithoutMembers(s.waiting, i, vs);
      }
    case Expire =>
      hide Latest, WaitingOk, AllKnown, StoredOk;
      SameKnown(s, s');
  }

  lemma CommitInv(s: State, rows: seq<Row>)
    requires Inv(s) && Enabled(s, Commit(rows))
    ensures var s' := Step(s, Commit(rows)); AllKnown(s', s.said) && forall vs :: vs in s.waiting ==> WaitingOk(s', vs)
  {
    hide Latest, Known;
    var s' := Step(s, Commit(rows));
    forall k, v | Known(s, k, v)
      ensures Known(s', k, v)
    {
      CommitKnown(s, rows, k, v);
    }
  }

  lemma {:induction false} RunInv(s: State, run: seq<Action>)
    requires Inv(s) && Possible(s, run)
    ensures Inv(After(s, run)) && After(s, run).time == s.time + |run|
    decreases |run|
  {
    hide Inv, Step, Enabled;
    if run != [] {
      StepInv(s, run[0]);
      RunInv(Step(s, run[0]), run[1..]);
    }
  }

  // ---------------------------------------------------------------- when a cached row is current

  ghost predicate Commits(a: Action, k: Key) { a.Commit? && HasKey(a.rows, k) }

  ghost predicate StoredAfter(s: State, k: Key, g: int) { k in s.db && s.db[k].at > g }

  /** Some action after time `g` commits the key. */
  ghost predicate CommitAfter(run: seq<Action>, from: nat, k: Key, g: int) {
    exists j :: 0 <= j < |run| && from + j > g && Commits(run[j], k)
  }

  lemma StepStored(s: State, a: Action, k: Key, g: int)
    requires Inv(s) && Enabled(s, a)
    ensures StoredAfter(Step(s, a), k, g) <==> StoredAfter(s, k, g) || (s.time > g && Commits(a, k))
  {
    hide Latest, AllKnown, WaitingOk, CacheOk;
    if a.Commit? {
      var vs := Committed(a.rows, s.time);
      LatestAt(s.db, vs, k);
      CommittedKeys(a.rows, s.time, k);
    }
  }

  lemma CommittedKeys(rows: seq<Row>, time: nat, k: Key)
    ensures HasVersion(Committed(rows, time), k) <==> HasKey(rows, k)
  {
    var vs := Committed(rows, time);
    assert forall i :: 0 <= i < |rows| ==> KeyOfVersion(vs[i]) == KeyOf(rows[i]);
  }

  lemma {:induction false} RunStored(s: State, run: seq<Action>, k: Key, g: int)
    requires Inv(s) && Possible(s, run)
    ensures StoredAfter(After(s, run), k, g) <==> StoredAfter(s, k, g) || CommitAfter(run, s.time, k, g)
    decreases |run|
  {
    hide Inv, Step, Enabled, StoredAfter, Commits;
    if run != [] {
      var rest := run[1..];
      StepInv(s, run[0]);
      StepStored(s, run[0], k, g);
      RunStored(Step(s, run[0]), rest, k, g);
      assert forall j :: 0 < j < |run| ==> run[j] == rest[j - 1];
      if CommitAfter(rest, s.time + 1, k, g) {
        var j :| 0 <= j < |rest| && s.time + 1 + j > g && Commits(rest[j], k);
        assert Commits(run[j + 1], k);
      }
    }
  }

  /** The cached row of a key is of the newest commit. */
  predicate Current(s: State, k: Key) { k in s.said && k in s.db && s.said[k].at == s.db[k].at }

  ghost predicate Reached(run: seq<Action>, s: State) {
    exists iv, n :: Possible(Start(iv, n), run) && After(Start(iv, n), run) == s
  }

  lemma ReachedInv(run: seq<Action>, s: State, k: Key, g: int)
    requires Reached(run, s)
    ensures Inv(s) && s.time == |run| && (StoredAfter(s, k, g) <==> CommitAfter(run, 0, k, g))
  {
    hide Possible, After;
    var iv, n :| Possible(Start(iv, n), run) && After(Start(iv, n), run) == s;
    assert Inv(Start(iv, n));
    RunInv(Start(iv, n), run);
    RunStored(Start(iv, n), run, k, g);
  }

  /** For every run of overlapping calls: a cached row is that of the newest commit of its key exactly when no commit
      of the key lies between now and the commit or the read that the last put of the row carried; and then it tells
      the stored row. */
  lemma CachedExactly(run: seq<Action>, s: State, x: Row)
    requires Reached(run, s) && x in s.cache
    ensures var k := KeyOf(x);
            && k in s.said && s.said[k].row == x && s.said[k].got < |run| && k in s.db
            && (Current(s, k) <==> !CommitAfter(run, 0, k, s.said[k].got))
            && (Current(s, k) ==> Tells(x, s.db[k].row))
  {
    hide Tells, Sorted, CommitAfter, Reached;
    var k := KeyOf(x);
    ReachedInv(run, s, k, 0);
    assert Known(s, k, s.said[k]);
    ReachedInv(run, s, k, s.said[k].got);
  }

  // ---------------------------------------------------------------- whole calls

  /** No cached row is stale. */
  ghost predicate Fresh(s: State) { forall x :: x in s.cache ==> Current(s, KeyOf(x)) }

  /** A save whose put follows its commit at once, or a query whose put follows its read. */
  datatype Call = Save(rows: seq<Row>) | Query(ks: seq<Key>) | Expiry

  lemma {:induction false} UpsertAllFrom(es: seq<Row>, rows: seq<Row>, x: Row)
    requires Sorted(es) && x in UpsertAll(es, rows)
    ensures x in rows || x in es
    decreases |rows|
  {
    hide Upsert, Sorted;
    if rows != [] {
      UpsertSorted(es, rows[0]);
      UpsertAllFrom(Upsert(es, rows[0]), rows[1..], x);
      UpsertMembers(es, rows[0], x);
    }
  }

  lemma {:induction false} RowHasVersion(vs: seq<Version>, x: Row)
    requires x in RowsIn(vs)
    ensures HasVersion(vs, KeyOf(x))
  {
    if x != vs[0].row {
      RowHasVersion(vs[1..], x);
      var i :| 0 <= i < |vs| - 1 && KeyOfVersion(vs[1..][i]) == KeyOf(x);
      assert KeyOfVersion(vs[i + 1]) == KeyOf(x);
    } else {
      assert KeyOfVersion(vs[0]) == KeyOf(x);
    }
  }

  /** A cached row that a put does not replace was there before. */
  lemma KeptRow(s: State, i: nat, x: Row)
    requires Inv(s) && i < |s.waiting| && x in Step(s, Put(i)).cache && !HasVersion(s.waiting[i], KeyOf(x))
    ensures x in s.cache
  {
    hide UpsertAll, RowsIn, HasVersion, Sorted;
    var rows := RowsIn(s.waiting[i]);
    LastMembers(UpsertAll(s.cache, rows), s.maxItems, x);
    UpsertAllFrom(s.cache, rows, x);
    if x in rows {
      RowHasVersion(s.waiting[i], x);
    }
  }

  /** The newest commit of each key wrote the version that is put. */
  ghost predicate Newest(s: State, m: map<Key, Version>) { forall k :: k in m ==> k in s.db && m[k].at == s.db[k].at }

  lemma FreshPut(s: State, i: nat)
    requires Inv(s) && i < |s.waiting| && Newest(s, Latest(map[], s.waiting[i]))
    requires forall x :: x in s.cache && !HasVersion(s.waiting[i], KeyOf(x)) ==> Current(s, KeyOf(x))
    ensures Fresh(Step(s, Put(i)))
  {
    StepInv(s, Put(i));
    hide Latest, PutAll, AllKnown, WaitingOk, HasVersion, StoredOk;
    var vs, s' := s.waiting[i], Step(s, Put(i));
    forall x | x in s'.cache
      ensures Current(s', KeyOf(x))
    {
      LatestAt(s.said, vs, KeyOf(x));
      if !HasVersion(vs, KeyOf(x)) {
        KeptRow(s, i, x);
      }
    }
  }

  lemma SaveFresh(s: State, rows: seq<Row>)
    requires Inv(s) && Fresh(s) && Enabled(s, Commit(rows))
    ensures Fresh(Step(Step(s, Commit(rows)), Put(|s.waiting|)))
  {
    var vs, s1 := Committed(rows, s.time), Step(s, Commit(rows));
    StepInv(s, Commit(rows));
    hide Latest, PutAll, AllKnown, WaitingOk, HasVersion, StoredOk, Committed, CacheOk;
    forall k
      ensures k in Latest(map[], vs) ==> k in s1.db && Latest(map[], vs)[k].at == s1.db[k].at
      ensures !HasVersion(vs, k) && Current(s, k) ==> Current(s1, k)
    {
      LatestAt(s.db, vs, k);
    }
    assert s1.waiting[|s.waiting|] == vs;
    FreshPut(s1, |s.waiting|);
  }

  lemma QueryFresh(s: State, ks: seq<Key>)
    requires Inv(s) && Fresh(s) && Enabled(s, Read(ks))
    ensures Fresh(Step(Step(s, Read(ks)), Put(|s.waiting|)))
  {
    var vs, s1 := Taken(s.db, ks, s.time), Step(s, Read(ks));
    StepInv(s, Read(ks));
    assert s1.waiting[|s.waiting|] == vs && WaitingOk(s1, vs);
    forall i | 0 <= i < |vs|
      ensures KeyOfVersion(vs[i]) == ks[i] && vs[i].at == s.db[ks[i]].at
    {
      assert KeyOfVersion(s.db[ks[i]]) == ks[i];
    }
    hide Latest, PutAll, AllKnown, WaitingOk, HasVersion, StoredOk, CacheOk, Persisted;
    forall k
      ensures k in Latest(map[], vs) ==> k in s1.db && Latest(map[], vs)[k].at == s1.db[k].at
    {
      LatestAt(map[], vs, k);
    }
    FreshPut(s1, |s.waiting|);
  }

  ghost predicate CanCall(s: State, c: Call) {
    match c
    case Save(rows) => Enabled(s, Commit(rows))
    case Query(ks) => Enabled(s, Read(ks))
    case Expiry => true
  }

  ghost function AfterCall(s: State, c: Call): State
    requires CanCall(s, c)
  {
    match c
    case Save(rows) => Step(Step(s, Commit(rows)), Put(|s.waiting|))
    case Query(ks) => Step(Step(s, Read(ks)), Put(|s.waiting|))
    case Expiry => Step(s, Expire)
  }

  ghost predicate CanAll(s: State, cs: seq<Call>)
    decreases |cs|
  {
    cs == [] || (CanCall(s, cs[0]) && CanAll(AfterCall(s, cs[0]), cs[1..]))
  }

  ghost function AfterAll(s: State, cs: seq<Call>): State
    requires CanAll(s, cs)
    decreases |cs|
  {
    if cs == [] then s else AfterAll(AfterCall(s, cs[0]), cs[1..])
  }

  lemma CallFresh(s: State, c: Call)
    requires Inv(s) && Fresh(s) && CanCall(s, c)
    ensures Inv(AfterCall(s, c)) && Fresh(AfterCall(s, c))
  {
    match c
    case Save(rows) =>
      SaveFresh(s, rows);
      StepInv(s, Commit(rows));
      hide Inv, Fresh;
      StepInv(Step(s, Commit(rows)), Put(|s.waiting|));
    case Query(ks) =>
      QueryFresh(s, ks);
      StepInv(s, Read(ks));
      hide Inv, Fresh;
      StepInv(Step(s, Read(ks)), Put(|s.waiting|));
    case Expiry => StepInv(s, Expire);
  }

  /** If the calls of the repository come one after the other, no cached row is ever stale. */
  lemma {:induction false} CallsFresh(s: State, cs: seq<Call>)
    requires Inv(s) && Fresh(s) && CanAll(s, cs)
    ensures Inv(AfterAll(s, cs)) && Fresh(AfterAll(s, cs))
    decreases |cs|
  {
    hide Inv, Fresh, AfterCall, CanCall;
    if cs != [] {
      CallFresh(s, cs[0]);
      CallsFresh(AfterCall(s, cs[0]), cs[1..]);
    }
  }

  // ---------------------------------------------------------------- a stale row

  /** A query reads a row, a save commits and caches the next one, and then the query caches what it has read: from then
      on the cache answers with the older row although the table has the newer. */
  lemma LateQueryIsStale(r: Row, next: Row, n: nat) returns (run: seq<Action>, s: State)
    requires KeyOf(r) == KeyOf(next) && r.count != next.count && n > 0
    ensures Reached(run, s) && s.cache == [Persisted(Seal(r))]
    ensures var k := KeyOf(r);
            k in s.db && s.db[k].row == Seal(next) && !Current(s, k) && !Tells(s.cache[0], s.db[k].row)
  {
    var k, s0 := KeyOf(r), Start(r.interval, n);
    var s1, s2, s3, s4;
    s1, s2, s3 := TakenStates(r, next, s0);
    PersistedKey(Seal(r));
    SealKeepsKey(r);
    SealKeepsKey(next);
    s4, s := PutStates(s3, Version(Seal(r), 0, 0), Version(Persisted(Seal(r)), 0, 1), Version(Seal(next), 2, 2));
    OtherCount(r, next);
    hide Step, Enabled, Tells, Persisted, Seal, KeyOf;
    run := [];
    RunOne(s4, Put(1), run);
    run := [Put(1)] + run;
    RunOne(s3, Put(2), run);
    run := [Put(2)] + run;
    RunOne(s2, Commit([next]), run);
    run := [Commit([next])] + run;
    RunOne(s1, Read([k]), run);
    run := [Read([k])] + run;
    RunOne(s0, Commit([r]), run);
    run := [Commit([r])] + run;
  }

  /** The save of the first row, the query's read, and the save of the next row. */
  lemma TakenStates(r: Row, next: Row, s0: State) returns (s1: State, s2: State, s3: State)
    requires KeyOf(r) == KeyOf(next) && s0 == Start(r.interval, s0.maxItems)
    ensures Enabled(s0, Commit([r])) && s1 == Step(s0, Commit([r]))
    ensures Enabled(s1, Read([KeyOf(r)])) && s2 == Step(s1, Read([KeyOf(r)]))
    ensures Enabled(s2, Commit([next])) && s3 == Step(s2, Commit([next]))
    ensures var v0, v1, v2 := Version(Seal(r), 0, 0), Version(Persisted(Seal(r)), 0, 1), Version(Seal(next), 2, 2);
            && s3.waiting == [[v0], [v1], [v2]] && s3.cache == [] && s3.maxItems == s0.maxItems
            && KeyOf(r) in s3.db && s3.db[KeyOf(r)] == v2
  {
    SealKeepsKey(r);
    SealKeepsKey(next);
    hide Step, Enabled, Persisted, Seal;
    CommitOne(s0, r);
    s1 := Step(s0, Commit([r]));
    assert s1.waiting == [[Version(Seal(r), 0, 0)]];
    ReadOne(s1, KeyOf(r));
    s2 := Step(s1, Read([KeyOf(r)]));
    CommitOne(s2, next);
    s3 := Step(s2, Commit([next]));
  }

  /** The second save's put, and then the query's. */
  lemma PutStates(s3: State, v0: Version, v1: Version, v2: Version) returns (s4: State, s: State)
    requires s3.waiting == [[v0], [v1], [v2]] && s3.cache == [] && s3.maxItems > 0
    requires KeyOfVersion(v1) == KeyOfVersion(v2)
    ensures Enabled(s3, Put(2)) && s4 == Step(s3, Put(2))
    ensures Enabled(s4, Put(1)) && s == Step(s4, Put(1))
    ensures s.cache == [v1.row] && s.db == s3.db && KeyOfVersion(v1) in s.said && s.said[KeyOfVersion(v1)] == v1
  {
    hide Step, Enabled, Without;
    PutOne(s3, 2, v2);
    s4 := Step(s3, Put(2));
    LastWithout([v0], [v1], [v2]);
    PutOne(s4, 1, v1);
    s := Step(s4, Put(1));
  }

  lemma LastWithout(a: seq<Version>, b: seq<Version>, c: seq<Version>)
    ensures Without([a, b, c], 2) == [a, b]
  {
  }

  lemma PersistedKey(r: Row)
    ensures KeyOf(Persisted(r)) == KeyOf(r)
  {
  }

  lemma RunOne(s: State, a: Action, rest: seq<Action>)
    requires Enabled(s, a) && Possible(Step(s, a), rest)
    ensures Possible(s, [a] + rest) && After(s, [a] + rest) == After(Step(s, a), rest)
  {
    hide Enabled, Step;
    assert ([a] + rest)[1..] == rest;
  }

  lemma OtherCount(r: Row, next: Row)
    requires r.count != next.count
    ensures !Tells(Persisted(Seal(r)), Seal(next))
  {
  }

  lemma LatestOne(m: map<Key, Version>, v: Version)
    ensures Latest(m, [v]) == m[KeyOfVersion(v) := v]
  {
    assert [v][1..] == [];
  }

  lemma CommitOne(s: State, r: Row)
    requires r.interval == s.iv
    ensures var v := Version(Seal(r), s.time, s.time);
            && Enabled(s, Commit([r]))
            && Step(s, Commit([r])) ==
               s.(db := s.db[KeyOf(r) := v], waiting := s.waiting + [[v]], time := s.time + 1)
  {
    SealKeepsKey(r);
    hide Seal;
    var v := Version(Seal(r), s.time, s.time);
    assert Committed([r], s.time) == [v];
    LatestOne(s.db, v);
  }

  lemma ReadOne(s: State, k: Key)
    requires k in s.db
    ensures var v := Version(Persisted(s.db[k].row), s.db[k].at, s.time);
            && Enabled(s, Read([k]))
            && Step(s, Read([k])) == s.(waiting := s.waiting + [[v]], time := s.time + 1)
  {
    hide Persisted;
    assert Taken(s.db, [k], s.time) == [Version(Persisted(s.db[k].row), s.db[k].at, s.time)];
  }

  /** One version put into a cache that has nothing, or only its key. */
  lemma PutOne(s: State, i: nat, v: Version)
    requires i < |s.waiting| && s.waiting[i] == [v] && s.maxItems > 0
    requires s.cache == [] || (|s.cache| == 1 && s.cache[0].start == v.row.start)
    ensures Enabled(s, Put(i))
    ensures Step(s, Put(i)) == s.(cache := [v.row], said := s.said[KeyOfVersion(v) := v],
                                  waiting := Without(s.waiting, i), time := s.time + 1)
  {
    LatestOne(s.said, v);
    assert [v][1..] == [] && RowsIn([v]) == [v.row] && [v.row][1..] == [];
    assert Upsert(s.cache, v.row) == [v.row];
    assert UpsertAll(s.cache, [v.row]) == [v.row];
  }

  // ---------------------------------------------------------------- what is cached

  /** The rows put since the cache last expired, put by put. */
  ghost function PutsSince(s: State, run: seq<Action>, before: seq<seq<Row>>): seq<seq<Row>>
    requires Possible(s, run)
    decreases |run|
  {
    if run == [] then before
    else
      PutsSince(Step(s, run[0]), run[1..],
                match run[0]
                case Put(i) => before + [RowsIn(s.waiting[i])]
                case Expire => []
                case _ => before)
  }

  lemma {:induction false} PutsSnoc(es: seq<Row>, puts: seq<seq<Row>>, rows: seq<Row>, n: nat)
    ensures AfterPuts(es, puts + [rows], n) == PutAll(AfterPuts(es, puts, n), rows, n)
    decreases |puts|
  {
    hide PutAll;
    if puts == [] {
      assert puts + [rows] == [rows] && [rows][1..] == [];
    } else {
      assert (puts + [rows])[1..] == puts[1..] + [rows];
      PutsSnoc(PutAll(es, puts[0], n), puts[1..], rows, n);
    }
  }

  lemma {:induction false} CacheAfter(s: State, run: seq<Action>, before: seq<seq<Row>>)
    requires Possible(s, run) && s.cache == AfterPuts([], before, s.maxItems)
    ensures After(s, run).maxItems == s.maxItems
    ensures After(s, run).cache == AfterPuts([], PutsSince(s, run, before), s.maxItems)
    decreases |run|
  {
    hide PutAll;
    if run != [] {
      match run[0]
      case Put(i) =>
        PutsSnoc([], before, RowsIn(s.waiting[i]), s.maxItems);
        CacheAfter(Step(s, run[0]), run[1..], before + [RowsIn(s.waiting[i])]);
      case Expire => CacheAfter(Step(s, run[0]), run[1..], []);
      case _ => CacheAfter(Step(s, run[0]), run[1..], before);
    }
  }

  /** In every run of overlapping calls the cache is what everything that was put since it last expired leaves, in the
      order of the puts. */
  lemma CacheSinceExpiry(iv: Interval, n: nat, run: seq<Action>)
    requires Possible(Start(iv, n), run)
    ensures After(Start(iv, n), run).cache == AfterPuts([], PutsSince(Start(iv, n), run, []), n)
  {
    CacheAfter(Start(iv, n), run, []);
  }
}
