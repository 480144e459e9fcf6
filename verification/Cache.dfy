/** The in-memory cache of recent rows (internal/repository/cache.go): a sorted slice per symbol and interval,
    upserted by binary search and trimmed to its newest rows. */
module Cache {
  import opened Intervals
  import opened Options
  import opened Klines
  import opened Tables

  // ---------------------------------------------------------------- sorted slices

  ghost predicate Sorted(es: seq<Row>) {
    forall i, j :: 0 <= i < j < |es| ==> es[i].start < es[j].start
  }

  /** A slice with a row put in its place, replacing one with the same start. */
  function Upsert(es: seq<Row>, r: Row): seq<Row> {
    if es == [] then [r]
    else if es[0].start < r.start then [es[0]] + Upsert(es[1..], r)
    else if es[0].start == r.start then [r] + es[1..]
    else [r] + es
  }

  function UpsertAll(es: seq<Row>, rows: seq<Row>): seq<Row>
    decreases |rows|
  {
    if rows == [] then es else UpsertAll(Upsert(es, rows[0]), rows[1..])
  }

  /** The last `n` of a sequence. */
  function LastN<T>(xs: seq<T>, n: nat): seq<T> {
    if |xs| > n then xs[|xs| - n..] else xs
  }

  function PutAll(es: seq<Row>, rows: seq<Row>, n: nat): seq<Row> { LastN(UpsertAll(es, rows), n) }

  /** The rows of [from, to), in order. */
  function InRange(es: seq<Row>, from: int, to: int): seq<Row> {
    if es == [] then []
    else if from <= es[0].start < to then [es[0]] + InRange(es[1..], from, to)
    else InRange(es[1..], from, to)
  }

  /** A limit of zero or less is no limit. */
  function Limited(es: seq<Row>, limit: int): seq<Row> {
    if limit <= 0 then es else FirstN(es, limit)
  }

  lemma SortedTail(es: seq<Row>)
    requires Sorted(es) && es != []
    ensures Sorted(es[1..]) && forall i :: 0 <= i < |es| - 1 ==> es[0].start < es[1..][i].start
  {
  }

  lemma {:induction false} UpsertMembers(es: seq<Row>, r: Row, x: Row)
    requires Sorted(es)
    ensures x in Upsert(es, r) <==> x == r || (x in es && x.start != r.start)
  {
    if es != [] {
      SortedTail(es);
      UpsertMembers(es[1..], r, x);
      assert x in es <==> x == es[0] || x in es[1..];
    }
  }

  lemma {:induction false} UpsertSorted(es: seq<Row>, r: Row)
    requires Sorted(es)
    ensures Sorted(Upsert(es, r)) && |es| <= |Upsert(es, r)|
  {
    if es != [] {
      SortedTail(es);
      UpsertSorted(es[1..], r);
      var rest := Upsert(es[1..], r);
      forall i | 0 <= i < |rest| && es[0].start < r.start
        ensures es[0].start < rest[i].start
      {
        UpsertMembers(es[1..], r, rest[i]);
      }
    }
  }

  /** Where binary search finds the place, inserting there is the upsert. */
  lemma {:induction false} UpsertAt(es: seq<Row>, r: Row, at: nat)
    requires Sorted(es) && at <= |es|
    requires forall i :: 0 <= i < at ==> es[i].start < r.start
    requires forall i :: at <= i < |es| ==> es[i].start >= r.start
    ensures Upsert(es, r) ==
            if at < |es| && es[at].start == r.start then es[at := r] else es[..at] + [r] + es[at..]
  {
    if at > 0 {
      hide Sorted;
      SortedTail(es);
      UpsertAt(es[1..], r, at - 1);
      PutAfterFirst(es, r, at);
    } else {
      assert es[..0] + [r] + es[0..] == [r] + es;
      if es != [] {
        assert es[0 := r] == [r] + es[1..];
      }
    }
  }

  lemma PutAfterFirst<T>(xs: seq<T>, x: T, at: nat)
    requires 0 < at <= |xs|
    ensures xs[..at] + [x] + xs[at..] == [xs[0]] + (xs[1..][..at - 1] + [x] + xs[1..][at - 1..])
    ensures at < |xs| ==> xs[at := x] == [xs[0]] + xs[1..][at - 1 := x]
  {
  }

  // ---------------------------------------------------------------- the newest rows of a table

  /** The slice holds the newest rows of a table: sorted, current, and for a row of the table that
      is missing there are at least `n` newer ones. */
  ghost predicate Covers(es: seq<Row>, m: Table, n: nat) {
    && Sorted(es)
    && (forall r :: r in es ==> KeyOf(r) in m && m[KeyOf(r)] == r)
    && (forall k :: k in m && !HasKey(es, k) ==> |es| >= n && (n == 0 || k.start < es[|es| - n].start))
  }

  /** The slice is the `n` newest rows. */
  ghost predicate IsTop(es: seq<Row>, m: Table, n: nat) { Covers(es, m, n) && |es| <= n }

  ghost predicate AllOf(iv: Interval, m: Table) { forall k :: k in m ==> k.interval == iv }

  /** A table with rows put into it as they are. */
  function Put(m: Table, rows: seq<Row>): Table
    decreases |rows|
  {
    if rows == [] then m else Put(m[KeyOf(rows[0]) := rows[0]], rows[1..])
  }

  ghost predicate OfInterval(iv: Interval, rows: seq<Row>) {
    forall i :: 0 <= i < |rows| ==> rows[i].interval == iv
  }

  /** Inserting never lowers the row at a given distance from the end. */
  lemma {:induction false} UpsertFromEnd(es: seq<Row>, r: Row, d: nat)
    requires Sorted(es) && 1 <= d <= |es|
    ensures var us := Upsert(es, r); |us| >= d && es[|es| - d].start <= us[|us| - d].start
    decreases |es|
  {
    UpsertSorted(es, r);
    if es[0].start < r.start {
      SortedTail(es);
      if d < |es| {
        UpsertFromEnd(es[1..], r, d);
      } else {
        UpsertSorted(es[1..], r);
        var us := Upsert(es, r);
        assert us[0] == es[0];
        assert us[|us| - d].start >= us[0].start;
      }
    }
  }

  lemma UpsertHasKey(es: seq<Row>, r: Row, k: Key)
    requires Sorted(es)
    ensures HasKey(es, k) && k.start != r.start ==> HasKey(Upsert(es, r), k)
    ensures HasKey(Upsert(es, r), KeyOf(r))
  {
    UpsertMembers(es, r, r);
    HasKeyMember(Upsert(es, r), r);
    if HasKey(es, k) && k.start != r.start {
      var i :| 0 <= i < |es| && KeyOf(es[i]) == k;
      UpsertMembers(es, r, es[i]);
      HasKeyMember(Upsert(es, r), es[i]);
    }
  }

  lemma UpsertCovers(es: seq<Row>, m: Table, n: nat, r: Row, iv: Interval)
    requires Covers(es, m, n) && AllOf(iv, m) && r.interval == iv
    ensures Covers(Upsert(es, r), m[KeyOf(r) := r], n)
  {
    hide Upsert, HasKey;
    var us, m' := Upsert(es, r), m[KeyOf(r) := r];
    UpsertSorted(es, r);
    forall x | x in us
      ensures KeyOf(x) in m' && m'[KeyOf(x)] == x
    {
      UpsertMembers(es, r, x);
    }
    forall k | k in m' && !HasKey(us, k)
      ensures |us| >= n && (n == 0 || k.start < us[|us| - n].start)
    {
      UpsertHasKey(es, r, k);
      assert k != KeyOf(r) && k in m && k.start != r.start;
      if n > 0 {
        UpsertFromEnd(es, r, n);
      }
    }
  }

  lemma {:induction false} UpsertAllCovers(es: seq<Row>, m: Table, n: nat, rows: seq<Row>, iv: Interval)
    requires Covers(es, m, n) && AllOf(iv, m) && OfInterval(iv, rows)
    ensures Covers(UpsertAll(es, rows), Put(m, rows), n) && AllOf(iv, Put(m, rows))
    decreases |rows|
  {
    hide Covers, Upsert;
    if rows != [] {
      UpsertCovers(es, m, n, rows[0], iv);
      UpsertAllCovers(Upsert(es, rows[0]), m[KeyOf(rows[0]) := rows[0]], n, rows[1..], iv);
    }
  }

  lemma LastHasKey(es: seq<Row>, n: nat, i: nat)
    requires i < |es| <= n + i
    ensures HasKey(LastN(es, n), KeyOf(es[i]))
  {
    var ts := LastN(es, n);
    assert ts[i - (|es| - |ts|)] == es[i];
  }

  /** Cutting from the front loses only older rows. */
  lemma LastOlder(es: seq<Row>, n: nat, k: Key)
    requires Sorted(es) && HasKey(es, k)
    ensures HasKey(LastN(es, n), k)
            || (|es| > n && |LastN(es, n)| == n && (n > 0 ==> k.start < es[|es| - n].start))
  {
    var i :| 0 <= i < |es| && KeyOf(es[i]) == k;
    if |es| <= n + i {
      LastHasKey(es, n, i);
    }
  }

  lemma LastSorted(es: seq<Row>, n: nat)
    requires Sorted(es)
    ensures Sorted(LastN(es, n))
  {
  }

  lemma LastFromEnd(es: seq<Row>, n: nat)
    requires 0 < n <= |es|
    ensures |LastN(es, n)| == n && LastN(es, n)[0] == es[|es| - n]
  {
  }

  lemma LastMembers(es: seq<Row>, n: nat, r: Row)
    requires r in LastN(es, n)
    ensures r in es
  {
  }

  lemma LastTop(es: seq<Row>, m: Table, n: nat)
    requires Covers(es, m, n)
    ensures IsTop(LastN(es, n), m, n)
  {
    var ts := LastN(es, n);
    assert |ts| <= n;
    hide LastN, Sorted, HasKey;
    LastSorted(es, n);
    forall r | r in ts
      ensures KeyOf(r) in m && m[KeyOf(r)] == r
    {
      LastMembers(es, n, r);
    }
    forall k | k in m && !HasKey(ts, k)
      ensures |ts| >= n && (n == 0 || k.start < ts[|ts| - n].start)
    {
      if HasKey(es, k) {
        LastOlder(es, n, k);
      }
      if n > 0 {
        LastFromEnd(es, n);
      }
    }
  }

  /** One put keeps the slice the newest rows of everything put. */
  lemma PutTop(es: seq<Row>, m: Table, n: nat, rows: seq<Row>, iv: Interval)
    requires IsTop(es, m, n) && AllOf(iv, m) && OfInterval(iv, rows)
    ensures IsTop(PutAll(es, rows, n), Put(m, rows), n) && AllOf(iv, Put(m, rows))
  {
    hide Covers, UpsertAll, LastN;
    UpsertAllCovers(es, m, n, rows, iv);
    LastTop(UpsertAll(es, rows), Put(m, rows), n);
  }

  function KeysOf(es: seq<Row>): seq<Key> { seq(|es|, i requires 0 <= i < |es| => KeyOf(es[i])) }

  /** There is one ascending listing of a set of keys. */
  lemma {:induction false} AscendingUnique(iv: Interval, ks: seq<Key>, s: set<Key>)
    requires OneInterval(iv, s) && AscendingKeys(ks) && forall k :: k in ks <==> k in s
    ensures ks == Ascending(s)
    decreases |ks|
  {
    if ks == [] {
      assert s == {};
    } else {
      assert ks[0] in ks && ks[0] in s;
      var m := First(s);
      assert m in ks;
      assert m == ks[0];
      var rest := ks[1..];
      forall k
        ensures k in rest <==> k in s - {m}
      {
        assert k in ks <==> k == ks[0] || k in rest;
      }
      AscendingUnique(iv, rest, s - {m});
      assert ks == [m] + rest;
    }
  }

  /** The keys of a table that a slice leaves out. */
  function Missing(es: seq<Row>, m: Table): set<Key> {
    m.Keys - set k | k in KeysOf(es)
  }

  lemma KeysOfHas(es: seq<Row>, k: Key)
    ensures k in KeysOf(es) <==> HasKey(es, k)
  {
    if HasKey(es, k) {
      var i :| 0 <= i < |es| && KeyOf(es[i]) == k;
      assert KeysOf(es)[i] == k;
    }
  }

  lemma MissingOlder(es: seq<Row>, m: Table, n: nat, k: Key, i: nat)
    requires IsTop(es, m, n) && k in Missing(es, m) && i < |es|
    ensures k.start < es[i].start && |es| == n
  {
    KeysOfHas(es, k);
    assert es[|es| - n].start <= es[i].start;
  }

  lemma MissingFirst(es: seq<Row>, m: Table, n: nat, iv: Interval)
    requires IsTop(es, m, n) && AllOf(iv, m)
    ensures AscendingKeys(Ascending(Missing(es, m)) + KeysOf(es))
  {
    hide IsTop, Ascending, Missing;
    var older, newer := Ascending(Missing(es, m)), KeysOf(es);
    AscendingFacts(iv, Missing(es, m)) by {
      MissingInterval(es, m, iv);
    }
    forall i, j | 0 <= i < |older| && 0 <= j < |newer|
      ensures older[i].start < newer[j].start
    {
      assert older[i] in older;
      MissingOlder(es, m, n, older[i], j);
    }
    KeysAscend(es, m, n);
  }

  lemma MissingInterval(es: seq<Row>, m: Table, iv: Interval)
    requires AllOf(iv, m)
    ensures OneInterval(iv, Missing(es, m))
  {
  }

  lemma KeysAscend(es: seq<Row>, m: Table, n: nat)
    requires IsTop(es, m, n)
    ensures AscendingKeys(KeysOf(es))
  {
  }

  lemma KeysInTable(es: seq<Row>, m: Table, n: nat)
    requires IsTop(es, m, n)
    ensures forall k :: k in KeysOf(es) ==> k in m
  {
    assert forall i :: 0 <= i < |es| ==> es[i] in es;
  }

  /** The keys of the slice are the last `n` of all keys in order of start, so the slice is determined by the table. */
  lemma TopIsLast(es: seq<Row>, m: Table, n: nat, iv: Interval)
    requires IsTop(es, m, n) && AllOf(iv, m)
    ensures KeysOf(es) == LastN(Ascending(m.Keys), n)
    ensures forall i :: 0 <= i < |es| ==> KeyOf(es[i]) in m && m[KeyOf(es[i])] == es[i]
  {
    var older, newer := Ascending(Missing(es, m)), KeysOf(es);
    assert forall i :: 0 <= i < |es| ==> es[i] in es;
    assert |newer| == |es| <= n;
    hide IsTop, Ascending, KeysOf, LastN, Missing;
    MissingFirst(es, m, n, iv);
    AllKeys(es, m, n, iv);
    AscendingUnique(iv, older + newer, m.Keys);
    MissingInterval(es, m, iv);
    AscendingFacts(iv, Missing(es, m));
    if older != [] {
      assert older[0] in older;
      MissingCount(es, m, n, older[0]);
    }
    LastOf(older, newer, n);
  }

  lemma LastOf<T>(older: seq<T>, newer: seq<T>, n: nat)
    requires |newer| == n || (older == [] && |newer| <= n)
    ensures LastN(older + newer, n) == newer
  {
    if older == [] {
      assert older + newer == newer;
    } else {
      assert (older + newer)[|older|..] == newer;
    }
  }

  lemma AllKeys(es: seq<Row>, m: Table, n: nat, iv: Interval)
    requires IsTop(es, m, n) && AllOf(iv, m)
    ensures forall k :: k in Ascending(Missing(es, m)) + KeysOf(es) <==> k in m.Keys
  {
    MissingInterval(es, m, iv);
    AscendingFacts(iv, Missing(es, m));
    KeysInTable(es, m, n);
  }

  lemma MissingCount(es: seq<Row>, m: Table, n: nat, k: Key)
    requires IsTop(es, m, n) && k in Missing(es, m)
    ensures |es| == n
  {
    KeysOfHas(es, k);
  }

  lemma TopUnique(es: seq<Row>, fs: seq<Row>, m: Table, n: nat, iv: Interval)
    requires IsTop(es, m, n) && IsTop(fs, m, n) && AllOf(iv, m)
    ensures es == fs
  {
    hide IsTop;
    TopIsLast(es, m, n, iv);
    TopIsLast(fs, m, n, iv);
    assert |KeysOf(es)| == |es| && |KeysOf(fs)| == |fs|;
    forall i | 0 <= i < |es|
      ensures es[i] == fs[i]
    {
      assert KeysOf(es)[i] == KeysOf(fs)[i];
    }
  }

  // ---------------------------------------------------------------- runs of puts

  function AfterPuts(es: seq<Row>, puts: seq<seq<Row>>, n: nat): seq<Row>
    decreases |puts|
  {
    if puts == [] then es else AfterPuts(PutAll(es, puts[0], n), puts[1..], n)
  }

  function Everything(puts: seq<seq<Row>>): seq<Row> {
    if puts == [] then [] else puts[0] + Everything(puts[1..])
  }

  lemma {:induction false} PutConcat(m: Table, a: seq<Row>, b: seq<Row>)
    ensures Put(m, a + b) == Put(Put(m, a), b)
    decreases |a|
  {
    if a == [] {
      assert a + b == b;
    } else {
      assert (a + b)[1..] == a[1..] + b;
      PutConcat(m[KeyOf(a[0]) := a[0]], a[1..], b);
    }
  }

  lemma {:induction false} PutsTop(es: seq<Row>, m: Table, puts: seq<seq<Row>>, n: nat, iv: Interval)
    requires IsTop(es, m, n) && AllOf(iv, m) && forall i :: 0 <= i < |puts| ==> OfInterval(iv, puts[i])
    ensures var all := Put(m, Everything(puts)); AllOf(iv, all) && IsTop(AfterPuts(es, puts, n), all, n)
    decreases |puts|
  {
    hide IsTop, PutAll, OfInterval;
    if puts != [] {
      PutTop(es, m, n, puts[0], iv);
      PutConcat(m, puts[0], Everything(puts[1..]));
      PutsTop(PutAll(es, puts[0], n), Put(m, puts[0]), puts[1..], n, iv);
    }
  }

  /** After any run of puts under one key the cache holds the newest rows of everything ever put, each with its
      latest value, in ascending order; so trimming early gives what trimming once at the end would. */
  lemma TopOfEverything(puts: seq<seq<Row>>, n: nat, iv: Interval)
    requires forall i :: 0 <= i < |puts| ==> OfInterval(iv, puts[i])
    ensures var es, all := AfterPuts([], puts, n), Put(map[], Everything(puts));
            && IsTop(es, all, n)
            && KeysOf(es) == LastN(Ascending(all.Keys), n)
            && es == PutAll([], Everything(puts), n)
  {
    PutsTop([], map[], puts, n, iv);
    hide IsTop, PutAll, OfInterval;
    var es, all := AfterPuts([], puts, n), Put(map[], Everything(puts));
    EverythingOf(puts, iv);
    assert IsTop([], map[], n) by {
      EmptyTop(n);
    }
    PutTop([], map[], n, Everything(puts), iv);
    TopUnique(es, PutAll([], Everything(puts), n), all, n, iv);
    TopIsLast(es, all, n, iv);
  }

  lemma EmptyTop(n: nat)
    ensures IsTop([], map[], n)
  {
  }

  lemma {:induction false} EverythingOf(puts: seq<seq<Row>>, iv: Interval)
    requires forall i :: 0 <= i < |puts| ==> OfInterval(iv, puts[i])
    ensures OfInterval(iv, Everything(puts))
  {
    if puts != [] {
      EverythingOf(puts[1..], iv);
    }
  }

  // ---------------------------------------------------------------- the cache

  /** The cache's text key symbol:interval. */
  function CacheKey(symbol: string, iv: Interval): string { symbol + ":" + iv.Name() }

  lemma NamesDiffer(iv: Interval, jv: Interval)
    ensures iv.Name() == jv.Name() ==> iv == jv
    ensures forall i :: 0 <= i < |iv.Name()| ==> iv.Name()[i] != ':'
  {
    if iv.Name() == jv.Name() {
      assert |iv.Name()| == |jv.Name()| && iv.Name()[0] == jv.Name()[0] && iv.Name()[1] == jv.Name()[1];
    }
  }

  /** The text key tells symbol and interval apart, even for symbols with colons in them. */
  lemma CacheKeyInjective(a: string, iv: Interval, b: string, jv: Interval)
    requires CacheKey(a, iv) == CacheKey(b, jv)
    ensures a == b && iv == jv
  {
    NamesDiffer(iv, jv);
    NamesDiffer(jv, iv);
    var key, m, n := CacheKey(a, iv), iv.Name(), jv.Name();
    assert forall i :: |a| < i < |key| ==> key[i] == m[i - |a| - 1];
    assert forall i :: |b| < i < |key| ==> key[i] == n[i - |b| - 1];
    assert key[|a|] == ':' && key[|b|] == ':' && |a| == |b|;
    assert a == key[..|a|] == b;
    assert m == key[|a| + 1..] == n;
  }

  /** The key as the pair it stands for. */
  datatype CacheId = CacheId(symbol: string, interval: Interval)

  /** The first place whose row does not start before `from`, as sort.Search finds it. */
  method Search(es: seq<Row>, from: int) returns (at: nat)
    requires Sorted(es)
    ensures at <= |es|
    ensures forall i :: 0 <= i < at ==> es[i].start < from
    ensures forall i :: at <= i < |es| ==> es[i].start >= from
  {
    at := 0;
    var end := |es|;
    while at < end
      invariant at <= end <= |es|
      invariant forall i :: 0 <= i < at ==> es[i].start < from
      invariant forall i :: end <= i < |es| ==> es[i].start >= from
    {
      var mid := (at + end) / 2;
      if es[mid].start < from {
        at := mid + 1;
      } else {
        end := mid;
      }
    }
  }

  class KlineCache {
    var store: map<CacheId, seq<Row>>
    const maxItems: nat

    ghost predicate Valid()
      reads this
    {
      forall id :: id in store ==> Sorted(store[id])
    }

    constructor (max: nat)
      ensures Valid() && store == map[] && maxItems == max
    {
      store := map[];
      maxItems := max;
    }

    function Entries(id: CacheId): seq<Row>
      reads this
    {
      if id in store then store[id] else []
    }

    method Put(symbol: string, iv: Interval, klines: seq<Row>)
      requires Valid()
      modifies this
      ensures Valid()
      ensures var id := CacheId(symbol, iv);
              store == if klines == [] then old(store)
                       else old(store)[id := PutAll(old(Entries(id)), klines, maxItems)]
    {
      if |klines| == 0 {
        assert klines == [];
        return;
      }
      var id := CacheId(symbol, iv);
      var entries := [];
      if id in store {
        entries := store[id];
      }

      ghost var all := UpsertAll(entries, klines);
      var rest := klines;
      while |rest| > 0
        invariant Sorted(entries) && UpsertAll(entries, rest) == all && store == old(store)
      {
        var k := rest[0];
        var at := Search(entries, k.start);
        UpsertAt(entries, k, at);
        UpsertSorted(entries, k);
        if at < |entries| && entries[at].start == k.start {
          entries := entries[at := k];
        } else {
          entries := entries[..at] + [k] + entries[at..];
        }
        rest := rest[1..];
      }
      assert rest == [];
      if |entries| > maxItems {
        entries := entries[|entries| - maxItems..];
      }
      store := store[id := entries];
    }

    /** The first `limit` cached rows of the range, or nothing if there are none. */
    method Get(symbol: string, iv: Interval, from: int, to: int, limit: int) returns (out: Option<seq<Row>>)
      requires Valid()
      ensures var found := Limited(InRange(Entries(CacheId(symbol, iv)), from, to), limit);
              out == if found == [] then None else Some(found)
    {
      var id := CacheId(symbol, iv);
      if id !in store {
        return None;
      }
      var entries := store[id];
      if |entries| == 0 {
        return None;
      }
      var startIdx := Search(entries, from);
      RangeFrom(entries, from, to, startIdx);
      if startIdx == |entries| {
        return None;
      }
      var endIdx := startIdx;
      while endIdx < |entries| && entries[endIdx].start < to && (limit <= 0 || endIdx - startIdx < limit)
        invariant startIdx <= endIdx <= |entries| && (limit > 0 ==> endIdx - startIdx <= limit)
        invariant forall i :: startIdx <= i < endIdx ==> entries[i].start < to
      {
        endIdx := endIdx + 1;
      }
      RangeUpTo(entries, from, to, limit, startIdx, endIdx);
      if startIdx == endIdx {
        return None;
      }
      out := Some(entries[startIdx..endIdx]);
    }

    /** The time to live of a key runs out. */
    method Expire(id: CacheId)
      requires Valid()
      modifies this
      ensures Valid() && store == old(store) - {id}
    {
      store := store - {id};
    }
  }

  lemma {:induction false} RangeFrom(es: seq<Row>, from: int, to: int, at: nat)
    requires at <= |es| && forall i :: 0 <= i < at ==> es[i].start < from
    ensures InRange(es, from, to) == InRange(es[at..], from, to)
    decreases at
  {
    if at == 0 {
      assert es[0..] == es;
    } else {
      RangeFrom(es[1..], from, to, at - 1);
      assert es[1..][at - 1..] == es[at..];
    }
  }

  /** All rows of a sorted slice from a row on that is past the range are past it. */
  lemma {:induction false} RangeStops(es: seq<Row>, from: int, to: int)
    requires Sorted(es) && (es == [] || es[0].start >= to)
    ensures InRange(es, from, to) == []
  {
    if es != [] {
      SortedTail(es);
      RangeStops(es[1..], from, to);
    }
  }

  lemma {:induction false} RangeTake(front: seq<Row>, back: seq<Row>, from: int, to: int)
    requires forall i :: 0 <= i < |front| ==> from <= front[i].start < to
    ensures InRange(front + back, from, to) == front + InRange(back, from, to)
  {
    if front == [] {
      assert front + back == back;
    } else {
      var rest := front[1..];
      assert (front + back)[1..] == rest + back;
      RangeTake(rest, back, from, to);
      assert [front[0]] + (rest + InRange(back, from, to)) == front + InRange(back, from, to);
    }
  }

  lemma LimitReached(front: seq<Row>, more: seq<Row>, limit: int)
    requires limit > 0 && |front| == limit
    ensures Limited(front + more, limit) == front
  {
    assert (front + more)[..limit] == front;
    assert more == [] ==> front + more == front;
  }

  lemma LimitSpare(front: seq<Row>, limit: int)
    requires limit > 0 ==> |front| <= limit
    ensures Limited(front, limit) == front
  {
  }

  lemma SortedFrom(es: seq<Row>, at: nat)
    requires Sorted(es) && at <= |es|
    ensures Sorted(es[at..])
  {
  }

  lemma RangeUpTo(es: seq<Row>, from: int, to: int, limit: int, at: nat, end: nat)
    requires Sorted(es) && at < |es| && at <= end <= |es|
    requires forall i :: 0 <= i < at ==> es[i].start < from
    requires forall i :: at <= i < |es| ==> es[i].start >= from
    requires forall i :: at <= i < end ==> es[i].start < to
    requires limit > 0 ==> end - at <= limit
    requires end == |es| || es[end].start >= to || (limit > 0 && end - at == limit)
    ensures Limited(InRange(es, from, to), limit) == es[at..end]
  {
    var front, back := es[at..end], es[end..];
    assert es[at..] == front + back;
    assert back == [] || back[0] == es[end];
    SortedFrom(es, end);
    assert forall i :: 0 <= i < |front| ==> front[i] == es[at + i];
    RangeFrom(es, from, to, at);
    hide Sorted, InRange, Limited;
    RangeTake(front, back, from, to);
    if limit > 0 && end - at == limit {
      LimitReached(front, InRange(back, from, to), limit);
    } else {
      RangeStops(back, from, to);
      assert front + [] == front;
      LimitSpare(front, limit);
    }
  }
}
