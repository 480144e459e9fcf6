/** The repository (internal/repository/kline_repo.go): the table of each symbol with the cache in front of it. */
module Repository {
  import opened Intervals
  import opened Options
  import opened Klines
  import opened Tables
  import opened Cache

  /** A row as it was written, or as it reads back. */
  predicate Tells(r: Row, stored: Row) { r == stored || r == Persisted(stored) }

  /** Which is the same row unless a decimal is the most negative one, the only value that text columns do not keep. */
  lemma TellsExactly(r: Row, stored: Row)
    requires Tells(r, stored) && NoMin(stored)
    ensures r == stored
  {
    TextExactly(stored);
  }

  /** Every cached row tells the stored row. */
  ghost predicate Current(es: seq<Row>, iv: Interval, m: Table) {
    forall i :: 0 <= i < |es| ==> es[i].interval == iv && KeyOf(es[i]) in m && Tells(es[i], m[KeyOf(es[i])])
  }

  function SealAll(rows: seq<Row>): seq<Row> {
    if rows == [] then [] else [Seal(rows[0])] + SealAll(rows[1..])
  }

  // ---------------------------------------------------------------- writing

  lemma UpsertCurrent(es: seq<Row>, r: Row, iv: Interval, m: Table, stored: Row)
    requires Sorted(es) && Current(es, iv, m) && r.interval == iv && Tells(r, stored)
    ensures Current(Upsert(es, r), iv, m[KeyOf(r) := stored]) && Sorted(Upsert(es, r))
  {
    hide Upsert, Tells;
    UpsertSorted(es, r);
    var us, m' := Upsert(es, r), m[KeyOf(r) := stored];
    forall i | 0 <= i < |us|
      ensures us[i].interval == iv && KeyOf(us[i]) in m' && Tells(us[i], m'[KeyOf(us[i])])
    {
      UpsertMembers(es, r, us[i]);
      assert us[i] in us;
    }
  }

  /** Writing the rows of one batch to the table, each key's last row is the one kept; the cache upserts in the
      same order and keeps the same one. */
  lemma {:induction false} BatchCurrent(es: seq<Row>, rows: seq<Row>, iv: Interval, m: Table)
    requires Sorted(es) && Current(es, iv, m)
    ensures var us := UpsertAll(es, SealAll(Only(iv, rows))); Sorted(us) && Current(us, iv, SaveAll(m, rows))
    decreases |rows|
  {
    hide Upsert, Seal, Current, Sorted;
    if rows != [] {
      var r := Seal(rows[0]);
      SealKeepsKey(rows[0]);
      var rest := SealAll(Only(iv, rows[1..]));
      if rows[0].interval == iv {
        UpsertCurrent(es, r, iv, m, r);
        BatchCurrent(Upsert(es, r), rows[1..], iv, m[KeyOf(r) := r]);
        assert ([rows[0]] + Only(iv, rows[1..]))[1..] == Only(iv, rows[1..]);
        assert ([r] + rest)[1..] == rest;
      } else {
        OtherCurrent(es, r, iv, m);
        BatchCurrent(es, rows[1..], iv, m[KeyOf(r) := r]);
      }
    }
  }

  lemma OtherCurrent(es: seq<Row>, r: Row, iv: Interval, m: Table)
    requires Current(es, iv, m) && r.interval != iv
    ensures Current(es, iv, m[KeyOf(r) := r])
  {
  }

  lemma LastCurrent(es: seq<Row>, iv: Interval, m: Table, n: nat)
    requires Sorted(es) && Current(es, iv, m)
    ensures Sorted(LastN(es, n)) && Current(LastN(es, n), iv, m)
  {
  }

  /** Warming the cache with rows of the table keeps it current. */
  lemma {:induction false} WarmCurrent(es: seq<Row>, rows: seq<Row>, iv: Interval, m: Table)
    requires Sorted(es) && Current(es, iv, m) && Current(rows, iv, m)
    ensures var us := UpsertAll(es, rows); Sorted(us) && Current(us, iv, m)
    decreases |rows|
  {
    hide Upsert, Sorted, Tells;
    if rows != [] {
      var r := rows[0];
      assert m[KeyOf(r) := m[KeyOf(r)]] == m;
      UpsertCurrent(es, r, iv, m, m[KeyOf(r)]);
      WarmCurrent(Upsert(es, r), rows[1..], iv, m);
    }
  }

  // ---------------------------------------------------------------- reading

  lemma {:induction false} InRangeMembers(es: seq<Row>, from: int, to: int, r: Row)
    ensures r in InRange(es, from, to) <==> r in es && from <= r.start < to
  {
    if es != [] {
      InRangeMembers(es[1..], from, to, r);
      assert r in es <==> r == es[0] || r in es[1..];
    }
  }

  lemma {:induction false} InRangeSorted(es: seq<Row>, from: int, to: int)
    requires Sorted(es)
    ensures Sorted(InRange(es, from, to))
  {
    if es != [] {
      SortedTail(es);
      InRangeSorted(es[1..], from, to);
      var rest := InRange(es[1..], from, to);
      forall i | 0 <= i < |rest|
        ensures es[0].start < rest[i].start
      {
        InRangeMembers(es[1..], from, to, rest[i]);
        assert rest[i] in rest;
      }
    }
  }

  /** An answer in ascending order whose rows tell stored rows of the range. */
  ghost predicate Sound(out: seq<Row>, m: Table, iv: Interval, from: int, to: int) {
    Sorted(out) && Current(out, iv, m) && forall i :: 0 <= i < |out| ==> from <= out[i].start < to
  }

  lemma HitSound(es: seq<Row>, m: Table, iv: Interval, from: int, to: int, limit: int)
    requires Sorted(es) && Current(es, iv, m)
    ensures Sound(Limited(InRange(es, from, to), limit), m, iv, from, to)
  {
    var found := InRange(es, from, to);
    InRangeSorted(es, from, to);
    forall i | 0 <= i < |found|
      ensures found[i] in es && from <= found[i].start < to
    {
      InRangeMembers(es, from, to, found[i]);
      assert found[i] in found;
    }
  }

  /** The answer of the database: all of its rows, each as written or as read back. */
  ghost predicate IsAnswer(out: seq<Row>, m: Table, iv: Interval, from: int, to: int, limit: int) {
    KeysOf(out) == Select(m, iv, from, to, limit) && Current(out, iv, m)
  }

  /** The cache knows every row of the database's answer. */
  ghost predicate KnowsAnswer(es: seq<Row>, m: Table, iv: Interval, from: int, to: int, limit: int) {
    forall k :: k in Select(m, iv, from, to, limit) ==> HasKey(es, k)
  }

  /** The keys in the range that the cache knows. */
  ghost function Known(es: seq<Row>, m: Table, iv: Interval, from: int, to: int): set<Key> {
    set k | k in KeysIn(m, iv, from, to) && HasKey(es, k)
  }

  lemma HitKeys(es: seq<Row>, m: Table, iv: Interval, from: int, to: int)
    requires Sorted(es) && Current(es, iv, m)
    ensures KeysOf(InRange(es, from, to)) == Ascending(Known(es, m, iv, from, to))
  {
    hide InRange;
    var found, s := InRange(es, from, to), Known(es, m, iv, from, to);
    InRangeSorted(es, from, to);
    forall k
      ensures k in KeysOf(found) <==> k in s
    {
      KeysOfHas(found, k);
      FoundKey(es, m, iv, from, to, k);
    }
    AscendingUnique(iv, KeysOf(found), s);
  }

  lemma FoundKey(es: seq<Row>, m: Table, iv: Interval, from: int, to: int, k: Key)
    requires Current(es, iv, m)
    ensures HasKey(InRange(es, from, to), k) <==> k in KeysIn(m, iv, from, to) && HasKey(es, k)
  {
    hide InRange;
    var found := InRange(es, from, to);
    if HasKey(found, k) {
      var i :| 0 <= i < |found| && KeyOf(found[i]) == k;
      InRangeMembers(es, from, to, found[i]);
      assert found[i] in found;
      HasKeyMember(es, found[i]);
    }
    if k in KeysIn(m, iv, from, to) && HasKey(es, k) {
      var i :| 0 <= i < |es| && KeyOf(es[i]) == k;
      InRangeMembers(es, from, to, es[i]);
      HasKeyMember(found, es[i]);
    }
  }

  /** The first keys of a set are the first keys of a part of it, if they lie in the part. */
  lemma {:induction false} FirstOfPart(iv: Interval, s: set<Key>, part: set<Key>, n: nat)
    requires part <= s && OneInterval(iv, s)
    requires forall k :: k in FirstN(Ascending(s), n) ==> k in part
    ensures FirstN(Ascending(s), n) == FirstN(Ascending(part), n)
    decreases n
  {
    hide FirstN, IsFirst;
    if s == {} {
      assert part == {};
    } else if n == 0 {
      FirstNone(Ascending(s));
      FirstNone(Ascending(part));
    } else {
      var m := First(s);
      FirstOfMore(m, Ascending(s - {m}), n);
      assert FirstN(Ascending(s), n)[0] == m;
      FirstInPart(iv, s, part, m);
      FirstOfMore(m, Ascending(part - {m}), n);
      RestInPart(iv, s, part, m, n);
      FirstOfPart(iv, s - {m}, part - {m}, n - 1);
    }
  }

  lemma FirstNone(ks: seq<Key>)
    ensures FirstN(ks, 0) == []
  {
  }

  lemma FirstInPart(iv: Interval, s: set<Key>, part: set<Key>, m: Key)
    requires part <= s && OneInterval(iv, s) && m in part && m == First(s)
    ensures First(part) == m
  {
    FirstUnique(iv, part, m);
  }

  /** The keys after the first one lie in the rest of the part. */
  lemma RestInPart(iv: Interval, s: set<Key>, part: set<Key>, m: Key, n: nat)
    requires OneInterval(iv, s) && n > 0 && s != {} && m == First(s)
    requires forall k :: k in FirstN(Ascending(s), n) ==> k in part
    ensures forall k :: k in FirstN(Ascending(s - {m}), n - 1) ==> k in part - {m}
  {
    hide FirstN, IsFirst;
    FirstOfMore(m, Ascending(s - {m}), n);
    AscendingFacts(iv, s - {m});
    forall k | k in FirstN(Ascending(s - {m}), n - 1)
      ensures k in part - {m}
    {
      assert k in FirstN(Ascending(s), n);
      FirstMember(Ascending(s - {m}), n - 1, k);
    }
  }

  lemma FirstMember(ks: seq<Key>, n: nat, k: Key)
    requires k in FirstN(ks, n)
    ensures k in ks
  {
  }

  lemma FirstOfMore(m: Key, rest: seq<Key>, n: nat)
    requires n > 0
    ensures FirstN([m] + rest, n) == [m] + FirstN(rest, n - 1)
  {
    if 0 < n - 1 < |rest| {
      assert ([m] + rest)[..n] == [m] + rest[..n - 1];
    } else if n == 1 {
      assert rest != [] ==> ([m] + rest)[..1] == [m] + [];
    }
  }

  /** A hit with a positive limit is the database's answer exactly when the cache knows every row of that answer;
      otherwise it is a sound but partial one. */
  lemma HitExact(es: seq<Row>, m: Table, iv: Interval, from: int, to: int, limit: int)
    requires Sorted(es) && Current(es, iv, m) && limit > 0
    ensures IsAnswer(Limited(InRange(es, from, to), limit), m, iv, from, to, limit)
            <==> KnowsAnswer(es, m, iv, from, to, limit)
  {
    hide InRange, Ascending, Sorted, Current;
    var s, part := KeysIn(m, iv, from, to), Known(es, m, iv, from, to);
    var out := Limited(InRange(es, from, to), limit);
    HitKeys(es, m, iv, from, to);
    HitSound(es, m, iv, from, to, limit);
    KeysOfFirst(InRange(es, from, to), limit);
    AscendingFacts(iv, s);
    AscendingFacts(iv, part);
    if KnowsAnswer(es, m, iv, from, to, limit) {
      assert forall k :: k in FirstN(Ascending(s), limit) ==> k in Ascending(s);
      FirstOfPart(iv, s, part, limit);
    }
    if KeysOf(out) == Select(m, iv, from, to, limit) {
      forall k | k in Select(m, iv, from, to, limit)
        ensures HasKey(es, k)
      {
        FirstMember(Ascending(part), limit, k);
      }
    }
  }

  lemma KeysOfFirst(es: seq<Row>, limit: int)
    requires limit > 0
    ensures KeysOf(Limited(es, limit)) == FirstN(KeysOf(es), limit)
  {
  }

  /** In particular when the cache knows every stored row of the range. */
  lemma HitComplete(es: seq<Row>, m: Table, iv: Interval, from: int, to: int, limit: int)
    requires Sorted(es) && Current(es, iv, m) && limit > 0
    requires forall k :: k in KeysIn(m, iv, from, to) ==> HasKey(es, k)
    ensures IsAnswer(Limited(InRange(es, from, to), limit), m, iv, from, to, limit)
  {
    hide InRange, Limited, Ascending, Sorted, Current;
    SelectFacts(m, iv, from, to, limit);
    assert forall k :: k in Select(m, iv, from, to, limit) ==> k in KeysIn(m, iv, from, to);
    HitExact(es, m, iv, from, to, limit);
  }

  // ---------------------------------------------------------------- the repository

  class KlineRepo {
    var db: map<string, Table>
    const cache: KlineCache

    /** The table of a symbol; a table that does not exist reads as empty. */
    function TableOf(symbol: string): Table
      reads this
    {
      if symbol in db then db[symbol] else map[]
    }

    ghost predicate Valid()
      reads this, cache
    {
      && cache.Valid()
      && (forall symbol :: symbol in db ==> Keyed(db[symbol]))
      && forall id :: id in cache.store ==> Current(cache.store[id], id.interval, TableOf(id.symbol))
    }

    constructor (maxItems: nat)
      ensures Valid() && fresh(cache) && db == map[] && cache.store == map[] && cache.maxItems == maxItems
    {
      db := map[];
      cache := new KlineCache(maxItems);
    }

    /** What a batch leaves in the cache for one symbol and interval. */
    ghost predicate Warmed(entries: seq<Row>, id: CacheId, symbol: string, klines: seq<Row>)
      reads this, cache
    {
      cache.Entries(id) == if id.symbol == symbol && Only(id.interval, klines) != []
                           then PutAll(entries, SealAll(Only(id.interval, klines)), cache.maxItems) else entries
    }

    /** Puts each group into the cache; the groups are met in any order. */
    method Warm(symbol: string, byInterval: map<Interval, seq<Row>>, ghost klines: seq<Row>)
      requires cache.Valid() && Grouped(byInterval, klines)
      modifies cache
      ensures cache.Valid() && forall id :: Warmed(old(cache.Entries(id)), id, symbol, klines)
    {
      hide Only, SealAll, PutAll, Sorted;
      var left := byInterval.Keys;
      while left != {}
        invariant left <= byInterval.Keys && cache.Valid()
        invariant forall id: CacheId ::
                    if id.symbol == symbol && id.interval in left then cache.Entries(id) == old(cache.Entries(id))
                    else Warmed(old(cache.Entries(id)), id, symbol, klines)
        decreases left
      {
        var iv :| iv in left;
        cache.Put(symbol, iv, byInterval[iv]);
        left := left - {iv};
      }
    }

    /** Writes rows in one transaction and warms the cache with them; a failed transaction changes nothing, and a
        row with a negative count makes it fail. */
    method BatchSave(symbol: string, klines: seq<Row>, commits: bool) returns (ok: bool)
      requires Valid()
      modifies this, cache
      ensures Valid() && ok == (klines == [] || (commits && Storable(klines)))
      ensures db == if ok && klines != [] then old(db)[symbol := SaveAll(old(TableOf(symbol)), klines)] else old(db)
      ensures forall id :: Warmed(old(cache.Entries(id)), id, symbol, if ok then klines else [])
    {
      if |klines| == 0 {
        assert klines == [];
        NothingOnly();
        return true;
      }
      NothingOnly();
      var tx, accepted := Execute(TableOf(symbol), klines);
      hide Only, SealAll, PutAll, Sorted, SaveAll, Current, Keyed, Seal, Storable;
      if !accepted || !commits {
        return false;
      }
      db := db[symbol := tx];
      var byInterval := GroupByInterval(klines);
      assert forall id :: cache.Entries(id) == old(cache.Entries(id));
      Warm(symbol, byInterval, klines);
      SaveKeepsKeyed(old(TableOf(symbol)), klines) by {
        EmptyKeyed();
      }
      forall id | id in cache.store
        ensures Current(cache.store[id], id.interval, TableOf(id.symbol))
      {
        assert Warmed(old(cache.Entries(id)), id, symbol, klines);
        EmptyCurrent(id.interval, old(TableOf(id.symbol)));
        WarmedCurrent(old(cache.Entries(id)), cache.Entries(id), klines, id, symbol, old(TableOf(id.symbol)),
                      cache.maxItems);
      }
      ok := true;
    }

    /** The statements of a transaction, up to the first that is refused. */
    method Execute(before: Table, klines: seq<Row>) returns (tx: Table, accepted: bool)
      ensures accepted == Storable(klines) && (accepted ==> tx == SaveAll(before, klines))
    {
      hide Seal, SaveAll;
      tx := before;
      var rest := klines;
      while |rest| > 0
        invariant SaveAll(tx, rest) == SaveAll(before, klines) && Storable(rest) == Storable(klines)
      {
        StorableFirst(rest);
        if rest[0].count < 0 {
          return tx, false;
        }
        SaveFirst(tx, rest);
        tx := tx[KeyOf(rest[0]) := Seal(rest[0])];
        rest := rest[1..];
      }
      SaveNone(tx, rest);
      accepted := true;
    }

    /** A hit is answered from the cache alone; a miss asks the table and warms the cache. Either way the answer is
        ascending and true, and it is the database's answer unless a hit with a positive limit is partial. */
    method Query(symbol: string, iv: Interval, from: int, to: int, limit: int) returns (out: seq<Row>, hit: bool)
      requires Valid()
      modifies cache
      ensures Valid() && Sound(out, TableOf(symbol), iv, from, to)
      ensures var found := Limited(InRange(old(cache.Entries(CacheId(symbol, iv))), from, to), limit);
              hit == (found != []) && (hit ==> out == found && cache.store == old(cache.store))
      ensures !hit ==> IsAnswer(out, TableOf(symbol), iv, from, to, limit) && FromTable(out, TableOf(symbol))
      ensures !hit && out != [] ==> cache.Entries(CacheId(symbol, iv)) ==
                                    PutAll(old(cache.Entries(CacheId(symbol, iv))), out, cache.maxItems)
      ensures var entries := old(cache.Entries(CacheId(symbol, iv)));
              limit > 0 ==> (IsAnswer(out, TableOf(symbol), iv, from, to, limit) <==>
                             !hit || KnowsAnswer(entries, TableOf(symbol), iv, from, to, limit))
    {
      hide Current, Sorted, Keyed, Limited, InRange, Select, KnowsAnswer, IsAnswer, Sound, PutAll, FromTable;
      var id, m := CacheId(symbol, iv), TableOf(symbol);
      ghost var entries := cache.Entries(id);
      EmptyCurrent(iv, m);
      EmptyKeyed();
      assert Sorted(entries) && Current(entries, iv, m);
      HitSound(entries, m, iv, from, to, limit);
      if limit > 0 {
        HitExact(entries, m, iv, from, to, limit);
      }
      var cached := cache.Get(symbol, iv, from, to, limit);
      if cached.Some? {
        return cached.value, true;
      }
      hit := false;
      var rows;
      ghost var ks;
      rows, ks := Tables.Query(m, iv, from, to, limit);
      out := ReadBack(rows);
      MissSound(rows, out, ks, m, iv, from, to, limit);
      if |out| > 0 {
        PutCurrent(entries, out, iv, m, cache.maxItems);
        cache.Put(symbol, iv, out);
      }
    }

    /** The row of one window, read back from its text columns: the stored row, exactly when none of its decimals is
        the most negative one. */
    method LoadKline(symbol: string, iv: Interval, start: int) returns (r: Option<Row>)
      requires Valid()
      ensures var m, k := TableOf(symbol), Key(iv, start);
              if k in m then r == Some(Persisted(m[k])) && (r == Some(m[k]) <==> NoMin(m[k])) else r == None
    {
      hide NoMin, Persisted;
      var m, k := TableOf(symbol), Key(iv, start);
      if k !in m {
        return None;
      }
      TextExactly(m[k]);
      r := Some(Persisted(m[k]));
    }

    method Expire(id: CacheId)
      requires Valid()
      modifies cache
      ensures Valid() && cache.store == old(cache.store) - {id}
    {
      cache.Expire(id);
    }
  }

  /** Decimal columns are read back from their text. */
  method ReadBack(rows: seq<Row>) returns (out: seq<Row>)
    ensures |out| == |rows| && forall i :: 0 <= i < |rows| ==> out[i] == Persisted(rows[i])
  {
    hide Persisted;
    out := [];
    for i := 0 to |rows|
      invariant |out| == i && forall j :: 0 <= j < i ==> out[j] == Persisted(rows[j])
    {
      out := out + [Persisted(rows[i])];
    }
  }

  /** Every row is read back from the table. */
  ghost predicate FromTable(out: seq<Row>, m: Table) {
    forall i :: 0 <= i < |out| ==> KeyOf(out[i]) in m && out[i] == Persisted(m[KeyOf(out[i])])
  }

  lemma MissSound(rows: seq<Row>, out: seq<Row>, ks: seq<Key>, m: Table, iv: Interval, from: int, to: int, limit: int)
    requires Keyed(m) && ks == Select(m, iv, from, to, limit)
    requires |rows| == |ks| && forall i :: 0 <= i < |ks| ==> ks[i] in m && rows[i] == m[ks[i]]
    requires |out| == |rows| && forall i :: 0 <= i < |rows| ==> out[i] == Persisted(rows[i])
    ensures Sound(out, m, iv, from, to) && IsAnswer(out, m, iv, from, to, limit) && Current(out, iv, m)
    ensures FromTable(out, m)
  {
    hide Select;
    SelectFacts(m, iv, from, to, limit);
    forall i | 0 <= i < |rows|
      ensures KeyOf(out[i]) == ks[i] && ks[i] in KeysIn(m, iv, from, to) && Tells(out[i], m[ks[i]])
    {
    }
    hide Persisted, Tells;
    assert KeysOf(out) == ks;
  }

  lemma PutCurrent(es: seq<Row>, rows: seq<Row>, iv: Interval, m: Table, n: nat)
    requires Sorted(es) && Current(es, iv, m) && Current(rows, iv, m)
    ensures Current(PutAll(es, rows, n), iv, m)
  {
    hide Sorted, Current, LastN;
    WarmCurrent(es, rows, iv, m);
    LastCurrent(UpsertAll(es, rows), iv, m, n);
  }

  /** The rows by interval, averaged, each group in order. */
  ghost predicate Grouped(groups: map<Interval, seq<Row>>, rows: seq<Row>) {
    forall iv: Interval :: (iv in groups <==> Only(iv, rows) != [])
                           && (iv in groups ==> groups[iv] == SealAll(Only(iv, rows)) != [])
  }

  function GroupOf(groups: map<Interval, seq<Row>>, iv: Interval): seq<Row> {
    if iv in groups then groups[iv] else []
  }

  method GroupByInterval(rows: seq<Row>) returns (groups: map<Interval, seq<Row>>)
    ensures Grouped(groups, rows)
  {
    hide Seal, Only;
    groups := map[];
    var rest := rows;
    while |rest| > 0
      invariant forall iv: Interval :: GroupOf(groups, iv) + SealAll(Only(iv, rest)) == SealAll(Only(iv, rows))
      invariant forall iv: Interval :: iv in groups ==> groups[iv] != []
    {
      var k := rest[0];
      ghost var before := groups;
      groups := groups[k.interval := (if k.interval in groups then groups[k.interval] else []) + [Seal(k)]];
      forall iv: Interval
        ensures GroupOf(groups, iv) + SealAll(Only(iv, rest[1..])) == GroupOf(before, iv) + SealAll(Only(iv, rest))
      {
        GroupAdd(before, groups, rest, iv);
      }
      rest := rest[1..];
    }
    forall iv: Interval
      ensures GroupOf(groups, iv) == SealAll(Only(iv, rows))
      ensures SealAll(Only(iv, rows)) != [] <==> Only(iv, rows) != []
    {
      assert rest == [] && GroupOf(groups, iv) + [] == GroupOf(groups, iv);
      NoGroup(iv);
    }
  }

  lemma NoGroup(iv: Interval)
    ensures SealAll(Only(iv, [])) == []
  {
  }

  lemma GroupAdd(before: map<Interval, seq<Row>>, after: map<Interval, seq<Row>>, rest: seq<Row>, iv: Interval)
    requires rest != []
    requires after == before[rest[0].interval := GroupOf(before, rest[0].interval) + [Seal(rest[0])]]
    ensures GroupOf(after, iv) + SealAll(Only(iv, rest[1..])) == GroupOf(before, iv) + SealAll(Only(iv, rest))
  {
    GroupNext(rest, iv);
    hide SealAll, Only, Seal;
    Regroup(GroupOf(before, iv), Seal(rest[0]), SealAll(Only(iv, rest[1..])));
  }

  lemma Regroup(a: seq<Row>, r: Row, b: seq<Row>)
    ensures a + ([r] + b) == (a + [r]) + b
  {
  }

  lemma GroupNext(rest: seq<Row>, iv: Interval)
    requires rest != []
    ensures SealAll(Only(iv, rest)) ==
            if rest[0].interval == iv then [Seal(rest[0])] + SealAll(Only(iv, rest[1..]))
            else SealAll(Only(iv, rest[1..]))
  {
    assert ([rest[0]] + Only(iv, rest[1..]))[1..] == Only(iv, rest[1..]);
  }

  lemma SaveFirst(m: Table, rows: seq<Row>)
    requires rows != []
    ensures SaveAll(m, rows) == SaveAll(m[KeyOf(rows[0]) := Seal(rows[0])], rows[1..])
  {
  }

  lemma SaveNone(m: Table, rows: seq<Row>)
    requires |rows| == 0
    ensures SaveAll(m, rows) == m
  {
  }

  lemma StorableFirst(rows: seq<Row>)
    requires rows != []
    ensures Storable(rows) <==> rows[0].count >= 0 && Storable(rows[1..])
  {
    assert forall i :: 0 < i < |rows| ==> rows[i] == rows[1..][i - 1];
  }

  lemma NothingOnly()
    ensures forall iv: Interval :: Only(iv, []) == []
  {
  }

  lemma EmptyKeyed()
    ensures Keyed(map[])
  {
  }

  lemma EmptyCurrent(iv: Interval, m: Table)
    ensures Current([], iv, m) && Sorted([])
  {
  }

  lemma WarmedCurrent(before: seq<Row>, after: seq<Row>, klines: seq<Row>, id: CacheId, symbol: string,
                      m: Table, n: nat)
    requires Sorted(before) && Current(before, id.interval, m)
    requires after == if id.symbol == symbol && Only(id.interval, klines) != []
                      then PutAll(before, SealAll(Only(id.interval, klines)), n) else before
    ensures Current(after, id.interval, if id.symbol == symbol then SaveAll(m, klines) else m)
  {
    hide Only, Sorted, SaveAll, Current, LastN;
    if id.symbol == symbol {
      var group := SealAll(Only(id.interval, klines));
      BatchCurrent(before, klines, id.interval, m);
      LastCurrent(UpsertAll(before, group), id.interval, SaveAll(m, klines), n);
    }
  }
}
