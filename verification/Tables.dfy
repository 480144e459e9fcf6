/** One symbol's kline table as a map, with the two statements the service issues against it
    (internal/repository/kline_repo.go): REPLACE and the ranged, ordered, limited SELECT. */
module Tables {
  import opened Int64
  import opened Options
  import opened DecimalRoundTrip
  import opened Intervals
  import opened Klines

  datatype Key = Key(interval: Interval, start: int)

  type Table = map<Key, Row>

  function KeyOf(r: Row): Key { Key(r.interval, r.start) }

  /** Every row is stored under its own primary key. */
  ghost predicate Keyed(db: Table) {
    forall k :: k in db ==> KeyOf(db[k]) == k
  }

  /** The rows of one BatchSave, each averaged first; a later row with the same key replaces an earlier one. */
  function SaveAll(db: Table, rows: seq<Row>): Table
    decreases |rows|
  {
    if rows == [] then db else SaveAll(db[KeyOf(rows[0]) := Seal(rows[0])], rows[1..])
  }

  /** The count column is unsigned. */
  predicate Storable(rows: seq<Row>) { forall i :: 0 <= i < |rows| ==> rows[i].count >= 0 }

  /** A transaction that may fail, and does if a row cannot be stored: then none is. */
  function Saved(db: Table, rows: seq<Row>, ok: bool): Table {
    if ok && Storable(rows) then SaveAll(db, rows) else db
  }

  lemma SealKeepsKey(r: Row)
    ensures KeyOf(Seal(r)) == KeyOf(r)
  {
  }

  lemma {:induction false} SaveKeepsKeyed(db: Table, rows: seq<Row>)
    requires Keyed(db)
    ensures Keyed(SaveAll(db, rows))
    decreases |rows|
  {
    if rows != [] {
      SealKeepsKey(rows[0]);
      SaveKeepsKeyed(db[KeyOf(rows[0]) := Seal(rows[0])], rows[1..]);
    }
  }

  ghost predicate HasKey(rows: seq<Row>, k: Key) {
    exists i :: 0 <= i < |rows| && KeyOf(rows[i]) == k
  }

  ghost predicate DistinctKeys(rows: seq<Row>) {
    forall i, j :: 0 <= i < j < |rows| ==> KeyOf(rows[i]) != KeyOf(rows[j])
  }

  /** Keys that no saved row has keep their row. */
  lemma {:induction false} SaveElsewhere(db: Table, rows: seq<Row>, k: Key)
    requires !HasKey(rows, k)
    ensures k in SaveAll(db, rows) <==> k in db
    ensures k in db ==> SaveAll(db, rows)[k] == db[k]
    decreases |rows|
  {
    if rows != [] {
      assert KeyOf(rows[0]) != k;
      assert forall i :: 0 <= i < |rows| - 1 ==> rows[1..][i] == rows[i + 1];
      SaveElsewhere(db[KeyOf(rows[0]) := Seal(rows[0])], rows[1..], k);
    }
  }

  lemma HasKeyMember(rows: seq<Row>, r: Row)
    requires r in rows
    ensures HasKey(rows, KeyOf(r))
  {
    var i :| 0 <= i < |rows| && rows[i] == r;
    assert KeyOf(rows[i]) == KeyOf(r);
  }

  /** After a save each key has the row of some saved kline with that key, or what it had. */
  lemma {:induction false} SaveAllAt(db: Table, rows: seq<Row>, k: Key)
    ensures var out := SaveAll(db, rows);
            if HasKey(rows, k) then k in out && exists r :: r in rows && KeyOf(r) == k && out[k] == Seal(r)
            else (k in out <==> k in db) && (k in db ==> out[k] == db[k])
    decreases |rows|
  {
    if !HasKey(rows, k) {
      SaveElsewhere(db, rows, k);
    } else {
      var rest, db' := rows[1..], db[KeyOf(rows[0]) := Seal(rows[0])];
      SaveAllAt(db', rest, k);
      if HasKey(rest, k) {
        var r :| r in rest && KeyOf(r) == k && SaveAll(db', rest)[k] == Seal(r);
        assert r in rows;
      } else {
        assert forall i :: 0 < i < |rows| ==> rows[i] == rest[i - 1];
        assert KeyOf(rows[0]) == k && rows[0] in rows;
      }
    }
  }

  /** The rows of one interval, in order. */
  function Only(iv: Interval, rows: seq<Row>): seq<Row> {
    if rows == [] then []
    else if rows[0].interval == iv then [rows[0]] + Only(iv, rows[1..])
    else Only(iv, rows[1..])
  }

  lemma {:induction false} OnlyConcat(iv: Interval, a: seq<Row>, b: seq<Row>)
    ensures Only(iv, a + b) == Only(iv, a) + Only(iv, b)
  {
    if a == [] {
      assert a + b == b;
    } else {
      assert (a + b)[1..] == a[1..] + b;
      OnlyConcat(iv, a[1..], b);
      assert [a[0]] + (Only(iv, a[1..]) + Only(iv, b)) == [a[0]] + Only(iv, a[1..]) + Only(iv, b);
    }
  }

  lemma OnlyOne(iv: Interval, r: Row)
    ensures Only(iv, [r]) == if r.interval == iv then [r] else []
  {
    assert [r][1..] == [];
  }

  // ---------------------------------------------------------------- SELECT … ORDER BY st LIMIT

  function KeysIn(db: Table, iv: Interval, from: int, to: int): set<Key> {
    set k | k in db && k.interval == iv && from <= k.start < to
  }

  ghost predicate IsFirst(m: Key, s: set<Key>) {
    m in s && forall k :: k in s ==> m.start <= k.start
  }

  lemma {:induction false} HasFirst(s: set<Key>, k: Key) returns (m: Key)
    requires k in s
    ensures IsFirst(m, s)
    decreases s
  {
    m := k;
    if z :| z in s && z.start < k.start {
      m := HasFirst(s - {k}, z);
      forall x | x in s
        ensures m.start <= x.start
      {
        assert x == k || x in s - {k};
      }
    }
  }

  lemma FirstExists(s: set<Key>)
    requires s != {}
    ensures exists m :: IsFirst(m, s)
  {
    var k :| k in s;
    var m := HasFirst(s, k);
  }

  ghost function First(s: set<Key>): (m: Key)
    requires s != {}
    ensures IsFirst(m, s)
  {
    FirstExists(s);
    var m :| IsFirst(m, s);
    m
  }

  /** The keys of one interval in ascending order of start. */
  ghost function Ascending(s: set<Key>): seq<Key> {
    if s == {} then [] else [First(s)] + Ascending(s - {First(s)})
  }

  ghost predicate AscendingKeys(ks: seq<Key>) {
    forall i, j :: 0 <= i < j < |ks| ==> ks[i].start < ks[j].start
  }

  ghost predicate OneInterval(iv: Interval, s: set<Key>) {
    forall k :: k in s ==> k.interval == iv
  }

  lemma {:induction false} AscendingFacts(iv: Interval, s: set<Key>)
    requires OneInterval(iv, s)
    ensures AscendingKeys(Ascending(s)) && |Ascending(s)| == |s|
    ensures forall k :: k in Ascending(s) <==> k in s
  {
    if s != {} {
      var m := First(s);
      var rest := Ascending(s - {m});
      AscendingFacts(iv, s - {m});
      assert Ascending(s) == [m] + rest;
      forall i, j | 0 <= i < j < |rest| + 1
        ensures ([m] + rest)[i].start < ([m] + rest)[j].start
      {
        assert rest[j - 1] in rest;
        assert rest[j - 1] in s - {m};
      }
    }
  }

  function FirstN<T>(xs: seq<T>, n: int): seq<T> {
    if n <= 0 then [] else if n < |xs| then xs[..n] else xs
  }

  /** What the database answers: the keys of the first `limit` rows of the range, in ascending order. */
  ghost function Select(db: Table, iv: Interval, from: int, to: int, limit: int): seq<Key> {
    FirstN(Ascending(KeysIn(db, iv, from, to)), limit)
  }

  ghost function RowsOf(db: Table, ks: seq<Key>): seq<Row>
    requires forall i :: 0 <= i < |ks| ==> ks[i] in db
  {
    seq(|ks|, i requires 0 <= i < |ks| => db[ks[i]])
  }

  /** The answer is ascending, sound, no longer than the limit, and a prefix of the whole range. */
  lemma SelectFacts(db: Table, iv: Interval, from: int, to: int, limit: int)
    ensures var ks := Select(db, iv, from, to, limit);
            AscendingKeys(ks)
            && (forall i :: 0 <= i < |ks| ==> ks[i] in KeysIn(db, iv, from, to))
            && (|KeysIn(db, iv, from, to)| <= limit ==>
                  forall k :: k in KeysIn(db, iv, from, to) ==> k in ks)
  {
    var s := KeysIn(db, iv, from, to);
    AscendingFacts(iv, s);
    var all, ks := Ascending(s), Select(db, iv, from, to, limit);
    assert forall i :: 0 <= i < |ks| ==> ks[i] == all[i] && all[i] in all;
  }

  lemma FirstUnique(iv: Interval, s: set<Key>, m: Key)
    requires OneInterval(iv, s) && IsFirst(m, s)
    ensures First(s) == m
  {
    var f := First(s);
    assert f.start == m.start;
  }

  /** The SELECT statement, answered from a table. */
  method Query(db: Table, iv: Interval, from: int, to: int, limit: int) returns (rows: seq<Row>, ghost ks: seq<Key>)
    ensures ks == Select(db, iv, from, to, limit)
    ensures |rows| == |ks| && forall i :: 0 <= i < |ks| ==> ks[i] in db && rows[i] == db[ks[i]]
  {
    hide Ascending, IsFirst, FirstN;
    var left := KeysIn(db, iv, from, to);
    ghost var all := Ascending(left);
    rows, ks := [], [];
    assert all == [] + all;
    while left != {} && |rows| < limit
      invariant left <= KeysIn(db, iv, from, to) && OneInterval(iv, left)
      invariant all == ks + Ascending(left)
      invariant |rows| == |ks| && (limit >= 0 ==> |rows| <= limit) && (limit < 0 ==> rows == [])
      invariant forall i :: 0 <= i < |ks| ==> ks[i] in db && rows[i] == db[ks[i]]
      decreases left
    {
      EarliestExists(left);
      var m :| m in left && forall k :: k in left ==> m.start <= k.start;
      TakeFirst(iv, left, m, ks);
      rows, ks, left := rows + [db[m]], ks + [m], left - {m};
    }
    PrefixTaken(ks, Ascending(left), limit) by {
      NoneAscending();
    }
  }

  lemma EarliestExists(s: set<Key>)
    requires s != {}
    ensures exists m :: m in s && forall k :: k in s ==> m.start <= k.start
  {
    FirstExists(s);
  }

  lemma TakeFirst(iv: Interval, s: set<Key>, m: Key, ks: seq<Key>)
    requires OneInterval(iv, s) && m in s && forall k :: k in s ==> m.start <= k.start
    ensures ks + Ascending(s) == (ks + [m]) + Ascending(s - {m})
  {
    FirstUnique(iv, s, m);
  }

  lemma NoneAscending()
    ensures Ascending({}) == []
  {
  }

  lemma PrefixTaken(ks: seq<Key>, rest: seq<Key>, limit: int)
    requires (limit >= 0 && |ks| == limit) || (limit < 0 && ks == []) || (rest == [] && |ks| <= limit)
    ensures FirstN(ks + rest, limit) == ks
  {
  }

  // ---------------------------------------------------------------- text columns

  function Persisted(r: Row): Row {
    r.(open := ParseDec(ColumnText(r.open)), high := ParseDec(ColumnText(r.high)),
       low := ParseDec(ColumnText(r.low)), close := ParseDec(ColumnText(r.close)),
       volume := ParseDec(ColumnText(r.volume)), amount := ParseDec(ColumnText(r.amount)),
       buyVol := ParseDec(ColumnText(r.buyVol)), buyAmt := ParseDec(ColumnText(r.buyAmt)),
       avg := ParseDec(ColumnText(r.avg)))
  }

  predicate NoMin(r: Row) {
    r.open != MIN && r.high != MIN && r.low != MIN && r.close != MIN && r.volume != MIN
    && r.amount != MIN && r.buyVol != MIN && r.buyAmt != MIN && r.avg != MIN
  }

  lemma TextExactly(r: Row)
    ensures Persisted(r) == r <==> NoMin(r)
  {
    ColumnRoundTrip(r.open);
    ColumnRoundTrip(r.high);
    ColumnRoundTrip(r.low);
    ColumnRoundTrip(r.close);
    ColumnRoundTrip(r.volume);
    ColumnRoundTrip(r.amount);
    ColumnRoundTrip(r.buyVol);
    ColumnRoundTrip(r.buyAmt);
    ColumnRoundTrip(r.avg);
  }

  /** What a row reads back as, if its write is accepted. */
  function WriteRead(r: Row): Option<Row> {
    if Storable([r]) then Some(Persisted(r)) else None
  }

  /** Writing a row and reading it back gives the same row exactly when no decimal is the most negative value and
      the count has not wrapped below zero. */
  lemma PersistedExactly(r: Row)
    ensures WriteRead(r) == Some(r) <==> NoMin(r) && r.count >= 0
  {
    hide Persisted, NoMin;
    assert [r][0] == r;
    TextExactly(r);
  }
}
