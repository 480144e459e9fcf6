/** The aggregator itself (internal/kline/aggregator.go): one set of buckets per symbol, the buffer of completed
    rows, and the loops of a checkpoint. Klines leave the buckets as values. */
module Aggregators {
  import opened Intervals
  import opened Options
  import opened Klines
  import opened Tables
  import opened Windows
  import opened Buckets
  import opened Pipeline
  import opened Refinement
  import opened Counts
  import opened Guarantees
  import opened Shutdown

  /** One BatchSave of a checkpoint. */
  datatype Entry = Entry(symbol: string, klines: seq<Row>)

  /** The saves of one symbol in a batch, in order. */
  function EntriesOf(batch: seq<Entry>, x: string): seq<seq<Row>> {
    if batch == [] then []
    else if batch[0].symbol == x then [batch[0].klines] + EntriesOf(batch[1..], x)
    else EntriesOf(batch[1..], x)
  }

  /** A table after some saves, of which some succeed. */
  function SavedEach(db: Table, x: string, saves: seq<seq<Row>>, succeeds: Entry -> bool): Table
    decreases |saves|
  {
    if saves == [] then db
    else SavedEach(Saved(db, saves[0], succeeds(Entry(x, saves[0]))), x, saves[1..], succeeds)
  }

  lemma {:induction false} EntriesConcat(a: seq<Entry>, b: seq<Entry>, x: string)
    ensures EntriesOf(a + b, x) == EntriesOf(a, x) + EntriesOf(b, x)
  {
    if a == [] {
      assert a + b == b;
    } else {
      assert (a + b)[1..] == a[1..] + b;
      EntriesConcat(a[1..], b, x);
      assert [a[0].klines] + (EntriesOf(a[1..], x) + EntriesOf(b, x))
          == [a[0].klines] + EntriesOf(a[1..], x) + EntriesOf(b, x);
    }
  }

  lemma EntriesSnoc(batch: seq<Entry>, e: Entry, x: string)
    ensures EntriesOf(batch + [e], x) == if e.symbol == x then EntriesOf(batch, x) + [e.klines] else EntriesOf(batch, x)
  {
    EntriesConcat(batch, [e], x);
    assert [e][1..] == [];
  }

  /** The state of the machine after one whole ProcessTrade. */
  ghost function AfterTrade(s: Sym, t: Trade, failed: set<Interval>, leader: bool): Sym {
    var found := FoundIn(s.data, s.db, t, failed);
    var done := Closed(found, t);
    s.(data := Updated(found, t), buf := s.buf + (if leader then done else []), history := s.history + [t],
       lost := s.lost + (if leader then {} else Keys(done)), tainted := s.tainted + Missed(s, t, failed))
  }

  /** The state of the machine after one whole checkpoint. */
  ghost function AfterCheckpoint(s: Sym, x: string, snap: seq<Row>, succeeds: Entry -> bool): Sym {
    s.(buf := [], db := CheckpointTable(s.db, x, s.buf, snap, succeeds),
       lost := s.lost + (if succeeds(Entry(x, s.buf)) && Storable(s.buf) then {} else Keys(s.buf)))
  }

  /** A state of the machine between whole calls, with the given buckets, buffer and table. */
  predicate Matches(s: Sym, data: Buckets, buf: seq<Row>, db: Table) {
    && s.data == data && s.buf == buf && s.db == db
    && s.inflight == [] && s.phase == Idle && s.drained == [] && s.snap == []
  }

  /** What the class holds for a symbol is a state that the machine reaches, between whole calls. */
  ghost predicate Linked(s: Sym, data: Buckets, buf: seq<Row>, db: Table) {
    Ran(s) && Matches(s, data, buf, db)
  }

  function At(past: map<string, Sym>, x: string): Sym { if x in past then past[x] else START }

  /** The machine states of all symbols after one checkpoint. */
  ghost function Advanced(past: map<string, Sym>, snaps: map<string, seq<Row>>, succeeds: Entry -> bool)
    : map<string, Sym>
  {
    map x | x in past.Keys + snaps.Keys :: AfterCheckpoint(At(past, x), x, SnapOf(snaps, x), succeeds)
  }

  class Aggregator {
    var symbols: map<string, SymbolBuckets>
    var completedBuf: map<string, seq<Row>>
    var db: map<string, Table>
    /** What the machine has made of each symbol so far. */
    ghost var past: map<string, Sym>

    function Footprint(): set<object>
      reads this, symbols.Values
    {
      {this} + symbols.Values + set x, iv | x in symbols && iv in symbols[x].data :: symbols[x].data[iv]
    }

    /** Each symbol's buckets are its own. */
    ghost predicate Shaped()
      reads Footprint()
    {
      && (forall x :: x in symbols ==> symbols[x].Valid() && symbols[x].symbol == x)
      && (forall x :: x in db ==> Keyed(db[x]))
    }

    /** Each symbol is in a state that the machine reaches. */
    ghost predicate Traced()
      reads Footprint()
    {
      forall x :: Linked(PastOf(x), RowsOf(x), BufOf(x), TableOf(x))
    }

    ghost predicate Valid()
      reads Footprint()
    {
      Shaped() && Traced()
    }

    ghost function PastOf(x: string): Sym
      reads this
    {
      At(past, x)
    }

    function RowsOf(x: string): Buckets
      reads Footprint()
    {
      if x in symbols then symbols[x].Rows() else map[]
    }

    function BufOf(x: string): seq<Row>
      reads this
    {
      if x in completedBuf then completedBuf[x] else []
    }

    function TableOf(x: string): Table
      reads this
    {
      if x in db then db[x] else map[]
    }

    /** A process over tables that earlier processes have written. */
    constructor (tables: map<string, Table>, ghost earlier: map<string, Sym>)
      requires forall x :: x in tables ==> Keyed(tables[x])
      requires forall x :: Linked(At(earlier, x), map[], [], if x in tables then tables[x] else map[])
      ensures Valid() && symbols == map[] && completedBuf == map[] && db == tables && past == earlier
    {
      symbols, completedBuf, db, past := map[], map[], tables, earlier;
    }

    /** Updates all buckets of the trade's symbol and buffers what it completes, if this instance writes. */
    method ProcessTrade(t: Trade, shouldWrite: bool, failed: set<Interval>)
      requires Valid()
      modifies Footprint()
      ensures Valid() && db == old(db)
      ensures var found := FoundIn(old(RowsOf(t.symbol)), TableOf(t.symbol), t, failed);
              && RowsOf(t.symbol) == Updated(found, t)
              && BufOf(t.symbol) == old(BufOf(t.symbol)) + (if shouldWrite then Closed(found, t) else [])
      ensures forall x :: x != t.symbol ==> RowsOf(x) == old(RowsOf(x)) && BufOf(x) == old(BufOf(x))
      ensures past == old(past)[t.symbol := AfterTrade(old(PastOf(t.symbol)), t, failed, shouldWrite)]
    {
      hide Align, Updated, Closed, FoundIn, Keyed, Linked, AfterTrade, RowsOf, SymbolBuckets.Rows, SymbolBuckets.Valid;
      ghost var s := PastOf(t.symbol);
      LinkedTrade(s, RowsOf(t.symbol), BufOf(t.symbol), TableOf(t.symbol), t, failed, shouldWrite);
      TakeTrade(t, shouldWrite, failed);
      Record(past[t.symbol := AfterTrade(s, t, failed, shouldWrite)]);
    }

    /** The two halves of ProcessTrade, each under its own lock. */
    method TakeTrade(t: Trade, shouldWrite: bool, failed: set<Interval>)
      requires Shaped()
      modifies Footprint()
      ensures Shaped() && db == old(db) && past == old(past)
      ensures var found := FoundIn(old(RowsOf(t.symbol)), TableOf(t.symbol), t, failed);
              && RowsOf(t.symbol) == Updated(found, t)
              && BufOf(t.symbol) == old(BufOf(t.symbol)) + (if shouldWrite then Closed(found, t) else [])
      ensures forall x :: x != t.symbol ==> RowsOf(x) == old(RowsOf(x)) && BufOf(x) == old(BufOf(x))
    {
      hide Align, Updated, Closed, FoundIn, Keyed, RowsOf, Shaped;
      var completed := UpdateBuckets(t, failed);
      assert completed == [] ==> BufOf(t.symbol) + completed == BufOf(t.symbol);
      assert !shouldWrite ==> BufOf(t.symbol) + [] == BufOf(t.symbol);
      if |completed| > 0 && shouldWrite {
        AppendCompleted(t.symbol, completed);
      }
    }

    /** Notes what the machine has made of each symbol. */
    ghost method Record(next: map<string, Sym>)
      requires Shaped()
      modifies `past
      ensures Shaped() && past == next && forall y :: RowsOf(y) == old(RowsOf(y))
      ensures forall snaps :: old(Snaps(snaps)) ==> Snaps(snaps)
    {
      past := next;
    }

    /** Under the buffer lock. */
    method AppendCompleted(x: string, completed: seq<Row>)
      requires Shaped()
      modifies `completedBuf
      ensures Shaped() && forall y :: BufOf(y) == if y == x then old(BufOf(x)) + completed else old(BufOf(y))
      ensures forall y :: RowsOf(y) == old(RowsOf(y))
    {
      completedBuf := completedBuf[x := BufOf(x) + completed];
    }

    /** Under the symbol's bucket lock. */
    method UpdateBuckets(t: Trade, failed: set<Interval>) returns (completed: seq<Row>)
      requires Shaped()
      modifies Footprint()
      ensures Shaped() && db == old(db) && completedBuf == old(completedBuf) && past == old(past)
      ensures var found := FoundIn(old(RowsOf(t.symbol)), TableOf(t.symbol), t, failed);
              RowsOf(t.symbol) == Updated(found, t) && completed == Closed(found, t)
      ensures forall x :: x != t.symbol ==> RowsOf(x) == old(RowsOf(x))
    {
      hide Align, Updated, Closed, FoundIn, SymbolBuckets.Rows, Keyed;
      EmptyKeyed();
      Admit(t.symbol);
      completed := symbols[t.symbol].UpdateBuckets(TableOf(t.symbol), t, failed);
    }

    /** Step 1 of a checkpoint: takes over the whole buffer. */
    method DrainBuffer() returns (batch: seq<Entry>)
      requires Shaped()
      modifies `completedBuf
      ensures Shaped() && completedBuf == map[]
      ensures forall x :: EntriesOf(batch, x) == if x in old(completedBuf) then [old(completedBuf)[x]] else []
      ensures forall y :: RowsOf(y) == old(RowsOf(y))
    {
      batch := [];
      var left := completedBuf.Keys;
      while left != {}
        invariant left <= completedBuf.Keys && completedBuf == old(completedBuf)
        invariant forall x :: EntriesOf(batch, x) ==
                    if x in completedBuf && x !in left then [completedBuf[x]] else []
        decreases left
      {
        var x :| x in left;
        forall y
          ensures EntriesOf(batch + [Entry(x, completedBuf[x])], y) ==
                  if x == y then EntriesOf(batch, y) + [completedBuf[x]] else EntriesOf(batch, y)
        {
          EntriesSnoc(batch, Entry(x, completedBuf[x]), y);
        }
        batch := batch + [Entry(x, completedBuf[x])];
        left := left - {x};
      }
      completedBuf := map[];
    }

    /** A symbol without buckets has an empty snapshot. */
    lemma NoRows()
      ensures forall x :: x !in symbols ==> IsSnapshot([], RowsOf(x))
    {
      EmptySnapshot();
    }

    /** One snapshot of the buckets of each symbol. */
    ghost predicate Snaps(snaps: map<string, seq<Row>>)
      reads Footprint()
    {
      snaps.Keys == symbols.Keys && forall x :: x in snaps ==> IsSnapshot(snaps[x], RowsOf(x))
    }

    /** Step 2 of a checkpoint: one entry for each symbol with rows to save. */
    method Collect() returns (batch: seq<Entry>, ghost snaps: map<string, seq<Row>>)
      requires Shaped()
      ensures Snaps(snaps)
      ensures forall x :: EntriesOf(batch, x) == if SnapOf(snaps, x) == [] then [] else [SnapOf(snaps, x)]
    {
      hide IsSnapshot, SymbolBuckets.Rows, SymbolBuckets.Valid;
      batch, snaps := [], map[];
      var left := symbols.Keys;
      while left != {}
        invariant left <= symbols.Keys && snaps.Keys == symbols.Keys - left
        invariant forall x :: x in snaps ==> IsSnapshot(snaps[x], symbols[x].Rows())
        invariant forall x :: EntriesOf(batch, x) == if SnapOf(snaps, x) == [] then [] else [SnapOf(snaps, x)]
        decreases left
      {
        var x :| x in left;
        var toSave := symbols[x].Snapshot();
        snaps := snaps[x := toSave];
        if |toSave| > 0 {
          forall y
            ensures EntriesOf(batch + [Entry(x, toSave)], y) ==
                    if x == y then EntriesOf(batch, y) + [toSave] else EntriesOf(batch, y)
          {
            EntriesSnoc(batch, Entry(x, toSave), y);
          }
          batch := batch + [Entry(x, toSave)];
        }
        left := left - {x};
      }
    }

    /** Step 3: every entry is saved; some saves fail and leave the table alone. */
    method SaveBatch(batch: seq<Entry>, succeeds: Entry -> bool)
      requires Shaped()
      modifies `db
      ensures Shaped() && forall x :: TableOf(x) == SavedEach(old(TableOf(x)), x, EntriesOf(batch, x), succeeds)
      ensures forall y :: RowsOf(y) == old(RowsOf(y))
    {
      hide SaveAll, Keyed;
      var rest := batch;
      EmptyKeyed();
      while |rest| > 0
        invariant forall x :: x in db ==> Keyed(db[x])
        invariant forall x :: SavedEach(TableOf(x), x, EntriesOf(rest, x), succeeds)
                              == SavedEach(old(TableOf(x)), x, EntriesOf(batch, x), succeeds)
      {
        var e := rest[0];
        forall x
          ensures SavedEach(TableOf(x), x, EntriesOf(rest, x), succeeds) ==
                  SavedEach(if x == e.symbol then Saved(TableOf(x), e.klines, succeeds(e)) else TableOf(x),
                            x, EntriesOf(rest[1..], x), succeeds)
        {
          SavedFirst(TableOf(x), x, rest, succeeds);
        }
        SaveKeepsKeyed(TableOf(e.symbol), e.klines);
        if succeeds(e) && Storable(e.klines) {
          db := db[e.symbol := SaveAll(TableOf(e.symbol), e.klines)];
        }
        rest := rest[1..];
      }
      assert rest == [];
    }

    /** One checkpoint with nothing in between. */
    method Checkpoint(shouldWrite: bool, succeeds: Entry -> bool) returns (ghost snaps: map<string, seq<Row>>)
      requires Valid()
      modifies this
      ensures Valid() && forall x :: RowsOf(x) == old(RowsOf(x))
      ensures !shouldWrite ==> db == old(db) && completedBuf == old(completedBuf) && past == old(past)
      ensures shouldWrite ==> Snaps(snaps) && completedBuf == map[]
      ensures shouldWrite ==>
                forall x :: TableOf(x) == CheckpointTable(old(TableOf(x)), x, old(BufOf(x)), SnapOf(snaps, x), succeeds)
      ensures shouldWrite ==>
                forall x :: PastOf(x) == AfterCheckpoint(old(PastOf(x)), x, SnapOf(snaps, x), succeeds)
    {
      snaps := map[];
      if !shouldWrite {
        return;
      }
      snaps := SaveAllRows(succeeds);
      hide SymbolBuckets.Rows, SymbolBuckets.Valid, Keyed, IsSnapshot, SaveAll, CheckpointTable, AfterCheckpoint;
      hide Linked, Snaps, RowsOf, Advanced, SnapOf;
      Record(Advanced(past, snaps, succeeds));
      forall x
        ensures PastOf(x) == AfterCheckpoint(old(PastOf(x)), x, SnapOf(snaps, x), succeeds)
        ensures Linked(PastOf(x), RowsOf(x), BufOf(x), TableOf(x))
      {
        AdvancedAt(old(past), snaps, x, succeeds);
        LinkedCheckpoint(old(PastOf(x)), x, old(RowsOf(x)), old(BufOf(x)), old(TableOf(x)), SnapOf(snaps, x), succeeds);
      }
    }

    /** The three steps of a checkpoint. */
    method SaveAllRows(succeeds: Entry -> bool) returns (ghost snaps: map<string, seq<Row>>)
      requires Shaped()
      modifies `completedBuf, `db
      ensures Shaped() && Snaps(snaps) && completedBuf == map[] && forall x :: RowsOf(x) == old(RowsOf(x))
      ensures forall x :: IsSnapshot(SnapOf(snaps, x), RowsOf(x))
      ensures forall x :: TableOf(x) == CheckpointTable(old(TableOf(x)), x, old(BufOf(x)), SnapOf(snaps, x), succeeds)
    {
      hide SymbolBuckets.Rows, SymbolBuckets.Valid, Keyed, IsSnapshot, SaveAll, CheckpointTable, SavedEach, EntriesOf;
      NoRows();
      var batch := DrainBuffer();
      var open;
      open, snaps := Collect();
      forall x
        ensures EntriesOf(batch + open, x) == EntriesOf(batch, x) + EntriesOf(open, x)
      {
        EntriesConcat(batch, open, x);
      }
      SaveBatch(batch + open, succeeds);
      forall x
        ensures TableOf(x) == CheckpointTable(old(TableOf(x)), x, old(BufOf(x)), SnapOf(snaps, x), succeeds)
      {
        TwoSaves(old(TableOf(x)), x, old(BufOf(x)), x in old(completedBuf), SnapOf(snaps, x), succeeds);
      }
    }

    /** Rows saved one by one. */
    method SaveSingles(x: string, rows: seq<Row>, succeeds: Entry -> bool)
      requires Shaped()
      modifies `db
      ensures Shaped() && TableOf(x) == SavedEach(old(TableOf(x)), x, Singles(rows), succeeds)
      ensures forall y :: y != x ==> TableOf(y) == old(TableOf(y))
      ensures forall y :: RowsOf(y) == old(RowsOf(y))
    {
      hide SaveAll, Keyed;
      var rest := rows;
      EmptyKeyed();
      while |rest| > 0
        invariant forall y :: y in db ==> Keyed(db[y])
        invariant SavedEach(TableOf(x), x, Singles(rest), succeeds)
                  == SavedEach(old(TableOf(x)), x, Singles(rows), succeeds)
        invariant forall y :: y != x ==> TableOf(y) == old(TableOf(y))
      {
        var one := [rest[0]];
        assert ([one] + Singles(rest[1..]))[1..] == Singles(rest[1..]);
        SaveKeepsKeyed(TableOf(x), one);
        if succeeds(Entry(x, one)) && Storable(one) {
          db := db[x := SaveAll(TableOf(x), one)];
        }
        rest := rest[1..];
      }
      assert rest == [];
    }

    /** The open rows of one symbol. */
    method FlushSymbol(x: string, succeeds: Entry -> bool) returns (rows: seq<Row>)
      requires Shaped() && x in symbols
      modifies `db
      ensures Shaped() && IsSnapshot(rows, RowsOf(x)) && forall y :: RowsOf(y) == old(RowsOf(y))
      ensures TableOf(x) == SavedEach(old(TableOf(x)), x, Singles(rows), succeeds)
      ensures forall y :: y != x ==> TableOf(y) == old(TableOf(y))
    {
      hide Singles, SavedEach, Keyed, IsSnapshot;
      rows := symbols[x].Snapshot();
      SaveSingles(x, rows, succeeds);
    }

    /** The second half of Close: every open row by itself. */
    method FlushOpen(succeeds: Entry -> bool) returns (ghost snaps: map<string, seq<Row>>)
      requires Shaped()
      modifies `db
      ensures Shaped() && Snaps(snaps) && forall y :: RowsOf(y) == old(RowsOf(y))
      ensures forall x :: IsSnapshot(SnapOf(snaps, x), RowsOf(x))
      ensures forall x :: TableOf(x) == SavedEach(old(TableOf(x)), x, Singles(SnapOf(snaps, x)), succeeds)
    {
      hide IsSnapshot, SavedEach, Singles, RowsOf, TableOf, Shaped;
      snaps := map[];
      var left := symbols.Keys;
      NoRows();
      forall x
        ensures SavedEach(TableOf(x), x, Singles([]), succeeds) == TableOf(x)
      {
        NoSingles(TableOf(x), x, succeeds);
      }
      while left != {}
        invariant Shaped() && left <= symbols.Keys && snaps.Keys == symbols.Keys - left
        invariant forall x :: RowsOf(x) == old(RowsOf(x))
        invariant forall x :: x !in left ==> IsSnapshot(SnapOf(snaps, x), RowsOf(x))
        invariant forall x :: x in left ==> TableOf(x) == old(TableOf(x))
        invariant forall x :: x !in left ==>
                    TableOf(x) == SavedEach(old(TableOf(x)), x, Singles(SnapOf(snaps, x)), succeeds)
        decreases left
      {
        var x :| x in left;
        var rows := FlushSymbol(x, succeeds);
        snaps := snaps[x := rows];
        left := left - {x};
      }
    }

    /** Flushes the buffer, then the open rows; no checkpoint runs meanwhile. The process is over afterwards. */
    method Close(shouldWrite: bool, succeeds: Entry -> bool) returns (ghost snaps: map<string, seq<Row>>)
      requires Valid()
      modifies `completedBuf, `db
      ensures Shaped() && forall x :: RowsOf(x) == old(RowsOf(x))
      ensures !shouldWrite ==> db == old(db) && completedBuf == old(completedBuf)
      ensures shouldWrite ==> Snaps(snaps) && completedBuf == map[]
      ensures shouldWrite ==>
                forall x :: TableOf(x) == CloseTable(old(TableOf(x)), x, old(BufOf(x)), SnapOf(snaps, x), succeeds)
      ensures shouldWrite && (forall e :: succeeds(e)) ==> forall x :: IsClosedTable(PastOf(x), TableOf(x))
    {
      hide SymbolBuckets.Rows, SymbolBuckets.Valid, Keyed, IsSnapshot, SaveAll, SavedEach, EntriesOf, Singles;
      hide Ran, RowsOf;
      snaps := map[];
      if !shouldWrite {
        return;
      }
      var batch := DrainBuffer();
      SaveBatch(batch, succeeds);
      forall x
        ensures TableOf(x) == Saved(old(TableOf(x)), old(BufOf(x)), succeeds(Entry(x, old(BufOf(x)))))
      {
        OneSave(old(TableOf(x)), x, old(BufOf(x)), x in old(completedBuf), succeeds);
      }
      snaps := FlushOpen(succeeds);
      if forall e :: succeeds(e) {
        forall x
          ensures IsClosedTable(PastOf(x), TableOf(x))
        {
          CloseSaves(old(PastOf(x)), x, SnapOf(snaps, x), succeeds);
        }
      }
    }

    /** LoadOrStore: a new symbol gets empty buckets. */
    method Admit(x: string)
      requires Shaped()
      modifies this
      ensures Shaped() && db == old(db) && completedBuf == old(completedBuf) && past == old(past)
      ensures x in symbols && forall y :: y in symbols && y != x ==> y in old(symbols) && symbols[y] == old(symbols)[y]
      ensures x in old(symbols) ==> symbols == old(symbols)
      ensures x !in old(symbols) ==> fresh(symbols[x]) && symbols[x].data == map[]
      ensures forall y :: RowsOf(y) == old(RowsOf(y))
    {
      hide Keyed, SymbolBuckets.Rows;
      if x !in symbols {
        var created := new SymbolBuckets(x);
        symbols := symbols[x := created];
      }
    }
  }

  lemma EmptyKeyed()
    ensures Keyed(map[])
  {
  }

  function SnapOf(snaps: map<string, seq<Row>>, x: string): seq<Row> {
    if x in snaps then snaps[x] else []
  }

  lemma SavedFirst(db: Table, x: string, rest: seq<Entry>, succeeds: Entry -> bool)
    requires rest != []
    ensures var e := rest[0];
            SavedEach(db, x, EntriesOf(rest, x), succeeds) ==
            SavedEach(if x == e.symbol then Saved(db, e.klines, succeeds(e)) else db,
                      x, EntriesOf(rest[1..], x), succeeds)
  {
    hide Saved;
    var more := EntriesOf(rest[1..], x);
    assert ([rest[0].klines] + more)[1..] == more;
  }

  /** The table of a symbol after a checkpoint: the completed rows, then the open ones. */
  function CheckpointTable(db: Table, x: string, drained: seq<Row>, snap: seq<Row>, succeeds: Entry -> bool): Table {
    Saved(Saved(db, drained, succeeds(Entry(x, drained))), snap, succeeds(Entry(x, snap)))
  }

  lemma TwoSaves(db: Table, x: string, drained: seq<Row>, any: bool, snap: seq<Row>, succeeds: Entry -> bool)
    requires !any ==> drained == []
    ensures SavedEach(db, x, (if any then [drained] else []) + (if snap == [] then [] else [snap]), succeeds) ==
            CheckpointTable(db, x, drained, snap, succeeds)
  {
    NoneSaved();
    hide Saved;
    var last := if snap == [] then [] else [snap];
    if any {
      assert ([drained] + last)[1..] == last;
    } else {
      assert [] + last == last;
    }
    SavedLast(Saved(db, drained, succeeds(Entry(x, drained))), x, snap, succeeds);
  }

  lemma SavedLast(db: Table, x: string, snap: seq<Row>, succeeds: Entry -> bool)
    ensures SavedEach(db, x, if snap == [] then [] else [snap], succeeds) == Saved(db, snap, succeeds(Entry(x, snap)))
  {
    NoneSaved();
    if snap != [] {
      assert [snap][1..] == [];
    }
  }

  lemma NoneSaved()
    ensures forall db, ok :: Saved(db, [], ok) == db
  {
  }

  function Singles(rows: seq<Row>): seq<seq<Row>> {
    if rows == [] then [] else [[rows[0]]] + Singles(rows[1..])
  }

  lemma NoSingles(db: Table, x: string, succeeds: Entry -> bool)
    ensures SavedEach(db, x, Singles([]), succeeds) == db
  {
  }

  lemma OneSave(db: Table, x: string, drained: seq<Row>, any: bool, succeeds: Entry -> bool)
    requires !any ==> drained == []
    ensures SavedEach(db, x, if any then [drained] else [], succeeds) == Saved(db, drained, succeeds(Entry(x, drained)))
  {
    NoneSaved();
    if any {
      assert [drained][1..] == [];
    }
  }

  /** The table of a symbol after Close: the completed rows, then each open row by itself. */
  function CloseTable(db: Table, x: string, buf: seq<Row>, snap: seq<Row>, succeeds: Entry -> bool): Table {
    SavedEach(Saved(db, buf, succeeds(Entry(x, buf))), x, Singles(snap), succeeds)
  }

  lemma EmptySnapshot()
    ensures IsSnapshot([], map[])
  {
    assert Lists([], map[]) && RowsAt(map[], []) == [];
  }

  // ---------------------------------------------------------------- the methods as runs of the machine

  /** One whole ProcessTrade is an update step and, if it completes rows, an append step. */
  lemma TradeRuns(s: Sym, t: Trade, failed: set<Interval>, leader: bool)
    requires Ran(s) && s.inflight == []
    ensures Ran(AfterTrade(s, t, failed, leader))
  {
    hide Align, Updated, Closed, FoundIn, Ran;
    var done := Closed(FoundIn(s.data, s.db, t, failed), t);
    var s1 := Step(s, Update(t, failed));
    OneStep(s, Update(t, failed));
    if done == [] {
      assert s.buf + [] == s.buf && s.lost + Keys([]) == s.lost + {} == s.lost;
    } else {
      assert [] + [done] == [done] && s1.inflight == [done] && Bags.Without([done], 0) == [];
      assert s.buf + [] == s.buf && s.lost + {} == s.lost;
      OneStep(s1, Append(0, leader));
    }
  }

  lemma OneStep(s: Sym, a: Action)
    requires Ran(s) && Enabled(s, a)
    ensures Ran(Step(s, a))
  {
    hide Ran, Enabled, Step;
    assert [a][1..] == [];
    RanOn(s, [a]);
  }

  lemma SnapshotRuns(s: Sym, order: seq<Interval>)
    requires Ran(s) && s.phase == Idle && Lists(order, s.data)
    ensures Ran(s.(phase := Saving, drained := s.buf, buf := [], snap := RowsAt(s.data, order)))
  {
    hide Ran, Lists;
    OneStep(s, Drain);
    OneStep(Step(s, Drain), Snapshot(order));
  }

  /** One whole checkpoint is a drain, a snapshot and the two saves. */
  lemma CheckpointRuns(s: Sym, x: string, snap: seq<Row>, succeeds: Entry -> bool)
    requires Ran(s) && s.phase == Idle && s.drained == [] && s.snap == [] && IsSnapshot(snap, s.data)
    ensures Ran(AfterCheckpoint(s, x, snap, succeeds))
  {
    var order :| Lists(order, s.data) && snap == RowsAt(s.data, order);
    hide Ran, Lists, Saved, Storable, Keys, Possible, After;
    SnapshotRuns(s, order);
    var saving := s.(phase := Saving, drained := s.buf, buf := [], snap := snap);
    var kept, ok := succeeds(Entry(x, s.buf)), succeeds(Entry(x, snap));
    var rest := CutSaves(saving, kept, ok);
    RanOn(saving, rest);
    assert AfterCheckpoint(s, x, snap, succeeds) == Cut(saving, kept, ok);
  }

  lemma AdvancedAt(past: map<string, Sym>, snaps: map<string, seq<Row>>, x: string, succeeds: Entry -> bool)
    ensures At(Advanced(past, snaps, succeeds), x) == AfterCheckpoint(At(past, x), x, SnapOf(snaps, x), succeeds)
  {
    NoneSaved();
    assert Keys([]) == {};
    if x !in past.Keys + snaps.Keys {
      assert AfterCheckpoint(START, x, [], succeeds) == START;
    }
  }

  lemma LinkedCheckpoint(s: Sym, x: string, data: Buckets, buf: seq<Row>, db: Table, snap: seq<Row>,
                         succeeds: Entry -> bool)
    requires Linked(s, data, buf, db) && IsSnapshot(snap, data)
    ensures Linked(AfterCheckpoint(s, x, snap, succeeds), data, [], CheckpointTable(db, x, buf, snap, succeeds))
  {
    hide Ran, IsSnapshot, CheckpointTable;
    CheckpointRuns(s, x, snap, succeeds);
  }

  lemma LinkedTrade(s: Sym, data: Buckets, buf: seq<Row>, db: Table, t: Trade, failed: set<Interval>, leader: bool)
    requires Linked(s, data, buf, db)
    ensures var found := FoundIn(data, db, t, failed);
            Linked(AfterTrade(s, t, failed, leader), Updated(found, t),
                   buf + (if leader then Closed(found, t) else []), db)
  {
    hide Ran, Updated, Closed, FoundIn;
    TradeRuns(s, t, failed, leader);
  }

  lemma {:induction false} SinglesSaved(db: Table, x: string, rows: seq<Row>, succeeds: Entry -> bool)
    requires Storable(rows) && forall e :: succeeds(e)
    ensures SavedEach(db, x, Singles(rows), succeeds) == SaveAll(db, rows)
    decreases |rows|
  {
    if rows != [] {
      var db' := db[KeyOf(rows[0]) := Seal(rows[0])];
      assert ([[rows[0]]] + Singles(rows[1..]))[1..] == Singles(rows[1..]);
      assert [rows[0]][1..] == [];
      assert SaveAll(db, [rows[0]]) == db';
      SinglesSaved(db', x, rows[1..], succeeds);
    }
  }

  /** The table that Close leaves for the machine. */
  ghost predicate IsClosedTable(s: Sym, db: Table) {
    exists order :: Lists(order, s.data) && db == AfterClose(s, order)
  }

  /** Close with all saves succeeding leaves that table. */
  lemma CloseSaves(s: Sym, x: string, snap: seq<Row>, succeeds: Entry -> bool)
    requires IsSnapshot(snap, s.data) && forall e :: succeeds(e)
    ensures IsClosedTable(s, CloseTable(s.db, x, s.buf, snap, succeeds))
  {
    var order :| Lists(order, s.data) && snap == RowsAt(s.data, order);
    OpenStorable(s.data, order);
    SinglesSaved(Saved(s.db, s.buf, true), x, snap, succeeds);
    assert CloseTable(s.db, x, s.buf, snap, succeeds) == AfterClose(s, order);
  }

  // ---------------------------------------------------------------- what callers of the class may rely on

  /** At any time, for every symbol and every window whose trades come in one stretch: its buckets, its buffer and its
      table hold exactly the fold of the trades that were processed, except for the recorded losses. */
  lemma SymbolOverlay(a: Aggregator, x: string, k: Key)
    requires a.Valid()
    requires var s := a.PastOf(x);
             NonNegative(s.history) && Contiguous(k, s.history) && k !in s.lost && k !in s.tainted
    ensures Look(START.(data := a.RowsOf(x), buf := a.BufOf(x), db := a.TableOf(x)), k) ==
            Expected(a.PastOf(x).history, k)
  {
    var s := a.PastOf(x);
    assert Ran(s) && Matches(s, a.RowsOf(x), a.BufOf(x), a.TableOf(x));
    hide Contiguous, Expected, Aggregator.RowsOf, Aggregator.Valid;
    var run :| Possible(START, run) && After(START, run) == s;
    Overlay(run, s, k);
    assert FindAny([], k) == None && Find([], k) == None;
  }

  /** And the table that Close leaves holds exactly those folds by itself, before the trades leave 31 bits. */
  lemma ClosedTableRight(s: Sym, db: Table, k: Key)
    requires Ran(s) && s.phase == Idle && s.inflight == [] && IsClosedTable(s, db)
    requires NonNegative(s.history) && Contiguous(k, s.history) && |s.history| < 0x8000_0000
    requires k !in s.lost && k !in s.tainted
    ensures Lookup(db, k) == Expected(s.history, k)
  {
    hide Contiguous, Expected, Lookup, AfterClose;
    var order :| Lists(order, s.data) && db == AfterClose(s, order);
    var run :| Possible(START, run) && After(START, run) == s;
    hide Lists, Possible, After, NonNegative;
    assert Reached(run, s);
    QuietClose(run, s, order, k);
  }

  /** The next process begins, on the table that Close leaves, in a state that the machine reaches; as long as the
      trades stay within 31 bits it forgets nothing else. */
  lemma NextProcess(s: Sym, db: Table) returns (s': Sym)
    requires Linked(s, s.data, s.buf, s.db) && IsClosedTable(s, db)
    ensures Linked(s', map[], [], db) && s'.history == s.history
    ensures NonNegative(s.history) && |s.history| < 0x8000_0000 ==>
              s' == s.(db := db, buf := [], data := map[], fill := None)
  {
    var order :| Lists(order, s.data) && db == AfterClose(s, order);
    if NonNegative(s.history) && |s.history| < 0x8000_0000 {
      AllCounted(s);
    }
    hide Ran, SaveAll, Lists, NonNegative, AfterClose, Step, Enabled, Storable;
    if Storable(s.buf) && forall iv :: iv in s.data ==> s.data[iv].count > 0 {
      RestartStep(s, order);
      OneStep(s, Restart(order));
      s' := Step(s, Restart(order));
    } else {
      s' := CloseThenCrash(s, order);
    }
  }

  lemma RestartStep(s: Sym, order: seq<Interval>)
    requires s.phase == Idle && s.inflight == [] && Lists(order, s.data) && Storable(s.buf)
    requires forall iv :: iv in s.data ==> s.data[iv].count > 0
    ensures Enabled(s, Restart(order))
    ensures Step(s, Restart(order)) == s.(db := AfterClose(s, order), buf := [], data := map[], fill := None)
  {
    hide SaveAll, Lists, Storable;
  }

  lemma CrashStep(s: Sym)
    requires s.drained == [] && s.snap == []
    ensures Enabled(s, Crash) && Matches(Step(s, Crash), map[], [], s.db) && Step(s, Crash).history == s.history
  {
    hide Unsaved, Unfinished;
  }

  lemma AllCounted(s: Sym)
    requires Ran(s) && NonNegative(s.history) && |s.history| < 0x8000_0000
    ensures Storable(s.buf) && forall iv :: iv in s.data ==> s.data[iv].count > 0
  {
    hide Core, Counted, Possible, After, NonNegative, Storable;
    var run :| Possible(START, run) && After(START, run) == s;
    assert Reached(run, s);
    ReachedCore(run, s);
    AllStorable(s);
    forall iv | iv in s.data
      ensures s.data[iv].count > 0
    {
      CountedPositive(s.history, s.data[iv], false);
    }
  }

  /** Rows that cannot be stored are lost like those of a checkpoint that fails. */
  lemma CloseThenCrash(s: Sym, order: seq<Interval>) returns (s': Sym)
    requires Ran(s) && s.phase == Idle && s.drained == [] && s.snap == [] && Lists(order, s.data)
    ensures Linked(s', map[], [], AfterClose(s, order)) && s'.history == s.history
  {
    OpenStorable(s.data, order);
    hide Ran, Lists, SaveAll, Storable, Keys, Possible, After, Step, Enabled, RowsAt;
    SnapshotRuns(s, order);
    var saving := s.(phase := Saving, drained := s.buf, buf := [], snap := RowsAt(s.data, order));
    var rest := CutSaves(saving, true, true);
    RanOn(saving, rest);
    CrashStep(Cut(saving, true, true));
    OneStep(Cut(saving, true, true), Crash);
    s' := Step(Cut(saving, true, true), Crash);
  }
}
