/** The specification of the whole service: which row a history of trades puts in which window. */
module Windows {
  import opened Int64
  import opened Intervals
  import opened Klines
  import opened Tables

  function WindowOf(iv: Interval, t: Trade): Key { Key(iv, Align(iv, t.timestamp)) }

  /** The trades of one window, in order. */
  function WindowTrades(k: Key, h: seq<Trade>): seq<Trade>
    decreases |h|
  {
    if h == [] then []
    else if WindowOf(k.interval, h[0]) == k then [h[0]] + WindowTrades(k, h[1..])
    else WindowTrades(k, h[1..])
  }

  /** The row a window must have: its trades folded and averaged. */
  function WindowRow(k: Key, h: seq<Trade>): Row
    requires WindowTrades(k, h) != []
  {
    Seal(FoldWindow(k.interval, k.start, WindowTrades(k, h)))
  }

  ghost predicate Ordered(h: seq<Trade>) {
    forall i, j :: 0 <= i < j < |h| ==> h[i].timestamp <= h[j].timestamp
  }

  lemma {:induction false} WindowConcat(k: Key, h: seq<Trade>, g: seq<Trade>)
    ensures WindowTrades(k, h + g) == WindowTrades(k, h) + WindowTrades(k, g)
    decreases |h|
  {
    if h == [] {
      assert h + g == g;
    } else {
      assert (h + g)[1..] == h[1..] + g;
      WindowConcat(k, h[1..], g);
    }
  }

  lemma WindowSnoc(k: Key, h: seq<Trade>, t: Trade)
    ensures WindowTrades(k, h + [t]) ==
            if WindowOf(k.interval, t) == k then WindowTrades(k, h) + [t] else WindowTrades(k, h)
  {
    WindowConcat(k, h, [t]);
    assert [t][1..] == [];
  }

  /** A trade is in the window it aligns to, and every trade of a window aligns to it. */
  lemma {:induction false} WindowMember(k: Key, h: seq<Trade>, t: Trade)
    ensures t in WindowTrades(k, h) <==> t in h && WindowOf(k.interval, t) == k
    decreases |h|
  {
    if h != [] {
      WindowMember(k, h[1..], t);
      assert t in h <==> t == h[0] || t in h[1..];
    }
  }

  lemma WindowIsAligned(k: Key, h: seq<Trade>)
    requires WindowTrades(k, h) != []
    ensures exists t :: t in h && WindowOf(k.interval, t) == k
  {
    var t := WindowTrades(k, h)[0];
    WindowMember(k, h, t);
  }

  lemma {:induction false} WindowNonNegative(k: Key, h: seq<Trade>)
    requires NonNegative(h)
    ensures NonNegative(WindowTrades(k, h))
    decreases |h|
  {
    if h != [] {
      NonNegativeTail(h);
      WindowNonNegative(k, h[1..]);
    }
  }

  lemma RowKeepsKey(k: Key, h: seq<Trade>)
    requires WindowTrades(k, h) != []
    ensures KeyOf(WindowRow(k, h)) == k
  {
    var ts := WindowTrades(k, h);
    FoldKeepsKey(OpenRow(k.interval, k.start, ts[0].price), ts);
  }

  lemma SealedCount(k: Key, ts: seq<Trade>)
    requires ts != []
    ensures Seal(FoldWindow(k.interval, k.start, ts)).count == Wrap32(|ts|)
  {
    FoldCount(OpenRow(k.interval, k.start, ts[0].price), ts);
  }

  lemma RowCount(k: Key, h: seq<Trade>)
    requires WindowTrades(k, h) != []
    ensures WindowRow(k, h).count == Wrap32(|WindowTrades(k, h)|)
  {
    SealedCount(k, WindowTrades(k, h));
  }

  /** Every stored row is the row its window must have. */
  ghost predicate Reflects(db: Table, h: seq<Trade>) {
    forall k :: k in db ==> WindowTrades(k, h) != [] && db[k] == WindowRow(k, h)
  }

  // ---------------------------------------------------------------- trades of a window in one stretch

  predicate InWindow(k: Key, t: Trade) { WindowOf(k.interval, t) == k }

  /** No trade of another window of the interval comes between two trades of the window. */
  ghost predicate Contiguous(k: Key, ts: seq<Trade>) {
    forall i, j, l :: 0 <= i < j < l < |ts| && InWindow(k, ts[i]) && InWindow(k, ts[l]) ==> InWindow(k, ts[j])
  }

  predicate EndsIn(k: Key, h: seq<Trade>) { h != [] && InWindow(k, h[|h| - 1]) }

  /** One more trade breaks a stretch exactly when it comes back to a window that the trade before it had left. */
  lemma ContiguousSnoc(k: Key, h: seq<Trade>, t: Trade)
    ensures Contiguous(k, h + [t]) <==>
            Contiguous(k, h) && (InWindow(k, t) ==> EndsIn(k, h) || WindowTrades(k, h) == [])
  {
    hide InWindow, WindowTrades;
    var g := h + [t];
    assert forall i :: 0 <= i < |h| ==> g[i] == h[i];
    assert g[|h|] == t;
    if Contiguous(k, g) && InWindow(k, t) && WindowTrades(k, h) != [] {
      var i := SomeTrade(k, h);
      assert InWindow(k, g[i]) && InWindow(k, g[|h|]);
      assert i < |h| - 1 ==> InWindow(k, g[|h| - 1]);
    }
    if Contiguous(k, h) && (InWindow(k, t) ==> EndsIn(k, h) || WindowTrades(k, h) == []) {
      forall i, j, l | 0 <= i < j < l < |g| && InWindow(k, g[i]) && InWindow(k, g[l])
        ensures InWindow(k, g[j])
      {
        if l == |h| {
          HasTrade(k, h, i);
          assert j < |h| - 1 ==> InWindow(k, h[i]) && InWindow(k, h[|h| - 1]);
        }
      }
    }
  }

  lemma SomeTrade(k: Key, h: seq<Trade>) returns (i: nat)
    requires WindowTrades(k, h) != []
    ensures i < |h| && InWindow(k, h[i])
  {
    var t := WindowTrades(k, h)[0];
    WindowMember(k, h, t);
    i :| 0 <= i < |h| && h[i] == t;
  }

  lemma HasTrade(k: Key, h: seq<Trade>, i: nat)
    requires i < |h| && InWindow(k, h[i])
    ensures WindowTrades(k, h) != []
  {
    WindowMember(k, h, h[i]);
  }

  /** Trades in order of time come in one stretch per window. */
  lemma OrderedContiguous(k: Key, ts: seq<Trade>)
    requires Ordered(ts)
    ensures Contiguous(k, ts)
  {
    hide Align;
    forall i, j, l | 0 <= i < j < l < |ts| && InWindow(k, ts[i]) && InWindow(k, ts[l])
      ensures InWindow(k, ts[j])
    {
      AlignMonotone(k.interval, ts[i].timestamp, ts[j].timestamp);
      AlignMonotone(k.interval, ts[j].timestamp, ts[l].timestamp);
    }
  }

  lemma {:induction false} NoMoreThanAll(k: Key, h: seq<Trade>)
    ensures |WindowTrades(k, h)| <= |h|
  {
    if h != [] {
      NoMoreThanAll(k, h[1..]);
    }
  }
}
