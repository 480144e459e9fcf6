/** The fan-out keeps order: through three lossy queues, each connection is sent the trades of a symbol
    in the order in which they entered the symbol's channel, and none of them twice. */
module FanOut {
  import opened Hub
  import Bags

  /** The tickets of one symbol. */
  function Tickets(ms: seq<Msg>, symbol: Symbol): seq<nat> {
    if ms == [] then []
    else if ms[0].symbol == symbol then [ms[0].ticket] + Tickets(ms[1..], symbol)
    else Tickets(ms[1..], symbol)
  }

  lemma {:induction false} TicketsConcat(a: seq<Msg>, b: seq<Msg>, symbol: Symbol)
    ensures Tickets(a + b, symbol) == Tickets(a, symbol) + Tickets(b, symbol)
  {
    if a == [] {
      assert a + b == b;
    } else {
      assert (a + b)[1..] == a[1..] + b;
      TicketsConcat(a[1..], b, symbol);
      assert [a[0].ticket] + (Tickets(a[1..], symbol) + Tickets(b, symbol))
          == [a[0].ticket] + Tickets(a[1..], symbol) + Tickets(b, symbol);
    }
  }

  lemma TicketsSnoc(ms: seq<Msg>, m: Msg, symbol: Symbol)
    ensures Tickets(ms + [m], symbol) ==
            if m.symbol == symbol then Tickets(ms, symbol) + [m.ticket] else Tickets(ms, symbol)
  {
    TicketsConcat(ms, [m], symbol);
    assert [m][1..] == [];
  }

  /** Strictly increasing and below a bound. */
  ghost predicate Rising(ts: seq<nat>, bound: nat) {
    && (forall i, j :: 0 <= i < j < |ts| ==> ts[i] < ts[j])
    && (forall i :: 0 <= i < |ts| ==> ts[i] < bound)
  }

  lemma RisingDrop(a: seq<nat>, x: nat, b: seq<nat>, bound: nat)
    requires Rising(a + ([x] + b), bound)
    ensures Rising(a + b, bound)
  {
    var all := a + ([x] + b);
    assert forall i :: 0 <= i < |a| ==> all[i] == a[i];
    assert forall i :: 0 <= i < |b| ==> all[|a| + 1 + i] == b[i];
  }

  lemma RisingNext(a: seq<nat>, bound: nat)
    requires Rising(a, bound)
    ensures Rising(a + [bound], bound + 1)
  {
  }

  lemma RisingRest(a: seq<nat>, b: seq<nat>, bound: nat)
    requires Rising(a + b, bound)
    ensures Rising(b, bound) && Rising(a, bound)
  {
    assert forall i :: 0 <= i < |a| ==> (a + b)[i] == a[i];
    assert forall i :: 0 <= i < |b| ==> (a + b)[|a| + i] == b[i];
  }

  // ---------------------------------------------------------------- the path of a symbol's trades

  /** What the broadcaster still has for a writer. */
  function Coming(f: Feed, w: nat): seq<nat> {
    (if f.loop.Sending? && f.loop.next <= w then [f.loop.ticket] else []) + f.chan
  }

  /** What the writer holds for a connection. */
  function Held(wr: Writer, c: Conn, symbol: Symbol): seq<nat> {
    if wr.work.Delivering? && wr.work.task.symbol == symbol && c in wr.work.todo then [wr.work.task.ticket] else []
  }

  /** What a writer has received, but not begun to send, and what is in its queue. */
  function Ahead(wr: Writer): seq<Msg> { (if wr.work.Fetched? then [wr.work.task] else []) + wr.queue }

  /** The tickets of a symbol on their way to a writer, nearest first. */
  function Pipe(s: State, w: nat, symbol: Symbol): seq<nat>
    requires w < |s.writers|
  {
    Tickets(Ahead(s.writers[w]), symbol) + Coming(FeedOf(s, symbol), w)
  }

  /** What the client has been handed, and then what waits in its channel. */
  function Given(cl: Client): seq<Msg> { cl.pumped + cl.send }

  /** Everything a connection has been given of a symbol, then everything on its way to it. */
  function Path(s: State, c: Conn, symbol: Symbol): seq<nat>
    requires c in s.clients && s.clients[c].writer < |s.writers|
  {
    var cl := s.clients[c];
    Tickets(Given(cl), symbol) + (Held(s.writers[cl.writer], c, symbol) + Pipe(s, cl.writer, symbol))
  }

  ghost predicate OrderOk(s: State) {
    && (forall w, y :: 0 <= w < |s.writers| ==> Rising(Pipe(s, w, y), FeedOf(s, y).entered))
    && (forall c, y :: c in s.clients && s.clients[c].writer < |s.writers| ==>
          Rising(Path(s, c, y), FeedOf(s, y).entered))
  }

  /** How a step changes what is on its way to a writer: nothing, one more at the end, or the front one taken
      by the writer. Something dropped on the way is missing, and nothing else is. */
  ghost predicate PipeMoves(before: seq<nat>, after: seq<nat>, bound: nat, bound': nat, taken: seq<nat>) {
    || (bound' == bound && before == taken + after)
    || (bound' == bound + 1 && taken == [] && after == before + [bound])
    || (bound' == bound && taken == [] && OneLess(before, after))
  }

  ghost predicate OneLess(before: seq<nat>, after: seq<nat>) {
    exists i :: 0 <= i < |before| && after == Bags.Without(before, i)
  }

  lemma Appended(before: seq<nat>, after: seq<nat>, bound: nat)
    requires after == before + [bound]
    ensures PipeMoves(before, after, bound, bound + 1, [])
  {
  }

  lemma Dropped(before: seq<nat>, after: seq<nat>, bound: nat, a: seq<nat>, x: nat, b: seq<nat>)
    requires before == a + ([x] + b) && after == a + b
    ensures PipeMoves(before, after, bound, bound, [])
  {
    assert after == Bags.Without(before, |a|);
  }

  lemma Unmoved(before: seq<nat>, bound: nat)
    ensures PipeMoves(before, before, bound, bound, [])
  {
    assert before == [] + before;
  }

  function Taken(s: State, a: Action, w: nat, symbol: Symbol): seq<nat>
    requires Enabled(s, a) && w < |s.writers|
  {
    if a.WriterLock? && a.w == w && s.writers[w].work.task.symbol == symbol then [s.writers[w].work.task.ticket] else []
  }

  lemma PipeStep(s: State, a: Action, w: nat, y: Symbol)
    requires Enabled(s, a) && w < |s.writers|
    ensures var s' := Step(s, a);
            |s'.writers| == |s.writers| &&
            PipeMoves(Pipe(s, w, y), Pipe(s', w, y), FeedOf(s, y).entered, FeedOf(s', y).entered, Taken(s, a, w, y))
  {
    hide PipeMoves, Pipe, Tickets;
    match a
    case Broadcast(z) => PipeBroadcast(s, z, w, y);
    case LoopTake(z, ok) => PipeLoopTake(s, z, ok, w, y);
    case LoopSend(z) => PipeLoopSend(s, z, w, y);
    case WriterLock(v) => PipeWriterLock(s, v, w, y);
    case _ => PipeUnmoved(s, a, w, y);
  }

  lemma PipeUnmoved(s: State, a: Action, w: nat, y: Symbol)
    requires Enabled(s, a) && w < |s.writers|
    requires !a.Broadcast? && !a.LoopTake? && !a.LoopSend? && !a.WriterLock?
    ensures var s' := Step(s, a);
            |s'.writers| == |s.writers| &&
            PipeMoves(Pipe(s, w, y), Pipe(s', w, y), FeedOf(s, y).entered, FeedOf(s', y).entered, [])
  {
    hide PipeMoves, Tickets, Coming;
    KeptByOthers(s, a, w, y);
    var before := Pipe(s, w, y);
    assert [] + Pipe(Step(s, a), w, y) == Pipe(Step(s, a), w, y) && before + [] == before;
    Unmoved(before, FeedOf(s, y).entered);
  }

  lemma PipeBroadcast(s: State, z: Symbol, w: nat, y: Symbol)
    requires w < |s.writers|
    ensures var s' := Step(s, Broadcast(z));
            PipeMoves(Pipe(s, w, y), Pipe(s', w, y), FeedOf(s, y).entered, FeedOf(s', y).entered, [])
  {
    hide PipeMoves, Tickets;
    var s' := Step(s, Broadcast(z));
    var before, after, bound := Pipe(s, w, y), Pipe(s', w, y), FeedOf(s, y).entered;
    if z == y && |FeedOf(s, y).chan| < FEED_CAPACITY {
      assert after == before + [bound];
      Appended(before, after, bound);
    } else {
      assert after == before;
      Unmoved(before, bound);
    }
  }

  lemma PipeLoopTake(s: State, z: Symbol, ok: bool, w: nat, y: Symbol)
    requires Enabled(s, LoopTake(z, ok)) && w < |s.writers|
    ensures var s' := Step(s, LoopTake(z, ok));
            PipeMoves(Pipe(s, w, y), Pipe(s', w, y), FeedOf(s, y).entered, FeedOf(s', y).entered, [])
  {
    hide PipeMoves, Tickets;
    var s' := Step(s, LoopTake(z, ok));
    var before, after, bound := Pipe(s, w, y), Pipe(s', w, y), FeedOf(s, y).entered;
    var f := FeedOf(s, z);
    if z == y && !ok {
      var queue := Tickets(Ahead(s.writers[w]), y);
      assert [] + f.chan == f.chan && f.chan == [f.chan[0]] + f.chan[1..] && [] + f.chan[1..] == f.chan[1..];
      Dropped(before, after, bound, queue, f.chan[0], f.chan[1..]);
    } else {
      assert z == y ==> [] + f.chan == [f.chan[0]] + f.chan[1..];
      assert after == before;
      Unmoved(before, bound);
    }
  }

  lemma PipeLoopSend(s: State, z: Symbol, w: nat, y: Symbol)
    requires Enabled(s, LoopSend(z)) && w < |s.writers|
    ensures var s' := Step(s, LoopSend(z));
            PipeMoves(Pipe(s, w, y), Pipe(s', w, y), FeedOf(s, y).entered, FeedOf(s', y).entered, [])
  {
    hide PipeMoves, Tickets;
    var s' := Step(s, LoopSend(z));
    var before, bound := Pipe(s, w, y), FeedOf(s, y).entered;
    if z == y && FeedOf(s, y).loop.next == w && |s.writers[w].queue| >= QUEUE_CAPACITY {
      var f, queue := FeedOf(s, y), Tickets(Ahead(s.writers[w]), y);
      assert Pipe(s', w, y) == queue + f.chan by {
        assert [] + f.chan == f.chan;
      }
      Dropped(before, Pipe(s', w, y), bound, queue, f.loop.ticket, f.chan);
    } else {
      KeptByLoopSend(s, z, w, y);
      assert [] + Pipe(s', w, y) == Pipe(s', w, y) && before + [] == before;
      Unmoved(before, bound);
    }
  }

  lemma PipeWriterLock(s: State, v: nat, w: nat, y: Symbol)
    requires Enabled(s, WriterLock(v)) && w < |s.writers|
    ensures var s' := Step(s, WriterLock(v));
            PipeMoves(Pipe(s, w, y), Pipe(s', w, y), FeedOf(s, y).entered, FeedOf(s', y).entered,
                      Taken(s, WriterLock(v), w, y))
  {
    hide Tickets, Pipe;
    var s' := Step(s, WriterLock(v));
    KeptByWriterLock(s, v, w, y);
    assert Pipe(s, w, y) + [] == Pipe(s, w, y);
    assert FeedOf(s', y) == FeedOf(s, y);
  }

  // ---------------------------------------------------------------- the invariant

  lemma NextRising(front: seq<nat>, before: seq<nat>, bound: nat)
    requires Rising(front + before, bound)
    ensures Rising(front + (before + [bound]), bound + 1)
  {
    hide Rising;
    RisingNext(front + before, bound);
    assert front + before + [bound] == front + (before + [bound]);
  }

  lemma OneLessRising(front: seq<nat>, before: seq<nat>, after: seq<nat>, bound: nat)
    requires OneLess(before, after) && Rising(front + before, bound)
    ensures Rising(front + after, bound)
  {
    hide Rising;
    var i :| 0 <= i < |before| && after == Bags.Without(before, i);
    var a, x, b := front + before[..i], before[i], before[i + 1..];
    assert front + before == a + ([x] + b);
    RisingDrop(a, x, b, bound);
    assert a + b == front + after;
  }

  lemma MovesRising(front: seq<nat>, before: seq<nat>, after: seq<nat>, bound: nat, bound': nat, taken: seq<nat>)
    requires PipeMoves(before, after, bound, bound', taken) && Rising(front + before, bound)
    ensures Rising(front + (taken + after), bound') && Rising(front + after, bound')
  {
    hide Rising, OneLess;
    if bound' == bound && before == taken + after {
      RisingWithout(front, taken, after, bound);
    } else {
      assert taken + after == after;
      if bound' == bound + 1 && after == before + [bound] {
        NextRising(front, before, bound);
      } else {
        OneLessRising(front, before, after, bound);
      }
    }
  }

  lemma RisingWithout(a: seq<nat>, m: seq<nat>, b: seq<nat>, bound: nat)
    requires Rising(a + (m + b), bound)
    ensures Rising(a + b, bound)
  {
    var all := a + (m + b);
    assert forall i :: 0 <= i < |a| ==> all[i] == a[i];
    assert forall i :: 0 <= i < |b| ==> all[|a| + |m| + i] == b[i];
  }

  /** What a step does to a connection's own end of the path: what was taken by the writer is held or skipped,
      what was held is given to the connection or dropped. */
  lemma EndStep(s: State, a: Action, c: Conn, y: Symbol)
    requires ListOk(s) && Enabled(s, a) && c in s.clients
    ensures var s', w := Step(s, a), s.clients[c].writer;
            c in s'.clients && s'.clients[c].writer == w < |s.writers| == |s'.writers| &&
            var old', new' := Tickets(Given(s.clients[c]), y) + Held(s.writers[w], c, y),
                              Tickets(Given(s'.clients[c]), y) + Held(s'.writers[w], c, y);
            new' == old' + Taken(s, a, w, y) || new' == old'
            || (new' == Tickets(Given(s.clients[c]), y) && Taken(s, a, w, y) == [])
  {
    hide Tickets, ListOk;
    assert s.clients[c].writer < |s.writers| by {
      WriterExists(s, c);
    }
    var s', w := Step(s, a), s.clients[c].writer;
    var given := Tickets(Given(s.clients[c]), y);
    assert given + [] == given;
    match a
    case WriterSend(v, d) =>
      SentBy(s, v, d, c, y);
    case WriterLock(v) =>
    case _ => EndKeptByOthers(s, a, c, y);
  }

  lemma WriterExists(s: State, c: Conn)
    requires ListOk(s) && c in s.clients
    ensures s.clients[c].writer < |s.writers|
    ensures forall w, y :: 0 <= w < |s.writers| && w != s.clients[c].writer ==> Held(s.writers[w], c, y) == []
  {
  }

  lemma SentBy(s: State, v: nat, d: Conn, c: Conn, y: Symbol)
    requires ListOk(s) && Enabled(s, WriterSend(v, d)) && c in s.clients && s.clients[c].writer < |s.writers|
    ensures var s', w := Step(s, WriterSend(v, d)), s.clients[c].writer;
            var given := Tickets(Given(s.clients[c]), y);
            var new' := Tickets(Given(s'.clients[c]), y) + Held(s'.writers[w], c, y);
            new' == given + Held(s.writers[w], c, y) || new' == given
  {
    hide Tickets;
    var s', w := Step(s, WriterSend(v, d)), s.clients[c].writer;
    var task := s.writers[v].work.task;
    TicketsSnoc(Given(s.clients[c]), task, y);
    GivenBySend(s, v, d, c);
    WriterExists(s, c);
    hide Given;
    var given := Tickets(Given(s.clients[c]), y);
    assert given + [] == given;
    if c == d {
      assert v == w by {
        OwnWriter(s, v, c);
      }
    }
  }

  lemma OwnWriter(s: State, v: nat, c: Conn)
    requires ListOk(s) && v < |s.writers| && s.writers[v].work.Delivering? && c in s.writers[v].work.todo
    ensures c in s.clients && s.clients[c].writer == v
  {
    assert Sub(s.writers[v].work.task.symbol, c) in s.writers[v].subs;
  }

  lemma PathStep(s: State, a: Action, c: Conn, y: Symbol)
    requires ListOk(s) && OrderOk(s) && Enabled(s, a) && c in s.clients
    ensures var s' := Step(s, a);
            c in s'.clients && s'.clients[c].writer < |s'.writers| && Rising(Path(s', c, y), FeedOf(s', y).entered)
  {
    hide ListOk, Tickets, Held, Pipe, Taken, PipeMoves, Rising, Step, Enabled, FeedOf;
    EndStep(s, a, c, y);
    var s', w := Step(s, a), s.clients[c].writer;
    PipeStep(s, a, w, y);
    var before, after, taken := Pipe(s, w, y), Pipe(s', w, y), Taken(s, a, w, y);
    var given, end := Tickets(Given(s.clients[c]), y), Tickets(Given(s.clients[c]), y) + Held(s.writers[w], c, y);
    var given', held' := Tickets(Given(s'.clients[c]), y), Held(s'.writers[w], c, y);
    var bound, bound' := FeedOf(s, y).entered, FeedOf(s', y).entered;
    assert Path(s, c, y) == end + before;
    MovesRising(end, before, after, bound, bound', taken);
    assert Path(s', c, y) == (given' + held') + after;
    if given' + held' == end + taken {
      assert (end + taken) + after == end + (taken + after);
    } else if given' + held' == given {
      assert end + after == given + (Held(s.writers[w], c, y) + after);
      RisingWithout(given, Held(s.writers[w], c, y), after, bound');
    }
  }

  lemma NewPath(s: State, c: Conn, w: nat, y: Symbol)
    requires ListOk(s) && OrderOk(s) && Enabled(s, Connect(c, w))
    ensures var s' := Step(s, Connect(c, w)); Rising(Path(s', c, y), FeedOf(s', y).entered)
  {
    hide Rising, Tickets;
    var s' := Step(s, Connect(c, w));
    assert Held(s.writers[w], c, y) == [] by {
      NotYetListed(s, c, w, y);
    }
    assert Tickets([], y) == [] by {
      NoTickets(y);
    }
    assert Given(s'.clients[c]) == [];
    assert Path(s', c, y) == Pipe(s, w, y);
  }

  lemma NoTickets(y: Symbol)
    ensures Tickets([], y) == []
  {
  }

  lemma NotYetListed(s: State, c: Conn, w: nat, y: Symbol)
    requires ListOk(s) && c !in s.clients && w < |s.writers|
    ensures Held(s.writers[w], c, y) == []
  {
  }

  lemma OrderStep(s: State, a: Action)
    requires ListOk(s) && OrderOk(s) && Enabled(s, a)
    ensures OrderOk(Step(s, a))
  {
    hide ListOk, Tickets, Held, Pipe, Path, Taken, PipeMoves, Rising, FeedOf;
    var s' := Step(s, a);
    forall w, y | 0 <= w < |s'.writers|
      ensures Rising(Pipe(s', w, y), FeedOf(s', y).entered)
    {
      PipeStays(s, a, w, y);
    }
    forall c, y | c in s'.clients && s'.clients[c].writer < |s'.writers|
      ensures Rising(Path(s', c, y), FeedOf(s', y).entered)
    {
      if c in s.clients {
        PathStep(s, a, c, y);
      } else {
        NewPath(s, c, a.w, y);
      }
    }
  }

  lemma PipeStays(s: State, a: Action, w: nat, y: Symbol)
    requires OrderOk(s) && Enabled(s, a) && w < |Step(s, a).writers|
    ensures Rising(Pipe(Step(s, a), w, y), FeedOf(Step(s, a), y).entered)
  {
    assert w < |s.writers|;
    hide Tickets, Held, Pipe, Path, Taken, PipeMoves, Rising, Step, Enabled, FeedOf;
    PipeStep(s, a, w, y);
    var s' := Step(s, a);
    var before, after := Pipe(s, w, y), Pipe(s', w, y);
    assert [] + before == before && [] + after == after;
    MovesRising([], before, after, FeedOf(s, y).entered, FeedOf(s', y).entered, Taken(s, a, w, y));
  }

  lemma StartOrder()
    ensures OrderOk(START)
  {
    forall w, y | 0 <= w < |START.writers|
      ensures Pipe(START, w, y) == []
    {
    }
  }

  lemma {:induction false} RunOrder(s: State, run: seq<Action>)
    requires ListOk(s) && OrderOk(s) && Possible(s, run)
    ensures OrderOk(After(s, run)) && ListOk(After(s, run))
    decreases |run|
  {
    hide ListOk, OrderOk, Step, Enabled;
    if run != [] {
      ListStep(s, run[0]);
      OrderStep(s, run[0]);
      RunOrder(Step(s, run[0]), run[1..]);
    }
  }

  /** In every run, whatever is dropped and whoever subscribes and leaves, the trades of one symbol given on
      a connection's channel are in the order in which they entered the symbol's broadcast channel, and none
      of them twice. */
  lemma OrderKept(run: seq<Action>, c: Conn, y: Symbol)
    requires Possible(START, run) && c in After(START, run).clients
    ensures var s := After(START, run); Rising(Tickets(Given(s.clients[c]), y), FeedOf(s, y).entered)
  {
    StartList();
    StartOrder();
    RunOrder(START, run);
    var s := After(START, run);
    WriterExists(s, c);
    hide Rising, Tickets, Held, Pipe, FeedOf;
    RisingRest(Tickets(Given(s.clients[c]), y),
               Held(s.writers[s.clients[c].writer], c, y) + Pipe(s, s.clients[c].writer, y), FeedOf(s, y).entered);
  }

  // ---------------------------------------------------------------- what is not dropped arrives

  /** A step that drops a trade of a symbol on its way to a connection: encoding fails, the writer's queue or the
      connection's channel is full, or the writer takes its lock for the trade while the connection is not listed. */
  predicate Loses(s: State, a: Action, c: Conn, y: Symbol)
    requires Enabled(s, a) && c in s.clients && s.clients[c].writer < |s.writers|
  {
    var w := s.clients[c].writer;
    match a
    case LoopTake(z, ok) => z == y && !ok
    case LoopSend(z) => z == y && FeedOf(s, y).loop.next == w && |s.writers[w].queue| >= QUEUE_CAPACITY
    case WriterLock(v) => v == w && s.writers[w].work.task.symbol == y && Sub(y, c) !in s.writers[w].subs
    case WriterSend(v, d) =>
      v == w && d == c && s.writers[w].work.task.symbol == y && |s.clients[c].send| >= SEND_CAPACITY
    case _ => false
  }

  /** The ticket a step adds at the far end. */
  function Entering(s: State, a: Action, y: Symbol): seq<nat>
    requires Enabled(s, a)
  {
    if a == Broadcast(y) && |FeedOf(s, y).chan| < FEED_CAPACITY then [FeedOf(s, y).entered] else []
  }

  lemma PipeKept(s: State, a: Action, c: Conn, y: Symbol)
    requires ListOk(s) && Enabled(s, a) && c in s.clients
    requires s.clients[c].writer < |s.writers| && !Loses(s, a, c, y)
    ensures var w := s.clients[c].writer;
            Taken(s, a, w, y) + Pipe(Step(s, a), w, y) == Pipe(s, w, y) + Entering(s, a, y)
  {
    hide ListOk, Tickets, Held;
    match a
    case Broadcast(z) => KeptByBroadcast(s, z, s.clients[c].writer, y);
    case LoopTake(z, _) => KeptByLoopTake(s, z, s.clients[c].writer, y);
    case LoopSend(z) => KeptByLoopSend(s, z, s.clients[c].writer, y);
    case WriterLock(v) => KeptByWriterLock(s, v, s.clients[c].writer, y);
    case _ => KeptByOthers(s, a, s.clients[c].writer, y);
  }

  lemma KeptByBroadcast(s: State, z: Symbol, w: nat, y: Symbol)
    requires w < |s.writers|
    ensures [] + Pipe(Step(s, Broadcast(z)), w, y) == Pipe(s, w, y) + Entering(s, Broadcast(z), y)
  {
    hide Tickets;
  }

  lemma KeptByLoopTake(s: State, z: Symbol, w: nat, y: Symbol)
    requires Enabled(s, LoopTake(z, true)) && w < |s.writers|
    ensures [] + Pipe(Step(s, LoopTake(z, true)), w, y) == Pipe(s, w, y) + []
    ensures z != y ==> [] + Pipe(Step(s, LoopTake(z, false)), w, y) == Pipe(s, w, y) + []
  {
    hide Tickets;
    var f := FeedOf(s, y);
    assert z == y ==> [] + f.chan == [f.chan[0]] + f.chan[1..];
  }

  lemma KeptByLoopSend(s: State, z: Symbol, w: nat, y: Symbol)
    requires Enabled(s, LoopSend(z)) && w < |s.writers|
    requires z == y && FeedOf(s, y).loop.next == w ==> |s.writers[w].queue| < QUEUE_CAPACITY
    ensures [] + Pipe(Step(s, LoopSend(z)), w, y) == Pipe(s, w, y) + []
  {
    hide Tickets;
    var f, wr := FeedOf(s, z), s.writers[w];
    var queue := Tickets(Ahead(wr), y);
    TicketsSnoc(Ahead(wr), Msg(z, f.loop.ticket), y);
    var sent := wr.(queue := wr.queue + [Msg(z, f.loop.ticket)]);
    assert Ahead(sent) == Ahead(wr) + [Msg(z, f.loop.ticket)];
    assert (queue + [f.loop.ticket]) + ([] + f.chan) == queue + ([f.loop.ticket] + f.chan);
  }

  lemma KeptByWriterLock(s: State, v: nat, w: nat, y: Symbol)
    requires Enabled(s, WriterLock(v)) && w < |s.writers|
    ensures Taken(s, WriterLock(v), w, y) + Pipe(Step(s, WriterLock(v)), w, y) == Pipe(s, w, y) + []
  {
    hide Tickets;
    if v == w {
      var wr := s.writers[w];
      FirstTicket(Ahead(wr), y);
      assert Ahead(wr)[1..] == wr.queue && [] + wr.queue == wr.queue;
    }
  }

  lemma KeptByOthers(s: State, a: Action, w: nat, y: Symbol)
    requires Enabled(s, a) && w < |s.writers|
    requires !a.Broadcast? && !a.LoopTake? && !a.LoopSend? && !a.WriterLock?
    ensures |Step(s, a).writers| == |s.writers| && [] + Pipe(Step(s, a), w, y) == Pipe(s, w, y) + []
  {
    AheadKept(s, a, w);
    hide Tickets, Coming, Ahead, Step, Enabled;
  }

  lemma AheadKept(s: State, a: Action, w: nat)
    requires Enabled(s, a) && w < |s.writers|
    requires !a.Broadcast? && !a.LoopTake? && !a.LoopSend? && !a.WriterLock?
    ensures var s' := Step(s, a);
            |s'.writers| == |s.writers| && Ahead(s'.writers[w]) == Ahead(s.writers[w]) && s'.feeds == s.feeds
  {
    if a == WriterTake(w) {
      var queue := s.writers[w].queue;
      assert [queue[0]] + queue[1..] == [] + queue;
    }
  }

  lemma FirstTicket(ms: seq<Msg>, y: Symbol)
    requires ms != []
    ensures Tickets(ms, y) == (if ms[0].symbol == y then [ms[0].ticket] else []) + Tickets(ms[1..], y)
  {
    assert [] + Tickets(ms[1..], y) == Tickets(ms[1..], y);
  }

  lemma EndKept(s: State, a: Action, c: Conn, y: Symbol)
    requires ListOk(s) && Enabled(s, a) && c in s.clients
    requires s.clients[c].writer < |s.writers| && !Loses(s, a, c, y)
    ensures var s', w := Step(s, a), s.clients[c].writer;
            c in s'.clients && s'.clients[c].writer == w < |s'.writers| &&
            Tickets(Given(s'.clients[c]), y) + Held(s'.writers[w], c, y) ==
            Tickets(Given(s.clients[c]), y) + Held(s.writers[w], c, y) + Taken(s, a, w, y)
  {
    var given, held := Tickets(Given(s.clients[c]), y), Held(s.writers[s.clients[c].writer], c, y);
    assert given + held + [] == given + held;
    hide ListOk, Tickets, Held, Loses;
    match a
    case WriterSend(v, d) => EndKeptBySend(s, v, d, c, y);
    case WriterLock(v) => EndKeptByLock(s, v, c, y);
    case _ => EndKeptByOthers(s, a, c, y);
  }

  lemma EndKeptByOthers(s: State, a: Action, c: Conn, y: Symbol)
    requires Enabled(s, a) && c in s.clients && s.clients[c].writer < |s.writers| && !a.WriterSend? && !a.WriterLock?
    ensures var s', w := Step(s, a), s.clients[c].writer;
            c in s'.clients && s'.clients[c].writer == w < |s'.writers| &&
            Given(s'.clients[c]) == Given(s.clients[c]) && Held(s'.writers[w], c, y) == Held(s.writers[w], c, y)
  {
    hide Listed, Without;
    if a == Pump(c) {
      var cl := s.clients[c];
      assert cl.send == [cl.send[0]] + cl.send[1..];
      assert cl.pumped + [cl.send[0]] + cl.send[1..] == cl.pumped + ([cl.send[0]] + cl.send[1..]);
    }
  }

  /** A message that finds room is the last that the connection is given. */
  lemma GivenBySend(s: State, v: nat, d: Conn, c: Conn)
    requires Enabled(s, WriterSend(v, d)) && c in s.clients
    ensures var s' := Step(s, WriterSend(v, d));
            c in s'.clients && Given(s'.clients[c]) ==
            if c == d && |s.clients[c].send| < SEND_CAPACITY then Given(s.clients[c]) + [s.writers[v].work.task]
            else Given(s.clients[c])
  {
    var cl, m := s.clients[c], s.writers[v].work.task;
    assert cl.pumped + (cl.send + [m]) == cl.pumped + cl.send + [m];
  }

  lemma EndKeptBySend(s: State, v: nat, d: Conn, c: Conn, y: Symbol)
    requires ListOk(s) && Enabled(s, WriterSend(v, d)) && c in s.clients
    requires s.clients[c].writer < |s.writers| && !Loses(s, WriterSend(v, d), c, y)
    ensures var s', w := Step(s, WriterSend(v, d)), s.clients[c].writer;
            Tickets(Given(s'.clients[c]), y) + Held(s'.writers[w], c, y) ==
            Tickets(Given(s.clients[c]), y) + Held(s.writers[w], c, y)
  {
    hide Tickets;
    TicketsSnoc(Given(s.clients[c]), s.writers[v].work.task, y);
    GivenBySend(s, v, d, c);
    hide Given;
    if d == c {
      OwnWriter(s, v, c);
    }
    hide ListOk;
    var given := Tickets(Given(s.clients[c]), y);
    assert given + [] == given;
  }

  lemma EndKeptByLock(s: State, v: nat, c: Conn, y: Symbol)
    requires Enabled(s, WriterLock(v)) && c in s.clients
    requires s.clients[c].writer < |s.writers| && !Loses(s, WriterLock(v), c, y)
    ensures var s', w := Step(s, WriterLock(v)), s.clients[c].writer;
            Tickets(Given(s'.clients[c]), y) + Held(s'.writers[w], c, y) ==
            Tickets(Given(s.clients[c]), y) + Held(s.writers[w], c, y) + Taken(s, WriterLock(v), w, y)
  {
    hide Tickets;
    var w := s.clients[c].writer;
    var given := Tickets(Given(s.clients[c]), y);
    ListedIs(s.writers[w], y, c);
    hide Listed;
    assert given + [] == given;
  }

  lemma ListedIs(wr: Writer, y: Symbol, c: Conn)
    ensures c in Listed(wr, y) <==> Sub(y, c) in wr.subs
  {
    if Sub(y, c) in wr.subs {
      assert Sub(y, c).symbol == y && Sub(y, c).conn == c;
    }
  }

  /** A step that does not drop a trade keeps the whole path, and adds what enters. */
  lemma PathKept(s: State, a: Action, c: Conn, y: Symbol)
    requires ListOk(s) && Enabled(s, a) && c in s.clients
    requires s.clients[c].writer < |s.writers| && !Loses(s, a, c, y)
    ensures var s' := Step(s, a);
            c in s'.clients && s'.clients[c].writer < |s'.writers| &&
            Path(s', c, y) == Path(s, c, y) + Entering(s, a, y)
  {
    hide ListOk, Tickets, Held, Pipe, Taken, Step, Enabled, Entering, Loses;
    EndKept(s, a, c, y);
    PipeKept(s, a, c, y);
    var s', w := Step(s, a), s.clients[c].writer;
    var old', new' := Tickets(Given(s.clients[c]), y) + Held(s.writers[w], c, y),
                      Tickets(Given(s'.clients[c]), y) + Held(s'.writers[w], c, y);
    assert Path(s', c, y) == new' + Pipe(s', w, y);
    assert (old' + Taken(s, a, w, y)) + Pipe(s', w, y) == old' + (Taken(s, a, w, y) + Pipe(s', w, y));
    assert old' + (Pipe(s, w, y) + Entering(s, a, y)) == old' + Pipe(s, w, y) + Entering(s, a, y);
    assert Path(s, c, y) == old' + Pipe(s, w, y);
  }

  /** No step of a run drops a trade of the symbol for the connection. */
  predicate Lossless(s: State, run: seq<Action>, c: Conn, y: Symbol)
    requires Possible(s, run)
    decreases |run|
  {
    run == [] ||
    (c in s.clients && s.clients[c].writer < |s.writers| && !Loses(s, run[0], c, y)
     && Lossless(Step(s, run[0]), run[1..], c, y))
  }

  /** The tickets from one number up to another. */
  function Range(from: nat, to: nat): seq<nat>
    decreases to - from
  {
    if from >= to then [] else [from] + Range(from + 1, to)
  }

  lemma NoRange()
    ensures forall n :: Range(n, n) == []
  {
  }

  lemma EnteredGrows(s: State, a: Action, y: Symbol)
    requires Enabled(s, a)
    ensures FeedOf(Step(s, a), y).entered == FeedOf(s, y).entered + |Entering(s, a, y)|
  {
  }

  lemma {:induction false} RunGrows(s: State, run: seq<Action>, y: Symbol)
    requires Possible(s, run)
    ensures FeedOf(After(s, run), y).entered >= FeedOf(s, y).entered
    decreases |run|
  {
    hide Step, Enabled, FeedOf, Entering;
    if run != [] {
      EnteredGrows(s, run[0], y);
      RunGrows(Step(s, run[0]), run[1..], y);
    }
  }

  /** What is not dropped arrives: through any steps of which none drops a trade of the symbol for the connection, the
      trades sent to it and on their way to it grow by exactly the trades that entered, in order. */
  lemma {:induction false} AllArrive(s: State, run: seq<Action>, c: Conn, y: Symbol)
    requires ListOk(s) && Possible(s, run) && c in s.clients && Lossless(s, run, c, y)
    ensures var t := After(s, run);
            s.clients[c].writer < |s.writers| && c in t.clients && t.clients[c].writer < |t.writers| &&
            Path(t, c, y) == Path(s, c, y) + Range(FeedOf(s, y).entered, FeedOf(t, y).entered)
    decreases |run|
  {
    WriterExists(s, c);
    hide ListOk, Step, Enabled, Path, Entering, FeedOf, Loses, Range;
    assert forall n :: Range(n, n) == [] by {
      NoRange();
    }
    var t := After(s, run);
    if run == [] {
      Regrouped(Path(s, c, y), [], []);
    } else {
      var a, rest := run[0], run[1..];
      var s' := Step(s, a);
      ListStep(s, a);
      PathKept(s, a, c, y);
      AllArrive(s', rest, c, y);
      EnteredGrows(s, a, y);
      RunGrows(s', rest, y);
      RangeStep(s, a, y, FeedOf(t, y).entered);
      Regrouped(Path(s, c, y), Entering(s, a, y), Range(FeedOf(s', y).entered, FeedOf(t, y).entered));
    }
  }

  lemma Regrouped(a: seq<nat>, b: seq<nat>, c: seq<nat>)
    ensures a + (b + c) == a + b + c && a + [] == a
  {
  }

  lemma RangeStep(s: State, a: Action, y: Symbol, to: nat)
    requires Enabled(s, a) && FeedOf(Step(s, a), y).entered <= to
    ensures Range(FeedOf(s, y).entered, to) == Entering(s, a, y) + Range(FeedOf(Step(s, a), y).entered, to)
  {
    hide Step, Enabled, FeedOf;
    EnteredGrows(s, a, y);
    var from := FeedOf(s, y).entered;
    assert [] + Range(from, to) == Range(from, to);
  }

  // ---------------------------------------------------------------- and can always arrive

  /** A broadcaster that is sending has a writer to send to. */
  ghost predicate LoopsOk(s: State) {
    forall y :: FeedOf(s, y).loop.Sending? ==> FeedOf(s, y).loop.next < |s.writers|
  }

  lemma {:induction false} RunLoops(s: State, run: seq<Action>)
    requires LoopsOk(s) && |s.writers| > 0 && Possible(s, run)
    ensures LoopsOk(After(s, run)) && |After(s, run).writers| == |s.writers|
    decreases |run|
  {
    hide LoopsOk, Step, Enabled;
    if run != [] {
      StepLoops(s, run[0]);
      RunLoops(Step(s, run[0]), run[1..]);
    }
  }

  lemma StepLoops(s: State, a: Action)
    requires LoopsOk(s) && |s.writers| > 0 && Enabled(s, a)
    ensures LoopsOk(Step(s, a)) && |Step(s, a).writers| == |s.writers|
  {
    var s' := Step(s, a);
    forall y
      ensures FeedOf(s', y).loop.Sending? ==> FeedOf(s', y).loop.next < |s'.writers|
    {
      assert FeedOf(s, y).loop.Sending? ==> FeedOf(s, y).loop.next < |s.writers|;
    }
  }

  /** The step that brings what is on its way to a connection nearer: its own channel is emptied first, then its
      writer, then the symbol's broadcaster. */
  ghost function Next(s: State, c: Conn, y: Symbol): Action
    requires c in s.clients && s.clients[c].writer < |s.writers|
  {
    var w := s.clients[c].writer;
    var wr := s.writers[w];
    if s.clients[c].send != [] then Pump(c)
    else match wr.work
         case Fetched(_) => WriterLock(w)
         case Delivering(_, todo) => if todo == {} then WriterDone(w) else var d :| d in todo; WriterSend(w, d)
         case Resting =>
           if wr.queue != [] then WriterTake(w)
           else if FeedOf(s, y).loop.Sending? then LoopSend(y)
           else LoopTake(y, true)
  }

  /** Nothing is left to be done for a connection. */
  predicate Settled(s: State, c: Conn, y: Symbol)
    requires c in s.clients && s.clients[c].writer < |s.writers|
  {
    && s.clients[c].send == [] && s.writers[s.clients[c].writer].work == Resting
    && s.writers[s.clients[c].writer].queue == [] && FeedOf(s, y).loop == Waiting && FeedOf(s, y).chan == []
  }

  function Remaining(s: State, y: Symbol): int {
    if FeedOf(s, y).loop.Sending? then |s.writers| - FeedOf(s, y).loop.next else 0
  }

  function Stage(wr: Writer): nat {
    match wr.work
    case Fetched(_) => 2
    case Delivering(_, _) => 1
    case Resting => 0
  }

  function Todo(wr: Writer): nat { if wr.work.Delivering? then |wr.work.todo| else 0 }

  ghost predicate Serving(s: State, c: Conn, y: Symbol) {
    && ListOk(s) && LoopsOk(s) && c in s.clients && s.clients[c].writer < |s.writers|
    && Sub(y, c) in s.writers[s.clients[c].writer].subs
  }

  lemma NextServes(s: State, c: Conn, y: Symbol)
    requires Serving(s, c, y) && !Settled(s, c, y)
    ensures var a := Next(s, c, y);
            Enabled(s, a) && !Loses(s, a, c, y) && Serving(Step(s, a), c, y) && Entering(s, a, y) == []
            && Step(s, a).clients[c].writer == s.clients[c].writer
  {
    var a := Next(s, c, y);
    NextEnabled(s, c, y);
    ListStep(s, a);
    StepLoops(s, a);
  }

  lemma NextEnabled(s: State, c: Conn, y: Symbol)
    requires Serving(s, c, y) && !Settled(s, c, y)
    ensures Enabled(s, Next(s, c, y)) && !Loses(s, Next(s, c, y), c, y)
  {
  }

  /** What is left to be done for a connection, most important first. */
  ghost predicate Less(s: State, s': State, c: Conn, y: Symbol)
    requires c in s.clients && s.clients[c].writer < |s.writers|
    requires c in s'.clients && s'.clients[c].writer < |s'.writers|
  {
    var wr, wr' := s.writers[s.clients[c].writer], s'.writers[s'.clients[c].writer];
    (|FeedOf(s, y).chan|, Remaining(s, y), |wr.queue|, Stage(wr), Todo(wr), |s.clients[c].send|
     decreases to
     |FeedOf(s', y).chan|, Remaining(s', y), |wr'.queue|, Stage(wr'), Todo(wr'), |s'.clients[c].send|)
  }

  lemma NextLessens(s: State, c: Conn, y: Symbol)
    requires Serving(s, c, y) && !Settled(s, c, y) && Enabled(s, Next(s, c, y))
    requires Serving(Step(s, Next(s, c, y)), c, y) && Step(s, Next(s, c, y)).clients[c].writer == s.clients[c].writer
    ensures Less(s, Step(s, Next(s, c, y)), c, y)
  {
    var w := s.clients[c].writer;
    if s.clients[c].send == [] && s.writers[w].work.Delivering? && s.writers[w].work.todo != {} {
      SendLessens(s, w, Next(s, c, y).c, c, y);
    } else {
      OtherLessens(s, c, y);
    }
  }

  lemma SendLessens(s: State, w: nat, d: Conn, c: Conn, y: Symbol)
    requires Enabled(s, WriterSend(w, d)) && c in s.clients && s.clients[c].writer == w
    ensures Less(s, Step(s, WriterSend(w, d)), c, y)
  {
    var s' := Step(s, WriterSend(w, d));
    assert s.writers[w].work.todo == s'.writers[w].work.todo + {d};
  }

  lemma OtherLessens(s: State, c: Conn, y: Symbol)
    requires Serving(s, c, y) && !Settled(s, c, y) && Enabled(s, Next(s, c, y)) && !Next(s, c, y).WriterSend?
    requires Serving(Step(s, Next(s, c, y)), c, y) && Step(s, Next(s, c, y)).clients[c].writer == s.clients[c].writer
    ensures Less(s, Step(s, Next(s, c, y)), c, y)
  {
    hide ListOk;
  }

  /** From every state there are steps after which a listed connection's client has been handed everything of the
      symbol that it had been given or that was on its way to it, in order. */
  lemma {:induction false} AllCanArrive(s: State, c: Conn, y: Symbol) returns (run: seq<Action>)
    requires Serving(s, c, y)
    ensures Possible(s, run) && Lossless(s, run, c, y) && c in After(s, run).clients
    ensures Tickets(After(s, run).clients[c].pumped, y) == Path(s, c, y)
    decreases |FeedOf(s, y).chan|, Remaining(s, y), |s.writers[s.clients[c].writer].queue|,
              Stage(s.writers[s.clients[c].writer]), Todo(s.writers[s.clients[c].writer]), |s.clients[c].send|
  {
    if Settled(s, c, y) {
      run := [];
      SettledPath(s, c, y);
    } else {
      var a := Next(s, c, y);
      NextServes(s, c, y);
      NextLessens(s, c, y);
      PathKept(s, a, c, y);
      var rest := AllCanArrive(Step(s, a), c, y);
      run := [a] + rest;
      assert run[1..] == rest;
      Regrouped(Path(s, c, y), [], []);
    }
  }

  lemma SettledPath(s: State, c: Conn, y: Symbol)
    requires c in s.clients && s.clients[c].writer < |s.writers| && Settled(s, c, y)
    ensures Path(s, c, y) == Tickets(s.clients[c].pumped, y)
  {
    NoTickets(y);
    var cl := s.clients[c];
    assert Given(cl) == cl.pumped;
    assert Ahead(s.writers[cl.writer]) == [];
    assert Path(s, c, y) == Tickets(cl.pumped, y) + ([] + ([] + ([] + [])));
  }

  /** So in every run a connection that has subscribed and is between requests can be served completely. */
  lemma SubscriberServed(run: seq<Action>, c: Conn, y: Symbol) returns (rest: seq<Action>)
    requires Possible(START, run) && c in After(START, run).clients
    requires After(START, run).clients[c].pc == Reading && Wants(run, c, y, false)
    ensures var s := After(START, run);
            && s.clients[c].writer < |s.writers| && Possible(s, rest) && c in After(s, rest).clients
            && Tickets(After(s, rest).clients[c].pumped, y) == Path(s, c, y)
  {
    var s := After(START, run);
    StartList();
    RunList(START, run);
    RunLoops(START, run);
    WriterExists(s, c);
    ListedAsAsked(run, s.clients[c].writer, y, c);
    rest := AllCanArrive(s, c, y);
  }

  function Opening(c: Conn, w: nat, y: Symbol): seq<Action> {
    [Connect(c, w)] + ([Subscribe(c, y)] + ([Subscribed(c)] + ([Broadcast(y)] + [])))
  }

  /** The client of an opening, its writer and the symbol's feed. */
  predicate Open(s: State, c: Conn, w: nat, y: Symbol) {
    && c in s.clients && s.clients[c] == Client(w, {y}, Reading, [], []) && |s.writers| == WRITERS > w
    && s.writers[w] == Writer([], Resting, {Sub(y, c)}) && FeedOf(s, y) == Feed(1, [0], Waiting)
  }

  lemma OpenState(s1: State, s2: State, s3: State, c: Conn, w: nat, y: Symbol)
    requires w < WRITERS && s1 == Step(START, Connect(c, w))
    requires Enabled(s1, Subscribe(c, y)) && s2 == Step(s1, Subscribe(c, y))
    requires Enabled(s2, Subscribed(c)) && s3 == Step(s2, Subscribed(c))
    ensures Open(Step(s3, Broadcast(y)), c, w, y)
  {
  }

  lemma Opened(c: Conn, w: nat, y: Symbol)
    requires w < WRITERS
    ensures Possible(START, Opening(c, w, y)) && Wants(Opening(c, w, y), c, y, false)
    ensures Open(After(START, Opening(c, w, y)), c, w, y)
  {
    var s1 := Step(START, Connect(c, w));
    var s2 := Step(s1, Subscribe(c, y));
    var s3 := Step(s2, Subscribed(c));
    hide Open;
    OpenState(s1, s2, s3, c, w, y);
    FirstStep(s3, Broadcast(y), [], c, y, true);
    FirstStep(s2, Subscribed(c), [Broadcast(y)] + [], c, y, true);
    FirstStep(s1, Subscribe(c, y), [Subscribed(c)] + ([Broadcast(y)] + []), c, y, false);
    FirstStep(START, Connect(c, w), [Subscribe(c, y)] + ([Subscribed(c)] + ([Broadcast(y)] + [])), c, y, false);
  }

  lemma FirstStep(s: State, a: Action, rest: seq<Action>, c: Conn, y: Symbol, before: bool)
    requires Enabled(s, a) && Possible(Step(s, a), rest)
    ensures Possible(s, [a] + rest) && After(s, [a] + rest) == After(Step(s, a), rest)
    ensures var next := if a == Subscribe(c, y) then true else if a == Unsubscribe(c, y) then false else before;
            Wants([a] + rest, c, y, before) == Wants(rest, c, y, next)
  {
    assert ([a] + rest)[1..] == rest;
  }

  /** A client that subscribes can be handed the first trade. */
  lemma FirstTrade(c: Conn, w: nat, y: Symbol) returns (rest: seq<Action>)
    requires w < WRITERS
    ensures Possible(START, Opening(c, w, y)) && Possible(After(START, Opening(c, w, y)), rest)
    ensures var t := After(After(START, Opening(c, w, y)), rest);
            c in t.clients && Tickets(t.clients[c].pumped, y) == [0]
  {
    Opened(c, w, y);
    rest := SubscriberServed(Opening(c, w, y), c, y);
    NoTickets(y);
    assert [] + ([] + ([] + ([] + [0]))) == [0];
  }

  /** Unsubscribing, and then the end of the read loop. */
  function Leaving(c: Conn, y: Symbol): seq<Action> {
    [Unsubscribe(c, y)] + ([Unsubscribed(c)] + ([Remove(c)] + ([Close(c)] + [])))
  }

  lemma LeavingSteps(s: State, c: Conn, y: Symbol)
    requires CanLock(s, c)
    ensures Possible(s, Leaving(c, y))
    ensures var t := After(s, Leaving(c, y)); c in t.clients && t.clients[c].pc == Closed
  {
    var s1 := Step(s, Unsubscribe(c, y));
    var s2 := Step(s1, Unsubscribed(c));
    var s3 := Step(s2, Remove(c));
    FirstStep(s3, Close(c), [], c, y, false);
    FirstStep(s2, Remove(c), [Close(c)] + [], c, y, false);
    FirstStep(s1, Unsubscribed(c), [Remove(c)] + ([Close(c)] + []), c, y, false);
    FirstStep(s, Unsubscribe(c, y), [Unsubscribed(c)] + ([Remove(c)] + ([Close(c)] + [])), c, y, false);
  }

  /** From every state there are steps by which a connection between requests unsubscribes and leaves: its writer comes
      to an end with the message at hand, and no channel that is full holds it up. */
  lemma {:induction false} CanLeave(s: State, c: Conn, y: Symbol) returns (run: seq<Action>)
    requires ListOk(s) && c in s.clients && s.clients[c].pc == Reading
    ensures Possible(s, run) && c in After(s, run).clients && After(s, run).clients[c].pc == Closed
    decreases Todo(s.writers[s.clients[c].writer]), Stage(s.writers[s.clients[c].writer])
  {
    var w := s.clients[c].writer;
    WriterExists(s, c);
    if CanLock(s, c) {
      LeavingSteps(s, c, y);
      run := Leaving(c, y);
    } else {
      var a := WriterDone(w);
      if d :| d in s.writers[w].work.todo {
        a := WriterSend(w, d);
        assert s.writers[w].work.todo == Step(s, a).writers[w].work.todo + {d};
      }
      ListStep(s, a);
      var rest := CanLeave(Step(s, a), c, y);
      FirstStep(s, a, rest, c, y, false);
      run := [a] + rest;
    }
  }
}
