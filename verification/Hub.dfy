/** The WebSocket fan-out (internal/ws/hub.go) as interleaved steps: a broadcaster per symbol, sixteen writers
    and a read loop per connection, joined by channels that drop when they are full. */
module Hub {
  datatype Symbol = Symbol(name: string)

  datatype Conn = Conn(id: nat)

  /** A trade by its symbol and its place in the order in which trades entered the symbol's channel. */
  datatype Msg = Msg(symbol: Symbol, ticket: nat)

  datatype Sub = Sub(symbol: Symbol, conn: Conn)

  /** A symbol's broadcaster waits for a trade, or is sending one to the writers from `next` on. */
  datatype Loop = Waiting | Sending(ticket: nat, next: nat)

  datatype Feed = Feed(entered: nat, chan: seq<nat>, loop: Loop)

  /** A writer rests, or has received a message and waits for its read lock, or sends the message to the connections
      left of those listed when it took the lock. */
  datatype Work = Resting | Fetched(task: Msg) | Delivering(task: Msg, todo: set<Conn>)

  datatype Writer = Writer(queue: seq<Msg>, work: Work, subs: set<Sub>)

  /** Where a connection's read loop is: between requests, between the two halves of a request,
      past the clean-up of its writer, or past closing its channel. */
  datatype Pc = Reading | Subscribing(symbol: Symbol) | Unsubscribing(symbol: Symbol) | Removed | Closed

  /** `send` is the connection's channel; `pumped` records what its writePump has taken from it, in order. */
  datatype Client = Client(writer: nat, subbed: set<Symbol>, pc: Pc, send: seq<Msg>, pumped: seq<Msg>)

  datatype State = State(feeds: map<Symbol, Feed>, writers: seq<Writer>, clients: map<Conn, Client>)

  const WRITERS := 16
  const FEED_CAPACITY := 1024
  const QUEUE_CAPACITY := 256
  const SEND_CAPACITY := 256

  const START := State(map[], seq(WRITERS, i => Writer([], Resting, {})), map[])

  datatype Action =
    | Broadcast(symbol: Symbol)            // BroadcastTrade
    | LoopTake(symbol: Symbol, ok: bool)   // broadcastLoop takes a trade; encoding may fail
    | LoopSend(symbol: Symbol)             // and offers it to the next writer
    | WriterTake(w: nat)                   // writer.loop receives a task
    | WriterLock(w: nat)                   // takes the read lock
    | WriterSend(w: nat, c: Conn)          // and offers it to one of the listed connections
    | WriterDone(w: nat)                   // and releases the lock
    | Connect(c: Conn, w: nat)
    | Subscribe(c: Conn, symbol: Symbol)   // under the writer's lock
    | Subscribed(c: Conn)
    | Unsubscribe(c: Conn, symbol: Symbol) // under the writer's lock
    | Unsubscribed(c: Conn)
    | Remove(c: Conn)                      // removeConn, under the writer's lock
    | Close(c: Conn)
    | Pump(c: Conn)                        // writePump takes a message

  function FeedOf(s: State, symbol: Symbol): Feed {
    if symbol in s.feeds then s.feeds[symbol] else Feed(0, [], Waiting)
  }

  /** A connection's read loop may take its writer's lock: it is between requests and no read lock is held. */
  predicate CanLock(s: State, c: Conn) {
    c in s.clients && s.clients[c].pc == Reading && s.clients[c].writer < |s.writers|
    && !s.writers[s.clients[c].writer].work.Delivering?
  }

  predicate Enabled(s: State, a: Action) {
    match a
    case Broadcast(y) => true
    case LoopTake(y, _) => FeedOf(s, y).loop == Waiting && FeedOf(s, y).chan != []
    case LoopSend(y) => FeedOf(s, y).loop.Sending? && FeedOf(s, y).loop.next < |s.writers|
    case WriterTake(w) => w < |s.writers| && s.writers[w].work == Resting && s.writers[w].queue != []
    case WriterLock(w) => w < |s.writers| && s.writers[w].work.Fetched?
    case WriterSend(w, c) => w < |s.writers| && s.writers[w].work.Delivering? && c in s.writers[w].work.todo
                             && c in s.clients
    case WriterDone(w) => w < |s.writers| && s.writers[w].work.Delivering? && s.writers[w].work.todo == {}
    case Connect(c, w) => c !in s.clients && w < |s.writers|
    case Subscribe(c, y) => CanLock(s, c)
    case Subscribed(c) => c in s.clients && s.clients[c].pc.Subscribing?
    case Unsubscribe(c, y) => CanLock(s, c)
    case Unsubscribed(c) => c in s.clients && s.clients[c].pc.Unsubscribing?
    case Remove(c) => CanLock(s, c)
    case Close(c) => c in s.clients && s.clients[c].pc == Removed
    case Pump(c) => c in s.clients && s.clients[c].send != []
  }

  function Listed(w: Writer, symbol: Symbol): set<Conn> {
    set sub | sub in w.subs && sub.symbol == symbol :: sub.conn
  }

  function SetClient(s: State, c: Conn, cl: Client): State { s.(clients := s.clients[c := cl]) }

  function SetWriter(s: State, w: nat, wr: Writer): State
    requires w < |s.writers|
  {
    s.(writers := s.writers[w := wr])
  }

  function SetFeed(s: State, symbol: Symbol, f: Feed): State { s.(feeds := s.feeds[symbol := f]) }

  function Step(s: State, a: Action): State
    requires Enabled(s, a)
  {
    match a
    case Broadcast(y) =>
      var f := FeedOf(s, y);
      if |f.chan| < FEED_CAPACITY then SetFeed(s, y, f.(entered := f.entered + 1, chan := f.chan + [f.entered]))
      else SetFeed(s, y, f)
    case LoopTake(y, ok) =>
      var f := FeedOf(s, y);
      SetFeed(s, y, f.(chan := f.chan[1..], loop := if ok then Sending(f.chan[0], 0) else Waiting))
    case LoopSend(y) =>
      var f := FeedOf(s, y);
      var w := f.loop.next;
      var wr := s.writers[w];
      var moved := SetFeed(s, y, f.(loop := if w + 1 < |s.writers| then f.loop.(next := w + 1) else Waiting));
      if |wr.queue| < QUEUE_CAPACITY then SetWriter(moved, w, wr.(queue := wr.queue + [Msg(y, f.loop.ticket)]))
      else moved
    case WriterTake(w) =>
      var wr := s.writers[w];
      SetWriter(s, w, wr.(queue := wr.queue[1..], work := Fetched(wr.queue[0])))
    case WriterLock(w) =>
      var wr := s.writers[w];
      SetWriter(s, w, wr.(work := Delivering(wr.work.task, Listed(wr, wr.work.task.symbol))))
    case WriterSend(w, c) =>
      var wr, cl := s.writers[w], s.clients[c];
      var moved := SetWriter(s, w, wr.(work := wr.work.(todo := wr.work.todo - {c})));
      if |cl.send| < SEND_CAPACITY
      then SetClient(moved, c, cl.(send := cl.send + [wr.work.task]))
      else moved
    case WriterDone(w) => SetWriter(s, w, s.writers[w].(work := Resting))
    case Connect(c, w) => SetClient(s, c, Client(w, {}, Reading, [], []))
    case Subscribe(c, y) =>
      var cl := s.clients[c];
      var wr := s.writers[cl.writer];
      SetClient(SetWriter(s, cl.writer, wr.(subs := wr.subs + {Sub(y, c)})), c, cl.(pc := Subscribing(y)))
    case Subscribed(c) =>
      var cl := s.clients[c];
      SetClient(s, c, cl.(pc := Reading, subbed := cl.subbed + {cl.pc.symbol}))
    case Unsubscribe(c, y) =>
      var cl := s.clients[c];
      var wr := s.writers[cl.writer];
      SetClient(SetWriter(s, cl.writer, wr.(subs := wr.subs - {Sub(y, c)})), c, cl.(pc := Unsubscribing(y)))
    case Unsubscribed(c) =>
      var cl := s.clients[c];
      SetClient(s, c, cl.(pc := Reading, subbed := cl.subbed - {cl.pc.symbol}))
    case Remove(c) =>
      var cl := s.clients[c];
      var wr := s.writers[cl.writer];
      SetClient(SetWriter(s, cl.writer, wr.(subs := Without(wr.subs, c, cl.subbed))), c, cl.(pc := Removed))
    case Close(c) => SetClient(s, c, s.clients[c].(pc := Closed))
    case Pump(c) =>
      var cl := s.clients[c];
      SetClient(s, c, cl.(send := cl.send[1..], pumped := cl.pumped + [cl.send[0]]))
  }

  /** The listing without a connection under the given symbols. */
  function Without(subs: set<Sub>, c: Conn, symbols: set<Symbol>): set<Sub> {
    set sub | sub in subs && !(sub.conn == c && sub.symbol in symbols)
  }

  predicate Possible(s: State, run: seq<Action>)
    decreases |run|
  {
    run == [] || (Enabled(s, run[0]) && Possible(Step(s, run[0]), run[1..]))
  }

  function After(s: State, run: seq<Action>): State
    requires Possible(s, run)
    decreases |run|
  {
    if run == [] then s else After(Step(s, run[0]), run[1..])
  }

  // ---------------------------------------------------------------- who is listed

  /** What the read loop's place says about the listing of a symbol. */
  predicate Expects(cl: Client, symbol: Symbol) {
    match cl.pc
    case Reading => symbol in cl.subbed
    case Subscribing(y) => symbol in cl.subbed || symbol == y
    case Unsubscribing(y) => symbol in cl.subbed && symbol != y
    case Removed => false
    case Closed => false
  }

  /** The writers list exactly what the read loops expect, each connection at its own writer only, and a
      writer at work has only listed connections left. */
  ghost predicate ListOk(s: State) {
    && (forall w, y, c :: 0 <= w < |s.writers| ==>
          (Sub(y, c) in s.writers[w].subs <==> c in s.clients && s.clients[c].writer == w && Expects(s.clients[c], y)))
    && (forall w, c :: 0 <= w < |s.writers| && s.writers[w].work.Delivering? && c in s.writers[w].work.todo ==>
          Sub(s.writers[w].work.task.symbol, c) in s.writers[w].subs)
    && (forall c :: c in s.clients ==> s.clients[c].writer < |s.writers|)
  }

  lemma StartList()
    ensures ListOk(START)
  {
  }

  lemma ListByFeed(s: State, a: Action)
    requires ListOk(s) && Enabled(s, a) && (a.Broadcast? || a.LoopTake?)
    ensures ListOk(Step(s, a)) && |Step(s, a).writers| == |s.writers|
  {
  }

  lemma ListByOffer(s: State, a: Action)
    requires ListOk(s) && Enabled(s, a) && a.LoopSend?
    ensures ListOk(Step(s, a)) && |Step(s, a).writers| == |s.writers|
  {
  }

  lemma ListByClient(s: State, a: Action)
    requires ListOk(s) && Enabled(s, a) && (a.Close? || a.Pump?)
    ensures ListOk(Step(s, a)) && |Step(s, a).writers| == |s.writers|
  {
  }

  lemma ListByLock(s: State, w: nat)
    requires ListOk(s) && Enabled(s, WriterLock(w))
    ensures ListOk(Step(s, WriterLock(w))) && |Step(s, WriterLock(w)).writers| == |s.writers|
  {
    var wr := s.writers[w];
    var task := wr.work.task;
    forall c | c in Listed(wr, task.symbol)
      ensures Sub(task.symbol, c) in wr.subs
    {
      var sub :| sub in wr.subs && sub.symbol == task.symbol && sub.conn == c;
      assert sub == Sub(task.symbol, c);
    }
    hide Expects, Listed;
  }

  lemma ListBySend(s: State, w: nat, c: Conn)
    requires ListOk(s) && Enabled(s, WriterSend(w, c))
    ensures ListOk(Step(s, WriterSend(w, c))) && |Step(s, WriterSend(w, c)).writers| == |s.writers|
  {
  }

  lemma ListByWriter(s: State, a: Action)
    requires ListOk(s) && Enabled(s, a) && (a.WriterTake? || a.WriterDone? || a.Connect?)
    ensures ListOk(Step(s, a)) && |Step(s, a).writers| == |s.writers|
  {
  }

  lemma ListBySubscribe(s: State, a: Action)
    requires ListOk(s) && Enabled(s, a) && a.Subscribe?
    ensures ListOk(Step(s, a)) && |Step(s, a).writers| == |s.writers|
  {
  }

  lemma ListBySubscribed(s: State, a: Action)
    requires ListOk(s) && Enabled(s, a) && a.Subscribed?
    ensures ListOk(Step(s, a)) && |Step(s, a).writers| == |s.writers|
  {
  }

  lemma ListByUnsubscribe(s: State, a: Action)
    requires ListOk(s) && Enabled(s, a) && a.Unsubscribe?
    ensures ListOk(Step(s, a)) && |Step(s, a).writers| == |s.writers|
  {
  }

  lemma ListByUnsubscribed(s: State, a: Action)
    requires ListOk(s) && Enabled(s, a) && a.Unsubscribed?
    ensures ListOk(Step(s, a)) && |Step(s, a).writers| == |s.writers|
  {
  }

  lemma ListByRemove(s: State, c: Conn)
    requires ListOk(s) && Enabled(s, Remove(c))
    ensures ListOk(Step(s, Remove(c))) && |Step(s, Remove(c)).writers| == |s.writers|
  {
  }

  lemma ListStep(s: State, a: Action)
    requires ListOk(s) && Enabled(s, a)
    ensures ListOk(Step(s, a)) && |Step(s, a).writers| == |s.writers|
  {
    hide ListOk, Enabled, Step;
    match a
    case Subscribe(_, _) => ListBySubscribe(s, a);
    case Subscribed(_) => ListBySubscribed(s, a);
    case Unsubscribe(_, _) => ListByUnsubscribe(s, a);
    case Unsubscribed(_) => ListByUnsubscribed(s, a);
    case Remove(c) => ListByRemove(s, c);
    case Broadcast(_) => ListByFeed(s, a);
    case LoopTake(_, _) => ListByFeed(s, a);
    case LoopSend(_) => ListByOffer(s, a);
    case Close(_) => ListByClient(s, a);
    case Pump(_) => ListByClient(s, a);
    case WriterTake(_) => ListByWriter(s, a);
    case WriterLock(w) => ListByLock(s, w);
    case WriterSend(w, c) => ListBySend(s, w, c);
    case WriterDone(_) => ListByWriter(s, a);
    case Connect(_, _) => ListByWriter(s, a);
  }

  lemma {:induction false} RunList(s: State, run: seq<Action>)
    requires ListOk(s) && Possible(s, run)
    ensures ListOk(After(s, run)) && |After(s, run).writers| == |s.writers|
    decreases |run|
  {
    hide ListOk, Step, Enabled;
    if run != [] {
      ListStep(s, run[0]);
      RunList(Step(s, run[0]), run[1..]);
    }
  }

  /** Between two requests of a connection its writer lists it under a symbol exactly when it has subscribed;
      after removeConn has released the writer's lock no writer lists it; and another's writer never does. */
  lemma ListedExactly(run: seq<Action>, w: nat, y: Symbol, c: Conn)
    requires Possible(START, run) && w < |After(START, run).writers|
    ensures var s := After(START, run);
            && (Sub(y, c) in s.writers[w].subs ==> c in s.clients && s.clients[c].writer == w)
            && (c in s.clients && s.clients[c].writer == w && s.clients[c].pc == Reading ==>
                  (Sub(y, c) in s.writers[w].subs <==> y in s.clients[c].subbed))
            && (c in s.clients && (s.clients[c].pc == Removed || s.clients[c].pc == Closed) ==>
                  Sub(y, c) !in s.writers[w].subs)
  {
    StartList();
    RunList(START, run);
  }

  /** Whether a connection's last request about a symbol was to subscribe. */
  function Wants(run: seq<Action>, c: Conn, y: Symbol, before: bool): bool
    decreases |run|
  {
    if run == [] then before
    else
      Wants(run[1..], c, y,
            if run[0] == Subscribe(c, y) then true else if run[0] == Unsubscribe(c, y) then false else before)
  }

  /** The read loop of a connection knows of a symbol what was last asked for. */
  predicate Heeded(s: State, c: Conn, y: Symbol, wanted: bool) {
    if c in s.clients
    then s.clients[c].pc == Removed || s.clients[c].pc == Closed || (Expects(s.clients[c], y) <==> wanted)
    else !wanted
  }

  lemma {:induction false} RunHeeds(s: State, run: seq<Action>, c: Conn, y: Symbol, wanted: bool)
    requires Possible(s, run) && Heeded(s, c, y, wanted)
    ensures Heeded(After(s, run), c, y, Wants(run, c, y, wanted))
    decreases |run|
  {
    if run != [] {
      var a := run[0];
      var next := if a == Subscribe(c, y) then true else if a == Unsubscribe(c, y) then false else wanted;
      StepHeeds(s, a, c, y, wanted);
      RunHeeds(Step(s, a), run[1..], c, y, next);
    }
  }

  lemma StepHeeds(s: State, a: Action, c: Conn, y: Symbol, wanted: bool)
    requires Enabled(s, a) && Heeded(s, c, y, wanted)
    ensures Heeded(Step(s, a), c, y,
                   if a == Subscribe(c, y) then true else if a == Unsubscribe(c, y) then false else wanted)
  {
  }

  /** A connection between requests is listed under a symbol, by its own writer, exactly when the last of its
      requests about the symbol was to subscribe. */
  lemma ListedAsAsked(run: seq<Action>, w: nat, y: Symbol, c: Conn)
    requires Possible(START, run) && c in After(START, run).clients
    requires After(START, run).clients[c].pc == Reading && w < |After(START, run).writers|
    ensures var s := After(START, run);
            Sub(y, c) in s.writers[w].subs <==> s.clients[c].writer == w && Wants(run, c, y, false)
  {
    RunHeeds(START, run, c, y, false);
    ListedExactly(run, w, y, c);
  }

  /** No writer is ever about to send on a closed channel. */
  lemma NoSendOnClosed(run: seq<Action>, w: nat, c: Conn)
    requires Possible(START, run) && w < |After(START, run).writers|
    requires var work := After(START, run).writers[w].work; work.Delivering? && c in work.todo
    ensures var s := After(START, run); c in s.clients && s.clients[c].pc != Closed && s.clients[c].pc != Removed
  {
    StartList();
    RunList(START, run);
  }

  // ---------------------------------------------------------------- the maps behind the listing

  /** A writer's listing as the nested maps of the source: symbol to connections, never an empty set. */
  class Listing {
    var subs: map<Symbol, set<Conn>>

    ghost predicate Valid()
      reads this
    {
      forall y :: y in subs ==> subs[y] != {}
    }

    /** The same as pairs. */
    ghost predicate Lists(sub: Sub)
      reads this
    {
      sub.symbol in subs && sub.conn in subs[sub.symbol]
    }

    constructor ()
      ensures Valid() && forall sub :: !Lists(sub)
    {
      subs := map[];
    }

    method Add(y: Symbol, c: Conn)
      requires Valid()
      modifies this
      ensures Valid() && forall sub :: Lists(sub) <==> old(Lists(sub)) || sub == Sub(y, c)
    {
      if y !in subs {
        subs := subs[y := {}];
      }
      subs := subs[y := subs[y] + {c}];
    }

    /** The last connection of a symbol takes the symbol with it. */
    method Delete(y: Symbol, c: Conn)
      requires Valid()
      modifies this
      ensures Valid() && forall sub :: Lists(sub) <==> old(Lists(sub)) && sub != Sub(y, c)
    {
      if y in subs {
        subs := subs[y := subs[y] - {c}];
        assert forall d :: d in old(subs[y]) && d != c ==> d in subs[y];
        if subs[y] == {} {
          subs := subs - {y};
        }
      }
    }
  }

  class Connection {
    const self: Conn
    const writer: Listing
    var subbed: set<Symbol>

    /** Between requests: listed exactly where subscribed. */
    ghost predicate Valid()
      reads this, writer
    {
      writer.Valid() && forall y :: writer.Lists(Sub(y, self)) <==> y in subbed
    }

    constructor (c: Conn, w: Listing)
      requires w.Valid() && forall y :: !w.Lists(Sub(y, c))
      ensures Valid() && self == c && writer == w && subbed == {}
    {
      self, writer, subbed := c, w, {};
    }

    method Subscribe(y: Symbol)
      requires Valid()
      modifies this, writer
      ensures Valid() && subbed == old(subbed) + {y}
      ensures forall sub :: writer.Lists(sub) <==> old(writer.Lists(sub)) || sub == Sub(y, self)
    {
      writer.Add(y, self);
      subbed := subbed + {y};
    }

    method Unsubscribe(y: Symbol)
      requires Valid()
      modifies this, writer
      ensures Valid() && subbed == old(subbed) - {y}
      ensures forall sub :: writer.Lists(sub) <==> old(writer.Lists(sub)) && sub != Sub(y, self)
    {
      writer.Delete(y, self);
      subbed := subbed - {y};
    }

    /** removeConn: no trace of the connection is left, and no other's listing is touched. */
    method RemoveConn()
      requires Valid()
      modifies writer
      ensures writer.Valid() && forall sub :: writer.Lists(sub) <==> old(writer.Lists(sub)) && sub.conn != self
    {
      var left := subbed;
      while left != {}
        invariant left <= subbed && writer.Valid()
        invariant forall sub :: writer.Lists(sub) <==>
                    old(writer.Lists(sub)) && !(sub.conn == self && sub.symbol in subbed - left)
        decreases left
      {
        var y :| y in left;
        writer.Delete(y, self);
        left := left - {y};
      }
      assert forall y :: old(writer.Lists(Sub(y, self))) ==> y in subbed;
    }
  }
}
