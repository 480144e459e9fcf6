/** The contiguous commit protocol (internal/kafka/consumer.go): workers finish messages in any order and
    signal them over a channel that may drop; a committer commits, per partition, the end of the
    contiguous stretch of what was signalled. */
module Committer {
  import opened Bags

  datatype Partition = Partition(id: int)

  /** A message by the only parts of it that matter here. */
  datatype Msg = Msg(partition: Partition, offset: int)

  /** The state of partOffsets. */
  datatype Part = Part(committed: int, pending: set<Msg>)

  const FRESH := Part(-1, {})

  /** The last offset of the stretch of `s` that starts at `next`, or the one before `next`. */
  function StretchEnd(p: Partition, next: int, s: set<Msg>): int
    decreases s
  {
    if Msg(p, next) in s then StretchEnd(p, next + 1, s - {Msg(p, next)}) else next - 1
  }

  lemma {:induction false} StretchFacts(p: Partition, next: int, s: set<Msg>)
    ensures var e := StretchEnd(p, next, s);
            e >= next - 1 && Msg(p, e + 1) !in s && forall o :: next <= o <= e ==> Msg(p, o) in s
    decreases s
  {
    if Msg(p, next) in s {
      StretchFacts(p, next + 1, s - {Msg(p, next)});
    }
  }

  /** Those facts determine the end. */
  lemma StretchUnique(p: Partition, next: int, s: set<Msg>, e: int)
    requires e >= next - 1 && Msg(p, e + 1) !in s && forall o :: next <= o <= e ==> Msg(p, o) in s
    ensures StretchEnd(p, next, s) == e
  {
    StretchFacts(p, next, s);
    var f := StretchEnd(p, next, s);
    assert next <= e + 1 <= f ==> Msg(p, e + 1) in s;
    assert next <= f + 1 <= e ==> Msg(p, f + 1) in s;
  }

  /** The end of the stretch from zero: what a partition's commits aim at. */
  function Prefix(p: Partition, s: set<Msg>): int { StretchEnd(p, 0, s) }

  function Highest(p: Partition, po: Part): int { StretchEnd(p, po.committed + 1, po.pending) }

  function Received(po: Part, m: Msg): Part { po.(pending := po.pending + {m}) }

  /** One partition's round of flushCommits. */
  function Flushed(p: Partition, po: Part, commits: bool): Part {
    var to := Highest(p, po);
    if to <= po.committed || !commits then po else Part(to, set m | m in po.pending && m.offset > to)
  }

  // ---------------------------------------------------------------- the mutable committer

  class PartOffsets {
    const partition: Partition
    var committed: int
    var pending: set<Msg>

    function Value(): Part
      reads this
    {
      Part(committed, pending)
    }

    constructor (p: Partition)
      ensures partition == p && Value() == FRESH
    {
      partition, committed, pending := p, -1, {};
    }

    method HighestContiguous() returns (highest: int)
      ensures highest == Highest(partition, Value())
    {
      var next := committed + 1;
      ghost var left := pending;
      while Msg(partition, next) in pending
        invariant next > committed && left <= pending
        invariant forall o :: o >= next ==> (Msg(partition, o) in left <==> Msg(partition, o) in pending)
        invariant StretchEnd(partition, next, left) == Highest(partition, Value())
        decreases left
      {
        left := left - {Msg(partition, next)};
        next := next + 1;
      }
      highest := next - 1;
    }

    /** Commits what is contiguous, if there is any and the commit succeeds. */
    method Flush(commits: bool) returns (acked: bool)
      modifies this
      ensures Value() == Flushed(partition, old(Value()), commits)
      ensures acked == (commits && Highest(partition, old(Value())) > old(committed))
      ensures acked ==> committed == Highest(partition, old(Value()))
    {
      var commitTo := HighestContiguous();
      if commitTo <= committed || !commits {
        return false;
      }
      committed := commitTo;
      pending := set m | m in pending && m.offset > commitTo;
      acked := true;
    }
  }

  /** The goroutine's own state: one record per partition seen. */
  class Offsets {
    var parts: map<Partition, PartOffsets>

    ghost predicate Valid()
      reads this, parts.Values
    {
      forall p :: p in parts ==> parts[p].partition == p
    }

    /** The state of a partition. */
    function Of(p: Partition): Part
      reads this, parts.Values
    {
      if p in parts then parts[p].Value() else FRESH
    }

    constructor ()
      ensures Valid() && parts == map[]
    {
      parts := map[];
    }

    /** A signal from a worker. */
    method Complete(m: Msg)
      requires Valid()
      modifies this, parts.Values
      ensures Valid() && parts.Keys == old(parts.Keys) + {m.partition}
      ensures forall p :: Of(p) == if p == m.partition then Received(old(Of(p)), m) else old(Of(p))
    {
      if m.partition !in parts {
        var po := new PartOffsets(m.partition);
        parts := parts[m.partition := po];
      }
      var po := parts[m.partition];
      po.pending := po.pending + {m};
    }

    /** flushCommits: each partition for itself, in any order; the commits to some partitions fail. */
    method FlushCommits(failing: set<Partition>)
      requires Valid()
      modifies parts.Values
      ensures Valid()
      ensures forall p :: p in parts ==> Of(p) == Flushed(p, old(Of(p)), p !in failing)
    {
      hide Flushed, Highest;
      var left := parts.Keys;
      while left != {}
        invariant left <= parts.Keys && Valid()
        invariant forall p :: p in parts ==>
                    Of(p) == if p in left then old(Of(p)) else Flushed(p, old(Of(p)), p !in failing)
        decreases left
      {
        var p :| p in left;
        var acked := parts[p].Flush(p !in failing);
        left := left - {p};
      }
    }
  }

  // ---------------------------------------------------------------- the protocol

  const CHANNEL_CAPACITY := 16384

  /** The consumer with its workers. No step reads the last three fields: they record which messages were
      processed without error, which were signalled to the committer, and the successful commits in order. */
  datatype Sys = Sys(
    tasks: seq<Msg>,
    working: seq<Msg>,
    finished: seq<Msg>,
    completed: seq<Msg>,
    parts: map<Partition, Part>,
    processed: set<Msg>,
    signalled: set<Msg>,
    acks: seq<Msg>)

  const START := Sys([], [], [], [], map[], {}, {}, [])

  datatype Action =
    | Fetch(m: Msg)              // any message, any number of times
    | Take                       // some worker takes the next task
    | Process(i: nat, ok: bool)  // some worker is done, or fails
    | Signal(i: nat)             // its non-blocking send to the committer
    | Receive                    // the committer takes the next signal
    | Flush(p: Partition, commits: bool)

  predicate Enabled(s: Sys, a: Action) {
    match a
    case Fetch(m) => m.offset >= 0
    case Take => s.tasks != []
    case Process(i, _) => i < |s.working|
    case Signal(i) => i < |s.finished|
    case Receive => s.completed != []
    case Flush(p, _) => p in s.parts
  }

  function PartOf(s: Sys, p: Partition): Part { if p in s.parts then s.parts[p] else FRESH }

  function Step(s: Sys, a: Action): Sys
    requires Enabled(s, a)
  {
    match a
    case Fetch(m) => s.(tasks := s.tasks + [m])
    case Take => s.(tasks := s.tasks[1..], working := s.working + [s.tasks[0]])
    case Process(i, ok) =>
      var m := s.working[i];
      var rest := s.(working := Without(s.working, i));
      if ok then rest.(finished := s.finished + [m], processed := s.processed + {m}) else rest
    case Signal(i) =>
      var rest := s.(finished := Without(s.finished, i));
      if |s.completed| < CHANNEL_CAPACITY then rest.(completed := s.completed + [s.finished[i]]) else rest
    case Receive =>
      var m := s.completed[0];
      s.(completed := s.completed[1..], parts := s.parts[m.partition := Received(PartOf(s, m.partition), m)],
         signalled := s.signalled + {m})
    case Flush(p, commits) =>
      var po, to := s.parts[p], Highest(p, s.parts[p]);
      s.(parts := s.parts[p := Flushed(p, po, commits)],
         acks := if commits && to > po.committed then s.acks + [Msg(p, to)] else s.acks)
  }

  predicate Possible(s: Sys, run: seq<Action>)
    decreases |run|
  {
    run == [] || (Enabled(s, run[0]) && Possible(Step(s, run[0]), run[1..]))
  }

  function After(s: Sys, run: seq<Action>): Sys
    requires Possible(s, run)
    decreases |run|
  {
    if run == [] then s else After(Step(s, run[0]), run[1..])
  }

  // ---------------------------------------------------------------- the invariant

  ghost predicate From(ms: seq<Msg>, s: set<Msg>) { forall i :: 0 <= i < |ms| ==> ms[i] in s && ms[i].offset >= 0 }

  ghost predicate FromZero(ms: seq<Msg>) { forall i :: 0 <= i < |ms| ==> ms[i].offset >= 0 }

  /** What the committer knows of a partition: everything up to `committed` was signalled, and all that was
      signalled beyond it is pending. */
  ghost predicate PartOk(p: Partition, po: Part, signalled: set<Msg>) {
    && po.committed >= -1
    && (forall o :: 0 <= o <= po.committed ==> Msg(p, o) in signalled)
    && (forall m :: m in po.pending ==> m in signalled && m.partition == p)
    && (forall o :: o > po.committed && Msg(p, o) in signalled ==> Msg(p, o) in po.pending)
  }

  /** The successful commits of each partition strictly increase, and `committed` is the latest of them. */
  ghost predicate AcksOk(s: Sys) {
    && (forall i, j :: 0 <= i < j < |s.acks| && s.acks[i].partition == s.acks[j].partition ==>
          s.acks[i].offset < s.acks[j].offset)
    && (forall i :: 0 <= i < |s.acks| ==> 0 <= s.acks[i].offset <= PartOf(s, s.acks[i].partition).committed)
    && (forall p :: PartOf(s, p).committed >= 0 ==> Msg(p, PartOf(s, p).committed) in s.acks)
  }

  ghost predicate Inv(s: Sys) {
    && FromZero(s.tasks) && FromZero(s.working)
    && From(s.finished, s.processed) && From(s.completed, s.processed)
    && (forall m :: m in s.signalled ==> m in s.processed && m.offset >= 0)
    && (forall p :: PartOk(p, PartOf(s, p), s.signalled))
    && AcksOk(s)
  }

  lemma FlushedOk(p: Partition, po: Part, signalled: set<Msg>, commits: bool)
    requires PartOk(p, po, signalled)
    ensures PartOk(p, Flushed(p, po, commits), signalled) && Flushed(p, po, commits).committed >= po.committed
  {
    StretchFacts(p, po.committed + 1, po.pending);
  }

  lemma ReceivedOk(p: Partition, po: Part, signalled: set<Msg>, m: Msg)
    requires PartOk(p, po, signalled) && m.offset >= 0
    ensures PartOk(p, if m.partition == p then Received(po, m) else po, signalled + {m})
  {
  }

  lemma ReceiveInv(s: Sys)
    requires Inv(s) && Enabled(s, Receive)
    ensures Inv(Step(s, Receive))
  {
    hide StretchEnd, Highest, PartOk;
    var s', m := Step(s, Receive), s.completed[0];
    forall p
      ensures PartOk(p, PartOf(s', p), s'.signalled) && PartOf(s', p).committed == PartOf(s, p).committed
    {
      ReceivedOk(p, PartOf(s, p), s.signalled, m);
    }
  }

  lemma FlushAcks(s: Sys, p: Partition, commits: bool)
    requires Inv(s) && Enabled(s, Flush(p, commits))
    ensures AcksOk(Step(s, Flush(p, commits)))
  {
    assert PartOk(p, PartOf(s, p), s.signalled);
    hide StretchEnd, Highest, PartOk, From, FromZero;
    var s', to := Step(s, Flush(p, commits)), Highest(p, PartOf(s, p));
    forall q | PartOf(s', q).committed >= 0
      ensures Msg(q, PartOf(s', q).committed) in s'.acks
    {
      if q == p && commits && to > PartOf(s, p).committed {
        assert s'.acks[|s.acks|] == Msg(p, to);
      } else {
        assert PartOf(s', q).committed == PartOf(s, q).committed && Msg(q, PartOf(s, q).committed) in s.acks;
      }
    }
  }

  lemma FlushInv(s: Sys, p: Partition, commits: bool)
    requires Inv(s) && Enabled(s, Flush(p, commits))
    ensures Inv(Step(s, Flush(p, commits)))
  {
    FlushAcks(s, p, commits);
    hide StretchEnd, Highest, PartOk, From, FromZero, AcksOk;
    var s' := Step(s, Flush(p, commits));
    FlushedOk(p, PartOf(s, p), s.signalled, commits);
    forall q
      ensures PartOk(q, PartOf(s', q), s'.signalled)
    {
      assert PartOk(q, PartOf(s, q), s.signalled);
    }
  }

  lemma StepInv(s: Sys, a: Action)
    requires Inv(s) && Enabled(s, a)
    ensures Inv(Step(s, a))
  {
    hide StretchEnd, Highest, PartOk;
    match a
    case Receive => ReceiveInv(s);
    case Flush(p, commits) => FlushInv(s, p, commits);
    case _ => WorkInv(s, a);
  }

  /** Steps of the fetcher and of the workers do not touch what the committer holds. */
  lemma WorkInv(s: Sys, a: Action)
    requires Inv(s) && Enabled(s, a) && !a.Receive? && !a.Flush?
    ensures Inv(Step(s, a))
  {
    hide StretchEnd, Highest, PartOk, AcksOk;
    var s' := Step(s, a);
    assert forall p :: PartOf(s', p) == PartOf(s, p);
    SameAcks(s, s');
  }

  lemma SameAcks(s: Sys, s': Sys)
    requires AcksOk(s) && s'.acks == s.acks && s'.parts == s.parts
    ensures AcksOk(s')
  {
    assert forall p :: PartOf(s', p) == PartOf(s, p);
  }

  lemma {:induction false} RunInv(s: Sys, run: seq<Action>)
    requires Inv(s) && Possible(s, run)
    ensures Inv(After(s, run))
    decreases |run|
  {
    hide Inv, Step, Enabled;
    if run != [] {
      StepInv(s, run[0]);
      RunInv(Step(s, run[0]), run[1..]);
    }
  }

  lemma StartInv()
    ensures Inv(START)
  {
  }

  // ---------------------------------------------------------------- guarantees

  /** The commits of a run: no offset is committed unless all offsets up to it were processed without error,
      and the commits of a partition strictly increase. */
  lemma CommitsSafe(run: seq<Action>, i: nat)
    requires Possible(START, run) && i < |After(START, run).acks|
    ensures var s := After(START, run);
            && (forall o :: 0 <= o <= s.acks[i].offset ==> Msg(s.acks[i].partition, o) in s.processed)
            && (forall j :: 0 <= j < i && s.acks[j].partition == s.acks[i].partition ==>
                  s.acks[j].offset < s.acks[i].offset)
  {
    StartInv();
    RunInv(START, run);
    var s := After(START, run);
    assert PartOk(s.acks[i].partition, PartOf(s, s.acks[i].partition), s.signalled);
  }

  /** What the committer holds as committed is what it last committed successfully, or nothing. */
  lemma CommittedIsAcked(run: seq<Action>, p: Partition)
    requires Possible(START, run)
    ensures var s := After(START, run);
            && (PartOf(s, p).committed >= 0 ==> Msg(p, PartOf(s, p).committed) in s.acks)
            && (forall m :: m in s.acks && m.partition == p ==> 0 <= m.offset <= PartOf(s, p).committed)
  {
    StartInv();
    RunInv(START, run);
  }

  /** After a successful flush neither a committed offset nor the next one is pending, and nothing else is forgotten. */
  lemma FlushForgets(run: seq<Action>, p: Partition, m: Msg)
    requires Possible(START, run)
    ensures var po := PartOf(After(START, run), p);
            var to := Prefix(p, After(START, run).signalled);
            to > po.committed ==> (m in Flushed(p, po, true).pending <==> m in po.pending && m.offset > to)
                                  && Msg(p, to + 1) !in Flushed(p, po, true).pending
  {
    FlushReachesPrefix(run, p);
    var po := PartOf(After(START, run), p);
    StretchFacts(p, po.committed + 1, po.pending);
  }

  /** Whatever the order of arrival, the duplicates, the failed commits and the deletions from `pending`, a flush that
      commits brings `committed` to the end of the longest stretch from zero of everything ever signalled. */
  lemma FlushReachesPrefix(run: seq<Action>, p: Partition)
    requires Possible(START, run)
    ensures var s := After(START, run);
            && Flushed(p, PartOf(s, p), true).committed == Prefix(p, s.signalled)
            && PartOf(s, p).committed <= Prefix(p, s.signalled)
  {
    StartInv();
    RunInv(START, run);
    var s := After(START, run);
    var po := PartOf(s, p);
    assert PartOk(p, po, s.signalled);
    StretchFacts(p, po.committed + 1, po.pending);
    var to := Highest(p, po);
    assert Msg(p, to + 1) !in s.signalled;
    StretchUnique(p, 0, s.signalled, to);
  }

  /** A message that was never signalled is never passed. */
  lemma NeverPassed(run: seq<Action>, m: Msg)
    requires Possible(START, run) && m.offset >= 0 && m !in After(START, run).signalled
    ensures var s := After(START, run); PartOf(s, m.partition).committed < m.offset
    ensures var s := After(START, run); forall i :: 0 <= i < |s.acks| && s.acks[i].partition == m.partition ==>
                                                      s.acks[i].offset < m.offset
  {
    StartInv();
    RunInv(START, run);
    var s := After(START, run);
    assert PartOk(m.partition, PartOf(s, m.partition), s.signalled);
  }

  /** A partition is ever committed exactly when offset zero was signalled: a partition first
      seen at a later offset never is. */
  lemma CommitsFromZero(run: seq<Action>, p: Partition)
    requires Possible(START, run)
    ensures var s := After(START, run);
            Flushed(p, PartOf(s, p), true).committed >= 0 <==> Msg(p, 0) in s.signalled
  {
    FlushReachesPrefix(run, p);
    StretchFacts(p, 0, After(START, run).signalled);
  }

  // ---------------------------------------------------------------- nothing else gets lost

  /** The messages between the fetch and the committer. */
  function OnTheWay(s: Sys): multiset<Msg> {
    multiset(s.tasks) + multiset(s.working) + multiset(s.finished) + multiset(s.completed)
  }

  function Entering(a: Action): multiset<Msg> { if a.Fetch? then multiset{a.m} else multiset{} }

  /** A worker fails on a message. */
  function Failing(s: Sys, a: Action): multiset<Msg>
    requires Enabled(s, a)
  {
    if a.Process? && !a.ok then multiset{s.working[a.i]} else multiset{}
  }

  /** A worker finds the channel to the committer full. */
  function Dropping(s: Sys, a: Action): multiset<Msg>
    requires Enabled(s, a)
  {
    if a.Signal? && |s.completed| >= CHANNEL_CAPACITY then multiset{s.finished[a.i]} else multiset{}
  }

  function Arriving(s: Sys, a: Action): multiset<Msg>
    requires Enabled(s, a)
  {
    if a.Receive? then multiset{s.completed[0]} else multiset{}
  }

  lemma WithoutOne(ms: seq<Msg>, i: nat)
    requires i < |ms|
    ensures multiset(ms) == multiset(Without(ms, i)) + multiset{ms[i]}
  {
    assert ms == ms[..i] + ([ms[i]] + ms[i + 1..]);
  }

  lemma FirstOne(ms: seq<Msg>)
    requires ms != []
    ensures multiset(ms) == multiset(ms[1..]) + multiset{ms[0]}
  {
    assert ms == [ms[0]] + ms[1..];
  }

  lemma SnocOne(ms: seq<Msg>, m: Msg)
    ensures multiset(ms + [m]) == multiset(ms) + multiset{m}
  {
  }

  lemma Moved(a: multiset<Msg>, b: multiset<Msg>, c: multiset<Msg>, m: Msg)
    ensures a + (b + multiset{m}) + c == a + b + (c + multiset{m})
  {
  }

  ghost predicate Conserves(s: Sys, a: Action)
    requires Enabled(s, a)
  {
    && OnTheWay(Step(s, a)) + Failing(s, a) + Dropping(s, a) + Arriving(s, a) == OnTheWay(s) + Entering(a)
    && forall m :: m in Step(s, a).signalled <==> m in s.signalled || m in Arriving(s, a)
  }

  lemma TakeConserves(s: Sys)
    requires Enabled(s, Take)
    ensures Conserves(s, Take)
  {
    FirstOne(s.tasks);
    assert Step(s, Take).signalled == s.signalled;
  }

  lemma SuccessConserves(s: Sys, i: nat)
    requires Enabled(s, Process(i, true))
    ensures Conserves(s, Process(i, true))
  {
    hide Without;
    WithoutOne(s.working, i);
    var s', m := Step(s, Process(i, true)), s.working[i];
    assert s'.signalled == s.signalled;
    SnocOne(s.finished, m);
    Moved(multiset(s.tasks), multiset(s'.working), multiset(s.finished), m);
  }

  lemma FailureConserves(s: Sys, i: nat)
    requires Enabled(s, Process(i, false))
    ensures Conserves(s, Process(i, false))
  {
    hide Without;
    WithoutOne(s.working, i);
    var s' := Step(s, Process(i, false));
    assert s' == s.(working := s'.working);
    TakenOut(multiset(s.tasks), multiset(s'.working), multiset(s.finished), multiset(s.completed), s.working[i]);
  }

  lemma TakenOut(a: multiset<Msg>, b: multiset<Msg>, c: multiset<Msg>, d: multiset<Msg>, m: Msg)
    ensures a + (b + multiset{m}) + c + d == a + b + c + d + multiset{m}
  {
  }

  lemma SignalConserves(s: Sys, i: nat)
    requires Enabled(s, Signal(i))
    ensures Conserves(s, Signal(i))
  {
    hide Without;
    WithoutOne(s.finished, i);
    var s', m := Step(s, Signal(i)), s.finished[i];
    assert s'.signalled == s.signalled;
    if |s.completed| < CHANNEL_CAPACITY {
      SnocOne(s.completed, m);
      Moved(multiset(s.tasks) + multiset(s.working), multiset(s'.finished), multiset(s.completed), m);
    } else {
      assert s'.completed == s.completed;
    }
  }

  lemma ReceiveConserves(s: Sys)
    requires Enabled(s, Receive)
    ensures Conserves(s, Receive)
  {
    hide Received, PartOf;
    FirstOne(s.completed);
  }

  /** A step takes a message into the consumer, or out of it by failure, by a full channel or by arrival at the
      committer, and otherwise keeps all of them. */
  lemma StepConserves(s: Sys, a: Action)
    requires Enabled(s, a)
    ensures Conserves(s, a)
  {
    match a
    case Take => TakeConserves(s);
    case Process(i, ok) =>
      if ok {
        SuccessConserves(s, i);
      } else {
        FailureConserves(s, i);
      }
    case Signal(i) => SignalConserves(s, i);
    case Receive => ReceiveConserves(s);
    case _ =>
  }

  function Fetched(run: seq<Action>): multiset<Msg> {
    if run == [] then multiset{} else Entering(run[0]) + Fetched(run[1..])
  }

  function Failed(s: Sys, run: seq<Action>): multiset<Msg>
    requires Possible(s, run)
    decreases |run|
  {
    if run == [] then multiset{} else Failing(s, run[0]) + Failed(Step(s, run[0]), run[1..])
  }

  function Dropped(s: Sys, run: seq<Action>): multiset<Msg>
    requires Possible(s, run)
    decreases |run|
  {
    if run == [] then multiset{} else Dropping(s, run[0]) + Dropped(Step(s, run[0]), run[1..])
  }

  function Arrived(s: Sys, run: seq<Action>): multiset<Msg>
    requires Possible(s, run)
    decreases |run|
  {
    if run == [] then multiset{} else Arriving(s, run[0]) + Arrived(Step(s, run[0]), run[1..])
  }

  lemma {:induction false} RunConserves(s: Sys, run: seq<Action>)
    requires Possible(s, run)
    ensures OnTheWay(After(s, run)) + Failed(s, run) + Dropped(s, run) + Arrived(s, run) == OnTheWay(s) + Fetched(run)
    ensures forall m :: m in After(s, run).signalled <==> m in s.signalled || m in Arrived(s, run)
    decreases |run|
  {
    hide Step, Enabled, OnTheWay, Entering, Failing, Dropping, Arriving;
    if run == [] {
      assert OnTheWay(s) + multiset{} + multiset{} + multiset{} == OnTheWay(s) + multiset{};
    } else {
      var a, s', rest := run[0], Step(s, run[0]), run[1..];
      StepConserves(s, a);
      RunConserves(s', rest);
      Balance(OnTheWay(s), OnTheWay(s'), OnTheWay(After(s, run)), Failing(s, a), Dropping(s, a), Arriving(s, a),
              Entering(a), Failed(s', rest), Dropped(s', rest), Arrived(s', rest), Fetched(rest));
    }
  }

  lemma Balance(t: multiset<Msg>, u: multiset<Msg>, v: multiset<Msg>, f: multiset<Msg>, d: multiset<Msg>,
                r: multiset<Msg>, e: multiset<Msg>, f': multiset<Msg>, d': multiset<Msg>, r': multiset<Msg>,
                e': multiset<Msg>)
    requires u + f + d + r == t + e && v + f' + d' + r' == u + e'
    ensures v + (f + f') + (d + d') + (r + r') == t + (e + e')
  {
    forall m
      ensures (v + (f + f') + (d + d') + (r + r'))[m] == (t + (e + e'))[m]
    {
      assert (u + f + d + r)[m] == (t + e)[m] && (v + f' + d' + r')[m] == (u + e')[m];
    }
  }

  /** Over every run each fetched message, as often as it was fetched, is on its way, or a worker failed on it, or
      its signal found the channel full, or it has arrived; and what has arrived is what was signalled. */
  lemma AllAccounted(run: seq<Action>)
    requires Possible(START, run)
    ensures var s := After(START, run);
            && Fetched(run) == OnTheWay(s) + Failed(START, run) + Dropped(START, run) + Arrived(START, run)
            && forall m :: m in s.signalled <==> m in Arrived(START, run)
  {
    RunConserves(START, run);
    assert OnTheWay(START) == multiset{};
  }

  /** What a worker processed without error is about to be signalled, waits in the channel, found it full or has
      arrived. */
  ghost predicate KeptTrack(s: Sys, dropped: multiset<Msg>) {
    forall m :: m in s.processed <==> m in s.finished || m in s.completed || m in s.signalled || m in dropped
  }

  lemma WithoutKeeps(ms: seq<Msg>, i: nat, m: Msg)
    requires i < |ms|
    ensures m in ms <==> m == ms[i] || m in Without(ms, i)
  {
    assert ms == ms[..i] + ([ms[i]] + ms[i + 1..]);
  }

  lemma StepKeepsTrack(s: Sys, a: Action, dropped: multiset<Msg>)
    requires KeptTrack(s, dropped) && Enabled(s, a)
    ensures KeptTrack(Step(s, a), dropped + Dropping(s, a))
  {
    hide Without, Received, Flushed, Highest, PartOf;
    var s' := Step(s, a);
    forall m
      ensures m in s'.processed <==>
              m in s'.finished || m in s'.completed || m in s'.signalled || m in dropped + Dropping(s, a)
    {
      assert m in s.processed <==> m in s.finished || m in s.completed || m in s.signalled || m in dropped;
      match a
      case Signal(i) => WithoutKeeps(s.finished, i, m);
      case Receive => assert s.completed == [s.completed[0]] + s.completed[1..];
      case _ =>
    }
  }

  lemma {:induction false} RunKeepsTrack(s: Sys, run: seq<Action>, dropped: multiset<Msg>)
    requires KeptTrack(s, dropped) && Possible(s, run)
    ensures KeptTrack(After(s, run), dropped + Dropped(s, run))
    decreases |run|
  {
    hide Step, Enabled, Dropping, KeptTrack;
    if run == [] {
      assert dropped + multiset{} == dropped;
    } else {
      StepKeepsTrack(s, run[0], dropped);
      RunKeepsTrack(Step(s, run[0]), run[1..], dropped + Dropping(s, run[0]));
      assert dropped + (Dropping(s, run[0]) + Dropped(Step(s, run[0]), run[1..]))
          == dropped + Dropping(s, run[0]) + Dropped(Step(s, run[0]), run[1..]);
    }
  }

  /** In a run in which no signal finds the channel full, once the signals have arrived a flush commits the longest
      stretch from zero of everything that was processed. */
  lemma FlushReachesProcessed(run: seq<Action>, p: Partition)
    requires Possible(START, run) && Dropped(START, run) == multiset{}
    requires After(START, run).finished == [] && After(START, run).completed == []
    ensures var s := After(START, run);
            s.signalled == s.processed && Flushed(p, PartOf(s, p), true).committed == Prefix(p, s.processed)
  {
    RunKeepsTrack(START, run, multiset{});
    FlushReachesPrefix(run, p);
    var s := After(START, run);
    assert s.signalled == s.processed by {
      assert multiset{} + Dropped(START, run) == multiset{};
    }
  }

  /** And if no worker fails either, of everything that was fetched. */
  lemma FlushReachesFetched(run: seq<Action>, p: Partition)
    requires Possible(START, run) && Dropped(START, run) == multiset{} && Failed(START, run) == multiset{}
    requires OnTheWay(After(START, run)) == multiset{}
    ensures var s := After(START, run);
            && (forall m :: m in s.signalled <==> m in Fetched(run))
            && Flushed(p, PartOf(s, p), true).committed == Prefix(p, s.signalled)
  {
    AllAccounted(run);
    FlushReachesPrefix(run, p);
  }

  function Left(s: Sys): nat { 4 * |s.tasks| + 3 * |s.working| + 2 * |s.finished| + |s.completed| }

  /** From every state everything on its way can arrive, without a failure and without a drop. */
  lemma {:induction false} AllCanArrive(s: Sys) returns (run: seq<Action>)
    ensures Possible(s, run) && OnTheWay(After(s, run)) == multiset{}
    ensures Fetched(run) == Failed(s, run) == Dropped(s, run) == multiset{}
    decreases Left(s)
  {
    if Left(s) == 0 {
      run := [];
    } else {
      var a := if s.completed != [] then Receive else if s.finished != [] then Signal(0)
               else if s.working != [] then Process(0, true) else Take;
      Lessens(s, a);
      var rest := AllCanArrive(Step(s, a));
      run := [a] + rest;
      assert run[1..] == rest;
    }
  }

  lemma Lessens(s: Sys, a: Action)
    requires Left(s) > 0
    requires a == if s.completed != [] then Receive else if s.finished != [] then Signal(0)
                  else if s.working != [] then Process(0, true) else Take
    ensures Enabled(s, a) && Left(Step(s, a)) < Left(s)
    ensures Entering(a) == Failing(s, a) == Dropping(s, a) == multiset{}
  {
  }

  lemma {:induction false} RunsConcat(s: Sys, a: seq<Action>, b: seq<Action>)
    requires Possible(s, a) && Possible(After(s, a), b)
    ensures Possible(s, a + b) && After(s, a + b) == After(After(s, a), b)
    ensures Failed(s, a + b) == Failed(s, a) + Failed(After(s, a), b)
    ensures Dropped(s, a + b) == Dropped(s, a) + Dropped(After(s, a), b)
    ensures Fetched(a + b) == Fetched(a) + Fetched(b)
    decreases |a|
  {
    hide Step, Enabled, Failing, Dropping, Entering;
    if a == [] {
      assert a + b == b;
    } else {
      assert (a + b)[0] == a[0] && (a + b)[1..] == a[1..] + b;
      RunsConcat(Step(s, a[0]), a[1..], b);
    }
  }

  /** So after any run without a failure or a drop the offsets of everything fetched can be committed, as far as they
      reach from zero without a gap. */
  lemma AllCanCommit(run: seq<Action>, p: Partition) returns (rest: seq<Action>)
    requires Possible(START, run) && Dropped(START, run) == multiset{} && Failed(START, run) == multiset{}
    ensures Possible(START, run + rest) && Fetched(run + rest) == Fetched(run)
    ensures var s := After(START, run + rest);
            && (forall m :: m in s.signalled <==> m in Fetched(run))
            && PartOf(s, p).committed == Prefix(p, s.signalled)
            && (Msg(p, 0) in Fetched(run) ==> Msg(p, Prefix(p, s.signalled)) in s.acks)
  {
    hide Step, Enabled, StretchEnd, OnTheWay, Flushed, Failed, Dropped, Fetched;
    var arrive := AllCanArrive(After(START, run));
    RunsConcat(START, run, arrive);
    var all := run + arrive;
    assert Fetched(run) + multiset{} == Fetched(run);
    assert Failed(START, run) + multiset{} == multiset{} && Dropped(START, run) + multiset{} == multiset{};
    rest := CommitAll(all, arrive, run, p);
  }

  lemma CommitAll(all: seq<Action>, arrive: seq<Action>, run: seq<Action>, p: Partition) returns (rest: seq<Action>)
    requires all == run + arrive && Possible(START, all) && OnTheWay(After(START, all)) == multiset{}
    requires Dropped(START, all) == multiset{} && Failed(START, all) == multiset{}
    ensures Possible(START, run + rest) && Fetched(run + rest) == Fetched(all)
    ensures var s := After(START, run + rest);
            && (forall m :: m in s.signalled <==> m in Fetched(all))
            && PartOf(s, p).committed == Prefix(p, s.signalled)
            && (Msg(p, 0) in Fetched(all) ==> Msg(p, Prefix(p, s.signalled)) in s.acks)
  {
    FlushReachesFetched(all, p);
    StretchFacts(p, 0, After(START, all).signalled);
    hide Step, Enabled, StretchEnd, OnTheWay, Flushed, Failed, Dropped, Fetched;
    if p in After(START, all).parts {
      FlushLast(all, p);
      rest := arrive + [Flush(p, true)];
      Regrouped(run, arrive, [Flush(p, true)]);
    } else {
      rest := arrive;
      NothingPending(p);
    }
    CommittedIsAcked(run + rest, p);
  }

  lemma Regrouped(a: seq<Action>, b: seq<Action>, c: seq<Action>)
    ensures a + (b + c) == a + b + c
  {
  }

  lemma FlushLast(run: seq<Action>, p: Partition)
    requires Possible(START, run) && p in After(START, run).parts
    ensures var last := run + [Flush(p, true)];
            && Possible(START, last) && Fetched(last) == Fetched(run)
            && After(START, last).signalled == After(START, run).signalled
            && PartOf(After(START, last), p) == Flushed(p, PartOf(After(START, run), p), true)
  {
    var s := After(START, run);
    assert [Flush(p, true)][1..] == [];
    assert Possible(s, [Flush(p, true)]);
    RunsConcat(START, run, [Flush(p, true)]);
  }

  lemma NothingPending(p: Partition)
    ensures Flushed(p, FRESH, true) == FRESH
  {
  }

  lemma FirstStep(s: Sys, a: Action, rest: seq<Action>)
    requires Enabled(s, a) && Possible(Step(s, a), rest)
    ensures Possible(s, [a] + rest) && After(s, [a] + rest) == After(Step(s, a), rest)
  {
    assert ([a] + rest)[1..] == rest;
  }

  /** A worker finishes, its signal arrives, and the partition is flushed. */
  function Through(p: Partition, i: nat): seq<Action> {
    [Process(i, true)] + ([Signal(0)] + ([Receive] + ([Flush(p, true)] + [])))
  }

  lemma ThroughSteps(s: Sys, p: Partition, i: nat)
    requires i < |s.working| && s.finished == s.completed == [] && s.working[i].partition == p
    ensures Possible(s, Through(p, i))
    ensures var po, t := Received(PartOf(s, p), s.working[i]), After(s, Through(p, i));
            && t.working == Without(s.working, i) && t.finished == t.completed == []
            && PartOf(t, p) == Flushed(p, po, true)
            && t.acks == if Highest(p, po) > po.committed then s.acks + [Msg(p, Highest(p, po))] else s.acks
  {
    hide Highest, Flushed;
    var s1 := Step(s, Process(i, true));
    var s2 := Step(s1, Signal(0));
    var s3 := Step(s2, Receive);
    FirstStep(s3, Flush(p, true), []);
    FirstStep(s2, Receive, [Flush(p, true)] + []);
    FirstStep(s1, Signal(0), [Receive] + ([Flush(p, true)] + []));
    FirstStep(s, Process(i, true), [Signal(0)] + ([Receive] + ([Flush(p, true)] + [])));
  }

  /** Two workers take one message each, and the one with the later message is done first. */
  function Overtaking(p: Partition): seq<Action> {
    [Fetch(Msg(p, 0))] + ([Fetch(Msg(p, 1))] + ([Take] + ([Take] + Through(p, 1))))
  }

  lemma TakenBoth(p: Partition, s: Sys)
    requires s == START.(working := [Msg(p, 0), Msg(p, 1)]) && Possible(s, Through(p, 1))
    ensures Possible(START, Overtaking(p)) && After(START, Overtaking(p)) == After(s, Through(p, 1))
  {
    hide Through;
    var s1 := Step(START, Fetch(Msg(p, 0)));
    var s2 := Step(s1, Fetch(Msg(p, 1)));
    assert s2.tasks == [Msg(p, 0), Msg(p, 1)];
    var s3 := Step(s2, Take);
    assert s3.tasks == [Msg(p, 1)];
    assert Step(s3, Take) == s;
    FirstStep(s3, Take, Through(p, 1));
    FirstStep(s2, Take, [Take] + Through(p, 1));
    FirstStep(s1, Fetch(Msg(p, 1)), [Take] + ([Take] + Through(p, 1)));
    FirstStep(START, Fetch(Msg(p, 0)), [Fetch(Msg(p, 1))] + ([Take] + ([Take] + Through(p, 1))));
  }

  /** The later message may be signalled first. Its offset stays uncommitted until the earlier one has arrived. */
  lemma LaterFirst(p: Partition)
    ensures Possible(START, Overtaking(p))
    ensures var s := After(START, Overtaking(p));
            && s.acks == [] && Msg(p, 1) in PartOf(s, p).pending
            && Possible(s, Through(p, 0)) && After(s, Through(p, 0)).acks == [Msg(p, 1)]
  {
    hide Highest, Flushed, Through, Step;
    var s := START.(working := [Msg(p, 0), Msg(p, 1)]);
    ThroughSteps(s, p, 1);
    TakenBoth(p, s);
    var t := After(s, Through(p, 1));
    GapAtZero(p);
    assert t.working == [Msg(p, 0)];
    ThroughSteps(t, p, 0);
  }

  lemma GapAtZero(p: Partition)
    ensures var gap := Received(FRESH, Msg(p, 1));
            && Highest(p, gap) == -1 && Flushed(p, gap, true) == gap
            && Highest(p, Received(gap, Msg(p, 0))) == 1
  {
    var gap := Received(FRESH, Msg(p, 1));
    var both := Received(gap, Msg(p, 0)).pending;
    StretchUnique(p, 0, gap.pending, -1);
    assert Msg(p, 0) in both && Msg(p, 1) in both && Msg(p, 2) !in both;
    StretchUnique(p, 0, both, 1);
  }
}
