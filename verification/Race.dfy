/** The filter shared by several workers (internal/kafka/deduper.go:28-35): its check is a Get and a Set, and other
    workers may come in between. */
module Race {
  import opened Options
  import opened Klines

  datatype Id = Id(n: int)

  /** The remembered ids, what each worker is about to record, and the trades handed on. */
  datatype Pool = Pool(store: set<Id>, busy: seq<Option<Trade>>, handed: seq<Trade>)

  datatype Action =
    | Get(w: nat, t: Trade)   // an idle worker takes a message; if the id is remembered it is done with it
    | Set(w: nat, t: Trade)   // otherwise it records the id and hands the trade on
    | Expire(id: Id)

  function Start(workers: nat): Pool { Pool({}, seq(workers, _ => None), []) }

  predicate Enabled(s: Pool, a: Action) {
    match a
    case Get(w, _) => w < |s.busy| && s.busy[w] == None
    case Set(w, t) => w < |s.busy| && s.busy[w] == Some(t)
    case Expire(_) => true
  }

  function Step(s: Pool, a: Action): Pool
    requires Enabled(s, a)
  {
    match a
    case Get(w, t) => if Id(t.id) in s.store then s else s.(busy := s.busy[w := Some(t)])
    case Set(w, t) => s.(store := s.store + {Id(t.id)}, busy := s.busy[w := None], handed := s.handed + [t])
    case Expire(id) => s.(store := s.store - {id})
  }

  predicate Possible(s: Pool, run: seq<Action>)
    decreases |run|
  {
    run == [] || (Enabled(s, run[0]) && Possible(Step(s, run[0]), run[1..]))
  }

  function After(s: Pool, run: seq<Action>): Pool
    requires Possible(s, run)
    decreases |run|
  {
    if run == [] then s else After(Step(s, run[0]), run[1..])
  }

  // ---------------------------------------------------------------- counting

  function One(t: Trade, n: int): nat { if t.id == n then 1 else 0 }

  function Busy(x: Option<Trade>, n: int): nat {
    match x
    case Some(t) => One(t, n)
    case None => 0
  }

  /** How many workers are about to hand on a trade with this id. */
  function Pending(busy: seq<Option<Trade>>, n: int): nat {
    if busy == [] then 0 else Busy(busy[0], n) + Pending(busy[1..], n)
  }

  /** How many times an id has been handed on. */
  function Times(handed: seq<Trade>, n: int): nat {
    if handed == [] then 0 else One(handed[0], n) + Times(handed[1..], n)
  }

  lemma {:induction false} PendingUpdate(busy: seq<Option<Trade>>, w: nat, x: Option<Trade>, n: int)
    requires w < |busy|
    ensures Pending(busy[w := x], n) + Busy(busy[w], n) == Pending(busy, n) + Busy(x, n)
  {
    if w == 0 {
      assert busy[w := x][1..] == busy[1..];
    } else {
      assert busy[w := x][1..] == busy[1..][w - 1 := x];
      PendingUpdate(busy[1..], w - 1, x, n);
    }
  }

  lemma {:induction false} PendingBound(busy: seq<Option<Trade>>, n: int)
    ensures Pending(busy, n) <= |busy|
  {
    if busy != [] {
      PendingBound(busy[1..], n);
    }
  }

  lemma {:induction false} NonePending(busy: seq<Option<Trade>>, n: int)
    requires forall w :: 0 <= w < |busy| ==> busy[w] == None
    ensures Pending(busy, n) == 0
  {
    if busy != [] {
      NonePending(busy[1..], n);
    }
  }

  lemma {:induction false} TimesSnoc(handed: seq<Trade>, t: Trade, n: int)
    ensures Times(handed + [t], n) == Times(handed, n) + One(t, n)
  {
    if handed == [] {
      assert handed + [t] == [t] && [t][1..] == [];
    } else {
      assert (handed + [t])[1..] == handed[1..] + [t];
      TimesSnoc(handed[1..], t, n);
    }
  }

  function Passes(s: Pool, n: int): nat { Times(s.handed, n) + Pending(s.busy, n) }

  predicate Gets(a: Action, n: int) { a.Get? && a.t.id == n }

  predicate Sets(a: Action, n: int) { a.Set? && a.t.id == n }

  /** The checks for an id before it is recorded for the first time. */
  function GetsBeforeSet(run: seq<Action>, n: int): nat {
    if run == [] || Sets(run[0], n) then 0
    else (if Gets(run[0], n) then 1 else 0) + GetsBeforeSet(run[1..], n)
  }

  ghost predicate NoExpiry(run: seq<Action>, n: int) {
    forall i :: 0 <= i < |run| ==> run[i] != Expire(Id(n))
  }

  // ---------------------------------------------------------------- what is handed on

  lemma StepPasses(s: Pool, a: Action, n: int)
    requires Enabled(s, a)
    ensures Passes(Step(s, a), n) == Passes(s, n) + if Gets(a, n) && Id(n) !in s.store then 1 else 0
    ensures a != Expire(Id(n)) ==> (Id(n) in Step(s, a).store <==> Id(n) in s.store || Sets(a, n))
  {
    match a
    case Get(w, t) => PendingUpdate(s.busy, w, Some(t), n);
    case Set(w, t) =>
      PendingUpdate(s.busy, w, None, n);
      TimesSnoc(s.handed, t, n);
    case Expire(_) =>
  }

  lemma {:induction false} PassesAfter(s: Pool, run: seq<Action>, n: int)
    requires Possible(s, run) && NoExpiry(run, n)
    ensures Passes(After(s, run), n) == Passes(s, n) + if Id(n) in s.store then 0 else GetsBeforeSet(run, n)
    decreases |run|
  {
    hide Step, Enabled, Passes, Gets, Sets;
    if run != [] {
      assert run[0] != Expire(Id(n));
      StepPasses(s, run[0], n);
      PassesAfter(Step(s, run[0]), run[1..], n);
      NotBoth(run[0], n);
    }
  }

  lemma NotBoth(a: Action, n: int)
    ensures !(Gets(a, n) && Sets(a, n))
  {
  }

  lemma StartPasses(workers: nat, n: int)
    ensures Passes(Start(workers), n) == 0
  {
    NonePending(Start(workers).busy, n);
  }

  ghost predicate Reached(workers: nat, run: seq<Action>, s: Pool) {
    Possible(Start(workers), run) && s == After(Start(workers), run)
  }

  ghost predicate Idle(s: Pool) { forall w :: 0 <= w < |s.busy| ==> s.busy[w] == None }

  /** A second check of the id comes before its first recording. */
  ghost predicate SecondGetFirst(run: seq<Action>, n: int) {
    exists i, j :: 0 <= i < j < |run| && Gets(run[i], n) && Gets(run[j], n) && NotSetBefore(run, j, n)
  }

  ghost predicate NotSetBefore(run: seq<Action>, j: nat, n: int)
    requires j <= |run|
  {
    forall l :: 0 <= l < j ==> !Sets(run[l], n)
  }

  ghost predicate GetFirst(run: seq<Action>, n: int) {
    exists j :: 0 <= j < |run| && Gets(run[j], n) && NotSetBefore(run, j, n)
  }

  lemma {:induction false} GetFirstExactly(run: seq<Action>, n: int)
    ensures GetFirst(run, n) <==> GetsBeforeSet(run, n) >= 1
  {
    hide Gets, Sets;
    if run != [] {
      var rest := run[1..];
      GetFirstExactly(rest, n);
      assert forall l :: 0 < l < |run| ==> run[l] == rest[l - 1];
      NotBoth(run[0], n);
      if GetFirst(run, n) {
        var j :| 0 <= j < |run| && Gets(run[j], n) && NotSetBefore(run, j, n);
        if j > 0 {
          assert Gets(rest[j - 1], n);
        }
      }
      if !Sets(run[0], n) && GetFirst(rest, n) {
        var j :| 0 <= j < |rest| && Gets(rest[j], n) && NotSetBefore(rest, j, n);
        assert Gets(run[j + 1], n);
      }
    }
  }

  lemma {:induction false} SecondExactly(run: seq<Action>, n: int)
    ensures SecondGetFirst(run, n) <==> GetsBeforeSet(run, n) >= 2
  {
    hide Gets, Sets, SecondGetFirst, GetFirst;
    if run == [] {
      NoSecond(run, n);
    } else {
      SecondExactly(run[1..], n);
      GetFirstExactly(run[1..], n);
      NotBoth(run[0], n);
      SecondLater(run, n);
      if !Sets(run[0], n) {
        SecondEarlier(run, n);
      }
    }
  }

  lemma NoSecond(run: seq<Action>, n: int)
    requires |run| < 2
    ensures !SecondGetFirst(run, n)
  {
  }

  /** A second check is one in the rest, or the first action is a check and the rest has one. */
  lemma SecondLater(run: seq<Action>, n: int)
    requires run != []
    ensures SecondGetFirst(run, n) ==>
              !Sets(run[0], n) && (SecondGetFirst(run[1..], n) || (Gets(run[0], n) && GetFirst(run[1..], n)))
  {
    hide Gets, Sets;
    var rest := run[1..];
    if SecondGetFirst(run, n) {
      var i, j :| 0 <= i < j < |run| && Gets(run[i], n) && Gets(run[j], n) && NotSetBefore(run, j, n);
      assert Gets(rest[j - 1], n) && NotSetBefore(rest, j - 1, n);
      if i > 0 {
        assert Gets(rest[i - 1], n);
      }
    }
  }

  lemma SecondEarlier(run: seq<Action>, n: int)
    requires run != [] && !Sets(run[0], n)
    ensures SecondGetFirst(run[1..], n) || (Gets(run[0], n) && GetFirst(run[1..], n)) ==> SecondGetFirst(run, n)
  {
    hide Gets, Sets;
    var rest := run[1..];
    assert forall l :: 0 < l < |run| ==> run[l] == rest[l - 1];
    if SecondGetFirst(rest, n) {
      var i, j :| 0 <= i < j < |rest| && Gets(rest[i], n) && Gets(rest[j], n) && NotSetBefore(rest, j, n);
      assert Gets(run[i + 1], n) && Gets(run[j + 1], n) && NotSetBefore(run, j + 1, n);
    } else if Gets(run[0], n) && GetFirst(rest, n) {
      var j :| 0 <= j < |rest| && Gets(rest[j], n) && NotSetBefore(rest, j, n);
      assert Gets(run[j + 1], n) && NotSetBefore(run, j + 1, n);
    }
  }

  /** For every run in which the id does not expire: as many workers hand it on, or are about to, as checked it before
      it was first recorded; so it is handed on twice exactly when a second Get precedes the first Set. */
  lemma TwiceExactly(workers: nat, run: seq<Action>, s: Pool, n: int)
    requires Reached(workers, run, s) && NoExpiry(run, n)
    ensures Times(s.handed, n) + Pending(s.busy, n) == GetsBeforeSet(run, n)
    ensures Idle(s) ==> (Times(s.handed, n) >= 2 <==> SecondGetFirst(run, n))
  {
    StartPasses(workers, n);
    PassesAfter(Start(workers), run, n);
    SecondExactly(run, n);
    if Idle(s) {
      NonePending(s.busy, n);
    }
  }

  // ---------------------------------------------------------------- with expiry

  /** The id was recorded and has not expired since. */
  ghost predicate Remembered(run: seq<Action>, n: int) {
    exists j :: 0 <= j < |run| && Sets(run[j], n) && NotExpired(run, j, n)
  }

  ghost predicate NotExpired(run: seq<Action>, j: nat, n: int) {
    forall l :: j < l < |run| ==> run[l] != Expire(Id(n))
  }

  lemma RememberedFrom(run: seq<Action>, n: int)
    requires run != []
    ensures Remembered(run, n) <==> Remembered(run[1..], n) || (Sets(run[0], n) && NoExpiry(run[1..], n))
  {
    hide Sets;
    var rest := run[1..];
    assert forall l :: 0 < l < |run| ==> run[l] == rest[l - 1];
    if Remembered(run, n) {
      var j :| 0 <= j < |run| && Sets(run[j], n) && NotExpired(run, j, n);
      if j > 0 {
        assert Sets(rest[j - 1], n) && NotExpired(rest, j - 1, n);
      }
    }
    if Remembered(rest, n) {
      var j :| 0 <= j < |rest| && Sets(rest[j], n) && NotExpired(rest, j, n);
      assert Sets(run[j + 1], n) && NotExpired(run, j + 1, n);
    } else if Sets(run[0], n) && NoExpiry(rest, n) {
      assert NotExpired(run, 0, n);
    }
  }

  lemma {:induction false} StoreAfter(s: Pool, run: seq<Action>, n: int)
    requires Possible(s, run)
    ensures Id(n) in After(s, run).store <==> Remembered(run, n) || (Id(n) in s.store && NoExpiry(run, n))
    decreases |run|
  {
    hide Sets, Remembered;
    if run == [] {
      assert !Remembered(run, n) by {
        NothingRemembered(n);
      }
    } else {
      StepStore(s, run[0], n);
      StoreAfter(Step(s, run[0]), run[1..], n);
      RememberedFrom(run, n);
      NoExpiryFrom(run, n);
    }
  }

  lemma NothingRemembered(n: int)
    ensures !Remembered([], n)
  {
  }

  lemma NoExpiryFrom(run: seq<Action>, n: int)
    requires run != []
    ensures NoExpiry(run, n) <==> run[0] != Expire(Id(n)) && NoExpiry(run[1..], n)
  {
    assert forall l :: 0 < l < |run| ==> run[l] == run[1..][l - 1];
  }

  lemma StepStore(s: Pool, a: Action, n: int)
    requires Enabled(s, a)
    ensures Id(n) in Step(s, a).store <==> Sets(a, n) || (Id(n) in s.store && a != Expire(Id(n)))
  {
  }

  /** In every run, with whatever expires: a worker that looks an id up goes on to hand its trade on exactly when the id
      has not been recorded yet, or has expired since. */
  lemma PassExactly(workers: nat, run: seq<Action>, s: Pool, a: Action, n: int)
    requires Reached(workers, run, s) && Enabled(s, a)
    ensures var s' := Step(s, a);
            Times(s'.handed, n) + Pending(s'.busy, n) ==
            Times(s.handed, n) + Pending(s.busy, n) + if Gets(a, n) && !Remembered(run, n) then 1 else 0
  {
    StoreAfter(Start(workers), run, n);
    StepPasses(s, a, n);
  }

  function Recorded(run: seq<Action>): seq<Trade> {
    if run == [] then [] else (if run[0].Set? then [run[0].t] else []) + Recorded(run[1..])
  }

  lemma {:induction false} HandedAfter(s: Pool, run: seq<Action>)
    requires Possible(s, run)
    ensures After(s, run).handed == s.handed + Recorded(run)
    decreases |run|
  {
    if run == [] {
      assert s.handed + [] == s.handed;
    } else {
      HandedAfter(Step(s, run[0]), run[1..]);
      HandedStep(s, run[0], Recorded(run[1..]));
    }
  }

  lemma HandedStep(s: Pool, a: Action, rest: seq<Trade>)
    requires Enabled(s, a)
    ensures Step(s, a).handed + rest == s.handed + ((if a.Set? then [a.t] else []) + rest)
  {
  }

  /** The trades are handed on in the order in which their ids are recorded. */
  lemma HandedInOrder(workers: nat, run: seq<Action>, s: Pool)
    requires Reached(workers, run, s)
    ensures s.handed == Recorded(run)
  {
    HandedAfter(Start(workers), run);
    assert Start(workers).handed + Recorded(run) == Recorded(run);
  }

  // ---------------------------------------------------------------- how often at most

  /** Until the id is recorded, every worker that passed it still holds it. */
  predicate Bounded(s: Pool, n: int) { Id(n) !in s.store ==> Times(s.handed, n) == 0 }

  lemma StepBounded(s: Pool, a: Action, n: int)
    requires Enabled(s, a) && Bounded(s, n) && Passes(s, n) <= |s.busy| && a != Expire(Id(n))
    ensures var s' := Step(s, a); Bounded(s', n) && |s'.busy| == |s.busy| && Passes(s', n) <= |s'.busy|
  {
    StepPasses(s, a, n);
    PendingBound(Step(s, a).busy, n);
    if a.Set? {
      TimesSnoc(s.handed, a.t, n);
    }
  }

  lemma {:induction false} RunBounded(s: Pool, run: seq<Action>, n: int)
    requires Possible(s, run) && NoExpiry(run, n) && Bounded(s, n) && Passes(s, n) <= |s.busy|
    ensures Passes(After(s, run), n) <= |s.busy|
    decreases |run|
  {
    hide Step, Enabled, Passes, Bounded;
    if run != [] {
      assert run[0] != Expire(Id(n));
      StepBounded(s, run[0], n);
      RunBounded(Step(s, run[0]), run[1..], n);
    }
  }

  /** Without expiry an id is handed on at most once per worker, so one worker alone never repeats a trade. */
  lemma OncePerWorker(workers: nat, run: seq<Action>, s: Pool, n: int)
    requires Reached(workers, run, s) && NoExpiry(run, n)
    ensures Times(s.handed, n) <= workers
  {
    StartPasses(workers, n);
    RunBounded(Start(workers), run, n);
  }

  /** Two workers do hand on one redelivered trade. */
  lemma BothHandOn(t: Trade)
    ensures var run := [Get(0, t), Get(1, t), Set(0, t), Set(1, t)];
            Possible(Start(2), run) && After(Start(2), run).handed == [t, t] && NoExpiry(run, t.id)
  {
    var s0 := Start(2);
    var s1 := Step(s0, Get(0, t));
    var s2 := Step(s1, Get(1, t));
    var s3 := Step(s2, Set(0, t));
    var s4 := Step(s3, Set(1, t));
    RunOne(s3, Set(1, t), []);
    RunOne(s2, Set(0, t), [Set(1, t)]);
    RunOne(s1, Get(1, t), [Set(0, t), Set(1, t)]);
    RunOne(s0, Get(0, t), [Get(1, t), Set(0, t), Set(1, t)]);
  }

  lemma RunOne(s: Pool, a: Action, rest: seq<Action>)
    requires Enabled(s, a) && Possible(Step(s, a), rest)
    ensures Possible(s, [a] + rest) && After(s, [a] + rest) == After(Step(s, a), rest)
  {
    assert ([a] + rest)[1..] == rest;
  }
}
