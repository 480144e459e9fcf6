/** recoverLocked as it locks (internal/kline/aggregator.go): the loaders take the bucket lock
    that their caller holds while it waits for them. */
module Recovery {
  import opened Intervals
  import opened Buckets

  datatype Caller = Waiting | Updating | Returned

  /** The caller holds the bucket lock until it returns. A loader asks the table, and if a row is found
      it wants the lock to store the row; else, also after an error, it is done. */
  datatype State = State(asking: set<Interval>, locking: set<Interval>, caller: Caller, data: Buckets)

  const CALLED := State(ALL, {}, Waiting, map[])

  datatype Action = Answer(iv: Interval) | Store(iv: Interval) | Proceed | Return

  predicate Held(s: State) { s.caller != Returned }

  /** `rows` is what the loads of the seven windows find; one that fails finds nothing. */
  predicate Enabled(rows: Buckets, s: State, a: Action) {
    match a
    case Answer(iv) => iv in s.asking
    case Store(iv) => iv in s.locking && !Held(s) && iv in rows
    case Proceed => s.caller == Waiting && s.asking == {} && s.locking == {}
    case Return => s.caller == Updating
  }

  function Step(rows: Buckets, s: State, a: Action): State
    requires Enabled(rows, s, a)
  {
    match a
    case Answer(iv) => s.(asking := s.asking - {iv}, locking := if iv in rows then s.locking + {iv} else s.locking)
    case Store(iv) => s.(locking := s.locking - {iv}, data := s.data[iv := rows[iv]])
    case Proceed => s.(caller := Updating)
    case Return => s.(caller := Returned)
  }

  predicate Possible(rows: Buckets, s: State, run: seq<Action>)
    decreases |run|
  {
    run == [] || (Enabled(rows, s, run[0]) && Possible(rows, Step(rows, s, run[0]), run[1..]))
  }

  function After(rows: Buckets, s: State, run: seq<Action>): State
    requires Possible(rows, s, run)
    decreases |run|
  {
    if run == [] then s else After(rows, Step(rows, s, run[0]), run[1..])
  }

  /** Who has found a row waits for the lock; the caller moves on only when nobody is left. */
  ghost predicate Inv(rows: Buckets, s: State) {
    && s.data == map[]
    && (forall iv :: iv in rows ==> iv in s.asking || iv in s.locking)
    && (forall iv :: iv in s.locking ==> iv in rows)
    && (s.caller != Waiting ==> s.asking == {} && s.locking == {})
  }

  /** What is still to be done. */
  function Left(s: State): nat {
    |s.asking| + match s.caller case Waiting => 2 case Updating => 1 case Returned => 0
  }

  lemma StepInv(rows: Buckets, s: State, a: Action)
    requires Inv(rows, s) && Enabled(rows, s, a)
    ensures Inv(rows, Step(rows, s, a)) && Left(Step(rows, s, a)) < Left(s)
  {
    if a.Answer? {
      assert s.asking == (s.asking - {a.iv}) + {a.iv};
    }
  }

  lemma {:induction false} RunInv(rows: Buckets, s: State, run: seq<Action>)
    requires Inv(rows, s) && Possible(rows, s, run)
    ensures Inv(rows, After(rows, s, run)) && |run| + Left(After(rows, s, run)) <= Left(s)
    decreases |run|
  {
    if run != [] {
      StepInv(rows, s, run[0]);
      RunInv(rows, Step(rows, s, run[0]), run[1..]);
    }
  }

  lemma CalledInv(rows: Buckets)
    ensures Inv(rows, CALLED) && Left(CALLED) == 9
  {
    forall iv: Interval
      ensures iv in ALL
    {
      NthRank(0);
      assert Nth(Rank(iv)) == iv;
    }
  }

  /** No step is possible any more. */
  ghost predicate Stuck(rows: Buckets, s: State) { forall a :: !Enabled(rows, s, a) }

  lemma StuckState(rows: Buckets, s: State)
    requires Inv(rows, s) && Stuck(rows, s)
    ensures s.asking == {} && s.caller != Updating && (s.caller == Returned <==> rows == map[])
  {
    if iv :| iv in s.asking {
      assert Enabled(rows, s, Answer(iv));
    }
    assert !Enabled(rows, s, Return) && !Enabled(rows, s, Proceed);
    if rows == map[] {
      assert forall iv :: iv !in s.locking;
    } else {
      var iv :| iv in rows;
      assert iv in s.asking || iv in s.locking;
    }
  }

  /** Every run of the recovery comes to an end after at most nine steps, and then the caller has returned
      exactly when no stored row was found. When one is found, the loader that found it and its caller
      wait for each other for ever, and nothing has been loaded. */
  lemma ReturnsExactly(rows: Buckets, run: seq<Action>)
    requires Possible(rows, CALLED, run)
    ensures var s := After(rows, CALLED, run);
            && |run| <= 9
            && s.data == map[]
            && (rows != map[] ==> s.caller == Waiting)
            && (Stuck(rows, s) ==> (s.caller == Returned <==> rows == map[]))
            && (|run| == 9 ==> Stuck(rows, s))
  {
    CalledInv(rows);
    RunInv(rows, CALLED, run);
    var s := After(rows, CALLED, run);
    if rows != map[] {
      var iv :| iv in rows;
      assert iv in s.asking || iv in s.locking;
    }
    if Stuck(rows, s) {
      StuckState(rows, s);
    }
    forall a
      ensures Enabled(rows, s, a) ==> Left(s) > 0
    {
      if Enabled(rows, s, a) {
        StepInv(rows, s, a);
      }
    }
  }
}
