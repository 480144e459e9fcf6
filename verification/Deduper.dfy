/** Redelivered messages (internal/kafka/deduper.go, and process in consumer.go): one worker with the filter
    hands on first deliveries only. */
module Deduper {
  import opened Klines
  import opened Buckets
  import opened Runs

  /** What happens to the filter, in order: a message is processed, or an entry's time to live runs out. */
  datatype Event = Deliver(t: Trade) | Expire(id: int)

  function SeenAfter(seen: set<int>, e: Event): set<int> {
    match e
    case Deliver(t) => seen + {t.id}
    case Expire(id) => seen - {id}
  }

  function Passes(seen: set<int>, e: Event): bool { e.Deliver? && e.t.id !in seen }

  function PassedOn(seen: set<int>, e: Event): seq<Trade> { if Passes(seen, e) then [e.t] else [] }

  /** The trades handed on. */
  function Handed(seen: set<int>, es: seq<Event>): seq<Trade>
    decreases |es|
  {
    if es == [] then []
    else PassedOn(seen, es[0]) + Handed(SeenAfter(seen, es[0]), es[1..])
  }

  /** The state of the filter when event `i` comes. */
  function SeenAt(seen: set<int>, es: seq<Event>, i: nat): set<int>
    requires i <= |es|
    decreases |es|
  {
    if i == 0 then seen else SeenAt(SeenAfter(seen, es[0]), es[1..], i - 1)
  }

  class Filter {
    var store: set<int>

    constructor ()
      ensures store == {}
    {
      store := {};
    }

    /** Seen: checks and records. */
    method Seen(id: int) returns (found: bool)
      modifies this
      ensures found == (id in old(store)) && store == old(store) + {id}
    {
      if id in store {
        assert store + {id} == store;
        return true;
      }
      store := store + {id};
      found := false;
    }

    method Drop(id: int)
      modifies this
      ensures store == old(store) - {id}
    {
      store := store - {id};
    }

    /** One worker's loop over what it is given. */
    method Work(es: seq<Event>) returns (handed: seq<Trade>)
      modifies this
      ensures handed == Handed(old(store), es)
    {
      handed := [];
      var rest := es;
      assert [] + Handed(store, rest) == Handed(store, es);
      while |rest| > 0
        invariant handed + Handed(store, rest) == Handed(old(store), es)
      {
        var e := rest[0];
        ghost var before := store;
        ghost var more := Handed(SeenAfter(store, e), rest[1..]);
        match e {
          case Deliver(t) =>
            var found := Seen(t.id);
            if !found {
              assert handed + ([t] + more) == (handed + [t]) + more;
              handed := handed + [t];
            } else {
              assert [] + more == more;
            }
          case Expire(id) =>
            Drop(id);
            assert [] + more == more;
        }
        assert store == SeenAfter(before, e);
        rest := rest[1..];
      }
      assert rest == [] && handed + [] == handed;
    }
  }

  /** The entry of an id is alive before event `i`: a delivery of it came, and no expiry since. */
  ghost predicate Alive(es: seq<Event>, id: int, i: nat)
    requires i <= |es|
  {
    exists j :: 0 <= j < i && es[j].Deliver? && es[j].t.id == id && forall l :: j < l < i ==> es[l] != Expire(id)
  }

  ghost predicate NoExpiry(es: seq<Event>, id: int, i: nat)
    requires i <= |es|
  {
    forall l :: 0 <= l < i ==> es[l] != Expire(id)
  }

  lemma {:induction false} SeenExactlyFrom(seen: set<int>, es: seq<Event>, i: nat, id: int)
    requires i <= |es|
    ensures id in SeenAt(seen, es, i) <==> Alive(es, id, i) || (id in seen && NoExpiry(es, id, i))
    decreases |es|
  {
    if i > 0 {
      var rest := es[1..];
      assert forall l :: 0 <= l < |rest| ==> rest[l] == es[l + 1];
      SeenExactlyFrom(SeenAfter(seen, es[0]), rest, i - 1, id);
      if j :| 0 <= j < i - 1 && rest[j].Deliver? && rest[j].t.id == id
              && forall l :: j < l < i - 1 ==> rest[l] != Expire(id) {
        assert forall l :: j + 1 < l < i ==> es[l] == rest[l - 1];
        assert es[j + 1].Deliver? && es[j + 1].t.id == id;
      }
      if j :| 0 <= j < i && es[j].Deliver? && es[j].t.id == id && forall l :: j < l < i ==> es[l] != Expire(id) {
        assert forall l :: 0 <= l < i - 1 ==> rest[l] == es[l + 1];
        if j > 0 {
          assert rest[j - 1].Deliver? && rest[j - 1].t.id == id;
        }
      }
      assert NoExpiry(rest, id, i - 1) && es[0] != Expire(id) ==> NoExpiry(es, id, i) by {
        assert forall l :: 0 < l < i ==> es[l] == rest[l - 1];
      }
    }
  }

  /** A delivery is handed on exactly when no earlier delivery of the same id is still remembered. */
  lemma HandedExactly(es: seq<Event>, i: nat)
    requires i < |es| && es[i].Deliver?
    ensures Passes(SeenAt({}, es, i), es[i]) <==> !Alive(es, es[i].t.id, i)
  {
    SeenExactlyFrom({}, es, i, es[i].t.id);
  }

  lemma {:induction false} HandedNext(seen: set<int>, es: seq<Event>, i: nat)
    requires i < |es|
    ensures Handed(seen, es[..i + 1]) == Handed(seen, es[..i]) + PassedOn(SeenAt(seen, es, i), es[i])
    decreases |es|
  {
    hide PassedOn, SeenAfter;
    if i == 0 {
      assert es[..1] == [es[0]] && [es[0]][1..] == [] && es[..0] == [];
      assert PassedOn(seen, es[0]) + [] == [] + PassedOn(seen, es[0]);
    } else {
      var next, rest := SeenAfter(seen, es[0]), es[1..];
      HandedNext(next, rest, i - 1);
      assert es[..i + 1][1..] == rest[..i] && es[..i][1..] == rest[..i - 1];
      Regrouped(PassedOn(seen, es[0]), Handed(next, rest[..i - 1]), PassedOn(SeenAt(seen, es, i), es[i]));
    }
  }

  lemma Regrouped(a: seq<Trade>, b: seq<Trade>, c: seq<Trade>)
    ensures a + (b + c) == (a + b) + c
  {
  }

  /** So what one worker has handed on after each event is what it had handed on before and the trade of a delivery
      whose id is not remembered: a trade comes again exactly if its entry has expired since its last delivery. */
  lemma HandedAfter(es: seq<Event>, i: nat)
    requires i < |es|
    ensures Handed({}, es[..i + 1]) ==
            Handed({}, es[..i]) + (if es[i].Deliver? && !Alive(es, es[i].t.id, i) then [es[i].t] else [])
  {
    HandedNext({}, es, i);
    if es[i].Deliver? {
      HandedExactly(es, i);
    }
  }

  // ---------------------------------------------------------------- redelivery

  function Deliveries(ts: seq<Trade>): seq<Event> { seq(|ts|, i requires 0 <= i < |ts| => Deliver(ts[i])) }

  ghost predicate UniqueIds(ts: seq<Trade>) {
    forall i, j :: 0 <= i < j < |ts| ==> ts[i].id != ts[j].id
  }

  /** `fetched` is the original sequence with any number of repetitions of what has already been delivered,
      anywhere. */
  predicate Redelivers(done: seq<Trade>, original: seq<Trade>, fetched: seq<Trade>)
    decreases |fetched|
  {
    if fetched == [] then original == []
    else if original != [] && fetched[0] == original[0] then
      Redelivers(done + [original[0]], original[1..], fetched[1..])
    else fetched[0] in done && Redelivers(done, original, fetched[1..])
  }

  ghost predicate Ids(seen: set<int>, done: seq<Trade>) {
    forall n :: n in seen <==> exists t :: t in done && t.id == n
  }

  lemma {:induction false} HandsOriginal(seen: set<int>, done: seq<Trade>, original: seq<Trade>, fetched: seq<Trade>)
    requires Ids(seen, done) && UniqueIds(done + original) && Redelivers(done, original, fetched)
    ensures Handed(seen, Deliveries(fetched)) == original
    decreases |fetched|
  {
    if fetched != [] {
      var t := fetched[0];
      assert Deliveries(fetched)[1..] == Deliveries(fetched[1..]);
      if original != [] && t == original[0] {
        NewId(done, original, t);
        assert (done + [t]) + original[1..] == done + original;
        IdsNext(seen, done, t);
        HandsOriginal(seen + {t.id}, done + [t], original[1..], fetched[1..]);
        assert original == [t] + original[1..];
      } else {
        assert t.id in seen && seen + {t.id} == seen;
        HandsOriginal(seen, done, original, fetched[1..]);
      }
    }
  }

  lemma NewId(done: seq<Trade>, original: seq<Trade>, t: Trade)
    requires UniqueIds(done + original) && original != [] && t == original[0]
    ensures forall u :: u in done ==> u.id != t.id
  {
    forall u | u in done
      ensures u.id != t.id
    {
      var i :| 0 <= i < |done| && done[i] == u;
      assert (done + original)[i] == u && (done + original)[|done|] == t;
    }
  }

  lemma IdsNext(seen: set<int>, done: seq<Trade>, t: Trade)
    requires Ids(seen, done)
    ensures Ids(seen + {t.id}, done + [t])
  {
    forall n | n in seen + {t.id}
      ensures exists u :: u in done + [t] && u.id == n
    {
      if n in seen {
        var u :| u in done && u.id == n;
        assert u in done + [t];
      } else {
        assert t in done + [t];
      }
    }
  }

  /** Redelivery is invisible: with ids that tell trades apart and no expiry in between, the filter hands on exactly
      the original sequence, so open buckets and completed rows are those of a run without redeliveries. */
  lemma RedeliveryInvisible(original: seq<Trade>, fetched: seq<Trade>, data: Buckets)
    requires UniqueIds(original) && Redelivers([], original, fetched)
    ensures var handed := Handed({}, Deliveries(fetched));
            && handed == original
            && Process(data, handed) == Process(data, original)
            && Completed(data, handed) == Completed(data, original)
  {
    assert [] + original == original;
    HandsOriginal({}, [], original, fetched);
  }
}
