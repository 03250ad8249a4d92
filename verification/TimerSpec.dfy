/**
 The timer queue as a sequence: ordered insertion, one firing, and the catch-up loop of a tick.
 Times are the 64-bit values; a period of 0 marks a one-shot timer.
 */
module TimerSpec {
  import opened Arithmetic
  import opened Sequences

  datatype Entry<T> = Entry(id: T, due: nat, period: nat)

  /** `AddTimer`: the entry goes before the first one that is not earlier. */
  ghost function Insert<T>(q: seq<Entry<T>>, e: Entry<T>): seq<Entry<T>>
  {
    if q == [] || e.due <= q[0].due then [e] + q else [q[0]] + Insert(q[1..], e)
  }

  /** `run` on the head: unlink it, and link a periodic timer again one period later. */
  ghost function Fire<T>(q: seq<Entry<T>>): seq<Entry<T>>
    requires q != []
  {
    var e := q[0];
    if e.period > 0 then Insert(q[1..], e.(due := e.due + e.period)) else q[1..]
  }

  ghost predicate Sorted<T>(q: seq<Entry<T>>)
  {
    forall i, j :: 0 <= i < j < |q| ==> q[i].due <= q[j].due
  }

  ghost predicate DistinctIds<T>(q: seq<Entry<T>>)
  {
    forall i, j :: 0 <= i < j < |q| ==> q[i].id != q[j].id
  }

  // ---- Termination: how late the queue is

  ghost function Late<T>(e: Entry<T>, now: nat): nat
  {
    if e.due < now then now - e.due else 0
  }

  ghost function Lateness<T>(q: seq<Entry<T>>, now: nat): nat
  {
    if q == [] then 0 else Late(q[0], now) + Lateness(q[1..], now)
  }

  lemma {:induction false} InsertLateness<T>(q: seq<Entry<T>>, e: Entry<T>, now: nat)
    ensures Lateness(Insert(q, e), now) == Lateness(q, now) + Late(e, now)
  {
    if q == [] || e.due <= q[0].due {
      assert ([e] + q)[1..] == q;
    } else {
      InsertLateness(q[1..], e, now);
      var r := Insert(q[1..], e);
      assert ([q[0]] + r)[1..] == r;
    }
  }

  /** Firing a late head makes the queue strictly less late. */
  lemma FireLessLate<T>(q: seq<Entry<T>>, now: nat)
    requires q != [] && q[0].due < now
    ensures Lateness(Fire(q), now) < Lateness(q, now)
  {
    var e := q[0];
    if e.period > 0 {
      InsertLateness(q[1..], e.(due := e.due + e.period), now);
    }
  }

  /** The catch-up loop: fire the head while it is late.  `log` lists the firings in order. */
  ghost function CatchUp<T>(q: seq<Entry<T>>, now: nat): (r: (seq<Entry<T>>, seq<Entry<T>>))
    decreases Lateness(q, now)
  {
    if q == [] || q[0].due >= now then (q, [])
    else
      FireLessLate(q, now);
      var (rest, log) := CatchUp(Fire(q), now);
      (rest, [q[0]] + log)
  }

  // ---- Ordered insertion

  lemma {:induction false} InsertMembers<T>(q: seq<Entry<T>>, e: Entry<T>, x: Entry<T>)
    ensures x in Insert(q, e) <==> x == e || x in q
  {
    if q != [] && e.due > q[0].due {
      InsertMembers(q[1..], e, x);
      assert x in q <==> x == q[0] || x in q[1..];
    }
  }

  lemma {:induction false} InsertSorted<T>(q: seq<Entry<T>>, e: Entry<T>)
    requires Sorted(q)
    ensures Sorted(Insert(q, e))
  {
    if q != [] && e.due > q[0].due {
      InsertSorted(q[1..], e);
      var r := Insert(q[1..], e);
      forall i | 0 <= i < |r| ensures q[0].due <= r[i].due {
        InsertMembers(q[1..], e, r[i]);
      }
    }
  }

  ghost predicate HasId<T>(q: seq<Entry<T>>, id: T)
  {
    exists i :: 0 <= i < |q| && q[i].id == id
  }

  lemma {:induction false} InsertDistinct<T>(q: seq<Entry<T>>, e: Entry<T>)
    requires DistinctIds(q) && !HasId(q, e.id)
    ensures DistinctIds(Insert(q, e))
  {
    if q != [] && e.due > q[0].due {
      InsertDistinct(q[1..], e);
      var r := Insert(q[1..], e);
      forall i | 0 <= i < |r| ensures q[0].id != r[i].id {
        InsertMembers(q[1..], e, r[i]);
      }
    }
  }

  /** Where the insertion loop stops. */
  lemma {:induction false} InsertAt<T>(q: seq<Entry<T>>, e: Entry<T>, k: nat)
    requires k <= |q| && forall j :: 0 <= j < k ==> e.due > q[j].due
    requires k == |q| || e.due <= q[k].due
    ensures Insert(q, e) == q[..k] + [e] + q[k..]
  {
    if k > 0 {
      InsertAt(q[1..], e, k - 1);
    }
  }

  ghost predicate NoneLate<T>(q: seq<Entry<T>>, now: nat)
  {
    forall i :: 0 <= i < |q| ==> q[i].due >= now
  }

  lemma InsertNotLate<T>(q: seq<Entry<T>>, e: Entry<T>, now: nat)
    ensures NoneLate(q, now) && e.due >= now ==> NoneLate(Insert(q, e), now)
  {
    var r := Insert(q, e);
    forall i | 0 <= i < |r| && NoneLate(q, now) && e.due >= now
      ensures r[i].due >= now
    {
      InsertMembers(q, e, r[i]);
    }
  }

  lemma RemovedKeeps<T>(q: seq<Entry<T>>, k: nat, now: nat)
    requires k < |q| && Sorted(q)
    ensures Sorted(Without(q, k)) && Removed(q, q[k].id, Without(q, k))
    ensures NoneLate(q, now) ==> NoneLate(Without(q, k), now)
  {
  }

  lemma TailKeeps<T>(q: seq<Entry<T>>)
    requires q != [] && Sorted(q) && DistinctIds(q)
    ensures Sorted(q[1..]) && DistinctIds(q[1..]) && !HasId(q[1..], q[0].id) && NoneLate(q[1..], q[0].due)
  {
  }

  lemma FireKeeps<T>(q: seq<Entry<T>>)
    requires q != [] && Sorted(q) && DistinctIds(q)
    ensures Sorted(Fire(q)) && DistinctIds(Fire(q)) && NoneLate(Fire(q), q[0].due)
  {
    TailKeeps(q);
    var rest, next := q[1..], q[0].(due := q[0].due + q[0].period);
    if q[0].period > 0 {
      InsertSorted(rest, next);
      InsertDistinct(rest, next);
      InsertNotLate(rest, next, q[0].due);
    }
  }

  lemma FireHead<T>(q: seq<Entry<T>>, rest: seq<Entry<T>>, next: Entry<T>)
    requires q != [] && rest == Without(q, 0) && next == q[0].(due := q[0].due + q[0].period)
    ensures Fire(q) == if q[0].period == 0 then rest else Insert(rest, next)
  {
    assert rest == q[1..];
  }

  ghost predicate Removed<T>(q: seq<Entry<T>>, id: T, rest: seq<Entry<T>>)
  {
    exists k: nat :: k < |q| && q[k].id == id && rest == Without(q, k)
  }

  /** Firing late heads one by one, as `log` lists them, leads from `start` to `q`. */
  ghost predicate Reached<T>(start: seq<Entry<T>>, now: nat, log: seq<Entry<T>>, q: seq<Entry<T>>)
    decreases |log|
  {
    if log == [] then q == start
    else start != [] && start[0].due < now && start[0] == log[0] && Reached(Fire(start), now, log[1..], q)
  }

  lemma {:induction false} ReachedStep<T>(start: seq<Entry<T>>, now: nat, log: seq<Entry<T>>, q: seq<Entry<T>>)
    requires Reached(start, now, log, q) && q != [] && q[0].due < now
    ensures Reached(start, now, log + [q[0]], Fire(q))
    decreases |log|
  {
    if log != [] {
      ReachedStep(Fire(start), now, log[1..], q);
      assert (log + [q[0]])[1..] == log[1..] + [q[0]];
    }
  }

  lemma {:induction false} ReachedEnd<T>(start: seq<Entry<T>>, now: nat, log: seq<Entry<T>>, q: seq<Entry<T>>)
    requires Reached(start, now, log, q) && (q != [] ==> q[0].due >= now)
    ensures CatchUp(start, now) == (q, log)
    decreases |log|
  {
    if log != [] {
      ReachedEnd(Fire(start), now, log[1..], q);
      CatchUpFires(start, now);
      assert [log[0]] + log[1..] == log;
    }
  }

  // ---- What a tick does

  /** After a tick no queued timer is late, and the queue is in order. */
  lemma {:induction false} CatchUpSettles<T>(q: seq<Entry<T>>, now: nat)
    requires Sorted(q) && DistinctIds(q)
    ensures var (rest, _) := CatchUp(q, now);
            Sorted(rest) && DistinctIds(rest) && NoneLate(rest, now)
    decreases Lateness(q, now)
  {
    if q != [] && q[0].due < now {
      FireLessLate(q, now);
      FireKeeps(q);
      CatchUpSettles(Fire(q), now);
    }
  }

  /** The firings of one tick come in the order of their deadlines, all of them past. */
  lemma {:induction false} FiringOrder<T>(q: seq<Entry<T>>, now: nat)
    requires Sorted(q) && DistinctIds(q)
    ensures var (_, log) := CatchUp(q, now);
            Sorted(log) && forall i :: 0 <= i < |log| ==> q != [] && q[0].due <= log[i].due < now
    decreases Lateness(q, now)
  {
    if q != [] && q[0].due < now {
      FireLessLate(q, now);
      FireKeeps(q);
      FiringOrder(Fire(q), now);
    }
  }

  lemma CatchUpFires<T>(q: seq<Entry<T>>, now: nat)
    requires q != [] && q[0].due < now
    ensures CatchUp(q, now).0 == CatchUp(Fire(q), now).0
    ensures CatchUp(q, now).1 == [q[0]] + CatchUp(Fire(q), now).1
  {
    FireLessLate(q, now);
  }

  /** Ticks compose: stopping at an earlier time in between changes no firing and no queue. */
  lemma {:induction false} CatchUpComposes<T>(q: seq<Entry<T>>, mid: nat, now: nat)
    requires mid <= now
    ensures CatchUp(q, now).0 == CatchUp(CatchUp(q, mid).0, now).0
    ensures CatchUp(q, now).1 == CatchUp(q, mid).1 + CatchUp(CatchUp(q, mid).0, now).1
    decreases Lateness(q, mid)
  {
    if q == [] || q[0].due >= mid {
      return;
    }
    FireLessLate(q, mid);
    CatchUpFires(q, mid);
    CatchUpFires(q, now);
    var f := Fire(q);
    CatchUpComposes(f, mid, now);
    assert CatchUp(q, now).1 == [q[0]] + (CatchUp(f, mid).1 + CatchUp(CatchUp(f, mid).0, now).1);
  }

  // ---- Exact firing counts

  /** The deadlines at which one timer is due up to `now`. */
  ghost function Plan<T>(e: Entry<T>, now: nat): seq<nat>
    decreases Late(e, now)
  {
    if e.due >= now then []
    else if e.period == 0 then [e.due]
    else [e.due] + Plan(e.(due := e.due + e.period), now)
  }

  /** The same timer with its first deadline not before `now`. */
  ghost function Settled<T>(e: Entry<T>, now: nat): Entry<T>
    decreases Late(e, now)
  {
    if e.due >= now || e.period == 0 then e else Settled(e.(due := e.due + e.period), now)
  }

  /** The deadlines at which `id` was fired. */
  ghost function FiringsOf<T>(log: seq<Entry<T>>, id: T): seq<nat>
  {
    if log == [] then []
    else if log[0].id == id then [log[0].due] + FiringsOf(log[1..], id)
    else FiringsOf(log[1..], id)
  }

  lemma {:induction false} AbsentNeverFires<T>(q: seq<Entry<T>>, now: nat, id: T)
    requires DistinctIds(q) && Sorted(q) && !HasId(q, id)
    ensures var (rest, log) := CatchUp(q, now); FiringsOf(log, id) == [] && !HasId(rest, id)
    decreases Lateness(q, now)
  {
    if q != [] && q[0].due < now {
      FireLessLate(q, now);
      FireKeeps(q);
      FireIds(q, id);
      AbsentNeverFires(Fire(q), now, id);
      var (rest, log) := CatchUp(Fire(q), now);
      assert ([q[0]] + log)[1..] == log;
    }
  }

  lemma FireIds<T>(q: seq<Entry<T>>, id: T)
    requires q != []
    ensures HasId(Fire(q), id) ==> HasId(q, id)
    ensures DistinctIds(q) && q[0].period == 0 && q[0].id == id ==> !HasId(Fire(q), id)
  {
    if i :| 0 <= i < |Fire(q)| && Fire(q)[i].id == id {
      if q[0].period > 0 {
        InsertMembers(q[1..], q[0].(due := q[0].due + q[0].period), Fire(q)[i]);
      }
    }
  }

  /** What a tick does to one timer of the queue. */
  ghost predicate Exact<T>(q: seq<Entry<T>>, now: nat, e: Entry<T>)
  {
    var (rest, log) := CatchUp(q, now);
    && FiringsOf(log, e.id) == Plan(e, now)
    && (e.period > 0 || e.due >= now ==> Settled(e, now) in rest)
    && (e.period == 0 && e.due < now ==> !HasId(rest, e.id))
  }

  lemma OtherId<T>(q: seq<Entry<T>>, e: Entry<T>)
    requires DistinctIds(q) && e in q && e != q[0]
    ensures e in q[1..] && e.id != q[0].id
  {
  }

  /** The log of a tick starts with the head. */
  lemma CatchUpStep<T>(q: seq<Entry<T>>, now: nat, id: T)
    requires q != [] && q[0].due < now
    ensures var (rest, log) := CatchUp(q, now);
            var (rest', log') := CatchUp(Fire(q), now);
            && rest == rest'
            && FiringsOf(log, id) == if q[0].id == id then [q[0].due] + FiringsOf(log', id) else FiringsOf(log', id)
  {
    FireLessLate(q, now);
    var (rest, log) := CatchUp(Fire(q), now);
    assert ([q[0]] + log)[1..] == log;
  }

  lemma ExactOther<T>(q: seq<Entry<T>>, now: nat, e: Entry<T>)
    requires DistinctIds(q) && q != [] && q[0].due < now && e in q && e != q[0]
    requires Exact(Fire(q), now, e)
    ensures Exact(q, now, e)
  {
    OtherId(q, e);
    CatchUpStep(q, now, e.id);
  }

  lemma ExactPeriodic<T>(q: seq<Entry<T>>, now: nat, next: Entry<T>)
    requires q != [] && q[0].due < now && q[0].period > 0
    requires next == q[0].(due := q[0].due + q[0].period) && Exact(Fire(q), now, next)
    ensures Exact(q, now, q[0])
  {
    CatchUpStep(q, now, q[0].id);
  }

  lemma ExactOneShot<T>(q: seq<Entry<T>>, now: nat)
    requires q != [] && q[0].due < now && q[0].period == 0 && Sorted(q) && DistinctIds(q)
    ensures Exact(q, now, q[0])
  {
    FireKeeps(q);
    FireIds(q, q[0].id);
    AbsentNeverFires(Fire(q), now, q[0].id);
    CatchUpStep(q, now, q[0].id);
  }

  /**
   A tick is exact: every queued timer fires at just the deadlines of its plan, a timer not yet
   due is left alone, a periodic one ends at its first deadline not before `now`, and a one-shot
   timer that was due is gone.
   */
  lemma {:induction false} CatchUpExact<T>(q: seq<Entry<T>>, now: nat, e: Entry<T>)
    requires Sorted(q) && DistinctIds(q) && e in q
    ensures Exact(q, now, e)
    decreases Lateness(q, now)
  {
    if q[0].due < now {
      FireLessLate(q, now);
      FireKeeps(q);
      var next := q[0].(due := q[0].due + q[0].period);
      if e != q[0] {
        OtherId(q, e);
        InsertMembers(q[1..], next, e);
        CatchUpExact(Fire(q), now, e);
        ExactOther(q, now, e);
      } else if e.period > 0 {
        InsertMembers(q[1..], next, next);
        CatchUpExact(Fire(q), now, next);
        ExactPeriodic(q, now, next);
      } else {
        ExactOneShot(q, now);
      }
    } else {
      NotLate(q, now, e);
    }
  }

  lemma NotLate<T>(q: seq<Entry<T>>, now: nat, e: Entry<T>)
    requires Sorted(q) && e in q && q[0].due >= now
    ensures Exact(q, now, e)
  {
  }

  /** A periodic timer late by `now - due` fires `ceil((now - due) / period)` times, a period apart. */
  lemma {:induction false} PlanCount<T>(e: Entry<T>, now: nat)
    requires e.period > 0
    ensures var n := |Plan(e, now)|;
            && n == (Late(e, now) + e.period - 1) / e.period
            && Settled(e, now) == e.(due := e.due + n * e.period)
            && forall i :: 0 <= i < n ==> Plan(e, now)[i] == e.due + i * e.period
    decreases Late(e, now)
  {
    var P := e.period;
    if e.due < now {
      var next := e.(due := e.due + P);
      PlanCount(next, now);
      var n := |Plan(next, now)|;
      CeilStep(now - e.due, P);
      MulSucc(P, n);
      forall i | 0 <= i < n + 1 ensures Plan(e, now)[i] == e.due + i * P {
        if i > 0 { MulSucc(P, i - 1); }
      }
    } else {
      assert (P - 1) / P == 0;
    }
  }

  lemma CeilStep(late: nat, p: nat)
    requires late > 0 && p > 0
    ensures (late + p - 1) / p == 1 + ((if late > p then late - p else 0) + p - 1) / p
  {
    DivPlus(late - 1, p);
    if late <= p {
      assert (late - 1) / p == 0;
      assert (p - 1) / p == 0;
    }
  }
}
