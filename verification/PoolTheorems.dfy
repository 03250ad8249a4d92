/** What the hand-off to pooled threads promises in every reachable state. */
module PoolTheorems {
  import opened Options
  import opened PooledObjects
  import opened PoolMachine
  import opened PoolInvariant

  // ---- Exactly once

  /** Accepted jobs are executed or pending, and the numbers add up. */
  lemma JobsAreConserved(s: State, acts: seq<Action>)
    requires Init(s) && CanRun(s, acts)
    ensures var p := Exec(s, acts).p; |p.accepted| == |p.executed| + |Waiting(p.threads)|
  {
    ReachableInv(s, acts);
  }

  /** A callback runs an accepted job, on the thread it was given to, with just the fields stored for it. */
  lemma CallbacksAreGenuine(s: State, acts: seq<Action>, i: nat)
    requires Init(s) && CanRun(s, acts) && i < |Exec(s, acts).p.executed|
    ensures var p := Exec(s, acts).p;
            var d := p.executed[i];
            d.number < |p.accepted| && p.accepted[d.number] == d.ticket
  {
    ReachableInv(s, acts);
    var p := Exec(s, acts).p;
    assert Genuine(p, p.executed[i]);
  }

  /** No accepted job is called twice. */
  lemma AtMostOneCallback(s: State, acts: seq<Action>, i: nat, j: nat)
    requires Init(s) && CanRun(s, acts) && i < |Exec(s, acts).p.executed| && j < |Exec(s, acts).p.executed|
    ensures var e := Exec(s, acts).p.executed; e[i].number == e[j].number ==> i == j
  {
    ReachableInv(s, acts);
  }

  /** A job not called yet is intact in its thread's fields, and that thread's next step is enabled. */
  lemma PendingJobsAreIntact(s: State, acts: seq<Action>, k: nat)
    requires Init(s) && CanRun(s, acts) && k < |Exec(s, acts).p.accepted| && !Executed(Exec(s, acts).p, k)
    ensures var r := Exec(s, acts);
            var t := r.p.accepted[k].thread;
            && t in r.p.threads && r.p.threads[t].Pending() && r.p.threads[t].Stored() == r.p.accepted[k].job
            && Enabled(r, Worker(t))
  {
    ReachableInv(s, acts);
    var p := Exec(s, acts).p;
    var t := p.accepted[k].thread;
    assert AwaitsCall(p, k);
    assert Genuine(p, Done(p.threads[t].ticket, Ticket(t, p.threads[t].Stored())));
  }

  /** The semaphore of a pooled thread is never posted twice, and is zero while the thread works. */
  lemma SemaphoreAtMostOne(s: State, acts: seq<Action>, t: Tid)
    requires Init(s) && CanRun(s, acts) && t in Exec(s, acts).p.threads
    ensures var th := Exec(s, acts).p.threads[t]; th.sem <= 1 && (th.pc != WWait ==> th.sem == 0)
  {
    ReachableInv(s, acts);
  }

  // ---- Links

  /** While the mutex is free, `L.m_thread` is `T` if and only if `T.m_caller` is `L`. */
  lemma LinksMirror(s: State, acts: seq<Action>, l: Lid, t: Tid)
    requires Init(s) && CanRun(s, acts) && Exec(s, acts).owner == Free
    requires l in Exec(s, acts).p.lets && t in Exec(s, acts).p.threads
    ensures var p := Exec(s, acts).p;
            p.lets[l] == Some(t) <==> p.threads[t].InUse() && p.threads[t].caller == Some(l)
  {
    ReachableInv(s, acts);
    var p := Exec(s, acts).p;
    assert !p.threads[t].pc.WClear?;
  }

  /** Threads on the idle stack are there once, wait with nothing posted, and no threadlet is linked to them. */
  lemma IdleThreadsAreFree(s: State, acts: seq<Action>, i: nat)
    requires Init(s) && CanRun(s, acts) && i < |Exec(s, acts).p.idle|
    ensures var p := Exec(s, acts).p;
            var t := p.idle[i];
            && (forall j :: 0 <= j < |p.idle| && p.idle[j] == t ==> j == i)
            && t in p.threads && p.threads[t].Parked() && p.threads[t].caller == None
            && forall l :: l in p.lets ==> p.lets[l] != Some(t)
  {
    ReachableInv(s, acts);
    var r := Exec(s, acts);
    assert r.p.idle[i] in r.p.idle;
  }

  /** `m_caller` of a thread with a job never refers to a destroyed threadlet, whoever holds the mutex. */
  lemma CallerIsAlive(s: State, acts: seq<Action>, t: Tid)
    requires Init(s) && CanRun(s, acts) && t in Exec(s, acts).p.threads
    requires Exec(s, acts).p.threads[t].InUse() && Exec(s, acts).p.threads[t].caller.Some?
    ensures Exec(s, acts).p.threads[t].caller.value in Exec(s, acts).p.lets
  {
    ReachableInv(s, acts);
  }

  /** No two threads work for the same threadlet at a time. */
  lemma OneThreadPerThreadlet(s: State, acts: seq<Action>, t: Tid, u: Tid)
    requires Init(s) && CanRun(s, acts) && t in Exec(s, acts).p.threads && u in Exec(s, acts).p.threads
    requires Exec(s, acts).p.threads[t].InUse() && Exec(s, acts).p.threads[u].InUse()
    requires Exec(s, acts).p.threads[t].caller.Some?
    ensures Exec(s, acts).p.threads[t].caller == Exec(s, acts).p.threads[u].caller ==> t == u
  {
    ReachableInv(s, acts);
  }

  /** A `run` on a threadlet is refused just while its last job is between post and unlink. */
  lemma RefusedWhileRunning(s: State, acts: seq<Action>, c: Cid)
    requires Init(s) && CanRun(s, acts)
    requires c in Exec(s, acts).clients && Exec(s, acts).clients[c].RunCheck?
    ensures var p := Exec(s, acts).p;
            var l := Exec(s, acts).clients[c].l;
            l in p.lets && (p.lets[l].Some? <==>
              exists t :: t in p.threads && p.threads[t].InUse() && p.threads[t].caller == Some(l))
  {
    ReachableInv(s, acts);
    var r := Exec(s, acts);
    assert Relies(r.p, r.clients[c]);
    NoWorkerInside(r, c);
  }

  // ---- No thread is lost and nothing gets stuck

  /** When no client is in a call and no worker has a job, every thread is back on the stack. */
  lemma AllThreadsReturn(s: State, acts: seq<Action>)
    requires Init(s) && CanRun(s, acts)
    requires forall c :: c in Exec(s, acts).clients ==> Exec(s, acts).clients[c] == CIdle
    requires forall t :: t in Exec(s, acts).p.threads ==> Exec(s, acts).p.threads[t].Parked()
    ensures var p := Exec(s, acts).p;
            && (set t | t in p.idle) == p.threads.Keys
            && (forall l :: l in p.lets ==> p.lets[l] == None)
            && |p.accepted| == |p.executed|
  {
    ReachableInv(s, acts);
    assert Waiting(Exec(s, acts).p.threads) == {};
  }

  /**
   Whoever holds the mutex can go on, so it is always given back: neither `run` nor a worker blocks inside.
   `made` is an object that is no pooled thread yet, should a new one be needed.
   */
  lemma HolderGoesOn(s: State, acts: seq<Action>, made: Tid, junk: Thread) returns (a: Action)
    requires Init(s) && CanRun(s, acts) && Exec(s, acts).owner != Free && made !in Exec(s, acts).p.threads
    ensures Enabled(Exec(s, acts), a) && (a.Client? || a.Worker?)
    ensures Exec(s, acts).owner == if a.Client? then ByClient(a.c) else ByWorker(a.w)
  {
    ReachableInv(s, acts);
    var r := Exec(s, acts);
    if r.owner.ByClient? {
      assert Relies(r.p, r.clients[r.owner.c]);
      a := Client(r.owner.c, made, junk);
    } else {
      a := Worker(r.owner.w);
    }
  }

  /** A worker with a job, and a client in a call, can go on as soon as the mutex is free. */
  lemma NobodyIsStuck(s: State, acts: seq<Action>, made: Tid, junk: Thread)
    requires Init(s) && CanRun(s, acts) && Exec(s, acts).owner == Free
    ensures var r := Exec(s, acts);
            && (forall t :: t in r.p.threads && !r.p.threads[t].Parked() ==> Enabled(r, Worker(t)))
            && (forall c :: c in r.clients && r.clients[c] != CIdle ==> Enabled(r, Client(c, made, junk)))
  {
    ReachableInv(s, acts);
  }
}
