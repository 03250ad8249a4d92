/** The invariant of the hand-off, and its proof step by step. */
module PoolInvariant {
  import opened Options
  import opened Sequences
  import opened PooledObjects
  import opened PoolMachine

  ghost predicate Mutex(s: State)
  {
    && (forall c :: c in s.clients ==> (s.clients[c].Holding() <==> s.owner == ByClient(c)))
    && (forall t :: t in s.p.threads ==> (s.p.threads[t].pc.Holding() <==> s.owner == ByWorker(t)))
    && (s.owner.ByClient? ==> s.owner.c in s.clients)
    && (s.owner.ByWorker? ==> s.owner.w in s.p.threads)
  }

  /** The program point of a client as far as it is inside the mutex. */
  function In(pc: CPC): CPC
  {
    if pc.Holding() then pc else CIdle
  }

  /** Where the owner of the mutex stands, if it is a client. */
  function Inside(s: State): CPC
  {
    if s.owner.ByClient? && s.owner.c in s.clients then s.clients[s.owner.c] else CIdle
  }

  ghost predicate IsHeld(inside: CPC, t: Tid)
  {
    inside.Filling() && inside.t == t
  }

  /** Every pooled thread is on the idle stack, held by `run`, posted, or at work: just one of these. */
  ghost predicate Places(p: Pool, inside: CPC)
  {
    && Distinct(p.idle)
    && (forall t :: t in p.idle ==> t in p.threads && p.threads[t].Parked() && !IsHeld(inside, t))
    && (inside.Filling() ==> inside.t in p.threads && p.threads[inside.t].Parked())
    && (forall t :: t in p.threads && p.threads[t].Parked() ==> t in p.idle || IsHeld(inside, t))
    && (forall t :: t in p.threads ==> p.threads[t].sem <= 1 && (!p.threads[t].pc.WWait? ==> p.threads[t].sem == 0))
  }

  /** `m_thread` of a threadlet leads to a thread that leads back, or that is just being linked or unlinked. */
  ghost predicate LetsLinked(p: Pool, inside: CPC)
  {
    forall l :: l in p.lets && p.lets[l].Some? ==>
      var t := p.lets[l].value;
      && t in p.threads
      && (|| (p.threads[t].InUse() && p.threads[t].caller == Some(l))
          || (IsHeld(inside, t) && inside.l == l)
          || (inside.DropUnlock? && inside.l == l && p.threads[t].InUse()))
  }

  /** `m_caller` of a thread in use leads to a live threadlet, and back unless just being unlinked. */
  ghost predicate CallersLinked(p: Pool)
  {
    forall t :: t in p.threads && p.threads[t].InUse() && p.threads[t].caller.Some? ==>
      var l := p.threads[t].caller.value;
      l in p.lets && p.lets[l] == if p.threads[t].pc.WClear? then None else Some(t)
  }

  ghost predicate UnusedUnlinked(p: Pool, inside: CPC)
  {
    forall t :: t in p.threads && !p.threads[t].InUse() && !IsHeld(inside, t) ==> p.threads[t].caller == None
  }

  /** What a client relies on at its program point. */
  ghost predicate Relies(p: Pool, pc: CPC)
  {
    match pc
    case CIdle => true
    case RunUnlock(_) => true
    case RunGet(l, _) => l in p.lets && p.lets[l] == None
    case SetObj(l, job, t) => Filled(p, l, t)
    case SetFunc(l, job, t) => Filled(p, l, t) && p.threads[t].obj == job.obj
    case SetParam(l, job, t) => Filled(p, l, t) && p.threads[t].obj == job.obj && p.threads[t].func == job.func
    case SetCaller(l, job, t) => Filled(p, l, t) && p.threads[t].Stored() == job
    case RunPost(l, job, t) => Filled(p, l, t) && p.threads[t].Stored() == job && p.threads[t].caller == Some(l)
    case DropUnlock(l) => l in p.lets && (p.lets[l].Some? ==> Unlinked(p, p.lets[l].value))
    case _ => pc.l in p.lets
  }

  ghost predicate Filled(p: Pool, l: Lid, t: Tid)
  {
    l in p.lets && p.lets[l] == Some(t) && t in p.threads
  }

  ghost predicate Unlinked(p: Pool, t: Tid)
  {
    t in p.threads && p.threads[t].caller == None
  }

  ghost predicate Local(s: State)
  {
    forall c :: c in s.clients ==> Relies(s.p, s.clients[c])
  }

  /** A threadlet being destroyed has no other user. */
  ghost predicate Disciplined(s: State)
  {
    forall c, d :: c in s.clients && d in s.clients && c != d && s.clients[c].Dropping() ==>
      !s.clients[d].Uses(s.clients[c].l)
  }

  /** The jobs: each executed one is an accepted one, none twice, and the rest are pending, intact. */
  ghost predicate Jobs(p: Pool)
  {
    && (forall i, j :: 0 <= i < j < |p.executed| ==> p.executed[i].number != p.executed[j].number)
    && (forall i :: 0 <= i < |p.executed| ==> Genuine(p, p.executed[i]))
    && (forall t :: t in p.threads && p.threads[t].Pending() ==>
          Genuine(p, Done(p.threads[t].ticket, Ticket(t, p.threads[t].Stored()))) && !Executed(p, p.threads[t].ticket))
    && (forall k :: 0 <= k < |p.accepted| ==> Executed(p, k) || AwaitsCall(p, k))
    && |p.accepted| == |p.executed| + |Waiting(p.threads)|
  }

  function Waiting(threads: map<Tid, Thread>): set<Tid>
  {
    set t | t in threads && threads[t].Pending()
  }

  ghost predicate Genuine(p: Pool, d: Done)
  {
    d.number < |p.accepted| && p.accepted[d.number] == d.ticket
  }

  ghost predicate Executed(p: Pool, k: nat)
  {
    exists i :: 0 <= i < |p.executed| && p.executed[i].number == k
  }

  /** Job `k` is stored in its thread and not called yet. */
  ghost predicate AwaitsCall(p: Pool, k: nat)
    requires k < |p.accepted|
  {
    var t := p.accepted[k].thread;
    t in p.threads && p.threads[t].Pending() && p.threads[t].ticket == k
  }

  ghost predicate PoolInv(p: Pool, inside: CPC)
  {
    && Places(p, inside)
    && LetsLinked(p, inside) && CallersLinked(p) && UnusedUnlinked(p, inside)
    && Relies(p, inside) && Jobs(p)
  }

  ghost predicate Inv(s: State)
  {
    Mutex(s) && PoolInv(s.p, Inside(s)) && Local(s) && Disciplined(s)
  }

  // ---- The mutex and the discipline of the callers

  lemma ClientKeepsThreadPoints(p: Pool, pc: CPC, made: Tid, junk: Thread)
    requires ClientReady(p, pc, made)
    ensures var q := ClientAfter(p, pc, made, junk).0;
            && p.threads.Keys <= q.threads.Keys
            && (forall t :: t in p.threads ==> q.threads[t].pc == p.threads[t].pc)
            && (forall t :: t in q.threads && t !in p.threads ==> q.threads[t].pc == WWait)
  {
  }

  lemma ClientHolds(pc: CPC, p: Pool, made: Tid, junk: Thread)
    requires ClientReady(p, pc, made)
    ensures ClientAfter(p, pc, made, junk).1.Holding() <==> !ClientUnlocks(pc)
    ensures pc.Holding() <==> !pc.RunLock? && !pc.DropLock?
  {
  }

  lemma ClientKeepsMutex(s: State, c: Cid, made: Tid, junk: Thread)
    requires Mutex(s) && Enabled(s, Client(c, made, junk))
    ensures var r := Apply(s, Client(c, made, junk)); Mutex(r) && Inside(r) == In(r.clients[c])
    ensures Inside(s) == In(s.clients[c])
  {
    ClientKeepsThreadPoints(s.p, s.clients[c], made, junk);
    ClientHolds(s.clients[c], s.p, made, junk);
  }

  lemma WorkerMoves(p: Pool, t: Tid)
    requires WorkerReady(p, t)
    ensures var q := WorkerAfter(p, t);
            && q.threads.Keys == p.threads.Keys
            && (forall u :: u in p.threads && u != t ==> q.threads[u] == p.threads[u])
            && (q.threads[t].pc.Holding() <==> p.threads[t].pc.WLock? || p.threads[t].pc.WTest? || p.threads[t].pc.WClear?)
  {
  }

  lemma WorkerKeepsMutex(s: State, t: Tid)
    requires Mutex(s) && Enabled(s, Worker(t))
    ensures Mutex(Apply(s, Worker(t))) && Inside(Apply(s, Worker(t))) == Inside(s)
    ensures s.p.threads[t].pc.Holding() || s.p.threads[t].pc.WLock? ==> Inside(s) == CIdle
  {
    WorkerMoves(s.p, t);
  }

  lemma UsesStays(p: Pool, pc: CPC, made: Tid, junk: Thread)
    requires ClientReady(p, pc, made)
    ensures var pc' := ClientAfter(p, pc, made, junk).1;
            && (forall l :: pc'.Uses(l) ==> pc.Uses(l))
            && (pc'.Dropping() ==> pc.Dropping() && pc'.l == pc.l)
  {
  }

  lemma StepKeepsDiscipline(s: State, a: Action)
    requires Disciplined(s) && Enabled(s, a)
    ensures Disciplined(Apply(s, a))
  {
    if a.Client? {
      UsesStays(s.p, s.clients[a.c], a.made, a.junk);
    }
  }

  // ---- Steps of a client

  lemma GetKeepsPlaces(p: Pool, l: Lid, job: Job, made: Tid, junk: Thread)
    requires ClientReady(p, RunGet(l, job), made) && Places(p, CIdle)
    ensures var (q, pc') := ClientAfter(p, RunGet(l, job), made, junk); Places(q, pc')
  {
  }

  /** One thread's fields change, but neither the stack nor whether the thread waits. */
  lemma FieldsKeepPlaces(p: Pool, q: Pool, t: Tid, th: Thread, inside: CPC, inside': CPC)
    requires Places(p, inside) && t in p.threads && q.idle == p.idle && q.threads == p.threads[t := th]
    requires th.sem == p.threads[t].sem && th.pc == p.threads[t].pc
    requires inside.Filling() == inside'.Filling() && (inside.Filling() ==> inside.t == inside'.t)
    ensures Places(q, inside')
  {
    assert forall u :: IsHeld(inside, u) <==> IsHeld(inside', u);
    assert forall u :: u in p.threads ==> (q.threads[u].Parked() <==> p.threads[u].Parked());
  }

  lemma PostKeepsPlaces(p: Pool, pc: CPC, made: Tid, junk: Thread)
    requires ClientReady(p, pc, made) && Places(p, pc) && pc.RunPost?
    ensures Places(ClientAfter(p, pc, made, junk).0, RunUnlock(true))
  {
  }

  lemma SetKeepsPlaces(p: Pool, pc: CPC, made: Tid, junk: Thread)
    requires ClientReady(p, pc, made) && Places(p, pc) && pc.Filling() && !pc.RunPost?
    ensures Places(ClientAfter(p, pc, made, junk).0, ClientAfter(p, pc, made, junk).1)
  {
    var (q, pc') := ClientAfter(p, pc, made, junk);
    FieldsKeepPlaces(p, q, pc.t, q.threads[pc.t], pc, pc');
  }

  lemma DropKeepsPlaces(p: Pool, l: Lid, made: Tid, junk: Thread)
    requires ClientReady(p, Drop(l), made) && Places(p, Drop(l))
    ensures Places(ClientAfter(p, Drop(l), made, junk).0, DropUnlock(l))
  {
    if p.lets[l].Some? {
      var t, q := p.lets[l].value, ClientAfter(p, Drop(l), made, junk).0;
      FieldsKeepPlaces(p, q, t, q.threads[t], Drop(l), DropUnlock(l));
    }
  }

  lemma ClientKeepsPlaces(p: Pool, pc: CPC, made: Tid, junk: Thread)
    requires ClientReady(p, pc, made) && Places(p, In(pc))
    ensures Places(ClientAfter(p, pc, made, junk).0, In(ClientAfter(p, pc, made, junk).1))
  {
    if pc.RunPost? {
      PostKeepsPlaces(p, pc, made, junk);
    } else if pc.RunGet? {
      GetKeepsPlaces(p, pc.l, pc.job, made, junk);
    } else if pc.Filling() {
      SetKeepsPlaces(p, pc, made, junk);
    } else if pc.Drop? {
      DropKeepsPlaces(p, pc.l, made, junk);
    }
  }

  lemma ClientKeepsLets(p: Pool, pc: CPC, made: Tid, junk: Thread)
    requires ClientReady(p, pc, made) && Places(p, In(pc)) && Relies(p, In(pc)) && LetsLinked(p, In(pc))
    ensures LetsLinked(ClientAfter(p, pc, made, junk).0, In(ClientAfter(p, pc, made, junk).1))
  {
  }

  lemma ClientKeepsCallers(p: Pool, pc: CPC, made: Tid, junk: Thread)
    requires ClientReady(p, pc, made) && Places(p, In(pc)) && Relies(p, In(pc)) && CallersLinked(p)
    requires pc.Holding() ==> forall t :: t in p.threads ==> !p.threads[t].pc.WClear?
    ensures CallersLinked(ClientAfter(p, pc, made, junk).0)
  {
  }

  lemma ClientKeepsUnused(p: Pool, pc: CPC, made: Tid, junk: Thread)
    requires ClientReady(p, pc, made) && Places(p, In(pc)) && UnusedUnlinked(p, In(pc))
    ensures UnusedUnlinked(ClientAfter(p, pc, made, junk).0, In(ClientAfter(p, pc, made, junk).1))
  {
  }

  lemma ClientMeetsRelies(p: Pool, pc: CPC, made: Tid, junk: Thread)
    requires ClientReady(p, pc, made) && PoolInv(p, In(pc)) && Relies(p, pc)
    ensures Relies(ClientAfter(p, pc, made, junk).0, ClientAfter(p, pc, made, junk).1)
  {
  }

  /** The pending jobs are the same ones. */
  ghost predicate SamePending(p: Pool, q: Pool)
  {
    && (forall t :: t in p.threads && p.threads[t].Pending() ==> t in q.threads && q.threads[t].Pending())
    && (forall t :: t in q.threads && q.threads[t].Pending() ==>
          && t in p.threads && p.threads[t].Pending()
          && q.threads[t].ticket == p.threads[t].ticket && q.threads[t].Stored() == p.threads[t].Stored())
  }

  lemma SameJobs(p: Pool, q: Pool)
    requires Jobs(p) && SamePending(p, q) && q.accepted == p.accepted && q.executed == p.executed
    ensures Jobs(q)
  {
    assert Waiting(q.threads) == Waiting(p.threads);
    forall k: nat ensures Executed(q, k) <==> Executed(p, k) {
    }
    forall k | 0 <= k < |q.accepted| ensures Executed(q, k) || AwaitsCall(q, k) {
      assert Executed(p, k) || AwaitsCall(p, k);
    }
  }

  /** The post of a job makes it pending. */
  lemma PostKeepsJobs(p: Pool, q: Pool, t: Tid)
    requires Jobs(p) && t in p.threads && !p.threads[t].Pending() && p.threads[t].pc.WWait?
    requires q == p.(accepted := p.accepted + [Ticket(t, p.threads[t].Stored())])
                   .Put(t, p.threads[t].(sem := p.threads[t].sem + 1, ticket := |p.accepted|))
    ensures Jobs(q)
  {
    assert Waiting(q.threads) == Waiting(p.threads) + {t};
    assert !Executed(p, |p.accepted|);
    forall k: nat ensures Executed(q, k) <==> Executed(p, k) {
    }
    forall k | 0 <= k < |q.accepted| ensures Executed(q, k) || AwaitsCall(q, k) {
      if k < |p.accepted| {
        assert Executed(p, k) || AwaitsCall(p, k);
      }
    }
  }

  /** A thread taken off the stack or made now has no job, and neither has one being filled. */
  lemma GetKeepsPending(p: Pool, l: Lid, job: Job, made: Tid, junk: Thread)
    requires ClientReady(p, RunGet(l, job), made)
    ensures SamePending(p, ClientAfter(p, RunGet(l, job), made, junk).0)
  {
  }

  lemma ClientKeepsPending(p: Pool, pc: CPC, made: Tid, junk: Thread)
    requires ClientReady(p, pc, made) && Places(p, In(pc)) && !pc.RunPost?
    ensures SamePending(p, ClientAfter(p, pc, made, junk).0)
  {
    if pc.RunGet? {
      GetKeepsPending(p, pc.l, pc.job, made, junk);
    }
  }

  lemma ClientKeepsJobs(p: Pool, pc: CPC, made: Tid, junk: Thread)
    requires ClientReady(p, pc, made) && Places(p, In(pc)) && Relies(p, In(pc)) && Jobs(p)
    ensures Jobs(ClientAfter(p, pc, made, junk).0)
  {
    var q := ClientAfter(p, pc, made, junk).0;
    if pc.RunPost? {
      PostKeepsJobs(p, q, pc.t);
    } else {
      ClientKeepsPending(p, pc, made, junk);
      SameJobs(p, q);
    }
  }

  // ---- Steps of a worker

  /** A worker that is posted or at work goes on being so. */
  lemma BusyKeepsPlaces(p: Pool, q: Pool, t: Tid, inside: CPC)
    requires Places(p, inside) && t in p.threads && !p.threads[t].Parked()
    requires t in q.threads && q.idle == p.idle && q.threads == p.threads[t := q.threads[t]]
    requires q.threads[t].sem == 0 && !q.threads[t].pc.WWait?
    ensures Places(q, inside)
  {
  }

  lemma ReleaseKeepsPlaces(p: Pool, t: Tid, inside: CPC)
    requires WorkerReady(p, t) && Places(p, inside) && p.threads[t].pc.WRelease?
    ensures Places(WorkerAfter(p, t), inside)
  {
  }

  lemma WorkerKeepsPlaces(p: Pool, t: Tid, inside: CPC)
    requires WorkerReady(p, t) && Places(p, inside)
    ensures Places(WorkerAfter(p, t), inside)
  {
    if p.threads[t].pc.WRelease? {
      ReleaseKeepsPlaces(p, t, inside);
    } else {
      BusyKeepsPlaces(p, WorkerAfter(p, t), t, inside);
    }
  }

  /** A worker that keeps its caller and its place in the hand-off keeps all links. */
  lemma SameLinks(p: Pool, q: Pool, t: Tid, inside: CPC)
    requires t in p.threads && t in q.threads && q.lets == p.lets && q.threads == p.threads[t := q.threads[t]]
    requires q.threads[t].caller == p.threads[t].caller && q.threads[t].InUse() == p.threads[t].InUse()
    requires !p.threads[t].pc.WClear? && !q.threads[t].pc.WClear?
    ensures LetsLinked(p, inside) ==> LetsLinked(q, inside)
    ensures CallersLinked(p) ==> CallersLinked(q)
  {
  }

  /** The two assignments that unlink a threadlet and its thread. */
  lemma UnlinkKeepsLinks(p: Pool, t: Tid)
    requires WorkerReady(p, t) && LetsLinked(p, CIdle) && CallersLinked(p)
    requires p.threads[t].pc.WTest? || p.threads[t].pc.WClear?
    ensures LetsLinked(WorkerAfter(p, t), CIdle) && CallersLinked(WorkerAfter(p, t))
  {
  }

  lemma WorkerKeepsLinks(p: Pool, t: Tid, inside: CPC)
    requires WorkerReady(p, t) && Places(p, inside) && LetsLinked(p, inside) && CallersLinked(p)
    requires p.threads[t].pc.Holding() ==> inside == CIdle
    ensures LetsLinked(WorkerAfter(p, t), inside) && CallersLinked(WorkerAfter(p, t))
  {
    if p.threads[t].pc.WTest? || p.threads[t].pc.WClear? {
      UnlinkKeepsLinks(p, t);
    } else {
      SameLinks(p, WorkerAfter(p, t), t, inside);
    }
  }

  lemma WorkerKeepsUnused(p: Pool, t: Tid, inside: CPC)
    requires WorkerReady(p, t) && Places(p, inside) && UnusedUnlinked(p, inside)
    ensures UnusedUnlinked(WorkerAfter(p, t), inside)
  {
  }

  lemma WorkerKeepsRelies(p: Pool, t: Tid, inside: CPC, pc: CPC)
    requires WorkerReady(p, t) && Places(p, inside) && Relies(p, pc)
    requires p.threads[t].pc.Holding() ==> inside == CIdle
    requires pc.Holding() ==> inside == pc
    ensures Relies(WorkerAfter(p, t), pc)
  {
  }

  /** A callback moves its job from the pending to the executed ones. */
  lemma CallKeepsJobs(p: Pool, q: Pool, t: Tid)
    requires Jobs(p) && t in p.threads && p.threads[t].pc.WCall? && p.threads[t].sem == 0
    requires q == p.(executed := p.executed + [Done(p.threads[t].ticket, Ticket(t, p.threads[t].Stored()))])
                   .Put(t, p.threads[t].(pc := WLock))
    ensures Jobs(q)
  {
    var n := p.threads[t].ticket;
    assert Waiting(q.threads) == Waiting(p.threads) - {t};
    assert Genuine(p, Done(n, Ticket(t, p.threads[t].Stored()))) && !Executed(p, n);
    forall k: nat ensures Executed(q, k) <==> Executed(p, k) || k == n {
      if Executed(p, k) {
        var i :| 0 <= i < |p.executed| && p.executed[i].number == k;
        assert q.executed[i].number == k;
      }
      assert q.executed[|p.executed|].number == n;
    }
    forall k | 0 <= k < |q.accepted| ensures Executed(q, k) || AwaitsCall(q, k) {
      assert Executed(p, k) || AwaitsCall(p, k);
    }
    forall u | u in q.threads && q.threads[u].Pending() ensures !Executed(q, q.threads[u].ticket) {
      assert Genuine(p, Done(p.threads[u].ticket, Ticket(u, p.threads[u].Stored())));
    }
  }

  lemma WorkerKeepsPending(p: Pool, t: Tid)
    requires WorkerReady(p, t) && !p.threads[t].pc.WCall?
    requires p.threads[t].sem <= if p.threads[t].pc.WWait? then 1 else 0
    ensures SamePending(p, WorkerAfter(p, t))
  {
  }

  lemma WorkerKeepsJobs(p: Pool, t: Tid, inside: CPC)
    requires WorkerReady(p, t) && Places(p, inside) && Jobs(p)
    ensures Jobs(WorkerAfter(p, t))
  {
    var q := WorkerAfter(p, t);
    if p.threads[t].pc.WCall? {
      CallKeepsJobs(p, q, t);
    } else {
      WorkerKeepsPending(p, t);
      SameJobs(p, q);
    }
  }

  // ---- Any step

  lemma NewLetKeepsPool(p: Pool, l: Lid, inside: CPC)
    requires PoolInv(p, inside) && l !in p.lets
    ensures PoolInv(p.Link(l, None), inside)
  {
    SameJobs(p, p.Link(l, None));
  }

  lemma NewLetKeepsInv(s: State, l: Lid)
    requires Inv(s) && Enabled(s, NewLet(l))
    ensures Inv(Apply(s, NewLet(l)))
  {
    NewLetKeepsPool(s.p, l, Inside(s));
  }

  lemma CallKeepsMutex(s: State, a: Action)
    requires Mutex(s) && Enabled(s, a) && (a.CallRun? || a.CallDrop?)
    ensures Mutex(Apply(s, a)) && Inside(Apply(s, a)) == Inside(s)
  {
  }

  lemma CallKeepsLocal(s: State, a: Action)
    requires Local(s) && Enabled(s, a) && (a.CallRun? || a.CallDrop?)
    ensures Local(Apply(s, a))
  {
  }

  lemma CallKeepsInv(s: State, a: Action)
    requires Inv(s) && Enabled(s, a) && (a.CallRun? || a.CallDrop?)
    ensures Inv(Apply(s, a))
  {
    StepKeepsDiscipline(s, a);
    CallKeepsMutex(s, a);
    CallKeepsLocal(s, a);
  }

  lemma NoWorkerInside(s: State, c: Cid)
    requires Mutex(s) && c in s.clients && s.clients[c].Holding()
    ensures forall t :: t in s.p.threads ==> !s.p.threads[t].pc.WClear?
  {
  }

  /** The other clients still find what they rely on. */
  lemma ClientKeepsOthers(s: State, c: Cid, made: Tid, junk: Thread, d: Cid)
    requires Mutex(s) && Local(s) && Disciplined(s) && Enabled(s, Client(c, made, junk)) && d in s.clients && d != c
    ensures Relies(ClientAfter(s.p, s.clients[c], made, junk).0, s.clients[d])
  {
    assert Relies(s.p, s.clients[d]);
    assert !s.clients[d].Holding();
  }

  lemma ClientKeepsPool(p: Pool, pc: CPC, made: Tid, junk: Thread)
    requires ClientReady(p, pc, made) && PoolInv(p, In(pc)) && Relies(p, pc)
    requires pc.Holding() ==> forall t :: t in p.threads ==> !p.threads[t].pc.WClear?
    ensures PoolInv(ClientAfter(p, pc, made, junk).0, In(ClientAfter(p, pc, made, junk).1))
    ensures Relies(ClientAfter(p, pc, made, junk).0, ClientAfter(p, pc, made, junk).1)
  {
    ClientKeepsPlaces(p, pc, made, junk);
    ClientKeepsLets(p, pc, made, junk);
    ClientKeepsCallers(p, pc, made, junk);
    ClientKeepsUnused(p, pc, made, junk);
    ClientMeetsRelies(p, pc, made, junk);
    ClientKeepsJobs(p, pc, made, junk);
  }

  lemma ClientKeepsInv(s: State, c: Cid, made: Tid, junk: Thread)
    requires Inv(s) && Enabled(s, Client(c, made, junk))
    ensures Inv(Apply(s, Client(c, made, junk)))
  {
    ClientKeepsMutex(s, c, made, junk);
    StepKeepsDiscipline(s, Client(c, made, junk));
    assert Relies(s.p, s.clients[c]);
    if s.clients[c].Holding() {
      NoWorkerInside(s, c);
    }
    ClientKeepsPool(s.p, s.clients[c], made, junk);
    forall d | d in s.clients && d != c ensures Relies(Apply(s, Client(c, made, junk)).p, s.clients[d]) {
      ClientKeepsOthers(s, c, made, junk, d);
    }
  }

  lemma WorkerKeepsPool(p: Pool, t: Tid, inside: CPC)
    requires WorkerReady(p, t) && PoolInv(p, inside)
    requires p.threads[t].pc.Holding() ==> inside == CIdle
    requires inside == In(inside)
    ensures PoolInv(WorkerAfter(p, t), inside)
  {
    WorkerKeepsPlaces(p, t, inside);
    WorkerKeepsLinks(p, t, inside);
    WorkerKeepsUnused(p, t, inside);
    WorkerKeepsRelies(p, t, inside, inside);
    WorkerKeepsJobs(p, t, inside);
  }

  lemma WorkerKeepsInv(s: State, t: Tid)
    requires Inv(s) && Enabled(s, Worker(t))
    ensures Inv(Apply(s, Worker(t)))
  {
    WorkerKeepsMutex(s, t);
    StepKeepsDiscipline(s, Worker(t));
    WorkerKeepsPool(s.p, t, Inside(s));
    forall c | c in s.clients ensures Relies(Apply(s, Worker(t)).p, s.clients[c]) {
      WorkerKeepsRelies(s.p, t, Inside(s), s.clients[c]);
    }
  }

  lemma StepKeepsInv(s: State, a: Action)
    requires Inv(s) && Enabled(s, a)
    ensures Inv(Apply(s, a))
  {
    match a
    case Client(c, made, junk) => ClientKeepsInv(s, c, made, junk);
    case Worker(t) => WorkerKeepsInv(s, t);
    case NewLet(l) => NewLetKeepsInv(s, l);
    case _ => CallKeepsInv(s, a);
  }

  lemma {:induction false} RunKeepsInv(s: State, acts: seq<Action>)
    requires Inv(s) && CanRun(s, acts)
    ensures Inv(Exec(s, acts))
    decreases |acts|
  {
    if acts != [] {
      StepKeepsInv(s, acts[0]);
      RunKeepsInv(Apply(s, acts[0]), acts[1..]);
    }
  }

  lemma ReachableInv(s: State, acts: seq<Action>)
    requires Init(s) && CanRun(s, acts)
    ensures Inv(Exec(s, acts))
  {
    RunKeepsInv(s, acts);
  }
}
