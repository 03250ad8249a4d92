/**
 The hand-off of jobs to pooled threads under any interleaving of clients and workers.  A client in
 `CEZThreadlet::run` or the destructor, and a worker in `CEZPooledThread::ThreadProc`, moves from
 one program point to the next.  `CEZThreadlet::m_mutex` is explicit; the thread manager's own
 mutex covers `GetPooledThread` and `ReleasePooledThread`, which are one step each.
 */
module PoolMachine {
  import opened Options
  import opened PooledObjects

  type Tid = CEZPooledThread
  type Lid = CEZThreadlet
  type Cid = nat

  datatype Job = Job(obj: nat, func: nat, param: int)

  datatype Thread = Thread(
    obj: nat, func: nat, param: int,
    caller: Option<Lid>,
    sem: nat,
    pc: WPC,
    ticket: nat)      // history: the number of the job posted last
  {
    function Stored(): Job
    {
      Job(obj, func, param)
    }

    /** Waiting, with nothing posted. */
    predicate Parked()
    {
      pc.WWait? && sem == 0
    }

    /** A posted job that has not been called. */
    predicate Pending()
    {
      sem > 0 || pc.WCall?
    }

    /** From the post until `m_caller` is cleared. */
    predicate InUse()
    {
      sem > 0 || pc.WCall? || pc.WLock? || pc.WTest? || pc.WClear?
    }
  }

  /** Where a client stands: `l` is the threadlet, `t` the pooled thread it has got. */
  datatype CPC =
    | CIdle
    | RunLock(l: Lid, job: Job) | RunCheck(l: Lid, job: Job) | RunGet(l: Lid, job: Job)
    | SetObj(l: Lid, job: Job, t: Tid) | SetFunc(l: Lid, job: Job, t: Tid) | SetParam(l: Lid, job: Job, t: Tid)
    | SetCaller(l: Lid, job: Job, t: Tid) | RunPost(l: Lid, job: Job, t: Tid)
    | RunUnlock(ok: bool)
    | DropLock(l: Lid) | Drop(l: Lid) | DropUnlock(l: Lid)
  {
    predicate Holding()
    {
      !CIdle? && !RunLock? && !DropLock?
    }

    /** Filling the fields of a thread that nobody else refers to. */
    predicate Filling()
    {
      SetObj? || SetFunc? || SetParam? || SetCaller? || RunPost?
    }

    predicate Dropping()
    {
      DropLock? || Drop? || DropUnlock?
    }

    predicate Uses(x: Lid)
    {
      !CIdle? && !RunUnlock? && l == x
    }
  }

  datatype Owner = Free | ByClient(c: Cid) | ByWorker(w: Tid)

  /** An accepted `run`, and an executed callback with the number of the job it ran. */
  datatype Ticket = Ticket(thread: Tid, job: Job)
  datatype Done = Done(number: nat, ticket: Ticket)

  datatype Pool = Pool(
    lets: map<Lid, Option<Tid>>,    // the live threadlets and their `m_thread`
    threads: map<Tid, Thread>,
    idle: seq<Tid>,                 // the stack `m_headPooled`
    accepted: seq<Ticket>,          // history: every `run` that returned TRUE
    executed: seq<Done>)            // history: every callback
  {
    function Put(t: Tid, th: Thread): Pool
    {
      this.(threads := threads[t := th])
    }

    function Link(l: Lid, t: Option<Tid>): Pool
    {
      this.(lets := lets[l := t])
    }
  }

  datatype State = State(p: Pool, owner: Owner, clients: map<Cid, CPC>)

  datatype Action =
    | NewLet(l: Lid)
    | CallRun(c: Cid, l: Lid, job: Job)
    | CallDrop(c: Cid, l: Lid)
    | Client(c: Cid, made: Tid, junk: Thread)   // for a thread created by this step
    | Worker(w: Tid)

  // ---- Steps of a client

  predicate ClientReady(p: Pool, pc: CPC, made: Tid)
  {
    && !pc.CIdle?
    && (pc.RunCheck? || pc.RunGet? || pc.Drop? || pc.DropUnlock? ==> pc.l in p.lets)
    && (pc.RunGet? && p.idle == [] ==> made !in p.threads)
    && (pc.Filling() ==> pc.t in p.threads)
    && (pc.Drop? && p.lets[pc.l].Some? ==> p.lets[pc.l].value in p.threads)
  }

  function ClientAfter(p: Pool, pc: CPC, made: Tid, junk: Thread): (Pool, CPC)
    requires ClientReady(p, pc, made)
  {
    match pc
    case RunLock(l, job) => (p, RunCheck(l, job))
    case RunCheck(l, job) => (p, if p.lets[l].Some? then RunUnlock(false) else RunGet(l, job))
    case RunGet(l, job) =>
      if p.idle != [] then
        (p.(idle := p.idle[1..]).Link(l, Some(p.idle[0])), SetObj(l, job, p.idle[0]))
      else
        (p.Put(made, junk.(sem := 0, pc := WWait)).Link(l, Some(made)), SetObj(l, job, made))
    case SetObj(l, job, t) => (p.Put(t, p.threads[t].(obj := job.obj)), SetFunc(l, job, t))
    case SetFunc(l, job, t) => (p.Put(t, p.threads[t].(func := job.func)), SetParam(l, job, t))
    case SetParam(l, job, t) => (p.Put(t, p.threads[t].(param := job.param)), SetCaller(l, job, t))
    case SetCaller(l, job, t) => (p.Put(t, p.threads[t].(caller := Some(l))), RunPost(l, job, t))
    case RunPost(l, job, t) =>
      var th := p.threads[t];
      (p.(accepted := p.accepted + [Ticket(t, job)]).Put(t, th.(sem := th.sem + 1, ticket := |p.accepted|)),
       RunUnlock(true))
    case RunUnlock(_) => (p, CIdle)
    case DropLock(l) => (p, Drop(l))
    case Drop(l) =>
      (if p.lets[l].None? then p else p.Put(p.lets[l].value, p.threads[p.lets[l].value].(caller := None)),
       DropUnlock(l))
    case DropUnlock(l) => (p.(lets := p.lets - {l}), CIdle)
  }

  predicate ClientUnlocks(pc: CPC)
  {
    pc.RunUnlock? || pc.DropUnlock?
  }

  // ---- Steps of a worker

  predicate WorkerReady(p: Pool, t: Tid)
  {
    && t in p.threads
    && (p.threads[t].pc.WWait? ==> p.threads[t].sem > 0)
    && (p.threads[t].pc.WTest? && p.threads[t].caller.Some? ==> p.threads[t].caller.value in p.lets)
  }

  function WorkerAfter(p: Pool, t: Tid): Pool
    requires WorkerReady(p, t)
  {
    var th := p.threads[t];
    match th.pc
    case WWait => p.Put(t, th.(sem := th.sem - 1, pc := WCall))
    case WCall =>
      p.(executed := p.executed + [Done(th.ticket, Ticket(t, th.Stored()))]).Put(t, th.(pc := WLock))
    case WLock => p.Put(t, th.(pc := WTest))
    case WTest =>
      if th.caller.Some? then p.Link(th.caller.value, None).Put(t, th.(pc := WClear))
      else p.Put(t, th.(pc := WUnlock))
    case WClear => p.Put(t, th.(caller := None, pc := WUnlock))
    case WUnlock => p.Put(t, th.(pc := WRelease))
    case WRelease => p.(idle := [t] + p.idle).Put(t, th.(pc := WWait))
  }

  // ---- Interleaving

  /** Nobody uses a threadlet whose destructor has been called, and nobody destroys one in use. */
  predicate Enabled(s: State, a: Action)
  {
    match a
    case NewLet(l) => l !in s.p.lets
    case CallRun(c, l, _) =>
      && c in s.clients && s.clients[c] == CIdle && l in s.p.lets
      && forall d :: d in s.clients && s.clients[d].Dropping() ==> !s.clients[d].Uses(l)
    case CallDrop(c, l) =>
      && c in s.clients && s.clients[c] == CIdle && l in s.p.lets
      && forall d :: d in s.clients ==> !s.clients[d].Uses(l)
    case Client(c, made, _) =>
      && c in s.clients && ClientReady(s.p, s.clients[c], made)
      && (s.clients[c].RunLock? || s.clients[c].DropLock? ==> s.owner == Free)
    case Worker(t) =>
      WorkerReady(s.p, t) && (s.p.threads[t].pc.WLock? ==> s.owner == Free)
  }

  function Apply(s: State, a: Action): State
    requires Enabled(s, a)
  {
    match a
    case NewLet(l) => s.(p := s.p.Link(l, None))
    case CallRun(c, l, job) => s.(clients := s.clients[c := RunLock(l, job)])
    case CallDrop(c, l) => s.(clients := s.clients[c := DropLock(l)])
    case Client(c, made, junk) =>
      var pc := s.clients[c];
      var (p, pc') := ClientAfter(s.p, pc, made, junk);
      State(p, if pc.RunLock? || pc.DropLock? then ByClient(c) else if ClientUnlocks(pc) then Free else s.owner,
            s.clients[c := pc'])
    case Worker(t) =>
      var pc := s.p.threads[t].pc;
      s.(p := WorkerAfter(s.p, t), owner := if pc.WLock? then ByWorker(t) else if pc.WUnlock? then Free else s.owner)
  }

  predicate Init(s: State)
  {
    && s.p == Pool(map[], map[], [], [], []) && s.owner == Free
    && forall c :: c in s.clients ==> s.clients[c] == CIdle
  }

  predicate CanRun(s: State, acts: seq<Action>)
    decreases |acts|
  {
    acts == [] || (Enabled(s, acts[0]) && CanRun(Apply(s, acts[0]), acts[1..]))
  }

  function Exec(s: State, acts: seq<Action>): State
    requires CanRun(s, acts)
    decreases |acts|
  {
    if acts == [] then s else Exec(Apply(s, acts[0]), acts[1..])
  }
}
