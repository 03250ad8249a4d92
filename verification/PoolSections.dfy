/**
 The critical sections of the hand-off as one piece: what the machine makes of `run`, of the
 destructor and of a worker's round when the steps of one client or worker follow one another.
 */
module PoolSections {
  import opened Options
  import opened PooledObjects
  import opened PoolMachine

  // ---- The effect of each section

  /** `l` gets the thread `t`, the first on the stack or a new one, whose fields are `th`. */
  function Taken(p: Pool, l: Lid, t: Tid, th: Thread): Pool
  {
    p.(lets := p.lets[l := Some(t)], threads := p.threads[t := th], idle := if p.idle == [] then [] else p.idle[1..])
  }

  /** `t` holds `job` for `l`, with one token more. */
  function Posted(p: Pool, l: Lid, job: Job, t: Tid): Pool
    requires t in p.threads
  {
    var th := p.threads[t];
    p.(threads := p.threads[t := Thread(job.obj, job.func, job.param, Some(l), th.sem + 1, th.pc, |p.accepted|)],
       accepted := p.accepted + [Ticket(t, job)])
  }

  /** `l` gives `job` to `t`, which had the fields `th`. */
  function Ran(p: Pool, l: Lid, job: Job, t: Tid, th: Thread): Pool
  {
    Posted(Taken(p, l, t, th), l, job, t)
  }

  /** The thread at work for `l`, if any, forgets it. */
  function Forgotten(p: Pool, l: Lid): Pool
    requires l in p.lets && (p.lets[l].Some? ==> p.lets[l].value in p.threads)
  {
    if p.lets[l].None? then p
    else p.(threads := p.threads[p.lets[l].value := p.threads[p.lets[l].value].(caller := None)])
  }

  /** `l` is destroyed. */
  function Dropped(p: Pool, l: Lid): Pool
    requires l in p.lets && (p.lets[l].Some? ==> p.lets[l].value in p.threads)
  {
    Forgotten(p, l).(lets := p.lets - {l})
  }

  /** `t` and its caller, if any, let go of each other. */
  function Released(p: Pool, t: Tid): Pool
    requires t in p.threads
  {
    var th := p.threads[t];
    p.(lets := if th.caller.Some? then p.lets[th.caller.value := None] else p.lets,
       threads := p.threads[t := th.(caller := None)])
  }

  /** `t` takes its token and calls the callback with the job it holds. */
  function Called(p: Pool, t: Tid): Pool
    requires t in p.threads && p.threads[t].sem > 0
  {
    var th := p.threads[t];
    p.(threads := p.threads[t := th.(sem := th.sem - 1)],
       executed := p.executed + [Done(th.ticket, Ticket(t, th.Stored()))])
  }

  /** `t` is unlinked and goes back on the stack. */
  function Returned(p: Pool, t: Tid): Pool
    requires t in p.threads
  {
    var q := Released(p, t);
    q.(idle := [t] + q.idle)
  }

  /** `t` works off its job and goes back on the stack. */
  function Worked(p: Pool, t: Tid): Pool
    requires t in p.threads && p.threads[t].sem > 0
  {
    Returned(Called(p, t), t)
  }

  // ---- Runs

  ghost predicate Leads(s: State, acts: seq<Action>, r: State)
  {
    CanRun(s, acts) && Exec(s, acts) == r
  }

  lemma {:induction false} ThenStep(s: State, acts: seq<Action>, r: State, a: Action)
    requires Leads(s, acts, r) && Enabled(r, a)
    ensures Leads(s, acts + [a], Apply(r, a))
    decreases |acts|
  {
    if acts == [] {
      assert [a][1..] == [];
    } else {
      ThenStep(Apply(s, acts[0]), acts[1..], r, a);
      assert (acts + [a])[1..] == acts[1..] + [a];
    }
  }

  /** A step of a client inside the mutex. */
  lemma ThenClient(s: State, was: seq<Action>, r: State, clients: map<Cid, CPC>, c: Cid, pc: CPC, made: Tid, junk: Thread)
    returns (acts: seq<Action>)
    requires Leads(s, was, r) && c in clients && r.clients == clients[c := pc]
    requires ClientReady(r.p, pc, made) && !pc.RunLock? && !pc.DropLock?
    ensures Leads(s, acts, State(ClientAfter(r.p, pc, made, junk).0, if ClientUnlocks(pc) then Free else r.owner,
                                 clients[c := ClientAfter(r.p, pc, made, junk).1]))
  {
    var a := Client(c, made, junk);
    ThenStep(s, was, r, a);
    acts := was + [a];
    assert Apply(r, a).clients == clients[c := ClientAfter(r.p, pc, made, junk).1];
  }

  /** The lock and the step after it. */
  lemma Enters(s: State, c: Cid, made: Tid, junk: Thread) returns (acts: seq<Action>)
    requires s.owner == Free && c in s.clients && (s.clients[c].RunLock? || s.clients[c].DropLock?)
    ensures Leads(s, acts, State(s.p, ByClient(c), s.clients[c := ClientAfter(s.p, s.clients[c], made, junk).1]))
  {
    var a := Client(c, made, junk);
    assert [a][1..] == [];
    acts := [a];
  }

  /** `run` in one piece, on a threadlet with a thread at work. */
  lemma RunRefused(s: State, c: Cid, l: Lid, job: Job, made: Tid, junk: Thread) returns (acts: seq<Action>)
    requires s.owner == Free && c in s.clients && s.clients[c] == RunLock(l, job)
    requires l in s.p.lets && s.p.lets[l].Some?
    ensures Leads(s, acts, s.(clients := s.clients[c := CIdle]))
  {
    acts := Enters(s, c, made, junk);
    acts := ThenClient(s, acts, State(s.p, ByClient(c), s.clients[c := RunCheck(l, job)]), s.clients, c, RunCheck(l, job), made, junk);
    acts := ThenClient(s, acts, State(s.p, ByClient(c), s.clients[c := RunUnlock(false)]), s.clients, c, RunUnlock(false), made, junk);
  }

  /** `run` up to the thread it gets. */
  lemma RunGets(s: State, c: Cid, l: Lid, job: Job, made: Tid, junk: Thread) returns (acts: seq<Action>, t: Tid, p: Pool)
    requires s.owner == Free && c in s.clients && s.clients[c] == RunLock(l, job)
    requires l in s.p.lets && s.p.lets[l] == None && (s.p.idle == [] ==> made !in s.p.threads)
    ensures Leads(s, acts, State(p, ByClient(c), s.clients[c := SetObj(l, job, t)]))
    ensures if s.p.idle == []
            then t == made && p == s.p.Put(made, junk.(sem := 0, pc := WWait)).Link(l, Some(t))
            else t == s.p.idle[0] && p == s.p.(idle := s.p.idle[1..]).Link(l, Some(t))
  {
    acts := Enters(s, c, made, junk);
    acts := ThenClient(s, acts, State(s.p, ByClient(c), s.clients[c := RunCheck(l, job)]), s.clients, c, RunCheck(l, job), made, junk);
    acts := ThenClient(s, acts, State(s.p, ByClient(c), s.clients[c := RunGet(l, job)]), s.clients, c, RunGet(l, job), made, junk);
    t := if s.p.idle == [] then made else s.p.idle[0];
    p := ClientAfter(s.p, RunGet(l, job), made, junk).0;
  }

  /** The four stores. */
  lemma RunFills(s: State, was: seq<Action>, p: Pool, clients: map<Cid, CPC>, c: Cid, l: Lid, job: Job, t: Tid)
    returns (acts: seq<Action>)
    requires c in clients && t in p.threads && Leads(s, was, State(p, ByClient(c), clients[c := SetObj(l, job, t)]))
    ensures Leads(s, acts, State(p.Put(t, p.threads[t].(obj := job.obj, func := job.func, param := job.param, caller := Some(l))),
                                 ByClient(c), clients[c := RunPost(l, job, t)]))
  {
    var th := p.threads[t];
    var th1, th2 := th.(obj := job.obj), th.(obj := job.obj, func := job.func);
    var th3 := th2.(param := job.param);
    acts := ThenClient(s, was, State(p, ByClient(c), clients[c := SetObj(l, job, t)]), clients, c, SetObj(l, job, t), t, th);
    acts := ThenClient(s, acts, State(p.Put(t, th1), ByClient(c), clients[c := SetFunc(l, job, t)]), clients, c, SetFunc(l, job, t), t, th);
    assert p.Put(t, th1).Put(t, th2) == p.Put(t, th2);
    acts := ThenClient(s, acts, State(p.Put(t, th2), ByClient(c), clients[c := SetParam(l, job, t)]), clients, c, SetParam(l, job, t), t, th);
    assert p.Put(t, th2).Put(t, th3) == p.Put(t, th3);
    acts := ThenClient(s, acts, State(p.Put(t, th3), ByClient(c), clients[c := SetCaller(l, job, t)]), clients, c, SetCaller(l, job, t), t, th);
    assert p.Put(t, th3).Put(t, th3.(caller := Some(l))) == p.Put(t, th3.(caller := Some(l)));
  }

  /** The post and the unlock. */
  lemma RunPosts(s: State, was: seq<Action>, p: Pool, clients: map<Cid, CPC>, c: Cid, l: Lid, job: Job, t: Tid)
    returns (acts: seq<Action>)
    requires c in clients && t in p.threads && Leads(s, was, State(p, ByClient(c), clients[c := RunPost(l, job, t)]))
    requires p.threads[t].Stored() == job && p.threads[t].caller == Some(l)
    ensures Leads(s, acts, State(Posted(p, l, job, t), Free, clients[c := CIdle]))
  {
    var th := p.threads[t];
    acts := ThenClient(s, was, State(p, ByClient(c), clients[c := RunPost(l, job, t)]), clients, c, RunPost(l, job, t), t, th);
    acts := ThenClient(s, acts, State(Posted(p, l, job, t), ByClient(c), clients[c := RunUnlock(true)]),
                       clients, c, RunUnlock(true), t, th);
  }

  /** `run` in one piece, on a threadlet without a thread at work. */
  lemma RunSection(s: State, c: Cid, l: Lid, job: Job, made: Tid, junk: Thread) returns (acts: seq<Action>, t: Tid)
    requires s.owner == Free && c in s.clients && s.clients[c] == RunLock(l, job)
    requires l in s.p.lets && s.p.lets[l] == None && (s.p.idle == [] ==> made !in s.p.threads)
    requires s.p.idle != [] ==> s.p.idle[0] in s.p.threads
    ensures t == if s.p.idle == [] then made else s.p.idle[0]
    ensures var th := if s.p.idle == [] then junk.(sem := 0, pc := WWait) else s.p.threads[t];
            Leads(s, acts, State(Ran(s.p, l, job, t, th), Free, s.clients[c := CIdle]))
  {
    var p;
    acts, t, p := RunGets(s, c, l, job, made, junk);
    var th := if s.p.idle == [] then junk.(sem := 0, pc := WWait) else s.p.threads[t];
    assert p == Taken(s.p, l, t, th);
    acts := RunFills(s, acts, p, s.clients, c, l, job, t);
    var q := p.Put(t, th.(obj := job.obj, func := job.func, param := job.param, caller := Some(l)));
    acts := RunPosts(s, acts, q, s.clients, c, l, job, t);
    assert Posted(q, l, job, t) == Posted(p, l, job, t);
  }

  /** The destructor in one piece. */
  lemma DropSection(s: State, c: Cid, l: Lid, made: Tid, junk: Thread) returns (acts: seq<Action>)
    requires s.owner == Free && c in s.clients && s.clients[c] == DropLock(l) && l in s.p.lets
    requires s.p.lets[l].Some? ==> s.p.lets[l].value in s.p.threads
    ensures Leads(s, acts, State(Dropped(s.p, l), Free, s.clients[c := CIdle]))
  {
    acts := Enters(s, c, made, junk);
    acts := ThenClient(s, acts, State(s.p, ByClient(c), s.clients[c := Drop(l)]), s.clients, c, Drop(l), made, junk);
    var p := ClientAfter(s.p, Drop(l), made, junk).0;
    acts := ThenClient(s, acts, State(p, ByClient(c), s.clients[c := DropUnlock(l)]), s.clients, c, DropUnlock(l), made, junk);
  }

  // ---- A worker's round

  /** A step of a worker that neither takes nor returns the mutex. */
  lemma ThenWorker(s: State, was: seq<Action>, r: State, t: Tid) returns (acts: seq<Action>)
    requires Leads(s, was, r) && WorkerReady(r.p, t) && (r.p.threads[t].pc.WLock? ==> r.owner == Free)
    ensures var pc := r.p.threads[t].pc;
            Leads(s, acts, r.(p := WorkerAfter(r.p, t),
                              owner := if pc.WLock? then ByWorker(t) else if pc.WUnlock? then Free else r.owner))
  {
    ThenStep(s, was, r, Worker(t));
    acts := was + [Worker(t)];
  }

  /** The wait and the callback. */
  lemma WorkBegins(s: State, t: Tid) returns (acts: seq<Action>)
    requires t in s.p.threads && s.p.threads[t].pc == WWait && s.p.threads[t].sem > 0
    ensures var th := s.p.threads[t];
            Leads(s, acts, s.(p := s.p.(threads := s.p.threads[t := th.(sem := th.sem - 1, pc := WLock)],
                                        executed := s.p.executed + [Done(th.ticket, Ticket(t, th.Stored()))])))
  {
    acts := ThenWorker(s, [], s, t);
    var r := s.(p := WorkerAfter(s.p, t));
    acts := ThenWorker(s, acts, r, t);
    assert WorkerAfter(r.p, t).threads == s.p.threads[t := s.p.threads[t].(sem := s.p.threads[t].sem - 1, pc := WLock)];
  }

  /** The section under `m_mutex` up to its unlock. */
  lemma WorkUnlinks(s: State, was: seq<Action>, r: State, t: Tid) returns (acts: seq<Action>)
    requires Leads(s, was, r) && r.owner == ByWorker(t) && t in r.p.threads && r.p.threads[t].pc == WTest
    requires r.p.threads[t].caller.Some? ==> r.p.threads[t].caller.value in r.p.lets
    ensures var q := Released(r.p, t);
            Leads(s, acts, r.(p := q.Put(t, q.threads[t].(pc := WUnlock))))
  {
    acts := ThenWorker(s, was, r, t);
    var p := WorkerAfter(r.p, t);
    if r.p.threads[t].caller.Some? {
      acts := ThenWorker(s, acts, r.(p := p), t);
      p := WorkerAfter(p, t);
    }
    assert p == Released(r.p, t).Put(t, r.p.threads[t].(caller := None, pc := WUnlock));
  }

  /** A worker's whole round. */
  lemma WorkSection(s: State, t: Tid) returns (acts: seq<Action>)
    requires s.owner == Free && t in s.p.threads && s.p.threads[t].pc == WWait && s.p.threads[t].sem > 0
    requires s.p.threads[t].caller.Some? ==> s.p.threads[t].caller.value in s.p.lets
    ensures Leads(s, acts, s.(p := Worked(s.p, t)))
  {
    acts := WorkBegins(s, t);
    var th := s.p.threads[t];
    var p := s.p.(threads := s.p.threads[t := th.(sem := th.sem - 1, pc := WLock)],
                  executed := s.p.executed + [Done(th.ticket, Ticket(t, th.Stored()))]);
    acts := ThenWorker(s, acts, s.(p := p), t);
    var p1 := WorkerAfter(p, t);
    acts := WorkUnlinks(s, acts, s.(p := p1, owner := ByWorker(t)), t);
    var p2 := Released(p1, t).Put(t, th.(sem := th.sem - 1, caller := None, pc := WUnlock));
    acts := ThenWorker(s, acts, s.(p := p2, owner := ByWorker(t)), t);
    var p3 := WorkerAfter(p2, t);
    acts := ThenWorker(s, acts, s.(p := p3), t);
    assert WorkerAfter(p3, t) == Worked(s.p, t);
  }
}
