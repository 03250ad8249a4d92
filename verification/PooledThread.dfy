/**
 The part of `CEZThreadManager` that recycles threads, with `run`, the destructor of `CEZThreadlet` and
 the round of a pooled thread, on linked objects.  Each method is a whole critical section; `Abs` reads
 the machine's data off the objects, and `PoolSections` has the steps of the machine that do the same.
 */
module PooledThread {
  import opened Options
  import opened PooledObjects
  import opened PoolMachine
  import opened PoolInvariant
  import opened PoolSections
  import opened Sequences

  ghost function At(s: seq<CEZPooledThread>, k: nat): CEZPooledThread?
  {
    if k < |s| then s[k] else null
  }

  class CEZThreadManager {
    var m_headPooled: CEZPooledThread?
    ghost var Idle: seq<CEZPooledThread>
    ghost var Threads: set<CEZPooledThread>
    ghost var Lets: set<CEZThreadlet>
    ghost var Accepted: seq<Ticket>
    ghost var Executed: seq<Done>

    ghost function ThreadRef(t: CEZPooledThread?): Option<Tid>
    {
      if t == null then None else Some(t)
    }

    ghost function LetRef(l: CEZThreadlet?): Option<Lid>
    {
      if l == null then None else Some(l)
    }

    ghost function Record(t: CEZPooledThread): Thread
      reads t`m_obj, t`m_asynFunc, t`m_param, t`m_caller, t`m_semaphore, t`pc, t`ticket
    {
      Thread(t.m_obj, t.m_asynFunc, t.m_param, LetRef(t.m_caller), t.m_semaphore, t.pc, t.ticket)
    }

    /** The data of the machine. */
    ghost function Abs(): Pool
      reads this`Idle, this`Threads, this`Lets, this`Accepted, this`Executed, Lets`m_thread
      reads Threads`m_obj, Threads`m_asynFunc, Threads`m_param, Threads`m_caller, Threads`m_semaphore
      reads Threads`pc, Threads`ticket
    {
      Pool(map l | l in Lets :: ThreadRef(l.m_thread), map t | t in Threads :: Record(t), Idle, Accepted, Executed)
    }

    /** The idle threads are a null-terminated list, each there once. */
    ghost predicate Stacked()
      reads this`m_headPooled, this`Idle, Idle`m_nextPooled
    {
      && Distinct(Idle)
      && m_headPooled == At(Idle, 0)
      && forall i {:trigger Idle[i].m_nextPooled} :: 0 <= i < |Idle| ==> Idle[i].m_nextPooled == At(Idle, i + 1)
    }

    /** Idle threads are unlinked and have nothing posted. */
    ghost predicate Rested()
      reads this`Idle, this`Threads, Idle`m_caller, Idle`m_semaphore
    {
      forall t :: t in Idle ==> t in Threads && t.m_caller == null && t.m_semaphore == 0
    }

    /** `L.m_thread` is `T` if and only if `T.m_caller` is `L`, and both are alive; `p` is left out. */
    ghost predicate MirroredBut(p: CEZPooledThread?)
      reads this`Threads, this`Lets, Threads`m_caller, Lets`m_thread
    {
      && (forall l :: l in Lets && l.m_thread != null ==> l.m_thread in Threads && l.m_thread.m_caller == l && l.m_thread != p)
      && (forall t :: t in Threads && t != p && t.m_caller != null ==> t.m_caller in Lets && t.m_caller.m_thread == t)
    }

    ghost predicate Valid()
      reads this`m_headPooled, this`Idle, this`Threads, this`Lets
      reads Idle`m_nextPooled, Idle`m_caller, Idle`m_semaphore, Threads`m_caller, Lets`m_thread
    {
      Stacked() && Rested() && MirroredBut(null)
    }

    /** In a reachable state of the machine, with `m_mutex` free, the objects are linked as `Valid` says. */
    lemma ReachableMeansLinked(clients: map<Cid, CPC>)
      requires Inv(State(Abs(), Free, clients))
      ensures Rested() && MirroredBut(null) && Distinct(Idle)
    {
      var p := Abs();
      assert Places(p, CIdle) && LetsLinked(p, CIdle) && CallersLinked(p) && UnusedUnlinked(p, CIdle);
      forall t | t in Idle ensures t in Threads && t.m_caller == null && t.m_semaphore == 0 {
        assert p.threads[t].Parked();
      }
      forall l | l in Lets && l.m_thread != null ensures l.m_thread in Threads && l.m_thread.m_caller == l {
        assert p.lets[l] == Some(l.m_thread);
      }
      forall t | t in Threads && t.m_caller != null ensures t.m_caller in Lets && t.m_caller.m_thread == t {
        assert p.threads[t].caller == Some(t.m_caller) && !p.threads[t].pc.Holding();
      }
    }

    constructor ()
      ensures Valid() && Abs() == Pool(map[], map[], [], [], [])
    {
      m_headPooled := null;
      Idle, Threads, Lets := [], {}, {};
      Accepted, Executed := [], [];
    }

    /** A thread from the stack, or else a new one. */
    method GetPooledThread() returns (p: CEZPooledThread)
      requires Valid()
      modifies this`m_headPooled, this`Idle, this`Threads
      ensures Stacked() && Rested() && MirroredBut(p) && p in Threads && p !in Idle && p.m_semaphore == 0
      ensures old(Idle) == [] ==> p.pc == WWait
      ensures if old(Idle) != [] then p == old(Idle)[0] && Idle == old(Idle)[1..] && Threads == old(Threads)
              else fresh(p) && Idle == [] && Threads == old(Threads) + {p}
    {
      if m_headPooled != null {
        p := m_headPooled;
        m_headPooled := p.m_nextPooled;
        Idle := Idle[1..];
      } else {
        p := new CEZPooledThread();
        Threads := Threads + {p};
      }
    }

    method ReleasePooledThread(pThread: CEZPooledThread)
      requires Valid() && pThread in Threads && pThread !in Idle
      requires pThread.m_caller == null && pThread.m_semaphore == 0
      modifies this`m_headPooled, this`Idle, pThread`m_nextPooled
      ensures Valid() && Idle == [pThread] + old(Idle)
      ensures Abs() == old(Abs()).(idle := [pThread] + old(Abs()).idle)
    {
      pThread.m_nextPooled := m_headPooled;
      m_headPooled := pThread;
      Idle := [pThread] + Idle;
    }

    /** `CEZThreadlet::run` gives the job to a pooled thread, unless the threadlet has one at work. */
    method run(l: CEZThreadlet, name: string, obj: nat, asynProc: nat, param: int, timeout: nat, now: nat)
      returns (ok: bool, ghost th: Thread)
      requires Valid() && l in Lets && timeout < WORD && now < WORD
      modifies this`m_headPooled, this`Idle, this`Threads, this`Accepted, l`m_thread, if Idle == [] then {} else {Idle[0]}
      ensures Valid() && (ok <==> old(l.m_thread) == null)
      ensures !ok ==> Abs() == old(Abs())
      ensures ok ==> l.m_thread != null && Abs() == Ran(old(Abs()), l, Job(obj, asynProc, param), l.m_thread, th)
      ensures ok ==> Threads == old(Threads) + {l.m_thread} && Idle == if old(Idle) == [] then [] else old(Idle)[1..]
      ensures ok && old(Idle) != [] ==> l.m_thread == old(Idle)[0] && th == old(Abs()).threads[l.m_thread]
      ensures ok && old(Idle) == [] ==> fresh(l.m_thread) && th.sem == 0 && th.pc == WWait
      ensures ok ==> Ready(l, Job(obj, asynProc, param)) && l.m_thread.m_strThreadName == name
      ensures ok ==> l.m_thread.m_expectedTime == if timeout > 0 && now + timeout < WORD then now + timeout else 0
      ensures !ok ==> forall t :: t in old(Threads) ==>
                t.m_strThreadName == old(t.m_strThreadName) && t.m_expectedTime == old(t.m_expectedTime)
    {
      if l.m_thread != null {
        return false, Thread(0, 0, 0, None, 0, WWait, 0);
      }
      var p;
      p, th := Prepare(l, name, timeout, now);
      Store(l, p, obj, asynProc, param);
      ok := true;
    }

    /** The thread is got and gets its name and timeout. */
    method Prepare(l: CEZThreadlet, name: string, timeout: nat, now: nat) returns (p: CEZPooledThread, ghost th: Thread)
      requires Valid() && l in Lets && l.m_thread == null && timeout < WORD && now < WORD
      modifies this`m_headPooled, this`Idle, this`Threads, l`m_thread, if Idle == [] then {} else {Idle[0]}
      ensures Stacked() && Rested() && MirroredWhileStored(l, p) && Abs() == Taken(old(Abs()), l, p, th)
      ensures l.m_thread == p && p in Threads && p !in Idle && p.m_semaphore == 0
      ensures Threads == old(Threads) + {p} && Idle == if old(Idle) == [] then [] else old(Idle)[1..]
      ensures old(Idle) != [] ==> p == old(Idle)[0] && th == old(Abs()).threads[p]
      ensures old(Idle) == [] ==> fresh(p) && th.sem == 0 && th.pc == WWait
      ensures p.m_strThreadName == name
      ensures p.m_expectedTime == if timeout > 0 && now + timeout < WORD then now + timeout else 0
    {
      p, th := Take(l);
      ghost var taken := Abs();
      Name(p, name, timeout, now);
      assert Abs() == taken;
    }

    /** `m_thread = g_ThreadManager.GetPooledThread()`. */
    method Take(l: CEZThreadlet) returns (p: CEZPooledThread, ghost th: Thread)
      requires Valid() && l in Lets && l.m_thread == null
      modifies this`m_headPooled, this`Idle, this`Threads, l`m_thread
      ensures Stacked() && Rested() && MirroredWhileStored(l, p) && Abs() == Taken(old(Abs()), l, p, th)
      ensures l.m_thread == p && p in Threads && p !in Idle && p.m_semaphore == 0
      ensures Threads == old(Threads) + {p} && Idle == if old(Idle) == [] then [] else old(Idle)[1..]
      ensures old(Idle) != [] ==> p == old(Idle)[0] && th == old(Abs()).threads[p]
      ensures old(Idle) == [] ==> fresh(p) && th.sem == 0 && th.pc == WWait
    {
      p := GetPooledThread();
      th := Record(p);
      l.m_thread := p;
      assert Abs().lets == old(Abs()).lets[l := Some(p)];
      assert Abs().threads == old(Abs()).threads[p := th];
    }

    /** `SetThreadName` and `SetTimeout`, which the hand-off does not depend on. */
    method Name(t: CEZPooledThread, name: string, timeout: nat, now: nat)
      requires timeout < WORD && now < WORD
      modifies t`m_strThreadName, t`m_expectedTime
      ensures t.m_strThreadName == name
      ensures t.m_expectedTime == if timeout > 0 && now + timeout < WORD then now + timeout else 0
    {
      t.m_strThreadName := name;
      t.SetTimeout(timeout, now);
    }

    /** The stores into the thread got, and the post. */
    method Store(l: CEZThreadlet, p: CEZPooledThread, obj: nat, asynProc: nat, param: int)
      requires Stacked() && Rested() && l in Lets && l.m_thread == p && p in Threads && p !in Idle && p.m_semaphore == 0
      requires MirroredWhileStored(l, p)
      modifies this`Accepted, p`m_obj, p`m_asynFunc, p`m_param, p`m_caller, p`m_semaphore, p`ticket
      ensures Valid() && Ready(l, Job(obj, asynProc, param))
      ensures Abs() == Posted(old(Abs()), l, Job(obj, asynProc, param), p)
    {
      p.m_obj := obj;
      p.m_asynFunc := asynProc;
      p.m_param := param;
      p.m_caller := l;
      p.m_semaphore := p.m_semaphore + 1;
      p.ticket := |Accepted|;
      Accepted := Accepted + [Ticket(p, Job(obj, asynProc, param))];
      assert Abs().lets == old(Abs()).lets;
      assert Abs().threads == old(Abs()).threads[p := Record(p)];
    }

    /** All links mirror each other, but that of `l` to `p` does not yet. */
    ghost predicate MirroredWhileStored(l: CEZThreadlet, p: CEZPooledThread)
      reads this`Threads, this`Lets, Threads`m_caller, Lets`m_thread
    {
      && (forall m :: m in Lets && m != l && m.m_thread != null ==> m.m_thread in Threads && m.m_thread.m_caller == m && m.m_thread != p)
      && (forall t :: t in Threads && t != p && t.m_caller != null ==> t.m_caller in Lets && t.m_caller.m_thread == t)
    }

    /** The thread of `l` holds `job`, with one token to start on it. */
    ghost predicate Ready(l: CEZThreadlet, job: Job)
      reads this`Threads, this`Idle, l, l.m_thread
    {
      && l.m_thread != null && l.m_thread in Threads && l.m_thread !in Idle && l.m_thread.m_caller == l
      && l.m_thread.m_semaphore == 1
      && Job(l.m_thread.m_obj, l.m_thread.m_asynFunc, l.m_thread.m_param) == job
    }

    /** `~CEZThreadlet`: the thread at work for it, if any, forgets it. */
    method Destroy(l: CEZThreadlet)
      requires Valid() && l in Lets
      modifies this`Lets, Threads`m_caller
      ensures Valid() && Abs() == Dropped(old(Abs()), l)
      ensures Lets == old(Lets) - {l}
      ensures forall t :: t in Threads ==> t.m_caller == if old(t.m_caller) == l then null else old(t.m_caller)
    {
      Forget(l);
      Lets := Lets - {l};
      assert Abs().lets == old(Abs()).lets - {l};
    }

    /** The body of the destructor. */
    method Forget(l: CEZThreadlet)
      requires Valid() && l in Lets
      modifies Threads`m_caller
      ensures forall t :: t in Threads ==> t.m_caller == if t == l.m_thread then null else old(t.m_caller)
      ensures Abs() == Forgotten(old(Abs()), l)
    {
      if l.m_thread != null {
        l.m_thread.m_caller := null;
      }
    }

    /** The part of `ThreadProc` under `m_mutex`. */
    method Unlink(t: CEZPooledThread)
      requires Valid() && t in Threads
      modifies t`m_caller, Lets`m_thread
      ensures Valid() && t.m_caller == null && Abs() == Released(old(Abs()), t)
      ensures forall m :: m in Lets ==> m.m_thread == if old(m.m_thread) == t then null else old(m.m_thread)
    {
      if t.m_caller != null {
        t.m_caller.m_thread := null;
        t.m_caller := null;
      }
      assert Abs().threads == old(Abs()).threads[t := Record(t)];
    }

    /** One round of `ThreadProc` when nobody comes in between; `job` is what the callback gets. */
    method Work(t: CEZPooledThread, now: nat) returns (job: Job)
      requires Valid() && t in Threads && t.m_semaphore == 1 && now < WORD
      modifies this`m_headPooled, this`Idle, this`Executed, Lets`m_thread
      modifies t`m_semaphore, t`m_strThreadName, t`m_expectedTime, t`m_caller, t`m_nextPooled
      ensures Valid() && Abs() == Worked(old(Abs()), t) && job == old(Abs()).threads[t].Stored()
      ensures Idle == [t] + old(Idle)
      ensures forall m :: m in Lets ==> m.m_thread == if old(m.m_thread) == t then null else old(m.m_thread)
      ensures t.m_strThreadName == "Pooled" && t.m_expectedTime == 0
    {
      job := Callback(t);
      Finish(t, now);
    }

    /** What follows the callback. */
    method Finish(t: CEZPooledThread, now: nat)
      requires Valid() && t in Threads && t !in Idle && t.m_semaphore == 0 && now < WORD
      modifies this`m_headPooled, this`Idle, Lets`m_thread
      modifies t`m_strThreadName, t`m_expectedTime, t`m_caller, t`m_nextPooled
      ensures Valid() && Abs() == Returned(old(Abs()), t) && Idle == [t] + old(Idle)
      ensures forall m :: m in Lets ==> m.m_thread == if old(m.m_thread) == t then null else old(m.m_thread)
      ensures t.m_strThreadName == "Pooled" && t.m_expectedTime == 0
    {
      Rename(t, "Pooled", 0, now);
      Return(t);
    }

    /** The same for a thread of the pool. */
    method Rename(t: CEZPooledThread, name: string, timeout: nat, now: nat)
      requires Valid() && t in Threads && timeout < WORD && now < WORD
      modifies t`m_strThreadName, t`m_expectedTime
      ensures Valid() && Abs() == old(Abs()) && t.m_strThreadName == name
      ensures t.m_expectedTime == if timeout > 0 && now + timeout < WORD then now + timeout else 0
    {
      Name(t, name, timeout, now);
    }

    /** The end of the round: unlinked, and back on the stack. */
    method Return(t: CEZPooledThread)
      requires Valid() && t in Threads && t !in Idle && t.m_semaphore == 0
      modifies this`m_headPooled, this`Idle, t`m_caller, t`m_nextPooled, Lets`m_thread
      ensures Valid() && Abs() == Returned(old(Abs()), t) && Idle == [t] + old(Idle)
      ensures forall m :: m in Lets ==> m.m_thread == if old(m.m_thread) == t then null else old(m.m_thread)
    {
      Unlink(t);
      ReleasePooledThread(t);
    }

    /** The wait, and the callback with what the fields hold. */
    method Callback(t: CEZPooledThread) returns (job: Job)
      requires Valid() && t in Threads && t.m_semaphore == 1
      modifies this`Executed, t`m_semaphore
      ensures Valid() && t !in Idle && t.m_semaphore == 0 && job == old(Abs()).threads[t].Stored()
      ensures Abs() == Called(old(Abs()), t)
    {
      t.m_semaphore := t.m_semaphore - 1;
      job := Job(t.m_obj, t.m_asynFunc, t.m_param);
      Executed := Executed + [Done(t.ticket, Ticket(t, job))];
    }

    /** A new threadlet. */
    method NewThreadlet() returns (l: CEZThreadlet)
      requires Valid()
      modifies this`Lets
      ensures Valid() && fresh(l) && Lets == old(Lets) + {l} && Abs() == old(Abs()).Link(l, None)
    {
      l := new CEZThreadlet();
      Lets := Lets + {l};
    }

    /**
     A job handed over and worked off comes out as it went in, and leaves the threadlet free and the
     stack as it was, or with just the thread that had to be created.
     */
    method RunAndWork(l: CEZThreadlet, name: string, obj: nat, asynProc: nat, param: int, timeout: nat, now: nat)
      returns (ok: bool, job: Job)
      requires Valid() && l in Lets && timeout < WORD && now < WORD
      modifies this`m_headPooled, this`Idle, this`Threads, this`Accepted, this`Executed, Lets`m_thread, Threads
      ensures Valid() && (ok <==> old(l.m_thread) == null)
      ensures ok ==> job == Job(obj, asynProc, param) && l.m_thread == null
      ensures ok && old(Idle) != [] ==> Idle == old(Idle) && Threads == old(Threads)
      ensures ok && old(Idle) == [] ==> |Idle| == 1 && Threads == old(Threads) + {Idle[0]} && fresh(Idle[0])
      ensures Lets == old(Lets) && forall m :: m in Lets && m != l ==> m.m_thread == old(m.m_thread)
    {
      ghost var th;
      ok, th := run(l, name, obj, asynProc, param, timeout, now);
      job := Job(obj, asynProc, param);
      if ok {
        job := WorkFor(l, now);
      }
    }

    /** The round of the thread that has a job for `l`. */
    method WorkFor(l: CEZThreadlet, now: nat) returns (job: Job)
      requires Valid() && l in Lets && l.m_thread != null && l.m_thread.m_semaphore == 1 && now < WORD
      modifies this`m_headPooled, this`Idle, this`Executed, Lets`m_thread, Threads
      ensures Valid() && l.m_thread == null && Idle == [old(l.m_thread)] + old(Idle)
      ensures job == old(Job(l.m_thread.m_obj, l.m_thread.m_asynFunc, l.m_thread.m_param))
      ensures forall m :: m in Lets && m != l ==> m.m_thread == old(m.m_thread)
    {
      job := Work(l.m_thread, now);
    }
  }
}
