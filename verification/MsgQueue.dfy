/**
 `CEZMsgQue` itself.  Each method up to `OtherStep` is one step of one thread and refines the step of
 the machine; `Run` follows any run of it, and the calls of the program's interface are built from the
 steps at the end, with the other threads running until the call gets the mutex.
 */
module MsgQueue {
  import opened Options
  import opened MsgMachine
  import opened MsgTheorems

  const MSG_On_UserData := 1

  /** `q` comes from `start` by popping `i` messages, whatever tokens went and came. */
  ghost predicate CutShort(start: Que, q: Que, i: nat)
  {
    && q.accepted == start.accepted && q.flag == start.flag && q.maxMsg == start.maxMsg
    && |q.taken| == |start.taken| + i && q.taken[..|start.taken|] == start.taken
  }

  /** What the other threads do while `t` is in a call. */
  ghost predicate OthersRun(s: State, t: Tid, others: seq<Action>)
  {
    CanRun(s, others) && forall i :: 0 <= i < |others| ==> others[i].t != t
  }

  /** The state when `t` has begun a call and the others have made their steps. */
  ghost function Amid(s: State, t: Tid, op: Op, others: seq<Action>): State
    requires Enabled(s, Call(t, op)) && OthersRun(Apply(s, Call(t, op)), t, others)
  {
    Exec(Apply(s, Call(t, op)), others)
  }

  lemma {:induction false} OthersLeaveAlone(s: State, t: Tid, others: seq<Action>)
    requires OthersRun(s, t, others) && t in s.pcs
    ensures t in Exec(s, others).pcs && Exec(s, others).pcs[t] == s.pcs[t]
    decreases |others|
  {
    if others != [] {
      OthersLeaveAlone(Apply(s, others[0]), t, others[1..]);
    }
  }

  class CEZMsgQue {
    var m_Queue: seq<Msg>
    var m_nMsg: int
    var m_nMaxMsg: int
    var m_bMsgFlg: bool
    var m_MutexMsg: Option<Tid>       // the thread that holds the mutex
    var m_CEZSemaphore: nat           // the value of the counting semaphore
    var Pcs: map<Tid, PC>             // where each thread stands
    var Accepted: seq<Msg>            // history
    var Popped: seq<Taken>            // history

    function Data(): Que
      reads this
    {
      Que(m_Queue, m_nMsg, m_nMaxMsg, m_bMsgFlg, m_CEZSemaphore, Accepted, Popped)
    }

    function Abs(): State
      reads this
    {
      State(Data(), m_MutexMsg, Pcs)
    }

    ghost predicate Valid()
      reads this
    {
      Inv(Abs())
    }

    /** Thread `t` may take its next step, which starts at `pc`. */
    ghost predicate At(t: Tid, pc: PC)
      reads this
    {
      Valid() && Enabled(Abs(), Step(t)) && Pcs[t] == pc
    }

    constructor (size: int, threads: set<Tid>)
      ensures Valid() && Init(Abs()) && m_nMaxMsg == size && Pcs.Keys == threads
      ensures m_Queue == [] && m_nMsg == 0 && m_bMsgFlg && m_CEZSemaphore == 0 && m_MutexMsg == None
    {
      m_nMaxMsg := size;
      m_nMsg := 0;
      m_bMsgFlg := true;
      m_Queue, m_MutexMsg, m_CEZSemaphore := [], None, 0;
      Pcs, Accepted, Popped := map t | t in threads :: Idle, [], [];
      new;
      InitInv(Abs());
    }

    /** `t` begins a call. */
    method Begin(t: Tid, op: Op)
      requires Valid() && Enabled(Abs(), Call(t, op))
      modifies this`Pcs
      ensures Valid() && Abs() == Apply(old(Abs()), Call(t, op))
    {
      StepKeepsInv(Abs(), Call(t, op));
      Pcs := Pcs[t := Entry(op)];
    }

    // ---- Mutex and semaphore

    method Lock(t: Tid)
      requires Valid() && t in Pcs && Pcs[t].WantsLock() && m_MutexMsg == None
      modifies this
      ensures Valid() && Abs() == Apply(old(Abs()), Step(t))
      ensures Data() == old(Data()) && m_MutexMsg == Some(t)
    {
      StepKeepsInv(Abs(), Step(t));
      var pc := After(Data(), Pcs[t]).1;
      m_MutexMsg := Some(t);
      Pcs := Pcs[t := pc];
    }

    method Unlock(t: Tid)
      requires Valid() && t in Pcs && Pcs[t].Unlocking()
      modifies this
      ensures Valid() && Abs() == Apply(old(Abs()), Step(t))
      ensures Data() == old(Data()) && m_MutexMsg == None
    {
      StepKeepsInv(Abs(), Step(t));
      var pc := After(Data(), Pcs[t]).1;
      m_MutexMsg := None;
      Pcs := Pcs[t := pc];
    }

    method Post(t: Tid)
      requires At(t, SendPost)
      modifies this
      ensures Valid() && Abs() == Apply(old(Abs()), Step(t))
      ensures Data() == old(Data()).Post() && m_MutexMsg == old(m_MutexMsg)
    {
      StepKeepsInv(Abs(), Step(t));
      ghost var r := Apply(Abs(), Step(t));
      m_CEZSemaphore := m_CEZSemaphore + 1;
      Pcs := Pcs[t := Idle];
      assert Abs() == r;
    }

    method Wait(t: Tid)
      requires Valid() && t in Pcs && Pcs[t].Waiting() && m_CEZSemaphore > 0
      modifies this
      ensures Valid() && Abs() == Apply(old(Abs()), Step(t))
      ensures Data() == old(Data()).Take() && m_MutexMsg == old(m_MutexMsg)
    {
      var r := Apply(Abs(), Step(t));
      StepKeepsInv(Abs(), Step(t));
      m_CEZSemaphore := m_CEZSemaphore - 1;
      Pcs := r.pcs;
      assert Abs() == r;
    }

    // ---- Inside the critical sections

    method CheckSend(t: Tid, m: Msg, priority: nat) returns (ok: bool)
      requires At(t, SendCheck(m, priority))
      modifies this
      ensures Valid() && Abs() == Apply(old(Abs()), Step(t))
      ensures Pcs[t] == if ok then SendPush(m) else SendRefused
    {
      StepKeepsInv(Abs(), Step(t));
      ok := false;
      if m_nMsg >= m_nMaxMsg {
      } else if priority >= MSG_PRIORITY {
      } else if !m_bMsgFlg {
      } else {
        ok := true;
      }
      Pcs := Pcs[t := if ok then SendPush(m) else SendRefused];
    }

    method PushFront(t: Tid, m: Msg)
      requires At(t, SendPush(m))
      modifies this
      ensures Valid() && Abs() == Apply(old(Abs()), Step(t))
      ensures m_Queue == [m] + old(m_Queue) && m_nMsg == old(m_nMsg) + 1 && Accepted == old(Accepted) + [m]
    {
      StepKeepsInv(Abs(), Step(t));
      m_Queue := [m] + m_Queue;
      m_nMsg := m_nMsg + 1;
      Accepted := Accepted + [m];
      Pcs := Pcs[t := SendUnlock];
    }

    method CheckRecv(t: Tid, wait: bool) returns (ok: bool)
      requires At(t, RecvCheck(wait))
      modifies this
      ensures Valid() && Abs() == Apply(old(Abs()), Step(t))
      ensures Data() == old(Data()) && m_MutexMsg == old(m_MutexMsg) && (ok <==> m_Queue != [])
      ensures Pcs == old(Pcs)[t := if !ok then RecvLeave(wait, None) else if wait then RecvPop(wait) else RecvSem]
    {
      StepKeepsInv(Abs(), Step(t));
      ok := m_Queue != [];
      Pcs := Pcs[t := After(Data(), RecvCheck(wait)).1];
    }

    /** `back`, `pop_back` and the counter. */
    method TakeBack(discarded: bool) returns (msg: Msg)
      requires m_Queue != []
      modifies this`m_Queue, this`m_nMsg, this`Popped
      ensures Data() == old(Data()).Pop(discarded) && msg == old(Data()).Oldest()
    {
      msg := m_Queue[|m_Queue| - 1];
      m_Queue := m_Queue[..|m_Queue| - 1];
      m_nMsg := m_nMsg - 1;
      Popped := Popped + [Taken(msg, discarded)];
    }

    /** The `assert(m_nMsg)` of the program is met. */
    method PopBack(t: Tid, wait: bool) returns (msg: Msg)
      requires At(t, RecvPop(wait))
      modifies this
      ensures Valid() && Abs() == Apply(old(Abs()), Step(t))
      ensures msg == old(Data()).Oldest()
    {
      StepKeepsInv(Abs(), Step(t));
      TokenHasMessage(Abs(), t);
      assert m_nMsg != 0;
      msg := TakeBack(false);
      Pcs := Pcs[t := RecvLeave(wait, Some(msg))];
    }

    method ReadCount(t: Tid) returns (n: int)
      requires At(t, ClearRead)
      modifies this
      ensures Valid() && Abs() == Apply(old(Abs()), Step(t)) && n == m_nMsg
    {
      StepKeepsInv(Abs(), Step(t));
      n := m_nMsg;
      Pcs := Pcs[t := ClearLoop(0, n, |Popped|)];
    }

    method Discard(t: Tid, i: nat, n: int, from: nat)
      requires At(t, ClearPop(i, n, from))
      modifies this
      ensures Valid() && Abs() == Apply(old(Abs()), Step(t))
    {
      StepKeepsInv(Abs(), Step(t));
      var _ := TakeBack(true);
      Pcs := Pcs[t := ClearLoop(i + 1, n, from)];
    }

    /** The one step of the calls that only read or set a field. */
    method OtherStep(t: Tid, op: Op) returns (answer: int)
      requires At(t, OtherDo(op))
      modifies this
      ensures Valid() && Abs() == Apply(old(Abs()), Step(t))
      ensures answer == if op.Size? then old(m_nMaxMsg) else old(m_nMsg)
    {
      StepKeepsInv(Abs(), Step(t));
      answer := if op.Size? then m_nMaxMsg else m_nMsg;
      match op {
        case Quit => m_bMsgFlg := false;
        case Resize(size) => m_nMaxMsg := size;
        case _ =>
      }
      Pcs := Pcs[t := OtherLeave(answer)];
    }

    // ---- Any run

    /** Any step of any thread. */
    method Perform(a: Action)
      requires Valid() && Enabled(Abs(), a)
      modifies this
      ensures Valid() && Abs() == Apply(old(Abs()), a)
    {
      match a {
        case Call(t, op) => Begin(t, op);
        case Step(t) => PerformStep(t);
      }
    }

    method PerformStep(t: Tid)
      requires Valid() && Enabled(Abs(), Step(t))
      modifies this
      ensures Valid() && Abs() == Apply(old(Abs()), Step(t))
    {
      var pc := Pcs[t];
      if pc.WantsLock() {
        Lock(t);
      } else if pc.Waiting() {
        Wait(t);
      } else if pc.Unlocking() {
        Unlock(t);
      } else if pc.SendPost? {
        Post(t);
      } else {
        PerformInside(t);
      }
    }

    /** The steps inside the critical sections. */
    method PerformInside(t: Tid)
      requires Valid() && Enabled(Abs(), Step(t))
      requires var pc := Pcs[t]; !pc.WantsLock() && !pc.Waiting() && !pc.Unlocking() && !pc.SendPost?
      modifies this
      ensures Valid() && Abs() == Apply(old(Abs()), Step(t))
    {
      match Pcs[t] {
        case SendCheck(m, priority) => var _ := CheckSend(t, m, priority);
        case SendPush(m) => PushFront(t, m);
        case RecvCheck(wait) => var _ := CheckRecv(t, wait);
        case RecvPop(wait) => var _ := PopBack(t, wait);
        case ClearRead => var _ := ReadCount(t);
        case ClearPop(i, n, from) => Discard(t, i, n, from);
        case OtherDo(op) => var _ := OtherStep(t, op);
      }
    }

    /** The class follows the machine along every run of any number of threads. */
    method Run(acts: seq<Action>)
      requires Valid() && CanRun(Abs(), acts)
      modifies this
      ensures Valid() && Abs() == Exec(old(Abs()), acts)
    {
      var i := 0;
      while i < |acts|
        invariant i <= |acts| && Valid() && CanRun(Abs(), acts[i..])
        invariant Exec(Abs(), acts[i..]) == Exec(old(Abs()), acts)
      {
        assert acts[i..][1..] == acts[i + 1..];
        Perform(acts[i]);
        i := i + 1;
      }
    }

    // ---- Whole calls

    /** The other threads are done for the moment, and `t` is at `pc` outside the mutex. */
    ghost predicate Outside(t: Tid, pc: PC)
      reads this
    {
      Valid() && t in Pcs && Pcs[t] == pc && m_MutexMsg == None
    }

    /** `t` holds the mutex and is at `pc`. */
    ghost predicate Inside(t: Tid, pc: PC)
      reads this
    {
      Valid() && t in Pcs && Pcs[t] == pc && m_MutexMsg == Some(t)
    }

    /** `t` can begin `op`, and the others can run as given. */
    ghost predicate CanCall(t: Tid, op: Op, others: seq<Action>)
      reads this
    {
      Valid() && Enabled(Abs(), Call(t, op)) && OthersRun(Apply(Abs(), Call(t, op)), t, others)
    }

    /** `t` begins a call, and the others run until it gets what it waits for. */
    method BeginAmid(t: Tid, op: Op, others: seq<Action>)
      requires CanCall(t, op, others) && Amid(Abs(), t, op, others).owner == None
      modifies this
      ensures Outside(t, Entry(op)) && Abs() == Amid(old(Abs()), t, op, others)
    {
      OthersLeaveAlone(Apply(Abs(), Call(t, op)), t, others);
      Begin(t, op);
      Run(others);
    }

    /** The last step of a call that ends with its unlock. */
    method Leave(t: Tid)
      requires Valid() && t in Pcs && Pcs[t].Unlocking() && Pcs[t] != SendUnlock
      modifies this
      ensures Outside(t, Idle) && Pcs == old(Pcs)[t := Idle] && Data() == old(Data())
    {
      Unlock(t);
    }

    /** The lock, from outside. */
    method Enter(t: Tid, ghost from: PC, ghost pc: PC)
      requires Outside(t, from) && from.WantsLock() && After(Data(), from).1 == pc
      modifies this
      ensures Inside(t, pc) && Pcs == old(Pcs)[t := pc] && Data() == old(Data())
    {
      Lock(t);
    }

    /**
     Both overloads.  `at` is the state in which the call gets the mutex: the message is accepted
     exactly when there is room then, the priority is allowed, and nobody has quit.
     */
    method SendNode(t: Tid, m: Msg, priority: nat, others: seq<Action>) returns (ok: bool, ghost at: State)
      requires CanCall(t, Send(m, priority), others) && Amid(Abs(), t, Send(m, priority), others).owner == None
      modifies this
      ensures at == Amid(old(Abs()), t, Send(m, priority), others)
      ensures Outside(t, Idle) && Pcs == at.pcs[t := Idle]
      ensures ok <==> at.q.nMsg < at.q.maxMsg && priority < 10 && at.q.flag
      ensures ok ==> m_Queue == [m] + at.q.queue && Accepted == at.q.accepted + [m]
      ensures ok ==> m_nMsg == at.q.nMsg + 1 && m_CEZSemaphore == at.q.sem + 1 && Popped == at.q.taken
      ensures m_bMsgFlg == at.q.flag && m_nMaxMsg == at.q.maxMsg
      ensures !ok ==> Data() == at.q
    {
      BeginAmid(t, Send(m, priority), others);
      at := Abs();
      ok := SendFromLock(t, m, priority);
    }

    /** The body of `SendMessage`. */
    method SendFromLock(t: Tid, m: Msg, priority: nat) returns (ok: bool)
      requires Outside(t, SendLock(m, priority))
      modifies this
      ensures Outside(t, Idle) && Pcs == old(Pcs)[t := Idle]
      ensures ok <==> old(m_nMsg) < old(m_nMaxMsg) && priority < MSG_PRIORITY && old(m_bMsgFlg)
      ensures Data() == if ok then old(Data()).Push(m).Post() else old(Data())
    {
      Enter(t, SendLock(m, priority), SendCheck(m, priority));
      ok := CheckSend(t, m, priority);
      if !ok {
        Leave(t);
        return;
      }
      Publish(t, m);
    }

    /** The accepted message goes into the queue, and then its token into the semaphore. */
    method Publish(t: Tid, m: Msg)
      requires Inside(t, SendPush(m))
      modifies this
      ensures Outside(t, Idle) && Pcs == old(Pcs)[t := Idle]
      ensures Data() == old(Data()).Push(m).Post()
    {
      PushFront(t, m);
      Unlock(t);
      Post(t);
    }

    method SendMessage(t: Tid, msg: nat, wpa: int, lpa: int, priority: nat, now: nat, others: seq<Action>)
      returns (ok: bool, ghost at: State)
      requires var op := Send(Msg(msg, wpa, lpa, 0, now), priority);
               CanCall(t, op, others) && Amid(Abs(), t, op, others).owner == None
      modifies this
      ensures at == Amid(old(Abs()), t, Send(Msg(msg, wpa, lpa, 0, now), priority), others)
      ensures Outside(t, Idle) && Pcs == at.pcs[t := Idle]
      ensures ok <==> at.q.nMsg < at.q.maxMsg && priority < 10 && at.q.flag
      ensures ok ==> m_Queue == [Msg(msg, wpa, lpa, 0, now)] + at.q.queue && Accepted == at.q.accepted + [Msg(msg, wpa, lpa, 0, now)]
      ensures ok ==> m_nMsg == at.q.nMsg + 1 && m_CEZSemaphore == at.q.sem + 1 && Popped == at.q.taken
      ensures m_bMsgFlg == at.q.flag && m_nMaxMsg == at.q.maxMsg
      ensures !ok ==> Data() == at.q
    {
      ok, at := SendNode(t, Msg(msg, wpa, lpa, 0, now), priority, others);
    }

    /** The overload for user data has no priority to refuse. */
    method SendUserData(t: Tid, p_user_data: nat, now: nat, others: seq<Action>) returns (ok: bool, ghost at: State)
      requires var op := Send(Msg(MSG_On_UserData, 0, 0, p_user_data, now), 0);
               CanCall(t, op, others) && Amid(Abs(), t, op, others).owner == None
      modifies this
      ensures at == Amid(old(Abs()), t, Send(Msg(MSG_On_UserData, 0, 0, p_user_data, now), 0), others)
      ensures Outside(t, Idle) && Pcs == at.pcs[t := Idle]
      ensures ok <==> at.q.nMsg < at.q.maxMsg && at.q.flag
      ensures ok ==> m_Queue == [Msg(1, 0, 0, p_user_data, now)] + at.q.queue && Accepted == at.q.accepted + [Msg(1, 0, 0, p_user_data, now)]
      ensures ok ==> m_nMsg == at.q.nMsg + 1 && m_CEZSemaphore == at.q.sem + 1 && Popped == at.q.taken
      ensures m_bMsgFlg == at.q.flag && m_nMaxMsg == at.q.maxMsg
      ensures !ok ==> Data() == at.q
    {
      ok, at := SendNode(t, Msg(MSG_On_UserData, 0, 0, p_user_data, now), 0, others);
    }

    /** `QuitMessage`, `SetMessageSize`, `GetMessageCount` and `GetMessageSize`. */
    method OtherCall(t: Tid, op: Op, others: seq<Action>) returns (answer: int, ghost at: State)
      requires op.Quit? || op.Resize? || op.Count? || op.Size?
      requires CanCall(t, op, others) && Amid(Abs(), t, op, others).owner == None
      modifies this
      ensures at == Amid(old(Abs()), t, op, others)
      ensures Outside(t, Idle) && Pcs == at.pcs[t := Idle]
      ensures m_bMsgFlg == (at.q.flag && !op.Quit?) && m_nMaxMsg == if op.Resize? then op.size else at.q.maxMsg
      ensures m_Queue == at.q.queue && m_nMsg == at.q.nMsg && m_CEZSemaphore == at.q.sem
      ensures Accepted == at.q.accepted && Popped == at.q.taken
      ensures op.Count? ==> answer == |m_Queue|
      ensures op.Size? ==> answer == m_nMaxMsg
    {
      BeginAmid(t, op, others);
      at := Abs();
      answer := OtherFromLock(t, op);
    }

    method OtherFromLock(t: Tid, op: Op) returns (answer: int)
      requires Outside(t, OtherLock(op))
      modifies this
      ensures Outside(t, Idle) && Pcs == old(Pcs)[t := Idle] && Data() == old(Data()).Do(op)
      ensures answer == if op.Size? then old(m_nMaxMsg) else |old(m_Queue)|
    {
      Enter(t, OtherLock(op), OtherDo(op));
      answer := OtherLocked(t, op);
    }

    method OtherLocked(t: Tid, op: Op) returns (answer: int)
      requires Inside(t, OtherDo(op))
      modifies this
      ensures Outside(t, Idle) && Pcs == old(Pcs)[t := Idle] && Data() == old(Data()).Do(op)
      ensures answer == if op.Size? then old(m_nMaxMsg) else |old(m_Queue)|
    {
      answer := OtherStep(t, op);
      Leave(t);
    }

    // ---- Receiving

    /**
     `at` is the state in which a waiting receive gets its token, or one that does not wait gets the
     mutex.  It returns the oldest message there is then, and FALSE exactly when there is none.
     */
    method RecvMessage(t: Tid, wait: bool, others: seq<Action>) returns (pMsg: Option<Msg>, ghost at: State)
      requires CanCall(t, Recv(wait), others)
      requires var at := Amid(Abs(), t, Recv(wait), others);
               at.owner == None && (wait || at.q.queue != [] ==> at.q.sem > 0)
      modifies this
      ensures at == Amid(old(Abs()), t, Recv(wait), others)
      ensures Outside(t, Idle) && Pcs == at.pcs[t := Idle]
      ensures (pMsg.Some? <==> at.q.queue != []) && (wait ==> pMsg.Some?)
      ensures pMsg.Some? ==> at.q.queue == m_Queue + [pMsg.value] && Popped == at.q.taken + [Taken(pMsg.value, false)]
      ensures pMsg.Some? ==> m_nMsg == at.q.nMsg - 1 && m_CEZSemaphore == at.q.sem - 1 && Accepted == at.q.accepted
      ensures m_bMsgFlg == at.q.flag && m_nMaxMsg == at.q.maxMsg
      ensures pMsg.None? ==> Data() == at.q
    {
      BeginAmid(t, Recv(wait), others);
      at := Abs();
      pMsg := RecvFrom(t, wait);
    }

    /** The body of `RecvMessage`. */
    method RecvFrom(t: Tid, wait: bool) returns (pMsg: Option<Msg>)
      requires Outside(t, if wait then RecvWait else RecvLock(false))
      requires wait || m_Queue != [] ==> m_CEZSemaphore > 0
      modifies this
      ensures Outside(t, Idle) && Pcs == old(Pcs)[t := Idle]
      ensures (pMsg.Some? <==> old(m_Queue) != []) && (wait ==> pMsg.Some?)
      ensures pMsg.Some? ==> pMsg.value == old(Data()).Oldest()
      ensures Data() == if pMsg.Some? then old(Data()).Take().Pop(false) else old(Data())
    {
      if wait {
        TakeToken(t);
      }
      pMsg := RecvFromLock(t, wait);
    }

    /** The part of a receive from the lock on. */
    method RecvFromLock(t: Tid, wait: bool) returns (pMsg: Option<Msg>)
      requires Outside(t, RecvLock(wait))
      requires !wait && m_Queue != [] ==> m_CEZSemaphore > 0
      modifies this
      ensures Outside(t, Idle) && Pcs == old(Pcs)[t := Idle]
      ensures pMsg.Some? <==> old(m_Queue) != []
      ensures pMsg.Some? ==> pMsg.value == old(Data()).Oldest()
      ensures Data() == if pMsg.None? then old(Data()) else (if wait then old(Data()) else old(Data()).Take()).Pop(false)
    {
      EnterRecv(t, wait);
      pMsg := RecvLocked(t, wait);
    }

    /** The wait outside the mutex; the token has a message. */
    method TakeToken(t: Tid)
      requires Outside(t, RecvWait) && m_CEZSemaphore > 0
      modifies this
      ensures Outside(t, RecvLock(true)) && Pcs == old(Pcs)[t := RecvLock(true)]
      ensures Data() == old(Data()).Take() && m_Queue != []
    {
      Wait(t);
      TokenHasMessage(Abs(), t);
    }

    method EnterRecv(t: Tid, wait: bool)
      requires Outside(t, RecvLock(wait))
      modifies this
      ensures Inside(t, RecvCheck(wait)) && Pcs == old(Pcs)[t := RecvCheck(wait)] && Data() == old(Data())
    {
      Enter(t, RecvLock(wait), RecvCheck(wait));
    }

    /** The part of a receive under the mutex. */
    method RecvLocked(t: Tid, wait: bool) returns (pMsg: Option<Msg>)
      requires Inside(t, RecvCheck(wait))
      requires !wait && m_Queue != [] ==> m_CEZSemaphore > 0
      modifies this
      ensures Outside(t, Idle) && Pcs == old(Pcs)[t := Idle]
      ensures pMsg.Some? <==> old(m_Queue) != []
      ensures pMsg.Some? ==> pMsg.value == old(Data()).Oldest()
      ensures Data() == if pMsg.None? then old(Data()) else (if wait then old(Data()) else old(Data()).Take()).Pop(false)
    {
      var ok := FindMessage(t, wait);
      if !ok {
        Leave(t);
        return None;
      }
      var msg := LeaveRecv(t, wait);
      return Some(msg);
    }

    method FindMessage(t: Tid, wait: bool) returns (ok: bool)
      requires Inside(t, RecvCheck(wait))
      modifies this
      ensures Valid() && Data() == old(Data()) && m_MutexMsg == Some(t) && (ok <==> m_Queue != [])
      ensures Pcs == old(Pcs)[t := if !ok then RecvLeave(wait, None) else if wait then RecvPop(true) else RecvSem]
    {
      ok := CheckRecv(t, wait);
    }

    /** The last part: the token of a non-waiting one, and the message. */
    method LeaveRecv(t: Tid, wait: bool) returns (msg: Msg)
      requires Inside(t, if wait then RecvPop(true) else RecvSem)
      requires m_Queue != [] && (!wait ==> m_CEZSemaphore > 0)
      modifies this
      ensures Outside(t, Idle) && Pcs == old(Pcs)[t := Idle] && msg == old(Data()).Oldest()
      ensures Data() == (if wait then old(Data()) else old(Data()).Take()).Pop(false)
    {
      if !wait {
        TakeInside(t);
      }
      msg := PopAndLeave(t, wait);
    }

    /** The wait under the mutex. */
    method TakeInside(t: Tid)
      requires Inside(t, RecvSem) && m_CEZSemaphore > 0
      modifies this
      ensures Inside(t, RecvPop(false)) && Pcs == old(Pcs)[t := RecvPop(false)] && Data() == old(Data()).Take()
    {
      Wait(t);
    }

    method PopAndLeave(t: Tid, wait: bool) returns (msg: Msg)
      requires Inside(t, RecvPop(wait)) && m_Queue != []
      modifies this
      ensures Outside(t, Idle) && Pcs == old(Pcs)[t := Idle] && msg == old(Data()).Oldest()
      ensures Data() == old(Data()).Pop(false)
    {
      msg := PopBack(t, wait);
      Leave(t);
    }

    // ---- Clearing

    /**
     `at` is the state in which the clear gets the mutex, when no token is in other hands.  It waits for
     the posts still to come, discards exactly the messages queued, oldest first, and leaves nothing.
     */
    method ClearMessage(t: Tid, others: seq<Action>) returns (ghost at: State)
      requires CanCall(t, Clear, others)
      requires var at := Amid(Abs(), t, Clear, others); at.owner == None && Tokens(at.pcs) == {}
      modifies this
      ensures at == Amid(old(Abs()), t, Clear, others)
      ensures Outside(t, Idle) && PostsDone(at.pcs, Pcs, t)
      ensures m_Queue == [] && m_nMsg == 0 && m_CEZSemaphore == 0
      ensures Msgs(Popped) == Accepted == at.q.accepted
      ensures |at.q.taken| <= |Popped| && Popped[..|at.q.taken|] == at.q.taken
      ensures forall k :: |at.q.taken| <= k < |Popped| ==> Popped[k].discarded
      ensures m_bMsgFlg == at.q.flag && m_nMaxMsg == at.q.maxMsg
    {
      BeginAmid(t, Clear, others);
      at := Abs();
      var n := BeginClear(t);
      var from := |Popped|;
      var i := 0;
      while i < n
        invariant 0 <= i <= n && Clearing(t, at.pcs, i, n, from) && CutShort(at.q, Data(), i)
      {
        AwaitToken(t, at.pcs, i, n, from, at.q);
        ClearOne(t, at.pcs, i, n, from, at.q);
        i := i + 1;
      }
      EndClear(t, at.pcs, n, from);
    }

    /** Every thread but `t` stands where it stood, except that some posts are done. */
    ghost predicate PostsMade(was: map<Tid, PC>, now: map<Tid, PC>, t: Tid)
    {
      && now.Keys == was.Keys
      && forall u :: u in was && u != t ==> now[u] == was[u] || (was[u] == SendPost && now[u] == Idle)
    }

    /** The same when all posts are done. */
    ghost predicate PostsDone(was: map<Tid, PC>, now: map<Tid, PC>, t: Tid)
    {
      && now.Keys == was.Keys
      && forall u :: u in was && u != t ==> now[u] == if was[u] == SendPost then Idle else was[u]
    }

    /** `t` is at the test of its loop, no token is in other hands. */
    ghost predicate Clearing(t: Tid, was: map<Tid, PC>, i: nat, n: int, from: nat)
      reads this
    {
      Inside(t, ClearLoop(i, n, from)) && Tokens(Pcs) == {} && PostsMade(was, Pcs, t)
    }

    /** `ClearMessage` up to its loop. */
    method BeginClear(t: Tid) returns (n: nat)
      requires Outside(t, ClearLock) && Tokens(Pcs) == {}
      modifies this
      ensures n == m_nMsg && Data() == old(Data()) && Clearing(t, old(Pcs), 0, n, |Popped|)
    {
      Enter(t, ClearLock, ClearRead);
      n := ReadCount(t);
    }

    /** Somebody posts, if there is no token yet. */
    method AwaitToken(t: Tid, ghost was: map<Tid, PC>, ghost i: nat, ghost n: int, ghost from: nat, ghost start: Que)
      requires Clearing(t, was, i, n, from) && i < n && CutShort(start, Data(), i)
      modifies this
      ensures Clearing(t, was, i, n, from) && CutShort(start, Data(), i) && m_CEZSemaphore > 0
    {
      if m_CEZSemaphore == 0 {
        var u := SomePoster(t);
        Post(u);
      }
    }

    /** While messages are queued and nobody holds a token, a missing token means a post to come. */
    method SomePoster(t: Tid) returns (u: Tid)
      requires Valid() && t in Pcs && Pcs[t].Blocking() && Tokens(Pcs) == {} && m_CEZSemaphore == 0
      ensures u in Pcs && Pcs[u] == SendPost && u != t
    {
      assert Relies(Data(), Pcs[t]);
      TokenForUnclaimed(Abs(), t);
      u :| u in Pcs && Pcs[u] == SendPost;
    }

    /** The wait and the pop. */
    method TakeAndDiscard(t: Tid, i: nat, n: int, from: nat)
      requires Inside(t, ClearLoop(i, n, from)) && i < n && m_CEZSemaphore > 0 && m_Queue != []
      modifies this
      ensures Inside(t, ClearLoop(i + 1, n, from)) && Pcs == old(Pcs)[t := ClearLoop(i + 1, n, from)]
      ensures Data() == old(Data()).Take().Pop(true)
    {
      Wait(t);
      Discard(t, i, n, from);
    }

    /** The body of the loop of `ClearMessage`. */
    method ClearOne(t: Tid, ghost was: map<Tid, PC>, i: nat, n: int, from: nat, ghost start: Que)
      requires Clearing(t, was, i, n, from) && i < n && m_CEZSemaphore > 0 && CutShort(start, Data(), i)
      modifies this
      ensures Clearing(t, was, i + 1, n, from) && CutShort(start, Data(), i + 1)
    {
      assert Relies(Data(), Pcs[t]);
      TakeAndDiscard(t, i, n, from);
      assert Tokens(Pcs) == old(Tokens(Pcs)) == {} by {
        assert Pcs == old(Pcs)[t := ClearLoop(i + 1, n, from)];
      }
    }

    method EndClear(t: Tid, ghost was: map<Tid, PC>, n: nat, from: nat)
      requires Clearing(t, was, n, n, from)
      modifies this
      ensures Outside(t, Idle) && PostsDone(was, Pcs, t) && Data() == old(Data())
      ensures m_Queue == [] && m_nMsg == 0 && m_CEZSemaphore == 0 && Msgs(Popped) == Accepted
      ensures forall k :: from <= k < |Popped| ==> Popped[k].discarded
    {
      assert ClearedSoFar(Data(), n, n, from);
      assert Posters(Pcs) == {};
      forall u | u in Pcs ensures Pcs[u] != SendPost {
        assert u !in Posters(Pcs);
      }
      Leave(t);
      assert Fifo(Data());
    }
  }
}
