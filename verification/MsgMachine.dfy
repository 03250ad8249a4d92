/**
 `CEZMsgQue` under any interleaving of threads.  Each thread is at a program point; a step takes
 one thread from one point to the next.  The mutex guards the queue; the semaphore is posted after
 the unlock, and waited on before the lock or, in `ClearMessage` and non-waiting receives, under it.
 */
module MsgMachine {
  import opened Options

  const MSG_PRIORITY := 10

  type Tid = nat

  datatype Msg = Msg(msg: nat, wpa: int, lpa: int, pData: nat, time: nat)

  datatype Op =
    | Send(m: Msg, priority: nat)
    | Recv(wait: bool)
    | Clear
    | Quit
    | Resize(size: int)
    | Count
    | Size

  /** Where a thread stands.  `from` is how many messages had been taken when a clear began. */
  datatype PC =
    | Idle
    | SendLock(m: Msg, priority: nat) | SendCheck(m: Msg, priority: nat) | SendPush(m: Msg)
    | SendUnlock | SendPost | SendRefused
    | RecvWait | RecvLock(wait: bool) | RecvCheck(wait: bool) | RecvSem | RecvPop(wait: bool)
    | RecvLeave(wait: bool, got: Option<Msg>)
    | ClearLock | ClearRead | ClearLoop(i: nat, n: int, from: nat) | ClearPop(i: nat, n: int, from: nat)
    | OtherLock(op: Op) | OtherDo(op: Op) | OtherLeave(answer: int)
  {
    /** Between acquiring and releasing the mutex. */
    predicate Holding()
    {
      || SendCheck? || SendPush? || SendUnlock? || SendRefused?
      || RecvCheck? || RecvSem? || RecvPop? || RecvLeave?
      || ClearRead? || ClearLoop? || ClearPop? || OtherDo? || OtherLeave?
    }

    predicate WantsLock()
    {
      SendLock? || RecvLock? || ClearLock? || OtherLock?
    }

    /** The next step releases the mutex. */
    predicate Unlocking()
    {
      SendUnlock? || SendRefused? || RecvLeave? || (ClearLoop? && i >= n) || OtherLeave?
    }

    /** A message pushed whose token is not posted yet. */
    predicate Posting()
    {
      SendUnlock? || SendPost?
    }

    /** A token taken whose message is not popped yet. */
    predicate HasToken()
    {
      || (RecvLock? && wait) || (RecvCheck? && wait) || RecvPop? || ClearPop?
    }

    /** Waiting for a token; `Blocking` is the dangerous kind, under the mutex. */
    predicate Waiting()
    {
      RecvWait? || Blocking()
    }

    predicate Blocking()
    {
      RecvSem? || (ClearLoop? && i < n)
    }

    predicate Clearing()
    {
      ClearLock? || ClearRead? || ClearLoop? || ClearPop?
    }
  }

  /** A message that left the queue, received by a caller or discarded by a clear. */
  datatype Taken = Taken(msg: Msg, discarded: bool)

  /** The data of the queue and, below the line of the program's own fields, its history. */
  datatype Que = Que(
    queue: seq<Msg>,        // front first: pushed at 0, popped at the end
    nMsg: int,
    maxMsg: int,
    flag: bool,
    sem: nat,
    accepted: seq<Msg>,     // every push
    taken: seq<Taken>)      // every pop
  {
    function Post(): Que
    {
      this.(sem := sem + 1)
    }

    function Take(): Que
      requires sem > 0
    {
      this.(sem := sem - 1)
    }

    function Push(m: Msg): Que
    {
      this.(queue := [m] + queue, nMsg := nMsg + 1, accepted := accepted + [m])
    }

    function Pop(discarded: bool): Que
      requires queue != []
    {
      this.(queue := queue[..|queue| - 1], nMsg := nMsg - 1, taken := taken + [Taken(Oldest(), discarded)])
    }

    function Oldest(): Msg
      requires queue != []
    {
      queue[|queue| - 1]
    }

    function Do(op: Op): Que
    {
      match op
      case Quit => this.(flag := false)
      case Resize(size) => this.(maxMsg := size)
      case _ => this
    }
  }

  datatype State = State(q: Que, owner: Option<Tid>, pcs: map<Tid, PC>)

  datatype Action = Call(t: Tid, op: Op) | Step(t: Tid)

  function Entry(op: Op): PC
  {
    match op
    case Send(m, p) => SendLock(m, p)
    case Recv(wait) => if wait then RecvWait else RecvLock(false)
    case Clear => ClearLock
    case _ => OtherLock(op)
  }

  /** What one thread's step needs of the data: a token to wait for, a message to pop. */
  predicate Ready(q: Que, pc: PC)
  {
    && !pc.Idle?
    && (pc.Waiting() ==> q.sem > 0)
    && (pc.RecvPop? || pc.ClearPop? ==> q.queue != [])
  }

  /** What one thread's step does to the data, and where the thread goes. */
  function After(q: Que, pc: PC): (Que, PC)
    requires Ready(q, pc)
  {
    match pc
    case SendLock(m, p) => (q, SendCheck(m, p))
    case SendCheck(m, p) =>
      (q, if q.nMsg >= q.maxMsg || p >= MSG_PRIORITY || !q.flag then SendRefused else SendPush(m))
    case SendPush(m) => (q.Push(m), SendUnlock)
    case SendUnlock => (q, SendPost)
    case SendPost => (q.Post(), Idle)
    case SendRefused => (q, Idle)
    case RecvWait => (q.Take(), RecvLock(true))
    case RecvLock(w) => (q, RecvCheck(w))
    case RecvCheck(w) => (q, if q.queue == [] then RecvLeave(w, None) else if w then RecvPop(w) else RecvSem)
    case RecvSem => (q.Take(), RecvPop(false))
    case RecvPop(w) => (q.Pop(false), RecvLeave(w, Some(q.Oldest())))
    case RecvLeave(_, _) => (q, Idle)
    case ClearLock => (q, ClearRead)
    case ClearRead => (q, ClearLoop(0, q.nMsg, |q.taken|))
    case ClearLoop(i, n, from) => if i < n then (q.Take(), ClearPop(i, n, from)) else (q, Idle)
    case ClearPop(i, n, from) => (q.Pop(true), ClearLoop(i + 1, n, from))
    case OtherLock(op) => (q, OtherDo(op))
    case OtherDo(op) => (q.Do(op), OtherLeave(if op.Size? then q.maxMsg else q.nMsg))
    case OtherLeave(_) => (q, Idle)
  }

  predicate Enabled(s: State, a: Action)
  {
    && a.t in s.pcs
    && match a {
       case Call(t, _) => s.pcs[t].Idle?
       case Step(t) => Ready(s.q, s.pcs[t]) && (s.pcs[t].WantsLock() ==> s.owner.None?)
       }
  }

  function Apply(s: State, a: Action): State
    requires Enabled(s, a)
  {
    match a
    case Call(t, op) => s.(pcs := s.pcs[t := Entry(op)])
    case Step(t) =>
      var pc := s.pcs[t];
      var (q, pc') := After(s.q, pc);
      State(q, if pc.WantsLock() then Some(t) else if pc.Unlocking() then None else s.owner, s.pcs[t := pc'])
  }

  // ---- Runs

  /** A new queue of the given size, with no call under way. */
  predicate Init(s: State)
  {
    && s.q == Que([], 0, s.q.maxMsg, true, 0, [], []) && s.owner == None
    && forall t :: t in s.pcs ==> s.pcs[t] == Idle
  }

  predicate CanRun(s: State, acts: seq<Action>)
    decreases |acts|
  {
    acts == [] || (Enabled(s, acts[0]) && CanRun(Apply(s, acts[0]), acts[1..]))
  }

  function Exec(s: State, acts: seq<Action>): State
    requires CanRun(s, acts)
    decreases |acts|
  {
    if acts == [] then s else Exec(Apply(s, acts[0]), acts[1..])
  }

  // ---- The invariant

  predicate Mutex(s: State)
  {
    && (s.owner.Some? ==> s.owner.value in s.pcs)
    && forall t :: t in s.pcs ==> (s.pcs[t].Holding() <==> s.owner == Some(t))
  }

  function Posters(pcs: map<Tid, PC>): set<Tid>
  {
    set t | t in pcs && pcs[t].Posting()
  }

  function Tokens(pcs: map<Tid, PC>): set<Tid>
  {
    set t | t in pcs && pcs[t].HasToken()
  }

  /** Every queued message has a token: in the semaphore, not yet posted, or taken by a consumer. */
  predicate Accounted(s: State)
  {
    s.q.nMsg == |s.q.queue| == s.q.sem + |Posters(s.pcs)| + |Tokens(s.pcs)|
  }

  /** What a thread inside its critical section relies on. */
  predicate Relies(q: Que, pc: PC)
  {
    match pc
    case SendPush(_) => q.nMsg < q.maxMsg && q.flag
    case RecvSem => q.queue != []
    case RecvLeave(wait, got) =>
      && (wait ==> got.Some?)
      && (got.Some? ==> q.taken != [] && q.taken[|q.taken| - 1] == Taken(got.value, false))
    case ClearLoop(i, n, from) => ClearedSoFar(q, i, n, from)
    case ClearPop(i, n, from) => i < n && ClearedSoFar(q, i, n, from)
    case _ => true
  }

  /** A clear that saw `n` messages has discarded `i` of them, and nothing else has happened. */
  predicate ClearedSoFar(q: Que, i: nat, n: int, from: nat)
  {
    && i <= n && |q.queue| == n - i && |q.taken| == from + i
    && forall k :: from <= k < |q.taken| ==> q.taken[k].discarded
  }

  predicate Local(s: State)
  {
    forall t :: t in s.pcs ==> Relies(s.q, s.pcs[t])
  }

  function Rev<T>(q: seq<T>): (r: seq<T>)
  {
    if q == [] then [] else Rev(q[1..]) + [q[0]]
  }

  function Msgs(log: seq<Taken>): (r: seq<Msg>)
    ensures |r| == |log| && forall i :: 0 <= i < |r| ==> r[i] == log[i].msg
  {
    seq(|log|, i requires 0 <= i < |log| => log[i].msg)
  }

  /** First in, first out: the popped messages followed by the queued ones are the accepted ones. */
  predicate Fifo(q: Que)
  {
    Msgs(q.taken) + Rev(q.queue) == q.accepted
  }

  predicate Inv(s: State)
  {
    Mutex(s) && Accounted(s) && Local(s) && Fifo(s.q)
  }

  // ---- Each step keeps it

  lemma StepKeepsMutex(s: State, a: Action)
    requires Mutex(s) && Enabled(s, a)
    ensures Mutex(Apply(s, a))
  {
  }

  /** The tokens a thread answers for. */
  function Share(pc: PC): nat
  {
    if pc.Posting() || pc.HasToken() then 1 else 0
  }

  lemma Moved(pcs: map<Tid, PC>, t: Tid, pc: PC)
    requires t in pcs
    ensures var pcs' := pcs[t := pc];
            |Posters(pcs')| + |Tokens(pcs')| + Share(pcs[t]) == |Posters(pcs)| + |Tokens(pcs)| + Share(pc)
  {
    MovedIn(Posters(pcs), Posters(pcs[t := pc]), t);
    MovedIn(Tokens(pcs), Tokens(pcs[t := pc]), t);
  }

  lemma MovedIn(a: set<Tid>, b: set<Tid>, t: Tid)
    requires forall u :: u != t ==> (u in a <==> u in b)
    ensures |b| + (if t in a then 1 else 0) == |a| + if t in b then 1 else 0
  {
    assert a - {t} == b - {t};
    assert t in a ==> a == (a - {t}) + {t};
    assert t in b ==> b == (b - {t}) + {t};
  }

  /** A step changes the queue, the semaphore and the thread's share together. */
  lemma StepBalances(q: Que, pc: PC)
    requires Ready(q, pc) && (pc.HasToken() ==> q.queue != [])
    ensures var (q', pc') := After(q, pc);
            && q'.nMsg - q.nMsg == |q'.queue| - |q.queue|
            && |q'.queue| - q'.sem - Share(pc') == |q.queue| - q.sem - Share(pc)
  {
  }

  lemma TokenHasMessage(s: State, t: Tid)
    requires Accounted(s) && t in s.pcs && s.pcs[t].HasToken()
    ensures s.q.queue != [] && s.q.nMsg > 0
  {
    assert t in Tokens(s.pcs);
  }

  lemma StepKeepsAccounts(s: State, a: Action)
    requires Accounted(s) && Enabled(s, a)
    ensures Accounted(Apply(s, a))
  {
    var pc := Apply(s, a).pcs[a.t];
    Moved(s.pcs, a.t, pc);
    if a.Step? {
      if s.pcs[a.t].HasToken() {
        TokenHasMessage(s, a.t);
      }
      StepBalances(s.q, s.pcs[a.t]);
    }
  }

  /** Outside the mutex a thread changes nothing but the semaphore. */
  lemma OutsideOnlySem(q: Que, pc: PC)
    requires Ready(q, pc) && !pc.Holding()
    ensures var (q', _) := After(q, pc); q' == q.(sem := q'.sem)
  {
  }

  lemma StepMeetsRelies(q: Que, pc: PC)
    requires Ready(q, pc) && Relies(q, pc) && q.nMsg == |q.queue| && (pc.HasToken() ==> q.queue != [])
    ensures Relies(After(q, pc).0, After(q, pc).1)
  {
  }

  lemma StepKeepsLocal(s: State, a: Action)
    requires Mutex(s) && Accounted(s) && Local(s) && Enabled(s, a)
    ensures Local(Apply(s, a))
  {
    if a.Step? {
      var pc := s.pcs[a.t];
      if pc.HasToken() {
        TokenHasMessage(s, a.t);
      }
      StepMeetsRelies(s.q, pc);
      var q := After(s.q, pc).0;
      forall u | u in s.pcs && u != a.t ensures Relies(q, s.pcs[u]) {
        assert Relies(s.q, s.pcs[u]);
        if s.pcs[u].Holding() {
          OutsideOnlySem(s.q, pc);
        }
      }
    }
  }

  lemma {:induction false} RevPop<T>(q: seq<T>)
    requires q != []
    ensures Rev(q) == [q[|q| - 1]] + Rev(q[..|q| - 1])
  {
    if |q| > 1 {
      RevPop(q[1..]);
      assert q[1..][..|q| - 2] == q[..|q| - 1][1..];
    }
  }

  lemma PushKeepsFifo(q: Que, m: Msg)
    requires Fifo(q)
    ensures Fifo(q.Push(m))
  {
    assert ([m] + q.queue)[1..] == q.queue;
  }

  lemma PopKeepsFifo(q: Que, discarded: bool)
    requires Fifo(q) && q.queue != []
    ensures Fifo(q.Pop(discarded))
  {
    RevPop(q.queue);
    assert Msgs(q.Pop(discarded).taken) == Msgs(q.taken) + [q.Oldest()];
  }

  lemma StepKeepsFifo(q: Que, pc: PC)
    requires Fifo(q) && Ready(q, pc)
    ensures Fifo(After(q, pc).0)
  {
    match pc
    case SendPush(m) => PushKeepsFifo(q, m);
    case RecvPop(_) => PopKeepsFifo(q, false);
    case ClearPop(_, _, _) => PopKeepsFifo(q, true);
    case _ =>
  }

  lemma StepKeepsInv(s: State, a: Action)
    requires Inv(s) && Enabled(s, a)
    ensures Inv(Apply(s, a))
  {
    StepKeepsMutex(s, a);
    StepKeepsAccounts(s, a);
    StepKeepsLocal(s, a);
    if a.Step? {
      StepKeepsFifo(s.q, s.pcs[a.t]);
    }
  }

  lemma {:induction false} RunKeepsInv(s: State, acts: seq<Action>)
    requires Inv(s) && CanRun(s, acts)
    ensures Inv(Exec(s, acts))
    decreases |acts|
  {
    if acts != [] {
      StepKeepsInv(s, acts[0]);
      RunKeepsInv(Apply(s, acts[0]), acts[1..]);
    }
  }

  lemma InitInv(s: State)
    requires Init(s)
    ensures Inv(s)
  {
    assert Posters(s.pcs) == {} && Tokens(s.pcs) == {};
    assert Fifo(s.q);
  }
}
