/**
 Which threads may make which calls: the disciplines under which no wait for a token under the
 mutex of `CEZMsgQue` is for ever, and the deadlock that every other discipline allows.
 */
module MsgDiscipline {
  import opened Options
  import opened MsgMachine
  import opened MsgTheorems

  /** The threads that send, receive with and without waiting, and clear. */
  datatype Roles = Roles(senders: set<Tid>, waiting: set<Tid>, polling: set<Tid>, clearing: set<Tid>)
  {
    predicate Permits(t: Tid, op: Op)
    {
      match op
      case Send(_, _) => t in senders
      case Recv(wait) => if wait then t in waiting else t in polling
      case Clear => t in clearing
      case _ => true
    }

    predicate Within(threads: set<Tid>)
    {
      senders + waiting + polling + clearing <= threads
    }

    /** No thread makes waiting receives while another one receives without waiting, or clears. */
    ghost predicate Apart()
    {
      forall w, b :: w in waiting && b in polling + clearing ==> w == b
    }

    /** Nobody ever sends, or the two kinds of consumers are apart. */
    ghost predicate Safe()
    {
      senders == {} || Apart()
    }
  }

  ghost predicate Obeys(acts: seq<Action>, roles: Roles)
  {
    forall i :: 0 <= i < |acts| && acts[i].Call? ==> roles.Permits(acts[i].t, acts[i].op)
  }

  // ---- Every thread stays in its role

  predicate InRole(pc: PC, t: Tid, roles: Roles)
  {
    match pc
    case SendLock(_, _) => t in roles.senders
    case SendCheck(_, _) => t in roles.senders
    case SendPush(_) => t in roles.senders
    case SendUnlock => t in roles.senders
    case SendPost => t in roles.senders
    case RecvWait => t in roles.waiting
    case RecvLock(wait) => if wait then t in roles.waiting else t in roles.polling
    case RecvCheck(wait) => if wait then t in roles.waiting else t in roles.polling
    case RecvSem => t in roles.polling
    case ClearLock => t in roles.clearing
    case ClearRead => t in roles.clearing
    case ClearLoop(_, _, _) => t in roles.clearing
    case ClearPop(_, _, _) => t in roles.clearing
    case OtherLock(op) => !op.Send?
    case _ => true
  }

  ghost predicate AllInRole(s: State, roles: Roles)
  {
    forall t :: t in s.pcs ==> InRole(s.pcs[t], t, roles)
  }

  lemma StepKeepsRole(q: Que, pc: PC, t: Tid, roles: Roles)
    requires Ready(q, pc) && InRole(pc, t, roles)
    ensures InRole(After(q, pc).1, t, roles)
  {
  }

  lemma {:induction false} RunKeepsRoles(s: State, acts: seq<Action>, roles: Roles)
    requires AllInRole(s, roles) && CanRun(s, acts) && Obeys(acts, roles)
    ensures AllInRole(Exec(s, acts), roles)
    decreases |acts|
  {
    if acts != [] {
      var a := acts[0];
      if a.Step? {
        StepKeepsRole(s.q, s.pcs[a.t], a.t, roles);
      }
      assert Obeys(acts[1..], roles);
      RunKeepsRoles(Apply(s, a), acts[1..], roles);
    }
  }

  lemma StepWithoutSenders(s: State, a: Action, roles: Roles)
    requires AllInRole(s, roles) && roles.senders == {} && s.q.queue == [] && Enabled(s, a)
    ensures Apply(s, a).q.queue == []
  {
    assert InRole(s.pcs[a.t], a.t, roles);
  }

  lemma {:induction false} NothingEverQueued(s: State, acts: seq<Action>, roles: Roles)
    requires AllInRole(s, roles) && roles.senders == {} && s.q.queue == [] && CanRun(s, acts) && Obeys(acts, roles)
    ensures Exec(s, acts).q.queue == []
    decreases |acts|
  {
    if acts != [] {
      StepWithoutSenders(s, acts[0], roles);
      RunKeepsRoles(s, acts[..1], roles) by { assert acts[..1][1..] == []; }
      assert Exec(s, acts[..1]) == Apply(s, acts[0]) by { assert acts[..1][1..] == []; }
      assert Obeys(acts[1..], roles);
      NothingEverQueued(Apply(s, acts[0]), acts[1..], roles);
    }
  }

  // ---- A safe discipline never blocks

  /** While one thread waits under the mutex, only waiting receivers can hold tokens. */
  lemma ApartMeansNoTokens(s: State, t: Tid, roles: Roles)
    requires Mutex(s) && AllInRole(s, roles) && roles.Apart() && t in s.pcs && s.pcs[t].Blocking()
    ensures Tokens(s.pcs) == {}
  {
    assert InRole(s.pcs[t], t, roles);
    assert t in roles.polling + roles.clearing;
    forall u | u in s.pcs ensures !s.pcs[u].HasToken() {
      assert InRole(s.pcs[u], u, roles);
    }
  }

  /** Under a safe discipline, whoever waits under the mutex has a token, or a post on its way. */
  lemma SafeGetsToken(s: State, acts: seq<Action>, roles: Roles, t: Tid)
    requires Init(s) && CanRun(s, acts) && Obeys(acts, roles) && roles.Safe()
    ensures !Stuck(Exec(s, acts), t)
    ensures t in Exec(s, acts).pcs && Exec(s, acts).pcs[t].Blocking() ==> CanGetOn(Exec(s, acts), t)
  {
    InitInv(s);
    RunKeepsInv(s, acts);
    RunKeepsRoles(s, acts, roles);
    var r := Exec(s, acts);
    if t in r.pcs && r.pcs[t].Blocking() {
      assert Relies(r.q, r.pcs[t]);
      if roles.senders == {} {
        NothingEverQueued(s, acts, roles);
      } else {
        ApartMeansNoTokens(r, t, roles);
      }
      TokenForUnclaimed(r, t);
      BlockedCanGetOnIff(r, t);
    }
  }

  /** Under a safe discipline no reachable state with a call under way is stuck. */
  lemma SafeNeverStuck(s: State, acts: seq<Action>, roles: Roles, t: Tid)
    requires Init(s) && CanRun(s, acts) && Obeys(acts, roles) && roles.Safe()
    requires t in Exec(s, acts).pcs && !Resting(Exec(s, acts), t)
    ensures SomeStep(Exec(s, acts))
  {
    InitInv(s);
    RunKeepsInv(s, acts);
    var r := Exec(s, acts);
    if r.owner == None {
      assert Enabled(r, Step(t));
    } else {
      var h := r.owner.value;
      if !r.pcs[h].Blocking() {
        HolderSteps(r, h);
      } else if r.q.sem > 0 {
        assert Enabled(r, Step(h));
      } else {
        SafeGetsToken(s, acts, roles, h);
        var u :| u in r.pcs && r.pcs[u] == SendPost;
        assert Enabled(r, Step(u));
      }
    }
  }

  // ---- Any other discipline can deadlock

  /** A run that keeps to the roles leads from `s` to `r`. */
  ghost predicate Leads(s: State, roles: Roles, acts: seq<Action>, r: State)
  {
    CanRun(s, acts) && Exec(s, acts) == r && Obeys(acts, roles)
  }

  lemma ThenCall(s: State, roles: Roles, acts: seq<Action>, r: State, t: Tid, op: Op)
    requires Leads(s, roles, acts, r) && Enabled(r, Call(t, op)) && roles.Permits(t, op)
    ensures Leads(s, roles, acts + [Call(t, op)], Apply(r, Call(t, op)))
  {
    RunThen(s, acts, Call(t, op));
  }

  lemma ThenStep(s: State, roles: Roles, acts: seq<Action>, r: State, t: Tid)
    requires Leads(s, roles, acts, r) && Enabled(r, Step(t))
    ensures Leads(s, roles, acts + [Step(t)], Apply(r, Step(t)))
  {
    RunThen(s, acts, Step(t));
  }

  /** `t` begins a call that takes the mutex, and takes it. */
  lemma ThenEnter(s: State, roles: Roles, was: seq<Action>, r: State, t: Tid, op: Op) returns (acts: seq<Action>)
    requires Leads(s, roles, was, r) && roles.Permits(t, op) && Entry(op).WantsLock()
    requires r.owner == None && t in r.pcs && r.pcs[t] == Idle
    ensures Leads(s, roles, acts, State(r.q, Some(t), r.pcs[t := After(r.q, Entry(op)).1]))
  {
    ThenCall(s, roles, was, r, t, op);
    var r1 := Apply(r, Call(t, op));
    acts := was + [Call(t, op)];
    ThenStep(s, roles, acts, r1, t);
    acts := acts + [Step(t)];
    assert Apply(r1, Step(t)).pcs == r.pcs[t := After(r.q, Entry(op)).1];
  }

  /** A step whose effect on the data and on its own thread is known. */
  lemma ThenInside(s: State, roles: Roles, was: seq<Action>, r: State, pcs: map<Tid, PC>, t: Tid, pc: PC)
    returns (acts: seq<Action>)
    requires Leads(s, roles, was, r) && r.owner == Some(t) && r.pcs == pcs[t := pc]
    requires pc.Holding() && !pc.Unlocking() && Ready(r.q, pc)
    ensures Leads(s, roles, acts, State(After(r.q, pc).0, Some(t), pcs[t := After(r.q, pc).1]))
  {
    ThenStep(s, roles, was, r, t);
    acts := was + [Step(t)];
    assert Apply(r, Step(t)).pcs == pcs[t := After(r.q, pc).1];
  }

  /** `t` releases the mutex. */
  lemma ThenUnlock(s: State, roles: Roles, was: seq<Action>, r: State, pcs: map<Tid, PC>, t: Tid, pc: PC)
    returns (acts: seq<Action>)
    requires Leads(s, roles, was, r) && r.owner == Some(t) && r.pcs == pcs[t := pc] && pc.Unlocking()
    ensures Leads(s, roles, acts, State(r.q, None, pcs[t := After(r.q, pc).1]))
  {
    ThenStep(s, roles, was, r, t);
    acts := was + [Step(t)];
    assert Apply(r, Step(t)).pcs == pcs[t := After(r.q, pc).1];
  }

  /** Whoever likes makes room for one message. */
  lemma MakesRoom(s: State, roles: Roles, t: Tid) returns (acts: seq<Action>)
    requires Init(s) && t in s.pcs
    ensures Leads(s, roles, acts, s.(q := s.q.(maxMsg := 1)))
  {
    acts := ResizesInside(s, roles, t);
    var r := State(s.q.(maxMsg := 1), Some(t), s.pcs[t := OtherLeave(s.q.nMsg)]);
    acts := ThenUnlock(s, roles, acts, r, s.pcs, t, OtherLeave(s.q.nMsg));
    assert s.pcs[t := Idle] == s.pcs;
  }

  lemma ResizesInside(s: State, roles: Roles, t: Tid) returns (acts: seq<Action>)
    requires Init(s) && t in s.pcs
    ensures Leads(s, roles, acts, State(s.q.(maxMsg := 1), Some(t), s.pcs[t := OtherLeave(s.q.nMsg)]))
  {
    acts := ThenEnter(s, roles, [], s, t, Resize(1));
    var r := State(s.q, Some(t), s.pcs[t := OtherDo(Resize(1))]);
    acts := ThenInside(s, roles, acts, r, s.pcs, t, OtherDo(Resize(1)));
  }

  /** A sender sends `m` into the empty queue. */
  lemma Sends(s: State, roles: Roles, was: seq<Action>, r: State, t: Tid, m: Msg) returns (acts: seq<Action>)
    requires Leads(s, roles, was, r) && t in roles.senders
    requires r.owner == None && t in r.pcs && r.pcs[t] == Idle && r.q.nMsg < r.q.maxMsg && r.q.flag
    ensures Leads(s, roles, acts, r.(q := r.q.Push(m).Post()))
  {
    acts := SendsUpToPost(s, roles, was, r, t, m);
    var r1 := State(r.q.Push(m), None, r.pcs[t := SendPost]);
    ThenStep(s, roles, acts, r1, t);
    acts := acts + [Step(t)];
    assert Apply(r1, Step(t)).pcs == r.pcs;
  }

  lemma SendsUpToPost(s: State, roles: Roles, was: seq<Action>, r: State, t: Tid, m: Msg) returns (acts: seq<Action>)
    requires Leads(s, roles, was, r) && t in roles.senders
    requires r.owner == None && t in r.pcs && r.pcs[t] == Idle && r.q.nMsg < r.q.maxMsg && r.q.flag
    ensures Leads(s, roles, acts, State(r.q.Push(m), None, r.pcs[t := SendPost]))
  {
    acts := ThenEnter(s, roles, was, r, t, Send(m, 0));
    acts := ThenInside(s, roles, acts, State(r.q, Some(t), r.pcs[t := SendCheck(m, 0)]), r.pcs, t, SendCheck(m, 0));
    acts := ThenInside(s, roles, acts, State(r.q, Some(t), r.pcs[t := SendPush(m)]), r.pcs, t, SendPush(m));
    acts := ThenUnlock(s, roles, acts, State(r.q.Push(m), Some(t), r.pcs[t := SendUnlock]), r.pcs, t, SendUnlock);
  }

  /** A waiting receiver takes the only token, and gets no further. */
  lemma TakesToken(s: State, roles: Roles, was: seq<Action>, r: State, t: Tid) returns (acts: seq<Action>)
    requires Leads(s, roles, was, r) && t in roles.waiting && t in r.pcs && r.pcs[t] == Idle && r.q.sem > 0
    ensures Leads(s, roles, acts, r.(q := r.q.Take(), pcs := r.pcs[t := RecvLock(true)]))
  {
    ThenCall(s, roles, was, r, t, Recv(true));
    var r1 := r.(pcs := r.pcs[t := RecvWait]);
    acts := was + [Call(t, Recv(true))];
    ThenStep(s, roles, acts, r1, t);
    acts := acts + [Step(t)];
    assert Apply(r1, Step(t)).pcs == r.pcs[t := RecvLock(true)];
  }

  /** Then a clear, or a receive without waiting, finds the message but no token, and waits under the mutex. */
  lemma BlocksUnderMutex(s: State, roles: Roles, was: seq<Action>, r: State, t: Tid) returns (acts: seq<Action>, pc: PC)
    requires Leads(s, roles, was, r) && t in roles.polling + roles.clearing
    requires t in r.pcs && r.pcs[t] == Idle && r.owner == None && r.q.queue != [] && r.q.nMsg > 0
    ensures Leads(s, roles, acts, State(r.q, Some(t), r.pcs[t := pc])) && pc.Blocking()
  {
    if t in roles.clearing {
      acts := ThenEnter(s, roles, was, r, t, Clear);
      acts := ThenInside(s, roles, acts, State(r.q, Some(t), r.pcs[t := ClearRead]), r.pcs, t, ClearRead);
      pc := ClearLoop(0, r.q.nMsg, |r.q.taken|);
    } else {
      acts := ThenEnter(s, roles, was, r, t, Recv(false));
      acts := ThenInside(s, roles, acts, State(r.q, Some(t), r.pcs[t := RecvCheck(false)]), r.pcs, t, RecvCheck(false));
      pc := RecvSem;
    }
  }

  /**
   The deadlock: some thread sends one message; a waiting receiver takes its token; and another
   thread, clearing or receiving without waiting, waits for that token under the mutex for ever.
   */
  lemma TwoConsumersCanDeadlock(s: State, roles: Roles, sender: Tid, w: Tid, b: Tid, m: Msg) returns (acts: seq<Action>)
    requires Init(s) && roles.Within(s.pcs.Keys)
    requires sender in roles.senders && w in roles.waiting && b in roles.polling + roles.clearing && w != b
    ensures CanRun(s, acts) && Obeys(acts, roles) && Stuck(Exec(s, acts), b) && !CanGetOn(Exec(s, acts), b)
  {
    acts := MakesRoom(s, roles, sender);
    var r := s.(q := s.q.(maxMsg := 1));
    acts := Sends(s, roles, acts, r, sender, m);
    r := r.(q := r.q.Push(m).Post());
    acts := TakesToken(s, roles, acts, r, w);
    r := r.(q := r.q.Take(), pcs := r.pcs[w := RecvLock(true)]);
    var pc;
    acts, pc := BlocksUnderMutex(s, roles, acts, r, b);
    DeadEnd(s, acts, r, b, pc);
  }

  lemma DeadEnd(s: State, acts: seq<Action>, r: State, b: Tid, pc: PC)
    requires Init(s) && CanRun(s, acts) && Exec(s, acts) == State(r.q, Some(b), r.pcs[b := pc]) && pc.Blocking()
    requires r.q.sem == 0 && forall t :: t in r.pcs && t != b ==> r.pcs[t] != SendPost
    ensures Stuck(Exec(s, acts), b) && !CanGetOn(Exec(s, acts), b)
  {
    InitInv(s);
    RunKeepsInv(s, acts);
    TokenForUnclaimed(Exec(s, acts), b);
    BlockedCanGetOnIff(Exec(s, acts), b);
  }

  /** A run that keeps to the roles and leaves `t` waiting under the mutex for ever. */
  ghost predicate Deadlocks(s: State, roles: Roles, acts: seq<Action>, t: Tid)
  {
    CanRun(s, acts) && Obeys(acts, roles) && Stuck(Exec(s, acts), t)
  }

  /**
   The exact condition, on the roles alone: no run that keeps to them ever leaves a thread waiting
   under the mutex for ever if and only if nobody sends, or no thread makes waiting receives while
   another one receives without waiting or clears.
   */
  lemma SafeIff(s: State, roles: Roles)
    requires Init(s) && roles.Within(s.pcs.Keys)
    ensures (forall acts, t :: !Deadlocks(s, roles, acts, t)) <==> roles.Safe()
  {
    if roles.Safe() {
      forall acts, t ensures !Deadlocks(s, roles, acts, t) {
        if CanRun(s, acts) && Obeys(acts, roles) {
          SafeGetsToken(s, acts, roles, t);
        }
      }
    } else {
      var sender :| sender in roles.senders;
      var w, b :| w in roles.waiting && b in roles.polling + roles.clearing && w != b;
      var acts := TwoConsumersCanDeadlock(s, roles, sender, w, b, Msg(0, 0, 0, 0, 0));
      assert Deadlocks(s, roles, acts, b);
    }
  }

  // ---- One consumer

  /** Only `c` receives or clears. */
  ghost predicate ConsumerCalls(acts: seq<Action>, c: Tid)
  {
    forall i :: 0 <= i < |acts| ==> acts[i].Call? && (acts[i].op.Recv? || acts[i].op.Clear?) ==> acts[i].t == c
  }

  function Senders(acts: seq<Action>): set<Tid>
  {
    set i | 0 <= i < |acts| :: acts[i].t
  }

  lemma SoleConsumerIsSafe(acts: seq<Action>, c: Tid) returns (roles: Roles)
    requires ConsumerCalls(acts, c)
    ensures Obeys(acts, roles) && roles.Safe()
  {
    roles := Roles(Senders(acts), {c}, {c}, {c});
    forall i | 0 <= i < |acts| && acts[i].Call? ensures roles.Permits(acts[i].t, acts[i].op) {
      assert acts[i].t in Senders(acts);
    }
  }

  /** With one consumer, whoever waits for a token under the mutex gets one. */
  lemma SoleConsumerGetsToken(s: State, acts: seq<Action>, c: Tid)
    requires Init(s) && CanRun(s, acts) && ConsumerCalls(acts, c)
    requires c in Exec(s, acts).pcs && Exec(s, acts).pcs[c].Blocking()
    ensures Exec(s, acts).q.sem > 0 || PostComing(Exec(s, acts))
  {
    var roles := SoleConsumerIsSafe(acts, c);
    SafeGetsToken(s, acts, roles, c);
  }

  /** With one consumer no reachable state is stuck: whoever has begun a call, some thread can go on. */
  lemma SoleConsumerNeverStuck(s: State, acts: seq<Action>, c: Tid, t: Tid)
    requires Init(s) && CanRun(s, acts) && ConsumerCalls(acts, c)
    requires t in Exec(s, acts).pcs && !Resting(Exec(s, acts), t)
    ensures SomeStep(Exec(s, acts))
  {
    var roles := SoleConsumerIsSafe(acts, c);
    SafeNeverStuck(s, acts, roles, t);
  }
}
