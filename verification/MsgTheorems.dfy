/** What `CEZMsgQue` promises over whole runs, for any number of threads and any interleaving. */
module MsgTheorems {
  import opened Options
  import opened MsgMachine

  // ---- Safety

  /** In every reachable state the queue, its counter and the tokens agree. */
  lemma TokensAccountForQueue(s: State, acts: seq<Action>)
    requires Init(s) && CanRun(s, acts)
    ensures Accounted(Exec(s, acts))
  {
    InitInv(s);
    RunKeepsInv(s, acts);
  }

  /** At most one thread is between `Lock` and `Unlock`. */
  lemma MutualExclusion(s: State, acts: seq<Action>, t: Tid, u: Tid)
    requires Init(s) && CanRun(s, acts)
    ensures var pcs := Exec(s, acts).pcs;
            t in pcs && u in pcs && pcs[t].Holding() && pcs[u].Holding() ==> t == u
  {
    InitInv(s);
    RunKeepsInv(s, acts);
  }

  /** A thread about to pop finds a message, so `assert(m_nMsg)` holds and `back()` is defined. */
  lemma NeverPopsEmpty(s: State, acts: seq<Action>, t: Tid)
    requires Init(s) && CanRun(s, acts)
    ensures var r := Exec(s, acts);
            t in r.pcs && (r.pcs[t].RecvPop? || r.pcs[t].ClearPop?) ==>
              r.q.queue != [] && r.q.nMsg > 0 && Enabled(r, Step(t))
  {
    InitInv(s);
    RunKeepsInv(s, acts);
    var r := Exec(s, acts);
    if t in r.pcs && r.pcs[t].HasToken() {
      TokenHasMessage(r, t);
    }
  }

  /** A waiting receive never fails, and what it returns is the message popped last. */
  lemma WaitingReceiveSucceeds(s: State, acts: seq<Action>, t: Tid)
    requires Init(s) && CanRun(s, acts)
    requires t in Exec(s, acts).pcs && Exec(s, acts).pcs[t].RecvLeave?
    ensures var RecvLeave(wait, got) := Exec(s, acts).pcs[t];
            var taken := Exec(s, acts).q.taken;
            && (wait ==> got.Some?)
            && (got.Some? ==> taken != [] && taken[|taken| - 1] == Taken(got.value, false))
  {
    InitInv(s);
    RunKeepsInv(s, acts);
    assert Relies(Exec(s, acts).q, Exec(s, acts).pcs[t]);
  }

  // ---- First in, first out

  ghost predicate NoClearCalls(acts: seq<Action>)
  {
    forall i :: 0 <= i < |acts| ==> acts[i].Call? ==> acts[i].op != Clear
  }

  ghost predicate NothingDiscarded(s: State)
  {
    && (forall t :: t in s.pcs ==> !s.pcs[t].Clearing())
    && forall i :: 0 <= i < |s.q.taken| ==> !s.q.taken[i].discarded
  }

  lemma StepDiscardsNothing(s: State, a: Action)
    requires NothingDiscarded(s) && Enabled(s, a) && (a.Call? ==> a.op != Clear)
    ensures NothingDiscarded(Apply(s, a))
  {
    if a.Step? {
      var q, q' := s.q, After(s.q, s.pcs[a.t]).0;
      assert q'.taken == q.taken || (q.queue != [] && q' == q.Pop(false));
    }
  }

  lemma {:induction false} RunDiscardsNothing(s: State, acts: seq<Action>)
    requires NothingDiscarded(s) && CanRun(s, acts) && NoClearCalls(acts)
    ensures NothingDiscarded(Exec(s, acts))
    decreases |acts|
  {
    if acts != [] {
      StepDiscardsNothing(s, acts[0]);
      assert NoClearCalls(acts[1..]);
      RunDiscardsNothing(Apply(s, acts[0]), acts[1..]);
    }
  }

  /** Without clears, what was received and then what is queued is what was accepted, in order. */
  lemma ReceivedInOrder(s: State, acts: seq<Action>)
    requires Init(s) && CanRun(s, acts) && NoClearCalls(acts)
    ensures var q := Exec(s, acts).q;
            && Msgs(q.taken) + Rev(q.queue) == q.accepted
            && forall i :: 0 <= i < |q.taken| ==> !q.taken[i].discarded
  {
    InitInv(s);
    RunKeepsInv(s, acts);
    RunDiscardsNothing(s, acts);
  }

  lemma {:induction false} RevLength<T>(q: seq<T>)
    ensures |Rev(q)| == |q|
  {
    if q != [] {
      RevLength(q[1..]);
    }
  }

  /**
   A clear that has come to its end has discarded everything accepted and not yet taken when it
   took its count, and left the queue empty.
   */
  lemma ClearDiscardsTheQueue(s: State, acts: seq<Action>, t: Tid)
    requires Init(s) && CanRun(s, acts)
    requires t in Exec(s, acts).pcs && Exec(s, acts).pcs[t].ClearLoop?
    ensures var ClearLoop(i, n, from) := Exec(s, acts).pcs[t];
            var q := Exec(s, acts).q;
            && from + n == |q.accepted| && i <= n && |q.taken| == from + i
            && Msgs(q.taken)[from..] == q.accepted[from..from + i]
            && (forall k :: from <= k < from + i ==> q.taken[k].discarded)
            && (i == n ==> q.queue == [] && Msgs(q.taken) == q.accepted)
  {
    InitInv(s);
    RunKeepsInv(s, acts);
    var q := Exec(s, acts).q;
    assert Relies(q, Exec(s, acts).pcs[t]);
    RevLength(q.queue);
  }

  // ---- Quitting

  lemma StepAfterQuit(s: State, a: Action)
    requires Inv(s) && !s.q.flag && Enabled(s, a)
    ensures !Apply(s, a).q.flag && Apply(s, a).q.accepted == s.q.accepted
  {
    assert Relies(s.q, s.pcs[a.t]);
  }

  /** Once `QuitMessage` has cleared the flag, no message is ever accepted again. */
  lemma {:induction false} NothingAcceptedAfterQuit(s: State, acts: seq<Action>)
    requires Inv(s) && !s.q.flag && CanRun(s, acts)
    ensures !Exec(s, acts).q.flag && Exec(s, acts).q.accepted == s.q.accepted
    decreases |acts|
  {
    if acts != [] {
      StepAfterQuit(s, acts[0]);
      StepKeepsInv(s, acts[0]);
      NothingAcceptedAfterQuit(Apply(s, acts[0]), acts[1..]);
    }
  }

  // ---- Capacity

  ghost predicate SizesWithin(acts: seq<Action>, bound: nat)
  {
    forall i :: 0 <= i < |acts| ==> acts[i].Call? && acts[i].op.Resize? ==> acts[i].op.size <= bound
  }

  ghost predicate Within(s: State, bound: nat)
  {
    && s.q.maxMsg <= bound && |s.q.queue| <= bound
    && forall t :: t in s.pcs ==>
         (s.pcs[t].OtherLock? || s.pcs[t].OtherDo?) && s.pcs[t].op.Resize? ==> s.pcs[t].op.size <= bound
  }

  lemma StepStaysWithin(s: State, a: Action, bound: nat)
    requires Inv(s) && Within(s, bound) && Enabled(s, a)
    requires a.Call? && a.op.Resize? ==> a.op.size <= bound
    ensures Within(Apply(s, a), bound)
  {
    assert Relies(s.q, s.pcs[a.t]);
  }

  /** The queue never holds more messages than the largest size it was ever given. */
  lemma {:induction false} NeverOverfull(s: State, acts: seq<Action>, bound: nat)
    requires Inv(s) && Within(s, bound) && CanRun(s, acts) && SizesWithin(acts, bound)
    ensures Within(Exec(s, acts), bound)
    decreases |acts|
  {
    if acts != [] {
      StepStaysWithin(s, acts[0], bound);
      StepKeepsInv(s, acts[0]);
      assert SizesWithin(acts[1..], bound);
      NeverOverfull(Apply(s, acts[0]), acts[1..], bound);
    }
  }

  // ---- Waiting

  /** Some sender has pushed and unlocked but not posted; its post needs no lock. */
  ghost predicate PostComing(s: State)
  {
    exists u :: u in s.pcs && s.pcs[u] == SendPost
  }

  /** While `t` waits under the mutex, unclaimed messages mean a token is there or is coming. */
  lemma TokenForUnclaimed(s: State, t: Tid)
    requires Inv(s) && t in s.pcs && s.pcs[t].Blocking()
    ensures s.q.sem > 0 || PostComing(s) <==> |Tokens(s.pcs)| < |s.q.queue|
  {
    if PostComing(s) {
      var u :| u in s.pcs && s.pcs[u] == SendPost;
      assert u in Posters(s.pcs);
    }
    if Posters(s.pcs) != {} {
      var u :| u in Posters(s.pcs);
      assert s.pcs[u] == SendPost;
    }
  }

  /** Nothing to do, or waiting for the first message to come. */
  ghost predicate Resting(s: State, t: Tid)
    requires t in s.pcs
  {
    s.pcs[t].Idle? || (s.pcs[t].RecvWait? && s.q.sem == 0)
  }

  ghost predicate SomeStep(s: State)
  {
    exists u :: Enabled(s, Step(u))
  }

  lemma HolderSteps(s: State, t: Tid)
    requires Inv(s) && t in s.pcs && s.pcs[t].Holding() && !s.pcs[t].Blocking()
    ensures Enabled(s, Step(t))
  {
    if s.pcs[t].HasToken() {
      TokenHasMessage(s, t);
    }
  }

  ghost predicate AllResting(s: State)
  {
    forall t :: t in s.pcs ==> Resting(s, t)
  }

  /** No lost wakeup: when everyone rests, a waiting receiver means that the queue is empty. */
  lemma RestingMeansEmpty(s: State, acts: seq<Action>)
    requires Init(s) && CanRun(s, acts)
    requires AllResting(Exec(s, acts))
    ensures var r := Exec(s, acts);
            && r.q.nMsg == |r.q.queue| == r.q.sem
            && ((exists t :: t in r.pcs && r.pcs[t].RecvWait?) ==> r.q.queue == [])
  {
    InitInv(s);
    RunKeepsInv(s, acts);
    var r := Exec(s, acts);
    RestingHoldsNothing(r);
  }

  lemma RestingHoldsNothing(s: State)
    requires AllResting(s)
    ensures Posters(s.pcs) == {} && Tokens(s.pcs) == {}
  {
    forall t | t in s.pcs ensures t !in Posters(s.pcs) && t !in Tokens(s.pcs) {
      assert Resting(s, t);
    }
  }

  // ---- Several consumers: when a wait under the mutex is for ever

  ghost predicate Stuck(s: State, t: Tid)
  {
    t in s.pcs && s.pcs[t].Blocking() && s.q.sem == 0 && !PostComing(s)
  }

  lemma StuckStays(s: State, a: Action, t: Tid)
    requires Mutex(s) && Stuck(s, t) && Enabled(s, a)
    ensures Stuck(Apply(s, a), t) && Apply(s, a).pcs[t] == s.pcs[t]
  {
    assert a.t in s.pcs;
    assert a.Call?;
  }

  lemma {:induction false} StuckForever(s: State, acts: seq<Action>, t: Tid)
    requires Inv(s) && Stuck(s, t) && CanRun(s, acts)
    ensures Exec(s, acts).pcs.Keys >= {t} && Exec(s, acts).pcs[t] == s.pcs[t]
    decreases |acts|
  {
    if acts != [] {
      StuckStays(s, acts[0], t);
      StepKeepsInv(s, acts[0]);
      StuckForever(Apply(s, acts[0]), acts[1..], t);
    }
  }

  /** Some continuation takes `t` past where it stands. */
  ghost predicate CanGetOn(s: State, t: Tid)
    requires t in s.pcs
  {
    exists acts :: Moves(s, acts, t)
  }

  ghost predicate Moves(s: State, acts: seq<Action>, t: Tid)
    requires t in s.pcs
  {
    CanRun(s, acts) && t in Exec(s, acts).pcs && Exec(s, acts).pcs[t] != s.pcs[t]
  }

  lemma TokenLetsItMove(s: State, t: Tid)
    requires t in s.pcs && s.pcs[t].Blocking() && s.q.sem > 0
    ensures CanRun(s, [Step(t)]) && Exec(s, [Step(t)]) == Apply(s, Step(t)) && Moves(s, [Step(t)], t)
  {
    assert [Step(t)][1..] == [];
  }

  lemma PostLetsItMove(s: State, t: Tid, u: Tid)
    requires t in s.pcs && s.pcs[t].Blocking() && u in s.pcs && s.pcs[u] == SendPost
    ensures Moves(s, [Step(u), Step(t)], t)
  {
    var r := Apply(s, Step(u));
    TokenLetsItMove(r, t);
    assert [Step(u), Step(t)][1..] == [Step(t)];
  }

  /**
   A thread waiting for a token under the mutex can ever get on if and only if some queued message
   is not claimed by a token already taken.
   */
  lemma BlockedCanGetOnIff(s: State, t: Tid)
    requires Inv(s) && t in s.pcs && s.pcs[t].Blocking()
    ensures CanGetOn(s, t) <==> |Tokens(s.pcs)| < |s.q.queue|
  {
    TokenForUnclaimed(s, t);
    if s.q.sem > 0 {
      TokenLetsItMove(s, t);
    } else if PostComing(s) {
      var u :| u in s.pcs && s.pcs[u] == SendPost;
      PostLetsItMove(s, t, u);
    } else {
      forall acts | CanRun(s, acts) ensures !Moves(s, acts, t) {
        StuckForever(s, acts, t);
      }
    }
  }

  lemma {:induction false} RunThen(s: State, acts: seq<Action>, a: Action)
    requires CanRun(s, acts) && Enabled(Exec(s, acts), a)
    ensures CanRun(s, acts + [a]) && Exec(s, acts + [a]) == Apply(Exec(s, acts), a)
    decreases |acts|
  {
    if acts == [] {
      assert [a][1..] == [];
    } else {
      RunThen(Apply(s, acts[0]), acts[1..], a);
      assert (acts + [a])[1..] == acts[1..] + [a];
    }
  }
}
