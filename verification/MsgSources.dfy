/** Where accepted messages come from, and what quitting and resizing do over whole runs of `CEZMsgQue`. */
module MsgSources {
  import opened Options
  import opened Sequences
  import opened MsgMachine
  import opened MsgTheorems

  /** A run that is not empty is a shorter run and a last action. */
  lemma {:induction false} LastStep(s: State, acts: seq<Action>) returns (before: seq<Action>, r: State, a: Action)
    requires CanRun(s, acts) && acts != []
    ensures CanRun(s, before) && Exec(s, before) == r && Enabled(r, a)
    ensures Exec(s, acts) == Apply(r, a) && acts == before + [a]
    decreases |acts|
  {
    if |acts| == 1 {
      before, r, a := [], s, acts[0];
      assert acts[1..] == [];
    } else {
      var first := acts[0];
      before, r, a := LastStep(Apply(s, first), acts[1..]);
      assert ([first] + before)[1..] == before;
      before := [first] + before;
    }
  }

  // ---- Accepted messages are sent messages

  /** The `i`-th action is a call that sends `m`. */
  ghost predicate IsSend(acts: seq<Action>, i: nat, m: Msg)
  {
    i < |acts| && acts[i].Call? && acts[i].op.Send? && acts[i].op.m == m
  }

  /** The `i`-th action is the last call of thread `t`, and sends. */
  ghost predicate SentBy(acts: seq<Action>, i: nat, t: Tid)
  {
    && i < |acts| && acts[i].Call? && acts[i].t == t && acts[i].op.Send?
    && forall j :: i < j < |acts| ==> !(acts[j].Call? && acts[j].t == t)
  }

  /** In `SendMessage`, the message not pushed yet. */
  ghost predicate Accepting(pc: PC)
  {
    pc.SendLock? || pc.SendCheck? || pc.SendPush?
  }

  /** In `SendMessage`; past the push or the refusal it is as good as decided what it returns. */
  ghost predicate InSend(pc: PC)
  {
    Accepting(pc) || pc.SendUnlock? || pc.SendPost? || pc.SendRefused?
  }

  /**
   `source` has for each accepted message the action that sent it, no action twice; `current` has the
   call each thread is in.
   */
  ghost predicate Sources(s: State, acts: seq<Action>, source: seq<nat>, current: map<Tid, nat>)
  {
    && |source| == |s.q.accepted| && Distinct(source)
    && (forall k :: 0 <= k < |source| ==> IsSend(acts, source[k], s.q.accepted[k]) && acts[source[k]].op.priority < 10)
    && (forall t :: t in s.pcs && InSend(s.pcs[t]) ==>
          && t in current && SentBy(acts, current[t], t)
          && (Accepting(s.pcs[t]) ==> current[t] !in source && acts[current[t]].op.m == s.pcs[t].m)
          && (s.pcs[t].SendLock? || s.pcs[t].SendCheck? ==> acts[current[t]].op.priority == s.pcs[t].priority)
          && (s.pcs[t].SendPush? ==> acts[current[t]].op.priority < 10)
          && (!Accepting(s.pcs[t]) ==> (s.pcs[t] != SendRefused <==> current[t] in source)))
  }

  lemma CallKeepsSources(s: State, acts: seq<Action>, t: Tid, op: Op, source: seq<nat>, current: map<Tid, nat>)
    requires Sources(s, acts, source, current) && Enabled(s, Call(t, op))
    ensures Sources(Apply(s, Call(t, op)), acts + [Call(t, op)], source, current[t := |acts|])
  {
  }

  /** A step that accepts nothing. */
  lemma StepKeepsSources(s: State, acts: seq<Action>, t: Tid, source: seq<nat>, current: map<Tid, nat>)
    requires Sources(s, acts, source, current) && Enabled(s, Step(t)) && !s.pcs[t].SendPush?
    ensures Sources(Apply(s, Step(t)), acts + [Step(t)], source, current)
  {
  }

  /** The push accepts the message of the call its thread is in. */
  lemma PushAddsSource(s: State, acts: seq<Action>, t: Tid, source: seq<nat>, current: map<Tid, nat>)
    requires Sources(s, acts, source, current) && Enabled(s, Step(t)) && s.pcs[t].SendPush?
    ensures t in current && Sources(Apply(s, Step(t)), acts + [Step(t)], source + [current[t]], current)
  {
  }

  lemma AnyKeepsSources(s: State, acts: seq<Action>, a: Action, source: seq<nat>, current: map<Tid, nat>)
    returns (source': seq<nat>, current': map<Tid, nat>)
    requires Sources(s, acts, source, current) && Enabled(s, a)
    ensures Sources(Apply(s, a), acts + [a], source', current')
  {
    source', current' := source, current;
    if a.Call? {
      CallKeepsSources(s, acts, a.t, a.op, source, current);
      current' := current[a.t := |acts|];
    } else if s.pcs[a.t].SendPush? {
      PushAddsSource(s, acts, a.t, source, current);
      source' := source + [current[a.t]];
    } else {
      StepKeepsSources(s, acts, a.t, source, current);
    }
  }

  lemma {:induction false} RunHasSources(s: State, acts: seq<Action>) returns (source: seq<nat>, current: map<Tid, nat>)
    requires Init(s) && CanRun(s, acts)
    ensures Sources(Exec(s, acts), acts, source, current)
    decreases |acts|
  {
    if acts == [] {
      return [], map[];
    }
    var before, r, a := LastStep(s, acts);
    source, current := RunHasSources(s, before);
    source, current := AnyKeepsSources(r, before, a, source, current);
  }

  /**
   Every accepted message is the argument of a `SendMessage` call with an allowed priority, as the caller
   gave it; no call has more than one message accepted; and a call returns TRUE, which is past `SendPost`,
   just when its message has been, and FALSE, which is past `SendRefused`, just when it has not.
   */
  lemma AcceptedWereSent(s: State, acts: seq<Action>) returns (source: seq<nat>)
    requires Init(s) && CanRun(s, acts)
    ensures |source| == |Exec(s, acts).q.accepted| && Distinct(source)
    ensures forall k :: 0 <= k < |source| ==>
              && IsSend(acts, source[k], Exec(s, acts).q.accepted[k])
              && acts[source[k]].op.priority < 10
    ensures forall t :: t in Exec(s, acts).pcs && (Exec(s, acts).pcs[t].SendPost? || Exec(s, acts).pcs[t].SendRefused?) ==>
              exists i: nat :: SentBy(acts, i, t) && (Exec(s, acts).pcs[t].SendPost? <==> i in source)
  {
    var current;
    source, current := RunHasSources(s, acts);
    forall t | t in Exec(s, acts).pcs && (Exec(s, acts).pcs[t].SendPost? || Exec(s, acts).pcs[t].SendRefused?)
      ensures exists i: nat :: SentBy(acts, i, t) && (Exec(s, acts).pcs[t].SendPost? <==> i in source)
    {
      assert SentBy(acts, current[t], t);
    }
  }

  // ---- Quitting and resizing

  /** The step of `QuitMessage` under the mutex ends accepting for good, whatever happens after it. */
  lemma QuitIsFinal(s: State, acts: seq<Action>, t: Tid, rest: seq<Action>)
    requires Init(s) && CanRun(s, acts) && t in Exec(s, acts).pcs && Exec(s, acts).pcs[t] == OtherDo(Quit)
    requires Enabled(Exec(s, acts), Step(t)) && CanRun(Apply(Exec(s, acts), Step(t)), rest)
    ensures Exec(Apply(Exec(s, acts), Step(t)), rest).q.accepted == Exec(s, acts).q.accepted
  {
    InitInv(s);
    RunKeepsInv(s, acts);
    StepKeepsInv(Exec(s, acts), Step(t));
    NothingAcceptedAfterQuit(Apply(Exec(s, acts), Step(t)), rest);
  }

  ghost predicate NoQuitCalls(acts: seq<Action>)
  {
    forall i :: 0 <= i < |acts| && acts[i].Call? ==> acts[i].op != Quit
  }

  ghost predicate NobodyQuits(s: State)
  {
    s.q.flag && forall t :: t in s.pcs ==> s.pcs[t] != OtherLock(Quit) && s.pcs[t] != OtherDo(Quit)
  }

  lemma StepWithoutQuit(s: State, a: Action)
    requires NobodyQuits(s) && Enabled(s, a) && (a.Call? ==> a.op != Quit)
    ensures NobodyQuits(Apply(s, a))
  {
  }

  /** Only `QuitMessage` ends accepting. */
  lemma {:induction false} AcceptingUntilQuit(s: State, acts: seq<Action>)
    requires NobodyQuits(s) && CanRun(s, acts) && NoQuitCalls(acts)
    ensures NobodyQuits(Exec(s, acts))
    decreases |acts|
  {
    if acts != [] {
      StepWithoutQuit(s, acts[0]);
      assert NoQuitCalls(acts[1..]);
      AcceptingUntilQuit(Apply(s, acts[0]), acts[1..]);
    }
  }

  /** The step of `SetMessageSize` under the mutex sets the size its caller gave, and nothing else. */
  lemma ResizeSetsSize(s: State, t: Tid, size: int)
    requires t in s.pcs && s.pcs[t] == OtherDo(Resize(size))
    ensures Enabled(s, Step(t))
    ensures var r := Apply(s, Step(t));
            r.q.maxMsg == size && r.q == Que(s.q.queue, s.q.nMsg, size, s.q.flag, s.q.sem, s.q.accepted, s.q.taken)
  {
  }
}
