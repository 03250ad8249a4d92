/** Where the jobs of the pooled threads come from: the calls of `run`, each job as its caller gave it. */
module PoolSources {
  import opened Options
  import opened Sequences
  import opened PooledObjects
  import opened PoolMachine
  import opened PoolInvariant

  /** A run that is not empty is a shorter run and a last action. */
  lemma {:induction false} LastStep(s: State, acts: seq<Action>) returns (before: seq<Action>, r: State, a: Action)
    requires CanRun(s, acts) && acts != []
    ensures CanRun(s, before) && Exec(s, before) == r && Enabled(r, a)
    ensures Exec(s, acts) == Apply(r, a) && acts == before + [a]
    decreases |acts|
  {
    if |acts| == 1 {
      before, r, a := [], s, acts[0];
      assert acts[1..] == [];
    } else {
      var first := acts[0];
      before, r, a := LastStep(Apply(s, first), acts[1..]);
      assert ([first] + before)[1..] == before;
      before := [first] + before;
    }
  }

  /** In `run`, the job not posted yet. */
  ghost predicate Running(pc: CPC)
  {
    pc.RunLock? || pc.RunCheck? || pc.RunGet? || pc.Filling()
  }

  /** The call that client `c` is in is action `i`, and carries the threadlet and the job given there. */
  ghost predicate InCall(acts: seq<Action>, i: nat, c: Cid, pc: CPC)
  {
    && i < |acts|
    && (Running(pc) ==> acts[i] == CallRun(c, pc.l, pc.job))
    && (pc.RunUnlock? ==> acts[i].CallRun? && acts[i].c == c)
    && (pc.Dropping() ==> acts[i] == CallDrop(c, pc.l))
    && forall j :: i < j < |acts| ==> !((acts[j].CallRun? || acts[j].CallDrop?) && acts[j].c == c)
  }

  ghost predicate IsRun(acts: seq<Action>, i: nat, job: Job)
  {
    i < |acts| && acts[i].CallRun? && acts[i].job == job
  }

  /** `source` has for each accepted job the call it came from, no call twice; `current` the call each client is in. */
  ghost predicate Sources(s: State, acts: seq<Action>, source: seq<nat>, current: map<Cid, nat>)
  {
    && |source| == |s.p.accepted| && Distinct(source)
    && (forall k :: 0 <= k < |source| ==> IsRun(acts, source[k], s.p.accepted[k].job))
    && (forall c :: c in s.clients && s.clients[c] != CIdle ==>
          && c in current && InCall(acts, current[c], c, s.clients[c])
          && (Running(s.clients[c]) ==> current[c] !in source)
          && (s.clients[c].RunUnlock? ==> (s.clients[c].ok <==> current[c] in source)))
  }

  lemma CallKeepsSources(s: State, acts: seq<Action>, a: Action, source: seq<nat>, current: map<Cid, nat>)
    requires Sources(s, acts, source, current) && Enabled(s, a) && (a.CallRun? || a.CallDrop?)
    ensures Sources(Apply(s, a), acts + [a], source, current[a.c := |acts|])
  {
  }

  lemma ClientKeepsSources(s: State, acts: seq<Action>, a: Action, source: seq<nat>, current: map<Cid, nat>)
    requires Sources(s, acts, source, current) && Enabled(s, a) && a.Client? && !s.clients[a.c].RunPost?
    ensures Sources(Apply(s, a), acts + [a], source, current)
  {
    ClientCarries(s.p, s.clients[a.c], a.made, a.junk);
  }

  /** A client carries its threadlet and its job unchanged from step to step. */
  lemma ClientCarries(p: Pool, pc: CPC, made: Tid, junk: Thread)
    requires ClientReady(p, pc, made) && !pc.RunPost?
    ensures var (q, pc') := ClientAfter(p, pc, made, junk);
            && q.accepted == p.accepted
            && (Running(pc') ==> Running(pc) && pc'.l == pc.l && pc'.job == pc.job)
            && (pc'.Dropping() ==> pc.Dropping() && pc'.l == pc.l)
            && (pc'.RunUnlock? ==> Running(pc) && !pc'.ok)
  {
  }

  lemma OtherKeepsSources(s: State, acts: seq<Action>, a: Action, source: seq<nat>, current: map<Cid, nat>)
    requires Sources(s, acts, source, current) && Enabled(s, a) && (a.NewLet? || a.Worker?)
    ensures Sources(Apply(s, a), acts + [a], source, current)
  {
  }

  /** The post accepts the job of the call its client is in. */
  lemma PostAddsSource(s: State, acts: seq<Action>, a: Action, source: seq<nat>, current: map<Cid, nat>)
    requires Sources(s, acts, source, current) && Enabled(s, a) && a.Client? && s.clients[a.c].RunPost?
    ensures a.c in current && Sources(Apply(s, a), acts + [a], source + [current[a.c]], current)
  {
  }

  lemma AnyKeepsSources(s: State, acts: seq<Action>, a: Action, source: seq<nat>, current: map<Cid, nat>)
    returns (source': seq<nat>, current': map<Cid, nat>)
    requires Sources(s, acts, source, current) && Enabled(s, a)
    ensures Sources(Apply(s, a), acts + [a], source', current')
  {
    source', current' := source, current;
    if a.CallRun? || a.CallDrop? {
      CallKeepsSources(s, acts, a, source, current);
      current' := current[a.c := |acts|];
    } else if !a.Client? {
      OtherKeepsSources(s, acts, a, source, current);
    } else if s.clients[a.c].RunPost? {
      PostAddsSource(s, acts, a, source, current);
      source' := source + [current[a.c]];
    } else {
      ClientKeepsSources(s, acts, a, source, current);
    }
  }

  lemma {:induction false} RunHasSources(s: State, acts: seq<Action>) returns (source: seq<nat>, current: map<Cid, nat>)
    requires Init(s) && CanRun(s, acts)
    ensures Sources(Exec(s, acts), acts, source, current)
    decreases |acts|
  {
    if acts == [] {
      return [], map[];
    }
    var before, r, a := LastStep(s, acts);
    source, current := RunHasSources(s, before);
    source, current := AnyKeepsSources(r, before, a, source, current);
  }

  /** A client in `run` or a destructor works for the threadlet, and with the job, of the last call it made. */
  lemma ClientsCarryTheirCalls(s: State, acts: seq<Action>, c: Cid) returns (i: nat)
    requires Init(s) && CanRun(s, acts) && c in Exec(s, acts).clients
    requires Exec(s, acts).clients[c] != CIdle
    ensures InCall(acts, i, c, Exec(s, acts).clients[c])
  {
    var source, current := RunHasSources(s, acts);
    i := current[c];
  }

  /**
   Every accepted job is that of a call of `run`, as its caller gave it; no call has two jobs accepted; and a
   call about to return says TRUE just when its job has been.
   */
  lemma AcceptedWereGiven(s: State, acts: seq<Action>) returns (source: seq<nat>)
    requires Init(s) && CanRun(s, acts)
    ensures |source| == |Exec(s, acts).p.accepted| && Distinct(source)
    ensures forall k :: 0 <= k < |source| ==> IsRun(acts, source[k], Exec(s, acts).p.accepted[k].job)
    ensures forall c :: c in Exec(s, acts).clients && Exec(s, acts).clients[c].RunUnlock? ==>
              exists i: nat :: InCall(acts, i, c, Exec(s, acts).clients[c]) && (Exec(s, acts).clients[c].ok <==> i in source)
  {
    var current;
    source, current := RunHasSources(s, acts);
    forall c | c in Exec(s, acts).clients && Exec(s, acts).clients[c].RunUnlock?
      ensures exists i: nat :: InCall(acts, i, c, Exec(s, acts).clients[c]) && (Exec(s, acts).clients[c].ok <==> i in source)
    {
      assert InCall(acts, current[c], c, Exec(s, acts).clients[c]);
    }
  }

  lemma DistinctPick(of: seq<nat>, numbers: seq<nat>) returns (picked: seq<nat>)
    requires Distinct(of) && Distinct(numbers) && forall i :: 0 <= i < |numbers| ==> numbers[i] < |of|
    ensures |picked| == |numbers| && Distinct(picked)
    ensures forall i :: 0 <= i < |numbers| ==> picked[i] == of[numbers[i]]
  {
    picked := seq(|numbers|, i requires 0 <= i < |numbers| => of[numbers[i]]);
    assert forall a, b :: 0 <= a < |of| && 0 <= b < |of| && a != b ==> of[a] != of[b];
  }

  /** The numbers of the executed jobs: each one accepted, none twice. */
  lemma ExecutedNumbers(s: State, acts: seq<Action>) returns (numbers: seq<nat>)
    requires Init(s) && CanRun(s, acts)
    ensures var p := Exec(s, acts).p;
            && |numbers| == |p.executed| && Distinct(numbers)
            && forall i :: 0 <= i < |numbers| ==> numbers[i] < |p.accepted| && p.accepted[numbers[i]] == p.executed[i].ticket
  {
    ReachableInv(s, acts);
    var p := Exec(s, acts).p;
    numbers := seq(|p.executed|, i requires 0 <= i < |p.executed| => p.executed[i].number);
    assert forall i :: 0 <= i < |p.executed| ==> Genuine(p, p.executed[i]);
  }

  /** Exactly once, from call to callback: each callback runs the job of a call of `run`, and no call has two callbacks. */
  lemma CallbacksWereGiven(s: State, acts: seq<Action>) returns (source: seq<nat>)
    requires Init(s) && CanRun(s, acts)
    ensures |source| == |Exec(s, acts).p.executed| && Distinct(source)
    ensures forall i :: 0 <= i < |source| ==> IsRun(acts, source[i], Exec(s, acts).p.executed[i].ticket.job)
  {
    var of := AcceptedWereGiven(s, acts);
    var numbers := ExecutedNumbers(s, acts);
    source := DistinctPick(of, numbers);
  }
}
