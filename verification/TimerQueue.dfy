/** `CEZTimer` and `CEZTimerManager`: the doubly linked list of started timers and its clock. */
module TimerQueue {
  import opened Sequences
  import opened TimerClock
  import opened TimerSpec
  import opened TimerRuns

  /** What a timer is to call. */
  datatype Callback = Callback(obj: nat, fun: nat, param: int, timeout: nat)

  class CEZTimer {
    var m_pObj: nat
    var m_pTimerFun: nat
    var m_param: int
    var m_timeout: nat
    var m_CallTime: TimerValue
    var m_Priod: uint32
    var m_Started: bool
    var m_Called: bool
    var m_pPrev: CEZTimer?
    var m_pNext: CEZTimer?

    constructor ()
      ensures !m_Started && !m_Called
    {
      m_pObj, m_pTimerFun, m_param, m_timeout := 0, 0, 0, 0;
      m_CallTime, m_Priod := TimerValue(0, 0), 0;
      m_Started, m_Called := false, false;
      m_pPrev, m_pNext := null, null;
    }

    ghost function Does(): Callback
      reads this`m_pObj, this`m_pTimerFun, this`m_param, this`m_timeout
    {
      Callback(m_pObj, m_pTimerFun, m_param, m_timeout)
    }

    ghost function Entry(): Entry<CEZTimer>
      reads this`m_CallTime, this`m_Priod
    {
      TimerSpec.Entry(this, m_CallTime.Value(), m_Priod as nat)
    }

    /** The entry one period later. */
    ghost function Next(): Entry<CEZTimer>
      reads this`m_CallTime, this`m_Priod
    {
      Entry().(due := m_CallTime.Value() + m_Priod as nat)
    }
  }

  ghost function At(r: seq<CEZTimer>, k: int): CEZTimer?
  {
    if 0 <= k < |r| then r[k] else null
  }

  /** `r` is a null-terminated doubly linked list. */
  ghost predicate Linked(r: seq<CEZTimer>)
    reads r`m_pPrev, r`m_pNext
  {
    && Distinct(r)
    && (forall k {:trigger r[k].m_pNext} :: 0 <= k < |r| ==> r[k].m_pNext == At(r, k + 1))
    && (forall k {:trigger r[k].m_pPrev} :: 0 <= k < |r| ==> r[k].m_pPrev == At(r, k - 1))
  }

  /** `q` shows the deadlines and periods of the timers `r`. */
  ghost predicate Shows(q: seq<Entry<CEZTimer>>, r: seq<CEZTimer>)
    reads r`m_CallTime, r`m_Priod
  {
    |q| == |r| && forall i {:trigger q[i]} {:trigger r[i].Entry()} :: 0 <= i < |r| ==> q[i] == r[i].Entry()
  }

  /** The links around `r[i]` lead past it. */
  ghost predicate Bypassed(r: seq<CEZTimer>, i: nat)
    requires i < |r|
    reads r`m_pPrev, r`m_pNext
  {
    && Distinct(r)
    && (forall k {:trigger r[k].m_pNext} :: 0 <= k < |r| && k != i ==> r[k].m_pNext == At(r, if k + 1 == i then i + 1 else k + 1))
    && (forall k {:trigger r[k].m_pPrev} :: 0 <= k < |r| && k != i ==> r[k].m_pPrev == At(r, if k - 1 == i then i - 1 else k - 1))
  }

  lemma DropBypassed(r: seq<CEZTimer>, i: nat)
    requires i < |r| && Bypassed(r, i)
    ensures Linked(Without(r, i))
  {
    var s := Without(r, i);
    forall j | 0 <= j < |s|
      ensures s[j].m_pNext == At(s, j + 1) && s[j].m_pPrev == At(s, j - 1)
    {
      DropOne(r, i, j);
    }
  }

  lemma DropOne(r: seq<CEZTimer>, i: nat, j: nat)
    requires i < |r| && j < |r| - 1 && Bypassed(r, i)
    ensures var s := Without(r, i); s[j].m_pNext == At(s, j + 1) && s[j].m_pPrev == At(s, j - 1)
  {
    var k := if j < i then j else j + 1;
    DroppedAt(r, i, j);
    DroppedAt(r, i, j + 1);
    DroppedAt(r, i, j - 1);
    assert r[k].m_pNext == At(r, if k + 1 == i then i + 1 else k + 1);
    assert r[k].m_pPrev == At(r, if k - 1 == i then i - 1 else k - 1);
  }

  lemma DroppedAt(r: seq<CEZTimer>, i: nat, j: int)
    requires i < |r|
    ensures At(Without(r, i), j) == At(r, if j < i then j else j + 1)
  {
  }

  /** The links lead from `r` through `t` and back into `r` at place `k`. */
  ghost predicate Spliced(r: seq<CEZTimer>, k: nat, t: CEZTimer)
    requires k <= |r|
    reads r`m_pPrev, r`m_pNext, t`m_pPrev, t`m_pNext
  {
    && Distinct(r) && t !in r
    && t.m_pPrev == At(r, k - 1) && t.m_pNext == At(r, k)
    && (forall j {:trigger r[j].m_pNext} :: 0 <= j < |r| ==> r[j].m_pNext == if j + 1 == k then t else At(r, j + 1))
    && (forall j {:trigger r[j].m_pPrev} :: 0 <= j < |r| ==> r[j].m_pPrev == if j == k then t else At(r, j - 1))
  }

  lemma SplicedIn(r: seq<CEZTimer>, k: nat, t: CEZTimer)
    requires k <= |r| && Spliced(r, k, t)
    ensures Linked(r[..k] + [t] + r[k..])
  {
    var s := r[..k] + [t] + r[k..];
    forall i | 0 <= i < |s|
      ensures s[i].m_pNext == At(s, i + 1) && s[i].m_pPrev == At(s, i - 1)
    {
      var j := if i < k then i else i - 1;
      if i != k {
        assert s[i] == r[j];
        assert r[j].m_pNext == At(s, i + 1);
        assert r[j].m_pPrev == At(s, i - 1);
      }
    }
  }

  lemma SplicedShown(q: seq<Entry<CEZTimer>>, r: seq<CEZTimer>, k: nat, t: CEZTimer)
    requires k <= |r| && Shows(q, r)
    ensures Shows(q[..k] + [t.Entry()] + q[k..], r[..k] + [t] + r[k..])
  {
    var q', r' := q[..k] + [t.Entry()] + q[k..], r[..k] + [t] + r[k..];
    forall i | 0 <= i < |r'| ensures q'[i] == r'[i].Entry() {
      var j := if i < k then i else i - 1;
      if i != k {
        assert q'[i] == q[j] && r'[i] == r[j];
      }
    }
  }

  lemma DropShown(q: seq<Entry<CEZTimer>>, r: seq<CEZTimer>, k: nat)
    requires k < |q| == |r|
    requires forall i {:trigger q[i]} :: 0 <= i < |r| && i != k ==> q[i] == r[i].Entry()
    ensures Shows(Without(q, k), Without(r, k))
  {
    var q', r' := Without(q, k), Without(r, k);
    forall j | 0 <= j < |r'| ensures q'[j] == r'[j].Entry() {
      var i := if j < k then j else j + 1;
      assert q'[j] == q[i] && r'[j] == r[i];
    }
  }

  ghost predicate Known(log: seq<Entry<CEZTimer>>, does: map<CEZTimer, Callback>)
  {
    forall i :: 0 <= i < |log| ==> log[i].id in does
  }

  /** The callbacks of the timers fired, in the order of the firings. */
  ghost function Calls(log: seq<Entry<CEZTimer>>, does: map<CEZTimer, Callback>): seq<Callback>
    requires Known(log, does)
  {
    seq(|log|, i requires 0 <= i < |log| => does[log[i].id])
  }

  /** By the firings `log` the two logs have come from `f` and `h` to `fired` and `handed`. */
  ghost predicate Delivered(does: map<CEZTimer, Callback>, f: seq<Entry<CEZTimer>>, h: seq<Callback>,
                            log: seq<Entry<CEZTimer>>, fired: seq<Entry<CEZTimer>>, handed: seq<Callback>)
  {
    Known(log, does) && fired == f + log && handed == h + Calls(log, does)
  }

  lemma DeliveredJoins(does: map<CEZTimer, Callback>, f: seq<Entry<CEZTimer>>, h: seq<Callback>,
                       a: seq<Entry<CEZTimer>>, f1: seq<Entry<CEZTimer>>, h1: seq<Callback>,
                       b: seq<Entry<CEZTimer>>, f2: seq<Entry<CEZTimer>>, h2: seq<Callback>)
    requires Delivered(does, f, h, a, f1, h1) && Delivered(does, f1, h1, b, f2, h2)
    ensures Delivered(does, f, h, a + b, f2, h2)
  {
    assert Calls(a + b, does) == Calls(a, does) + Calls(b, does);
  }

  lemma CallsOne(does: map<CEZTimer, Callback>, e: Entry<CEZTimer>)
    requires e.id in does
    ensures Known([e], does) && Calls([e], does) == [does[e.id]]
  {
  }

  /** The one-shot timers among the firings. */
  ghost function OneShots(log: seq<Entry<CEZTimer>>): set<CEZTimer>
  {
    set i | 0 <= i < |log| && log[i].period == 0 :: log[i].id
  }

  lemma OneShotsAppend(log: seq<Entry<CEZTimer>>, e: Entry<CEZTimer>)
    ensures OneShots(log + [e]) == OneShots(log) + if e.period == 0 then {e.id} else {}
  {
    var r := log + [e];
    forall t ensures t in OneShots(r) <==> t in OneShots(log) || (e.period == 0 && t == e.id) {
      if t in OneShots(log) {
        var i :| 0 <= i < |log| && log[i].period == 0 && log[i].id == t;
        assert r[i] == log[i];
      }
      if e.period == 0 && t == e.id {
        assert r[|log|] == e;
      }
    }
  }

  /** One more firing, with its callback. */
  lemma FiringLogged(does: map<CEZTimer, Callback>, f: seq<Entry<CEZTimer>>, h: seq<Callback>,
                     was: seq<Entry<CEZTimer>>, fired: seq<Entry<CEZTimer>>, handed: seq<Callback>, e: Entry<CEZTimer>)
    requires Delivered(does, f, h, was, fired, handed) && e.id in does
    ensures Delivered(does, f, h, was + [e], fired + [e], handed + [does[e.id]])
    ensures OneShots(was + [e]) == OneShots(was) + if e.period == 0 then {e.id} else {}
  {
    CallsOne(does, e);
    DeliveredJoins(does, f, h, was, fired, handed, [e], fired + [e], handed + [does[e.id]]);
    OneShotsAppend(was, e);
  }

  class CEZTimerManager {
    var m_CurTime: TimerValue
    var m_pHead: CEZTimer?
    ghost var List: seq<CEZTimer>    // the queued timers in list order
    ghost var Queue: seq<Entry<CEZTimer>>  // their deadlines and periods
    ghost var Timers: set<CEZTimer>  // every timer object there is
    ghost var Fired: seq<Entry<CEZTimer>>  // every run() so far, with the deadline it was for
    ghost var Handed: seq<Callback>  // what each of them gave to the timer's threadlet to run
    ghost var CalledNow: seq<Callback>  // every callback made by Stop itself

    ghost predicate Wired()
      reads this`m_pHead, this`List, this`Queue, List`m_pPrev, List`m_pNext, List`m_CallTime, List`m_Priod
    {
      Linked(List) && m_pHead == At(List, 0) && Shows(Queue, List)
    }

    /** Like `Wired`, but the deadline of `pTimer` may have changed since it was queued. */
    ghost predicate WiredBut(pTimer: CEZTimer)
      reads this`m_pHead, this`List, this`Queue, List`m_pPrev, List`m_pNext, List`m_CallTime, List`m_Priod
    {
      && Linked(List) && m_pHead == At(List, 0) && |Queue| == |List|
      && forall i {:trigger Queue[i]} :: 0 <= i < |List| ==>
           Queue[i].id == List[i] && (List[i] != pTimer ==> Queue[i] == List[i].Entry())
    }

    /** The list is in deadline order and holds exactly the started timers. */
    ghost predicate Valid()
      reads this`m_pHead, this`List, this`Queue, this`Timers
      reads List`m_pPrev, List`m_pNext, List`m_CallTime, List`m_Priod, Timers`m_Started
    {
      && Wired() && Sorted(Queue)
      && (forall t :: t in List ==> t in Timers)
      && (forall t :: t in Timers ==> (t.m_Started <==> t in List))
    }

    /** The same with `t` unlinked for the moment. */
    ghost predicate ValidBut(t: CEZTimer)
      reads this`m_pHead, this`List, this`Queue, this`Timers
      reads List`m_pPrev, List`m_pNext, List`m_CallTime, List`m_Priod, Timers`m_Started
    {
      && Wired() && Sorted(Queue) && t in Timers && t !in List
      && (forall u :: u in List ==> u in Timers)
      && (forall u :: u in Timers && u != t ==> (u.m_Started <==> u in List))
    }

    /** No queued timer is late: what holds between any two operations. */
    ghost predicate Punctual()
      reads this`Queue, this`m_CurTime
    {
      NoneLate(Queue, m_CurTime.Value())
    }

    /** Like `Valid`, but `t` may have a new deadline at its old place. */
    ghost predicate Stale(t: CEZTimer)
      reads this`m_pHead, this`List, this`Queue, this`Timers
      reads List`m_pPrev, List`m_pNext, List`m_CallTime, List`m_Priod, Timers`m_Started
    {
      && WiredBut(t) && Sorted(Queue)
      && (forall u :: u in List ==> u in Timers)
      && (forall u :: u in Timers ==> (u.m_Started <==> u in List))
    }

    /** `RemoveTimer` on a queued timer whose deadline may already be the next one. */
    method Dequeue(t: CEZTimer) returns (ghost k: nat)
      requires Stale(t) && t in List
      modifies this`m_pHead, this`List, this`Queue, Timers`m_pPrev, Timers`m_pNext
      ensures ValidBut(t)
      ensures Removed(old(Queue), t, Queue)
      ensures old(Punctual()) ==> Punctual()
    {
      ghost var q, now := Queue, m_CurTime.Value();
      k := RemoveTimer(t);
      RemovedKeeps(q, k, now);
    }

    /** `AddTimer` on an unlinked timer that counts as started. */
    method Enqueue(t: CEZTimer)
      requires ValidBut(t)
      modifies this`m_pHead, this`List, this`Queue, t`m_Started, Timers`m_pPrev, Timers`m_pNext
      ensures Valid() && t.m_Started && Queue == Insert(old(Queue), t.Entry())
      ensures t.m_CallTime.Value() >= m_CurTime.Value() && old(Punctual()) ==> Punctual()
    {
      InsertSorted(Queue, t.Entry());
      InsertNotLate(Queue, t.Entry(), m_CurTime.Value());
      ghost var k := AddTimer(t);
      t.m_Started := true;
    }

    method AddTimer(pTimer: CEZTimer) returns (ghost k: nat)
      requires Wired() && pTimer !in List
      modifies this`m_pHead, this`List, this`Queue, pTimer`m_pPrev, pTimer`m_pNext, List`m_pPrev, List`m_pNext
      ensures Wired() && k <= |old(List)| && List == old(List)[..k] + [pTimer] + old(List)[k..]
      ensures forall u :: u in List <==> u == pTimer || u in old(List)
      ensures Queue == Insert(old(Queue), pTimer.Entry())
    {
      var pp, pn;
      pp, pn, k := FindPlace(pTimer);
      InsertAt(Queue, pTimer.Entry(), k);
      Link(pTimer, pp, pn, k);
      SplicedIn(List, k, pTimer);
      SplicedShown(Queue, List, k, pTimer);
      List := List[..k] + [pTimer] + List[k..];
      Queue := Queue[..k] + [pTimer.Entry()] + Queue[k..];
    }

    /** The search loop of `AddTimer`: the place before the first timer that is not earlier. */
    method FindPlace(pTimer: CEZTimer) returns (pp: CEZTimer?, pn: CEZTimer?, ghost k: nat)
      requires Wired()
      ensures k <= |List| && pn == At(List, k) && pp == At(List, k - 1)
      ensures forall j :: 0 <= j < k ==> pTimer.Entry().due > Queue[j].due
      ensures k == |List| || pTimer.Entry().due <= Queue[k].due
    {
      pp, pn, k := null, m_pHead, 0;
      while pn != null && Later(pTimer.m_CallTime, pn.m_CallTime)
        invariant k <= |List| && pn == At(List, k) && pp == At(List, k - 1)
        invariant forall j :: 0 <= j < k ==> pTimer.Entry().due > Queue[j].due
        decreases |List| - k
      {
        CompareIsOrder(pTimer.m_CallTime, pn.m_CallTime);
        pp := pn;
        pn := pn.m_pNext;
        k := k + 1;
      }
      if pn != null {
        CompareIsOrder(pTimer.m_CallTime, pn.m_CallTime);
      }
    }

    /** The pointer part of `AddTimer`. */
    method Link(pTimer: CEZTimer, pp: CEZTimer?, pn: CEZTimer?, ghost k: nat)
      requires Wired() && pTimer !in List && k <= |List| && pn == At(List, k) && pp == At(List, k - 1)
      modifies this`m_pHead, pTimer`m_pPrev, pTimer`m_pNext, List`m_pPrev, List`m_pNext
      ensures Spliced(List, k, pTimer) && m_pHead == if k == 0 then pTimer else At(List, 0)
    {
      if pp != null {
        pp.m_pNext := pTimer;
      } else {
        m_pHead := pTimer;
      }
      pTimer.m_pPrev := pp;
      if pn != null {
        pn.m_pPrev := pTimer;
      }
      pTimer.m_pNext := pn;
    }

    method RemoveTimer(pTimer: CEZTimer) returns (ghost k: nat)
      requires WiredBut(pTimer) && pTimer in List
      modifies this`m_pHead, this`List, this`Queue, List`m_pPrev, List`m_pNext
      ensures Wired() && k < |old(List)| && old(List)[k] == pTimer && List == Without(old(List), k)
      ensures forall u :: u in List <==> u != pTimer && u in old(List)
      ensures Queue == Without(old(Queue), k)
    {
      k :| 0 <= k < |List| && List[k] == pTimer;
      Unlink(pTimer, k);
      DropBypassed(List, k);
      DropShown(Queue, List, k);
      forall u ensures u in Without(List, k) <==> u != pTimer && u in List {
        MembersWithout(List, k, u);
      }
      List := Without(List, k);
      Queue := Without(Queue, k);
    }

    /** The pointer part of `RemoveTimer`. */
    method Unlink(pTimer: CEZTimer, ghost k: nat)
      requires Linked(List) && m_pHead == At(List, 0) && k < |List| && List[k] == pTimer
      modifies this`m_pHead, List`m_pPrev, List`m_pNext
      ensures Bypassed(List, k) && m_pHead == At(List, if k == 0 then 1 else 0)
    {
      if pTimer.m_pPrev == null {
        m_pHead := pTimer.m_pNext;
        if m_pHead != null {
          m_pHead.m_pPrev := null;
        }
      } else {
        pTimer.m_pPrev.m_pNext := pTimer.m_pNext;
        if pTimer.m_pNext != null {
          pTimer.m_pNext.m_pPrev := pTimer.m_pPrev;
        }
      }
    }

    constructor (now: uint32)
      ensures Valid() && List == [] && Queue == [] && Timers == {} && Fired == []
      ensures m_CurTime == TimerValue(now, 0)
    {
      m_CurTime := TimerValue(now, 0);
      m_pHead := null;
      List, Queue, Timers, Fired, Handed, CalledNow := [], [], {}, [], [], [];
    }

    /** A new timer object becomes known. */
    ghost method Register(t: CEZTimer)
      requires Valid() && t !in Timers && !t.m_Started
      modifies this`Timers
      ensures Valid() && Timers == old(Timers) + {t}
    {
      Timers := Timers + {t};
    }

    /** `~CEZTimer`: a started timer leaves the list with its object. */
    method Destroy(t: CEZTimer)
      requires Valid() && t in Timers
      modifies this`m_pHead, this`List, this`Queue, this`Timers, Timers`m_pPrev, Timers`m_pNext
      ensures Valid() && Timers == old(Timers) - {t} && t !in List
      ensures !t.m_Started ==> Queue == old(Queue)
      ensures t.m_Started ==> Removed(old(Queue), t, Queue)
      ensures old(Punctual()) ==> Punctual()
    {
      if t.m_Started {
        ghost var k := Dequeue(t);
      }
      Timers := Timers - {t};
    }

    /** Deadlines stay below 2^64 for any delay or period. */
    predicate RoomToAdd()
      reads this`m_CurTime
    {
      m_CurTime.Roomy()
    }

    /** Starts a timer, or restarts it: its deadline changes while it may still be linked. */
    method Start(t: CEZTimer, pObj: nat, pTimerFun: nat, dwDueTime: uint32, dwPriod: uint32, param: int, timeout: nat)
      returns (ghost rest: seq<Entry<CEZTimer>>)
      requires Valid() && t in Timers && RoomToAdd()
      modifies this`m_pHead, this`List, this`Queue, Timers`m_pPrev, Timers`m_pNext
      modifies t`m_pObj, t`m_pTimerFun, t`m_param, t`m_timeout, t`m_CallTime, t`m_Priod, t`m_Called, t`m_Started
      ensures Valid() && t.m_Started && !t.m_Called && t.Does() == Callback(pObj, pTimerFun, param, timeout)
      ensures if old(t.m_Started) then Removed(old(Queue), t, rest) else rest == old(Queue)
      ensures Queue == Insert(rest, Entry(t, m_CurTime.Value() + dwDueTime as nat, dwPriod as nat))
      ensures old(Punctual()) ==> Punctual()
    {
      Arm(t, pObj, pTimerFun, dwDueTime, dwPriod, param, timeout);
      ghost var e := t.Entry();
      rest := Restart(t);
      assert t.Entry() == e;
    }

    /** The first part of `Start` sets the callback and the new deadline, wherever the timer may be linked. */
    method Arm(t: CEZTimer, pObj: nat, pTimerFun: nat, dwDueTime: uint32, dwPriod: uint32, param: int, timeout: nat)
      requires Valid() && RoomToAdd()
      modifies t`m_pObj, t`m_pTimerFun, t`m_param, t`m_timeout, t`m_CallTime, t`m_Priod, t`m_Called
      ensures Stale(t) && !t.m_Called && t.Does() == Callback(pObj, pTimerFun, param, timeout)
      ensures t.Entry() == Entry(t, m_CurTime.Value() + dwDueTime as nat, dwPriod as nat)
    {
      t.m_pObj, t.m_pTimerFun, t.m_param, t.m_timeout := pObj, pTimerFun, param, timeout;
      t.m_CallTime := m_CurTime.Plus(dwDueTime);
      PlusBelowOverflow(m_CurTime, dwDueTime);
      t.m_Priod := dwPriod;
      t.m_Called := false;
    }

    /** The list part of `Start`. */
    method Restart(t: CEZTimer) returns (ghost rest: seq<Entry<CEZTimer>>)
      requires Stale(t) && t in Timers
      modifies this`m_pHead, this`List, this`Queue, Timers`m_pPrev, Timers`m_pNext, t`m_Started
      ensures Valid() && t.m_Started && Queue == Insert(rest, t.Entry())
      ensures if old(t.m_Started) then Removed(old(Queue), t, rest) else rest == old(Queue)
      ensures t.m_CallTime.Value() >= m_CurTime.Value() && old(Punctual()) ==> Punctual()
    {
      if t.m_Started {
        ghost var k := Dequeue(t);
      }
      rest := Queue;
      Enqueue(t);
    }

    /** Stops a timer; `bCallNow` asks for the callback of a one-shot timer at once. */
    method Stop(t: CEZTimer, bCallNow: bool)
      requires Valid() && t in Timers
      modifies this`m_pHead, this`List, this`Queue, this`CalledNow, Timers`m_pPrev, Timers`m_pNext, t`m_Started
      ensures Valid() && !t.m_Started
      ensures CalledNow == old(CalledNow) + if old(t.m_Started) && bCallNow && t.m_Priod == 0 then [t.Does()] else []
      ensures !old(t.m_Started) ==> Queue == old(Queue)
      ensures old(t.m_Started) ==> Removed(old(Queue), t, Queue)
      ensures old(Punctual()) ==> Punctual()
    {
      if !t.m_Started {
        return;
      }
      if bCallNow && t.m_Priod == 0 {
        CalledNow := CalledNow + [t.Does()];
      }
      ghost var k := Dequeue(t);
      t.m_Started := false;
    }

    /** No timer is queued twice. */
    lemma QueuedOnce()
      requires Valid()
      ensures DistinctIds(Queue)
    {
    }

    /** `run` on the first timer: one-shot timers are over, periodic ones are queued again. */
    method run(t: CEZTimer)
      requires Valid() && t == m_pHead && t.m_CallTime.Roomy()
      modifies this`m_pHead, this`List, this`Queue, this`Fired, this`Handed, Timers`m_pPrev, Timers`m_pNext
      modifies t`m_CallTime, t`m_Called, t`m_Started
      ensures Valid() && old(Queue) != [] && old(Queue)[0].id == t
      ensures Queue == Fire(old(Queue)) && Fired == old(Fired) + [old(Queue)[0]]
      ensures Handed == old(Handed) + [t.Does()]
      ensures t.m_Called == (old(t.m_Called) || t.m_Priod == 0) && t.m_Started == (t.m_Priod > 0)
    {
      LogRun(t);
      Requeue(t);
    }

    /** The list part of `run`. */
    method Requeue(t: CEZTimer)
      requires Valid() && t == m_pHead && t.m_CallTime.Roomy()
      modifies this`m_pHead, this`List, this`Queue, Timers`m_pPrev, Timers`m_pNext
      modifies t`m_CallTime, t`m_Called, t`m_Started
      ensures Valid() && old(Queue) != [] && old(Queue)[0].id == t && Queue == Fire(old(Queue))
      ensures t.m_Called == (old(t.m_Called) || t.m_Priod == 0) && t.m_Started == (t.m_Priod > 0)
    {
      ghost var fired := TakeHead(t);
      if t.m_Priod != 0 {
        Again(t, fired);
        return;
      }
      Over(t);
    }

    /** `run` is recorded; the threadlet gets the callback. */
    ghost method LogRun(t: CEZTimer)
      requires Queue != []
      modifies this`Fired, this`Handed
      ensures Fired == old(Fired) + [Queue[0]] && Handed == old(Handed) + [t.Does()]
    {
      Fired := Fired + [Queue[0]];
      Handed := Handed + [t.Does()];
    }

    /** `RemoveTimer` on the first timer. */
    method TakeHead(t: CEZTimer) returns (ghost fired: seq<Entry<CEZTimer>>)
      requires Valid() && t == m_pHead
      modifies this`m_pHead, this`List, this`Queue, Timers`m_pPrev, Timers`m_pNext
      ensures ValidBut(t) && old(Queue) != [] && old(Queue)[0] == t.Entry()
      ensures fired == Fire(old(Queue)) && fired == if t.m_Priod == 0 then Queue else Insert(Queue, t.Next())
    {
      fired := Fire(Queue);
      FireHead(Queue, Without(Queue, 0), t.Next());
      ghost var k := RemoveTimer(t);
      assert k == 0;
    }

    /** The one-shot branch of `run`. */
    method Over(t: CEZTimer)
      requires ValidBut(t)
      modifies t`m_Started, t`m_Called
      ensures Valid() && !t.m_Started && t.m_Called
    {
      t.m_Started := false;
      t.m_Called := true;
    }

    /** The periodic branch of `run`. */
    method Again(t: CEZTimer, ghost fired: seq<Entry<CEZTimer>>)
      requires ValidBut(t) && t.m_CallTime.Roomy() && fired == Insert(Queue, t.Next())
      modifies this`m_pHead, this`List, this`Queue, Timers`m_pPrev, Timers`m_pNext, t`m_Started, t`m_CallTime
      ensures Valid() && t.m_Started && Queue == fired
    {
      PlusBelowOverflow(t.m_CallTime, t.m_Priod);
      t.m_CallTime := t.m_CallTime.Plus(t.m_Priod);
      Enqueue(t);
    }

    /** What each timer is to call. */
    ghost function Callbacks(): map<CEZTimer, Callback>
      reads this`Timers, Timers`m_pObj, Timers`m_pTimerFun, Timers`m_param, Timers`m_timeout
    {
      map t | t in Timers :: t.Does()
    }

    /** The timers marked as called are just those of `s`. */
    ghost predicate CalledAre(s: set<CEZTimer>)
      reads this`Timers, Timers`m_Called
    {
      forall t :: t in Timers ==> (t.m_Called <==> t in s)
    }

    /** The catch-up loop of a tick ends, and fires exactly what `CatchUp` lists. */
    method FireDue() returns (ghost log: seq<Entry<CEZTimer>>)
      requires Valid() && m_CurTime.Roomy()
      modifies this`m_pHead, this`List, this`Queue, this`Fired, this`Handed
      modifies Timers`m_pPrev, Timers`m_pNext, Timers`m_CallTime, Timers`m_Called, Timers`m_Started
      ensures Valid() && Fired == old(Fired) + log && CatchUp(old(Queue), m_CurTime.Value()) == (Queue, log)
      ensures Known(log, Callbacks()) && Handed == old(Handed) + Calls(log, Callbacks())
      ensures CalledAre((set t | t in Timers && old(t.m_Called)) + OneShots(log))
    {
      ghost var start, now := Queue, m_CurTime.Value();
      log := FireLoop(start, Fired, Handed, Callbacks(), set t | t in Timers && t.m_Called);
      NoneEarlier(now);
      ReachedEnd(start, now, log, Queue);
    }

    /** The loop. */
    method FireLoop(ghost start: seq<Entry<CEZTimer>>, ghost fired: seq<Entry<CEZTimer>>, ghost handed: seq<Callback>,
                    ghost does: map<CEZTimer, Callback>, ghost called: set<CEZTimer>)
      returns (ghost log: seq<Entry<CEZTimer>>)
      requires Valid() && m_CurTime.Roomy() && start == Queue && fired == Fired && handed == Handed
      requires does == Callbacks() && CalledAre(called)
      modifies this`m_pHead, this`List, this`Queue, this`Fired, this`Handed
      modifies Timers`m_pPrev, Timers`m_pNext, Timers`m_CallTime, Timers`m_Called, Timers`m_Started
      ensures Valid() && Reached(start, m_CurTime.Value(), log, Queue)
      ensures m_pHead != null ==> !Earlier(m_pHead.m_CallTime, m_CurTime)
      ensures Delivered(does, fired, handed, log, Fired, Handed) && CalledAre(called + OneShots(log))
    {
      log := [];
      assert Delivered(does, fired, handed, log, Fired, Handed) && CalledAre(called + OneShots(log));
      while m_pHead != null && Earlier(m_pHead.m_CallTime, m_CurTime)
        invariant Valid() && Reached(start, m_CurTime.Value(), log, Queue)
        invariant Delivered(does, fired, handed, log, Fired, Handed) && CalledAre(called + OneShots(log))
        decreases Lateness(Queue, m_CurTime.Value())
      {
        log := FireLate(start, log, fired, handed, does, called);
      }
    }

    /** What the end of the loop means. */
    lemma NoneEarlier(now: nat)
      requires Valid() && now == m_CurTime.Value() && (m_pHead != null ==> !Earlier(m_pHead.m_CallTime, m_CurTime))
      ensures Queue != [] ==> Queue[0].due >= now
    {
      if m_pHead != null {
        CompareIsOrder(m_pHead.m_CallTime, m_CurTime);
      }
    }

    /** The body of the catch-up loop. */
    method FireLate(ghost start: seq<Entry<CEZTimer>>, ghost was: seq<Entry<CEZTimer>>,
                    ghost fired: seq<Entry<CEZTimer>>, ghost handed: seq<Callback>, ghost does: map<CEZTimer, Callback>,
                    ghost called: set<CEZTimer>)
      returns (ghost log: seq<Entry<CEZTimer>>)
      requires Valid() && m_CurTime.Roomy() && m_pHead != null && Earlier(m_pHead.m_CallTime, m_CurTime)
      requires Reached(start, m_CurTime.Value(), was, Queue) && does == Callbacks()
      requires Delivered(does, fired, handed, was, Fired, Handed)
      requires CalledAre(called + OneShots(was))
      modifies this`m_pHead, this`List, this`Queue, this`Fired, this`Handed
      modifies Timers`m_pPrev, Timers`m_pNext, Timers`m_CallTime, Timers`m_Called, Timers`m_Started
      ensures Valid() && Reached(start, m_CurTime.Value(), log, Queue)
      ensures Lateness(Queue, m_CurTime.Value()) < Lateness(old(Queue), m_CurTime.Value())
      ensures Delivered(does, fired, handed, log, Fired, Handed)
      ensures CalledAre(called + OneShots(log))
    {
      ghost var e := Queue[0];
      log := was + [e];
      CompareIsOrder(m_pHead.m_CallTime, m_CurTime);
      FireLessLate(Queue, m_CurTime.Value());
      ReachedStep(start, m_CurTime.Value(), was, Queue);
      FiringLogged(does, fired, handed, was, Fired, Handed, e);
      RunMarking(m_pHead, called + OneShots(was));
    }

    /** `run`, and which timers are marked as called after it. */
    method RunMarking(t: CEZTimer, ghost called: set<CEZTimer>)
      requires Valid() && t == m_pHead && t.m_CallTime.Roomy() && CalledAre(called)
      modifies this`m_pHead, this`List, this`Queue, this`Fired, this`Handed
      modifies Timers`m_pPrev, Timers`m_pNext, t`m_CallTime, t`m_Called, t`m_Started
      ensures Valid() && old(Queue) != [] && old(Queue)[0].id == t && t in Timers && Queue == Fire(old(Queue))
      ensures Fired == old(Fired) + [old(Queue)[0]] && Handed == old(Handed) + [old(t.Does())]
      ensures CalledAre(called + if old(Queue)[0].period == 0 then {t} else {})
    {
      run(t);
    }

    /** One round of `ThreadProc` after the sleep; `sample` is what the millisecond counter reads. */
    method OnTick(sample: uint32) returns (ghost log: seq<Entry<CEZTimer>>)
      requires Valid() && Tick(m_CurTime, sample).Roomy()
      modifies this`m_CurTime, this`m_pHead, this`List, this`Queue, this`Fired, this`Handed
      modifies Timers`m_pPrev, Timers`m_pNext, Timers`m_CallTime, Timers`m_Called, Timers`m_Started
      ensures Valid() && m_CurTime == Tick(old(m_CurTime), sample)
      ensures old(Punctual()) ==> Punctual()
      ensures sample == old(m_CurTime).lo ==> Queue == old(Queue) && log == []
      ensures sample != old(m_CurTime).lo ==> CatchUp(old(Queue), m_CurTime.Value()) == (Queue, log)
      ensures Fired == old(Fired) + log
      ensures Known(log, Callbacks()) && Handed == old(Handed) + Calls(log, Callbacks())
      ensures forall t :: t in Timers ==> (t.m_Called <==> old(t.m_Called) || t in OneShots(log))
    {
      log := [];
      var moved := ReadClock(sample);
      if !moved {
        return;
      }
      CatchUpSettles(Queue, m_CurTime.Value());
      log := FireDue();
    }

    /** The clock part of a round. */
    method ReadClock(sample: uint32) returns (moved: bool)
      modifies this`m_CurTime
      ensures m_CurTime == Tick(old(m_CurTime), sample)
      ensures moved <==> sample != old(m_CurTime).lo
    {
      var OldTime := m_CurTime.lo;
      m_CurTime := m_CurTime.(lo := sample);
      if m_CurTime.lo == OldTime {
        return false;
      }
      if m_CurTime.lo < OldTime {
        if m_CurTime.lo < WRAP_LIMIT as uint32 {
          m_CurTime := m_CurTime.(hi := ((m_CurTime.hi as nat + 1) % WORD) as uint32);
        }
      }
      return true;
    }

    ghost function State(): Timers<CEZTimer>
      reads this`m_CurTime, this`Queue, this`Fired
    {
      TimerRuns.Timers(m_CurTime, Queue, Fired)
    }

    /** The loop of the timer thread, over the values the counter shows after each sleep. */
    method ThreadProc(samples: seq<uint32>) returns (ghost log: seq<Entry<CEZTimer>>)
      requires Valid()
      requires forall n :: 0 <= n < |samples| ==> Tick(Rounds(State(), samples[..n]).cur, samples[n]).Roomy()
      modifies this`m_CurTime, this`m_pHead, this`List, this`Queue, this`Fired, this`Handed
      modifies Timers`m_pPrev, Timers`m_pNext, Timers`m_CallTime, Timers`m_Called, Timers`m_Started
      ensures Valid() && State() == Rounds(old(State()), samples)
      ensures old(Punctual()) ==> Punctual()
      ensures Fired == old(Fired) + log
      ensures Known(log, Callbacks()) && Handed == old(Handed) + Calls(log, Callbacks())
    {
      var n := 0;
      ghost var start, fired, handed, does := State(), Fired, Handed, Callbacks();
      log := [];
      assert samples[..0] == [];
      while n < |samples|
        invariant n <= |samples| && Valid() && State() == Rounds(start, samples[..n])
        invariant old(Punctual()) ==> Punctual()
        invariant Delivered(does, fired, handed, log, Fired, Handed)
      {
        log := TickOn(samples, n, start, log, fired, handed, does);
        n := n + 1;
      }
      assert samples[..n] == samples;
    }

    lemma NextRound(start: Timers<CEZTimer>, samples: seq<uint32>, n: nat, r: Timers<CEZTimer>, r': Timers<CEZTimer>)
      requires n < |samples| && r == Rounds(start, samples[..n]) && r' == Round(r, samples[n])
      ensures Rounds(start, samples[..n + 1]) == r'
    {
      assert samples[..n + 1][..n] == samples[..n];
    }

    /** The body of the loop. */
    method TickOn(samples: seq<uint32>, n: nat, ghost start: Timers<CEZTimer>, ghost was: seq<Entry<CEZTimer>>,
                  ghost fired: seq<Entry<CEZTimer>>, ghost handed: seq<Callback>, ghost does: map<CEZTimer, Callback>)
      returns (ghost log: seq<Entry<CEZTimer>>)
      requires Valid() && n < |samples| && Tick(m_CurTime, samples[n]).Roomy()
      requires State() == Rounds(start, samples[..n]) && does == Callbacks()
      requires Delivered(does, fired, handed, was, Fired, Handed)
      modifies this`m_CurTime, this`m_pHead, this`List, this`Queue, this`Fired, this`Handed
      modifies Timers`m_pPrev, Timers`m_pNext, Timers`m_CallTime, Timers`m_Called, Timers`m_Started
      ensures Valid() && State() == Rounds(start, samples[..n + 1])
      ensures Delivered(does, fired, handed, log, Fired, Handed)
      ensures old(Punctual()) ==> Punctual()
    {
      ghost var r, f, h := State(), Fired, Handed;
      ghost var more := TickRound(samples[n]);
      NextRound(start, samples, n, r, State());
      DeliveredJoins(does, fired, handed, was, f, h, more, Fired, Handed);
      log := was + more;
    }

    /** A round of the timer thread is a round of `TimerRuns`. */
    method TickRound(sample: uint32) returns (ghost log: seq<Entry<CEZTimer>>)
      requires Valid() && Tick(m_CurTime, sample).Roomy()
      modifies this`m_CurTime, this`m_pHead, this`List, this`Queue, this`Fired, this`Handed
      modifies Timers`m_pPrev, Timers`m_pNext, Timers`m_CallTime, Timers`m_Called, Timers`m_Started
      ensures Valid() && State() == Round(old(State()), sample)
      ensures Fired == old(Fired) + log
      ensures Known(log, Callbacks()) && Handed == old(Handed) + Calls(log, Callbacks())
      ensures old(Punctual()) ==> Punctual()
    {
      log := OnTick(sample);
    }
  }
}
