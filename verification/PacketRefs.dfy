/**
 Reference counts against the allocator, for any interleaving of clients.  `Release` drops the
 count under the packet's lock but calls `PutPacket` only after unlocking, so other clients may
 run in between; that gap is the `putting` component of the state.

 Nothing here makes a wrong release impossible: a client acts on a packet because it holds a
 reference, whatever has become of the packet; the references are not part of the packet, and
 outlive it if it is put too early; and a second `PutPacket` would free the same pages again.
 */
module PacketRefs {
  import opened Binary
  import opened Buddy

  type Packet = nat
  type Client = nat

  /** The fields of a packet shell.  It keeps them while it is idle. */
  datatype Shell = Shell(refCount: nat, pages: set<nat>)

  datatype State = State(
    F: set<nat>,                             // free pages
    shells: map<Packet, Shell>,
    out: set<Packet>,                        // got and not put back
    refs: map<Packet, multiset<Client>>,     // the references clients hold
    putting: map<Client, Packet>,            // clients between the unlock in Release and PutPacket
    gets: multiset<Packet>,                  // history: every GetPacket
    puts: multiset<Packet>)                  // history: every PutPacket
  {
    ghost function Of(p: Packet): Shell
    {
      if p in shells then shells[p] else Shell(0, {})
    }

    ghost function Holders(p: Packet): multiset<Client>
    {
      if p in refs then refs[p] else multiset{}
    }

    ghost function Count(p: Packet, n: nat): State
    {
      this.(shells := shells[p := Of(p).(refCount := n)])
    }
  }

  datatype Action =
    | Get(c: Client, p: Packet, run: set<nat>)
    | AddRef(c: Client, forClient: Client, p: Packet)
    | Drop(c: Client, p: Packet)
    | Put(c: Client)

  /** A client acts on a packet only while it holds a reference, and finishes a `Release` it began. */
  ghost predicate Enabled(s: State, a: Action)
  {
    match a
    case Get(c, p, run) => c !in s.putting && p !in s.out && run <= s.F
    case AddRef(c, _, p) => c !in s.putting && c in s.Holders(p)
    case Drop(c, p) => c !in s.putting && c in s.Holders(p)
    case Put(c) => c in s.putting
  }

  ghost function Apply(s: State, a: Action): State
    requires Enabled(s, a)
  {
    match a
    case Get(c, p, run) =>
      s.(F := s.F - run, shells := s.shells[p := Shell(1, run)], out := s.out + {p},
         refs := s.refs[p := s.Holders(p) + multiset{c}], gets := s.gets + multiset{p})
    case AddRef(c, d, p) =>
      s.Count(p, s.Of(p).refCount + 1).(refs := s.refs[p := s.Holders(p) + multiset{d}])
    case Drop(c, p) =>
      var n := s.Of(p).refCount;
      var t := s.(refs := s.refs[p := s.Holders(p) - multiset{c}]);
      if n == 0 then t  // the error branch of Release
      else t.Count(p, n - 1).(putting := if n == 1 then s.putting[c := p] else s.putting)
    case Put(c) =>
      var p := s.putting[c];
      s.(F := s.F + s.Of(p).pages, out := s.out - {p}, putting := s.putting - {c}, puts := s.puts + multiset{p})
  }

  ghost predicate Init(s: State)
  {
    && s.shells == map[] && s.out == {} && s.refs == map[] && s.putting == map[]
    && s.gets == multiset{} && s.puts == multiset{}
  }

  /** The count of a packet is the number of references held, and there are none to a packet put back. */
  ghost predicate CountsHolders(s: State)
  {
    && (forall p :: p in s.out ==> s.Of(p).refCount == |s.Holders(p)|)
    && (forall p :: p !in s.out ==> s.Holders(p) == multiset{})
  }

  /** Exactly the packets whose count reached zero have one client about to return them. */
  ghost predicate PuttingDead(s: State)
  {
    && (forall c :: c in s.putting ==> s.putting[c] in s.out && s.Of(s.putting[c]).refCount == 0)
    && (forall c, d :: c in s.putting && d in s.putting && s.putting[c] == s.putting[d] ==> c == d)
    && (forall p :: p in s.out && s.Of(p).refCount == 0 ==> p in s.putting.Values)
  }

  ghost predicate PagesApart(s: State)
  {
    && (forall p :: p in s.out ==> s.Of(p).pages !! s.F)
    && (forall p, q :: p in s.out && q in s.out && p != q ==> s.Of(p).pages !! s.Of(q).pages)
  }

  /** Every lifetime begun by GetPacket has ended in one PutPacket or still goes on. */
  ghost predicate OncePerLifetime(s: State)
  {
    forall p :: s.gets[p] == s.puts[p] + if p in s.out then 1 else 0
  }

  ghost predicate Inv(s: State)
  {
    CountsHolders(s) && PuttingDead(s) && PagesApart(s) && OncePerLifetime(s)
  }

  ghost predicate CanRun(s: State, acts: seq<Action>)
    decreases |acts|
  {
    acts == [] || (Enabled(s, acts[0]) && CanRun(Apply(s, acts[0]), acts[1..]))
  }

  ghost function Exec(s: State, acts: seq<Action>): State
    requires CanRun(s, acts)
    decreases |acts|
  {
    if acts == [] then s else Exec(Apply(s, acts[0]), acts[1..])
  }

  /** Whoever holds a reference finds the packet alive and its count positive. */
  lemma HolderMeansCount(s: State, p: Packet, c: Client)
    requires CountsHolders(s) && c in s.Holders(p)
    ensures p in s.out && s.Of(p).refCount > 0
  {
  }

  /** Only the references to `p` and its count change, and in step. */
  lemma OneChanged(s: State, t: State, p: Packet)
    requires CountsHolders(s) && p in t.out && t.Of(p).refCount == |t.Holders(p)|
    requires forall q :: q != p ==> t.Of(q) == s.Of(q) && t.Holders(q) == s.Holders(q) && (q in t.out <==> q in s.out)
    ensures CountsHolders(t)
  {
  }

  lemma GetKeepsCounts(s: State, a: Action)
    requires CountsHolders(s) && Enabled(s, a) && a.Get?
    ensures CountsHolders(Apply(s, a))
  {
    var t := Apply(s, a);
    assert t.Holders(a.p) == multiset{a.c};
    OneChanged(s, t, a.p);
  }

  lemma AddRefKeepsCounts(s: State, a: Action)
    requires CountsHolders(s) && Enabled(s, a) && a.AddRef?
    ensures CountsHolders(Apply(s, a))
  {
    HolderMeansCount(s, a.p, a.c);
    assert |s.Holders(a.p) + multiset{a.forClient}| == |s.Holders(a.p)| + 1;
    OneChanged(s, Apply(s, a), a.p);
  }

  lemma DropKeepsCounts(s: State, a: Action)
    requires CountsHolders(s) && Enabled(s, a) && a.Drop?
    ensures CountsHolders(Apply(s, a))
  {
    HolderMeansCount(s, a.p, a.c);
    assert |s.Holders(a.p) - multiset{a.c}| == |s.Holders(a.p)| - 1;
    OneChanged(s, Apply(s, a), a.p);
  }

  /** A packet put back at count zero leaves no reference behind. */
  lemma PutKeepsCounts(s: State, a: Action)
    requires CountsHolders(s) && PuttingDead(s) && Enabled(s, a) && a.Put?
    ensures CountsHolders(Apply(s, a))
  {
    assert |s.Holders(s.putting[a.c])| == 0;
  }

  lemma StepKeepsCounts(s: State, a: Action)
    requires CountsHolders(s) && PuttingDead(s) && Enabled(s, a)
    ensures CountsHolders(Apply(s, a))
  {
    match a
    case Get(_, _, _) => GetKeepsCounts(s, a);
    case AddRef(_, _, _) => AddRefKeepsCounts(s, a);
    case Drop(_, _) => DropKeepsCounts(s, a);
    case Put(_) => PutKeepsCounts(s, a);
  }

  lemma DropKeepsPutting(s: State, a: Action)
    requires CountsHolders(s) && PuttingDead(s) && Enabled(s, a) && a.Drop?
    ensures PuttingDead(Apply(s, a))
  {
    var t := Apply(s, a);
    HolderMeansCount(s, a.p, a.c);
    forall p | p in t.out && t.Of(p).refCount == 0 ensures p in t.putting.Values {
      var c := if p == a.p then a.c else var d :| d in s.putting && s.putting[d] == p; d;
      assert c in t.putting && t.putting[c] == p;
    }
  }

  lemma PutKeepsPutting(s: State, a: Action)
    requires PuttingDead(s) && Enabled(s, a) && a.Put?
    ensures PuttingDead(Apply(s, a))
  {
    var t := Apply(s, a);
    forall p | p in t.out && t.Of(p).refCount == 0 ensures p in t.putting.Values {
      var c :| c in s.putting && s.putting[c] == p;
      assert c in t.putting && t.putting[c] == p;
    }
  }

  lemma StepKeepsPutting(s: State, a: Action)
    requires CountsHolders(s) && PuttingDead(s) && Enabled(s, a)
    ensures PuttingDead(Apply(s, a))
  {
    match a
    case Get(_, _, _) =>
    case AddRef(c, _, p) => HolderMeansCount(s, p, c);
    case Drop(_, _) => DropKeepsPutting(s, a);
    case Put(_) => PutKeepsPutting(s, a);
  }

  lemma GetKeepsPages(s: State, a: Action)
    requires PagesApart(s) && Enabled(s, a) && a.Get?
    ensures PagesApart(Apply(s, a))
  {
  }

  /** The pages put back belong to no other packet, because this one was still out. */
  lemma PutKeepsPages(s: State, a: Action)
    requires PuttingDead(s) && PagesApart(s) && Enabled(s, a) && a.Put?
    ensures PagesApart(Apply(s, a))
  {
  }

  lemma SamePages(s: State, t: State)
    requires PagesApart(s) && t.F == s.F && t.out == s.out && forall p :: p in s.out ==> t.Of(p).pages == s.Of(p).pages
    ensures PagesApart(t)
  {
  }

  lemma StepKeepsPages(s: State, a: Action)
    requires PuttingDead(s) && PagesApart(s) && Enabled(s, a)
    ensures PagesApart(Apply(s, a))
  {
    match a
    case Get(_, _, _) => GetKeepsPages(s, a);
    case Put(_) => PutKeepsPages(s, a);
    case _ => SamePages(s, Apply(s, a));
  }

  lemma StepKeepsLifetimes(s: State, a: Action)
    requires PuttingDead(s) && OncePerLifetime(s) && Enabled(s, a)
    ensures OncePerLifetime(Apply(s, a))
  {
  }

  lemma StepKeepsInv(s: State, a: Action)
    requires Inv(s) && Enabled(s, a)
    ensures Inv(Apply(s, a))
  {
    StepKeepsCounts(s, a);
    StepKeepsPutting(s, a);
    StepKeepsPages(s, a);
    StepKeepsLifetimes(s, a);
  }

  lemma {:induction false} RunKeepsInv(s: State, acts: seq<Action>)
    requires Inv(s) && CanRun(s, acts)
    ensures Inv(Exec(s, acts))
    decreases |acts|
  {
    if acts != [] {
      StepKeepsInv(s, acts[0]);
      RunKeepsInv(Apply(s, acts[0]), acts[1..]);
    }
  }

  /**
   Whatever the clients interleave: a packet to which anyone holds a reference has not been put
   back, its count is positive, and none of its pages lies in a free node.
   */
  lemma ReferencedPagesNotFree(s: State, acts: seq<Action>, c: Client, p: Packet)
    requires Init(s) && CanRun(s, acts) && c in Exec(s, acts).Holders(p)
    ensures var t := Exec(s, acts);
            && p in t.out && t.Of(p).refCount == |t.Holders(p)| > 0
            && forall j: nat, k: nat :: Maximal(t.F, j, k) ==> Block(j, k) !! t.Of(p).pages
  {
    RunKeepsInv(s, acts);
  }

  /** `PutPacket` runs exactly once for every packet lifetime that is over, and never for one put already. */
  lemma PutOncePerLifetime(s: State, acts: seq<Action>, p: Packet)
    requires Init(s) && CanRun(s, acts)
    ensures var t := Exec(s, acts);
            && t.gets[p] == t.puts[p] + (if p in t.out then 1 else 0)
            && (p in t.out && t.Holders(p) == multiset{} <==> exists c :: c in t.putting && t.putting[c] == p)
  {
    RunKeepsInv(s, acts);
    var t := Exec(s, acts);
    if p in t.out && t.Holders(p) == multiset{} {
      var c :| c in t.putting && t.putting[c] == p;
    }
  }

  /** Whoever is about to call `PutPacket` is alone in that, and the packet is alive, unreferenced and at count zero. */
  lemma PutOnlyAtZero(s: State, acts: seq<Action>, c: Client)
    requires Init(s) && CanRun(s, acts) && Enabled(Exec(s, acts), Put(c))
    ensures var t := Exec(s, acts);
            var p := t.putting[c];
            && p in t.out && t.Of(p).refCount == 0 && t.Holders(p) == multiset{}
            && forall d :: d in t.putting && t.putting[d] == p ==> d == c
  {
    RunKeepsInv(s, acts);
    var t := Exec(s, acts);
    assert |t.Holders(t.putting[c])| == 0;
  }

  // ---- Pages and references, from the calls alone

  /** The pages behind the packets out. */
  ghost predicate Behind(s: State, x: nat)
  {
    exists p :: p in s.out && x in s.Of(p).pages
  }

  lemma GetMovesPages(s: State, a: Action, x: nat)
    requires Enabled(s, a) && a.Get?
    ensures Behind(Apply(s, a), x) <==> Behind(s, x) || x in a.run
  {
    var t := Apply(s, a);
    assert t.Of(a.p).pages == a.run && forall p :: p in s.out ==> t.Of(p) == s.Of(p);
    if Behind(t, x) {
      var p :| p in t.out && x in t.Of(p).pages;
    }
    if x in a.run {
      assert a.p in t.out && x in t.Of(a.p).pages;
    }
    if Behind(s, x) {
      var p :| p in s.out && x in s.Of(p).pages;
      assert p in t.out && x in t.Of(p).pages;
    }
  }

  lemma PutMovesPages(s: State, a: Action, x: nat)
    requires PuttingDead(s) && Enabled(s, a) && a.Put?
    ensures Behind(s, x) <==> Behind(Apply(s, a), x) || x in s.Of(s.putting[a.c]).pages
  {
    var t, q := Apply(s, a), s.putting[a.c];
    assert forall p :: t.Of(p) == s.Of(p);
    if Behind(s, x) {
      var p :| p in s.out && x in s.Of(p).pages;
      assert p != q ==> p in t.out && x in t.Of(p).pages;
    }
    if Behind(t, x) {
      var p :| p in t.out && x in t.Of(p).pages;
      assert p in s.out && x in s.Of(p).pages;
    }
  }

  lemma OthersMoveNoPages(s: State, t: State, x: nat)
    requires t.out == s.out && forall p :: p in s.out ==> t.Of(p).pages == s.Of(p).pages
    ensures Behind(t, x) <==> Behind(s, x)
  {
    if Behind(s, x) {
      var p :| p in s.out && x in s.Of(p).pages;
      assert x in t.Of(p).pages;
    }
    if Behind(t, x) {
      var p :| p in t.out && x in t.Of(p).pages;
      assert x in s.Of(p).pages;
    }
  }

  lemma StepConservesPages(s: State, a: Action, x: nat)
    requires PuttingDead(s) && Enabled(s, a)
    ensures x in Apply(s, a).F || Behind(Apply(s, a), x) <==> x in s.F || Behind(s, x)
  {
    match a
    case Get(_, _, _) => GetMovesPages(s, a, x);
    case Put(_) => PutMovesPages(s, a, x);
    case _ => OthersMoveNoPages(s, Apply(s, a), x);
  }

  lemma {:induction false} RunConservesPages(s: State, acts: seq<Action>, x: nat)
    requires Inv(s) && CanRun(s, acts)
    ensures x in Exec(s, acts).F || Behind(Exec(s, acts), x) <==> x in s.F || Behind(s, x)
    decreases |acts|
  {
    if acts != [] {
      StepConservesPages(s, acts[0], x);
      StepKeepsInv(s, acts[0]);
      RunConservesPages(Apply(s, acts[0]), acts[1..], x);
    }
  }

  /** No page is ever lost or made: the free ones and those behind packets out are always those free at the start. */
  lemma PagesConserved(s: State, acts: seq<Action>, x: nat)
    requires Init(s) && CanRun(s, acts)
    ensures x in Exec(s, acts).F || Behind(Exec(s, acts), x) <==> x in s.F
  {
    RunConservesPages(s, acts, x);
  }

  /** What an action does to the references of client `c` to `p`: the getter has one, `AddRef` gives one, `Release` takes the caller's. */
  ghost function Delta(a: Action, c: Client, p: Packet): int
  {
    match a
    case Get(d, q, _) => if d == c && q == p then 1 else 0
    case AddRef(_, d, q) => if d == c && q == p then 1 else 0
    case Drop(d, q) => if d == c && q == p then -1 else 0
    case Put(_) => 0
  }

  /** The references client `c` should hold to `p` after the actions. */
  ghost function Balance(acts: seq<Action>, c: Client, p: Packet): int
    decreases |acts|
  {
    if acts == [] then 0 else Delta(acts[0], c, p) + Balance(acts[1..], c, p)
  }

  /** How often packet `p` is got. */
  ghost function Gets(acts: seq<Action>, p: Packet): nat
    decreases |acts|
  {
    if acts == [] then 0 else (if acts[0].Get? && acts[0].p == p then 1 else 0) + Gets(acts[1..], p)
  }

  lemma OneMore(m: multiset<Client>, d: Client, c: Client)
    ensures (m + multiset{d})[c] == m[c] + if d == c then 1 else 0
    ensures d in m ==> (m - multiset{d})[c] == m[c] - if d == c then 1 else 0
  {
  }

  lemma StepChangesHolders(s: State, a: Action, p: Packet)
    requires Enabled(s, a)
    ensures Apply(s, a).Holders(p) ==
            match a
            case Get(d, q, _) => if q == p then s.Holders(p) + multiset{d} else s.Holders(p)
            case AddRef(_, d, q) => if q == p then s.Holders(p) + multiset{d} else s.Holders(p)
            case Drop(d, q) => if q == p then s.Holders(p) - multiset{d} else s.Holders(p)
            case Put(_) => s.Holders(p)
  {
  }

  lemma StepHolds(s: State, a: Action, c: Client, p: Packet)
    requires Enabled(s, a)
    ensures Apply(s, a).Holders(p)[c] == s.Holders(p)[c] + Delta(a, c, p)
  {
    StepChangesHolders(s, a, p);
    match a
    case Get(d, _, _) => OneMore(s.Holders(p), d, c);
    case AddRef(_, d, _) => OneMore(s.Holders(p), d, c);
    case Drop(d, _) => OneMore(s.Holders(p), d, c);
    case Put(_) =>
  }

  lemma StepGets(s: State, a: Action, p: Packet)
    requires Enabled(s, a)
    ensures Apply(s, a).gets[p] == s.gets[p] + if a.Get? && a.p == p then 1 else 0
  {
  }

  /** References are held just as the calls say, and packets were got just as often. */
  lemma {:induction false} HeldAsCalled(s: State, acts: seq<Action>, c: Client, p: Packet)
    requires CanRun(s, acts)
    ensures Exec(s, acts).Holders(p)[c] == s.Holders(p)[c] + Balance(acts, c, p)
    ensures Exec(s, acts).gets[p] == s.gets[p] + Gets(acts, p)
    decreases |acts|
  {
    if acts != [] {
      StepHolds(s, acts[0], c, p);
      StepGets(s, acts[0], p);
      HeldAsCalled(Apply(s, acts[0]), acts[1..], c, p);
    }
  }
}
