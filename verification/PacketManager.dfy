/** `CPacket` and `CPacketManager`: packets over the page area, and the list of idle packet shells. */
module PacketManager {
  import opened Binary
  import opened Buddy
  import opened Runs
  import opened Sequences
  import opened Levels
  import PageArea

  const PKT_PAGE_SIZE := 1024
  const NALL := 1024

  class CPacket {
    var m_pBuffer: int  // byte offset from the start of the page area, -1 for no buffer
    var m_Size: nat
    var m_Length: nat
    var m_RefCount: nat
    var m_pNext: CPacket?
    ghost var order: nat  // the aligned block `node` of level `order` the buffer was cut from
    ghost var node: nat

    constructor ()
    {
      m_pBuffer, m_Size, m_Length, m_RefCount, m_pNext := -1, 0, 0, 0, null;
    }

    method Init()
      modifies this
      ensures m_RefCount == 1 && m_Length == 0 && m_Size == 0 && m_pBuffer == -1
    {
      m_RefCount, m_Length, m_Size, m_pBuffer := 1, 0, 0, -1;
    }

    /** The pages behind the buffer. */
    ghost function Pages(): set<nat>
      reads this
    {
      if m_Size == 0 || m_pBuffer < 0 then {} else Run(order, node, (m_pBuffer + m_Size) / PKT_PAGE_SIZE)
    }

    /** The buffer is a whole number of pages cut from the start of an aligned block. */
    ghost predicate HasRun(n: nat)
      reads this
    {
      m_Size > 0 ==>
        && m_Size % PKT_PAGE_SIZE == 0 && m_pBuffer >= 0 && m_pBuffer % PKT_PAGE_SIZE == 0
        && Granted(n, m_pBuffer / PKT_PAGE_SIZE, m_Size / PKT_PAGE_SIZE, order, node)
    }
  }

  /** A null-terminated chain through `m_pNext`. */
  ghost predicate Chain(s: seq<CPacket>)
    reads s
  {
    && Distinct(s)
    && forall i {:trigger s[i].m_pNext} :: 0 <= i < |s| ==> s[i].m_pNext == if i + 1 < |s| then s[i + 1] else null
  }

  /** Free pages and held page sets partition the page area. */
  ghost predicate Partition(n: nat, F: set<nat>, held: map<CPacket, set<nat>>)
  {
    && (forall p: CPacket :: p in held ==> held[p] !! F && held[p] <= AllPages(n))
    && (forall p: CPacket, q: CPacket :: p in held && q in held && p != q ==> held[p] !! held[q])
    && (forall x :: x in AllPages(n) ==> x in F || exists p: CPacket :: p in held && x in held[p])
  }

  lemma PartitionTake(n: nat, F: set<nat>, held: map<CPacket, set<nat>>, p: CPacket, S: set<nat>)
    requires Partition(n, F, held) && p !in held && S <= F <= AllPages(n)
    ensures Partition(n, F - S, held[p := S])
  {
    var h := held[p := S];
    forall x | x in AllPages(n) ensures x in F - S || exists q: CPacket :: q in h && x in h[q] {
      if x in S {
        assert p in h && x in h[p];
      } else if x !in F {
        var q: CPacket :| q in held && x in held[q];
        assert q in h && x in h[q];
      }
    }
  }

  lemma UndoTake(F: set<nat>, held: map<CPacket, set<nat>>, p: CPacket, S: set<nat>)
    requires p !in held && S <= F
    ensures (F - S) + S == F && held[p := S] - {p} == held
  {
  }

  lemma PartitionReturn(n: nat, F: set<nat>, held: map<CPacket, set<nat>>, p: CPacket)
    requires Partition(n, F, held) && p in held
    ensures Partition(n, F + held[p], held - {p})
  {
    var h := held - {p};
    forall x | x in AllPages(n) ensures x in F + held[p] || exists q: CPacket :: q in h && x in h[q] {
      if x !in F + held[p] {
        var q: CPacket :| q in held && x in held[q];
        assert q in h && x in h[q];
      }
    }
  }

  /** The byte figures of a run in pages. */
  lemma ByteFigures(start: nat, pages: nat)
    ensures start * PKT_PAGE_SIZE % PKT_PAGE_SIZE == 0 && pages * PKT_PAGE_SIZE % PKT_PAGE_SIZE == 0
    ensures start * PKT_PAGE_SIZE / PKT_PAGE_SIZE == start && pages * PKT_PAGE_SIZE / PKT_PAGE_SIZE == pages
    ensures (start * PKT_PAGE_SIZE + pages * PKT_PAGE_SIZE) / PKT_PAGE_SIZE == start + pages
  {
  }

  /** The granted size is enough, and less than twice what was asked for unless it is one page. */
  lemma GrantedSize(dwBytes: nat, order: nat)
    requires dwBytes > 0 && Fits((dwBytes + PKT_PAGE_SIZE - 1) / PKT_PAGE_SIZE, order)
    ensures Pow2(order) * PKT_PAGE_SIZE >= dwBytes
    ensures Pow2(order) * PKT_PAGE_SIZE == PKT_PAGE_SIZE || Pow2(order) * PKT_PAGE_SIZE < 2 * dwBytes
  {
  }

  // ---- Conservation: counting the pages of free nodes and packets together

  ghost function PagesHeld(held: map<CPacket, set<nat>>): set<nat>
  {
    set p, x | p in held && x in held[p] :: x
  }

  /** The sum of the page counts of all packets. */
  ghost function TotalHeld(held: map<CPacket, set<nat>>): nat
  {
    if held == map[] then 0
    else
      var p: CPacket :| p in held;
      |held[p]| + TotalHeld(held - {p})
  }

  lemma {:induction false} TotalHeldIsSize(held: map<CPacket, set<nat>>)
    requires forall p: CPacket, q: CPacket :: p in held && q in held && p != q ==> held[p] !! held[q]
    ensures |PagesHeld(held)| == TotalHeld(held)
    decreases |held|
  {
    if held != map[] {
      var p: CPacket :| p in held && TotalHeld(held) == |held[p]| + TotalHeld(held - {p});
      var rest := held - {p};
      TotalHeldIsSize(rest);
      forall x ensures x in PagesHeld(held) <==> x in held[p] || x in PagesHeld(rest) {
        if x in PagesHeld(held) {
          var q: CPacket :| q in held && x in held[q];
          assert q != p ==> q in rest && rest[q] == held[q];
        }
      }
      DisjointSize(held[p], PagesHeld(rest), PagesHeld(held));
    }
  }

  class CPacketManager {
    const area: PageArea.PageArea
    var m_pFreeList: CPacket?
    ghost var Pool: seq<CPacket>  // the idle shells
    ghost var Held: map<CPacket, set<nat>>  // the packets handed out and the pages behind each

    ghost predicate PoolValid()
      reads this, Pool
    {
      && Chain(Pool)
      && m_pFreeList == (if Pool == [] then null else Pool[0])
    }

    /** What the packets handed out record about their buffers. */
    ghost predicate HeldValid()
      reads this, Held.Keys
    {
      forall p: CPacket :: p in Held ==> p.HasRun(area.m_nPages) && p.Pages() == Held[p]
    }

    /** No object plays two parts. */
    ghost predicate Apart()
      reads this
    {
      && this !in area.Repr
      && (forall p: CPacket :: p in Held ==> p !in area.Repr && p !in Pool)
      && (forall p :: p in Pool ==> p !in area.Repr)
    }

    ghost predicate Valid()
      reads this, area, area.Repr, Held.Keys, Pool
    {
      && area.Valid() && PoolValid() && HeldValid() && Apart()
      && Partition(area.m_nPages, area.F, Held)
    }

    constructor (pages: nat)
      ensures Valid() && Held == map[] && area.m_nPages == pages && area.F == AllPages(pages)
    {
      area := new PageArea.PageArea(pages);
      m_pFreeList, Pool, Held := null, [], map[];
    }

    method AllocPacket() returns (p: CPacket)
      requires PoolValid()
      modifies this`m_pFreeList, this`Pool
      ensures PoolValid() && p !in Pool
      ensures if old(Pool) != [] then [p] + Pool == old(Pool) else fresh(p) && fresh(Pool) && |Pool| == NALL - 1
    {
      if m_pFreeList != null {
        p := m_pFreeList;
        m_pFreeList := p.m_pNext;
        Pool := Pool[1..];
      } else {
        var q := NewPackets();
        var i := NALL - 1;
        m_pFreeList := q[i];
        while i > 0
          invariant 0 <= i < NALL && m_pFreeList == q[NALL - 1]
          invariant forall j :: i < j < NALL ==> q[j].m_pNext == q[j - 1]
        {
          q[i].m_pNext := q[i - 1];
          i := i - 1;
        }
        q[i + 1].m_pNext := null;
        p := q[i];
        Pool := seq(NALL - 1, j requires 0 <= j < NALL - 1 => q[NALL - 1 - j]);
      }
    }

    static method NewPackets() returns (q: seq<CPacket>)
      ensures |q| == NALL && fresh(q) && Distinct(q)
    {
      q := [];
      while |q| < NALL
        invariant |q| <= NALL && fresh(q) && Distinct(q)
      {
        var p := new CPacket();
        q := q + [p];
      }
    }

    method FreePacket(p: CPacket)
      requires PoolValid() && p !in Pool
      modifies this`m_pFreeList, this`Pool, p`m_pNext
      ensures PoolValid() && Pool == [p] + old(Pool)
    {
      p.m_pNext := m_pFreeList;
      m_pFreeList := p;
      Pool := [p] + Pool;
    }

    /** A shell that belongs to nobody. */
    ghost predicate Loose(p: CPacket)
      reads this
    {
      p !in Pool && p !in Held && p !in area.Repr
    }

    method TakeShell() returns (p: CPacket)
      requires Valid()
      modifies this`m_pFreeList, this`Pool, if Pool == [] then {} else {Pool[0]}
      ensures Valid() && Loose(p)
      ensures p.m_RefCount == 1 && p.m_Length == 0 && p.m_Size == 0 && p.m_pBuffer == -1
      ensures if old(Pool) != [] then p == old(Pool)[0] && Pool == old(Pool)[1..] else fresh(p) && |Pool| == NALL - 1
    {
      p := AllocPacket();
      p.Init();
    }

    method ReturnShell(p: CPacket)
      requires Valid() && Loose(p)
      modifies this`m_pFreeList, this`Pool, p`m_pNext
      ensures Valid() && Pool == [p] + old(Pool)
    {
      FreePacket(p);
    }

    /** Gives a loose shell a buffer of `pages` pages, if there is one. */
    method TakePages(p: CPacket, pages: nat) returns (ok: bool, start: nat, ghost order: nat, ghost k: nat)
      requires Valid() && Loose(p) && pages > 0 && p.m_Size == 0
      modifies this`Held, area`F, area.Repr, p`m_Size, p`m_pBuffer, p`order, p`node
      ensures Valid() && Fits(pages, order) && p !in Pool
      ensures ok <==> exists x: nat :: Block(order, x) <= old(area.F)
      ensures !ok ==> area.F == old(area.F) && Held == old(Held)
      ensures ok ==> Granted(area.m_nPages, start, pages, order, k) && Block(order, k) <= old(area.F)
      ensures ok ==> FromSmallest(old(area.F), old(area.Heads()), order, k)
      ensures ok ==> p.m_Size == pages * PKT_PAGE_SIZE && p.m_pBuffer == start * PKT_PAGE_SIZE
      ensures ok ==> area.F == old(area.F) - Run(order, k, start + pages)
      ensures ok ==> Held == old(Held)[p := Run(order, k, start + pages)]
      ensures p.m_RefCount == old(p.m_RefCount) && p.m_Length == old(p.m_Length)
    {
      ok, start, order, k := area.Carve(pages);
      if ok {
        Hold(p, pages, start, order, k, old(area.F));
      }
    }

    /** The run just cut out of the free pages `F0` becomes the buffer of `p`. */
    method Hold(p: CPacket, pages: nat, start: nat, ghost order: nat, ghost k: nat, ghost F0: set<nat>)
      requires area.Valid() && PoolValid() && HeldValid() && Apart() && Partition(area.m_nPages, F0, Held)
      requires Loose(p) && Granted(area.m_nPages, start, pages, order, k)
      requires Run(order, k, start + pages) <= F0 <= AllPages(area.m_nPages)
      requires area.F == F0 - Run(order, k, start + pages)
      modifies this`Held, p`m_Size, p`m_pBuffer, p`order, p`node
      ensures Valid() && Held == old(Held)[p := Run(order, k, start + pages)]
      ensures p.m_Size == pages * PKT_PAGE_SIZE && p.m_pBuffer == start * PKT_PAGE_SIZE
    {
      Fill(p, pages, start, order, k);
      NoteHeld(p, Run(order, k, start + pages), F0);
    }

    /** `p` counts as handed out, with the pages `run`. */
    ghost method NoteHeld(p: CPacket, run: set<nat>, F0: set<nat>)
      requires area.Valid() && PoolValid() && HeldValid() && Apart() && Partition(area.m_nPages, F0, Held)
      requires Loose(p) && p.HasRun(area.m_nPages) && p.Pages() == run
      requires run <= F0 <= AllPages(area.m_nPages) && area.F == F0 - run
      modifies this`Held
      ensures Valid() && Held == old(Held)[p := run]
    {
      PartitionTake(area.m_nPages, F0, Held, p, run);
      Held := Held[p := run];
    }

    method Fill(p: CPacket, pages: nat, start: nat, ghost order: nat, ghost k: nat)
      requires Granted(area.m_nPages, start, pages, order, k)
      modifies p`m_Size, p`m_pBuffer, p`order, p`node
      ensures p.m_Size == pages * PKT_PAGE_SIZE && p.m_pBuffer == start * PKT_PAGE_SIZE
      ensures p.HasRun(area.m_nPages) && p.Pages() == Run(order, k, start + pages)
    {
      p.m_Size := pages * PKT_PAGE_SIZE;
      p.m_pBuffer := start * PKT_PAGE_SIZE;
      p.order, p.node := order, k;
      ByteFigures(start, pages);
    }

    /**
     A packet with a buffer of at least `dwBytes` bytes, rounded up to a power of two of pages;
     null when no aligned run of that many pages is free.
     */
    method GetPacket(dwBytes: nat) returns (pPacket: CPacket?, ghost order: nat, ghost k: nat)
      requires Valid()
      modifies this`m_pFreeList, this`Pool, this`Held, area`F, area.Repr, if Pool == [] then {} else {Pool[0]}
      ensures Valid()
      ensures pPacket == null ==> dwBytes > 0 && area.F == old(area.F) && Held == old(Held)
      ensures pPacket != null ==> pPacket !in old(Held) && pPacket.m_RefCount == 1 && pPacket.m_Length == 0
      ensures pPacket == null && old(Pool) != [] ==> Pool == old(Pool)
      ensures pPacket != null && old(Pool) != [] ==> pPacket == old(Pool)[0] && Pool == old(Pool)[1..]
      ensures old(Pool) == [] ==> |Pool| == if pPacket == null then 1024 else 1023
      ensures old(Pool) == [] && pPacket != null ==> fresh(pPacket)
      ensures dwBytes == 0 ==>
                && pPacket != null && pPacket.m_Size == 0 && pPacket.m_pBuffer == -1
                && area.F == old(area.F) && Held == old(Held)[pPacket := {}]
      ensures dwBytes > 0 ==>
                && Fits((dwBytes + 1023) / 1024, order)
                && (pPacket != null <==> exists x: nat :: Block(order, x) <= old(area.F))
      ensures dwBytes > 0 && pPacket != null ==>
                && pPacket.m_Size == Pow2(order) * 1024 >= dwBytes
                && (pPacket.m_Size == 1024 || pPacket.m_Size < 2 * dwBytes)
                && pPacket.m_pBuffer == k * Pow2(order) * 1024
                && Block(order, k) <= old(area.F) && FromSmallest(old(area.F), old(area.Heads()), order, k)
                && area.F == old(area.F) - Block(order, k) && Held == old(Held)[pPacket := Block(order, k)]
    {
      ghost var heads := area.Heads();
      var p := TakeShell();
      assert area.Heads() == heads;
      pPacket, order, k := Request(p, dwBytes);
      assert dwBytes > 0 && pPacket != null ==> FromSmallest(old(area.F), heads, order, k);
      assert pPacket == null && old(Pool) != [] ==> Pool == old(Pool);
    }

    /** The request, once there is a shell for it. */
    method Request(p: CPacket, dwBytes: nat) returns (pPacket: CPacket?, ghost order: nat, ghost k: nat)
      requires Valid() && Loose(p) && p.m_Size == 0 && p.m_pBuffer == -1
      modifies this`m_pFreeList, this`Pool, this`Held, area`F, area.Repr
      modifies p`m_pNext, p`m_Size, p`m_pBuffer, p`order, p`node
      ensures Valid() && (pPacket == null || pPacket == p)
      ensures Pool == if pPacket == null then [p] + old(Pool) else old(Pool)
      ensures pPacket == null ==> dwBytes > 0 && area.F == old(area.F) && Held == old(Held)
      ensures dwBytes == 0 ==> p.m_Size == 0 && p.m_pBuffer == -1 && area.F == old(area.F) && Held == old(Held)[p := {}]
      ensures dwBytes > 0 ==>
                && Fits((dwBytes + 1023) / 1024, order)
                && (pPacket != null <==> exists x: nat :: Block(order, x) <= old(area.F))
      ensures dwBytes > 0 && pPacket != null ==>
                && p.m_Size == Pow2(order) * 1024 >= dwBytes && (p.m_Size == 1024 || p.m_Size < 2 * dwBytes)
                && p.m_pBuffer == k * Pow2(order) * 1024
                && Block(order, k) <= old(area.F) && FromSmallest(old(area.F), old(area.Heads()), order, k)
                && area.F == old(area.F) - Block(order, k) && Held == old(Held)[p := Block(order, k)]
      ensures p.m_RefCount == old(p.m_RefCount) && p.m_Length == old(p.m_Length)
    {
      if dwBytes == 0 {
        NoteHeld(p, {}, area.F);
        return p, 0, 0;
      }
      pPacket, order, k := FillShell(p, dwBytes);
    }

    /** A non-empty request for which there is a shell: with no buffer the shell goes back. */
    method FillShell(p: CPacket, dwBytes: nat) returns (pPacket: CPacket?, ghost order: nat, ghost k: nat)
      requires Valid() && Loose(p) && dwBytes > 0 && p.m_Size == 0
      modifies this`m_pFreeList, this`Pool, this`Held, area`F, area.Repr
      modifies p`m_pNext, p`m_Size, p`m_pBuffer, p`order, p`node
      ensures Valid() && Fits((dwBytes + 1023) / 1024, order)
      ensures pPacket != null <==> exists x: nat :: Block(order, x) <= old(area.F)
      ensures pPacket == null ==> area.F == old(area.F) && Held == old(Held) && Pool == [p] + old(Pool)
      ensures pPacket != null ==>
                && pPacket == p && Pool == old(Pool)
                && p.m_Size == Pow2(order) * 1024 >= dwBytes && (p.m_Size == 1024 || p.m_Size < 2 * dwBytes)
                && p.m_pBuffer == k * Pow2(order) * 1024
                && Block(order, k) <= old(area.F) && FromSmallest(old(area.F), old(area.Heads()), order, k)
                && area.F == old(area.F) - Block(order, k) && Held == old(Held)[p := Block(order, k)]
      ensures p.m_RefCount == old(p.m_RefCount) && p.m_Length == old(p.m_Length)
    {
      var ok;
      ok, order, k := GiveBuffer(p, dwBytes);
      if !ok {
        ReturnShell(p);
        return null, order, k;
      }
      pPacket := p;
    }

    /** The buffer of a non-empty request: a whole block of the rounded order. */
    method GiveBuffer(p: CPacket, dwBytes: nat) returns (ok: bool, ghost order: nat, ghost k: nat)
      requires Valid() && Loose(p) && dwBytes > 0 && p.m_Size == 0
      modifies this`Held, area`F, area.Repr, p`m_Size, p`m_pBuffer, p`order, p`node
      ensures Valid() && p !in Pool && Fits((dwBytes + PKT_PAGE_SIZE - 1) / PKT_PAGE_SIZE, order)
      ensures ok <==> exists x: nat :: Block(order, x) <= old(area.F)
      ensures !ok ==> area.F == old(area.F) && Held == old(Held)
      ensures ok ==>
                && p.m_Size == Pow2(order) * PKT_PAGE_SIZE >= dwBytes
                && (p.m_Size == PKT_PAGE_SIZE || p.m_Size < 2 * dwBytes)
                && p.m_pBuffer == k * Pow2(order) * PKT_PAGE_SIZE
                && Block(order, k) <= old(area.F) && FromSmallest(old(area.F), old(area.Heads()), order, k)
                && area.F == old(area.F) - Block(order, k) && Held == old(Held)[p := Block(order, k)]
      ensures p.m_RefCount == old(p.m_RefCount) && p.m_Length == old(p.m_Length)
    {
      var pages := (dwBytes + PKT_PAGE_SIZE - 1) / PKT_PAGE_SIZE;
      var level := PageArea.OrderOf(pages);
      ok, k := TakeBlock(p, level);
      order := level;
      GrantedSize(dwBytes, order);
    }

    /** The same as `TakePages` for a page count that is a power of two. */
    method TakeBlock(p: CPacket, level: nat) returns (ok: bool, ghost k: nat)
      requires Valid() && Loose(p) && p.m_Size == 0
      modifies this`Held, area`F, area.Repr, p`m_Size, p`m_pBuffer, p`order, p`node
      ensures Valid() && p !in Pool
      ensures ok <==> exists x: nat :: Block(level, x) <= old(area.F)
      ensures !ok ==> area.F == old(area.F) && Held == old(Held)
      ensures ok ==>
                && p.m_Size == Pow2(level) * PKT_PAGE_SIZE && p.m_pBuffer == k * Pow2(level) * PKT_PAGE_SIZE
                && Block(level, k) <= old(area.F) && FromSmallest(old(area.F), old(area.Heads()), level, k)
                && area.F == old(area.F) - Block(level, k) && Held == old(Held)[p := Block(level, k)]
      ensures p.m_RefCount == old(p.m_RefCount) && p.m_Length == old(p.m_Length)
    {
      ghost var order;
      var start;
      ok, start, order, k := TakePages(p, Pow2(level));
      FitsPow2(level);
      FitsUnique(Pow2(level), level, order);
      if ok {
        WholeBlock(area.m_nPages, start, level, k);
        assert Run(order, k, start + Pow2(level)) == Block(level, k);
      }
    }

    /** Makes the pages behind a packet free again. */
    method ReturnPages(p: CPacket)
      requires Valid() && p in Held
      modifies this`Held, area`F, area.Repr
      ensures Valid() && Loose(p)
      ensures area.F == old(area.F) + old(Held)[p] && Held == old(Held) - {p}
    {
      PartitionReturn(area.m_nPages, area.F, Held, p);
      if p.m_Size != 0 && p.m_pBuffer >= 0 {
        var pages := p.m_Size / PKT_PAGE_SIZE;
        var index := p.m_pBuffer / PKT_PAGE_SIZE;
        RunOfBytes(p, area.m_nPages);
        area.GiveBack(index, pages, p.order, p.node);
      }
      Held := Held - {p};
    }

    lemma RunOfBytes(p: CPacket, n: nat)
      requires p.HasRun(n) && p.m_Size > 0
      ensures p.Pages() == Run(p.order, p.node, p.m_pBuffer / PKT_PAGE_SIZE + p.m_Size / PKT_PAGE_SIZE)
    {
      ByteFigures(p.m_pBuffer / PKT_PAGE_SIZE, p.m_Size / PKT_PAGE_SIZE);
    }

    /** Takes a packet back: its pages become free and its shell joins the idle ones. */
    method PutPacket(pPacket: CPacket?)
      requires Valid() && (pPacket != null ==> pPacket in Held)
      modifies this`m_pFreeList, this`Pool, this`Held, area`F, area.Repr
      modifies (if pPacket == null then {} else {pPacket})`m_pNext
      ensures Valid()
      ensures pPacket == null ==> area.F == old(area.F) && Held == old(Held) && Pool == old(Pool)
      ensures pPacket != null ==>
                && area.F == old(area.F) + old(Held)[pPacket]
                && Held == old(Held) - {pPacket} && Pool == [pPacket] + old(Pool)
    {
      if pPacket != null {
        ReturnPages(pPacket);
        ReturnShell(pPacket);
      }
    }

    method AddRef(p: CPacket) returns (count: nat)
      requires Valid() && p in Held
      modifies p`m_RefCount
      ensures Valid() && count == p.m_RefCount == old(p.m_RefCount) + 1
    {
      p.m_RefCount := p.m_RefCount + 1;
      count := p.m_RefCount;
    }

    /** Drops one reference; the packet goes back with the last one.  A count of zero is left alone. */
    method Release(p: CPacket) returns (count: nat)
      requires Valid() && p in Held
      modifies this`m_pFreeList, this`Pool, this`Held, area`F, area.Repr, p`m_RefCount, p`m_pNext
      ensures Valid() && count == p.m_RefCount == if old(p.m_RefCount) > 0 then old(p.m_RefCount) - 1 else 0
      ensures old(p.m_RefCount) != 1 ==> area.F == old(area.F) && Held == old(Held) && Pool == old(Pool)
      ensures old(p.m_RefCount) == 1 ==> area.F == old(area.F) + old(Held)[p] && Held == old(Held) - {p}
    {
      if p.m_RefCount == 0 {
        return 0;
      }
      count := DropRef(p);
      if count == 0 {
        PutPacket(p);
      }
    }

    /** The part of `Release` under the packet's own mutex. */
    method DropRef(p: CPacket) returns (count: nat)
      requires Valid() && p in Held && p.m_RefCount > 0
      modifies p`m_RefCount
      ensures Valid() && count == p.m_RefCount == old(p.m_RefCount) - 1
    {
      p.m_RefCount := p.m_RefCount - 1;
      count := p.m_RefCount;
    }

    /** Free nodes and packets together always account for every page. */
    lemma PagesAccounted()
      requires Valid()
      ensures PagesInNodes(area.F, area.m_nPages, area.m_nTypes) + TotalHeld(Held) == area.m_nPages
    {
      var n := area.m_nPages;
      PagesConserved(area.F, n, area.m_nTypes);
      TotalHeldIsSize(Held);
      DisjointSize(area.F, PagesHeld(Held), AllPages(n));
    }

    /** Once no packet holds pages, every ring is what the constructor made it. */
    lemma AllReturned()
      requires Valid() && forall p: CPacket :: p in Held ==> Held[p] == {}
      ensures area.F == AllPages(area.m_nPages)
      ensures forall i: nat :: i < area.m_nTypes ==> area.m_PBAs[i].Free == InitialNodes(area.m_nPages, i)
    {
      assert area.F == AllPages(area.m_nPages);
      InitialNodesAreMaximal(area.m_nPages);
      forall i: nat | i < area.m_nTypes ensures area.m_PBAs[i].Free == InitialNodes(area.m_nPages, i) {
        forall k: nat ensures k in area.m_PBAs[i].Free <==> k in InitialNodes(area.m_nPages, i) {}
      }
    }

    /** A buffer taken and given back leaves the free pages, and with them the free nodes, as they were. */
    method GetThenPut(dwBytes: nat)
      requires Valid()
      modifies this`m_pFreeList, this`Pool, this`Held, area`F, area.Repr, if Pool == [] then {} else {Pool[0]}
      ensures Valid() && area.F == old(area.F) && Held == old(Held)
      ensures forall i: nat :: i < area.m_nTypes ==> area.m_PBAs[i].Free == old(area.m_PBAs[i].Free)
    {
      var p, order, k := GetPacket(dwBytes);
      ghost var S := if dwBytes == 0 then {} else Block(order, k);
      if p != null {
        UndoTake(old(area.F), old(Held), p, S);
      }
      PutPacket(p);
      forall i: nat | i < area.m_nTypes ensures area.m_PBAs[i].Free == old(area.m_PBAs[i].Free) {
        forall k: nat ensures k in area.m_PBAs[i].Free <==> k in old(area.m_PBAs[i].Free) {}
      }
    }
  }
}
