/**
 The page area of `CPacketManager`: one array of nodes and one free ring per level, all of
 them together always listing exactly the maximal aligned blocks inside the free pages.
 */
module PageArea {
  import opened Arithmetic
  import opened Binary
  import opened Buddy
  import opened Sequences
  import opened FreeRing
  import opened Levels
  import opened Runs
  import opened Cuts

  /** The number of the highest bit set, -1 for 0. */
  method Log2i(value: nat) returns (ret: int)
    ensures value == 0 ==> ret == -1
    ensures value > 0 ==> ret >= 0 && Pow2(ret) <= value < Pow2(ret + 1)
  {
    ret := -1;
    var v := value;
    while v > 0
      invariant ret >= -1 && v == Shr(value, ret + 1)
      invariant ret >= 0 ==> Shr(value, ret) > 0
      invariant value == 0 ==> ret == -1
    {
      v := v / 2;
      ret := ret + 1;
    }
    if value > 0 {
      assert ret >= 0;
      ShrBounds(value, ret);
      ShrBounds(value, ret + 1);
      MulLe(1, Shr(value, ret), Pow2(ret));
    }
  }

  /** The order of a run: the base-two logarithm of its page count, rounded up. */
  method OrderOf(pages: nat) returns (order: nat)
    requires pages > 0
    ensures Fits(pages, order)
  {
    var log := Log2i(pages);
    order := log;
    if Pow2(order) != pages {
      order := order + 1;
    }
  }

  /** Halving the node in hand: its right half may go back on a ring. */
  lemma SplitNode(F0: set<nat>, F: set<nat>, i: nat, index: nat)
    requires Block(i + 1, index) <= F0 && F == F0 - Block(i + 1, index)
    ensures Giveable(F, F0, i, 2 * index + 1) && Block(i, 2 * index) <= F0
    ensures F + Block(i, 2 * index + 1) == F0 - Block(i, 2 * index)
  {
    BlockHalves(i, index);
    assert Sibling(2 * index + 1) == 2 * index;
    DisjointNotWithin(F, i, 2 * index);
  }

  /** The left half of a node starts where the node starts. */
  lemma SameStart(i: nat, index: nat)
    ensures index * 2 * Pow2(i) == index * Pow2(i + 1)
  {
  }

  /** Canonical form: the free pages alone determine which nodes are free. */
  lemma SamePagesSameNodes(a: PageArea, b: PageArea, i: nat)
    requires a.Valid() && b.Valid() && a.m_nPages == b.m_nPages && a.F == b.F
    requires i < a.m_nTypes
    ensures i < b.m_nTypes && a.m_PBAs[i].Free == b.m_PBAs[i].Free
  {
    if b.m_nTypes <= i { Pow2Monotone(b.m_nTypes, a.m_nTypes - 1); }
    forall k: nat ensures k in a.m_PBAs[i].Free <==> k in b.m_PBAs[i].Free {}
  }

  class PageArea {
    const m_nPages: nat
    const m_nTypes: nat
    const m_PBAs: seq<PBA>
    ghost var F: set<nat>  // the free pages

    ghost const Repr: set<object>

    /** One round of the constructor: the node array of a level and its initial ring. */
    static method NewLevel(pages: nat, types: nat, size: nat) returns (pba: PBA)
      requires size == LevelSize(pages, types)
      ensures pba.Valid() && fresh(pba) && fresh(pba.pArray)
      ensures pba.level == types && |pba.pArray| == size && pba.Free == InitialNodes(pages, types)
    {
      pba := new PBA(size, types);
      ShrIsQuotient(pages, types);
      if pages / Pow2(types) % 2 == 1 {
        InitialNodeExists(pages, types);
        pba.StartRing(pba.pArray[pages / Pow2(types) - 1]);
      }
    }

    constructor (pages: nat)
      ensures Valid() && fresh(Repr)
      ensures m_nPages == pages && F == AllPages(pages)
    {
      var types, size := 0, pages;
      var pbas: seq<PBA> := [];
      ghost var repr: set<object> := {};
      while Pow2(types) <= pages
        invariant |pbas| == types && (types > 0 ==> Pow2(types - 1) <= pages)
        invariant size == RawSize(pages, types)
        invariant fresh(repr)
        invariant forall i :: 0 <= i < types ==>
                    && pbas[i] in repr && (forall n :: n in pbas[i].pArray ==> n in repr)
                    && pbas[i].level == i && |pbas[i].pArray| == LevelSize(pages, i)
                    && pbas[i].Valid() && pbas[i].Free == InitialNodes(pages, i)
        decreases pages - types
      {
        BelowPow2(types);
        size := (size + 1) / 2 * 2;
        var pba := NewLevel(pages, types, size);
        pbas := pbas + [pba];
        repr := repr + {pba} + set n | n in pba.pArray;
        size := size / 2;
        types := types + 1;
      }
      m_nPages := pages;
      m_nTypes := types;
      m_PBAs := pbas;
      Repr := repr;
      F := AllPages(pages);
      InitialNodesAreMaximal(pages);
    }

    /** Every level has its ring in order. */
    ghost predicate Wired()
      reads this, Repr
    {
      && |m_PBAs| == m_nTypes
      && (forall i :: 0 <= i < m_nTypes ==>
            && m_PBAs[i] in Repr && (forall n :: n in m_PBAs[i].pArray ==> n in Repr)
            && m_PBAs[i].level == i
            && |m_PBAs[i].pArray| == LevelSize(m_nPages, i)
            && m_PBAs[i].Valid())
      && this !in Repr
    }

    /** The rings list exactly the maximal aligned blocks inside the free pages. */
    ghost predicate Valid()
      reads this, Repr
    {
      && Wired()
      && m_nPages < Pow2(m_nTypes) && (m_nTypes > 0 ==> Pow2(m_nTypes - 1) <= m_nPages)
      && F <= AllPages(m_nPages)
      && (forall i: nat, k: nat {:trigger k in m_PBAs[i].Free} :: i < m_nTypes ==> (k in m_PBAs[i].Free <==> Maximal(F, i, k)))
    }

    method Unlink(i: nat, k: nat)
      requires Wired() && i < m_nTypes && k in m_PBAs[i].Free
      modifies Repr
      ensures Wired() && m_PBAs[i].Free == old(m_PBAs[i].Free) - {k}
      ensures exists at: nat :: at < |old(m_PBAs[i].Ring)| && old(m_PBAs[i].Ring)[at] == m_PBAs[i].pArray[k]
                && m_PBAs[i].Ring == Without(old(m_PBAs[i].Ring), at)
      ensures forall j :: 0 <= j < m_nTypes && j != i ==> m_PBAs[j].Free == old(m_PBAs[j].Free) && m_PBAs[j].Ring == old(m_PBAs[j].Ring)
    {
      ghost var at := m_PBAs[i].RemoveFree(m_PBAs[i].pArray[k]);
    }

    method Link(i: nat, k: nat)
      requires Wired() && i < m_nTypes && k < LevelSize(m_nPages, i) && k !in m_PBAs[i].Free
      modifies Repr
      ensures Wired() && m_PBAs[i].Free == old(m_PBAs[i].Free) + {k}
      ensures m_PBAs[i].Ring == [m_PBAs[i].pArray[k]] + old(m_PBAs[i].Ring)
      ensures forall j :: 0 <= j < m_nTypes && j != i ==> m_PBAs[j].Free == old(m_PBAs[j].Free) && m_PBAs[j].Ring == old(m_PBAs[j].Ring)
    {
      m_PBAs[i].InsertFree(m_PBAs[i].pArray[k]);
    }

    /** Takes node `k` of level `i` off its ring. */
    method RemoveFree(i: nat, k: nat)
      requires Valid() && i < m_nTypes && Maximal(F, i, k)
      modifies this`F, Repr
      ensures Valid() && F == old(F) - Block(i, k)
    {
      Unlink(i, k);
      TakeKeepsCanon(F, i, k);
      F := F - Block(i, k);
    }

    /** Puts node `k` of level `i` on its ring. */
    method InsertFree(i: nat, k: nat)
      requires Valid() && Giveable(F, AllPages(m_nPages), i, k)
      modifies this`F, Repr
      ensures Valid() && F == old(F) + Block(i, k)
    {
      NodeExists(m_nPages, i, k);
      LevelExists(m_nPages, m_nTypes, i, k);
      DisjointNotWithin(F, i, k);
      ghost var F0 := F;
      Link(i, k);
      F := F0 + Block(i, k);
      GiveKeepsCanon(F0, i, k);
      forall j: nat, x: nat | j < m_nTypes
        ensures x in m_PBAs[j].Free <==> Maximal(F, j, x)
      {
        assert x in old(m_PBAs[j].Free) <==> Maximal(F0, j, x);
      }
    }

    /** The null test on `pNext`: is node `k` of level `i` free? */
    predicate IsFree(i: nat, k: nat)
      requires Valid() && i < m_nTypes && k < LevelSize(m_nPages, i)
      reads this, Repr
      ensures IsFree(i, k) <==> Maximal(F, i, k)
    {
      assert k in m_PBAs[i].Free <==> Maximal(F, i, k);
      m_PBAs[i].pArray[k].pNext != null
    }

    /** The lowest level from `order` up with a free node. */
    method FindLevel(order: nat) returns (i: nat)
      requires Valid()
      ensures i >= order
      ensures i < m_nTypes ==> m_PBAs[i].pHeader != null
      ensures forall j: nat, k: nat :: order <= j < i ==> !Maximal(F, j, k)
    {
      i := order;
      while i < m_nTypes && m_PBAs[i].pHeader == null
        invariant order <= i
        invariant forall j: nat, k: nat :: order <= j < i ==> !Maximal(F, j, k)
      {
        forall k: nat ensures !Maximal(F, i, k) {
          assert k in m_PBAs[i].Free <==> Maximal(F, i, k);
        }
        i := i + 1;
      }
    }

    /** The index of the node at the head of each level's ring, -1 for none. */
    ghost function Heads(): (h: seq<int>)
      requires Wired()
      reads this, Repr
      ensures |h| == m_nTypes
      ensures forall i :: 0 <= i < m_nTypes ==>
                h[i] == if m_PBAs[i].pHeader == null then -1 else m_PBAs[i].pHeader.nIndex
    {
      seq(m_nTypes, i requires 0 <= i < m_nTypes && Wired() reads this, Repr =>
        if m_PBAs[i].pHeader == null then -1 else m_PBAs[i].pHeader.nIndex)
    }

    /** Takes the smallest free node of level `level` or above. */
    method TakeNode(level: nat) returns (found: bool, i: nat, index: nat)
      requires Valid()
      modifies this`F, Repr
      ensures Valid()
      ensures found <==> exists x: nat :: Block(level, x) <= old(F)
      ensures !found ==> F == old(F)
      ensures found ==> Smallest(old(F), level, i, index) && i < m_nTypes && old(Heads())[i] == index
      ensures found ==> F == old(F) - Block(i, index)
    {
      i := FindLevel(level);
      CoalescingComplete(F, m_nPages, level);
      if i >= m_nTypes {
        NothingAbove(level, i);
        return false, 0, 0;
      }
      found, index := true, m_PBAs[i].pHeader.nIndex;
      HeaderIsFree(i);
      RemoveFree(i, index);
    }

    /** No level at all has a free node of the wanted order. */
    lemma NothingAbove(order: nat, i: nat)
      requires Valid() && m_nTypes <= i
      requires forall j: nat, k: nat :: order <= j < i ==> !Maximal(F, j, k)
      ensures forall j: nat, k: nat :: order <= j ==> !Maximal(F, j, k)
    {
      forall j: nat, k: nat | order <= j ensures !Maximal(F, j, k) {
        if Maximal(F, j, k) { LevelExists(m_nPages, m_nTypes, j, k); }
      }
    }

    lemma HeaderIsFree(i: nat)
      requires Valid() && i < m_nTypes && m_PBAs[i].pHeader != null
      ensures Maximal(F, i, m_PBAs[i].pHeader.nIndex)
    {
      var k := m_PBAs[i].pHeader.nIndex;
      assert k in m_PBAs[i].Free <==> Maximal(F, i, k);
    }

    /**
     The allocation proper: a run of `pages` pages is cut from the smallest free node that can
     hold it; what the node has too much goes back on the rings.
     */
    method Carve(pages: nat) returns (ok: bool, start: nat, ghost order: nat, ghost k: nat)
      requires Valid() && pages > 0
      modifies this`F, Repr
      ensures Valid() && Fits(pages, order)
      ensures ok <==> exists x: nat :: Block(order, x) <= old(F)
      ensures !ok ==> F == old(F)
      ensures ok ==> Granted(m_nPages, start, pages, order, k) && Block(order, k) <= old(F)
      ensures ok ==> F == old(F) - Run(order, k, start + pages)
      ensures ok ==> FromSmallest(old(F), old(Heads()), order, k)
    {
      var level := OrderOf(pages);
      order := level;
      var index;
      ok, start, index := TakeBlock(level);
      k := index;
      if ok {
        KeepRun(pages, level, start, index, old(F));
      }
    }

    /** Of a whole block taken only the run stays so. */
    method KeepRun(pages: nat, level: nat, start: nat, k: nat, ghost F0: set<nat>)
      requires Valid() && Granted(m_nPages, start, pages, level, k)
      requires Block(level, k) <= F0 <= AllPages(m_nPages) && F == F0 - Block(level, k)
      modifies this`F, Repr
      ensures Valid() && F == F0 - Run(level, k, start + pages)
    {
      if pages != Pow2(level) {
        CutSurplus(pages, level, k, F0);
      } else {
        WholeBlock(m_nPages, start, level, k);
      }
    }

    /** The search and the splitting: a whole block of the wanted level. */
    method TakeBlock(level: nat) returns (ok: bool, start: nat, k: nat)
      requires Valid()
      modifies this`F, Repr
      ensures Valid() && (ok <==> exists x: nat :: Block(level, x) <= old(F))
      ensures !ok ==> F == old(F)
      ensures ok ==> start == k * Pow2(level) && Block(level, k) <= old(F) && F == old(F) - Block(level, k)
      ensures ok ==> FromSmallest(old(F), old(Heads()), level, k)
    {
      var i, index;
      start, k := 0, 0;
      ok, i, index := TakeNode(level);
      if ok {
        start := index * Pow2(i);
        k := SplitDown(i, index, level, old(F));
      }
    }

    /** Splits the node in hand down to the wanted level, giving back the right halves. */
    method SplitDown(top: nat, node: nat, level: nat, ghost F0: set<nat>) returns (index: nat)
      requires Valid() && level <= top
      requires Block(top, node) <= F0 <= AllPages(m_nPages) && F == F0 - Block(top, node)
      modifies this`F, Repr
      ensures Valid() && Block(level, index) <= F0 && F == F0 - Block(level, index)
      ensures index * Pow2(level) == node * Pow2(top)
    {
      var i: nat := top;
      index := node;
      while i > level
        invariant i >= level && Valid()
        invariant Block(i, index) <= F0 && F == F0 - Block(i, index)
        invariant index * Pow2(i) == node * Pow2(top)
      {
        i := i - 1;
        SplitNode(F0, F, i, index);
        SameStart(i, index);
        index := index * 2;
        InsertFree(i, index + 1);
      }
    }

    /** Gives back what a whole block has beyond the wanted run. */
    method CutSurplus(pages: nat, level: nat, k: nat, ghost F0: set<nat>)
      requires Valid() && 0 < pages < Pow2(level)
      requires Block(level, k) <= F0 <= AllPages(m_nPages) && F == F0 - Block(level, k)
      modifies this`F, Repr
      ensures Valid() && F == F0 - Run(level, k, k * Pow2(level) + pages)
    {
      CutBegins(F0, F, level, k, pages);
      ghost var b := k * Pow2(level) + pages;
      var i: nat, index: nat, rem: nat := level, k, pages;
      while i > 0 && rem > 0
        invariant i <= level && Valid()
        invariant CutAt(F0, F, level, k, b, i, index, rem)
      {
        i := i - 1;
        index, rem := CutOnce(i, index, rem, level, k, b, F0);
      }
    }

    /** One level of that walk. */
    method CutOnce(i: nat, above: nat, left: nat, ghost level: nat, ghost k: nat, ghost b: nat, ghost F0: set<nat>)
      returns (index: nat, rem: nat)
      requires Valid() && F0 <= AllPages(m_nPages) && i < level
      requires left > 0 && CutAt(F0, F, level, k, b, i + 1, above, left)
      modifies this`F, Repr
      ensures Valid() && CutAt(F0, F, level, k, b, i, index, rem)
    {
      CutStep(m_nPages, F0, F, level, k, b, i, above, left);
      BitOf(left, Pow2(i));
      if left / Pow2(i) % 2 == 0 {
        InsertFree(i, 2 * above + 1);
        return 2 * above, left;
      }
      index, rem := 2 * above + 1, left - Pow2(i);
      if rem == 0 {
        InsertFree(i, index);
      }
    }

    /** Gives a run back: as one node if its length is a power of two, piece by piece otherwise. */
    method GiveBack(start: nat, pages: nat, ghost order: nat, ghost k: nat)
      requires Valid() && Granted(m_nPages, start, pages, order, k)
      requires Run(order, k, start + pages) !! F
      modifies this`F, Repr
      ensures Valid() && F == old(F) + Run(order, k, start + pages)
    {
      var level := OrderOf(pages);
      FitsUnique(pages, level, order);
      if Pow2(level) != pages {
        GivePieces(start, pages, level, k);
      } else {
        WholeIndex(m_nPages, start, pages, order, k);
        MergeUp(level, start / pages, F + Block(order, k));
      }
    }

    /** A run whose length is no power of two: the walk, and the merging it may have begun. */
    method GivePieces(start: nat, pages: nat, level: nat, ghost k: nat)
      requires Valid() && Granted(m_nPages, start, pages, level, k) && pages < Pow2(level)
      requires Run(level, k, start + pages) !! F
      modifies this`F, Repr
      ensures Valid() && F == old(F) + Run(level, k, start + pages)
    {
      ShortRun(m_nPages, start, pages, level, k);
      var index, merged := ReturnTail(level, start + pages, k);
      if merged == 1 {
        MergeUp(level, index, old(F) + Run(level, k, start + pages));
      }
    }

    /** The three-state walk below the order of the run; `b` is the page after it. */
    method ReturnTail(level: nat, b: nat, ghost k: nat) returns (index: nat, merged: int)
      requires Valid() && TailContext(m_nPages, F, level, k, b) && b != k * Pow2(level)
      modifies this`F, Repr
      ensures Valid() && (merged == 1 || merged == 2)
      ensures merged == 2 ==> F == old(F) + Run(level, k, b)
      ensures merged == 1 ==> index == k && F == old(F) - Block(level, k) && Block(level, k) <= old(F) + Run(level, k, b)
    {
      index, merged := b, 0;
      var i := 0;
      ghost var F0 := F;
      TailBegins(F0, level, k, b);
      while i < level
        invariant i <= level && Valid() && index == Shr(b, i) && 0 <= merged <= 2
        invariant TailState(F0, F, level, k, b, i, merged)
      {
        if index % 2 == 1 {
          merged := TailOdd(i, index, merged, level, b, k, F0);
        } else {
          merged := TailEven(i, index, merged, level, b, k, F0);
        }
        index := index / 2;
        i := i + 1;
      }
      TailDone(m_nPages, F0, F, level, k, b, merged);
    }

    /** The first odd node of that walk: its right neighbour decides between merging and not. */
    method TailFirst(i: nat, index: nat, ghost level: nat, ghost b: nat, ghost k: nat, ghost F0: set<nat>)
      returns (next: int)
      requires Valid() && i < level
      requires TailContext(m_nPages, F0, level, k, b) && TailState(F0, F, level, k, b, i, 0)
      requires index == Shr(b, i) && index % 2 == 1
      modifies this`F, Repr
      ensures Valid() && 1 <= next <= 2
      ensures TailState(F0, F, level, k, b, i + 1, next)
    {
      WalkInside(m_nPages, level, k, b, i);
      InRange(i, index);
      if IsFree(i, index) {
        next := 1;
        StepTake0(m_nPages, F0, F, level, k, b, i, index);
        RemoveFree(i, index);
      } else {
        next := 2;
        StepGive0(m_nPages, F0, F, level, k, b, i, index);
        InsertFree(i, index - 1);
      }
    }

    /** An odd node once merging is over: its left sibling goes back. */
    method TailGive(i: nat, index: nat, ghost level: nat, ghost b: nat, ghost k: nat, ghost F0: set<nat>)
      requires Valid() && i < level
      requires TailContext(m_nPages, F0, level, k, b) && TailState(F0, F, level, k, b, i, 2)
      requires index == Shr(b, i) && index % 2 == 1
      modifies this`F, Repr
      ensures Valid() && TailState(F0, F, level, k, b, i + 1, 2)
    {
      StepGive2(m_nPages, F0, F, level, k, b, i, index);
      InsertFree(i, index - 1);
    }

    /** One level of that walk at an odd node. */
    method TailOdd(i: nat, index: nat, merged: int, ghost level: nat, ghost b: nat, ghost k: nat, ghost F0: set<nat>)
      returns (next: int)
      requires Valid() && i < level
      requires TailContext(m_nPages, F0, level, k, b) && TailState(F0, F, level, k, b, i, merged)
      requires index == Shr(b, i) && index % 2 == 1 && 0 <= merged <= 2
      modifies this`F, Repr
      ensures Valid() && 0 <= next <= 2
      ensures TailState(F0, F, level, k, b, i + 1, next)
    {
      next := merged;
      if merged == 0 {
        next := TailFirst(i, index, level, b, k, F0);
      } else if merged == 2 {
        TailGive(i, index, level, b, k, F0);
      } else {
        assert merged == 1;
        StepUp1(m_nPages, F0, F, level, k, b, i, index);
      }
    }

    /** One level of that walk at an even node. */
    method TailEven(i: nat, index: nat, merged: int, ghost level: nat, ghost b: nat, ghost k: nat, ghost F0: set<nat>)
      returns (next: int)
      requires Valid() && i < level
      requires TailContext(m_nPages, F0, level, k, b) && TailState(F0, F, level, k, b, i, merged)
      requires index == Shr(b, i) && index % 2 == 0 && 0 <= merged <= 2
      modifies this`F, Repr
      ensures Valid() && 0 <= next <= 2
      ensures TailState(F0, F, level, k, b, i + 1, next)
    {
      next := merged;
      if merged == 1 {
        WalkInside(m_nPages, level, k, b, i);
        InRange(i, index);
        if IsFree(i, index + 1) {
          StepTake1(F0, F, level, k, b, i, index);
          RemoveFree(i, index + 1);
        } else {
          next := 2;
          StepGive1(m_nPages, F0, F, level, k, b, i, index);
          InsertFree(i, index);
        }
      } else if merged == 0 {
        StepUp0(F0, F, level, k, b, i, index);
      } else {
        assert merged == 2;
        StepUp2(F0, F, level, k, b, i, index);
      }
    }

    /** Merges the node in hand with its free siblings, level by level, and puts it on its ring. */
    method MergeUp(level: nat, node: nat, ghost target: set<nat>)
      requires Valid() && target <= AllPages(m_nPages) && InHand(target, F, level, node)
      modifies this`F, Repr
      ensures Valid() && F == target
    {
      var i, index := level, node;
      InRange(i, index);
      while i < m_nTypes - 1
        invariant i <= m_nTypes - 1 && Valid() && InHand(target, F, i, index)
      {
        var merged := MergeOnce(i, index, target);
        if !merged {
          break;
        }
        index := index / 2;
        i := i + 1;
      }
      if i == m_nTypes - 1 {
        TopHasNoSibling(m_nPages, target, i, index);
      }
      InsertFree(i, index);
    }

    /** Merges the node in hand with its sibling if that one is free. */
    method MergeOnce(i: nat, index: nat, ghost target: set<nat>) returns (merged: bool)
      requires Valid() && target <= AllPages(m_nPages) && InHand(target, F, i, index)
      modifies this`F, Repr
      ensures Valid()
      ensures merged ==> InHand(target, F, i + 1, index / 2)
      ensures !merged ==> F == old(F) && Giveable(F, target, i, index)
    {
      var theother := Sibling(index);
      InRange(i, index);
      merged := IsFree(i, theother);
      if merged {
        MergeSibling(target, F, i, index, i + 1, index / 2);
        RemoveFree(i, theother);
      } else {
        MergeStops(target, F, i, index);
      }
    }

    /** A node of real pages is within its level's array, and so is its sibling. */
    lemma InRange(i: nat, k: nat)
      requires Valid() && Block(i, k) <= AllPages(m_nPages)
      ensures i < m_nTypes && k < LevelSize(m_nPages, i) && Sibling(k) < LevelSize(m_nPages, i)
    {
      NodeExists(m_nPages, i, k);
      LevelExists(m_nPages, m_nTypes, i, k);
    }
  }
}
