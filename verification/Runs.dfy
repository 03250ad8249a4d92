/**
 The runs of pages a packet can hold, and the walk that gives such a run back when its length
 is not a power of two.  The walk visits the levels from below with `index == b >> i`, where
 `b` is the first page after the run, in one of three states: 0, nothing returned yet;
 1, a node in hand still growing by merging; 2, merging is over and whole nodes are returned.
 */
module Runs {
  import opened Arithmetic
  import opened Binary
  import opened Buddy

  /** `type` is the order of a run of `pages` pages. */
  ghost predicate Fits(pages: nat, order: nat)
  {
    pages <= Pow2(order) && (order > 0 ==> Pow2(order - 1) < pages)
  }

  lemma FitsPow2(order: nat)
    ensures Fits(Pow2(order), order)
  {
  }

  lemma FitsUnique(pages: nat, a: nat, b: nat)
    requires pages > 0 && Fits(pages, a) && Fits(pages, b)
    ensures a == b
  {
    if a < b { Pow2Monotone(a, b - 1); }
    if b < a { Pow2Monotone(b, a - 1); }
  }

  /** The pages of block `k` of level `order` before page `b`. */
  ghost function Run(order: nat, k: nat, b: nat): set<nat>
  {
    set p | p in Block(order, k) && p < b
  }

  /** A run that starts a block of its order, all of whose pages exist. */
  ghost predicate Granted(n: nat, start: nat, pages: nat, order: nat, k: nat)
  {
    && pages > 0 && Fits(pages, order)
    && start == k * Pow2(order)
    && Block(order, k) <= AllPages(n)
  }

  /** A granted run is the page interval `start .. start + pages`. */
  lemma RunInterval(n: nat, start: nat, pages: nat, order: nat, k: nat, p: nat)
    requires Granted(n, start, pages, order, k)
    ensures p in Run(order, k, start + pages) <==> start <= p < start + pages
  {
    BlockInterval(order, k, p);
    MulSucc(Pow2(order), k);
  }

  /** A run of exactly a power of two is its whole block. */
  lemma FullRun(order: nat, k: nat)
    ensures Run(order, k, k * Pow2(order) + Pow2(order)) == Block(order, k)
  {
    forall p: nat | p in Block(order, k) ensures p < k * Pow2(order) + Pow2(order) {
      BlockInterval(order, k, p);
    }
  }

  lemma WholeBlock(n: nat, start: nat, order: nat, k: nat)
    requires Granted(n, start, Pow2(order), order, k)
    ensures Run(order, k, start + Pow2(order)) == Block(order, k)
  {
    FullRun(order, k);
  }

  /** The index of a run that is its whole block. */
  lemma WholeIndex(n: nat, start: nat, pages: nat, order: nat, k: nat)
    requires Granted(n, start, pages, order, k) && pages == Pow2(order)
    ensures start / pages == k && Run(order, k, start + pages) == Block(order, k)
  {
    WholeBlock(n, start, order, k);
    MulSucc(pages, k);
    DivUnique(start, pages, k);
  }

  /** A node that may go on its ring. */
  ghost predicate Giveable(F: set<nat>, bound: set<nat>, j: nat, k: nat)
  {
    Block(j, k) !! F && Block(j, k) <= bound && !(Block(j, Sibling(k)) <= F)
  }

  /** A block whose sibling is not wholly free is inside `F` only as a maximal block. */
  lemma NotFree(F: set<nat>, j: nat, k: nat)
    requires !Maximal(F, j, k) && !(Block(j, Sibling(k)) <= F)
    ensures !(Block(j, k) <= F)
  {
    SiblingBlocks(j, k);
  }

  /** The right sibling of a node in hand is not inside `F` unless it is a free node. */
  lemma RightNotFree(F: set<nat>, j: nat, k: nat)
    requires k % 2 == 0 && Block(j, k) !! F && !Maximal(F, j, k + 1)
    ensures !(Block(j, k + 1) <= F)
  {
    DisjointNotWithin(F, j, k);
    assert Sibling(k + 1) == k;
    NotFree(F, j, k + 1);
  }

  lemma DisjointNotWithin(F: set<nat>, j: nat, k: nat)
    requires Block(j, k) !! F
    ensures !(Block(j, k) <= F)
  {
    BlockNonempty(j, k);
  }

  // ---- Giving back the tail of a run

  ghost predicate TailContext(n: nat, F0: set<nat>, order: nat, k: nat, b: nat)
  {
    b in Block(order, k) && Block(order, k) <= AllPages(n) && Run(order, k, b) !! F0
  }

  ghost predicate TailState(F0: set<nat>, F: set<nat>, order: nat, k: nat, b: nat, i: nat, merged: int)
  {
    var index := Shr(b, i);
    && (merged == 0 ==> F == F0 && index * Pow2(i) == b)
    && (merged == 1 ==> F == F0 - Block(i, index) && Block(i, index) <= F0 + Run(order, k, b))
    && (merged == 2 ==> F == F0 + Tail(order, k, b, i) && !(Block(i, index) <= F))
  }

  /** The part of the run already returned at level `i` once merging is over. */
  ghost function Tail(order: nat, k: nat, b: nat, i: nat): set<nat>
  {
    set p | p in Run(order, k, b) && Shr(p, i) >= Shr(b, i)
  }

  /** Below the order of the run, the left sibling of an odd node is part of the run. */
  lemma LeftSiblingInRun(order: nat, k: nat, b: nat, i: nat)
    requires b in Block(order, k) && i < order && Shr(b, i) % 2 == 1
    ensures Block(i, Shr(b, i) - 1) <= Run(order, k, b)
  {
    var index := Shr(b, i);
    SiblingBlocks(i, index);
    Nested(i + 1, index / 2, order, k);
    assert b in Block(i + 1, index / 2);
    forall p | p in Block(i, index - 1) ensures p in Run(order, k, b) {
      if b <= p { ShrMonotone(b, p, i); }
    }
  }

  lemma TailUp(order: nat, k: nat, b: nat, i: nat)
    ensures Shr(b, i) % 2 == 0 ==> Tail(order, k, b, i + 1) == Tail(order, k, b, i)
    ensures Shr(b, i) % 2 == 1 && i < order && b in Block(order, k) ==>
              Tail(order, k, b, i + 1) == Tail(order, k, b, i) + Block(i, Shr(b, i) - 1)
  {
    if Shr(b, i) % 2 == 1 && i < order && b in Block(order, k) {
      LeftSiblingInRun(order, k, b, i);
    }
  }

  lemma TailBegins(F0: set<nat>, order: nat, k: nat, b: nat)
    ensures TailState(F0, F0, order, k, b, 0, 0)
  {
    assert Shr(b, 0) * Pow2(0) == b;
  }

  /** State 0, even node: go up. */
  lemma StepUp0(F0: set<nat>, F: set<nat>, order: nat, k: nat, b: nat, i: nat, index: nat)
    requires index == Shr(b, i)
    requires TailState(F0, F, order, k, b, i, 0) && index % 2 == 0
    ensures TailState(F0, F, order, k, b, i + 1, 0)
  {
    assert Shr(b, i + 1) * Pow2(i + 1) == index / 2 * (2 * Pow2(i));
  }

  /** State 0, odd node that is free: take it and start merging. */
  lemma StepTake0(n: nat, F0: set<nat>, F: set<nat>, order: nat, k: nat, b: nat, i: nat, index: nat)
    requires index == Shr(b, i)
    requires TailContext(n, F0, order, k, b) && TailState(F0, F, order, k, b, i, 0) && i < order
    requires index % 2 == 1 && Maximal(F, i, index)
    ensures TailState(F0, F - Block(i, index), order, k, b, i + 1, 1)
  {
    LeftSiblingInRun(order, k, b, i);
    SiblingBlocks(i, index);
  }

  /** State 0, odd node that is not free: return its left sibling; merging is over. */
  lemma StepGive0(n: nat, F0: set<nat>, F: set<nat>, order: nat, k: nat, b: nat, i: nat, index: nat)
    requires index == Shr(b, i)
    requires TailContext(n, F0, order, k, b) && TailState(F0, F, order, k, b, i, 0) && i < order
    requires index % 2 == 1 && !Maximal(F, i, index)
    ensures Giveable(F, AllPages(n), i, index - 1)
    ensures TailState(F0, F + Block(i, index - 1), order, k, b, i + 1, 2)
  {
    LeftSiblingInRun(order, k, b, i);
    assert !(Block(i, index) <= F) by {
      DisjointNotWithin(F, i, index - 1);
      NotFree(F, i, index);
    }
    GiveLeft(F, n, order, k, b, i, index);
    assert Tail(order, k, b, i + 1) == Block(i, index - 1) by {
      TailUp(order, k, b, i);
      TailEmpty(order, k, b, i);
    }
    SiblingBlocks(i, index);
  }

  /** The left sibling of an odd node may be returned when the node itself is not wholly free. */
  lemma GiveLeft(F: set<nat>, n: nat, order: nat, k: nat, b: nat, i: nat, index: nat)
    requires b in Block(order, k) && Block(order, k) <= AllPages(n) && i < order
    requires index == Shr(b, i) && index % 2 == 1
    requires Block(i, index - 1) !! F && !(Block(i, index) <= F)
    ensures Giveable(F, AllPages(n), i, index - 1)
  {
    LeftSiblingInRun(order, k, b, i);
    assert Sibling(index - 1) == index;
  }

  lemma TailEmpty(order: nat, k: nat, b: nat, i: nat)
    requires Shr(b, i) * Pow2(i) == b
    ensures Tail(order, k, b, i) == {}
  {
    forall p | p in Run(order, k, b) ensures Shr(p, i) < Shr(b, i) {
      ShrMonotone(p, b, i);
      ShrBounds(p, i);
    }
  }

  /** State 1, odd node: its left sibling belongs to the run, so the node in hand grows. */
  lemma StepUp1(n: nat, F0: set<nat>, F: set<nat>, order: nat, k: nat, b: nat, i: nat, index: nat)
    requires index == Shr(b, i)
    requires TailContext(n, F0, order, k, b) && TailState(F0, F, order, k, b, i, 1) && i < order
    requires index % 2 == 1
    ensures TailState(F0, F, order, k, b, i + 1, 1)
  {
    LeftSiblingInRun(order, k, b, i);
    SiblingBlocks(i, index);
  }

  /** State 1, even node whose right sibling is free: merge. */
  lemma StepTake1(F0: set<nat>, F: set<nat>, order: nat, k: nat, b: nat, i: nat, index: nat)
    requires index == Shr(b, i)
    requires TailState(F0, F, order, k, b, i, 1)
    requires index % 2 == 0 && Maximal(F, i, index + 1)
    ensures TailState(F0, F - Block(i, index + 1), order, k, b, i + 1, 1)
  {
    SiblingBlocks(i, index);
  }

  /** State 1, even node whose right sibling is not free: return the node in hand; merging is over. */
  lemma StepGive1(n: nat, F0: set<nat>, F: set<nat>, order: nat, k: nat, b: nat, i: nat, index: nat)
    requires index == Shr(b, i)
    requires TailContext(n, F0, order, k, b) && TailState(F0, F, order, k, b, i, 1) && i < order
    requires index % 2 == 0 && !Maximal(F, i, index + 1)
    ensures Giveable(F, AllPages(n), i, index)
    ensures TailState(F0, F + Block(i, index), order, k, b, i + 1, 2)
  {
    RightNotFree(F, i, index);
    WalkInside(n, order, k, b, i);
    SiblingBlocks(i, index);
    TailUp(order, k, b, i);
    TailIsTop(order, k, b, i);
    RegrownTail(F0, F, Run(order, k, b), i, index, Tail(order, k, b, i));
  }

  /** No page of the run lies above node `b >> i`. */
  lemma TailIsTop(order: nat, k: nat, b: nat, i: nat)
    ensures forall p :: p in Tail(order, k, b, i) <==> p in Run(order, k, b) && p in Block(i, Shr(b, i))
  {
    forall p | p in Run(order, k, b) ensures Shr(p, i) <= Shr(b, i) {
      ShrMonotone(p, b, i);
    }
  }

  lemma RegrownTail(F0: set<nat>, F: set<nat>, R: set<nat>, i: nat, index: nat, tail: set<nat>)
    requires F == F0 - Block(i, index) && Block(i, index) <= F0 + R
    requires forall p :: p in tail <==> p in R && p in Block(i, index)
    ensures F + Block(i, index) == F0 + tail
  {
  }

  /** State 2, even node: nothing to return at this level. */
  lemma StepUp2(F0: set<nat>, F: set<nat>, order: nat, k: nat, b: nat, i: nat, index: nat)
    requires index == Shr(b, i)
    requires TailState(F0, F, order, k, b, i, 2) && index % 2 == 0
    ensures TailState(F0, F, order, k, b, i + 1, 2)
  {
    TailUp(order, k, b, i);
    SiblingBlocks(i, index);
  }

  /** State 2, odd node: return its left sibling. */
  lemma StepGive2(n: nat, F0: set<nat>, F: set<nat>, order: nat, k: nat, b: nat, i: nat, index: nat)
    requires index == Shr(b, i)
    requires TailContext(n, F0, order, k, b) && TailState(F0, F, order, k, b, i, 2) && i < order
    requires index % 2 == 1
    ensures Giveable(F, AllPages(n), i, index - 1)
    ensures TailState(F0, F + Block(i, index - 1), order, k, b, i + 1, 2)
  {
    LeftSiblingInRun(order, k, b, i);
    SiblingBlocks(i, index);
    GiveLeft(F, n, order, k, b, i, index);
    TailUp(order, k, b, i);
  }

  /** At the order of the run: everything is returned (2), or the whole block is in hand (1). */
  lemma TailDone(n: nat, F0: set<nat>, F: set<nat>, order: nat, k: nat, b: nat, merged: int)
    requires TailContext(n, F0, order, k, b) && TailState(F0, F, order, k, b, order, merged)
    requires 0 <= merged <= 2 && b != k * Pow2(order)
    ensures merged != 0
    ensures merged == 2 ==> F == F0 + Run(order, k, b)
    ensures merged == 1 ==> F == F0 - Block(order, k) && Block(order, k) <= F0 + Run(order, k, b)
  {
  }

  // ---- Merging upwards

  /** Node `index` of level `i` is in hand: free pages, but on no ring. */
  ghost predicate InHand(target: set<nat>, F: set<nat>, i: nat, index: nat)
  {
    Block(i, index) <= target && F == target - Block(i, index)
  }

  lemma MergeSibling(target: set<nat>, F: set<nat>, i: nat, index: nat, up: nat, parent: nat)
    requires InHand(target, F, i, index) && Maximal(F, i, Sibling(index))
    requires up == i + 1 && parent == index / 2
    ensures InHand(target, F - Block(i, Sibling(index)), up, parent)
  {
    SiblingBlocks(i, index);
  }

  lemma MergeStops(target: set<nat>, F: set<nat>, i: nat, index: nat)
    requires InHand(target, F, i, index) && !Maximal(F, i, Sibling(index))
    ensures !(Block(i, Sibling(index)) <= F)
  {
    DisjointNotWithin(F, i, index);
    assert Sibling(Sibling(index)) == index;
    NotFree(F, i, Sibling(index));
  }

  /** At the top level no node can have a free sibling: the two would exceed the page count. */
  lemma TopHasNoSibling(n: nat, target: set<nat>, i: nat, index: nat)
    requires n < Pow2(i + 1) && target <= AllPages(n) && Block(i, index) <= target
    ensures !(Block(i, Sibling(index)) <= target)
  {
    if Block(i, Sibling(index)) <= target {
      SiblingBlocks(i, index);
      RealLevel(n, i + 1, index / 2);
    }
  }

  /** A run shorter than its block: the page after it lies inside the block. */
  lemma ShortRun(n: nat, start: nat, pages: nat, order: nat, k: nat)
    requires Granted(n, start, pages, order, k) && pages < Pow2(order)
    ensures start + pages in Block(order, k) && start + pages != k * Pow2(order)
  {
    BlockInterval(order, k, start + pages);
    MulSucc(Pow2(order), k);
  }

  lemma WalkInside(n: nat, order: nat, k: nat, b: nat, i: nat)
    requires Block(order, k) <= AllPages(n) && b in Block(order, k) && i <= order
    ensures Block(i, Shr(b, i)) <= AllPages(n)
  {
    Nested(i, Shr(b, i), order, k);
    assert b in Block(i, Shr(b, i));
  }
}
