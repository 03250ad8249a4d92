/**
 Cutting a run of `b - start` pages out of a whole block in hand: the walk goes down the levels
 with `index == b >> i` and puts the blocks to the right of `b` on their rings.
 */
module Cuts {
  import opened Binary
  import opened Buddy
  import opened Runs

  /** The pages of the block not yet given back when the walk has reached level `i`. */
  ghost function Kept(order: nat, k: nat, b: nat, i: nat): set<nat>
  {
    set p | p in Block(order, k) && Shr(p, i) <= Shr(b, i)
  }

  /** `b` lies strictly inside its level-`i` node. */
  ghost predicate CutState(F0: set<nat>, F: set<nat>, order: nat, k: nat, b: nat, i: nat)
  {
    && Block(order, k) <= F0 && b in Block(order, k)
    && F == F0 - Kept(order, k, b, i)
    && Shr(b, i) * Pow2(i) < b
  }

  lemma CutStart(F0: set<nat>, F: set<nat>, order: nat, k: nat, b: nat)
    requires Block(order, k) <= F0 && F == F0 - Block(order, k)
    requires k * Pow2(order) < b < k * Pow2(order) + Pow2(order)
    ensures CutState(F0, F, order, k, b, order)
  {
    assert (k + 1) * Pow2(order) == k * Pow2(order) + Pow2(order);
    BlockInterval(order, k, b);
    assert Kept(order, k, b, order) == Block(order, k);
  }

  lemma Products(q: nat, w: nat)
    ensures q * (2 * w) == 2 * (q * w) == 2 * q * w
    ensures (2 * q + 1) * w == 2 * (q * w) + w
    ensures (2 * q + 2) * w == 2 * (q * w) + 2 * w
  {
  }

  lemma HalfStep(b: nat, s: nat, w: nat, rem: int)
    requires s * w <= b < (s + 1) * w && rem == b - s / 2 * (2 * w)
    ensures 0 <= rem < 2 * w
    ensures rem < w ==> s % 2 == 0 && rem == b - s * w
    ensures rem >= w ==> s % 2 == 1 && rem - w == b - s * w
  {
    Products(s / 2, w);
    if s % 2 == 0 {
      assert s == 2 * (s / 2);
    } else {
      assert s == 2 * (s / 2) + 1;
    }
  }

  /** The remaining page count tells the next bit of `b`. */
  lemma NextBit(b: nat, i: nat, rem: int)
    requires rem == b - Shr(b, i + 1) * Pow2(i + 1)
    ensures 0 <= rem < Pow2(i + 1)
    ensures rem < Pow2(i) ==> Shr(b, i) == 2 * Shr(b, i + 1) && rem == b - Shr(b, i) * Pow2(i)
    ensures rem >= Pow2(i) ==> Shr(b, i) == 2 * Shr(b, i + 1) + 1 && rem - Pow2(i) == b - Shr(b, i) * Pow2(i)
  {
    ShrBounds(b, i);
    HalfStep(b, Shr(b, i), Pow2(i), rem);
  }

  /** The top bit of a number below `2 * w`. */
  lemma BitOf(rem: nat, w: nat)
    requires 0 < w && rem < 2 * w
    ensures rem / w % 2 == 0 <==> rem < w
  {
    if rem >= w {
      assert rem / w == 1;
    }
  }

  lemma InsideBlock(order: nat, k: nat, b: nat, i: nat)
    requires b in Block(order, k) && i < order
    ensures Block(i + 1, Shr(b, i + 1)) <= Block(order, k)
  {
    Nested(i + 1, Shr(b, i + 1), order, k);
    assert b in Block(i + 1, Shr(b, i + 1));
  }

  /** Bit clear: the right half of the node lies beyond `b` and becomes free. */
  lemma CutRight(F0: set<nat>, F: set<nat>, order: nat, k: nat, b: nat, i: nat, index: nat)
    requires CutState(F0, F, order, k, b, i + 1) && i < order
    requires index == Shr(b, i) && index % 2 == 0
    requires index * Pow2(i) < b
    ensures Block(i, index + 1) !! F && Block(i, index + 1) <= F0 && !(Block(i, index) <= F)
    ensures CutState(F0, F + Block(i, index + 1), order, k, b, i)
  {
    InsideBlock(order, k, b, i);
    SiblingBlocks(i, index);
    DisjointNotWithin(F, i, index);
    assert Kept(order, k, b, i + 1) == Kept(order, k, b, i) + Block(i, index + 1);
  }

  /** Bit set: the left half stays with the run, the walk goes on in the right half. */
  lemma CutLeft(F0: set<nat>, F: set<nat>, order: nat, k: nat, b: nat, i: nat, index: nat)
    requires CutState(F0, F, order, k, b, i + 1)
    requires index == Shr(b, i) && index % 2 == 1
    requires index * Pow2(i) < b
    ensures CutState(F0, F, order, k, b, i)
  {
    assert Kept(order, k, b, i + 1) == Kept(order, k, b, i);
  }

  /** Bit set and nothing remains: the right half is the last block given back. */
  lemma CutLast(F0: set<nat>, F: set<nat>, order: nat, k: nat, b: nat, i: nat, index: nat)
    requires CutState(F0, F, order, k, b, i + 1) && i < order
    requires index == Shr(b, i) && index % 2 == 1
    requires index * Pow2(i) == b
    ensures Block(i, index) !! F && Block(i, index) <= F0 && !(Block(i, index - 1) <= F)
    ensures F + Block(i, index) == F0 - Run(order, k, b)
  {
    InsideBlock(order, k, b, i);
    SiblingBlocks(i, index);
    DisjointNotWithin(F, i, index - 1);
    forall p | p in Block(order, k) ensures p < b <==> Shr(p, i) < index {
      ShrBounds(p, i);
      if p < b { ShrMonotone(p, b, i); } else { ShrMonotone(b, p, i); }
    }
    assert Kept(order, k, b, i + 1) == Run(order, k, b) + Block(i, index);
  }

  /** Where the walk stands: node `index` of level `i`, with `rem` pages still to keep from it. */
  ghost predicate CutAt(F0: set<nat>, F: set<nat>, order: nat, k: nat, b: nat, i: nat, index: nat, rem: nat)
  {
    && rem < Pow2(i)
    && (rem > 0 ==> CutState(F0, F, order, k, b, i) && index == Shr(b, i) && rem == b - index * Pow2(i))
    && (rem == 0 ==> F == F0 - Run(order, k, b))
  }

  /** One level down: the right half is given back, unless the run reaches past its first page. */
  lemma CutStep(n: nat, F0: set<nat>, F: set<nat>, order: nat, k: nat, b: nat, i: nat, index: nat, rem: nat)
    requires F0 <= AllPages(n) && i < order && rem > 0 && CutAt(F0, F, order, k, b, i + 1, index, rem)
    ensures rem < Pow2(i) ==>
              && Giveable(F, AllPages(n), i, 2 * index + 1)
              && CutAt(F0, F + Block(i, 2 * index + 1), order, k, b, i, 2 * index, rem)
    ensures rem == Pow2(i) ==>
              && Giveable(F, AllPages(n), i, 2 * index + 1)
              && CutAt(F0, F + Block(i, 2 * index + 1), order, k, b, i, 2 * index + 1, 0)
    ensures rem > Pow2(i) ==> CutAt(F0, F, order, k, b, i, 2 * index + 1, rem - Pow2(i))
  {
    NextBit(b, i, rem);
    assert Sibling(2 * index + 1) == 2 * index;
    if rem < Pow2(i) {
      CutRight(F0, F, order, k, b, i, 2 * index);
    } else if rem == Pow2(i) {
      CutLast(F0, F, order, k, b, i, 2 * index + 1);
    } else {
      CutLeft(F0, F, order, k, b, i, 2 * index + 1);
    }
  }

  lemma CutBegins(F0: set<nat>, F: set<nat>, order: nat, k: nat, pages: nat)
    requires Block(order, k) <= F0 && F == F0 - Block(order, k) && 0 < pages < Pow2(order)
    ensures k * Pow2(order) + pages >= 0
    ensures CutAt(F0, F, order, k, k * Pow2(order) + pages, order, k, pages)
  {
    CutStart(F0, F, order, k, k * Pow2(order) + pages);
    BlockStart(order, k);
  }
}
