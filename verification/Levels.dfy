/** How many nodes each level has, and that every index the allocator forms is one of them. */
module Levels {
  import opened Arithmetic
  import opened Binary
  import opened Buddy

  function EvenUp(size: nat): nat
  {
    (size + 1) / 2 * 2
  }

  /** The node count the constructor computes for level `i` by rounding and halving. */
  function LevelSize(n: nat, i: nat): nat
    decreases i, 1
  {
    EvenUp(RawSize(n, i))
  }

  /** The same before rounding. */
  function RawSize(n: nat, i: nat): nat
    decreases i, 0
  {
    if i == 0 then n else LevelSize(n, i - 1) / 2
  }

  function CeilDiv(n: nat, d: nat): nat
    requires d > 0
  {
    (n + d - 1) / d
  }

  lemma {:induction false} LevelSizeShape(n: nat, i: nat)
    requires n > 0
    ensures LevelSize(n, i) == 2 * (Shr(n - 1, i + 1) + 1)
  {
    if i > 0 {
      LevelSizeShape(n, i - 1);
    } else {
      assert Shr(n - 1, 1) == Shr(n - 1, 0) / 2;
    }
  }

  /** Level `i` has the even round-up of `ceil(n / 2^i)` nodes. */
  lemma LevelSizeIsEvenCeiling(n: nat, i: nat)
    ensures LevelSize(n, i) == EvenUp(CeilDiv(n, Pow2(i)))
  {
    if n == 0 {
      EmptyLevel(i);
      assert CeilDiv(0, Pow2(i)) == 0;
    } else {
      LevelSizeShape(n, i);
      CeilingShift(n, i);
    }
  }

  lemma {:induction false} EmptyLevel(i: nat)
    ensures LevelSize(0, i) == 0
  {
    if i > 0 { EmptyLevel(i - 1); }
  }

  lemma CeilingShift(n: nat, i: nat)
    requires n > 0
    ensures CeilDiv(n, Pow2(i)) == Shr(n - 1, i) + 1
  {
    ShrBounds(n - 1, i);
    var q, w := Shr(n - 1, i), Pow2(i);
    DivUnique(n + w - 1, w, q + 1) by {
      assert (q + 1) * w == q * w + w;
      assert (q + 2) * w == q * w + 2 * w;
    }
  }

  /** A node of real pages exists in its level's array, and so does its sibling. */
  lemma NodeExists(n: nat, i: nat, k: nat)
    requires Block(i, k) <= AllPages(n)
    ensures k < LevelSize(n, i) && Sibling(k) < LevelSize(n, i)
  {
    RealLevel(n, i, k);
    LevelSizeShape(n, i);
    var p := k * Pow2(i);
    BlockStart(i, k);
    ShrMonotone(p, n - 1, i + 1);
    assert Shr(p, i + 1) == k / 2;
  }

  /** The level of a node of real pages is one of the allocator's levels. */
  lemma LevelExists(n: nat, types: nat, i: nat, k: nat)
    requires n < Pow2(types) && Block(i, k) <= AllPages(n)
    ensures i < types
  {
    RealLevel(n, i, k);
    if types <= i { Pow2Monotone(types, i); }
  }

  // ---- The initial rings

  lemma ShrIsQuotient(p: nat, j: nat)
    ensures p / Pow2(j) == Shr(p, j)
  {
    ShrBounds(p, j);
    DivUnique(p, Pow2(j), Shr(p, j));
  }

  /** The nodes the constructor starts level `i` with. */
  ghost function InitialNodes(n: nat, i: nat): set<nat>
  {
    if Shr(n, i) % 2 == 1 then {Shr(n, i) - 1} else {}
  }

  lemma InitialNodesAreMaximal(n: nat)
    ensures forall i: nat, k: nat :: k in InitialNodes(n, i) <==> Maximal(AllPages(n), i, k)
  {
    forall i: nat, k: nat ensures k in InitialNodes(n, i) <==> Maximal(AllPages(n), i, k) {
      BinaryDecomposition(n, i, k);
    }
  }

  lemma InitialNodeExists(n: nat, i: nat)
    requires Shr(n, i) > 0
    ensures Shr(n, i) - 1 < LevelSize(n, i)
  {
    RealBlock(n, i, Shr(n, i) - 1);
    NodeExists(n, i, Shr(n, i) - 1);
  }
}
