/**
 The meaning of the free rings.  `F` is the set of free pages; the nodes the allocator
 keeps on its rings are claimed to be exactly the *maximal* aligned blocks inside `F`.
 Everything the allocator promises follows from that one equation.
 */
module Buddy {
  import opened Arithmetic
  import opened Binary

  /** Node `k` of level `j` is a maximal aligned block of free pages. */
  ghost predicate Maximal(F: set<nat>, j: nat, k: nat)
  {
    Block(j, k) <= F && !(Block(j + 1, k / 2) <= F)
  }

  function Sibling(k: nat): nat
  {
    if k % 2 == 1 then k - 1 else k + 1
  }

  lemma SiblingBlocks(j: nat, k: nat)
    ensures Block(j + 1, k / 2) == Block(j, k) + Block(j, Sibling(k))
    ensures Block(j, k) !! Block(j, Sibling(k))
  {
    BlockHalves(j, k / 2);
  }

  /** Two different maximal blocks share no page. */
  lemma MaximalDisjoint(F: set<nat>, a: nat, x: nat, b: nat, y: nat)
    requires Maximal(F, a, x) && Maximal(F, b, y) && (a, x) != (b, y)
    ensures Block(a, x) !! Block(b, y)
  {
    if b < a {
      MaximalDisjoint(F, b, y, a, x);
    } else if a == b {
    } else {
      Nested(a, x, b, y);
      Nested(a, x, a + 1, x / 2);
      Nested(a + 1, x / 2, b, y);
      ShrCompose(x, 1, b - a - 1);
      assert Shr(x, 1) == Shr(x, 0) / 2;
    }
  }

  /** No two siblings are both free nodes: such a pair would have been merged. */
  lemma NoTwoFreeSiblings(F: set<nat>, j: nat, k: nat)
    requires Maximal(F, j, k)
    ensures !Maximal(F, j, Sibling(k))
    ensures !(Block(j, Sibling(k)) <= F)
  {
    SiblingBlocks(j, k);
  }

  /** Taking a free node off its ring leaves exactly the maximal blocks of what remains. */
  lemma TakeKeepsCanon(F: set<nat>, j: nat, k: nat)
    requires Maximal(F, j, k)
    ensures forall a: nat, x: nat :: Maximal(F - Block(j, k), a, x) <==> Maximal(F, a, x) && (a, x) != (j, k)
  {
    var G := F - Block(j, k);
    forall a: nat, x: nat ensures Maximal(G, a, x) <==> Maximal(F, a, x) && (a, x) != (j, k) {
      BlockNonempty(a, x);
      if Maximal(F, a, x) && (a, x) != (j, k) {
        MaximalDisjoint(F, a, x, j, k);
      }
      if Maximal(G, a, x) && Block(a + 1, x / 2) <= F {
        SiblingBlocks(a, x);
        CoverEscapes(F, j, k, a, x);
      }
    }
  }

  /** A block inside `F` but outside a maximal block has a parent clear of that maximal block. */
  lemma CoverEscapes(F: set<nat>, j: nat, k: nat, a: nat, x: nat)
    requires Maximal(F, j, k) && Block(a + 1, x / 2) <= F && Block(a, x) !! Block(j, k)
    ensures Block(a + 1, x / 2) !! Block(j, k)
  {
    BlockNonempty(a, x);
    SiblingBlocks(a, x);
    if a + 1 <= j {
      Nested(a + 1, x / 2, j, k);
    } else {
      Nested(j, k, a + 1, x / 2);
      ShrCompose(k, 1, a - j);
      assert Shr(k, 1) == Shr(k, 0) / 2;
      Nested(j + 1, k / 2, a + 1, x / 2);
    }
  }

  /** Putting a node on its ring while its sibling is not wholly free again gives the maximal blocks. */
  lemma GiveKeepsCanon(F: set<nat>, j: nat, k: nat)
    requires Block(j, k) !! F && !(Block(j, Sibling(k)) <= F)
    ensures forall a: nat, x: nat :: Maximal(F + Block(j, k), a, x) <==> Maximal(F, a, x) || (a, x) == (j, k)
  {
    var G := F + Block(j, k);
    SiblingBlocks(j, k);
    assert Maximal(G, j, k);
    assert G - Block(j, k) == F;
    TakeKeepsCanon(G, j, k);
    BlockNonempty(j, k);
    assert !Maximal(F, j, k);
  }

  /** Every aligned free block lies inside a maximal one. */
  lemma {:induction false} FindMaximal(F: set<nat>, n: nat, j: nat, k: nat) returns (a: nat, x: nat)
    requires F <= AllPages(n) && Block(j, k) <= F
    ensures a >= j && Maximal(F, a, x) && Block(j, k) <= Block(a, x)
    decreases n - j
  {
    if Block(j + 1, k / 2) <= F {
      RealLevel(n, j + 1, k / 2);
      a, x := FindMaximal(F, n, j + 1, k / 2);
      SiblingBlocks(j, k);
    } else {
      a, x := j, k;
    }
  }

  /** A block of real pages has a level below the page count. */
  lemma RealLevel(n: nat, j: nat, k: nat)
    requires Block(j, k) <= AllPages(n)
    ensures j < Pow2(j) <= n
  {
    BlockSize(j, k);
    SubsetSize(Block(j, k), AllPages(n));
    BelowPow2(j);
  }

  lemma SubsetSize<T>(a: set<T>, b: set<T>)
    requires a <= b
    ensures |a| <= |b|
  {
    assert b == a + (b - a);
  }

  /**
   Coalescing is complete: a free node of level `t` or above exists exactly when some
   aligned run of `2^t` pages is entirely free.
   */
  lemma CoalescingComplete(F: set<nat>, n: nat, t: nat)
    requires F <= AllPages(n)
    ensures (exists j: nat, k: nat :: j >= t && Maximal(F, j, k)) <==> (exists k: nat :: Block(t, k) <= F)
  {
    if k: nat :| Block(t, k) <= F {
      var a, x := FindMaximal(F, n, t, k);
    }
    if j: nat, k: nat :| j >= t && Maximal(F, j, k) {
      var p := k * Pow2(j);
      BlockStart(j, k);
      Nested(t, Shr(p, t), j, k);
      assert p in Block(t, Shr(p, t));
      assert Block(t, Shr(p, t)) <= F;
    }
  }

  /** Node `x` of level `i` is a smallest free node of level `level` or above. */
  ghost predicate Smallest(F: set<nat>, level: nat, i: nat, x: nat)
  {
    level <= i && Maximal(F, i, x) && forall j: nat, y: nat :: level <= j < i ==> !Maximal(F, j, y)
  }

  /**
   Node `k` of level `level` is the first part of the smallest free node that can hold it, of those of its
   size the one at the head of its ring; `heads` has the head of each level, -1 for none.
   */
  ghost predicate FromSmallest(F: set<nat>, heads: seq<int>, level: nat, k: nat)
  {
    exists i: nat, x: nat ::
      Smallest(F, level, i, x) && i < |heads| && heads[i] == x && k * Pow2(level) == x * Pow2(i)
  }

  /** The maximal blocks partition the free pages. */
  lemma MaximalPartition(F: set<nat>, n: nat, p: nat)
    requires F <= AllPages(n) && p in F
    ensures exists j: nat, k: nat :: Maximal(F, j, k) && p in Block(j, k)
    ensures forall j: nat, k: nat, a: nat, x: nat ::
              Maximal(F, j, k) && Maximal(F, a, x) && p in Block(j, k) && p in Block(a, x) ==> (j, k) == (a, x)
  {
    assert Block(0, p) == {p};
    var j, k := FindMaximal(F, n, 0, p);
    forall j: nat, k: nat, a: nat, x: nat |
      Maximal(F, j, k) && Maximal(F, a, x) && p in Block(j, k) && p in Block(a, x)
      ensures (j, k) == (a, x)
    {
      if (j, k) != (a, x) { MaximalDisjoint(F, j, k, a, x); }
    }
  }

  /** Which blocks consist of real pages only. */
  lemma RealBlock(n: nat, j: nat, k: nat)
    ensures Block(j, k) <= AllPages(n) <==> k < Shr(n, j)
  {
    ShrBounds(n, j);
    if k < Shr(n, j) {
      MulLe(k + 1, Shr(n, j), Pow2(j));
      forall p | p in Block(j, k) ensures p < n { ShrBounds(p, j); }
    } else {
      BlockStart(j, k);
      var last := (k + 1) * Pow2(j) - 1;
      ShrUnique(last, j, k);
      if last < n {
        MulLt(k, Shr(n, j), Pow2(j)) by {
          if Shr(n, j) <= k { MulLe(Shr(n, j) + 1, k + 1, Pow2(j)); }
        }
      }
      assert last in Block(j, k);
    }
  }

  /**
   The binary decomposition: with every page free, level `i` holds one node when bit `i` of
   the page count is set, the node just before the `i`-th right shift, and none otherwise.
   */
  lemma BinaryDecomposition(n: nat, i: nat, k: nat)
    ensures Maximal(AllPages(n), i, k) <==> Shr(n, i) % 2 == 1 && k == Shr(n, i) - 1
  {
    RealBlock(n, i, k);
    RealBlock(n, i + 1, k / 2);
  }

  // ---- Conservation: counting pages through the free nodes

  ghost function NodesAt(F: set<nat>, n: nat, j: nat): set<nat>
  {
    set k | k in AllPages(n) && Maximal(F, j, k)
  }

  /** The pages held by the free nodes of level `j`. */
  ghost function PagesAtLevel(F: set<nat>, n: nat, j: nat): nat
  {
    Pow2(j) * |NodesAt(F, n, j)|
  }

  /** The pages held by the free nodes of the levels below `levels`: the sum of `2^j * |nodes of level j|`. */
  ghost function PagesInNodes(F: set<nat>, n: nat, levels: nat): nat
  {
    if levels == 0 then 0
    else PagesInNodes(F, n, levels - 1) + PagesAtLevel(F, n, levels - 1)
  }

  ghost function PagesOf(F: set<nat>, j: nat, K: set<nat>): set<nat>
  {
    set p | p in F && Shr(p, j) in K
  }

  lemma {:induction false} PagesOfSize(F: set<nat>, j: nat, K: set<nat>)
    requires forall k | k in K :: Block(j, k) <= F
    ensures |PagesOf(F, j, K)| == Pow2(j) * |K|
    decreases K
  {
    if K == {} {
      assert PagesOf(F, j, K) == {};
    } else {
      var k :| k in K;
      PagesOfSize(F, j, K - {k});
      PagesOfSplit(F, j, K, k);
      MulSucc(Pow2(j), |K - {k}|);
    }
  }

  lemma PagesOfSplit(F: set<nat>, j: nat, K: set<nat>, k: nat)
    requires k in K && Block(j, k) <= F
    ensures |PagesOf(F, j, K)| == |PagesOf(F, j, K - {k})| + Pow2(j)
  {
    var some, one := PagesOf(F, j, K - {k}), Block(j, k);
    BlockSize(j, k);
    DisjointSize(some, one, PagesOf(F, j, K));
  }

  lemma DisjointSize<T>(a: set<T>, b: set<T>, c: set<T>)
    requires a !! b && c == a + b
    ensures |c| == |a| + |b|
  {
  }

  /** Page `p` lies in a free node of a level below `levels`. */
  ghost predicate Owned(F: set<nat>, p: nat, levels: nat)
  {
    levels > 0 && (Maximal(F, levels - 1, Shr(p, levels - 1)) || Owned(F, p, levels - 1))
  }

  lemma {:induction false} OwnedIntro(F: set<nat>, p: nat, j: nat, levels: nat)
    requires j < levels && Maximal(F, j, Shr(p, j))
    ensures Owned(F, p, levels)
  {
    if j < levels - 1 {
      OwnedIntro(F, p, j, levels - 1);
    }
  }

  lemma {:induction false} OwnedElsewhere(F: set<nat>, p: nat, j: nat, levels: nat)
    requires levels <= j && Maximal(F, j, Shr(p, j))
    ensures !Owned(F, p, levels)
  {
    if levels > 0 {
      OwnedElsewhere(F, p, j, levels - 1);
      var i := levels - 1;
      assert p in Block(i, Shr(p, i)) && p in Block(j, Shr(p, j));
      if Maximal(F, i, Shr(p, i)) {
        MaximalDisjoint(F, i, Shr(p, i), j, Shr(p, j));
      }
    }
  }

  lemma RealIndex(F: set<nat>, n: nat, j: nat, k: nat)
    requires F <= AllPages(n) && Block(j, k) <= F
    ensures k < n
  {
    BlockStart(j, k);
    MulLe(1, Pow2(j), k);
  }

  /** Splitting off the pages of the nodes of level `j`. */
  lemma OwnedStep(F: set<nat>, n: nat, j: nat, S: set<nat>) returns (below: set<nat>)
    requires F <= AllPages(n) && S <= F && forall p | p in F :: p in S <==> Owned(F, p, j + 1)
    ensures below <= F && forall p | p in F :: p in below <==> Owned(F, p, j)
    ensures |S| == |below| + PagesAtLevel(F, n, j)
  {
    var here := PagesOf(F, j, NodesAt(F, n, j));
    forall p | p in F
      ensures p in here <==> Maximal(F, j, Shr(p, j))
      ensures p in here ==> !Owned(F, p, j)
    {
      if Maximal(F, j, Shr(p, j)) {
        RealIndex(F, n, j, Shr(p, j));
        OwnedElsewhere(F, p, j, j);
      }
    }
    PagesOfSize(F, j, NodesAt(F, n, j));
    below := S - here;
    DisjointSize(below, here, S);
  }

  lemma {:induction false} OwnedSize(F: set<nat>, n: nat, levels: nat, S: set<nat>)
    requires F <= AllPages(n) && S <= F && forall p | p in F :: p in S <==> Owned(F, p, levels)
    ensures |S| == PagesInNodes(F, n, levels)
  {
    if levels == 0 {
      assert S == {};
    } else {
      var below := OwnedStep(F, n, levels - 1, S);
      OwnedSize(F, n, levels - 1, below);
    }
  }

  /** Conservation: the free nodes of all levels together hold exactly the free pages. */
  lemma PagesConserved(F: set<nat>, n: nat, levels: nat)
    requires F <= AllPages(n) && n < Pow2(levels)
    ensures PagesInNodes(F, n, levels) == |F|
  {
    forall p | p in F ensures Owned(F, p, levels) {
      assert Block(0, p) == {p};
      var j, k := FindMaximal(F, n, 0, p);
      RealLevel(n, j, k);
      if j >= levels { Pow2Monotone(levels, j); }
      OwnedIntro(F, p, j, levels);
    }
    OwnedSize(F, n, levels, F);
  }
}
