/** Powers of two, right shifts and the aligned page blocks of the buddy allocator. */
module Binary {
  import opened Arithmetic

  function Pow2(n: nat): (r: nat)
    ensures r > 0
  {
    if n == 0 then 1 else 2 * Pow2(n - 1)
  }

  /** `p >> j`. */
  function Shr(p: nat, j: nat): nat
  {
    if j == 0 then p else Shr(p, j - 1) / 2
  }

  /** The two quotient bounds of a right shift. */
  lemma {:induction false} ShrBounds(p: nat, j: nat)
    ensures Shr(p, j) * Pow2(j) <= p < (Shr(p, j) + 1) * Pow2(j)
  {
    if j > 0 {
      ShrBounds(p, j - 1);
      HalveBounds(p, Shr(p, j - 1), Pow2(j - 1));
    }
  }

  lemma HalveBounds(p: nat, s: nat, w: nat)
    requires s * w <= p < (s + 1) * w
    ensures s / 2 * (2 * w) <= p < (s / 2 + 1) * (2 * w)
  {
    var q := s / 2;
    assert q * (2 * w) == 2 * q * w;
    assert (q + 1) * (2 * w) == (2 * q + 2) * w;
    MulLe(2 * q, s, w);
    MulLe(s + 1, 2 * q + 2, w);
  }

  /** A right shift is the quotient by the power of two. */
  lemma ShrUnique(p: nat, j: nat, q: int)
    requires q * Pow2(j) <= p < (q + 1) * Pow2(j)
    ensures q == Shr(p, j)
  {
    ShrBounds(p, j);
    MulLt(q, Shr(p, j) + 1, Pow2(j));
    MulLt(Shr(p, j), q + 1, Pow2(j));
  }

  lemma {:induction false} ShrMonotone(p: nat, q: nat, j: nat)
    requires p <= q
    ensures Shr(p, j) <= Shr(q, j)
  {
    if j > 0 {
      ShrMonotone(p, q, j - 1);
    }
  }

  lemma {:induction false} ShrCompose(p: nat, i: nat, j: nat)
    ensures Shr(Shr(p, i), j) == Shr(p, i + j)
  {
    if j > 0 {
      ShrCompose(p, i, j - 1);
    }
  }

  lemma {:induction false} Pow2Monotone(i: nat, j: nat)
    requires i <= j
    ensures Pow2(i) <= Pow2(j)
  {
    if i < j {
      Pow2Monotone(i, j - 1);
    }
  }

  lemma {:induction false} BelowPow2(n: nat)
    ensures n < Pow2(n)
  {
    if n > 0 {
      BelowPow2(n - 1);
    }
  }

  /** Pages `0 .. n`. */
  ghost function AllPages(n: nat): (s: set<nat>)
    ensures forall p: nat :: p in s <==> p < n
    ensures |s| == n
  {
    if n == 0 then {} else AllPages(n - 1) + {n - 1}
  }

  /** The `2^j` pages of node `k` of level `j`: those with `p >> j == k`. */
  ghost function Block(j: nat, k: nat): (b: set<nat>)
    ensures forall p: nat {:trigger p in b} :: p in b <==> Shr(p, j) == k
  {
    if j == 0 then {k} else Block(j - 1, 2 * k) + Block(j - 1, 2 * k + 1)
  }

  /** The same pages as an interval: `k * 2^j .. (k + 1) * 2^j`. */
  lemma BlockInterval(j: nat, k: nat, p: nat)
    ensures p in Block(j, k) <==> k * Pow2(j) <= p < (k + 1) * Pow2(j)
  {
    ShrBounds(p, j);
    if k * Pow2(j) <= p < (k + 1) * Pow2(j) {
      ShrUnique(p, j, k);
    }
  }

  /** The first page of a block. */
  lemma BlockStart(j: nat, k: nat)
    ensures k * Pow2(j) in Block(j, k)
    ensures Shr(k * Pow2(j), j) == k
  {
    ShrUnique(k * Pow2(j), j, k);
  }

  lemma BlockNonempty(j: nat, k: nat)
    ensures Block(j, k) != {}
  {
    BlockStart(j, k);
  }

  /** A block is the union of the two halves one level down. */
  lemma BlockHalves(j: nat, k: nat)
    ensures Block(j + 1, k) == Block(j, 2 * k) + Block(j, 2 * k + 1)
    ensures Block(j, 2 * k) !! Block(j, 2 * k + 1)
  {
    assert forall p: nat :: Shr(p, j + 1) == Shr(p, j) / 2;
  }

  /** The same block, with its size. */
  ghost function SizedBlock(j: nat, k: nat): (b: set<nat>)
    ensures b == Block(j, k) && |b| == Pow2(j)
  {
    if j == 0 then {k}
    else
      var left, right := SizedBlock(j - 1, 2 * k), SizedBlock(j - 1, 2 * k + 1);
      assert left !! right;
      left + right
  }

  lemma BlockSize(j: nat, k: nat)
    ensures |Block(j, k)| == Pow2(j)
  {
    var b := SizedBlock(j, k);
  }

  /** Aligned blocks are nested or disjoint. */
  lemma Nested(a: nat, x: nat, b: nat, y: nat)
    requires a <= b
    ensures Shr(x, b - a) == y ==> Block(a, x) <= Block(b, y)
    ensures Shr(x, b - a) != y ==> Block(a, x) !! Block(b, y)
  {
    forall p: nat | p in Block(a, x) ensures p in Block(b, y) <==> Shr(x, b - a) == y {
      ShrCompose(p, a, b - a);
    }
  }
}
