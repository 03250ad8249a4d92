/**
 One level of the allocator: a fixed array of nodes and the circular doubly linked ring
 of those that are free.  A node is free exactly when its `pNext` is not null.
 */
module FreeRing {
  import opened Sequences

  class PBN {
    var pPrev: PBN?
    var pNext: PBN?
    const nIndex: nat
    ghost const level: nat

    constructor (i: nat, ghost level: nat)
      ensures nIndex == i && pNext == null && this.level == level
    {
      nIndex := i;
      this.level := level;
      pNext := null;
      pPrev := null;
    }
  }

  function Succ(k: nat, n: nat): nat
  {
    if k + 1 == n then 0 else k + 1
  }

  function Pred(k: nat, n: nat): nat
    requires n > 0
  {
    if k == 0 then n - 1 else k - 1
  }

  /** `r` is a closed ring: `pNext` leads forward, `pPrev` back, and the ends meet. */
  ghost predicate Linked(r: seq<PBN>)
    reads r
  {
    && Distinct(r)
    && (forall k {:trigger r[k].pNext} :: 0 <= k < |r| ==> r[k].pNext == r[Succ(k, |r|)])
    && (forall k {:trigger r[k].pPrev} :: 0 <= k < |r| ==> r[k].pPrev == r[Pred(k, |r|)])
  }

  /** Like `Linked(r)`, except that the links around `r[i]` bypass it. */
  ghost predicate Bypassed(r: seq<PBN>, i: nat)
    requires i < |r|
    reads r
  {
    && Distinct(r)
    && (forall k {:trigger r[k].pNext} :: 0 <= k < |r| && k != i ==>
          r[k].pNext == r[if Succ(k, |r|) == i then Succ(i, |r|) else Succ(k, |r|)])
    && (forall k {:trigger r[k].pPrev} :: 0 <= k < |r| && k != i ==>
          r[k].pPrev == r[if Pred(k, |r|) == i then Pred(i, |r|) else Pred(k, |r|)])
  }

  /** A bypassed node can be dropped from the ring. */
  lemma DropBypassed(r: seq<PBN>, i: nat)
    requires i < |r| && Bypassed(r, i)
    ensures Linked(Without(r, i))
  {
    var s := Without(r, i);
    forall j | 0 <= j < |s|
      ensures s[j].pNext == s[Succ(j, |s|)] && s[j].pPrev == s[Pred(j, |s|)]
    {
      var k := if j < i then j else j + 1;
      assert s[j] == r[k];
      assert r[k].pNext == s[Succ(j, |s|)];
      assert r[k].pPrev == s[Pred(j, |s|)];
    }
  }

  class PBA {
    const pArray: seq<PBN>
    ghost const level: nat
    var pHeader: PBN?
    ghost var Ring: seq<PBN>  // the free nodes in `pNext` order, header first
    ghost var Free: set<nat>  // their indices

    constructor (size: nat, ghost level: nat)
      ensures Valid() && fresh(this) && fresh(pArray)
      ensures |pArray| == size && Free == {} && this.level == level
    {
      var nodes: seq<PBN> := [];
      for i := 0 to size
        invariant |nodes| == i && fresh(nodes)
        invariant forall k :: 0 <= k < i ==> nodes[k].nIndex == k && nodes[k].pNext == null && nodes[k].level == level
      {
        var node := new PBN(i, level);
        nodes := nodes + [node];
      }
      pArray := nodes;
      this.level := level;
      pHeader := null;
      Ring := [];
      Free := {};
    }

    predicate Owns(n: PBN)
    {
      n.nIndex < |pArray| && pArray[n.nIndex] == n
    }

    ghost predicate Valid()
      reads this, pArray
    {
      && (forall k :: 0 <= k < |pArray| ==> pArray[k].nIndex == k && pArray[k].level == level)
      && (forall k :: 0 <= k < |Ring| ==> Owns(Ring[k]))
      && Linked(Ring)
      && pHeader == (if Ring == [] then null else Ring[0])
      && (forall k: nat {:trigger k in Free} :: k in Free <==> k < |pArray| && pArray[k].pNext != null)
      && (forall k: nat {:trigger k in Free} :: k in Free ==> pArray[k] in Ring)
    }

    /** How the constructor starts a level with a single free node. */
    method StartRing(pNode: PBN)
      requires Valid() && Owns(pNode) && Free == {}
      modifies this, pNode
      ensures Valid() && Free == {pNode.nIndex}
    {
      pHeader := pNode;
      pNode.pNext := pNode;
      pNode.pPrev := pNode;
      Ring := [pNode];
      Free := {pNode.nIndex};
    }

    method InsertFree(pThis: PBN)
      requires Valid() && Owns(pThis) && pThis.pNext == null
      modifies this, pArray
      ensures Valid()
      ensures Ring == [pThis] + old(Ring)
      ensures Free == old(Free) + {pThis.nIndex}
    {
      if pHeader != null {
        LinkBefore(pThis, Ring);
        pHeader := pThis;
      } else {
        pHeader := pThis;
        pThis.pPrev := pThis;
        pThis.pNext := pThis;
      }
      Ring := [pThis] + Ring;
      Free := Free + {pThis.nIndex};
    }

    method RemoveFree(pThis: PBN) returns (ghost i: nat)
      requires Valid() && Owns(pThis) && pThis.pNext != null
      modifies this, pArray
      ensures Valid()
      ensures i < |old(Ring)| && old(Ring)[i] == pThis && Ring == Without(old(Ring), i)
      ensures Free == old(Free) - {pThis.nIndex}
    {
      ghost var was := Ring;
      assert pThis.nIndex in Free;
      i :| 0 <= i < |was| && was[i] == pThis;
      Ring := Without(was, i);
      Free := Free - {pThis.nIndex};
      if pThis == pHeader {
        pHeader := pThis.pNext;
        if pThis == pHeader {
          assert |was| == 1;
          pThis.pNext := null;
          pHeader := null;
          return;
        }
      }
      Unlink(pThis, was, i);
      DropBypassed(was, i);
      forall k | k in Free ensures pArray[k] in Ring {
        MembersWithout(was, i, pArray[k]);
      }
    }

    /** The pointer part of `InsertFree`: `pThis` goes between the last node and the header. */
    method LinkBefore(pThis: PBN, ghost r: seq<PBN>)
      requires Linked(r) && r != [] && pHeader == r[0] && pThis !in r
      modifies r, pThis
      ensures Linked([pThis] + r)
      ensures pThis.pNext != null && forall n | n in r :: n.pNext != null
    {
      pHeader.pPrev.pNext := pThis;
      pThis.pPrev := pHeader.pPrev;
      pHeader.pPrev := pThis;
      pThis.pNext := pHeader;
    }

    /** The pointer part of `RemoveFree`: the neighbours of `pThis` are made to bypass it. */
    method Unlink(pThis: PBN, ghost r: seq<PBN>, ghost i: nat)
      requires Linked(r) && i < |r| && r[i] == pThis && |r| > 1
      modifies r
      ensures Bypassed(r, i) && pThis.pNext == null
      ensures forall n | n in r && n != pThis :: n.pNext != null
    {
      pThis.pPrev.pNext := pThis.pNext;
      pThis.pNext.pPrev := pThis.pPrev;
      pThis.pNext := null;
    }
  }
}
