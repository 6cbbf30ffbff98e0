/**
 * The stable-pointer table: a stable pointer is an index into an array of
 * entries.  An entry in use holds its object; a free entry holds the address of
 * the next free entry, NULL in the last one, so the free entries form a chain.
 */
module StablePtr {

  /** What an entry's addr field can hold. */
  datatype Addr =
    | Null                 // end of the free chain
    | Object(id: nat)      // a heap object (entry in use)
    | FreeEntry(index: nat) // the address of stable_ptr_table[index] (entry free)

  /** spEntry. */
  datatype SpEntry = SpEntry(addr: Addr)

  /** deRefStablePtr: the addr field of entry `sp` of the current table; the
      index is not checked against the table's size. */
  function DeRefStablePtr(spt: seq<SpEntry>, sp: nat): (r: Addr)
    requires sp < |spt|
    ensures r == spt[sp].addr
  {
    spt[sp].addr
  }

  /** The link to chain position `i`: the i-th free entry, or NULL past the end. */
  function Link(chain: seq<nat>, i: nat): Addr
  {
    if i < |chain| then FreeEntry(chain[i]) else Null
  }

  /** `chain` lists, from `head` on, distinct entries of the table, each of
      whose addr is the link to the next, the last one's NULL. */
  ghost predicate IsFreeChain(spt: seq<SpEntry>, head: Addr, chain: seq<nat>)
  {
    && (forall i :: 0 <= i < |chain| ==> chain[i] < |spt|)
    && (forall i, j :: 0 <= i < j < |chain| ==> chain[i] != chain[j])
    && head == Link(chain, 0)
    && (forall i :: 0 <= i < |chain| ==> spt[chain[i]].addr == Link(chain, i + 1))
  }

  /** A well-formed table: the free chain from `head` is `chain`, and every
      entry off the chain holds an object. */
  ghost predicate Valid(spt: seq<SpEntry>, head: Addr, chain: seq<nat>)
  {
    && IsFreeChain(spt, head, chain)
    && (forall sp :: 0 <= sp < |spt| && sp !in chain ==> spt[sp].addr.Object?)
  }

  /** Dereferencing an entry in use yields its object. */
  lemma DeRefLive(spt: seq<SpEntry>, head: Addr, chain: seq<nat>, sp: nat)
    requires Valid(spt, head, chain)
    requires sp < |spt| && sp !in chain
    ensures DeRefStablePtr(spt, sp).Object?
  {
  }

  /** Dereferencing the i-th free entry yields the next free entry (NULL for
      the last one): deRefStablePtr cannot tell a free entry from a live one. */
  lemma DeRefFree(spt: seq<SpEntry>, head: Addr, chain: seq<nat>, i: nat)
    requires IsFreeChain(spt, head, chain)
    requires i < |chain|
    ensures DeRefStablePtr(spt, chain[i]) == Link(chain, i + 1)
    ensures i == |chain| - 1 ==> DeRefStablePtr(spt, chain[i]) == Null
  {
  }

  /** The rest of a free chain after its first entry is the free chain that
      starts at that entry's link. */
  lemma FreeChainTail(spt: seq<SpEntry>, head: Addr, chain: seq<nat>)
    requires IsFreeChain(spt, head, chain) && chain != []
    ensures IsFreeChain(spt, spt[chain[0]].addr, chain[1..])
  {
    var tail := chain[1..];
    assert spt[chain[0]].addr == Link(chain, 1) == Link(tail, 0);
    forall i | 0 <= i < |tail|
      ensures spt[tail[i]].addr == Link(tail, i + 1)
    {
      assert tail[i] == chain[i + 1];
      assert Link(chain, i + 2) == Link(tail, i + 1);
    }
  }

  /** The table and the head of the free list determine the free chain. */
  lemma {:induction false} FreeChainUnique(spt: seq<SpEntry>, head: Addr, c1: seq<nat>, c2: seq<nat>)
    requires IsFreeChain(spt, head, c1) && IsFreeChain(spt, head, c2)
    ensures c1 == c2
    decreases |c1|
  {
    if c1 != [] {
      assert c2 != [];
      assert c1[0] == c2[0];
      FreeChainTail(spt, head, c1);
      FreeChainTail(spt, head, c2);
      FreeChainUnique(spt, spt[c1[0]].addr, c1[1..], c2[1..]);
      assert c1 == [c1[0]] + c1[1..];
      assert c2 == [c2[0]] + c2[1..];
    } else {
      assert head == Null;
    }
  }

  /** A sequence of distinct values below n has at most n elements. */
  lemma {:induction false} DistinctBelow(chain: seq<nat>, n: nat)
    requires forall i :: 0 <= i < |chain| ==> chain[i] < n
    requires forall i, j :: 0 <= i < j < |chain| ==> chain[i] != chain[j]
    ensures |chain| <= n
    decreases n
  {
    if chain != [] {
      // drop the largest value n - 1 (if present) and recurse below n - 1
      assert chain[0] < n;
      var top: nat := n - 1;
      if exists k :: 0 <= k < |chain| && chain[k] == top {
        var k :| 0 <= k < |chain| && chain[k] == top;
        var shorter := chain[..k] + chain[k + 1..];
        assert forall i :: 0 <= i < |shorter| ==> shorter[i] == (if i < k then chain[i] else chain[i + 1]);
        forall i | 0 <= i < |shorter|
          ensures shorter[i] < top
        {
          if i < k { assert chain[i] != chain[k]; } else { assert chain[i + 1] != chain[k]; }
        }
        DistinctBelow(shorter, top);
      } else {
        DistinctBelow(chain, top);
      }
    }
  }

  /** The free chain visits each entry at most once, so it is no longer than
      the table. */
  lemma FreeChainBounded(spt: seq<SpEntry>, head: Addr, chain: seq<nat>)
    requires IsFreeChain(spt, head, chain)
    ensures |chain| <= |spt|
  {
    DistinctBelow(chain, |spt|);
  }
}
