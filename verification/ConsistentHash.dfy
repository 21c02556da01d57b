/**
 The consistent-hash ring over 32-bit hashes. The CRC is a parameter: any function to 32 bits. The
 ordered map is kept as its in-order sequence of entries.
*/
module ConsistentHash {
  import opened Types

  const UINT32_MAX := 0xFFFF_FFFF
  const SPACE := 0x1_0000_0000

  datatype VNode = VNode(nodeId: int, vnodeId: int)

  datatype Entry = Entry(hash: nat, vnode: VNode)

  type Ring = seq<Entry>

  predicate Sorted(ring: Ring) {
    && (forall i | 0 <= i < |ring| :: ring[i].hash < SPACE)
    && (forall i, j | 0 <= i < j < |ring| :: ring[i].hash < ring[j].hash)
  }

  /** std::map::lower_bound: the first entry whose hash is not below `h`, or the end. */
  function LowerBound(ring: Ring, h: nat): (i: nat)
    requires Sorted(ring)
    ensures i <= |ring|
    ensures forall j | 0 <= j < i :: ring[j].hash < h
    ensures forall j | i <= j < |ring| :: h <= ring[j].hash
  {
    if ring == [] then 0
    else if h <= ring[0].hash then 0
    else
      assert forall j | 0 <= j < |ring[1..]| :: ring[1..][j] == ring[j + 1];
      1 + LowerBound(ring[1..], h)
  }

  /** The vnode a hash maps to: the next one clockwise. */
  function Owner(ring: Ring, h: nat): VNode
    requires Sorted(ring) && ring != []
  {
    var i := LowerBound(ring, h);
    if i == |ring| then ring[0].vnode else ring[i].vnode
  }

  predicate IsNextClockwise(ring: Ring, i: nat, h: nat)
    requires i < |ring|
  {
    if h <= ring[i].hash then forall j | 0 <= j < i :: ring[j].hash < h
    else i == 0 && forall j | 0 <= j < |ring| :: ring[j].hash < h
  }

  predicate HasHash(ring: Ring, h: nat) {
    exists i :: 0 <= i < |ring| && ring[i].hash == h
  }

  /** std::map::emplace: an entry with the same hash is kept. */
  function Inserted(ring: Ring, e: Entry): Ring
    requires Sorted(ring)
  {
    var i := LowerBound(ring, e.hash);
    if i < |ring| && ring[i].hash == e.hash then ring else ring[..i] + [e] + ring[i..]
  }

  function Erased(ring: Ring, h: nat): Ring
    requires Sorted(ring)
  {
    var i := LowerBound(ring, h);
    if i < |ring| && ring[i].hash == h then ring[..i] + ring[i + 1..] else ring
  }

  lemma InsertedIsSorted(ring: Ring, e: Entry)
    requires Sorted(ring) && e.hash < SPACE
    ensures Sorted(Inserted(ring, e))
  {
  }

  lemma ErasedIsSorted(ring: Ring, h: nat)
    requires Sorted(ring)
    ensures Sorted(Erased(ring, h))
  {
  }

  /** An insert adds its entry where the hash is free, and otherwise changes nothing: the old vnode is kept. */
  lemma InsertedExactly(ring: Ring, e: Entry)
    requires Sorted(ring)
    ensures HasHash(ring, e.hash) ==> Inserted(ring, e) == ring
    ensures !HasHash(ring, e.hash) ==> multiset(Inserted(ring, e)) == multiset(ring) + multiset{e}
  {
    var i := LowerBound(ring, e.hash);
    assert ring == ring[..i] + ring[i..];
    if HasHash(ring, e.hash) {
      assert i < |ring| && ring[i].hash == e.hash;
    }
  }

  /** An erase takes out the entry of that hash, if there is one, and nothing else. */
  lemma ErasedExactly(ring: Ring, h: nat, e: Entry)
    requires Sorted(ring)
    ensures e in Erased(ring, h) <==> e in ring && e.hash != h
    ensures !HasHash(ring, h) ==> Erased(ring, h) == ring
  {
    var i := LowerBound(ring, h);
    if i < |ring| && ring[i].hash == h {
      assert ring == ring[..i] + [ring[i]] + ring[i + 1..];
      assert forall j | i < j < |ring| :: ring[j].hash != h;
      assert forall j | 0 <= j < i :: ring[j].hash != h;
      assert e in Erased(ring, h) ==> e.hash != h;
    }
  }

  lemma LowerBoundIs(ring: Ring, h: nat, i: nat)
    requires Sorted(ring) && i <= |ring|
    requires i > 0 ==> ring[i - 1].hash < h
    requires i < |ring| ==> h <= ring[i].hash
    ensures LowerBound(ring, h) == i
  {
    var b := LowerBound(ring, h);
    assert forall j | 0 <= j < i :: ring[j].hash < h;
  }

  // ----- Minimal remapping.

  /** The cyclic arc from `pred` (exclusive) to `x` (inclusive). */
  predicate InArc(pred: nat, x: nat, h: nat) {
    if pred < x then pred < h <= x else h <= x || pred < h
  }

  /** The hash before `x` on the ring, going around if there is none below. */
  function Predecessor(ring: Ring, x: nat): nat
    requires Sorted(ring) && ring != []
  {
    var i := LowerBound(ring, x);
    if i == 0 then ring[|ring| - 1].hash else ring[i - 1].hash
  }

  /**
   Inserting a vnode at a free hash moves exactly the hashes in the arc from its predecessor to
   itself, all of them to the new vnode.
  */
  lemma InsertRemapsItsArcOnly(ring: Ring, e: Entry, h: nat)
    requires Sorted(ring) && ring != [] && e.hash < SPACE && !HasHash(ring, e.hash) && h < SPACE
    ensures Sorted(Inserted(ring, e))
    ensures Owner(Inserted(ring, e), h)
         == if InArc(Predecessor(ring, e.hash), e.hash, h) then e.vnode else Owner(ring, h)
  {
    InsertedIsSorted(ring, e);
    LowerBoundAfterInsert(ring, e, h);
  }

  lemma LowerBoundAfterInsert(ring: Ring, e: Entry, h: nat)
    requires Sorted(ring) && e.hash < SPACE && !HasHash(ring, e.hash) && Sorted(Inserted(ring, e))
    ensures LowerBound(Inserted(ring, e), h)
         == if h <= e.hash then LowerBound(ring, h) else LowerBound(ring, h) + 1
  {
    var ring' := Inserted(ring, e);
    var i, b := LowerBound(ring, e.hash), LowerBound(ring, h);
    assert ring'[i] == e;
    if b < i {
      assert ring'[b] == ring[b];
      LowerBoundIs(ring', h, b);
    } else if h <= e.hash {
      LowerBoundIs(ring', h, i);
    } else {
      assert b > 0 ==> ring'[b] == (if b == i then e else ring[b - 1]);
      assert b < |ring| ==> ring'[b + 1] == ring[b];
      LowerBoundIs(ring', h, b + 1);
    }
  }

  /** Erasing the vnode again gives back the ring, and with it every lookup. */
  lemma EraseUndoesInsert(ring: Ring, e: Entry)
    requires Sorted(ring) && e.hash < SPACE && !HasHash(ring, e.hash)
    ensures Sorted(Inserted(ring, e)) && Erased(Inserted(ring, e), e.hash) == ring
  {
    InsertedIsSorted(ring, e);
    var i := LowerBound(ring, e.hash);
    LowerBoundAfterInsert(ring, e, e.hash);
    AddedAndDropped(ring, i, e);
  }

  lemma AddedAndDropped(ring: Ring, i: nat, e: Entry)
    requires i <= |ring|
    ensures var ring' := ring[..i] + [e] + ring[i..];
            ring'[i] == e && ring'[..i] + ring'[i + 1..] == ring
  {
  }

  // ----- Counting the hashes of a node.

  /** How many hashes in lo .. hi - 1 map to node `k`. */
  function CountOwned(ring: Ring, k: int, lo: nat, hi: nat): nat
    requires Sorted(ring) && ring != [] && lo <= hi
    decreases hi - lo
  {
    if hi == lo then 0
    else CountOwned(ring, k, lo, hi - 1) + if Owner(ring, hi - 1).nodeId == k then 1 else 0
  }

  lemma {:induction false} CountSplit(ring: Ring, k: int, lo: nat, mid: nat, hi: nat)
    requires Sorted(ring) && ring != [] && lo <= mid <= hi
    ensures CountOwned(ring, k, lo, hi) == CountOwned(ring, k, lo, mid) + CountOwned(ring, k, mid, hi)
    decreases hi - mid
  {
    if mid < hi {
      CountSplit(ring, k, lo, mid, hi - 1);
    }
  }

  /** On a stretch without vnodes inside, every hash maps to the vnode at its end. */
  lemma {:induction false} CountArc(ring: Ring, k: int, i: nat, lo: nat, hi: nat)
    requires Sorted(ring) && ring != [] && i <= |ring| && lo <= hi
    requires i > 0 ==> ring[i - 1].hash < lo
    requires i < |ring| ==> hi <= ring[i].hash + 1
    ensures var n := if i == |ring| then ring[0].vnode.nodeId else ring[i].vnode.nodeId;
            CountOwned(ring, k, lo, hi) == if k == n then hi - lo else 0
    decreases hi - lo
  {
    if lo < hi {
      LowerBoundIs(ring, hi - 1, i);
      CountArc(ring, k, i, lo, hi - 1);
    }
  }

  function SumUpTo(sums: seq<int>, n: nat): int
    requires n <= |sums|
  {
    if n == 0 then 0 else SumUpTo(sums, n - 1) + sums[n - 1]
  }

  /** The counts of the nodes below `m`. */
  function Counts(ring: Ring, m: nat, hi: nat): (counts: seq<int>)
    requires Sorted(ring) && ring != []
    ensures |counts| == m && forall k | 0 <= k < m :: counts[k] == CountOwned(ring, k, 0, hi)
  {
    seq(m, k requires 0 <= k => CountOwned(ring, k, 0, hi))
  }

  lemma {:induction false} SumBumped(xs: seq<int>, ys: seq<int>, at: nat, delta: int, n: nat)
    requires |xs| == |ys| && at < |xs| && n <= |xs|
    requires forall k | 0 <= k < |xs| :: ys[k] == xs[k] + if k == at then delta else 0
    ensures SumUpTo(ys, n) == SumUpTo(xs, n) + if at < n then delta else 0
  {
    if n > 0 {
      SumBumped(xs, ys, at, delta, n - 1);
    }
  }

  lemma {:induction false} SumOfZeros(xs: seq<int>, n: nat)
    requires n <= |xs| && forall k | 0 <= k < |xs| :: xs[k] == 0
    ensures SumUpTo(xs, n) == 0
  {
    if n > 0 {
      SumOfZeros(xs, n - 1);
    }
  }

  predicate NodesBelow(ring: Ring, m: nat) {
    forall i | 0 <= i < |ring| :: 0 <= ring[i].vnode.nodeId < m
  }

  /** Every hash belongs to exactly one node. */
  lemma {:induction false} CountsAddUp(ring: Ring, m: nat, hi: nat)
    requires Sorted(ring) && ring != [] && NodesBelow(ring, m)
    ensures SumUpTo(Counts(ring, m, hi), m) == hi
  {
    if hi == 0 {
      SumOfZeros(Counts(ring, m, 0), m);
    } else {
      CountsAddUp(ring, m, hi - 1);
      SumBumped(Counts(ring, m, hi - 1), Counts(ring, m, hi), Owner(ring, hi - 1).nodeId, 1, m);
    }
  }

  /** What Describe prints for node `k`: its hashes, less one for the owner of the smallest vnode. */
  function Printed(ring: Ring, k: int): int
    requires Sorted(ring) && ring != []
  {
    CountOwned(ring, k, 0, SPACE) - if ring[0].vnode.nodeId == k then 1 else 0
  }

  /** What the accounting loop has for node `k` after the first `i` vnodes. */
  function Accounted(ring: Ring, i: nat, k: int): int
    requires Sorted(ring) && 1 <= i <= |ring|
  {
    CountOwned(ring, k, 0, ring[i - 1].hash + 1) + CountOwned(ring, k, ring[|ring| - 1].hash + 1, SPACE)
    - if ring[0].vnode.nodeId == k then 1 else 0
  }

  /** The arc that goes around: one less than its hashes. */
  lemma FirstArc(ring: Ring, k: int)
    requires Sorted(ring) && ring != []
    ensures Accounted(ring, 1, k)
         == if k == ring[0].vnode.nodeId then UINT32_MAX - ring[|ring| - 1].hash + ring[0].hash else 0
  {
    CountArc(ring, k, 0, 0, ring[0].hash + 1);
    CountArc(ring, k, |ring|, ring[|ring| - 1].hash + 1, SPACE);
  }

  lemma NextArc(ring: Ring, i: nat, k: int)
    requires Sorted(ring) && 1 <= i < |ring|
    ensures Accounted(ring, i + 1, k)
         == Accounted(ring, i, k) + if k == ring[i].vnode.nodeId then ring[i].hash - ring[i - 1].hash else 0
  {
    CountUpTo(ring, k, i, ring[i - 1].hash + 1, ring[i].hash + 1);
  }

  lemma CountUpTo(ring: Ring, k: int, i: nat, lo: nat, hi: nat)
    requires Sorted(ring) && i < |ring| && lo <= hi
    requires i > 0 ==> ring[i - 1].hash < lo
    requires hi <= ring[i].hash + 1
    ensures CountOwned(ring, k, 0, hi) == CountOwned(ring, k, 0, lo) + if k == ring[i].vnode.nodeId then hi - lo else 0
  {
    CountSplit(ring, k, 0, lo, hi);
    CountArc(ring, k, i, lo, hi);
  }

  lemma AllArcs(ring: Ring, k: int)
    requires Sorted(ring) && ring != []
    ensures Accounted(ring, |ring|, k) == Printed(ring, k)
  {
    CountSplit(ring, k, 0, ring[|ring| - 1].hash + 1, SPACE);
  }

  predicate AccountsFor(sums: seq<int>, ring: Ring, i: nat)
    requires Sorted(ring) && 1 <= i <= |ring|
  {
    forall k | 0 <= k < |sums| :: sums[k] == Accounted(ring, i, k)
  }

  lemma FirstAccount(ring: Ring, sums: seq<int>, n: int)
    requires Sorted(ring) && ring != [] && NodesBelow(ring, |sums|)
    requires n == UINT32_MAX - ring[|ring| - 1].hash + ring[0].hash
    requires forall k | 0 <= k < |sums| :: sums[k] == if k == ring[0].vnode.nodeId then n else 0
    ensures AccountsFor(sums, ring, 1)
  {
    forall k | 0 <= k < |sums| ensures sums[k] == Accounted(ring, 1, k) {
      FirstArc(ring, k);
    }
  }

  lemma NextAccount(ring: Ring, i: nat, before: seq<int>, after: seq<int>)
    requires Sorted(ring) && 1 <= i < |ring| && |after| == |before|
    requires AccountsFor(before, ring, i)
    requires forall k | 0 <= k < |after| ::
               after[k] == before[k] + if k == ring[i].vnode.nodeId then ring[i].hash - ring[i - 1].hash else 0
    ensures AccountsFor(after, ring, i + 1)
  {
    forall k | 0 <= k < |after| ensures after[k] == Accounted(ring, i + 1, k) {
      NextArc(ring, i, k);
    }
  }

  lemma LastAccount(ring: Ring, sums: seq<int>)
    requires Sorted(ring) && ring != [] && AccountsFor(sums, ring, |ring|)
    ensures forall k | 0 <= k < |sums| :: sums[k] == Printed(ring, k)
  {
    forall k | 0 <= k < |sums| ensures sums[k] == Printed(ring, k) {
      AllArcs(ring, k);
    }
  }

  // ----- Unsigned 32-bit arithmetic.

  method Minus(x: nat, y: nat) returns (d: nat)
    requires x < SPACE && y < SPACE
    ensures d == if y <= x then x - y else x - y + SPACE
  {
    d := (x - y) % SPACE;
  }

  method Plus(x: nat, y: nat) returns (d: nat)
    requires x < SPACE && y < SPACE
    ensures d == if x + y < SPACE then x + y else x + y - SPACE
  {
    d := (x + y) % SPACE;
  }

  /** The printed sums total 2^32 - 1. */
  lemma PrintedAddUp(ring: Ring, sums: seq<int>)
    requires Sorted(ring) && ring != [] && NodesBelow(ring, |sums|)
    requires forall k | 0 <= k < |sums| :: sums[k] == Printed(ring, k)
    ensures SumUpTo(sums, |sums|) == UINT32_MAX
  {
    CountsAddUp(ring, |sums|, SPACE);
    SumBumped(Counts(ring, |sums|, SPACE), sums, ring[0].vnode.nodeId, -1, |sums|);
  }

  class ConsistentHash {
    const crc: VNode -> nat
    var nodes: Ring

    ghost predicate Valid()
      reads this
    {
      Sorted(nodes) && forall v: VNode :: crc(v) < SPACE
    }

    constructor (crc: VNode -> nat)
      requires forall v: VNode :: crc(v) < SPACE
      ensures Valid() && this.crc == crc && nodes == []
    {
      this.crc := crc;
      nodes := [];
    }

    method Insert(v: VNode) returns (added: bool)
      requires Valid()
      modifies this
      ensures Valid() && nodes == Inserted(old(nodes), Entry(crc(v), v))
      ensures added == !HasHash(old(nodes), crc(v))
      ensures !added ==> nodes == old(nodes)
      ensures added ==> Entry(crc(v), v) in nodes
    {
      var h := crc(v);
      InsertedIsSorted(nodes, Entry(h, v));
      var i := LowerBound(nodes, h);
      added := !(i < |nodes| && nodes[i].hash == h);
      if added {
        nodes := nodes[..i] + [Entry(h, v)] + nodes[i..];
      }
    }

    method Erase(v: VNode) returns (count: nat)
      requires Valid()
      modifies this
      ensures Valid() && nodes == Erased(old(nodes), crc(v))
      ensures count == if HasHash(old(nodes), crc(v)) then 1 else 0
      ensures count == 0 ==> nodes == old(nodes)
      ensures !HasHash(nodes, crc(v))
    {
      ErasedIsSorted(nodes, crc(v));
      var i := LowerBound(nodes, crc(v));
      count := 0;
      if i < |nodes| && nodes[i].hash == crc(v) {
        nodes := nodes[..i] + nodes[i + 1..];
        count := 1;
      }
    }

    /** The node of the next vnode clockwise: the first at or after `h`, or the smallest if there is none. */
    function Find(h: nat): (nodeId: int)
      requires Valid() && nodes != [] && h < SPACE
      reads this
      ensures nodeId == Owner(nodes, h).nodeId
      ensures exists i :: 0 <= i < |nodes| && nodes[i].vnode.nodeId == nodeId && IsNextClockwise(nodes, i, h)
    {
      var i := LowerBound(nodes, h);
      assert IsNextClockwise(nodes, if i == |nodes| then 0 else i, h);
      if i == |nodes| then nodes[0].vnode.nodeId else nodes[i].vnode.nodeId
    }

    method MaxNodeId() returns (maxNodeId: int)
      requires forall i | 0 <= i < |nodes| :: nodes[i].vnode.nodeId >= 0
      ensures maxNodeId >= -1 && (maxNodeId == -1 <==> nodes == [])
      ensures forall i | 0 <= i < |nodes| :: nodes[i].vnode.nodeId <= maxNodeId
      ensures nodes != [] ==> exists i | 0 <= i < |nodes| :: nodes[i].vnode.nodeId == maxNodeId
    {
      maxNodeId := -1;
      for i := 0 to |nodes|
        invariant maxNodeId >= -1 && (maxNodeId == -1 <==> i == 0)
        invariant forall j | 0 <= j < i :: nodes[j].vnode.nodeId <= maxNodeId
        invariant i > 0 ==> exists j | 0 <= j < i :: nodes[j].vnode.nodeId == maxNodeId
      {
        if nodes[i].vnode.nodeId > maxNodeId {
          maxNodeId := nodes[i].vnode.nodeId;
        }
      }
    }

    /** The accounting loop; `None` stands for the "null" it prints for an empty ring. */
    method Describe() returns (sums: Option<seq<int>>)
      requires Valid() && forall i | 0 <= i < |nodes| :: nodes[i].vnode.nodeId >= 0
      ensures sums.None? <==> nodes == []
      ensures sums.Some? ==>
                && NodesBelow(nodes, |sums.value|)
                && (exists i | 0 <= i < |nodes| :: nodes[i].vnode.nodeId == |sums.value| - 1)
                && (forall k | 0 <= k < |sums.value| :: sums.value[k] == Printed(nodes, k))
    {
      var maxNodeId := MaxNodeId();
      if maxNodeId == -1 {
        return None;
      }
      var acc := new int[maxNodeId + 1](_ => 0);
      assert nodes[0].hash <= nodes[|nodes| - 1].hash;
      var n := Minus(UINT32_MAX, nodes[|nodes| - 1].hash);
      n := Plus(n, nodes[0].hash);
      acc[nodes[0].vnode.nodeId] := acc[nodes[0].vnode.nodeId] + n;
      FirstAccount(nodes, acc[..], n);
      var priv := nodes[0].hash;
      var i := 1;
      while i < |nodes|
        invariant 1 <= i <= |nodes| && priv == nodes[i - 1].hash
        invariant AccountsFor(acc[..], nodes, i)
      {
        ghost var before := acc[..];
        var cur := nodes[i].hash;
        n := Minus(cur, priv);
        acc[nodes[i].vnode.nodeId] := acc[nodes[i].vnode.nodeId] + n;
        NextAccount(nodes, i, before, acc[..]);
        priv := cur;
        i := i + 1;
      }
      LastAccount(nodes, acc[..]);
      sums := Some(acc[..]);
    }
  }
}
