/** What the tree means: the plain recursive Merkle hash of a leaf layer, and how it reacts to one write. */
module Merkle {
  import opened Bytes
  import opened Hashing
  import opened Outcomes

  // ---- the recursive definition ----

  /** Slots at and past the end of the list are empty. */
  function LeafAt(leaves: seq<Hash>, i: nat): Hash {
    if i < |leaves| then leaves[i] else ZERO
  }

  /** Hash of node `i` at `height` above the leaves. */
  function Subtree(p: Params, leaves: seq<Hash>, height: nat, i: nat): Hash {
    if height == 0 then LeafAt(leaves, i)
    else p.h2(Subtree(p, leaves, height - 1, 2 * i), Subtree(p, leaves, height - 1, 2 * i + 1))
  }

  function Root(p: Params, leaves: seq<Hash>): Hash {
    Subtree(p, leaves, p.depth, 0)
  }

  /** The node at `height` above leaf `i`. */
  function Ancestor(i: nat, height: nat): nat {
    if height == 0 then i else Ancestor(i, height - 1) / 2
  }

  /** How many nodes at `height` have a slot below `n` under them. */
  function Width(n: nat, height: nat): nat {
    if height == 0 then n else (Width(n, height - 1) + 1) / 2
  }

  function Sibling(i: nat): nat {
    if i % 2 == 0 then i + 1 else i - 1
  }

  ghost predicate AllField(p: Params, hashes: seq<Hash>) {
    forall h :: h in hashes ==> p.isField(h)
  }

  /** Write slot `i`, which is at most one past the end. */
  function Put(leaves: seq<Hash>, i: nat, leaf: Hash): (r: seq<Hash>)
    requires i <= |leaves|
    ensures |r| == if i == |leaves| then |leaves| + 1 else |leaves|
  {
    if i == |leaves| then leaves + [leaf] else leaves[i := leaf]
  }

  lemma PutSlots(leaves: seq<Hash>, i: nat, leaf: Hash)
    requires i <= |leaves|
    ensures forall j: nat :: LeafAt(Put(leaves, i, leaf), j) == if j == i then leaf else LeafAt(leaves, j)
  {
  }

  lemma PutField(p: Params, leaves: seq<Hash>, at: nat, leaf: Hash)
    requires AllField(p, leaves) && at <= |leaves| && p.isField(leaf)
    ensures AllField(p, Put(leaves, at, leaf))
  {
  }

  lemma {:induction false} SubtreeIsField(p: Params, leaves: seq<Hash>, height: nat, i: nat)
    requires Sound(p) && AllField(p, leaves)
    ensures p.isField(Subtree(p, leaves, height, i))
  {
    if height > 0 {
      SubtreeIsField(p, leaves, height - 1, 2 * i);
      SubtreeIsField(p, leaves, height - 1, 2 * i + 1);
    }
  }

  /** A node is the hash of either child and its sibling, in order; both are field elements. */
  lemma ParentHash(p: Params, leaves: seq<Hash>, height: nat, i: nat)
    requires Sound(p) && AllField(p, leaves)
    ensures p.isField(Subtree(p, leaves, height, i)) && p.isField(Subtree(p, leaves, height, Sibling(i)))
    ensures i % 2 == 0 ==> Subtree(p, leaves, height + 1, i / 2)
                           == p.h2(Subtree(p, leaves, height, i), Subtree(p, leaves, height, Sibling(i)))
    ensures i % 2 == 1 ==> Subtree(p, leaves, height + 1, i / 2)
                           == p.h2(Subtree(p, leaves, height, Sibling(i)), Subtree(p, leaves, height, i))
  {
    SubtreeIsField(p, leaves, height, i);
    SubtreeIsField(p, leaves, height, Sibling(i));
    assert i % 2 == 0 ==> i == 2 * (i / 2);
    assert i % 2 == 1 ==> i == 2 * (i / 2) + 1;
  }

  /** A write at slot `at` leaves every node that is not above it unchanged. */
  lemma {:induction false} UnchangedOffPath(p: Params, a: seq<Hash>, b: seq<Hash>, at: nat, height: nat, i: nat)
    requires forall j: nat :: j != at ==> LeafAt(a, j) == LeafAt(b, j)
    requires i != Ancestor(at, height)
    ensures Subtree(p, a, height, i) == Subtree(p, b, height, i)
  {
    if height > 0 {
      UnchangedOffPath(p, a, b, at, height - 1, 2 * i);
      UnchangedOffPath(p, a, b, at, height - 1, 2 * i + 1);
    }
  }

  /** The root, like every node, is a function of the slots alone. */
  lemma {:induction false} SameSlotsSameHash(p: Params, a: seq<Hash>, b: seq<Hash>, height: nat, i: nat)
    requires forall j: nat :: LeafAt(a, j) == LeafAt(b, j)
    ensures Subtree(p, a, height, i) == Subtree(p, b, height, i)
  {
    if height > 0 {
      SameSlotsSameHash(p, a, b, height - 1, 2 * i);
      SameSlotsSameHash(p, a, b, height - 1, 2 * i + 1);
    }
  }

  /** A node past the last used one holds its level's default. */
  lemma {:induction false} DefaultPastWidth(p: Params, leaves: seq<Hash>, height: nat, i: nat)
    requires Width(|leaves|, height) <= i
    ensures Subtree(p, leaves, height, i) == Empty(p, height)
  {
    if height > 0 {
      DefaultPastWidth(p, leaves, height - 1, 2 * i);
      DefaultPastWidth(p, leaves, height - 1, 2 * i + 1);
    }
  }

  /** The next slot's path either extends a level by one node or already lies in it. */
  lemma {:induction false} PathAtEdge(n: nat, height: nat)
    ensures Width(n + 1, height) == Ancestor(n, height) + 1
    ensures Ancestor(n, height) <= Width(n, height) <= Ancestor(n, height) + 1
  {
    if height > 0 {
      PathAtEdge(n, height - 1);
    }
  }

  lemma {:induction false} PathInside(i: nat, n: nat, height: nat)
    requires i < n
    ensures Ancestor(i, height) < Width(n, height)
  {
    if height > 0 {
      PathInside(i, n, height - 1);
    }
  }

  lemma {:induction false} AncestorBound(i: nat, depth: nat, height: nat)
    requires height <= depth && i < Pow2(depth)
    ensures Ancestor(i, height) < Pow2(depth - height)
  {
    if height > 0 {
      AncestorBound(i, depth, height - 1);
    }
  }

  lemma {:induction false} WidthBound(n: nat, depth: nat, height: nat)
    requires height <= depth && n <= Pow2(depth)
    ensures Width(n, height) <= Pow2(depth - height)
  {
    if height > 0 {
      WidthBound(n, depth, height - 1);
    }
  }

  /** The width is the number of slots divided by the slots per node, rounded up. */
  lemma {:induction false} WidthIsCeiling(n: nat, height: nat)
    ensures n <= Width(n, height) * Pow2(height) < n + Pow2(height)
  {
    if height > 0 {
      WidthIsCeiling(n, height - 1);
      HalveRoundingUp(Width(n, height - 1), Pow2(height - 1));
    }
  }

  lemma HalveRoundingUp(w: nat, q: nat)
    ensures w * q <= (w + 1) / 2 * (2 * q) <= w * q + q
  {
    var v := (w + 1) / 2;
    if w % 2 == 0 {
      assert w == 2 * v;
      assert v * (2 * q) == w * q;
    } else {
      assert w + 1 == 2 * v;
      assert v * (2 * q) == (w + 1) * q;
    }
  }

  // ---- the layer-by-layer reference ----

  /** The first `n` slots, empty ones included. */
  function LeafLayer(leaves: seq<Hash>, n: nat): (layer: seq<Hash>)
    ensures |layer| == n
    ensures forall i: nat :: i < n ==> layer[i] == LeafAt(leaves, i)
  {
    seq(n, i requires 0 <= i => LeafAt(leaves, i))
  }

  /** Neighbours hashed pairwise. */
  function HashNeighbours(p: Params, layer: seq<Hash>): (next: seq<Hash>)
    ensures |next| == |layer| / 2
    ensures forall i: nat :: i < |next| ==> next[i] == p.h2(layer[2 * i], layer[2 * i + 1])
  {
    seq(|layer| / 2, i requires 0 <= i < |layer| / 2 => p.h2(layer[2 * i], layer[2 * i + 1]))
  }

  /** Hash neighbours, layer after layer, until one node is left. */
  function FoldLayers(p: Params, layer: seq<Hash>): Hash
    requires |layer| > 0
    decreases |layer|
  {
    if |layer| == 1 then layer[0] else FoldLayers(p, HashNeighbours(p, layer))
  }

  /** `layer` holds the first nodes at `height`. */
  ghost predicate IsLayer(p: Params, leaves: seq<Hash>, layer: seq<Hash>, height: nat) {
    forall i: nat {:trigger layer[i]} :: i < |layer| ==> layer[i] == Subtree(p, leaves, height, i)
  }

  lemma NextLayer(p: Params, leaves: seq<Hash>, layer: seq<Hash>, height: nat)
    requires IsLayer(p, leaves, layer, height)
    ensures IsLayer(p, leaves, HashNeighbours(p, layer), height + 1)
  {
    var next := HashNeighbours(p, layer);
    forall i: nat {:trigger next[i]} | i < |next|
      ensures next[i] == Subtree(p, leaves, height + 1, i)
    {
      assert next[i] == p.h2(layer[2 * i], layer[2 * i + 1]);
    }
  }

  lemma {:induction false} FoldLayersFrom(p: Params, leaves: seq<Hash>, layer: seq<Hash>, height: nat, top: nat)
    requires height <= top && |layer| == Pow2(top - height) && IsLayer(p, leaves, layer, height)
    ensures FoldLayers(p, layer) == Subtree(p, leaves, top, 0)
    decreases top - height
  {
    if height == top {
      assert layer[0] == Subtree(p, leaves, height, 0);
    } else {
      NextLayer(p, leaves, layer, height);
      FoldLayersFrom(p, leaves, HashNeighbours(p, layer), height + 1, top);
    }
  }

  /** Rebuilding the root from scratch over the whole leaf layer gives the recursive root. */
  lemma RootMatchesReferenceTree(p: Params, leaves: seq<Hash>)
    ensures Root(p, leaves) == FoldLayers(p, LeafLayer(leaves, Pow2(p.depth)))
  {
    FoldLayersFrom(p, leaves, LeafLayer(leaves, Pow2(p.depth)), 0, p.depth);
  }

  // ---- looking for a leaf ----

  /** The newest slot holding `leaf`. */
  function FindLeaf(leaves: seq<Hash>, leaf: Hash): (r: Option<nat>)
    ensures r.Some? ==> r.value < |leaves| && leaves[r.value] == leaf
    ensures r.Some? ==> forall j :: r.value < j < |leaves| ==> leaves[j] != leaf
    ensures r.None? ==> leaf !in leaves
  {
    if leaves == [] then None
    else if leaves[|leaves| - 1] == leaf then Some(|leaves| - 1)
    else FindLeaf(leaves[..|leaves| - 1], leaf)
  }

  lemma FindLeafFrom(leaves: seq<Hash>, leaf: Hash, i: nat)
    requires i < |leaves| && leaves[i] == leaf
    requires forall j :: i < j < |leaves| ==> leaves[j] != leaf
    ensures FindLeaf(leaves, leaf) == Some(i)
  {
  }

  // ---- positions as numbers ----

  /** The node at `height` above leaf `i` is `i` with its `height` low bits dropped. */
  lemma {:induction false} AncestorIsShift(i: nat, height: nat)
    ensures Ancestor(i, height) * Pow2(height) <= i < (Ancestor(i, height) + 1) * Pow2(height)
  {
    if height > 0 {
      AncestorIsShift(i, height - 1);
      var below, half := Ancestor(i, height - 1), Pow2(height - 1);
      assert below / 2 * 2 <= below <= below / 2 * 2 + 1;
      HalveWidth(below / 2, below, half);
    }
  }

  lemma HalveWidth(a: nat, below: nat, half: nat)
    requires 2 * a <= below <= 2 * a + 1
    ensures a * (2 * half) <= below * half && (below + 1) * half <= (a + 1) * (2 * half)
  {
    assert (2 * a) * half <= below * half;
    assert (below + 1) * half <= (2 * a + 2) * half;
  }
}
