/** Lifting a tree-depth path and root to the circuit's depth. */
module Circuit {
  import opened Bytes
  import opened Client
  import opened Hashing
  import opened Merkle
  import opened Vectors

  /** Roots of the all-empty subtrees of heights 0 to `circuitDepth`. */
  method ZeroLadder(p: Params, circuitDepth: nat) returns (ladder: seq<Hash>)
    ensures |ladder| == circuitDepth + 1
    ensures forall h: nat :: h <= circuitDepth ==> ladder[h] == Empty(p, h)
  {
    var built := new Vec<Hash>([ZERO]);
    for height := 1 to circuitDepth + 1
      invariant |built.items| == height
      invariant forall h: nat :: h < height ==> built.items[h] == Empty(p, h)
    {
      var below := built.items[height - 1];
      built.Push(p.h2(below, below));
    }
    ladder := built.items;
  }

  /** Append the empty-subtree siblings that take a path up to the circuit's depth, each on the right. */
  method PadPath(p: Params, elements: Vec<Hash>, indices: Vec<nat>, circuitDepth: nat)
    requires |elements.items| == |indices.items|
    modifies elements, indices
    ensures |elements.items| == |indices.items| == if |old(elements.items)| < circuitDepth then circuitDepth
                                                   else |old(elements.items)|
    ensures elements.items[..|old(elements.items)|] == old(elements.items)
    ensures indices.items[..|old(indices.items)|] == old(indices.items)
    ensures forall k: nat :: |old(elements.items)| <= k < circuitDepth ==>
                               elements.items[k] == Empty(p, k) && indices.items[k] == 0
  {
    var ladder := ZeroLadder(p, circuitDepth);
    var start := |elements.items|;
    var height := start;
    while height < circuitDepth
      invariant start <= height && (if start <= circuitDepth then height <= circuitDepth else height == start)
      invariant |elements.items| == |indices.items| == height
      invariant elements.items[..start] == old(elements.items)
      invariant indices.items[..start] == old(indices.items)
      invariant forall k: nat :: start <= k < height ==> elements.items[k] == Empty(p, k) && indices.items[k] == 0
    {
      elements.Push(ladder[height]);
      indices.Push(0);
      height := height + 1;
    }
  }

  /** A root of height `from`, hashed up with empty right siblings. */
  function LiftRoot(p: Params, root: Hash, from: nat, height: nat): Hash
    requires from <= height
  {
    if height == from then root else p.h2(LiftRoot(p, root, from, height - 1), Empty(p, height - 1))
  }

  method FoldRoot(p: Params, root: Hash, circuitDepth: nat) returns (lifted: Hash)
    requires p.depth <= circuitDepth
    ensures lifted == LiftRoot(p, root, p.depth, circuitDepth)
  {
    var ladder := ZeroLadder(p, circuitDepth);
    lifted := root;
    for height := p.depth to circuitDepth
      invariant lifted == LiftRoot(p, root, p.depth, height)
    {
      lifted := p.h2(lifted, ladder[height]);
    }
  }

  /** Padding and folding agree on every path, whatever it proves. */
  lemma {:induction false} PaddingAndFoldingAgree(p: Params, leaf: Hash, elements: seq<Hash>, indices: seq<nat>,
                                                  from: nat, height: nat)
    requires from <= height <= |elements| && height <= |indices|
    requires forall k: nat :: from <= k < height ==> elements[k] == Empty(p, k) && indices[k] == 0
    ensures Fold(p, leaf, elements, indices, height)
            == LiftRoot(p, Fold(p, leaf, elements, indices, from), from, height)
  {
    if from < height {
      PaddingAndFoldingAgree(p, leaf, elements, indices, from, height - 1);
    }
  }

  /** A lifted root is the root of the deeper tree over the same slots, everything past them empty. */
  lemma {:induction false} LiftedRootIsDeeperRoot(p: Params, leaves: seq<Hash>, height: nat)
    requires p.depth <= height && |leaves| <= Pow2(p.depth)
    ensures LiftRoot(p, Root(p, leaves), p.depth, height) == Subtree(p, leaves, height, 0)
  {
    if p.depth < height {
      LiftedRootIsDeeperRoot(p, leaves, height - 1);
      Pow2Monotone(p.depth, height - 1);
      WidthBound(|leaves|, height - 1, height - 1);
      DefaultPastWidth(p, leaves, height - 1, 1);
    }
  }

  lemma {:induction false} FoldPrefix(p: Params, leaf: Hash, a: seq<Hash>, b: seq<Hash>, i: seq<nat>, j: seq<nat>, k: nat)
    requires k <= |a| && k <= |b| && k <= |i| && k <= |j|
    requires a[..k] == b[..k] && i[..k] == j[..k]
    ensures Fold(p, leaf, a, i, k) == Fold(p, leaf, b, j, k)
  {
    if k > 0 {
      assert a[..k][..k - 1] == a[..k - 1] && b[..k][..k - 1] == b[..k - 1];
      assert i[..k][..k - 1] == i[..k - 1] && j[..k][..k - 1] == j[..k - 1];
      assert a[..k][k - 1] == b[..k][k - 1] && i[..k][k - 1] == j[..k][k - 1];
      FoldPrefix(p, leaf, a, b, i, j, k - 1);
    }
  }

  /** The whole way from a shard's proof to the circuit: the padded path folds to the folded root, and that is the
      root of the circuit-depth tree with the same leaves followed by zeros. */
  method ProofToCircuit(p: Params, proof: MerkleProof, circuitDepth: nat, ghost leaves: seq<Hash>)
    returns (elements: seq<Hash>, indices: seq<nat>, root: Hash)
    requires p.depth <= circuitDepth && |leaves| <= Pow2(p.depth)
    requires |proof.elements| == |proof.indices| == p.depth && proof.root == Root(p, leaves)
    requires Fold(p, proof.leaf, proof.elements, proof.indices, p.depth) == proof.root
    ensures |elements| == |indices| == circuitDepth
    ensures root == Subtree(p, leaves, circuitDepth, 0)
    ensures Fold(p, proof.leaf, elements, indices, circuitDepth) == root
  {
    var path := new Vec<Hash>(proof.elements);
    var bits := new Vec<nat>(proof.indices);
    PadPath(p, path, bits, circuitDepth);
    root := FoldRoot(p, proof.root, circuitDepth);
    elements, indices := path.items, bits.items;
    FoldPrefix(p, proof.leaf, elements, proof.elements, indices, proof.indices, p.depth);
    PaddingAndFoldingAgree(p, proof.leaf, elements, indices, p.depth, circuitDepth);
    LiftedRootIsDeeperRoot(p, leaves, circuitDepth);
  }
}
