/** A member's way from the chain to the prover: scan for the leaf, extract its path, lift it to the circuit. */
module MemberProof {
  import opened Bytes
  import Chain
  import opened Client
  import opened Circuit
  import opened Executor
  import opened Hashing
  import opened Ledger
  import opened Merkle
  import opened Registration
  import opened Removal
  import opened Runs
  import opened Shard
  import opened Slots
  import opened Tree
  import opened Views

  /** In every reachable state every live member, whatever happened since it joined, gets from the stored bytes alone a
      circuit-depth path that takes its leaf to the root the circuit is checked against. */
  method CircuitProofOf(p: Params, shard: seq<Byte>, c: Hash, rate: u64, circuitDepth: nat, ghost w: World, ghost t: Hash)
    returns (index: nat, elements: seq<Hash>, indices: seq<nat>, root: Hash)
    requires Sound(p) && Reachable(p, w) && p.depth <= circuitDepth
    requires c in ViewOf(w, t).members && ViewOf(w, t).members[c].rateLimit == rate
    requires ShardHolds(p, shard, ViewOf(w, t).tree)
    ensures index < |LeavesOf(ViewOf(w, t))| && LeavesOf(ViewOf(w, t))[index] == LeafOf(p, c, rate)
    ensures |elements| == |indices| == circuitDepth
    ensures root == Subtree(p, LeavesOf(ViewOf(w, t)), circuitDepth, 0)
    ensures Fold(p, LeafOf(p, c, rate), elements, indices, circuitDepth) == root
  {
    ghost var leaves := LeavesOf(ViewOf(w, t));
    MemberLeafStored(p, shard, w, t, c);
    ghost var tree := ViewOf(w, t).tree.value;
    var found := FindLeafIndex(p, shard, LeafOf(p, c, rate), tree);
    index := found.value.value;
    var proof := Prove(p, shard, index, tree);
    elements, indices, root := ProofToCircuit(p, proof.value, circuitDepth, leaves);
  }

  lemma MemberLeafStored(p: Params, shard: seq<Byte>, w: World, t: Hash, c: Hash)
    requires Sound(p) && Reachable(p, w) && c in ViewOf(w, t).members
    requires ShardHolds(p, shard, ViewOf(w, t).tree)
    ensures ViewOf(w, t).tree.Some?
    ensures var tree := ViewOf(w, t).tree.value;
            && HeaderMatches(p, shard) && Represents(p, shard, tree) && TreeOk(p, tree)
            && LeafIn(p, ViewOf(w, t), c) in tree.leaves && |tree.leaves| <= Pow2(p.depth)
  {
    ReachableOk(p, w);
    var v := ViewOf(w, t);
    assert RegistryOk(p, t, v);
    BalancedView(p, t, v);
    LeafIsThere(p, v, c);
    assert shard[..OffsetTreeData(p)][OFFSET_DEPTH] == shard[OFFSET_DEPTH];
  }

  /** From an empty chain: run anything at all, then prove any live member of any registry from what is stored. */
  method ProofAfterRun(p: Params, balances: map<AccountId, nat>, clock: u64, actions: seq<Action>, t: Hash, c: Hash,
                       rate: u64, circuitDepth: nat)
    returns (index: nat, elements: seq<Hash>, indices: seq<nat>, root: Hash)
    requires Sound(p) && p.depth <= circuitDepth
    requires var members := ViewOf(Run(p, World(map[], balances, clock), actions), t).members;
             c in members && members[c].rateLimit == rate
    ensures var leaves := LeavesOf(ViewOf(Run(p, World(map[], balances, clock), actions), t));
            && index < |leaves| && leaves[index] == LeafOf(p, c, rate)
            && |elements| == |indices| == circuitDepth && root == Subtree(p, leaves, circuitDepth, 0)
            && Fold(p, LeafOf(p, c, rate), elements, indices, circuitDepth) == root
  {
    ghost var start := World(map[], balances, clock);
    ghost var w := Run(p, start, actions);
    var chain := new Chain.Chain(p, balances, clock);
    chain.RunAll(p, actions, start);
    assert Genesis(start) && Reachable(p, w);
    Chain.StoredTree(p, chain.store.shards, w, t);
    index, elements, indices, root :=
      CircuitProofOf(p, Chain.BytesAt(chain.store.shards, MainSel(t)), c, rate, circuitDepth, w, t);
  }
}
