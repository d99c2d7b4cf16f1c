/** Host-side reads of a tree shard: header, nodes, leaf scan and inclusion proofs. */
module Client {
  import opened Bytes
  import opened Hashing
  import opened Merkle
  import opened Outcomes
  import opened Shard
  import opened Slices
  import opened Stored
  import opened Tree
  import opened Vectors

  datatype ParsedTreeMain = ParsedTreeMain(nextIndex: nat, root: Hash, rootHistory: History)

  /** Parse the header; a shard that is short or of another depth is refused. */
  function FromBytes(p: Params, data: seq<Byte>): Outcome<ParsedTreeMain> {
    if !HeaderMatches(p, data) then Panic
    else Done(ParsedTreeMain(ReadNextIndex(data), Read32(data, OFFSET_ROOT),
                             [HistoryAt(data, 0), HistoryAt(data, 1), HistoryAt(data, 2), HistoryAt(data, 3)]))
  }

  /** The header of every initialized shard parses to the tree's own values. */
  lemma FromBytesReadsTheTree(p: Params, data: seq<Byte>, t: Tree)
    requires Sound(p) && Represents(p, data, t) && TreeOk(p, t)
    ensures FromBytes(p, data) == Done(ParsedTreeMain(|t.leaves|, Root(p, t.leaves), t.history))
  {
    var header := data[..OffsetTreeData(p)];
    assert header[OFFSET_DEPTH] == data[OFFSET_DEPTH];
    NextIndexIs(p, data, t);
    SliceOfPrefix(data, OffsetTreeData(p), OFFSET_ROOT, OFFSET_ROOT + 32);
    HistoryThroughHeader(p, data, t, 0);
    HistoryThroughHeader(p, data, t, 1);
    HistoryThroughHeader(p, data, t, 2);
    HistoryThroughHeader(p, data, t, 3);
    assert t.history == [t.history[0], t.history[1], t.history[2], t.history[3]];
  }

  lemma HistoryThroughHeader(p: Params, data: seq<Byte>, t: Tree, k: nat)
    requires Represents(p, data, t) && k < 4
    ensures HistoryAt(data, k) == t.history[k]
  {
    var at := OFFSET_ROOT_HISTORY + 32 * k;
    SliceOfPrefix(data, OffsetTreeData(p), at, at + 32);
    assert HistoryAt(data[..OffsetTreeData(p)], k) == t.history[k];
  }

  /** The hash of node `(level, index)`; level 0 is the root. */
  method NodeHash(p: Params, shard: seq<Byte>, level: nat, index: nat, ghost h: nat, ghost t: Tree)
    returns (r: Outcome<Hash>)
    requires Sound(p) && (level <= p.depth ==> level + h == p.depth)
    requires HeaderMatches(p, shard) ==> Represents(p, shard, t) && TreeOk(p, t)
    ensures r == if level <= p.depth && index < Pow2(level) && HeaderMatches(p, shard)
                 then Done(Subtree(p, t.leaves, h, index)) else Panic
  {
    if level > p.depth || index >= Pow2(level) || !HeaderMatches(p, shard) {
      return Panic;
    }
    var defaults := ExtractCachedNodes(p, shard);
    CachedThroughHeader(p, shard, t);
    var hash := ReadNode(p, shard, level, index, defaults[level], h, t);
    r := Done(hash);
  }

  // ---- finding a leaf ----

  /** The scan a client runs to learn where its registration landed, newest slot first. */
  method FindLeafIndex(p: Params, shard: seq<Byte>, leaf: Hash, ghost t: Tree) returns (r: Outcome<Option<nat>>)
    requires Sound(p)
    requires HeaderMatches(p, shard) ==> Represents(p, shard, t) && TreeOk(p, t)
    ensures r == if HeaderMatches(p, shard) then Done(FindLeaf(t.leaves, leaf)) else Panic
  {
    if !HeaderMatches(p, shard) {
      return Panic;
    }
    FromBytesReadsTheTree(p, shard, t);
    var next := FromBytes(p, shard).value.nextIndex;
    if next > Pow2(p.depth) {
      next := Pow2(p.depth);
    }
    var defaults := ExtractCachedNodes(p, shard);
    CachedThroughHeader(p, shard, t);
    var index := ScanDown(p, shard, next, leaf, defaults[p.depth], t);
    r := Done(index);
  }

  method ScanDown(p: Params, shard: seq<Byte>, next: nat, leaf: Hash, default: Hash, ghost t: Tree)
    returns (r: Option<nat>)
    requires Sound(p) && Represents(p, shard, t) && TreeOk(p, t)
    requires next == |t.leaves| && default == Default(p, p.depth)
    ensures r == FindLeaf(t.leaves, leaf)
  {
    ghost var leaves := t.leaves;
    var i := next;
    while i > 0
      invariant 0 <= i <= |leaves|
      invariant forall j: nat :: i <= j < |leaves| ==> leaves[j] != leaf
    {
      i := i - 1;
      var hash := LeafHash(p, shard, i, default, t);
      if hash == leaf {
        FindLeafFrom(leaves, leaf, i);
        return Some(i);
      }
    }
    assert leaf !in leaves;
    r := None;
  }

  method LeafHash(p: Params, shard: seq<Byte>, i: nat, default: Hash, ghost t: Tree) returns (hash: Hash)
    requires Sound(p) && Represents(p, shard, t) && TreeOk(p, t)
    requires i < |t.leaves| && default == Default(p, p.depth)
    ensures hash == t.leaves[i]
  {
    hash := ReadNode(p, shard, p.depth, i, default, 0, t);
  }

  // ---- inclusion proofs ----

  datatype MerkleProof = MerkleProof(leaf: Hash, elements: seq<Hash>, indices: seq<nat>, root: Hash, leafIndex: nat)

  /** Fold a leaf value with the first `k` steps of a path; bit 0 means the running hash is the left child. */
  function Fold(p: Params, leaf: Hash, elements: seq<Hash>, indices: seq<nat>, k: nat): Hash
    requires k <= |elements| && k <= |indices|
  {
    if k == 0 then leaf
    else
      var below := Fold(p, leaf, elements, indices, k - 1);
      if indices[k - 1] == 0 then p.h2(below, elements[k - 1]) else p.h2(elements[k - 1], below)
  }

  /** A path whose bits spell leaf index `i`. */
  ghost predicate Spells(indices: seq<nat>, i: nat) {
    forall k: nat :: k < |indices| ==> indices[k] == Ancestor(i, k) % 2
  }

  /** The number a list of bits writes, lowest bit first. */
  function Number(bits: seq<nat>): nat {
    if bits == [] then 0 else Number(bits[..|bits| - 1]) + bits[|bits| - 1] * Pow2(|bits| - 1)
  }

  lemma {:induction false} BitsAdd(indices: seq<nat>, i: nat)
    requires Spells(indices, i)
    ensures i == Number(indices) + Ancestor(i, |indices|) * Pow2(|indices|)
  {
    if indices != [] {
      var n := |indices| - 1;
      BitsAdd(indices[..n], i);
      var low, high := Ancestor(i, n), Ancestor(i, n + 1);
      assert low == 2 * high + indices[n];
      SplitBit(high, indices[n], Pow2(n));
    }
  }

  lemma SplitBit(high: nat, bit: nat, unit: nat)
    ensures (2 * high + bit) * unit == bit * unit + high * (2 * unit)
  {
  }

  /** A path's bits are its leaf index in binary, lowest bit at the leaves. */
  lemma BitsAreTheIndex(indices: seq<nat>, i: nat)
    requires Spells(indices, i) && i < Pow2(|indices|)
    ensures Number(indices) == i
  {
    BitsAdd(indices, i);
    if Ancestor(i, |indices|) > 0 {
      AtLeastOne(Ancestor(i, |indices|), Pow2(|indices|));
    }
  }

  lemma AtLeastOne(a: nat, unit: nat)
    requires a >= 1
    ensures a * unit >= unit
  {
  }

  /** The first `n` siblings on the way up from leaf `i`. */
  ghost predicate AreSiblings(p: Params, leaves: seq<Hash>, i: nat, elements: seq<Hash>) {
    forall k: nat :: k < |elements| ==> elements[k] == Subtree(p, leaves, k, Sibling(Ancestor(i, k)))
  }

  lemma OneMoreSibling(p: Params, leaves: seq<Hash>, i: nat, elements: seq<Hash>, hash: Hash)
    requires AreSiblings(p, leaves, i, elements)
    requires hash == Subtree(p, leaves, |elements|, Sibling(Ancestor(i, |elements|)))
    ensures AreSiblings(p, leaves, i, elements + [hash])
  {
  }

  lemma OneMoreBit(indices: seq<nat>, i: nat, bit: nat)
    requires Spells(indices, i) && bit == Ancestor(i, |indices|) % 2
    ensures Spells(indices + [bit], i)
  {
  }

  /** Folding the tree's own siblings climbs the tree. */
  lemma {:induction false} FoldClimbs(p: Params, leaves: seq<Hash>, i: nat, elements: seq<Hash>, indices: seq<nat>, k: nat)
    requires k <= |elements| && k <= |indices|
    requires Spells(indices, i) && AreSiblings(p, leaves, i, elements)
    ensures Fold(p, LeafAt(leaves, i), elements, indices, k) == Subtree(p, leaves, k, Ancestor(i, k))
  {
    if k > 0 {
      FoldClimbs(p, leaves, i, elements, indices, k - 1);
      ChildPair(p, leaves, k - 1, Ancestor(i, k - 1));
      assert elements[k - 1] == Subtree(p, leaves, k - 1, Sibling(Ancestor(i, k - 1)));
      assert indices[k - 1] == Ancestor(i, k - 1) % 2;
    }
  }

  /** A node's hash, seen from one of its children. */
  lemma ChildPair(p: Params, leaves: seq<Hash>, h: nat, j: nat)
    ensures j % 2 == 0 ==> Subtree(p, leaves, h + 1, j / 2)
                           == p.h2(Subtree(p, leaves, h, j), Subtree(p, leaves, h, Sibling(j)))
    ensures j % 2 == 1 ==> Subtree(p, leaves, h + 1, j / 2)
                           == p.h2(Subtree(p, leaves, h, Sibling(j)), Subtree(p, leaves, h, j))
  {
    assert j % 2 == 0 ==> j == 2 * (j / 2);
    assert j % 2 == 1 ==> j == 2 * (j / 2) + 1;
  }

  /** The inclusion proof of a leaf: past the last leaf it is refused, otherwise it is complete and folds to the
      root the header reports. */
  method Prove(p: Params, shard: seq<Byte>, leafIndex: nat, ghost t: Tree) returns (r: Outcome<MerkleProof>)
    requires Sound(p)
    requires HeaderMatches(p, shard) ==> Represents(p, shard, t) && TreeOk(p, t)
    ensures r.Done? <==> leafIndex < Pow2(p.depth) && HeaderMatches(p, shard)
    ensures !r.Done? ==> r.Panic?
    ensures r.Done? ==> var proof := r.value;
                        && proof.leafIndex == leafIndex
                        && proof.leaf == LeafAt(t.leaves, leafIndex)
                        && proof.root == Root(p, t.leaves)
                        && |proof.elements| == |proof.indices| == p.depth
                        && Spells(proof.indices, leafIndex) && Number(proof.indices) == leafIndex
                        && AreSiblings(p, t.leaves, leafIndex, proof.elements)
                        && Fold(p, proof.leaf, proof.elements, proof.indices, p.depth) == proof.root
  {
    if leafIndex >= Pow2(p.depth) || !HeaderMatches(p, shard) {
      return Panic;
    }
    FromBytesReadsTheTree(p, shard, t);
    var header := FromBytes(p, shard).value;
    var leaf := NodeHash(p, shard, p.depth, leafIndex, 0, t);
    var elements, indices := Siblings(p, shard, leafIndex, t);
    SiblingsReachTheRoot(p, t.leaves, leafIndex, elements, indices);
    BitsAreTheIndex(indices, leafIndex);
    r := Done(MerkleProof(leaf.value, elements, indices, header.root, leafIndex));
  }

  lemma SiblingsReachTheRoot(p: Params, leaves: seq<Hash>, i: nat, elements: seq<Hash>, indices: seq<nat>)
    requires |elements| == |indices| == p.depth && i < Pow2(p.depth)
    requires Spells(indices, i) && AreSiblings(p, leaves, i, elements)
    ensures Fold(p, LeafAt(leaves, i), elements, indices, p.depth) == Root(p, leaves)
  {
    FoldClimbs(p, leaves, i, elements, indices, p.depth);
    AncestorBound(i, p.depth, p.depth);
  }

  /** The walk up that collects a proof's siblings and bits. */
  method Siblings(p: Params, shard: seq<Byte>, leafIndex: nat, ghost t: Tree)
    returns (elements: seq<Hash>, indices: seq<nat>)
    requires Sound(p) && HeaderMatches(p, shard) && Represents(p, shard, t) && TreeOk(p, t)
    requires leafIndex < Pow2(p.depth)
    ensures |elements| == |indices| == p.depth
    ensures Spells(indices, leafIndex) && AreSiblings(p, t.leaves, leafIndex, elements)
  {
    var path := new Vec<Hash>([]);
    var bits := new Vec<nat>([]);
    var index := leafIndex;
    var level := p.depth;
    ghost var h, leaves := 0, t.leaves;
    while level >= 1
      invariant 0 <= level <= p.depth && level + h == p.depth
      invariant index == Ancestor(leafIndex, h)
      invariant |path.items| == |bits.items| == h
      invariant Spells(bits.items, leafIndex)
      invariant AreSiblings(p, leaves, leafIndex, path.items)
    {
      ClimbOne(p, shard, level, index, path, bits, h, leafIndex, t);
      index := index / 2;
      level := level - 1;
      h := h + 1;
    }
    elements, indices := path.items, bits.items;
  }

  /** One level of the walk: the bit of the index, then the sibling. */
  method ClimbOne(p: Params, shard: seq<Byte>, level: nat, index: nat, path: Vec<Hash>, bits: Vec<nat>, ghost h: nat,
                  ghost leafIndex: nat, ghost t: Tree)
    requires Sound(p) && HeaderMatches(p, shard) && Represents(p, shard, t) && TreeOk(p, t)
    requires 1 <= level && level + h == p.depth && leafIndex < Pow2(p.depth) && index == Ancestor(leafIndex, h)
    requires |path.items| == |bits.items| == h
    requires Spells(bits.items, leafIndex) && AreSiblings(p, t.leaves, leafIndex, path.items)
    modifies path, bits
    ensures |path.items| == |bits.items| == h + 1
    ensures Spells(bits.items, leafIndex) && AreSiblings(p, t.leaves, leafIndex, path.items)
  {
    OneMoreBit(bits.items, leafIndex, index % 2);
    bits.Push(index % 2);
    var hash := ReadSibling(p, shard, level, index, h, leafIndex, t);
    OneMoreSibling(p, t.leaves, leafIndex, path.items, hash);
    path.Push(hash);
  }

  method ReadSibling(p: Params, shard: seq<Byte>, level: nat, index: nat, ghost h: nat, ghost leafIndex: nat,
                     ghost t: Tree)
    returns (hash: Hash)
    requires Sound(p) && HeaderMatches(p, shard) && Represents(p, shard, t) && TreeOk(p, t)
    requires 1 <= level && level + h == p.depth && leafIndex < Pow2(p.depth) && index == Ancestor(leafIndex, h)
    ensures hash == Subtree(p, t.leaves, h, Sibling(index))
  {
    SiblingBound(p, leafIndex, h);
    var read := NodeHash(p, shard, level, Sibling(index), h, t);
    hash := read.value;
  }

  // ---- binding ----

  /** The two children a path claims for the node it reaches at step `k + 1`. */
  function ClaimedPair(p: Params, leaf: Hash, elements: seq<Hash>, indices: seq<nat>, k: nat): (Hash, Hash)
    requires k < |elements| && k < |indices|
  {
    var below := Fold(p, leaf, elements, indices, k);
    if indices[k] == 0 then (below, elements[k]) else (elements[k], below)
  }

  /** The two children the tree has there. */
  function TreePair(p: Params, leaves: seq<Hash>, i: nat, k: nat): (Hash, Hash) {
    var parent := Ancestor(i, k + 1);
    (Subtree(p, leaves, k, 2 * parent), Subtree(p, leaves, k, 2 * parent + 1))
  }

  /** The path and the tree hash two different pairs to one value at step `k`. */
  ghost predicate CollidesAt(p: Params, leaves: seq<Hash>, i: nat, leaf: Hash, elements: seq<Hash>, indices: seq<nat>,
                             k: nat)
    requires k < |elements| && k < |indices|
  {
    var a, b := ClaimedPair(p, leaf, elements, indices, k), TreePair(p, leaves, i, k);
    a != b && p.h2(a.0, a.1) == p.h2(b.0, b.1)
  }

  /** Binding: a path for index `i` that folds to the tree's node proves the tree's own leaf with the tree's own
      siblings, unless the path itself exhibits a hash collision against the tree. */
  lemma {:induction false} Binding(p: Params, leaves: seq<Hash>, i: nat, leaf: Hash, elements: seq<Hash>,
                                   indices: seq<nat>, n: nat)
    requires n <= |elements| && n <= |indices| && Spells(indices, i)
    requires Fold(p, leaf, elements, indices, n) == Subtree(p, leaves, n, Ancestor(i, n))
    requires forall k: nat :: k < n ==> !CollidesAt(p, leaves, i, leaf, elements, indices, k)
    ensures leaf == LeafAt(leaves, i)
    ensures forall k: nat :: k < n ==> elements[k] == Subtree(p, leaves, k, Sibling(Ancestor(i, k)))
  {
    if n > 0 {
      var k := n - 1;
      var j := Ancestor(i, k);
      assert indices[k] == j % 2;
      assert !CollidesAt(p, leaves, i, leaf, elements, indices, k);
      assert ClaimedPair(p, leaf, elements, indices, k) == TreePair(p, leaves, i, k);
      assert j % 2 == 0 ==> j == 2 * (j / 2);
      assert j % 2 == 1 ==> j == 2 * (j / 2) + 1;
      Binding(p, leaves, i, leaf, elements, indices, k);
    }
  }

  /** The same for a whole-depth path against the root the shard reports. */
  lemma RootBinding(p: Params, leaves: seq<Hash>, i: nat, leaf: Hash, elements: seq<Hash>, indices: seq<nat>)
    requires |elements| == |indices| == p.depth && i < Pow2(p.depth) && Spells(indices, i)
    requires Fold(p, leaf, elements, indices, p.depth) == Root(p, leaves)
    requires leaf != LeafAt(leaves, i) || !AreSiblings(p, leaves, i, elements)
    ensures exists k: nat :: k < p.depth && CollidesAt(p, leaves, i, leaf, elements, indices, k)
    ensures exists a: Hash, b: Hash, c: Hash, d: Hash ::
              (a != c || b != d) && p.h2(a, b) == p.h2(c, d)
  {
    AncestorBound(i, p.depth, p.depth);
    if forall k: nat :: k < p.depth ==> !CollidesAt(p, leaves, i, leaf, elements, indices, k) {
      Binding(p, leaves, i, leaf, elements, indices, p.depth);
    }
    var k: nat :| k < p.depth && CollidesAt(p, leaves, i, leaf, elements, indices, k);
    var claimed, own := ClaimedPair(p, leaf, elements, indices, k), TreePair(p, leaves, i, k);
    assert p.h2(claimed.0, claimed.1) == p.h2(own.0, own.1) && (claimed.0 != own.0 || claimed.1 != own.1);
  }

  // ---- the root list ----

  /** The list of acceptable roots a host keeps, read off the parsed header: the current root, then every window entry
      that is not zero. */
  method RootListOf(p: Params, shard: seq<Byte>, ghost t: Tree) returns (r: Outcome<seq<Hash>>)
    requires Sound(p)
    requires HeaderMatches(p, shard) ==> Represents(p, shard, t) && TreeOk(p, t)
    ensures r == if HeaderMatches(p, shard) then Done(RootList(p, t)) else Panic
  {
    var parsed :- FromBytes(p, shard);
    FromBytesReadsTheTree(p, shard, t);
    var roots := new Vec<Hash>([parsed.root]);
    var history := parsed.rootHistory;
    for i := 0 to |history|
      invariant roots.items == [parsed.root] + NonZero(history[..i])
    {
      NonZeroOneMore(history, i);
      if history[i] != ZERO {
        roots.Push(history[i]);
      }
    }
    assert history[..|history|] == history;
    r := Done(roots.items);
  }

  lemma {:induction false} NonZeroSplit(a: seq<Hash>, b: seq<Hash>)
    ensures NonZero(a + b) == NonZero(a) + NonZero(b)
  {
    if a == [] {
      assert a + b == b;
    } else {
      NonZeroSplit(a[1..], b);
      var head: seq<Hash> := if a[0] == ZERO then [] else [a[0]];
      assert (a + b)[0] == a[0] && (a + b)[1..] == a[1..] + b;
      assert NonZero(a + b) == head + NonZero(a[1..] + b);
      assert head + (NonZero(a[1..]) + NonZero(b)) == head + NonZero(a[1..]) + NonZero(b);
    }
  }

  lemma NonZeroOneMore(s: seq<Hash>, i: nat)
    requires i < |s|
    ensures NonZero(s[..i + 1]) == NonZero(s[..i]) + if s[i] == ZERO then [] else [s[i]]
  {
    NonZeroSplit(s[..i], [s[i]]);
    assert s[..i + 1] == s[..i] + [s[i]];
    assert [s[i]][1..] == [];
  }
}
