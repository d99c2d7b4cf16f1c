/** Which nodes the sparse map stores, and how one root-to-leaf rewrite changes it. */
module Stored {
  import opened Bytes
  import opened Hashing
  import opened Merkle
  import opened Sparse

  /** The map offset of node `i` at `height` above the leaves. */
  function Offset(p: Params, height: nat, i: nat): nat
    requires height <= p.depth
  {
    NodeOffset(p.depth - height, i)
  }

  /** Number of nodes in a whole tree. */
  function TreeNodes(p: Params): nat {
    2 * Pow2(p.depth) - 1
  }

  /** `offset` is that of a node with a used slot under it. */
  ghost predicate IsNode(p: Params, n: nat, offset: nat, h: nat, i: nat) {
    h <= p.depth && i < Width(n, h) && offset == Offset(p, h, i)
  }

  ghost predicate IsStored(p: Params, n: nat, offset: nat) {
    exists h: nat, i: nat :: IsNode(p, n, offset, h, i)
  }

  ghost predicate Holds(p: Params, m: map<nat, Hash>, leaves: seq<Hash>, h: nat, i: nat)
    requires h <= p.depth
  {
    Offset(p, h, i) in m && m[Offset(p, h, i)] == Subtree(p, leaves, h, i)
  }

  /** Exactly the root-to-leaf paths of the used slots are stored, each node with its recursive hash. */
  ghost predicate StoresTree(p: Params, m: map<nat, Hash>, leaves: seq<Hash>) {
    && (forall h: nat, i: nat {:trigger Holds(p, m, leaves, h, i)} ::
          h <= p.depth && i < Width(|leaves|, h) ==> Holds(p, m, leaves, h, i))
    && (forall o :: o in m ==> IsStored(p, |leaves|, o))
  }

  // ---- offsets ----

  lemma OffsetBound(p: Params, h: nat, i: nat)
    requires Sound(p) && h <= p.depth && i < Pow2(p.depth - h)
    ensures Offset(p, h, i) < TreeNodes(p) < U16_SIZE
    ensures AsU16(Offset(p, h, i)) == Offset(p, h, i)
  {
    Pow2Monotone(p.depth - h, p.depth);
    Pow2Monotone(p.depth, 15);
    assert Pow2(5) == 32;
    assert Pow2(10) == 1024;
    assert Pow2(15) == 32768;
  }

  /** Distinct nodes have distinct offsets: the levels' ranges do not overlap. */
  lemma OffsetInjective(p: Params, h: nat, i: nat, g: nat, j: nat)
    requires h <= p.depth && i < Pow2(p.depth - h)
    requires g <= p.depth && j < Pow2(p.depth - g)
    requires Offset(p, h, i) == Offset(p, g, j)
    ensures h == g && i == j
  {
    if h < g {
      Pow2Monotone(p.depth - g + 1, p.depth - h);
    } else if g < h {
      Pow2Monotone(p.depth - h + 1, p.depth - g);
    }
  }

  lemma StoredBelow(p: Params, m: map<nat, Hash>, leaves: seq<Hash>)
    requires Sound(p) && StoresTree(p, m, leaves) && |leaves| <= Pow2(p.depth)
    ensures forall o :: o in m ==> o < TreeNodes(p)
  {
    forall o | o in m
      ensures o < TreeNodes(p)
    {
      var h: nat, i: nat :| IsNode(p, |leaves|, o, h, i);
      WidthBound(|leaves|, p.depth, h);
      OffsetBound(p, h, i);
    }
  }

  lemma UnusedNotStored(p: Params, n: nat, h: nat, i: nat)
    requires n <= Pow2(p.depth) && h <= p.depth && Width(n, h) <= i < Pow2(p.depth - h)
    ensures !IsStored(p, n, Offset(p, h, i))
  {
    forall g: nat, j: nat
      ensures !IsNode(p, n, Offset(p, h, i), g, j)
    {
      if IsNode(p, n, Offset(p, h, i), g, j) {
        WidthBound(n, p.depth, g);
        OffsetInjective(p, h, i, g, j);
      }
    }
  }

  /** Reading through the map with the level default gives every node of the tree. */
  lemma StoredNode(p: Params, m: map<nat, Hash>, leaves: seq<Hash>, h: nat, i: nat)
    requires StoresTree(p, m, leaves) && |leaves| <= Pow2(p.depth)
    requires h <= p.depth && i < Pow2(p.depth - h)
    ensures ReadOr(m, Offset(p, h, i), Empty(p, h)) == Subtree(p, leaves, h, i)
  {
    if i < Width(|leaves|, h) {
      assert Holds(p, m, leaves, h, i);
    } else {
      UnusedNotStored(p, |leaves|, h, i);
      DefaultPastWidth(p, leaves, h, i);
    }
  }

  // ---- rewriting one path ----

  /** `m` with the path of slot `at` rewritten below `height`. */
  ghost function PathWritten(p: Params, m: map<nat, Hash>, leaves: seq<Hash>, at: nat, height: nat): map<nat, Hash>
    requires height <= p.depth + 1
  {
    if height == 0 then m
    else PathWritten(p, m, leaves, at, height - 1)
         [Offset(p, height - 1, Ancestor(at, height - 1)) := Subtree(p, leaves, height - 1, Ancestor(at, height - 1))]
  }

  /** A node of the rewritten part of the path holds its new hash. */
  lemma {:induction false} WrittenOnPath(p: Params, m: map<nat, Hash>, leaves: seq<Hash>, at: nat, height: nat, h: nat)
    requires h < height <= p.depth + 1 && at < Pow2(p.depth)
    ensures Offset(p, h, Ancestor(at, h)) in PathWritten(p, m, leaves, at, height)
    ensures PathWritten(p, m, leaves, at, height)[Offset(p, h, Ancestor(at, h))] == Subtree(p, leaves, h, Ancestor(at, h))
  {
    if h < height - 1 {
      WrittenOnPath(p, m, leaves, at, height - 1, h);
      AncestorBound(at, p.depth, h);
      AncestorBound(at, p.depth, height - 1);
      if Offset(p, h, Ancestor(at, h)) == Offset(p, height - 1, Ancestor(at, height - 1)) {
        OffsetInjective(p, h, Ancestor(at, h), height - 1, Ancestor(at, height - 1));
      }
    }
  }

  /** Every other node is as it was. */
  lemma {:induction false} UntouchedOffPath(p: Params, m: map<nat, Hash>, leaves: seq<Hash>, at: nat, height: nat,
                                            h: nat, i: nat)
    requires height <= p.depth + 1 && at < Pow2(p.depth)
    requires h <= p.depth && i < Pow2(p.depth - h)
    requires i != Ancestor(at, h) || height <= h
    ensures var o := Offset(p, h, i);
            var w := PathWritten(p, m, leaves, at, height);
            (o in w <==> o in m) && (o in m ==> w[o] == m[o])
  {
    if height > 0 {
      UntouchedOffPath(p, m, leaves, at, height - 1, h, i);
      AncestorBound(at, p.depth, height - 1);
      if Offset(p, h, i) == Offset(p, height - 1, Ancestor(at, height - 1)) {
        OffsetInjective(p, h, i, height - 1, Ancestor(at, height - 1));
      }
    }
  }

  ghost predicate OnPath(p: Params, at: nat, height: nat, o: nat)
    requires height <= p.depth + 1
  {
    exists h: nat :: h < height && o == Offset(p, h, Ancestor(at, h))
  }

  lemma {:induction false} PathKeys(p: Params, m: map<nat, Hash>, leaves: seq<Hash>, at: nat, height: nat, o: nat)
    requires height <= p.depth + 1 && o in PathWritten(p, m, leaves, at, height)
    ensures o in m || OnPath(p, at, height, o)
  {
    if height > 0 {
      if o == Offset(p, height - 1, Ancestor(at, height - 1)) {
        assert OnPath(p, at, height, o);
      } else {
        PathKeys(p, m, leaves, at, height - 1, o);
        if o !in m {
          var h: nat :| h < height - 1 && o == Offset(p, h, Ancestor(at, h));
          assert h < height;
        }
      }
    }
  }

  lemma SiblingBound(p: Params, at: nat, h: nat)
    requires at < Pow2(p.depth) && h < p.depth
    ensures Sibling(Ancestor(at, h)) < Pow2(p.depth - h)
    ensures Sibling(Ancestor(at, h)) != Ancestor(at, h)
  {
    AncestorBound(at, p.depth, h);
    assert Pow2(p.depth - h) == 2 * Pow2(p.depth - h - 1);
  }

  /** While the path is being rewritten, a sibling still reads as the tree's own node. */
  lemma SiblingOnPath(p: Params, m: map<nat, Hash>, leaves: seq<Hash>, at: nat, leaf: Hash, h: nat) returns (hash: Hash)
    requires StoresTree(p, m, leaves)
    requires at <= |leaves| <= Pow2(p.depth) && at < Pow2(p.depth) && h < p.depth
    ensures Sibling(Ancestor(at, h)) < Pow2(p.depth - h)
    ensures hash == Subtree(p, Put(leaves, at, leaf), h, Sibling(Ancestor(at, h)))
    ensures hash == ReadOr(PathWritten(p, m, Put(leaves, at, leaf), at, h + 1), Offset(p, h, Sibling(Ancestor(at, h))),
                           Empty(p, h))
  {
    var sibling := Sibling(Ancestor(at, h));
    SiblingBound(p, at, h);
    hash := Subtree(p, leaves, h, sibling);
    UntouchedOffPath(p, m, Put(leaves, at, leaf), at, h + 1, h, sibling);
    StoredNode(p, m, leaves, h, sibling);
    UnchangedByPut(p, leaves, at, leaf, h, sibling);
  }

  lemma WidthGrows(n: nat, h: nat)
    ensures Width(n, h) <= Width(n + 1, h)
  {
    PathAtEdge(n, h);
  }

  /** Rewriting the whole path of one slot turns the map of the old tree into the map of the new one. */
  lemma PathRewritten(p: Params, m: map<nat, Hash>, leaves: seq<Hash>, at: nat, leaf: Hash)
    requires Sound(p) && StoresTree(p, m, leaves)
    requires at <= |leaves| <= Pow2(p.depth) && at < Pow2(p.depth)
    ensures StoresTree(p, PathWritten(p, m, Put(leaves, at, leaf), at, p.depth + 1), Put(leaves, at, leaf))
  {
    var after := Put(leaves, at, leaf);
    var w := PathWritten(p, m, after, at, p.depth + 1);
    forall h: nat, i: nat | h <= p.depth && i < Width(|after|, h)
      ensures Holds(p, w, after, h, i)
    {
      RewrittenNode(p, m, leaves, at, leaf, h, i);
    }
    forall o | o in w
      ensures IsStored(p, |after|, o)
    {
      RewrittenKey(p, m, leaves, at, leaf, o);
    }
  }

  lemma OtherNodesWereUsed(n: nat, at: nat, h: nat, i: nat)
    requires at <= n && i < Width(if at == n then n + 1 else n, h) && i != Ancestor(at, h)
    ensures i < Width(n, h)
  {
    PathAtEdge(n, h);
  }

  lemma UnchangedByPut(p: Params, leaves: seq<Hash>, at: nat, leaf: Hash, h: nat, i: nat)
    requires at <= |leaves| && i != Ancestor(at, h)
    ensures Subtree(p, Put(leaves, at, leaf), h, i) == Subtree(p, leaves, h, i)
  {
    PutSlots(leaves, at, leaf);
    UnchangedOffPath(p, Put(leaves, at, leaf), leaves, at, h, i);
  }

  lemma RewrittenNode(p: Params, m: map<nat, Hash>, leaves: seq<Hash>, at: nat, leaf: Hash, h: nat, i: nat)
    requires StoresTree(p, m, leaves)
    requires at <= |leaves| <= Pow2(p.depth) && at < Pow2(p.depth)
    requires h <= p.depth && i < Width(|Put(leaves, at, leaf)|, h)
    ensures Holds(p, PathWritten(p, m, Put(leaves, at, leaf), at, p.depth + 1), Put(leaves, at, leaf), h, i)
  {
    var after := Put(leaves, at, leaf);
    if i == Ancestor(at, h) {
      WrittenOnPath(p, m, after, at, p.depth + 1, h);
    } else {
      OtherNodesWereUsed(|leaves|, at, h, i);
      WidthBound(|leaves|, p.depth, h);
      UntouchedOffPath(p, m, after, at, p.depth + 1, h, i);
      assert Holds(p, m, leaves, h, i);
      UnchangedByPut(p, leaves, at, leaf, h, i);
    }
  }

  lemma RewrittenKey(p: Params, m: map<nat, Hash>, leaves: seq<Hash>, at: nat, leaf: Hash, o: nat)
    requires Sound(p) && StoresTree(p, m, leaves)
    requires at <= |leaves| <= Pow2(p.depth) && at < Pow2(p.depth)
    requires o in PathWritten(p, m, Put(leaves, at, leaf), at, p.depth + 1)
    ensures IsStored(p, |Put(leaves, at, leaf)|, o)
  {
    var after := Put(leaves, at, leaf);
    PathKeys(p, m, after, at, p.depth + 1, o);
    if o in m {
      var h: nat, i: nat :| IsNode(p, |leaves|, o, h, i);
      WidthGrows(|leaves|, h);
      assert IsNode(p, |after|, o, h, i);
    } else {
      var h: nat :| h < p.depth + 1 && o == Offset(p, h, Ancestor(at, h));
      PathInside(at, |after|, h);
      assert IsNode(p, |after|, o, h, Ancestor(at, h));
    }
  }

  // ---- how many nodes are stored ----

  /** Stored nodes at the heights up to `height`. */
  function NodesUpTo(n: nat, height: nat): nat {
    Width(n, height) + if height == 0 then 0 else NodesUpTo(n, height - 1)
  }

  ghost function LevelOffsets(p: Params, h: nat, w: nat): set<nat>
    requires h <= p.depth
  {
    set i: nat | i < w :: Offset(p, h, i)
  }

  lemma {:induction false} LevelSize(p: Params, h: nat, w: nat)
    requires h <= p.depth
    ensures |LevelOffsets(p, h, w)| == w
  {
    if w > 0 {
      LevelSize(p, h, w - 1);
      assert LevelOffsets(p, h, w) == LevelOffsets(p, h, w - 1) + {Offset(p, h, w - 1)};
    }
  }

  ghost function OffsetsUpTo(p: Params, n: nat, height: nat): set<nat>
    requires height <= p.depth
  {
    LevelOffsets(p, height, Width(n, height)) + if height == 0 then {} else OffsetsUpTo(p, n, height - 1)
  }

  lemma {:induction false} OffsetsUpToHas(p: Params, n: nat, height: nat, h: nat, i: nat)
    requires h <= height <= p.depth && i < Width(n, h)
    ensures Offset(p, h, i) in OffsetsUpTo(p, n, height)
  {
    if h < height {
      OffsetsUpToHas(p, n, height - 1, h, i);
    }
  }

  lemma {:induction false} OffsetsUpToOnly(p: Params, n: nat, height: nat, o: nat) returns (h: nat, i: nat)
    requires height <= p.depth && o in OffsetsUpTo(p, n, height)
    ensures h <= height && IsNode(p, n, o, h, i)
  {
    if o in LevelOffsets(p, height, Width(n, height)) {
      h := height;
      i :| i < Width(n, height) && o == Offset(p, height, i);
    } else {
      h, i := OffsetsUpToOnly(p, n, height - 1, o);
    }
  }

  lemma NotOnLevel(p: Params, n: nat, height: nat, i: nat, h: nat)
    requires h < height <= p.depth && n <= Pow2(p.depth) && i < Width(n, height)
    ensures Offset(p, height, i) !in LevelOffsets(p, h, Width(n, h))
  {
    WidthBound(n, p.depth, height);
    WidthBound(n, p.depth, h);
    forall j: nat | j < Width(n, h)
      ensures Offset(p, height, i) != Offset(p, h, j)
    {
      if Offset(p, height, i) == Offset(p, h, j) {
        OffsetInjective(p, height, i, h, j);
      }
    }
  }

  lemma {:induction false} NotBelow(p: Params, n: nat, height: nat, i: nat, h: nat)
    requires h < height <= p.depth && n <= Pow2(p.depth) && i < Width(n, height)
    ensures Offset(p, height, i) !in OffsetsUpTo(p, n, h)
  {
    NotOnLevel(p, n, height, i, h);
    if h > 0 {
      NotBelow(p, n, height, i, h - 1);
    }
  }

  lemma LevelsDisjoint(p: Params, n: nat, height: nat)
    requires 0 < height <= p.depth && n <= Pow2(p.depth)
    ensures LevelOffsets(p, height, Width(n, height)) !! OffsetsUpTo(p, n, height - 1)
  {
    forall i: nat | i < Width(n, height)
      ensures Offset(p, height, i) !in OffsetsUpTo(p, n, height - 1)
    {
      NotBelow(p, n, height, i, height - 1);
    }
  }

  lemma {:induction false} OffsetsUpToSize(p: Params, n: nat, height: nat)
    requires height <= p.depth && n <= Pow2(p.depth)
    ensures |OffsetsUpTo(p, n, height)| == NodesUpTo(n, height)
  {
    LevelSize(p, height, Width(n, height));
    if height > 0 {
      OffsetsUpToSize(p, n, height - 1);
      LevelsDisjoint(p, n, height);
    }
  }

  /** The number of stored nodes is the sum over the levels of the slots per node, rounded up. */
  lemma StoredSize(p: Params, m: map<nat, Hash>, leaves: seq<Hash>)
    requires StoresTree(p, m, leaves) && |leaves| <= Pow2(p.depth)
    ensures |m| == NodesUpTo(|leaves|, p.depth)
  {
    forall o | o in m.Keys
      ensures o in OffsetsUpTo(p, |leaves|, p.depth)
    {
      var h: nat, i: nat :| IsNode(p, |leaves|, o, h, i);
      OffsetsUpToHas(p, |leaves|, p.depth, h, i);
    }
    forall o | o in OffsetsUpTo(p, |leaves|, p.depth)
      ensures o in m.Keys
    {
      var h, i := OffsetsUpToOnly(p, |leaves|, p.depth, o);
      assert Holds(p, m, leaves, h, i);
    }
    assert m.Keys == OffsetsUpTo(p, |leaves|, p.depth);
    OffsetsUpToSize(p, |leaves|, p.depth);
  }

  /** A full level has a node for every index. */
  lemma {:induction false} FullWidth(depth: nat, height: nat)
    requires height <= depth
    ensures Width(Pow2(depth), height) == Pow2(depth - height)
  {
    if height > 0 {
      FullWidth(depth, height - 1);
    }
  }

  /** The sum never exceeds the whole tree, and reaches it exactly when every slot is used. */
  lemma {:induction false} NodesBound(depth: nat, n: nat, height: nat)
    requires height <= depth && n <= Pow2(depth)
    ensures NodesUpTo(n, height) + Pow2(depth - height) <= 2 * Pow2(depth)
    ensures n < Pow2(depth) ==> NodesUpTo(n, height) + Pow2(depth - height) < 2 * Pow2(depth)
    ensures n == Pow2(depth) ==> NodesUpTo(n, height) + Pow2(depth - height) == 2 * Pow2(depth)
  {
    WidthBound(n, depth, height);
    if height > 0 {
      NodesBound(depth, n, height - 1);
    }
    if n == Pow2(depth) {
      FullWidth(depth, height);
    }
  }
}
