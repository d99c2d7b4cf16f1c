/** Where everything is in a tree shard, in plain byte positions. */
module Layout {
  import opened Bytes
  import opened Hashing
  import opened Merkle
  import opened Shard
  import opened Slices
  import opened Sparse
  import opened Stored
  import opened Tree
  import opened TreeLaws

  /** The fixed part: depth, next index, root, window and one default for every level. */
  ghost predicate Header(p: Params, data: seq<Byte>, t: Tree) {
    && |data| >= 169 + 32 * (p.depth + 1)
    && data[0] == p.depth
    && data[1..9] == [|t.leaves| % 256, |t.leaves| / 0x100 % 256, |t.leaves| / 0x1_0000 % 256,
                      |t.leaves| / 0x100_0000 % 256,
                      |t.leaves| / 0x1_0000_0000 % 256, |t.leaves| / 0x100_0000_0000 % 256,
                      |t.leaves| / 0x1_0000_0000_0000 % 256, |t.leaves| / 0x100_0000_0000_0000 % 256]
    && data[9..41] == Root(p, t.leaves)
    && data[41..73] == t.history[0] && data[73..105] == t.history[1]
    && data[105..137] == t.history[2] && data[137..169] == t.history[3]
    && AllZero(DefaultIn(p, data, p.depth))
    && forall l: nat :: l < p.depth ==> DefaultIn(p, data, l) == p.h2(DefaultIn(p, data, l + 1), DefaultIn(p, data, l + 1))
  }

  /** The cached default of a level, root level first. */
  function DefaultIn(p: Params, data: seq<Byte>, l: nat): Hash
    requires |data| >= 169 + 32 * (p.depth + 1) && l <= p.depth
  {
    data[169 + 32 * l..201 + 32 * l]
  }

  lemma HeaderLayout(p: Params, data: seq<Byte>, t: Tree)
    requires Sound(p) && Represents(p, data, t)
    ensures Header(p, data, t)
  {
    var n := OffsetTreeData(p);
    var header := data[..n];
    assert header[0] == data[0];
    SliceOfPrefix(data, n, 1, 9);
    EightBytes(|t.leaves|);
    SliceOfPrefix(data, n, 9, 41);
    assert HistoryAt(header, 0) == t.history[0] && HistoryAt(header, 1) == t.history[1];
    assert HistoryAt(header, 2) == t.history[2] && HistoryAt(header, 3) == t.history[3];
    SliceOfPrefix(data, n, 41, 73);
    SliceOfPrefix(data, n, 73, 105);
    SliceOfPrefix(data, n, 105, 137);
    SliceOfPrefix(data, n, 137, 169);
    forall l: nat | l <= p.depth ensures DefaultIn(p, data, l) == Default(p, l) {
      assert CachedAt(header, l) == Default(p, l);
      SliceOfPrefix(data, n, 169 + 32 * l, 201 + 32 * l);
    }
    ZeroIsAllZero(ZERO);
    assert Default(p, p.depth) == ZERO;
    forall l: nat | l < p.depth
      ensures DefaultIn(p, data, l) == p.h2(DefaultIn(p, data, l + 1), DefaultIn(p, data, l + 1))
    {
      assert Default(p, l) == p.h2(Default(p, l + 1), Default(p, l + 1));
    }
  }

  /** Entry `k` of the node map holds a node of the tree: its breadth-first offset in two bytes, low byte first, then
      its recursive hash. */
  ghost predicate NodeEntry(p: Params, nodes: seq<Byte>, k: nat, leaves: seq<Hash>)
    requires 2 + 34 * (k + 1) <= |nodes|
  {
    exists level: nat, index: nat ::
      && IsEntry(nodes, k, level, index) && level <= p.depth && index < Pow2(level)
      && nodes[4 + 34 * k..36 + 34 * k] == Subtree(p, leaves, p.depth - level, index)
  }

  ghost predicate IsEntry(nodes: seq<Byte>, k: nat, level: nat, index: nat)
    requires 2 + 34 * (k + 1) <= |nodes|
  {
    (nodes[2 + 34 * k] as int) + 256 * (nodes[3 + 34 * k] as int) == Pow2(level) - 1 + index
  }

  /** The variable part: nothing for an unused tree, otherwise a two-byte count and that many entries of 34 bytes. */
  ghost predicate Nodes(p: Params, nodes: seq<Byte>, leaves: seq<Hash>) {
    if leaves == [] then nodes == []
    else
      && |nodes| >= 2 && |nodes| == 2 + 34 * ((nodes[0] as int) + 256 * (nodes[1] as int))
      && forall k: nat :: k < (nodes[0] as int) + 256 * (nodes[1] as int) ==> NodeEntry(p, nodes, k, leaves)
  }

  lemma NodesLayout(p: Params, nodes: seq<Byte>, leaves: seq<Hash>)
    requires Sound(p) && NodesHold(p, nodes, leaves) && |leaves| <= Pow2(p.depth)
    ensures Nodes(p, nodes, leaves)
  {
    if leaves != [] {
      forall k: nat | k < Count(nodes) ensures NodeEntry(p, nodes, k, leaves) {
        EntryLayout(p, nodes, leaves, k);
      }
    }
  }

  lemma EntryLayout(p: Params, nodes: seq<Byte>, leaves: seq<Hash>, k: nat)
    requires Sound(p) && NodesHold(p, nodes, leaves) && |leaves| <= Pow2(p.depth) && k < Count(nodes)
    ensures NodeEntry(p, nodes, k, leaves)
  {
    ContentsAt(nodes, k, Count(nodes));
    EntryBytes(nodes, k);
    var o := OffsetAt(nodes, k);
    var h: nat, i: nat :| IsNode(p, |leaves|, o, h, i);
    assert Holds(p, Contents(nodes), leaves, h, i);
    WidthBound(|leaves|, p.depth, h);
    assert IsEntry(nodes, k, p.depth - h, i);
  }

  lemma EntryBytes(nodes: seq<Byte>, k: nat)
    requires 2 + 34 * (k + 1) <= |nodes|
    ensures OffsetAt(nodes, k) == (nodes[2 + 34 * k] as int) + 256 * (nodes[3 + 34 * k] as int)
    ensures HashAt(nodes, k) == nodes[4 + 34 * k..36 + 34 * k]
  {
    ProbeIsOffset(nodes, k);
    SliceOfMiddle(nodes, 2 + 34 * k, 2 + 34 * (k + 1), 2, 34);
  }

  /** The whole shard: a header of 169 + 32 * (depth + 1) bytes, then the node map. */
  lemma ShardLayout(p: Params, data: seq<Byte>, t: Tree)
    requires Sound(p) && Represents(p, data, t) && TreeOk(p, t)
    ensures Header(p, data, t) && Nodes(p, data[169 + 32 * (p.depth + 1)..], t.leaves)
  {
    HeaderLayout(p, data, t);
    NodesLayout(p, data[OffsetTreeData(p)..], t.leaves);
  }

  // ---- what a reader refuses ----

  /** A shard is read exactly when it is long enough for this depth's header and its first byte names this depth. */
  lemma ReadableExactly(p: Params, data: seq<Byte>)
    ensures HeaderMatches(p, data) <==> |data| >= 169 + 32 * (p.depth + 1) && data[0] == p.depth
  {
  }

  /** A tree built to another depth is refused, however long it is. */
  lemma OtherDepthRefused(p: Params, q: Params, data: seq<Byte>, t: Tree)
    requires Sound(q) && Represents(q, data, t) && q.depth != p.depth
    ensures !HeaderMatches(p, data)
  {
    HeaderLayout(q, data, t);
    ReadableExactly(p, data);
  }

  /** A full tree of depth `d` takes 169 + 32 (d + 1) + 2 + 34 (2^(d+1) - 1) bytes, and no tree takes more. */
  lemma LargestShard(p: Params, data: seq<Byte>, t: Tree, nodes: nat)
    requires Represents(p, data, t) && TreeOk(p, t) && nodes == 2 * Pow2(p.depth) - 1
    ensures |data| <= 169 + 32 * (p.depth + 1) + 2 + 34 * nodes
    ensures |data| == 169 + 32 * (p.depth + 1) + 2 + 34 * nodes <==> |t.leaves| == Pow2(p.depth)
  {
    ShardSize(p, data, t);
  }
}
