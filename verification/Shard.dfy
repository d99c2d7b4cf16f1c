/** The tree's shard, byte by byte: header, cached defaults, sparse node map, and the programs that rewrite it. */
module Shard {
  import opened Bytes
  import opened Hashing
  import opened Merkle
  import opened Outcomes
  import opened Slices
  import opened Sparse
  import opened Stored
  import opened Tree
  import opened TreeLaws
  import opened Vectors

  const OFFSET_DEPTH: nat := 0
  const OFFSET_NEXT_INDEX: nat := 1
  const OFFSET_ROOT: nat := 9
  const OFFSET_ROOT_HISTORY: nat := 41
  const OFFSET_CACHED_NODES: nat := 169

  /** Where the header and the cached defaults end. */
  function OffsetTreeData(p: Params): nat {
    OFFSET_CACHED_NODES + (p.depth + 1) * 32
  }

  function Read32(data: seq<Byte>, at: nat): Hash
    requires at + 32 <= |data|
  {
    data[at..at + 32]
  }

  function HistoryAt(data: seq<Byte>, i: nat): Hash
    requires OFFSET_ROOT_HISTORY + 32 * (i + 1) <= |data|
  {
    Read32(data, OFFSET_ROOT_HISTORY + 32 * i)
  }

  function CachedAt(data: seq<Byte>, level: nat): Hash
    requires OFFSET_CACHED_NODES + 32 * (level + 1) <= |data|
  {
    Read32(data, OFFSET_CACHED_NODES + 32 * level)
  }

  /** The default of a level; level 0 is the root, `depth` the leaves. */
  function Default(p: Params, level: nat): Hash
    requires level <= p.depth
  {
    Empty(p, p.depth - level)
  }

  // ---- what the bytes mean ----

  /** The header and the cached defaults of a tree with this `next_index`, root and window. */
  ghost predicate HeaderHolds(p: Params, header: seq<Byte>, next: nat, root: Hash, history: History) {
    && FrontHolds(p, header, next, root, history)
    && (forall l: nat :: l <= p.depth ==> CachedAt(header, l) == Default(p, l))
  }

  ghost predicate NodesHold(p: Params, nodes: seq<Byte>, leaves: seq<Hash>) {
    && WellFormed(nodes)
    && (nodes == [] <==> leaves == [])
    && StoresTree(p, Contents(nodes), leaves)
  }

  /** The bytes of an initialized tree shard. */
  ghost predicate Represents(p: Params, data: seq<Byte>, t: Tree) {
    && |data| >= OffsetTreeData(p)
    && HeaderHolds(p, data[..OffsetTreeData(p)], |t.leaves|, Root(p, t.leaves), t.history)
    && NodesHold(p, data[OffsetTreeData(p)..], t.leaves)
  }

  /** The bytes of a tree shard, initialized or not. */
  ghost predicate ShardHolds(p: Params, data: seq<Byte>, t: Option<Tree>) {
    match t
    case None => data == []
    case Some(tree) => Represents(p, data, tree) && TreeOk(p, tree)
  }

  /** A byte-level result that is the abstract one. */
  ghost predicate Refines(p: Params, bytes: Outcome<seq<Byte>>, tree: Outcome<Tree>) {
    match bytes
    case Done(data) => tree.Done? && ShardHolds(p, data, Some(tree.value))
    case Exit(code) => tree == Exit(code)
    case Panic => tree.Panic?
    case Refused => tree.Refused?
    case Foreign => tree.Foreign?
  }

  predicate HeaderMatches(p: Params, data: seq<Byte>) {
    && |data| >= OffsetTreeData(p)
    && data[OFFSET_DEPTH] == p.depth
  }

  function ReadNextIndex(data: seq<Byte>): nat
    requires |data| >= OFFSET_ROOT
  {
    FromLE(data[OFFSET_NEXT_INDEX..OFFSET_ROOT])
  }

  lemma NextIndexIs(p: Params, data: seq<Byte>, t: Tree)
    requires Sound(p) && Represents(p, data, t) && |t.leaves| <= Pow2(p.depth)
    ensures ReadNextIndex(data) == |t.leaves| <= 32768
  {
    Pow2Monotone(p.depth, 15);
    assert Pow2(5) == 32;
    assert Pow2(10) == 1024;
    assert Pow2(15) == 32768;
    U64RoundTrip(|t.leaves|);
    SliceOfPrefix(data, OffsetTreeData(p), OFFSET_NEXT_INDEX, OFFSET_ROOT);
  }

  // ---- building a shard ----

  /** Shard bytes with the given header state and an empty node map. */
  method CreateMainAccountData(p: Params, next: u64, root: Hash, cached: seq<Hash>) returns (data: seq<Byte>)
    requires p.depth <= 15 && |cached| <= p.depth + 1
    ensures FrontHolds(p, data, next, root, [ZERO, ZERO, ZERO, ZERO])
    ensures forall l: nat :: l < |cached| ==> CachedAt(data, l) == cached[l]
  {
    var buf := new Vec<Byte>(seq(OffsetTreeData(p), _ => 0));
    BlankHeader(p, buf.items, next, root);
    buf.Overwrite(OFFSET_DEPTH, [p.depth]);
    buf.Overwrite(OFFSET_NEXT_INDEX, ToLE(next, 8));
    buf.Overwrite(OFFSET_ROOT, root);
    ghost var front := buf.items;
    WriteCachedNodes(p, buf, cached);
    SameFront(p, front, buf.items, next, root, [ZERO, ZERO, ZERO, ZERO]);
    data := buf.items;
  }

  /** The fields in front of the cached defaults. */
  ghost predicate FrontHolds(p: Params, header: seq<Byte>, next: nat, root: Hash, history: History) {
    && |header| == OffsetTreeData(p)
    && header[OFFSET_DEPTH] == p.depth
    && header[OFFSET_NEXT_INDEX..OFFSET_ROOT] == ToLE(next, 8)
    && Read32(header, OFFSET_ROOT) == root
    && (forall i: nat :: i < 4 ==> HistoryAt(header, i) == history[i])
  }

  lemma BlankHeader(p: Params, blank: seq<Byte>, next: u64, root: Hash)
    requires p.depth <= 15 && |blank| == OffsetTreeData(p) && forall i: nat :: i < |blank| ==> blank[i] == 0
    ensures FrontHolds(p, Splice(Splice(Splice(blank, OFFSET_DEPTH, [p.depth]), OFFSET_NEXT_INDEX, ToLE(next, 8)),
                                 OFFSET_ROOT, root), next, root, [ZERO, ZERO, ZERO, ZERO])
  {
    ZeroHistory(blank);
    var dated: seq<Byte> := Splice(blank, OFFSET_DEPTH, [p.depth]);
    var numbered: seq<Byte> := Splice(dated, OFFSET_NEXT_INDEX, ToLE(next, 8));
    var rooted: seq<Byte> := Splice(numbered, OFFSET_ROOT, root);
    forall k: nat | k < 4
      ensures HistoryAt(rooted, k) == ZERO
    {
      var at := OFFSET_ROOT_HISTORY + 32 * k;
      assert HistoryAt(blank, k) == ZERO;
      ReadAfterOverwrite(blank, OFFSET_DEPTH, [p.depth], at, at + 32);
      ReadAfterOverwrite(dated, OFFSET_NEXT_INDEX, ToLE(next, 8), at, at + 32);
      ReadAfterOverwrite(numbered, OFFSET_ROOT, root, at, at + 32);
    }
    ReadAfterOverwrite(dated, OFFSET_NEXT_INDEX, ToLE(next, 8), OFFSET_NEXT_INDEX, OFFSET_ROOT);
    ReadAfterOverwrite(numbered, OFFSET_ROOT, root, OFFSET_NEXT_INDEX, OFFSET_ROOT);
    ReadAfterOverwrite(numbered, OFFSET_ROOT, root, OFFSET_ROOT, OFFSET_ROOT + 32);
  }

  method WriteCachedNodes(p: Params, buf: Vec<Byte>, cached: seq<Hash>)
    requires |cached| <= p.depth + 1 && |buf.items| == OffsetTreeData(p)
    modifies buf
    ensures |buf.items| == OffsetTreeData(p)
    ensures buf.items[..OFFSET_CACHED_NODES] == old(buf.items)[..OFFSET_CACHED_NODES]
    ensures forall l: nat :: l < |cached| ==> CachedAt(buf.items, l) == cached[l]
  {
    for i := 0 to |cached|
      invariant |buf.items| == OffsetTreeData(p)
      invariant buf.items[..OFFSET_CACHED_NODES] == old(buf.items)[..OFFSET_CACHED_NODES]
      invariant forall l: nat :: l < i ==> CachedAt(buf.items, l) == cached[l]
    {
      ghost var was := buf.items;
      var start := OFFSET_CACHED_NODES + i * 32;
      buf.Overwrite(start, cached[i]);
      ReadAfterOverwrite(was, start, cached[i], 0, OFFSET_CACHED_NODES);
      forall l: nat | l <= i
        ensures CachedAt(buf.items, l) == cached[l]
      {
        ReadAfterOverwrite(was, start, cached[i], OFFSET_CACHED_NODES + 32 * l, OFFSET_CACHED_NODES + 32 * l + 32);
      }
    }
  }

  /** The front fields only depend on the bytes in front of the cached defaults. */
  lemma SameFront(p: Params, a: seq<Byte>, b: seq<Byte>, next: nat, root: Hash, history: History)
    requires FrontHolds(p, a, next, root, history) && |b| == |a|
    requires b[..OFFSET_CACHED_NODES] == a[..OFFSET_CACHED_NODES]
    ensures FrontHolds(p, b, next, root, history)
  {
    SameSlice(a, b, OFFSET_NEXT_INDEX, OFFSET_ROOT);
    SameSlice(a, b, OFFSET_ROOT, OFFSET_ROOT + 32);
    assert a[..OFFSET_CACHED_NODES][0] == b[..OFFSET_CACHED_NODES][0];
    forall i: nat | i < 4
      ensures HistoryAt(b, i) == HistoryAt(a, i)
    {
      SameSlice(a, b, OFFSET_ROOT_HISTORY + 32 * i, OFFSET_ROOT_HISTORY + 32 * i + 32);
    }
  }

  lemma SameSlice(a: seq<Byte>, b: seq<Byte>, i: nat, j: nat)
    requires i <= j <= OFFSET_CACHED_NODES <= |a| == |b| && a[..OFFSET_CACHED_NODES] == b[..OFFSET_CACHED_NODES]
    ensures a[i..j] == b[i..j]
  {
    SliceOfPrefix(a, OFFSET_CACHED_NODES, i, j);
    SliceOfPrefix(b, OFFSET_CACHED_NODES, i, j);
  }

  lemma ZeroHistory(data: seq<Byte>)
    requires |data| >= OFFSET_CACHED_NODES && forall i: nat :: i < |data| ==> data[i] == 0
    ensures forall k: nat :: k < 4 ==> HistoryAt(data, k) == ZERO
  {
    forall i: nat | i < 32
      ensures ZERO[i] == 0
    {
      ZeroBytes(32, i);
    }
  }

  // ---- rewriting a shard ----

  /** Shift the window down one slot, move the current root into it, and write the new root. */
  method PushRootHistory(p: Params, data: Vec<Byte>, newRoot: Hash, ghost next: nat, ghost root: Hash,
                         ghost history: History)
    requires HeaderHolds(p, data.items, next, root, history)
    modifies data
    ensures HeaderHolds(p, data.items, next, newRoot, [root] + history[..3])
  {
    PushedHeader(p, data.items, next, root, history, newRoot);
    var oldRoot := Read32(data.items, OFFSET_ROOT);
    data.CopyWithin(OFFSET_ROOT_HISTORY, OFFSET_ROOT_HISTORY + 3 * 32, OFFSET_ROOT_HISTORY + 32);
    data.Overwrite(OFFSET_ROOT_HISTORY, oldRoot);
    data.Overwrite(OFFSET_ROOT, newRoot);
  }

  function Pushed(p: Params, s: seq<Byte>, newRoot: Hash): (r: seq<Byte>)
    requires |s| == OffsetTreeData(p)
    ensures |r| == |s|
  {
    Splice(Splice(Shifted(p, s), OFFSET_ROOT_HISTORY, Read32(s, OFFSET_ROOT)), OFFSET_ROOT, newRoot)
  }

  function Shifted(p: Params, s: seq<Byte>): (r: seq<Byte>)
    requires |s| == OffsetTreeData(p)
    ensures |r| == |s|
  {
    Splice(s, OFFSET_ROOT_HISTORY + 32, s[OFFSET_ROOT_HISTORY..OFFSET_ROOT_HISTORY + 3 * 32])
  }

  /** A range outside root and window is not touched by a push. */
  lemma PushKeeps(p: Params, s: seq<Byte>, newRoot: Hash, i: nat, j: nat)
    requires |s| == OffsetTreeData(p)
    requires i <= j <= OFFSET_ROOT || OFFSET_CACHED_NODES <= i <= j <= |s|
    ensures Pushed(p, s, newRoot)[i..j] == s[i..j]
  {
    var rooted := Splice(Shifted(p, s), OFFSET_ROOT_HISTORY, Read32(s, OFFSET_ROOT));
    ReadAfterOverwrite(s, OFFSET_ROOT_HISTORY + 32, s[OFFSET_ROOT_HISTORY..OFFSET_ROOT_HISTORY + 3 * 32], i, j);
    ReadAfterOverwrite(Shifted(p, s), OFFSET_ROOT_HISTORY, Read32(s, OFFSET_ROOT), i, j);
    ReadAfterOverwrite(rooted, OFFSET_ROOT, newRoot, i, j);
  }

  lemma PushMoves(p: Params, s: seq<Byte>, newRoot: Hash, k: nat)
    requires |s| == OffsetTreeData(p) && k < 4
    ensures HistoryAt(Pushed(p, s, newRoot), k) == if k == 0 then Read32(s, OFFSET_ROOT) else HistoryAt(s, k - 1)
    ensures Read32(Pushed(p, s, newRoot), OFFSET_ROOT) == newRoot
  {
    var at := OFFSET_ROOT_HISTORY + 32 * k;
    var moved := s[OFFSET_ROOT_HISTORY..OFFSET_ROOT_HISTORY + 3 * 32];
    var rooted := Splice(Shifted(p, s), OFFSET_ROOT_HISTORY, Read32(s, OFFSET_ROOT));
    ReadAfterOverwrite(s, OFFSET_ROOT_HISTORY + 32, moved, at, at + 32);
    ReadAfterOverwrite(Shifted(p, s), OFFSET_ROOT_HISTORY, Read32(s, OFFSET_ROOT), at, at + 32);
    ReadAfterOverwrite(rooted, OFFSET_ROOT, newRoot, at, at + 32);
    ReadAfterOverwrite(rooted, OFFSET_ROOT, newRoot, OFFSET_ROOT, OFFSET_ROOT + 32);
    if k > 0 {
      SliceOfMiddle(s, OFFSET_ROOT_HISTORY, OFFSET_ROOT_HISTORY + 3 * 32, 32 * (k - 1), 32 * k);
    }
  }

  lemma PushedHeader(p: Params, s: seq<Byte>, next: nat, root: Hash, history: History, newRoot: Hash)
    requires HeaderHolds(p, s, next, root, history)
    ensures HeaderHolds(p, Pushed(p, s, newRoot), next, newRoot, [root] + history[..3])
  {
    var r := Pushed(p, s, newRoot);
    PushKeeps(p, s, newRoot, 0, 1);
    assert r[0..1][0] == s[0..1][0];
    PushKeeps(p, s, newRoot, OFFSET_NEXT_INDEX, OFFSET_ROOT);
    forall k: nat | k < 4
      ensures HistoryAt(r, k) == ([root] + history[..3])[k]
    {
      PushMoves(p, s, newRoot, k);
    }
    PushMoves(p, s, newRoot, 0);
    forall l: nat | l <= p.depth
      ensures CachedAt(r, l) == Default(p, l)
    {
      PushKeeps(p, s, newRoot, OFFSET_CACHED_NODES + 32 * l, OFFSET_CACHED_NODES + 32 * (l + 1));
      assert CachedAt(s, l) == Default(p, l);
    }
  }

  /** The cached default of every level. */
  method ExtractCachedNodes(p: Params, data: seq<Byte>) returns (cached: seq<Hash>)
    requires |data| >= OffsetTreeData(p)
    ensures |cached| == p.depth + 1
    ensures forall l: nat :: l <= p.depth ==> cached[l] == CachedAt(data, l)
  {
    cached := [];
    for i := 0 to p.depth + 1
      invariant |cached| == i
      invariant forall l: nat :: l < i ==> cached[l] == CachedAt(data, l)
    {
      cached := cached + [CachedAt(data, i)];
    }
  }

  /** Write `leafValue` at `leafIndex` and every recomputed ancestor, root included; return the new root. */
  method ComputeRootAfterUpdate(p: Params, leafValue: Hash, leafIndex: nat, nodes: Vec<Byte>, cached: seq<Hash>,
                                ghost leaves: seq<Hash>)
    returns (root: Hash)
    requires Sound(p) && AllField(p, leaves) && p.isField(leafValue)
    requires leafIndex <= |leaves| <= Pow2(p.depth) && leafIndex < Pow2(p.depth)
    requires NodesHold(p, nodes.items, leaves)
    requires |cached| == p.depth + 1 && forall l: nat :: l <= p.depth ==> cached[l] == Default(p, l)
    modifies nodes
    ensures root == Root(p, Put(leaves, leafIndex, leafValue))
    ensures NodesHold(p, nodes.items, Put(leaves, leafIndex, leafValue))
  {
    ghost var after := Put(leaves, leafIndex, leafValue);
    ghost var m := Contents(nodes.items);
    PutField(p, leaves, leafIndex, leafValue);
    StoredBelow(p, m, leaves);
    root := RewritePath(p, leafValue, leafIndex, nodes, cached, leaves, m);
    WriteNode(p, nodes, 0, 0, root, p.depth);
    PathRewritten(p, m, leaves, leafIndex, leafValue);
  }

  /** The walk up: rewrite the path below the root and return the root's hash. */
  method RewritePath(p: Params, leafValue: Hash, leafIndex: nat, nodes: Vec<Byte>, cached: seq<Hash>,
                     ghost leaves: seq<Hash>, ghost m: map<nat, Hash>)
    returns (current: Hash)
    requires Sound(p) && leafIndex <= |leaves| <= Pow2(p.depth) && leafIndex < Pow2(p.depth)
    requires AllField(p, Put(leaves, leafIndex, leafValue))
    requires NodesBounded(p, nodes.items) && Contents(nodes.items) == m && StoresTree(p, m, leaves)
    requires |cached| == p.depth + 1 && forall l: nat :: l <= p.depth ==> cached[l] == Default(p, l)
    modifies nodes
    ensures Ancestor(leafIndex, p.depth) == 0
    ensures current == Subtree(p, Put(leaves, leafIndex, leafValue), p.depth, 0)
    ensures NodesBounded(p, nodes.items)
    ensures Contents(nodes.items) == PathWritten(p, m, Put(leaves, leafIndex, leafValue), leafIndex, p.depth)
  {
    ghost var after := Put(leaves, leafIndex, leafValue);
    var index := leafIndex;
    current := leafValue;
    var level := p.depth;
    ghost var h := 0;
    while level >= 1
      invariant 0 <= level <= p.depth && level + h == p.depth
      invariant index == Ancestor(leafIndex, h)
      invariant current == Subtree(p, after, h, index)
      invariant NodesBounded(p, nodes.items)
      invariant Contents(nodes.items) == PathWritten(p, m, after, leafIndex, h)
    {
      ghost var sibling, written := PathStep(p, m, leaves, leafIndex, leafValue, level, h);
      current := RewriteLevel(p, nodes, level, index, current, cached[level], h, after, written, sibling);
      index := index / 2;
      level := level - 1;
      h := h + 1;
    }
    AncestorBound(leafIndex, p.depth, h);
  }

  lemma PathStep(p: Params, m: map<nat, Hash>, leaves: seq<Hash>, at: nat, leaf: Hash, level: nat, h: nat)
    returns (sibling: Hash, written: map<nat, Hash>)
    requires StoresTree(p, m, leaves) && at <= |leaves| <= Pow2(p.depth) && at < Pow2(p.depth)
    requires 1 <= level && level + h == p.depth
    ensures Ancestor(at, h) < Pow2(level) && Sibling(Ancestor(at, h)) < Pow2(level)
    ensures Ancestor(at, h + 1) == Ancestor(at, h) / 2
    ensures written == PathWritten(p, m, Put(leaves, at, leaf), at, h + 1)
    ensures written == PathWritten(p, m, Put(leaves, at, leaf), at, h)
                       [Offset(p, h, Ancestor(at, h)) := Subtree(p, Put(leaves, at, leaf), h, Ancestor(at, h))]
    ensures sibling == Subtree(p, Put(leaves, at, leaf), h, Sibling(Ancestor(at, h)))
    ensures sibling == ReadOr(written, Offset(p, h, Sibling(Ancestor(at, h))), Default(p, level))
  {
    AncestorBound(at, p.depth, h);
    sibling := SiblingOnPath(p, m, leaves, at, leaf, h);
    written := PathWritten(p, m, Put(leaves, at, leaf), at, h + 1);
  }

  /** One level of the walk: store the current hash, then hash it with its sibling. */
  method RewriteLevel(p: Params, nodes: Vec<Byte>, level: nat, index: nat, current: Hash, default: Hash, ghost h: nat,
                      ghost leaves: seq<Hash>, ghost written: map<nat, Hash>, ghost sibling: Hash)
    returns (parent: Hash)
    requires Sound(p) && AllField(p, leaves) && NodesBounded(p, nodes.items)
    requires level + h == p.depth && index < Pow2(level) && Sibling(index) < Pow2(level)
    requires current == Subtree(p, leaves, h, index) && sibling == Subtree(p, leaves, h, Sibling(index))
    requires written == Contents(nodes.items)[Offset(p, h, index) := current]
    requires sibling == ReadOr(written, Offset(p, h, Sibling(index)), default)
    modifies nodes
    ensures parent == Subtree(p, leaves, h + 1, index / 2)
    ensures NodesBounded(p, nodes.items) && Contents(nodes.items) == written
  {
    WriteNode(p, nodes, level, index, current, h);
    parent := HashWithSibling(p, nodes.items, level, index, current, default, h, leaves, sibling);
  }

  /** A well-formed node map holding only offsets of this tree. */
  ghost predicate NodesBounded(p: Params, nodes: seq<Byte>) {
    WellFormed(nodes) && forall o :: o in Contents(nodes) ==> o < TreeNodes(p)
  }

  /** Writing a node of the tree: neither its offset nor the entry count is truncated. */
  method WriteNode(p: Params, nodes: Vec<Byte>, level: nat, index: nat, hash: Hash, ghost h: nat)
    requires Sound(p) && NodesBounded(p, nodes.items)
    requires level + h == p.depth && index < Pow2(level)
    modifies nodes
    ensures NodesBounded(p, nodes.items) && nodes.items != []
    ensures Contents(nodes.items) == Contents(old(nodes.items))[Offset(p, h, index) := hash]
  {
    OffsetBound(p, h, index);
    RoomForOne(p, nodes.items, Offset(p, h, index));
    var written := WriteSparseNode(nodes, level, index, hash);
  }

  /** One step up a rewrite: the parent's hash, from the node just written and its sibling. */
  method HashWithSibling(p: Params, nodes: seq<Byte>, level: nat, index: nat, current: Hash, default: Hash,
                         ghost h: nat, ghost leaves: seq<Hash>, ghost expected: Hash)
    returns (parent: Hash)
    requires Sound(p) && AllField(p, leaves) && WellFormed(nodes)
    requires level + h == p.depth && Sibling(index) < Pow2(level)
    requires expected == Subtree(p, leaves, h, Sibling(index))
    requires expected == ReadOr(Contents(nodes), Offset(p, h, Sibling(index)), default)
    requires current == Subtree(p, leaves, h, index)
    ensures parent == Subtree(p, leaves, h + 1, index / 2)
  {
    var siblingIndex := Sibling(index);
    OffsetBound(p, h, siblingIndex);
    var sibling := ReadSparseNode(nodes, level, siblingIndex, default);
    parent := HashChildren(p, index, current, sibling.value, h, leaves);
  }

  /** The two-way hash: an even node is the left child. */
  method HashChildren(p: Params, index: nat, current: Hash, sibling: Hash, ghost h: nat, ghost leaves: seq<Hash>)
    returns (parent: Hash)
    requires Sound(p) && AllField(p, leaves)
    requires current == Subtree(p, leaves, h, index) && sibling == Subtree(p, leaves, h, Sibling(index))
    ensures parent == Subtree(p, leaves, h + 1, index / 2)
  {
    ParentHash(p, leaves, h, index);
    if index % 2 == 0 {
      parent := HashPair(p, current, sibling);
    } else {
      parent := HashPair(p, sibling, current);
    }
  }

  /** The u16 count cannot wrap: a map with a free tree offset has fewer entries than the tree has nodes. */
  lemma RoomForOne(p: Params, data: seq<Byte>, offset: nat)
    requires Sound(p) && WellFormed(data) && offset < TreeNodes(p) < U16_SIZE
    requires forall o :: o in Contents(data) ==> o < TreeNodes(p)
    ensures offset in Contents(data) || Count(data) + 1 < U16_SIZE
  {
    if offset !in Contents(data) {
      CountIsSize(data, Count(data));
      var used := Contents(data).Keys + {offset};
      forall o | o in used
        ensures o in Below(TreeNodes(p))
      {
        BelowHas(TreeNodes(p), o);
      }
      SubsetSize(used, Below(TreeNodes(p)));
    }
  }

  ghost function Below(n: nat): (s: set<nat>)
    ensures |s| <= n
  {
    if n == 0 then {} else Below(n - 1) + {n - 1}
  }

  lemma {:induction false} BelowHas(n: nat, o: nat)
    requires o < n
    ensures o in Below(n)
  {
    if o < n - 1 {
      BelowHas(n - 1, o);
    }
  }

  lemma {:induction false} SubsetSize(a: set<nat>, b: set<nat>)
    requires a <= b
    ensures |a| <= |b|
  {
    if a != {} {
      var x :| x in a;
      SubsetSize(a - {x}, b - {x});
    }
  }

  /** Write one leaf, recompute the root and push it into the window. Leaves `next_index` alone. */
  method UpdateLeaf(p: Params, pre: seq<Byte>, leafIndex: nat, leaf: Hash, ghost t: Tree) returns (post: seq<Byte>)
    requires Sound(p) && Represents(p, pre, t) && TreeOk(p, t) && p.isField(leaf)
    requires leafIndex <= |t.leaves| && leafIndex < Pow2(p.depth)
    ensures |post| >= OffsetTreeData(p)
    ensures HeaderHolds(p, post[..OffsetTreeData(p)], |t.leaves|, Root(p, Put(t.leaves, leafIndex, leaf)),
                        [Root(p, t.leaves)] + t.history[..3])
    ensures NodesHold(p, post[OffsetTreeData(p)..], Put(t.leaves, leafIndex, leaf))
  {
    var cached := ExtractCachedNodes(p, pre);
    CachedThroughHeader(p, pre, t);
    var data := new Vec(pre);
    var nodes := data.SplitOff(OffsetTreeData(p));
    var newRoot := ComputeRootAfterUpdate(p, leaf, leafIndex, nodes, cached, t.leaves);
    PushRootHistory(p, data, newRoot, |t.leaves|, Root(p, t.leaves), t.history);
    post := data.items + nodes.items;
    assert post[..OffsetTreeData(p)] == data.items && post[OffsetTreeData(p)..] == nodes.items;
  }

  lemma CachedThroughHeader(p: Params, data: seq<Byte>, t: Tree)
    requires Represents(p, data, t)
    ensures forall l: nat :: l <= p.depth ==> CachedAt(data, l) == Default(p, l)
  {
    forall l: nat | l <= p.depth
      ensures CachedAt(data, l) == Default(p, l)
    {
      var at := OFFSET_CACHED_NODES + 32 * l;
      SliceOfPrefix(data, OffsetTreeData(p), at, at + 32);
      assert CachedAt(data[..OffsetTreeData(p)], l) == Default(p, l);
    }
  }

  /** An empty tree, refused on a shard that already holds data. */
  method InitializeTree(p: Params, pre: seq<Byte>, ghost t: Option<Tree>) returns (r: Outcome<seq<Byte>>)
    requires Sound(p) && (pre == [] <==> t.None?)
    ensures Refines(p, r, TreeApply(p, Initialize, t)) && SameOutcome(OfTree(p, Initialize, t), r)
  {
    TreeEnds(p, Initialize, t);
    if pre != [] {
      return Panic;
    }
    var cached := DefaultHashes(p);
    var data := CreateMainAccountData(p, 0, cached[0], cached);
    assert data[..OffsetTreeData(p)] == data && data[OffsetTreeData(p)..] == [];
    DefaultPastWidth(p, [], p.depth, 0) by {
      NoWidth(p.depth);
    }
    EmptyNodes(p);
    r := Done(data);
  }

  /** The table of defaults, climbed from the leaves: the leaf level is zero and every other level hashes a pair of
      the level below it. */
  method DefaultHashes(p: Params) returns (table: seq<Hash>)
    requires Sound(p)
    ensures IsLadder(p, table)
    ensures forall l: nat :: l <= p.depth ==> table[l] == Default(p, l)
  {
    table := seq(p.depth + 1, _ => ZERO);
    var level := p.depth;
    ghost var h := 0;
    while level > 0
      invariant |table| == p.depth + 1 && 0 <= level && level + h == p.depth
      invariant table[p.depth] == ZERO
      invariant forall l: nat :: level <= l < p.depth ==> table[l] == p.h2(table[l + 1], table[l + 1])
      invariant table[level] == Empty(p, h)
    {
      var child := table[level];
      EmptyIsField(p, h);
      level := level - 1;
      table := table[level := HashPair(p, child, child)];
      h := h + 1;
    }
    forall l: nat | l <= p.depth ensures table[l] == Default(p, l) {
      LadderIsDefault(p, table, l);
    }
  }

  /** What pins a table of defaults, whatever bytes it is written with. */
  ghost predicate IsLadder(p: Params, table: seq<Hash>) {
    && |table| == p.depth + 1 && table[p.depth] == ZERO
    && forall l: nat :: l < p.depth ==> table[l] == p.h2(table[l + 1], table[l + 1])
  }

  /** A pinned table can only be the roots of the all-empty subtrees. */
  lemma {:induction false} LadderIsDefault(p: Params, table: seq<Hash>, l: nat)
    requires IsLadder(p, table) && l <= p.depth
    ensures table[l] == Default(p, l)
    decreases p.depth - l
  {
    if l < p.depth {
      LadderIsDefault(p, table, l + 1);
      assert Default(p, l) == p.h2(Default(p, l + 1), Default(p, l + 1));
    }
  }

  lemma {:induction false} NoWidth(height: nat)
    ensures Width(0, height) == 0
  {
    if height > 0 {
      NoWidth(height - 1);
    }
  }

  lemma EmptyNodes(p: Params)
    ensures NodesHold(p, [], [])
  {
    forall h: nat
      ensures Width(0, h) == 0
    {
      NoWidth(h);
    }
  }

  /** Append `leaf` at `next_index`; the tree names the index. */
  method InsertLeaf(p: Params, pre: seq<Byte>, leaf: Hash, ghost t: Option<Tree>) returns (r: Outcome<seq<Byte>>)
    requires Sound(p)
    requires if HeaderMatches(p, pre) then t.Some? && ShardHolds(p, pre, t) else t.None?
    ensures Refines(p, r, TreeApply(p, Insert(leaf), t)) && SameOutcome(OfTree(p, Insert(leaf), t), r)
  {
    TreeEnds(p, Insert(leaf), t);
    if !HeaderMatches(p, pre) || !p.isField(leaf) {
      return Panic;
    }
    NextIndexIs(p, pre, t.value);
    var next := ReadNextIndex(pre);
    if next >= Pow2(p.depth) {
      return Exit(EXIT_TREE_FULL);
    }
    var post := AppendLeaf(p, pre, next, leaf, t.value);
    TreeApplyOk(p, Insert(leaf), t);
    r := Done(post);
  }

  /** The accepting half of an insert: write the leaf, then advance `next_index`. */
  method AppendLeaf(p: Params, pre: seq<Byte>, next: nat, leaf: Hash, ghost t: Tree) returns (post: seq<Byte>)
    requires Sound(p) && Represents(p, pre, t) && TreeOk(p, t) && p.isField(leaf)
    requires next == |t.leaves| < Pow2(p.depth)
    ensures Represents(p, post, Write(p, t, |t.leaves|, leaf))
  {
    var written := UpdateLeaf(p, pre, next, leaf, t);
    Inserted(p, written, t, leaf);
    var data := new Vec(written);
    data.Overwrite(OFFSET_NEXT_INDEX, ToLE(next + 1, 8));
    post := data.items;
  }

  lemma Inserted(p: Params, post: seq<Byte>, t: Tree, leaf: Hash)
    requires |post| >= OffsetTreeData(p)
    requires HeaderHolds(p, post[..OffsetTreeData(p)], |t.leaves|, Root(p, Put(t.leaves, |t.leaves|, leaf)),
                         [Root(p, t.leaves)] + t.history[..3])
    requires NodesHold(p, post[OffsetTreeData(p)..], Put(t.leaves, |t.leaves|, leaf))
    ensures Represents(p, Splice(post, OFFSET_NEXT_INDEX, ToLE(|t.leaves| + 1, 8)), Write(p, t, |t.leaves|, leaf))
  {
    Renumbered(p, post, |t.leaves|, Root(p, Put(t.leaves, |t.leaves|, leaf)), [Root(p, t.leaves)] + t.history[..3],
               |t.leaves| + 1);
  }

  lemma Renumbered(p: Params, s: seq<Byte>, next: nat, root: Hash, history: History, n: nat)
    requires |s| >= OffsetTreeData(p) && HeaderHolds(p, s[..OffsetTreeData(p)], next, root, history)
    ensures var r := Splice(s, OFFSET_NEXT_INDEX, ToLE(n, 8));
            && HeaderHolds(p, r[..OffsetTreeData(p)], n, root, history)
            && r[OffsetTreeData(p)..] == s[OffsetTreeData(p)..]
  {
    var r, at, le := Splice(s, OFFSET_NEXT_INDEX, ToLE(n, 8)), OFFSET_NEXT_INDEX, ToLE(n, 8);
    var before, after := s[..OffsetTreeData(p)], r[..OffsetTreeData(p)];
    ReadAfterOverwrite(s, at, le, OffsetTreeData(p), |s|);
    assert after == Splice(before, at, le);
    ReadAfterOverwrite(before, at, le, 0, 1);
    assert after[0..1][0] == before[0..1][0];
    ReadAfterOverwrite(before, at, le, OFFSET_NEXT_INDEX, OFFSET_ROOT);
    ReadAfterOverwrite(before, at, le, OFFSET_ROOT, OFFSET_ROOT + 32);
    forall k: nat | k < 4
      ensures HistoryAt(after, k) == history[k]
    {
      ReadAfterOverwrite(before, at, le, OFFSET_ROOT_HISTORY + 32 * k, OFFSET_ROOT_HISTORY + 32 * k + 32);
      assert HistoryAt(before, k) == history[k];
    }
    forall l: nat | l <= p.depth
      ensures CachedAt(after, l) == Default(p, l)
    {
      ReadAfterOverwrite(before, at, le, OFFSET_CACHED_NODES + 32 * l, OFFSET_CACHED_NODES + 32 * l + 32);
      assert CachedAt(before, l) == Default(p, l);
    }
  }

  /** Read node `(level, index)` of an initialized shard. */
  method ReadNode(p: Params, data: seq<Byte>, level: nat, index: nat, default: Hash, ghost h: nat, ghost t: Tree)
    returns (hash: Hash)
    requires Sound(p) && Represents(p, data, t) && TreeOk(p, t)
    requires level + h == p.depth && index < Pow2(level) && default == Default(p, level)
    ensures hash == Subtree(p, t.leaves, h, index)
  {
    NodeReads(p, data[OffsetTreeData(p)..], t.leaves, level, index, h);
    var read := ReadSparseNode(data[OffsetTreeData(p)..], level, index, default);
    hash := read.value;
  }

  lemma NodeReads(p: Params, nodes: seq<Byte>, leaves: seq<Hash>, level: nat, index: nat, h: nat)
    requires Sound(p) && NodesHold(p, nodes, leaves) && |leaves| <= Pow2(p.depth)
    requires level + h == p.depth && index < Pow2(level)
    ensures ReadOr(Contents(nodes), AsU16(NodeOffset(level, index)), Default(p, level)) == Subtree(p, leaves, h, index)
  {
    OffsetBound(p, h, index);
    StoredNode(p, Contents(nodes), leaves, h, index);
  }

  /** Zero the leaf at `index`, which must hold `leaf`. */
  method RemoveLeaf(p: Params, pre: seq<Byte>, index: u64, leaf: Hash, ghost t: Option<Tree>)
    returns (r: Outcome<seq<Byte>>)
    requires Sound(p)
    requires if HeaderMatches(p, pre) then t.Some? && ShardHolds(p, pre, t) else t.None?
    ensures Refines(p, r, TreeApply(p, Remove(index, leaf), t)) && SameOutcome(OfTree(p, Remove(index, leaf), t), r)
  {
    TreeEnds(p, Remove(index, leaf), t);
    if !HeaderMatches(p, pre) {
      return Panic;
    }
    NextIndexIs(p, pre, t.value);
    var next := ReadNextIndex(pre);
    if index >= next {
      return Exit(EXIT_LEAF_MISMATCH);
    }
    var cached := ExtractCachedNodes(p, pre);
    CachedThroughHeader(p, pre, t.value);
    var current := ReadNode(p, pre, p.depth, index, cached[p.depth], 0, t.value);
    if current != leaf {
      return Exit(EXIT_LEAF_MISMATCH);
    }
    var post := UpdateLeaf(p, pre, index, ZERO, t.value);
    TreeApplyOk(p, Remove(index, leaf), t);
    r := Done(post);
  }

  /** Write `leaf` into an emptied slot below `next_index`. */
  method SetLeaf(p: Params, pre: seq<Byte>, index: u64, leaf: Hash, ghost t: Option<Tree>)
    returns (r: Outcome<seq<Byte>>)
    requires Sound(p)
    requires if HeaderMatches(p, pre) then t.Some? && ShardHolds(p, pre, t) else t.None?
    ensures Refines(p, r, TreeApply(p, Set(index, leaf), t)) && SameOutcome(OfTree(p, Set(index, leaf), t), r)
  {
    TreeEnds(p, Set(index, leaf), t);
    if !HeaderMatches(p, pre) || !p.isField(leaf) {
      return Panic;
    }
    NextIndexIs(p, pre, t.value);
    var next := ReadNextIndex(pre);
    if index >= next {
      return Panic;
    }
    var cached := ExtractCachedNodes(p, pre);
    CachedThroughHeader(p, pre, t.value);
    var current := ReadNode(p, pre, p.depth, index, cached[p.depth], 0, t.value);
    if current != ZERO && current != cached[p.depth] {
      return Panic;
    }
    var post := UpdateLeaf(p, pre, index, leaf, t.value);
    TreeApplyOk(p, Set(index, leaf), t);
    r := Done(post);
  }

  /** The merkle program's apply: one effect on the shard's bytes. */
  method Apply(p: Params, ix: MerkleIx, pre: seq<Byte>, ghost t: Option<Tree>) returns (r: Outcome<seq<Byte>>)
    requires Sound(p) && ShardHolds(p, pre, t)
    ensures Refines(p, r, TreeApply(p, ix, t)) && SameOutcome(OfTree(p, ix, t), r)
  {
    if t.Some? {
      assert pre[..OffsetTreeData(p)][OFFSET_DEPTH] == pre[OFFSET_DEPTH];
    }
    match ix {
      case Initialize => r := InitializeTree(p, pre, t);
      case Insert(leaf) => r := InsertLeaf(p, pre, leaf, t);
      case Remove(index, leaf) => r := RemoveLeaf(p, pre, index, leaf, t);
      case Set(index, leaf) => r := SetLeaf(p, pre, index, leaf, t);
    }
  }

  /** A run of instructions on one shard from empty; a failed one leaves the bytes as they were. Whatever was tried, in
      whatever order, the bytes are those of the abstract run. */
  method RunShard(p: Params, ixs: seq<MerkleIx>) returns (data: seq<Byte>)
    requires Sound(p)
    ensures ShardHolds(p, data, RunTree(p, ixs))
    ensures RunTree(p, ixs).Some? ==> ReadsAs(p, data, RunTree(p, ixs).value.leaves)
  {
    data := [];
    for i := 0 to |ixs|
      invariant ShardHolds(p, data, RunTree(p, ixs[..i]))
    {
      assert ixs[..i + 1][..i] == ixs[..i];
      var out := Apply(p, ixs[i], data, RunTree(p, ixs[..i]));
      if out.Done? {
        data := out.value;
      }
    }
    assert ixs[..|ixs|] == ixs;
    if RunTree(p, ixs).Some? {
      ShardReads(p, data, RunTree(p, ixs).value);
    }
  }

  // ---- what follows for the bytes ----

  /** The header root is node (0, 0), and every node read through the map and its cached default is its recursive hash
      over these leaves. */
  ghost predicate ReadsAs(p: Params, data: seq<Byte>, leaves: seq<Hash>) {
    && |data| >= OffsetTreeData(p) && WellFormed(data[OffsetTreeData(p)..])
    && Read32(data, OFFSET_ROOT) == Root(p, leaves)
    && forall level: nat, index: nat :: level <= p.depth && index < Pow2(level) ==>
         NodeReadsAs(p, data, leaves, level, index)
  }

  ghost predicate NodeReadsAs(p: Params, data: seq<Byte>, leaves: seq<Hash>, level: nat, index: nat)
    requires |data| >= OffsetTreeData(p) && WellFormed(data[OffsetTreeData(p)..]) && level <= p.depth
  {
    ReadOr(Contents(data[OffsetTreeData(p)..]), AsU16(NodeOffset(level, index)), CachedAt(data, level))
    == Subtree(p, leaves, p.depth - level, index)
  }

  lemma ShardReads(p: Params, data: seq<Byte>, t: Tree)
    requires Sound(p) && Represents(p, data, t) && TreeOk(p, t)
    ensures ReadsAs(p, data, t.leaves)
  {
    SliceOfPrefix(data, OffsetTreeData(p), OFFSET_ROOT, OFFSET_ROOT + 32);
    CachedThroughHeader(p, data, t);
    forall level: nat, index: nat | level <= p.depth && index < Pow2(level)
      ensures NodeReadsAs(p, data, t.leaves, level, index)
    {
      NodeReads(p, data[OffsetTreeData(p)..], t.leaves, level, index, p.depth - level);
    }
  }


  /** What a shard's bytes say slot `i` holds. */
  ghost function SlotRead(p: Params, data: seq<Byte>, i: nat): Hash
    requires |data| >= OffsetTreeData(p) && WellFormed(data[OffsetTreeData(p)..])
  {
    ReadOr(Contents(data[OffsetTreeData(p)..]), AsU16(NodeOffset(p.depth, i)), CachedAt(data, p.depth))
  }

  lemma SlotReads(p: Params, data: seq<Byte>, t: Tree, i: nat)
    requires Sound(p) && Represents(p, data, t) && TreeOk(p, t) && i < Pow2(p.depth)
    ensures SlotRead(p, data, i) == LeafAt(t.leaves, i)
  {
    ShardReads(p, data, t);
    assert NodeReadsAs(p, data, t.leaves, p.depth, i);
  }

  /** On the bytes, over any sequence of instructions: a slot read as non-zero still reads the same, unless a removal
      naming that very leaf was committed on it. */
  lemma OccupiedBytes(p: Params, past: seq<MerkleIx>, more: seq<MerkleIx>, before: seq<Byte>, after: seq<Byte>, i: nat)
    requires Sound(p) && i < Pow2(p.depth)
    requires ShardHolds(p, before, RunTree(p, past)) && ShardHolds(p, after, RunTree(p, past + more))
    requires RunTree(p, past).Some? && !AllZero(SlotRead(p, before, i))
    ensures RunTree(p, past + more).Some?
    ensures SlotRead(p, after, i) == SlotRead(p, before, i) || RemovedDuring(p, past, more, i, SlotRead(p, before, i))
  {
    SlotReads(p, before, RunTree(p, past).value, i);
    OccupiedSlot(p, past, more, i);
    SlotReads(p, after, RunTree(p, past + more).value, i);
  }

  /** The shard is a function of the slots and the window: one tree has one byte string. */
  lemma OneTreeOneShard(p: Params, a: seq<Byte>, b: seq<Byte>, t: Tree)
    requires Represents(p, a, t) && Represents(p, b, t)
    ensures a == b
  {
    var n := OffsetTreeData(p);
    SameHeader(p, a[..n], b[..n], |t.leaves|, Root(p, t.leaves), t.history);
    SameStored(p, Contents(a[n..]), Contents(b[n..]), t.leaves);
    CanonicalBytes(a[n..], b[n..]);
    assert a == a[..n] + a[n..] && b == b[..n] + b[n..];
  }

  lemma SameStored(p: Params, a: map<nat, Hash>, b: map<nat, Hash>, leaves: seq<Hash>)
    requires StoresTree(p, a, leaves) && StoresTree(p, b, leaves)
    ensures a == b
  {
    forall o | o in a
      ensures o in b && b[o] == a[o]
    {
      var h: nat, i: nat :| IsNode(p, |leaves|, o, h, i);
      assert Holds(p, a, leaves, h, i) && Holds(p, b, leaves, h, i);
    }
    forall o | o in b
      ensures o in a
    {
      var h: nat, i: nat :| IsNode(p, |leaves|, o, h, i);
      assert Holds(p, a, leaves, h, i);
    }
  }

  lemma SameHeader(p: Params, a: seq<Byte>, b: seq<Byte>, next: nat, root: Hash, history: History)
    requires HeaderHolds(p, a, next, root, history) && HeaderHolds(p, b, next, root, history)
    ensures a == b
  {
    forall i: nat | i < |a|
      ensures a[i] == b[i]
    {
      if i == 0 {
      } else if i < OFFSET_ROOT {
        assert a[OFFSET_NEXT_INDEX..OFFSET_ROOT][i - 1] == b[OFFSET_NEXT_INDEX..OFFSET_ROOT][i - 1];
      } else if i < OFFSET_ROOT_HISTORY {
        assert Read32(a, OFFSET_ROOT)[i - OFFSET_ROOT] == Read32(b, OFFSET_ROOT)[i - OFFSET_ROOT];
      } else if i < OFFSET_CACHED_NODES {
        var k := (i - OFFSET_ROOT_HISTORY) / 32;
        assert HistoryAt(a, k) == HistoryAt(b, k);
        assert HistoryAt(a, k)[(i - OFFSET_ROOT_HISTORY) % 32] == HistoryAt(b, k)[(i - OFFSET_ROOT_HISTORY) % 32];
      } else {
        var l := (i - OFFSET_CACHED_NODES) / 32;
        assert CachedAt(a, l) == CachedAt(b, l);
        assert CachedAt(a, l)[(i - OFFSET_CACHED_NODES) % 32] == CachedAt(b, l)[(i - OFFSET_CACHED_NODES) % 32];
      }
    }
  }

  /** Bytes of a shard whose every node is stored. */
  function TreeShardMaxBytes(p: Params): nat {
    OffsetTreeData(p) + 2 + TreeNodes(p) * ENTRY_LEN
  }

  /** The exact size of every shard, and when it is the largest one. */
  lemma ShardSize(p: Params, data: seq<Byte>, t: Tree)
    requires Represents(p, data, t) && TreeOk(p, t)
    ensures |data| == OffsetTreeData(p) +
                      if t.leaves == [] then 0 else 2 + ENTRY_LEN * NodesUpTo(|t.leaves|, p.depth)
    ensures |data| <= TreeShardMaxBytes(p)
    ensures |data| == TreeShardMaxBytes(p) <==> |t.leaves| == Pow2(p.depth)
    ensures p.depth <= 10 ==> |data| <= 100 * 1024
  {
    var nodes := data[OffsetTreeData(p)..];
    if t.leaves != [] {
      StoredSize(p, Contents(nodes), t.leaves);
      CountIsSize(nodes, Count(nodes));
    }
    NodesBound(p.depth, |t.leaves|, p.depth);
    if p.depth <= 10 {
      Pow2Monotone(p.depth, 10);
      assert Pow2(5) == 32;
      assert Pow2(10) == 1024;
    }
  }
}
