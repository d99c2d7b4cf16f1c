/** The merkle program's instructions on the abstract tree: its slots in order and its root window. */
module Tree {
  import opened Bytes
  import opened Hashing
  import opened Merkle
  import opened Outcomes

  type History = h: seq<Hash> | |h| == 4 witness [ZERO, ZERO, ZERO, ZERO]

  /** `leaves` are the slots below `next_index`; `history` the four roots before the current one, newest first. */
  datatype Tree = Tree(leaves: seq<Hash>, history: History)

  datatype MerkleIx =
    | Initialize
    | Insert(leaf: Hash)
    | Remove(index: u64, leaf: Hash)
    | Set(index: u64, leaf: Hash)

  ghost predicate TreeOk(p: Params, t: Tree) {
    && |t.leaves| <= Pow2(p.depth)
    && AllField(p, t.leaves)
  }

  const EMPTY_TREE := Tree([], [ZERO, ZERO, ZERO, ZERO])

  /** Write one slot and move the current root into the window. */
  function Write(p: Params, t: Tree, i: nat, leaf: Hash): Tree
    requires i <= |t.leaves|
  {
    Tree(Put(t.leaves, i, leaf), [Root(p, t.leaves)] + t.history[..3])
  }

  /** What the merkle program makes of one instruction; `None` is an empty shard. */
  function TreeApply(p: Params, ix: MerkleIx, t: Option<Tree>): Outcome<Tree> {
    match ix
    case Initialize =>
      if t.Some? then Panic else Done(EMPTY_TREE)
    case Insert(leaf) =>
      if t.None? || !p.isField(leaf) then Panic
      else if |t.value.leaves| >= Pow2(p.depth) then Exit(EXIT_TREE_FULL)
      else Done(Write(p, t.value, |t.value.leaves|, leaf))
    case Remove(index, leaf) =>
      if t.None? then Panic
      else if index >= |t.value.leaves| || t.value.leaves[index] != leaf then Exit(EXIT_LEAF_MISMATCH)
      else Done(Write(p, t.value, index, ZERO))
    case Set(index, leaf) =>
      if t.None? || !p.isField(leaf) || index >= |t.value.leaves| || t.value.leaves[index] != ZERO then Panic
      else Done(Write(p, t.value, index, leaf))
  }

  lemma WriteOk(p: Params, t: Tree, i: nat, leaf: Hash)
    requires TreeOk(p, t) && i <= |t.leaves| && i < Pow2(p.depth) && p.isField(leaf)
    ensures TreeOk(p, Write(p, t, i, leaf))
  {
    PutField(p, t.leaves, i, leaf);
  }

  /** No instruction can leave a malformed tree behind. */
  lemma TreeApplyOk(p: Params, ix: MerkleIx, t: Option<Tree>)
    requires Sound(p)
    requires t.Some? ==> TreeOk(p, t.value)
    ensures TreeApply(p, ix, t).Done? ==> TreeOk(p, TreeApply(p, ix, t).value)
  {
    match ix
    case Initialize =>
    case Insert(leaf) =>
      if TreeApply(p, ix, t).Done? {
        WriteOk(p, t.value, |t.value.leaves|, leaf);
      }
    case Remove(index, leaf) =>
      if TreeApply(p, ix, t).Done? {
        WriteOk(p, t.value, index, ZERO);
      }
    case Set(index, leaf) =>
      if TreeApply(p, ix, t).Done? {
        WriteOk(p, t.value, index, leaf);
      }
  }

  /** Removing what was just inserted restores the root, although the slot stays used. */
  lemma InsertThenRemove(p: Params, t: Tree, leaf: Hash)
    requires |t.leaves| < Pow2(p.depth) <= U64_MAX && p.isField(leaf)
    ensures var inserted := TreeApply(p, Insert(leaf), Some(t));
            && inserted.Done?
            && var removed := TreeApply(p, Remove(|t.leaves|, leaf), Some(inserted.value));
            && removed.Done?
            && Root(p, removed.value.leaves) == Root(p, t.leaves)
            && |removed.value.leaves| == |t.leaves| + 1
  {
    var inserted := Put(t.leaves, |t.leaves|, leaf);
    var removed := Put(inserted, |t.leaves|, ZERO);
    SameSlotsSameHash(p, removed, t.leaves, p.depth, 0);
  }

  /** Setting a removed slot back to its leaf restores the root it had before the removal. */
  lemma RemoveThenSet(p: Params, t: Tree, i: u64)
    requires i < |t.leaves| && p.isField(t.leaves[i])
    ensures var removed := TreeApply(p, Remove(i, t.leaves[i]), Some(t));
            && removed.Done?
            && var reset := TreeApply(p, Set(i, t.leaves[i]), Some(removed.value));
            && reset.Done?
            && reset.value.leaves == t.leaves
  {
    assert t.leaves[i := ZERO][i := t.leaves[i]] == t.leaves;
  }

  // ---- runs ----

  /** The shard after a run of instructions; a failed one changes nothing. */
  function RunTree(p: Params, ixs: seq<MerkleIx>): Option<Tree> {
    if ixs == [] then None
    else
      var before := RunTree(p, ixs[..|ixs| - 1]);
      var out := TreeApply(p, ixs[|ixs| - 1], before);
      if out.Done? then Some(out.value) else before
  }

  /** Every root the tree has had along the run, newest first. */
  function Roots(p: Params, ixs: seq<MerkleIx>): seq<Hash> {
    if ixs == [] then []
    else
      var out := TreeApply(p, ixs[|ixs| - 1], RunTree(p, ixs[..|ixs| - 1]));
      (if out.Done? then [Root(p, out.value.leaves)] else []) + Roots(p, ixs[..|ixs| - 1])
  }

  lemma {:induction false} RunTreeOk(p: Params, ixs: seq<MerkleIx>)
    requires Sound(p)
    ensures RunTree(p, ixs).Some? ==> TreeOk(p, RunTree(p, ixs).value)
  {
    if ixs != [] {
      RunTreeOk(p, ixs[..|ixs| - 1]);
      TreeApplyOk(p, ixs[|ixs| - 1], RunTree(p, ixs[..|ixs| - 1]));
    }
  }

  /** Slot `i` holds the root from `i + 1` writes ago, or zero when there were fewer. */
  ghost predicate IsWindow(history: History, roots: seq<Hash>) {
    forall i: nat :: i < 4 ==> history[i] == if i + 1 < |roots| then roots[i + 1] else ZERO
  }

  /** The roots so far describe the tree: the current root first, then its window. */
  ghost predicate RootsDescribe(p: Params, t: Option<Tree>, roots: seq<Hash>) {
    match t
    case None => roots == []
    case Some(tree) => roots != [] && roots[0] == Root(p, tree.leaves) && IsWindow(tree.history, roots)
  }

  lemma WindowShift(history: History, roots: seq<Hash>, newRoot: Hash)
    requires roots != [] && IsWindow(history, roots)
    ensures IsWindow([roots[0]] + history[..3], [newRoot] + roots)
  {
  }

  lemma WindowStep(p: Params, ix: MerkleIx, before: Option<Tree>, roots: seq<Hash>)
    requires RootsDescribe(p, before, roots) && TreeApply(p, ix, before).Done?
    ensures var t := TreeApply(p, ix, before).value;
            RootsDescribe(p, Some(t), [Root(p, t.leaves)] + roots)
  {
    var t := TreeApply(p, ix, before).value;
    if before.Some? {
      assert t.history == [Root(p, before.value.leaves)] + before.value.history[..3];
      WindowShift(before.value.history, roots, Root(p, t.leaves));
    }
  }

  /** The window is the run's own past. */
  lemma {:induction false} RootWindow(p: Params, ixs: seq<MerkleIx>)
    ensures RootsDescribe(p, RunTree(p, ixs), Roots(p, ixs))
  {
    if ixs != [] {
      var shorter, ix := ixs[..|ixs| - 1], ixs[|ixs| - 1];
      RootWindow(p, shorter);
      if TreeApply(p, ix, RunTree(p, shorter)).Done? {
        WindowStep(p, ix, RunTree(p, shorter), Roots(p, shorter));
      }
    }
  }

  lemma {:induction false} RootsGrow(p: Params, ixs: seq<MerkleIx>, more: seq<MerkleIx>)
    ensures |Roots(p, ixs)| <= |Roots(p, ixs + more)|
    ensures Roots(p, ixs + more)[|Roots(p, ixs + more)| - |Roots(p, ixs)|..] == Roots(p, ixs)
  {
    if more == [] {
      assert ixs + more == ixs;
    } else {
      var shorter := more[..|more| - 1];
      RootsGrow(p, ixs, shorter);
      assert (ixs + more)[..|ixs + more| - 1] == ixs + shorter;
    }
  }

  /** The roots a host accepts: the current one, then the window without its zero entries. */
  function RootList(p: Params, t: Tree): seq<Hash> {
    [Root(p, t.leaves)] + NonZero(t.history)
  }

  function NonZero(s: seq<Hash>): (r: seq<Hash>)
    ensures forall h :: h in r <==> h in s && h != ZERO
  {
    if s == [] then [] else (if s[0] == ZERO then [] else [s[0]]) + NonZero(s[1..])
  }

  /** A root read at some moment is still on the host's list through the next four writes. */
  lemma RootStaysListed(p: Params, ixs: seq<MerkleIx>, more: seq<MerkleIx>)
    requires RunTree(p, ixs).Some? && Root(p, RunTree(p, ixs).value.leaves) != ZERO
    requires |Roots(p, ixs + more)| <= |Roots(p, ixs)| + 4
    ensures RunTree(p, ixs + more).Some?
    ensures Root(p, RunTree(p, ixs).value.leaves) in RootList(p, RunTree(p, ixs + more).value)
  {
    RootWindow(p, ixs);
    RootWindow(p, ixs + more);
    RootsGrow(p, ixs, more);
    var roots, t := Roots(p, ixs + more), RunTree(p, ixs + more).value;
    var age := |roots| - |Roots(p, ixs)|;
    assert roots[age] == roots[age..][0] == Root(p, RunTree(p, ixs).value.leaves);
    if age > 0 {
      assert t.history[age - 1] == roots[age];
    }
  }
}
