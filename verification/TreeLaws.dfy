/** The tree's instructions in plain terms: exactly when each one commits and with which code it fails, what it does to
    every slot, how an occupied slot can ever change, and what the host's root list is. */
module TreeLaws {
  import opened Bytes
  import opened Hashing
  import opened Merkle
  import opened Outcomes
  import opened Tree

  ghost predicate AllZero(h: Hash) {
    forall i: nat :: i < 32 ==> h[i] == 0
  }

  lemma ZeroIsAllZero(h: Hash)
    ensures AllZero(h) <==> h == ZERO
  {
    forall i: nat | i < 32 ensures ZERO[i] == 0 {
      ZeroBytes(32, i);
    }
    if AllZero(h) {
      assert forall i: nat :: i < 32 ==> h[i] == ZERO[i];
    }
  }

  // ---- one instruction ----

  /** How each instruction ends; `None` is an empty shard. */
  ghost function OfTree(p: Params, ix: MerkleIx, t: Option<Tree>): Outcome<()> {
    match ix
    case Initialize => if t.Some? then Panic else Done(())
    case Insert(leaf) =>
      if t.None? || !p.isField(leaf) then Panic
      else if |t.value.leaves| >= Pow2(p.depth) then Exit(20)
      else Done(())
    case Remove(index, leaf) =>
      if t.None? then Panic
      else if index >= |t.value.leaves| || t.value.leaves[index] != leaf then Exit(19)
      else Done(())
    case Set(index, leaf) =>
      if t.None? || !p.isField(leaf) || index >= |t.value.leaves| || !AllZero(t.value.leaves[index]) then Panic
      else Done(())
  }

  lemma TreeEnds(p: Params, ix: MerkleIx, t: Option<Tree>)
    ensures SameOutcome(OfTree(p, ix, t), TreeApply(p, ix, t))
  {
    if ix.Set? && t.Some? && ix.index < |t.value.leaves| {
      ZeroIsAllZero(t.value.leaves[ix.index]);
    }
  }

  /** A set fills exactly a used, emptied slot, with a field element. */
  lemma SetExactly(p: Params, t: Option<Tree>, index: u64, leaf: Hash)
    ensures TreeApply(p, Set(index, leaf), t).Done? <==>
            && t.Some? && p.isField(leaf) && index < |t.value.leaves|
            && forall i: nat :: i < 32 ==> t.value.leaves[index][i] == 0
  {
    TreeEnds(p, Set(index, leaf), t);
  }

  /** Slot `i` becomes `leaf`, and no other slot changes. */
  ghost predicate OnlySlot(before: seq<Hash>, after: seq<Hash>, i: nat, leaf: Hash) {
    && i < |before| == |after| && after[i] == leaf
    && forall j: nat :: j < |before| && j != i ==> after[j] == before[j]
  }

  /** The current root enters the window and the oldest one leaves it. */
  ghost predicate Windowed(p: Params, before: Tree, after: Tree) {
    && after.history[0] == Root(p, before.leaves)
    && after.history[1] == before.history[0] && after.history[2] == before.history[1]
    && after.history[3] == before.history[2]
  }

  /** What a committed instruction leaves. */
  lemma TreeLeaves(p: Params, ix: MerkleIx, t: Option<Tree>)
    requires TreeApply(p, ix, t).Done?
    ensures var after := TreeApply(p, ix, t).value;
            match ix
            case Initialize => after.leaves == [] && forall i: nat :: i < 4 ==> AllZero(after.history[i])
            case Insert(leaf) => t.Some? && after.leaves == t.value.leaves + [leaf] && Windowed(p, t.value, after)
            case Remove(index, leaf) =>
              && t.Some? && Windowed(p, t.value, after)
              && exists z :: AllZero(z) && OnlySlot(t.value.leaves, after.leaves, index, z)
            case Set(index, leaf) =>
              t.Some? && Windowed(p, t.value, after) && OnlySlot(t.value.leaves, after.leaves, index, leaf)
  {
    ZeroIsAllZero(ZERO);
    if ix.Remove? {
      assert OnlySlot(t.value.leaves, TreeApply(p, ix, t).value.leaves, ix.index, ZERO);
    }
  }

  // ---- one slot over a run ----

  /** A committed instruction changes a slot only by inserting into the next free one, by removing the leaf it holds,
      or by setting it while it is empty. */
  lemma SlotLaw(p: Params, ix: MerkleIx, t: Tree, j: nat)
    requires TreeApply(p, ix, Some(t)).Done?
    ensures var before, after := LeafAt(t.leaves, j), LeafAt(TreeApply(p, ix, Some(t)).value.leaves, j);
            || after == before
            || (ix == Insert(after) && j == |t.leaves|)
            || (ix.Remove? && ix.index == j && ix.leaf == before && AllZero(after))
            || (ix.Set? && ix.index == j && ix.leaf == after && AllZero(before))
  {
    ZeroIsAllZero(ZERO);
    TreeEnds(p, ix, Some(t));
    match ix
    case Initialize =>
    case Insert(leaf) => PutSlots(t.leaves, |t.leaves|, leaf);
    case Remove(index, _) => PutSlots(t.leaves, index, ZERO);
    case Set(index, leaf) => PutSlots(t.leaves, index, leaf);
  }

  /** After `past`, this is a committed removal of `leaf` from slot `i`, where it sits. */
  ghost predicate RemovesAt(p: Params, past: seq<MerkleIx>, ix: MerkleIx, i: nat, leaf: Hash) {
    && ix.Remove? && ix.index == i && ix.leaf == leaf && TreeApply(p, ix, RunTree(p, past)).Done?
    && RunTree(p, past).Some? && LeafAt(RunTree(p, past).value.leaves, i) == leaf
  }

  ghost predicate RemovedDuring(p: Params, past: seq<MerkleIx>, more: seq<MerkleIx>, i: nat, leaf: Hash) {
    exists k: nat :: k < |more| && RemovesAt(p, past + more[..k], more[k], i, leaf)
  }

  lemma RemovedLonger(p: Params, past: seq<MerkleIx>, more: seq<MerkleIx>, i: nat, leaf: Hash)
    requires more != [] && RemovedDuring(p, past, more[..|more| - 1], i, leaf)
    ensures RemovedDuring(p, past, more, i, leaf)
  {
    var shorter := more[..|more| - 1];
    var k: nat :| k < |shorter| && RemovesAt(p, past + shorter[..k], shorter[k], i, leaf);
    assert shorter[..k] == more[..k];
  }

  /** Over any sequence of instructions an occupied slot keeps its leaf, unless a removal that names that very leaf is
      committed on it. */
  lemma {:induction false} OccupiedSlot(p: Params, past: seq<MerkleIx>, more: seq<MerkleIx>, i: nat)
    requires RunTree(p, past).Some? && !AllZero(LeafAt(RunTree(p, past).value.leaves, i))
    ensures RunTree(p, past + more).Some?
    ensures var leaf := LeafAt(RunTree(p, past).value.leaves, i);
            LeafAt(RunTree(p, past + more).value.leaves, i) == leaf || RemovedDuring(p, past, more, i, leaf)
  {
    if more == [] {
      assert past + more == past;
    } else {
      var n := |more| - 1;
      assert (past + more)[..|past + more| - 1] == past + more[..n];
      var leaf := LeafAt(RunTree(p, past).value.leaves, i);
      OccupiedSlot(p, past, more[..n], i);
      if RemovedDuring(p, past, more[..n], i, leaf) {
        RemovedLonger(p, past, more, i, leaf);
      } else {
        var t := RunTree(p, past + more[..n]).value;
        if TreeApply(p, more[n], Some(t)).Done? {
          OccupiedStep(p, past + more[..n], more[n], i);
          if LeafAt(TreeApply(p, more[n], Some(t)).value.leaves, i) != leaf {
            assert RemovesAt(p, past + more[..n], more[n], i, leaf);
          }
        }
      }
    }
  }

  lemma OccupiedStep(p: Params, past: seq<MerkleIx>, ix: MerkleIx, i: nat)
    requires RunTree(p, past).Some? && TreeApply(p, ix, RunTree(p, past)).Done?
    requires !AllZero(LeafAt(RunTree(p, past).value.leaves, i))
    ensures var leaf := LeafAt(RunTree(p, past).value.leaves, i);
            LeafAt(TreeApply(p, ix, RunTree(p, past)).value.leaves, i) != leaf ==> RemovesAt(p, past, ix, i, leaf)
  {
    ZeroIsAllZero(ZERO);
    SlotLaw(p, ix, RunTree(p, past).value, i);
  }

  // ---- the host's root list ----

  /** `list` is `from` without its zero entries, in order: entry `k` is `from[at[k]]`. */
  ghost predicate Picks(list: seq<Hash>, from: seq<Hash>, at: seq<nat>) {
    && |list| == |at| && Rising(at)
    && (forall k: nat :: k < |at| ==> at[k] < |from| && list[k] == from[at[k]] && !AllZero(list[k]))
    && (forall i: nat :: i < |from| && !AllZero(from[i]) ==> i in at)
  }

  predicate Rising(at: seq<nat>) {
    forall k: nat, l: nat :: k < l < |at| ==> at[k] < at[l]
  }

  lemma RisingShifted(at: seq<nat>)
    requires Rising(at)
    ensures Rising(Shifted(at)) && Rising([0] + Shifted(at))
  {
  }

  lemma {:induction false} NonZeroPicks(from: seq<Hash>) returns (at: seq<nat>)
    ensures Picks(NonZero(from), from, at)
  {
    if from == [] {
      at := [];
    } else {
      var rest := NonZeroPicks(from[1..]);
      ZeroIsAllZero(from[0]);
      if from[0] == ZERO {
        at := Shifted(rest);
        assert NonZero(from) == NonZero(from[1..]);
        SkippedZero(NonZero(from[1..]), from, rest);
      } else {
        at := [0] + Shifted(rest);
        assert NonZero(from) == [from[0]] + NonZero(from[1..]);
        KeptFirst(NonZero(from[1..]), from, rest);
      }
    }
  }

  lemma SkippedZero(list: seq<Hash>, from: seq<Hash>, at: seq<nat>)
    requires from != [] && AllZero(from[0]) && Picks(list, from[1..], at)
    ensures Picks(list, from, Shifted(at))
  {
    RisingShifted(at);
    forall i: nat | i < |from| && !AllZero(from[i]) ensures i in Shifted(at) {
      assert from[1..][i - 1] == from[i];
      ShiftedHas(at, i - 1);
    }
  }

  lemma KeptFirst(list: seq<Hash>, from: seq<Hash>, at: seq<nat>)
    requires from != [] && !AllZero(from[0]) && Picks(list, from[1..], at)
    ensures Picks([from[0]] + list, from, [0] + Shifted(at))
  {
    RisingShifted(at);
    var picked, longer := [0] + Shifted(at), [from[0]] + list;
    forall k: nat | k < |picked| ensures picked[k] < |from| && longer[k] == from[picked[k]] && !AllZero(longer[k]) {
      if k > 0 {
        assert picked[k] == at[k - 1] + 1 && longer[k] == list[k - 1];
      }
    }
    forall i: nat | i < |from| && !AllZero(from[i]) ensures i in picked {
      assert i > 0 ==> from[1..][i - 1] == from[i];
      FirstOrLater(from, at, i);
    }
  }

  lemma FirstOrLater(from: seq<Hash>, at: seq<nat>, i: nat)
    requires i < |from| && (i > 0 ==> i - 1 in at || AllZero(from[i]))
    ensures !AllZero(from[i]) ==> i in [0] + Shifted(at)
  {
    if i == 0 {
      assert ([0] + Shifted(at))[0] == 0;
    } else if i - 1 in at {
      ShiftedHas(at, i - 1);
      assert i in Shifted(at);
    }
  }

  function Shifted(at: seq<nat>): (r: seq<nat>)
    ensures |r| == |at| && forall k: nat :: k < |at| ==> r[k] == at[k] + 1
  {
    seq(|at|, k requires 0 <= k < |at| => at[k] + 1)
  }

  lemma ShiftedHas(at: seq<nat>, i: nat)
    requires i in at
    ensures i + 1 in Shifted(at)
  {
    var k: nat :| k < |at| && at[k] == i;
    assert Shifted(at)[k] == i + 1;
  }

  /** The roots a tree has had, newest first, as far back as its window reaches. */
  function Recent(roots: seq<Hash>): (r: seq<Hash>)
    requires roots != []
    ensures |r| <= 4
  {
    if |roots| <= 5 then roots[1..] else roots[1..5]
  }

  /** After any run the host's list is the current root, then the roots of the four writes before it that are not
      zero, newest first, and nothing else. */
  lemma RootListExact(p: Params, ixs: seq<MerkleIx>) returns (at: seq<nat>)
    requires RunTree(p, ixs).Some?
    ensures Roots(p, ixs) != []
    ensures var list, roots := RootList(p, RunTree(p, ixs).value), Roots(p, ixs);
            && list != [] && list[0] == Root(p, RunTree(p, ixs).value.leaves) == roots[0]
            && Picks(list[1..], Recent(roots), at)
  {
    RootWindow(p, ixs);
    var t, roots := RunTree(p, ixs).value, Roots(p, ixs);
    var recent := Recent(roots);
    ZeroIsAllZero(ZERO);
    at := NonZeroPicks(t.history);
    assert forall i: nat :: i < 4 ==> t.history[i] == if i < |recent| then recent[i] else ZERO;
    assert RootList(p, t)[1..] == NonZero(t.history);
  }

  /** Every root on the list is the current one or one the tree had at most four writes ago. */
  lemma ListedRootsAreRecent(p: Params, ixs: seq<MerkleIx>, root: Hash)
    requires RunTree(p, ixs).Some? && root in RootList(p, RunTree(p, ixs).value)
    ensures exists i: nat :: i < |Roots(p, ixs)| && i <= 4 && Roots(p, ixs)[i] == root
  {
    var at := RootListExact(p, ixs);
    var list, roots := RootList(p, RunTree(p, ixs).value), Roots(p, ixs);
    if root == list[0] {
      assert roots[0] == root;
    } else {
      assert list == [list[0]] + list[1..];
      var i := PickedFrom(list[1..], Recent(roots), at, root);
      RecentAt(roots, i);
    }
  }

  lemma RecentAt(roots: seq<Hash>, i: nat)
    requires roots != [] && i < |Recent(roots)|
    ensures i + 1 < |roots| && i + 1 <= 4 && Recent(roots)[i] == roots[i + 1]
  {
  }

  lemma PickedFrom(list: seq<Hash>, from: seq<Hash>, at: seq<nat>, h: Hash) returns (i: nat)
    requires Picks(list, from, at) && h in list
    ensures i < |from| && from[i] == h
  {
    var k: nat :| k < |list| && list[k] == h;
    i := at[k];
  }
}
