/** A registry's root window over whole runs: its tree is the run of its own tree requests. */
module Window {
  import opened Bytes
  import opened Commits
  import opened Executor
  import opened Hashing
  import opened Merkle
  import opened Outcomes
  import opened Registration
  import opened Registry
  import opened Runs
  import opened Slots
  import opened Tree
  import opened TreeLaws
  import opened Views

  /** The tree request an action commits on tree `t`, if any. */
  ghost function TreeOp(p: Params, w: World, a: Action, t: Hash): seq<MerkleIx> {
    if Acts(p, w, a, t) && TreeRequest(p, a.tx.ix).Some? then [TreeRequest(p, a.tx.ix).value.1] else []
  }

  ghost function TreeOps(p: Params, w: World, actions: seq<Action>, t: Hash): seq<MerkleIx> {
    if actions == [] then []
    else
      var shorter := actions[..|actions| - 1];
      TreeOps(p, w, shorter, t) + TreeOp(p, Run(p, w, shorter), actions[|actions| - 1], t)
  }

  lemma EnabledTree(p: Params, v: View, clock: u64, purse: nat, treasury: AccountId, ix: Instruction)
    requires Enabled(p, v, clock, purse, treasury, ix)
    ensures var after := After(p, v, clock, purse, treasury, ix);
            match TreeRequest(p, ix)
            case None => after.tree == v.tree
            case Some(request) => after.tree.Some? && TreeApply(p, request.1, v.tree) == Done(after.tree.value)
  {
  }

  lemma RunTreeOneMore(p: Params, ixs: seq<MerkleIx>, ix: MerkleIx)
    requires TreeApply(p, ix, RunTree(p, ixs)).Done?
    ensures RunTree(p, ixs + [ix]) == Some(TreeApply(p, ix, RunTree(p, ixs)).value)
  {
    assert (ixs + [ix])[..|ixs + [ix]| - 1] == ixs;
  }

  /** The tree of a registry is what its committed requests made of an empty shard; nobody else ever wrote it. */
  lemma {:induction false} TreeIsItsOps(p: Params, w: World, actions: seq<Action>, t: Hash, past: seq<MerkleIx>)
    requires WellTyped(w) && ViewOf(w, t).tree == RunTree(p, past)
    ensures ViewOf(Run(p, w, actions), t).tree == RunTree(p, past + TreeOps(p, w, actions, t))
  {
    if actions == [] {
      assert past + [] == past;
    } else {
      var shorter, a := actions[..|actions| - 1], actions[|actions| - 1];
      var mid, ops := Run(p, w, shorter), past + TreeOps(p, w, shorter, t);
      TreeIsItsOps(p, w, shorter, t, past);
      RunProgress(p, w, shorter, t);
      OpStep(p, mid, a, t, ops);
      assert past + TreeOps(p, w, actions, t) == ops + TreeOp(p, mid, a, t);
    }
  }

  lemma OpStep(p: Params, w: World, a: Action, t: Hash, ops: seq<MerkleIx>)
    requires WellTyped(w) && ViewOf(w, t).tree == RunTree(p, ops)
    ensures ViewOf(Step(p, w, a), t).tree == RunTree(p, ops + TreeOp(p, w, a, t))
  {
    StepView(p, w, a, t);
    if Acts(p, w, a, t) {
      EnabledTree(p, ViewOf(w, t), w.clock, Balance(w, Payer(a.tx.metas)), Treasury(a.tx.metas), a.tx.ix);
    }
    if TreeOp(p, w, a, t) == [] {
      assert ops + [] == ops;
    } else {
      RunTreeOneMore(p, ops, TreeOp(p, w, a, t)[0]);
    }
  }

  lemma {:induction false} RootsAtMost(p: Params, ixs: seq<MerkleIx>, more: seq<MerkleIx>)
    ensures |Roots(p, ixs + more)| <= |Roots(p, ixs)| + |more|
  {
    if more == [] {
      assert ixs + more == ixs;
    } else {
      RootsAtMost(p, ixs, more[..|more| - 1]);
      assert (ixs + more)[..|ixs + more| - 1] == ixs + more[..|more| - 1];
    }
  }

  /** A root a host reads in a reachable state is still on its list after any further run with at most four committed
      writes to that tree, whatever else happens on the chain. */
  lemma RegistryRootStaysListed(p: Params, w: World, actions: seq<Action>, more: seq<Action>, t: Hash)
    requires Genesis(w) && ViewOf(Run(p, w, actions), t).tree.Some?
    requires Root(p, ViewOf(Run(p, w, actions), t).tree.value.leaves) != ZERO
    requires |TreeOps(p, Run(p, w, actions), more, t)| <= 4
    ensures var now := Run(p, w, actions);
            var later := Run(p, now, more);
            && ViewOf(later, t).tree.Some?
            && Root(p, ViewOf(now, t).tree.value.leaves) in RootList(p, ViewOf(later, t).tree.value)
  {
    var now := Run(p, w, actions);
    var past, recent := TreeOps(p, w, actions, t), TreeOps(p, now, more, t);
    TreeIsItsOps(p, w, actions, t, []);
    assert [] + past == past;
    RunProgress(p, w, actions, t);
    TreeIsItsOps(p, now, more, t, past);
    RootsAtMost(p, past, recent);
    RootStaysListed(p, past, recent);
  }

  /** In every reachable state the host's list for a registry is its current root, then the non-zero roots of the four
      writes before it, newest first, and nothing else. */
  lemma RegistryRootList(p: Params, w: World, actions: seq<Action>, t: Hash) returns (at: seq<nat>)
    requires Genesis(w) && ViewOf(Run(p, w, actions), t).tree.Some?
    ensures var tree, roots := ViewOf(Run(p, w, actions), t).tree.value, Roots(p, TreeOps(p, w, actions, t));
            && roots != [] && RootList(p, tree) != []
            && RootList(p, tree)[0] == Root(p, tree.leaves) == roots[0]
            && Picks(RootList(p, tree)[1..], Recent(roots), at)
  {
    TreeIsItsOps(p, w, actions, t, []);
    assert [] + TreeOps(p, w, actions, t) == TreeOps(p, w, actions, t);
    at := RootListExact(p, TreeOps(p, w, actions, t));
  }
}
