/** Runs of arbitrary transactions by arbitrary senders: what every step keeps and what whole runs cannot undo. */
module Runs {
  import opened Bytes
  import opened Commits
  import opened Executor
  import opened Hashing
  import opened Ledger
  import opened Outcomes
  import opened Registration
  import opened Registry
  import opened Tree
  import opened Views

  /** Every guard of a registration transaction: signatures, accounts, and the registry's own. */
  ghost predicate Ready(p: Params, w: World, metas: seq<AccountMeta>, ix: Instruction) {
    && Signable(RegistrationTx(metas, ix)) && AccountsRight(metas, ix)
    && Enabled(p, ViewOf(w, ix.treeId), w.clock, Balance(w, Payer(metas)), Treasury(metas), ix)
  }

  ghost function NextView(p: Params, w: World, metas: seq<AccountMeta>, ix: Instruction): View
    requires Ready(p, w, metas, ix)
  {
    After(p, ViewOf(w, ix.treeId), w.clock, Balance(w, Payer(metas)), Treasury(metas), ix)
  }

  /** A registration transaction commits exactly when it is ready, and then changes its own registry to
      `NextView`, no other registry, no clock, and no balance but the payer's and the treasury's. */
  lemma CommitsExactly(p: Params, w: World, metas: seq<AccountMeta>, ix: Instruction)
    requires WellTyped(w)
    ensures var out := Execute(p, w, RegistrationTx(metas, ix));
            && (out.Done? <==> Ready(p, w, metas, ix))
            && (out.Done? ==> Becomes(w, out.value, ix.treeId, NextView(p, w, metas, ix), Settled(w, metas, ix)))
  {
    if Signable(RegistrationTx(metas, ix)) {
      TransactionExact(p, w, metas, ix);
      ContractExact(p, ViewOf(w, ix.treeId), w.clock, Balance(w, Payer(metas)), Treasury(metas), ix);
    }
  }

  /** A direct call of the merkle program cannot reach any registry's tree: nobody holds a PDA's key. */
  lemma DirectMerkleCall(p: Params, w: World, metas: seq<AccountMeta>, mix: MerkleIx, t: Hash)
    requires WellTyped(w)
    ensures var out := Execute(p, w, MerkleTx(metas, mix));
            out.Done? ==> && ViewOf(out.value, t) == ViewOf(w, t) && WellTyped(out.value)
                          && out.value.clock == w.clock && out.value.balances == w.balances
  {
    var out := Execute(p, w, MerkleTx(metas, mix));
    if out.Done? {
      var shard := ReadShard(w, SelectorOf(metas[0]));
      var tree := TreeApply(p, mix, if shard.None? then None else Some(shard.value.tree)).value;
      WriteElsewhere(w, metas[0].account, tree, t);
    }
  }

  /** The action commits a registration instruction on tree `t`. */
  ghost predicate Acts(p: Params, w: World, a: Action, t: Hash) {
    a.Submit? && a.tx.RegistrationTx? && a.tx.ix.treeId == t && Execute(p, w, a.tx).Done?
  }

  /** Isolation: one action changes the registry it commits an instruction on, and no other. */
  lemma StepView(p: Params, w: World, a: Action, t: Hash)
    requires WellTyped(w)
    ensures WellTyped(Step(p, w, a))
    ensures Acts(p, w, a, t) ==> && Ready(p, w, a.tx.metas, a.tx.ix)
                                 && ViewOf(Step(p, w, a), t) == NextView(p, w, a.tx.metas, a.tx.ix)
    ensures !Acts(p, w, a, t) ==> ViewOf(Step(p, w, a), t) == ViewOf(w, t)
  {
    match a
    case Tick(timestamp) => SameShardsSameView(w, Step(p, w, a), t);
    case Submit(RegistrationTx(metas, ix)) => CommitsExactly(p, w, metas, ix);
    case Submit(MerkleTx(metas, mix)) => DirectMerkleCall(p, w, metas, mix, t);
    case Submit(TransferTx(_, _, _)) => SameShardsSameView(w, Step(p, w, a), t);
  }

  // ---- the invariant of all reachable states ----

  ghost predicate WorldOk(p: Params, w: World) {
    WellTyped(w) && forall t :: RegistryOk(p, t, ViewOf(w, t))
  }

  lemma GenesisOk(p: Params, w: World)
    requires Genesis(w)
    ensures WorldOk(p, w)
  {
    forall t ensures RegistryOk(p, t, ViewOf(w, t)) {
      assert Members(w, t) == map[];
    }
  }

  lemma StepKeeps(p: Params, w: World, a: Action)
    requires Sound(p) && WorldOk(p, w)
    ensures WorldOk(p, Step(p, w, a))
  {
    StepView(p, w, a, ZERO);
    forall t ensures RegistryOk(p, t, ViewOf(Step(p, w, a), t)) {
      StepView(p, w, a, t);
      if Acts(p, w, a, t) {
        EnabledKeeps(p, t, ViewOf(w, t), w.clock, Balance(w, Payer(a.tx.metas)), Treasury(a.tx.metas), a.tx.ix);
      }
    }
  }

  lemma {:induction false} RunKeeps(p: Params, w: World, actions: seq<Action>)
    requires Sound(p) && WorldOk(p, w)
    ensures WorldOk(p, Run(p, w, actions))
  {
    if actions != [] {
      RunKeeps(p, w, actions[..|actions| - 1]);
      StepKeeps(p, Run(p, w, actions[..|actions| - 1]), actions[|actions| - 1]);
    }
  }

  /** Reached from an empty chain by some run. */
  ghost predicate Reachable(p: Params, w: World) {
    exists w0, actions :: Genesis(w0) && Run(p, w0, actions) == w
  }

  /** In every reachable state, of every tree: the counters are the number of live memberships and the exact sum of
      their rate limits, under the cap; every non-zero leaf value occurs as often as memberships hold it. */
  lemma ReachableOk(p: Params, w: World)
    requires Sound(p) && Reachable(p, w)
    ensures WorldOk(p, w)
  {
    var w0, actions :| Genesis(w0) && Run(p, w0, actions) == w;
    GenesisOk(p, w0);
    RunKeeps(p, w0, actions);
  }

  lemma ReachableLater(p: Params, w: World, actions: seq<Action>)
    requires Reachable(p, w)
    ensures Reachable(p, Run(p, w, actions))
  {
    var w0, past :| Genesis(w0) && Run(p, w0, past) == w;
    RunConcat(p, w0, past, actions);
    assert Run(p, w0, past + actions) == Run(p, w, actions);
  }

  lemma ReachableStep(p: Params, w: World, a: Action)
    requires Reachable(p, w)
    ensures Reachable(p, Step(p, w, a))
  {
    ReachableLater(p, w, [a]);
    assert [a][..0] == [];
    assert Run(p, w, [a]) == Step(p, w, a);
  }
}
