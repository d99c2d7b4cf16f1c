/** Index hints age well: one read long ago still hits until the very leaf it points at is removed. */
module Hints {
  import opened Bytes
  import opened Commits
  import opened Executor
  import opened Hashing
  import opened Honest
  import opened Ledger
  import opened Registration
  import opened Registry
  import opened Removal
  import opened Runs
  import opened Slots
  import opened Views

  predicate IsRemoval(ix: Instruction) {
    ix.Slash? || ix.Erase?
  }

  // ---- one slot over a run ----

  /** The action does not commit a removal at index `i` of tree `t`. */
  ghost predicate SparesSlot(p: Params, w: World, a: Action, t: Hash, i: nat) {
    Acts(p, w, a, t) && IsRemoval(a.tx.ix) ==> a.tx.ix.leafIndex != i
  }

  ghost predicate SlotSpared(p: Params, w: World, actions: seq<Action>, t: Hash, i: nat) {
    forall k: nat :: k < |actions| ==> SparesSlot(p, Run(p, w, actions[..k]), actions[k], t, i)
  }

  lemma SparedPrefix(p: Params, w: World, actions: seq<Action>, t: Hash, i: nat)
    requires actions != []
    ensures SlotSpared(p, w, actions, t, i) <==>
            && SlotSpared(p, w, actions[..|actions| - 1], t, i)
            && SparesSlot(p, Run(p, w, actions[..|actions| - 1]), actions[|actions| - 1], t, i)
  {
    var n := |actions| - 1;
    assert forall k: nat :: k < n ==> actions[..n][..k] == actions[..k] && actions[..n][k] == actions[k];
    if SlotSpared(p, w, actions, t, i) {
      assert SparesSlot(p, Run(p, w, actions[..n]), actions[n], t, i);
      forall k: nat | k < n ensures SparesSlot(p, Run(p, w, actions[..n][..k]), actions[..n][k], t, i) {
        assert SparesSlot(p, Run(p, w, actions[..k]), actions[k], t, i);
      }
    }
    if SlotSpared(p, w, actions[..n], t, i) && SparesSlot(p, Run(p, w, actions[..n]), actions[n], t, i) {
      forall k: nat | k < |actions| ensures SparesSlot(p, Run(p, w, actions[..k]), actions[k], t, i) {
        if k < n {
          assert SparesSlot(p, Run(p, w, actions[..n][..k]), actions[..n][k], t, i);
        }
      }
    }
  }

  lemma SlotOverInstruction(p: Params, v: View, clock: u64, purse: nat, treasury: AccountId, ix: Instruction, i: nat)
    requires Enabled(p, v, clock, purse, treasury, ix) && i < |LeavesOf(v)|
    ensures var after := LeavesOf(After(p, v, clock, purse, treasury, ix));
            i < |after| && after[i] == if IsRemoval(ix) && ix.leafIndex == i then ZERO else LeavesOf(v)[i]
  {
  }

  lemma SlotOverStep(p: Params, w: World, a: Action, t: Hash, i: nat)
    requires WellTyped(w) && i < |LeavesOf(ViewOf(w, t))|
    ensures var after := LeavesOf(ViewOf(Step(p, w, a), t));
            i < |after| && after[i] == if SparesSlot(p, w, a, t, i) then LeavesOf(ViewOf(w, t))[i] else ZERO
  {
    StepView(p, w, a, t);
    if Acts(p, w, a, t) {
      SlotOverInstruction(p, ViewOf(w, t), w.clock, Balance(w, Payer(a.tx.metas)), Treasury(a.tx.metas), a.tx.ix, i);
    }
  }

  /** A used slot keeps its leaf over a run exactly when no removal at its index was committed; otherwise it is zero. */
  lemma {:induction false} SlotExactly(p: Params, w: World, actions: seq<Action>, t: Hash, i: nat)
    requires WellTyped(w) && i < |LeavesOf(ViewOf(w, t))|
    ensures var later := LeavesOf(ViewOf(Run(p, w, actions), t));
            && i < |later|
            && later[i] == if SlotSpared(p, w, actions, t, i) then LeavesOf(ViewOf(w, t))[i] else ZERO
  {
    if actions != [] {
      var n := |actions| - 1;
      SlotExactly(p, w, actions[..n], t, i);
      RunProgress(p, w, actions[..n], t);
      SparedPrefix(p, w, actions, t, i);
      SlotOverStep(p, Run(p, w, actions[..n]), actions[n], t, i);
    }
  }

  // ---- one membership over a run ----

  /** The action does not commit a removal of this leaf value, whoever it belongs to. */
  ghost predicate SparesLeaf(p: Params, w: World, a: Action, t: Hash, leaf: Hash) {
    Acts(p, w, a, t) && IsRemoval(a.tx.ix) ==> LeafOf(p, a.tx.ix.idCommitment, a.tx.ix.rateLimit) != leaf
  }

  ghost predicate LeafSpared(p: Params, w: World, actions: seq<Action>, t: Hash, leaf: Hash) {
    forall k: nat :: k < |actions| ==> SparesLeaf(p, Run(p, w, actions[..k]), actions[k], t, leaf)
  }

  /** Membership `c` is live with this rate limit, and slot `i` holds its leaf. */
  ghost predicate Pointed(p: Params, v: View, c: Hash, rate: u64, i: nat) {
    c in v.members && v.members[c].rateLimit == rate && Hits(p, v.tree, i, LeafOf(p, c, rate))
  }

  lemma PointedOverInstruction(p: Params, v: View, clock: u64, purse: nat, treasury: AccountId, ix: Instruction,
                               c: Hash, rate: u64, i: nat)
    requires Enabled(p, v, clock, purse, treasury, ix) && Pointed(p, v, c, rate, i)
    requires IsRemoval(ix) ==> LeafOf(p, ix.idCommitment, ix.rateLimit) != LeafOf(p, c, rate)
    ensures Pointed(p, After(p, v, clock, purse, treasury, ix), c, rate, i)
  {
    SlotOverInstruction(p, v, clock, purse, treasury, ix, i);
  }

  lemma PointedOverStep(p: Params, w: World, a: Action, t: Hash, c: Hash, rate: u64, i: nat)
    requires WellTyped(w) && Pointed(p, ViewOf(w, t), c, rate, i) && SparesLeaf(p, w, a, t, LeafOf(p, c, rate))
    ensures Pointed(p, ViewOf(Step(p, w, a), t), c, rate, i)
  {
    StepView(p, w, a, t);
    if Acts(p, w, a, t) {
      PointedOverInstruction(p, ViewOf(w, t), w.clock, Balance(w, Payer(a.tx.metas)), Treasury(a.tx.metas), a.tx.ix,
                             c, rate, i);
    }
  }

  lemma {:induction false} StillPointed(p: Params, w: World, actions: seq<Action>, t: Hash, c: Hash, rate: u64, i: nat)
    requires WellTyped(w) && Pointed(p, ViewOf(w, t), c, rate, i)
    requires LeafSpared(p, w, actions, t, LeafOf(p, c, rate))
    ensures WellTyped(Run(p, w, actions)) && Pointed(p, ViewOf(Run(p, w, actions), t), c, rate, i)
  {
    if actions != [] {
      var n := |actions| - 1;
      forall k: nat | k < n ensures SparesLeaf(p, Run(p, w, actions[..n][..k]), actions[..n][k], t, LeafOf(p, c, rate)) {
        assert actions[..n][..k] == actions[..k];
      }
      StillPointed(p, w, actions[..n], t, c, rate, i);
      PointedOverStep(p, Run(p, w, actions[..n]), actions[n], t, c, rate, i);
      RunProgress(p, w, actions, t);
    }
  }

  // ---- transactions built long ago ----

  /** A hint read at `w` still hits at any later state, as long as no removal of that leaf value was committed. */
  lemma HintStillHits(p: Params, w: World, actions: seq<Action>, t: Hash, c: Hash)
    requires Sound(p) && Reachable(p, w) && c in ViewOf(w, t).members
    requires LeafSpared(p, w, actions, t, LeafIn(p, ViewOf(w, t), c))
    ensures Pointed(p, ViewOf(Run(p, w, actions), t), c, ViewOf(w, t).members[c].rateLimit, Hint(p, ViewOf(w, t), c))
    ensures Reachable(p, Run(p, w, actions))
  {
    ReachableOk(p, w);
    ReachableLater(p, w, actions);
    assert RegistryOk(p, t, ViewOf(w, t));
    HintHits(p, t, ViewOf(w, t), c);
    StillPointed(p, w, actions, t, c, ViewOf(w, t).members[c].rateLimit, Hint(p, ViewOf(w, t), c));
  }

  /** What the later state still has of what the claims say. */
  ghost predicate StillLive(p: Params, seen: World, w: World, t: Hash, c: Hash) {
    var v0, v := ViewOf(seen, t), ViewOf(w, t);
    && c in v0.members && v0.config.Some? && v.config.Some? && SameTerms(v0.config.value, v.config.value)
    && v0.config.value.treeId == t && v0.config.value.merkleProgram == MerkleProgram && p.isField(c)
    && Pointed(p, v, c, v0.members[c].rateLimit, Hint(p, v0, c)) && v.members[c].idCommitment == c
  }

  lemma LaterIsStillLive(p: Params, w: World, actions: seq<Action>, t: Hash, c: Hash)
    requires Sound(p) && Reachable(p, w) && c in ViewOf(w, t).members
    requires LeafSpared(p, w, actions, t, LeafIn(p, ViewOf(w, t), c))
    ensures WellTyped(Run(p, w, actions)) && RegistryOk(p, t, ViewOf(Run(p, w, actions), t))
    ensures StillLive(p, w, Run(p, w, actions), t, c)
  {
    HintStillHits(p, w, actions, t, c);
    ReachableOk(p, w);
    ReachableOk(p, Run(p, w, actions));
    RunProgress(p, w, actions, t);
    var v0, v := ViewOf(w, t), ViewOf(Run(p, w, actions), t);
    assert RegistryOk(p, t, v0) && RegistryOk(p, t, v);
    assert MemberOk(p, v.config.value, c, v.members[c]);
  }

  lemma OldSlashAllowed(p: Params, seen: World, w: World, t: Hash, c: Hash, secret: Hash)
    requires StillLive(p, seen, w, t, c) && p.isField(secret) && p.h1(secret) == c
    ensures Allowed(p, seen, w, t, ToSlash(c, secret))
  {
  }

  lemma OldEraseAllowed(p: Params, seen: World, w: World, t: Hash, c: Hash)
    requires StillLive(p, seen, w, t, c)
    ensures var m := ViewOf(w, t).members[c];
            Allowed(p, seen, w, t, ToErase(c)) <==>
            ClockAccepts(w.clock, seen.clock) && IsExpired(m.graceStart, SecsToMillis(m.graceSec), seen.clock)
  {
  }

  /** A slash built in any reachable state commits at any later state, at the index read back then, as long as no removal
      of that leaf value was committed in between: not of this membership, nor of another one with the same leaf. */
  lemma OldSlashCommits(p: Params, w: World, actions: seq<Action>, t: Hash, c: Hash, secret: Hash)
    requires Sound(p) && Reachable(p, w) && c in ViewOf(w, t).members
    requires p.isField(secret) && p.h1(secret) == c
    requires LeafSpared(p, w, actions, t, LeafIn(p, ViewOf(w, t), c))
    ensures ViewOf(w, t).config.Some? && c in ViewOf(Run(p, w, actions), t).members
    ensures var later := Run(p, w, actions);
            var out := Execute(p, later, TxOf(p, w, t, ToSlash(c, secret)));
            out.Done? && Ended(p, later, out.value, t, c, Hint(p, ViewOf(w, t), c))
  {
    var later := Run(p, w, actions);
    LaterIsStillLive(p, w, actions, t, c);
    OldSlashAllowed(p, w, later, t, c, secret);
    HonestCommits(p, w, later, t, ToSlash(c, secret));
    DepartedIsEnded(p, later, Execute(p, later, TxOf(p, w, t, ToSlash(c, secret))).value, t, c, Hint(p, ViewOf(w, t), c),
                    later.balances);
  }

  /** And an erase built then commits exactly while its clock claim is fresh enough and shows the membership expired. */
  lemma OldEraseCommitsExactly(p: Params, w: World, actions: seq<Action>, t: Hash, c: Hash)
    requires Sound(p) && Reachable(p, w) && c in ViewOf(w, t).members
    requires LeafSpared(p, w, actions, t, LeafIn(p, ViewOf(w, t), c))
    ensures ViewOf(w, t).config.Some? && c in ViewOf(Run(p, w, actions), t).members
    ensures var later := Run(p, w, actions);
            var out, m := Execute(p, later, TxOf(p, w, t, ToErase(c))), ViewOf(later, t).members[c];
            if ClockAccepts(later.clock, w.clock) && IsExpired(m.graceStart, SecsToMillis(m.graceSec), w.clock)
            then out.Done? && Ended(p, later, out.value, t, c, Hint(p, ViewOf(w, t), c))
            else out.IsFailure()
  {
    var later := Run(p, w, actions);
    LaterIsStillLive(p, w, actions, t, c);
    OldEraseAllowed(p, w, later, t, c);
    HonestCommits(p, w, later, t, ToErase(c));
    var out := Execute(p, later, TxOf(p, w, t, ToErase(c)));
    if out.Done? {
      DepartedIsEnded(p, later, out.value, t, c, Hint(p, ViewOf(w, t), c), later.balances);
    }
  }
}
