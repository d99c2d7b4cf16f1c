/** What runs cannot undo: a registry's terms never change, its tree never shrinks, and no index is used twice. */
module Slots {
  import opened Bytes
  import opened Commits
  import opened Executor
  import opened Hashing
  import opened Ledger
  import opened Merkle
  import opened Outcomes
  import opened Registration
  import opened Registry
  import opened Runs
  import opened Views

  /** Everything in a config but the two counters. */
  predicate SameTerms(c1: ConfigState, c2: ConfigState) {
    c2.(totalRegistrations := c1.totalRegistrations, currentTotalRateLimit := c1.currentTotalRateLimit) == c1
  }

  /** Each slot keeps its leaf or is zeroed, for good. */
  ghost predicate SlotsKept(before: seq<Hash>, after: seq<Hash>) {
    && |before| <= |after|
    && forall i: nat :: i < |before| ==> after[i] == before[i] || after[i] == ZERO
  }

  /** What `v` becomes later in a run. */
  ghost predicate Progress(v: View, later: View) {
    && (v.config.Some? ==> later.config.Some? && SameTerms(v.config.value, later.config.value))
    && (v.tree.Some? ==> later.tree.Some? && SlotsKept(v.tree.value.leaves, later.tree.value.leaves))
  }

  lemma ProgressChains(v1: View, v2: View, v3: View)
    requires Progress(v1, v2) && Progress(v2, v3)
    ensures Progress(v1, v3)
  {
  }

  lemma EnabledProgress(p: Params, v: View, clock: u64, purse: nat, treasury: AccountId, ix: Instruction)
    requires Enabled(p, v, clock, purse, treasury, ix)
    ensures Progress(v, After(p, v, clock, purse, treasury, ix))
  {
  }

  /** Along any run a registry keeps its terms, `next_index` only grows, and a slot is never given to a second leaf. */
  lemma {:induction false} RunProgress(p: Params, w: World, actions: seq<Action>, t: Hash)
    requires WellTyped(w)
    ensures WellTyped(Run(p, w, actions))
    ensures Progress(ViewOf(w, t), ViewOf(Run(p, w, actions), t))
  {
    if actions != [] {
      var shorter, a := actions[..|actions| - 1], actions[|actions| - 1];
      RunProgress(p, w, shorter, t);
      var mid := Run(p, w, shorter);
      StepView(p, mid, a, t);
      if Acts(p, mid, a, t) {
        EnabledProgress(p, ViewOf(mid, t), mid.clock, Balance(mid, Payer(a.tx.metas)), Treasury(a.tx.metas), a.tx.ix);
      }
      ProgressChains(ViewOf(w, t), ViewOf(mid, t), ViewOf(Step(p, mid, a), t));
    }
  }

  // ---- where a leaf comes from ----

  function LeavesOf(v: View): seq<Hash> {
    if v.tree.Some? then v.tree.value.leaves else []
  }

  /** After `prefix` the run commits a registration of `leaf` on tree `t`, and it gets index `i`. */
  ghost predicate RegistersAt(p: Params, w: World, prefix: seq<Action>, a: Action, t: Hash, i: nat, leaf: Hash) {
    var mid := Run(p, w, prefix);
    && Acts(p, mid, a, t) && a.tx.ix.Register?
    && leaf == LeafOf(p, a.tx.ix.idCommitment, a.tx.ix.rateLimit)
    && i == |LeavesOf(ViewOf(mid, t))|
  }

  ghost predicate RegisteredDuring(p: Params, w: World, actions: seq<Action>, t: Hash, i: nat, leaf: Hash) {
    exists k: nat :: k < |actions| && RegistersAt(p, w, actions[..k], actions[k], t, i, leaf)
  }

  lemma SamePrefix<T>(s: seq<T>, k: nat)
    requires k + 1 < |s|
    ensures s[..|s| - 1][..k] == s[..k] && s[..|s| - 1][k] == s[k]
  {
  }

  lemma RegisteredLonger(p: Params, w: World, actions: seq<Action>, t: Hash, i: nat, leaf: Hash)
    requires actions != [] && RegisteredDuring(p, w, actions[..|actions| - 1], t, i, leaf)
    ensures RegisteredDuring(p, w, actions, t, i, leaf)
  {
    var shorter := actions[..|actions| - 1];
    var k: nat :| k < |shorter| && RegistersAt(p, w, shorter[..k], shorter[k], t, i, leaf);
    SamePrefix(actions, k);
  }

  lemma NewLeaf(p: Params, v: View, clock: u64, purse: nat, treasury: AccountId, ix: Instruction, i: nat)
    requires Enabled(p, v, clock, purse, treasury, ix)
    requires var after := LeavesOf(After(p, v, clock, purse, treasury, ix)); i < |after| && after[i] != ZERO
    ensures var leaf := LeavesOf(After(p, v, clock, purse, treasury, ix))[i];
            || (i < |LeavesOf(v)| && LeavesOf(v)[i] == leaf)
            || (ix.Register? && i == |LeavesOf(v)| && leaf == LeafOf(p, ix.idCommitment, ix.rateLimit))
  {
  }

  /** A leaf found after a run was there before it, or a registration of it was committed during it. */
  lemma {:induction false} LeafHasOrigin(p: Params, w: World, actions: seq<Action>, t: Hash, i: nat)
    requires WellTyped(w)
    requires var later := LeavesOf(ViewOf(Run(p, w, actions), t)); i < |later| && later[i] != ZERO
    ensures var leaf := LeavesOf(ViewOf(Run(p, w, actions), t))[i];
            || (i < |LeavesOf(ViewOf(w, t))| && LeavesOf(ViewOf(w, t))[i] == leaf)
            || RegisteredDuring(p, w, actions, t, i, leaf)
  {
    if actions != [] {
      var n := |actions| - 1;
      var shorter, a := actions[..n], actions[n];
      RunProgress(p, w, shorter, t);
      var mid := Run(p, w, shorter);
      var leaf := LeavesOf(ViewOf(Run(p, w, actions), t))[i];
      StepView(p, mid, a, t);
      if Acts(p, mid, a, t) {
        NewLeaf(p, ViewOf(mid, t), mid.clock, Balance(mid, Payer(a.tx.metas)), Treasury(a.tx.metas), a.tx.ix, i);
      }
      if i < |LeavesOf(ViewOf(mid, t))| && LeavesOf(ViewOf(mid, t))[i] == leaf {
        LeafHasOrigin(p, w, shorter, t, i);
        if RegisteredDuring(p, w, shorter, t, i, leaf) {
          RegisteredLonger(p, w, actions, t, i, leaf);
        }
      } else {
        assert RegistersAt(p, w, actions[..n], actions[n], t, i, leaf);
      }
    }
  }

  /** The host's rule for "my registration landed": if the newest index of a leaf is past the one seen before, then a
      registration of that very leaf was committed in between, at that index. */
  lemma NewerIndexMeansRegistered(p: Params, w: World, actions: seq<Action>, t: Hash, leaf: Hash)
    requires WellTyped(w) && leaf != ZERO
    requires var before := FindLeaf(LeavesOf(ViewOf(w, t)), leaf);
             var after := FindLeaf(LeavesOf(ViewOf(Run(p, w, actions), t)), leaf);
             after.Some? && (before.Some? ==> before.value < after.value)
    ensures var i := FindLeaf(LeavesOf(ViewOf(Run(p, w, actions), t)), leaf).value;
            && |LeavesOf(ViewOf(w, t))| <= i
            && RegisteredDuring(p, w, actions, t, i, leaf)
  {
    var later := LeavesOf(ViewOf(Run(p, w, actions), t));
    var i := FindLeaf(later, leaf).value;
    RunProgress(p, w, actions, t);
    LeafHasOrigin(p, w, actions, t, i);
    assert i >= |LeavesOf(ViewOf(w, t))|;
  }

  // ---- the tree's size is its history ----

  /** How many registrations on tree `t` the run commits. */
  ghost function Joins(p: Params, w: World, actions: seq<Action>, t: Hash): nat {
    if actions == [] then 0
    else
      var shorter, a := actions[..|actions| - 1], actions[|actions| - 1];
      Joins(p, w, shorter, t) + if Acts(p, Run(p, w, shorter), a, t) && a.tx.ix.Register? then 1 else 0
  }

  lemma EnabledLength(p: Params, v: View, clock: u64, purse: nat, treasury: AccountId, ix: Instruction)
    requires Enabled(p, v, clock, purse, treasury, ix)
    ensures |LeavesOf(After(p, v, clock, purse, treasury, ix))| == |LeavesOf(v)| + if ix.Register? then 1 else 0
  {
  }

  /** `next_index` counts the registrations ever committed, so the depth bounds a registry's lifetime registrations and
      not its concurrent members. */
  lemma {:induction false} LifetimeRegistrations(p: Params, w: World, actions: seq<Action>, t: Hash)
    requires Sound(p) && WorldOk(p, w)
    ensures |LeavesOf(ViewOf(Run(p, w, actions), t))| == |LeavesOf(ViewOf(w, t))| + Joins(p, w, actions, t) <= Pow2(p.depth)
  {
    RunKeeps(p, w, actions);
    assert RegistryOk(p, t, ViewOf(Run(p, w, actions), t));
    if actions != [] {
      var shorter, a := actions[..|actions| - 1], actions[|actions| - 1];
      var mid := Run(p, w, shorter);
      LifetimeRegistrations(p, w, shorter, t);
      RunKeeps(p, w, shorter);
      StepView(p, mid, a, t);
      if Acts(p, mid, a, t) {
        EnabledLength(p, ViewOf(mid, t), mid.clock, Balance(mid, Payer(a.tx.metas)), Treasury(a.tx.metas), a.tx.ix);
      }
    }
  }

  // ---- where the terms come from ----

  /** The config holds every argument this Initialize named. */
  predicate AsNamed(c: ConfigState, ix: Instruction) {
    && ix.Initialize?
    && c.merkleProgram == ix.merkleProgram && c.treeId == ix.treeId
    && c.pricePerUnit == ix.pricePerUnit && c.treasury == ix.treasury && c.maxTotalRateLimit == ix.maxTotalRateLimit
    && c.activeSec == ix.activeSec && c.graceSec == ix.graceSec
  }

  /** During the run an Initialize commits that names these terms. */
  ghost predicate NamedDuring(p: Params, w: World, actions: seq<Action>, t: Hash, c: ConfigState) {
    exists k: nat :: k < |actions| && Acts(p, Run(p, w, actions[..k]), actions[k], t) && AsNamed(c, actions[k].tx.ix)
  }

  lemma EnabledTerms(p: Params, v: View, clock: u64, purse: nat, treasury: AccountId, ix: Instruction)
    requires Enabled(p, v, clock, purse, treasury, ix) && v.config.None?
    requires After(p, v, clock, purse, treasury, ix).config.Some?
    ensures AsNamed(After(p, v, clock, purse, treasury, ix).config.value, ix)
  {
  }

  /** The terms of a registry are, to the end of any run, those of the one Initialize that set it up. */
  lemma {:induction false} TermsHaveOrigin(p: Params, w: World, actions: seq<Action>, t: Hash)
    requires WellTyped(w) && ViewOf(w, t).config.None? && ViewOf(Run(p, w, actions), t).config.Some?
    ensures NamedDuring(p, w, actions, t, ViewOf(Run(p, w, actions), t).config.value)
  {
    if actions != [] {
      var n := |actions| - 1;
      var mid, a, c := Run(p, w, actions[..n]), actions[n], ViewOf(Run(p, w, actions), t).config.value;
      RunProgress(p, w, actions[..n], t);
      StepView(p, mid, a, t);
      if ViewOf(mid, t).config.Some? {
        TermsHaveOrigin(p, w, actions[..n], t);
        NamedLonger(p, w, actions, t, ViewOf(mid, t).config.value, c);
      } else {
        EnabledTerms(p, ViewOf(mid, t), mid.clock, Balance(mid, Payer(a.tx.metas)), Treasury(a.tx.metas), a.tx.ix);
        assert Acts(p, Run(p, w, actions[..n]), actions[n], t) && AsNamed(c, actions[n].tx.ix);
      }
    }
  }

  lemma NamedLonger(p: Params, w: World, actions: seq<Action>, t: Hash, before: ConfigState, after: ConfigState)
    requires WellTyped(w) && actions != [] && NamedDuring(p, w, actions[..|actions| - 1], t, before)
    requires ViewOf(Run(p, w, actions[..|actions| - 1]), t).config == Some(before)
    requires ViewOf(Run(p, w, actions), t).config == Some(after)
    ensures NamedDuring(p, w, actions, t, after)
  {
    var n := |actions| - 1;
    var shorter := actions[..n];
    var k: nat :| k < n && Acts(p, Run(p, w, shorter[..k]), shorter[k], t) && AsNamed(before, shorter[k].tx.ix);
    assert shorter[..k] == actions[..k] && shorter[k] == actions[k];
    StepTerms(p, w, actions, t);
  }

  lemma StepTerms(p: Params, w: World, actions: seq<Action>, t: Hash)
    requires WellTyped(w) && actions != []
    ensures Progress(ViewOf(Run(p, w, actions[..|actions| - 1]), t), ViewOf(Run(p, w, actions), t))
  {
    var mid, a := Run(p, w, actions[..|actions| - 1]), actions[|actions| - 1];
    RunProgress(p, w, actions[..|actions| - 1], t);
    StepView(p, mid, a, t);
    if Acts(p, mid, a, t) {
      EnabledProgress(p, ViewOf(mid, t), mid.clock, Balance(mid, Payer(a.tx.metas)), Treasury(a.tx.metas), a.tx.ix);
    }
  }
}
