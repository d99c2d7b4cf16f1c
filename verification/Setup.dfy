/** From an unused tree id to the first member: a registry can be set up and joined. */
module Setup {
  import opened Bytes
  import opened Executor
  import opened Hashing
  import opened Honest
  import opened Ledger
  import opened Merkle
  import opened Outcomes
  import opened Registration
  import opened Registry
  import opened Runs
  import opened Tree
  import opened Views

  /** Write the config, then initialize the tree. */
  function SetupRun(ix: Instruction): seq<Action>
    requires ix.Initialize?
  {
    var config, main := Unsigned(ConfigPda(ix.treeId), RegistrationProgram), Unsigned(MainPda(ix.treeId), MerkleProgram);
    [Submit(RegistrationTx([config], ix)),
     Submit(RegistrationTx([config, main], InitializeMerkleTree(ix.treeId, ix.merkleProgram)))]
  }

  lemma RunTwo(p: Params, w: World, a: Action, b: Action)
    ensures Run(p, w, [a, b]) == Step(p, Step(p, w, a), b)
  {
    assert [a, b][..1] == [a] && [a][..0] == [];
    assert Run(p, w, [a]) == Step(p, w, a);
  }

  /** What an Initialize names, as a config with these counters. */
  function StoredTerms(ix: Instruction, total: u64, current: u64): ConfigState
    requires ix.Initialize?
  {
    ConfigState(ix.merkleProgram, ix.treeId, ix.pricePerUnit, ix.treasury, total, ix.maxTotalRateLimit, current,
                ix.activeSec, ix.graceSec)
  }

  lemma ConfigCommits(p: Params, w: World, ix: Instruction)
    requires WorldOk(p, w) && ViewOf(w, ix.treeId).config.None? && ix.Initialize? && WellFormed(p, ix)
    ensures var after := Step(p, w, SetupRun(ix)[0]);
            && WellTyped(after) && after.clock == w.clock && after.balances == w.balances
            && ViewOf(after, ix.treeId) == View(Some(StoredTerms(ix, 0, 0)), map[], None)
  {
    assert RegistryOk(p, ix.treeId, ViewOf(w, ix.treeId));
    CommitsExactly(p, w, SetupRun(ix)[0].tx.metas, ix);
  }

  lemma TreeCommits(p: Params, w: World, ix: Instruction)
    requires WellTyped(w) && ix.Initialize? && ix.merkleProgram == MerkleProgram
    requires ViewOf(w, ix.treeId) == View(Some(StoredTerms(ix, 0, 0)), map[], None)
    ensures var after := Step(p, w, SetupRun(ix)[1]);
            && after.clock == w.clock && after.balances == w.balances
            && ViewOf(after, ix.treeId) == FreshRegistry(ix)
  {
    CommitsExactly(p, w, SetupRun(ix)[1].tx.metas, SetupRun(ix)[1].tx.ix);
  }

  function FreshRegistry(ix: Instruction): View
    requires ix.Initialize?
  {
    View(Some(StoredTerms(ix, 0, 0)), map[], Some(Tree([], [ZERO, ZERO, ZERO, ZERO])))
  }

  /** In any state anyone can set up a tree id that has no config yet, with any acceptable terms. */
  lemma SetupCommits(p: Params, w: World, ix: Instruction)
    requires WorldOk(p, w) && ViewOf(w, ix.treeId).config.None?
    requires ix.Initialize? && WellFormed(p, ix) && ix.merkleProgram == MerkleProgram
    ensures var after := Run(p, w, SetupRun(ix));
            && after.clock == w.clock && after.balances == w.balances && ViewOf(after, ix.treeId) == FreshRegistry(ix)
  {
    var actions := SetupRun(ix);
    assert actions == [actions[0], actions[1]];
    RunTwo(p, w, actions[0], actions[1]);
    ConfigCommits(p, w, ix);
    TreeCommits(p, Step(p, w, actions[0]), ix);
  }

  /** An intended first member that fits under the cap and can pay. */
  ghost predicate CanJoin(p: Params, w: World, ix: Instruction, x: Intent) {
    && ix.Initialize? && ix.merkleProgram == MerkleProgram
    && x.ToRegister? && Sensible(p, x) && x.rate <= ix.maxTotalRateLimit && w.clock > 0
    && PaymentAmount(x.rate, ix.pricePerUnit) <= Balance(w, x.payer)
  }

  lemma FirstMemberAllowed(p: Params, w: World, ix: Instruction, x: Intent)
    requires Sound(p) && CanJoin(p, w, ix, x) && ViewOf(w, ix.treeId) == FreshRegistry(ix)
    ensures Allowed(p, w, w, ix.treeId, x)
  {
    assert p.isField(LeafOf(p, x.commitment, x.rate));
  }

  lemma FirstMemberIsJoined(p: Params, clock: u64, ix: Instruction, x: Intent)
    requires ix.Initialize? && x.ToRegister? && x.rate <= ix.maxTotalRateLimit
    ensures var v := FreshRegistry(ix);
            FirstMember(p, clock, ix, x) == Joined(p, v, x.commitment, NewMember(ClaimsOf(p, v, clock, ix.treeId, x)))
  {
    var v := FreshRegistry(ix);
    var joined := Joined(p, v, x.commitment, NewMember(ClaimsOf(p, v, clock, ix.treeId, x)));
    assert joined.config == FirstMember(p, clock, ix, x).config;
    assert joined.members == FirstMember(p, clock, ix, x).members;
    assert joined.tree.value.leaves == [p.h2(x.commitment, RateBytes(x.rate))];
    assert joined.tree.value.history == [Root(p, []), ZERO, ZERO, ZERO];
    assert joined.tree == FirstMember(p, clock, ix, x).tree;
  }

  lemma FirstMemberResult(p: Params, w: World, ix: Instruction, x: Intent)
    requires ix.Initialize? && x.ToRegister? && x.rate <= ix.maxTotalRateLimit
    requires ViewOf(w, ix.treeId) == FreshRegistry(ix) && Allowed(p, w, w, ix.treeId, x)
    ensures Result(p, w, w, ix.treeId, x) == FirstMember(p, w.clock, ix, x)
  {
    FirstMemberIsJoined(p, w.clock, ix, x);
  }

  /** And any sensible member who fits under the cap and can pay then joins it, at index 0. */
  lemma FirstMemberJoins(p: Params, w: World, ix: Instruction, x: Intent)
    requires Sound(p) && WorldOk(p, w) && ViewOf(w, ix.treeId).config.None?
    requires CanJoin(p, w, ix, x) && WellFormed(p, ix)
    ensures var ready := Run(p, w, SetupRun(ix));
            && ViewOf(ready, ix.treeId) == FreshRegistry(ix)
            && var out := Execute(p, ready, TxOf(p, ready, ix.treeId, x));
            && out.Done? && out.value.clock == w.clock
            && ViewOf(out.value, ix.treeId) == FirstMember(p, w.clock, ix, x)
  {
    SetupCommits(p, w, ix);
    var ready := Run(p, w, SetupRun(ix));
    RunKeeps(p, w, SetupRun(ix));
    FirstMemberAllowed(p, ready, ix, x);
    FirstMemberResult(p, ready, ix, x);
    HonestCommits(p, ready, ready, ix.treeId, x);
  }

  /** The fresh registry with one member, in slot 0, dated by the clock it joined at. */
  function FirstMember(p: Params, clock: u64, ix: Instruction, x: Intent): View
    requires ix.Initialize? && x.ToRegister?
  {
    var m := MembershipState(x.rate, x.commitment, SatAdd(clock, SecsToMillis(ix.activeSec)), ix.activeSec, ix.graceSec);
    View(Some(StoredTerms(ix, 1, x.rate)), map[x.commitment := m],
         Some(Tree([p.h2(x.commitment, RateBytes(x.rate))], [Root(p, []), ZERO, ZERO, ZERO])))
  }
}
