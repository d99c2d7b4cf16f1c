/** Renewals that are dated neither from the clock nor from the claim, reached from an empty chain. */
module Renewal {
  import opened Bytes
  import opened Commits
  import opened Executor
  import opened Hashing
  import opened Honest
  import opened Outcomes
  import opened Registration
  import opened Registry
  import opened Runs
  import opened Setup
  import opened Views

  /** The first member `x` of the registry `ix` can pay twice, and its periods are nowhere near the end of time. */
  ghost predicate Renewable(p: Params, w: World, ix: Instruction, x: Intent) {
    && CanJoin(p, w, ix, x) && WellFormed(p, ix) && ix.graceSec > 0 && x.payer != ix.treasury
    && 2 * PaymentAmount(x.rate, ix.pricePerUnit) <= Balance(w, x.payer)
    && w.clock + 2 * SecsToMillis(ix.activeSec) + SecsToMillis(ix.graceSec) <= U64_MAX
  }

  /** Set up the registry and register. */
  ghost function JoinedWorld(p: Params, w: World, ix: Instruction, x: Intent): World
    requires ix.Initialize? && ViewOf(Run(p, w, SetupRun(ix)), ix.treeId).config.Some?
  {
    var ready := Run(p, w, SetupRun(ix));
    Step(p, ready, Submit(TxOf(p, ready, ix.treeId, x)))
  }

  /** And wait for the grace period. */
  ghost function AtGraceStart(p: Params, w: World, ix: Instruction, x: Intent): World
    requires ix.Initialize? && ViewOf(Run(p, w, SetupRun(ix)), ix.treeId).config.Some?
  {
    Step(p, JoinedWorld(p, w, ix, x), Tick(SatAdd(w.clock, SecsToMillis(ix.activeSec))))
  }

  lemma ReadyReached(p: Params, w: World, ix: Instruction, x: Intent)
    requires Sound(p) && Genesis(w) && Renewable(p, w, ix, x)
    ensures var ready := Run(p, w, SetupRun(ix));
            && Reachable(p, ready) && WellTyped(ready) && ready.balances == w.balances
            && ViewOf(ready, ix.treeId) == FreshRegistry(ix)
  {
    GenesisOk(p, w);
    assert ViewOf(w, ix.treeId).config.None?;
    SetupCommits(p, w, ix);
    assert Reachable(p, Run(p, w, SetupRun(ix)));
    ReachableOk(p, Run(p, w, SetupRun(ix)));
  }

  lemma JoinedReached(p: Params, w: World, ix: Instruction, x: Intent)
    requires Sound(p) && Genesis(w) && Renewable(p, w, ix, x)
    ensures ViewOf(Run(p, w, SetupRun(ix)), ix.treeId).config.Some?
    ensures var joined := JoinedWorld(p, w, ix, x);
            && Reachable(p, joined) && joined.clock == w.clock
            && ViewOf(joined, ix.treeId) == FirstMember(p, w.clock, ix, x)
            && PaymentAmount(x.rate, ix.pricePerUnit) <= Balance(joined, x.payer)
  {
    var ready := Run(p, w, SetupRun(ix));
    ReadyReached(p, w, ix, x);
    GenesisOk(p, w);
    assert ViewOf(w, ix.treeId).config.None?;
    FirstMemberJoins(p, w, ix, x);
    ReachableStep(p, ready, Submit(TxOf(p, ready, ix.treeId, x)));
    JoinPays(p, ready, ix.treeId, x);
  }

  lemma JoinPays(p: Params, w: World, t: Hash, x: Intent)
    requires WellTyped(w) && ViewOf(w, t).config.Some? && x.ToRegister? && Sensible(p, x)
    requires Execute(p, w, TxOf(p, w, t, x)).Done? && x.payer != ViewOf(w, t).config.value.treasury
    ensures Balance(Execute(p, w, TxOf(p, w, t, x)).value, x.payer)
            + PaymentAmount(x.rate, ViewOf(w, t).config.value.pricePerUnit) >= Balance(w, x.payer)
  {
    HonestCommits(p, w, w, t, x);
    var metas, ix := AccountsOf(ViewOf(w, t), t, x), ClaimsOf(p, ViewOf(w, t), w.clock, t, x);
    PaidOnce(w, Execute(p, w, TxOf(p, w, t, x)).value, metas, ix);
  }

  lemma PaidOnce(w: World, after: World, metas: seq<AccountMeta>, ix: Instruction)
    requires Pays(ix) && after.balances == Settled(w, metas, ix) && Payer(metas) != Treasury(metas)
    ensures Balance(after, Payer(metas)) + Price(ix) >= Balance(w, Payer(metas))
  {
  }

  lemma GraceStartReached(p: Params, w: World, ix: Instruction, x: Intent)
    requires Sound(p) && Genesis(w) && Renewable(p, w, ix, x)
    ensures ViewOf(Run(p, w, SetupRun(ix)), ix.treeId).config.Some?
    ensures var now := AtGraceStart(p, w, ix, x);
            && Reachable(p, now) && now.clock == w.clock + SecsToMillis(ix.activeSec)
            && ViewOf(now, ix.treeId) == FirstMember(p, w.clock, ix, x)
            && PaymentAmount(x.rate, ix.pricePerUnit) <= Balance(now, x.payer)
  {
    JoinedReached(p, w, ix, x);
    var joined := JoinedWorld(p, w, ix, x);
    ReachableStep(p, joined, Tick(w.clock + SecsToMillis(ix.activeSec)));
    SameShardsSameView(joined, AtGraceStart(p, w, ix, x), ix.treeId);
  }

  lemma RenewalAllowed(p: Params, w: World, ix: Instruction, x: Intent, joinedAt: u64)
    requires ix.Initialize? && x.ToRegister? && ViewOf(w, ix.treeId) == FirstMember(p, joinedAt, ix, x)
    requires 0 < w.clock == joinedAt + SecsToMillis(ix.activeSec) && ix.graceSec > 0
    requires w.clock + SecsToMillis(ix.graceSec) <= U64_MAX
    requires PaymentAmount(x.rate, ix.pricePerUnit) <= Balance(w, x.payer)
    ensures Allowed(p, w, w, ix.treeId, ToExtend(x.commitment, x.payer))
    ensures var members := Result(p, w, w, ix.treeId, ToExtend(x.commitment, x.payer)).members;
            && x.commitment in members
            && members[x.commitment].graceStart ==
               SatAdd(w.clock + SecsToMillis(ix.graceSec), SecsToMillis(ix.activeSec))
  {
  }

  /** Any first member that renews at its grace start, with the clock as its claim, gets a grace start a whole grace
      period later than an active period from that clock. */
  lemma RenewedFromTheGraceStart(p: Params, w: World, ix: Instruction, x: Intent)
    requires Sound(p) && Genesis(w) && Renewable(p, w, ix, x)
    ensures ViewOf(Run(p, w, SetupRun(ix)), ix.treeId).config.Some?
    ensures var now := AtGraceStart(p, w, ix, x);
            && Reachable(p, now) && now.clock == w.clock + SecsToMillis(ix.activeSec)
            && ViewOf(now, ix.treeId).config.Some?
            && var out := Execute(p, now, TxOf(p, now, ix.treeId, ToExtend(x.commitment, x.payer)));
            && out.Done? && x.commitment in ViewOf(out.value, ix.treeId).members
            && ViewOf(out.value, ix.treeId).members[x.commitment].graceStart
               == now.clock + SecsToMillis(ix.activeSec) + SecsToMillis(ix.graceSec)
  {
    GraceStartReached(p, w, ix, x);
    var now, extend := AtGraceStart(p, w, ix, x), ToExtend(x.commitment, x.payer);
    ReachableOk(p, now);
    RenewalAllowed(p, now, ix, x, w.clock);
    HonestCommits(p, now, now, ix.treeId, extend);
  }

  /** Ten seconds active, ten seconds of grace: a member that joins at 1 s and renews at 11 s has its next grace start at
      31 s, not at the 21 s that renewing from the current clock would give. */
  lemma RenewedAtElevenSeconds(p: Params) returns (now: World, renewed: World, c: Hash)
    requires Sound(p)
    ensures Reachable(p, now) && now.clock == 11_000 && ViewOf(now, ZERO).config.Some?
    ensures Execute(p, now, TxOf(p, now, ZERO, ToExtend(c, Plain(0)))) == Done(renewed)
    ensures c in ViewOf(renewed, ZERO).members && ViewOf(renewed, ZERO).members[c].graceStart == 31_000
  {
    c := RateBytes(1);
    OneIsNotZero();
    var w := World(map[], map[Plain(0) := 200], 1_000);
    var ix := Instruction.Initialize(MerkleProgram, ZERO, 1, Plain(1), 600, 10, 10);
    var x := ToRegister(c, 100, Plain(0));
    RenewedFromTheGraceStart(p, w, ix, x);
    now := AtGraceStart(p, w, ix, x);
    renewed := Execute(p, now, TxOf(p, now, ZERO, ToExtend(c, Plain(0)))).value;
  }

  lemma OneIsNotZero()
    ensures RateBytes(1) != ZERO
  {
    ZeroBytes(32, 0);
    assert RateBytes(1)[0] == 1;
  }
}
