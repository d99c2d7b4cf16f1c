/** The two-phase machine against the contract: whole transactions, outcome for outcome. */
module Commits {
  import opened Bytes
  import opened Executor
  import opened Hashing
  import opened Outcomes
  import opened Registration
  import opened Registry
  import opened Tree
  import opened Views

  /** `w2` differs from `w1` in tree `t`'s registry, which becomes `v`, and in the balances. */
  ghost predicate Becomes(w1: World, w2: World, t: Hash, v: View, balances: map<AccountId, nat>) {
    && WellTyped(w2) && w2.clock == w1.clock && w2.balances == balances
    && ViewOf(w2, t) == v
    && forall other :: other != t ==> ViewOf(w2, other) == ViewOf(w1, other)
  }

  /** The machine fails as the contract does, or commits what it says. */
  ghost predicate Agrees(w: World, t: Hash, out: Outcome<World>, contract: Outcome<View>,
                         balances: map<AccountId, nat>)
  {
    match contract
    case Done(v) => out.Done? && Becomes(w, out.value, t, v, balances)
    case Exit(code) => out == Exit(code)
    case Panic => out == Panic
    case Refused => out == Refused
    case Foreign => out == Foreign
  }

  lemma Nothing(w: World, t: Hash)
    requires WellTyped(w)
    ensures Becomes(w, w, t, ViewOf(w, t), w.balances)
  {
  }

  lemma Chain(w1: World, w2: World, w3: World, t: Hash, v2: View, v3: View,
              b2: map<AccountId, nat>, b3: map<AccountId, nat>)
    requires Becomes(w1, w2, t, v2, b2) && Becomes(w2, w3, t, v3, b3)
    ensures Becomes(w1, w3, t, v3, b3)
  {
  }

  // ---- single effects ----

  lemma ConfigWritten(w: World, t: Hash, config: ConfigState)
    requires WellTyped(w)
    ensures Becomes(w, WriteShard(w, ConfigSel(t), Replace(ConfigShard(config))), t,
                    ViewOf(w, t).(config := Some(config)), w.balances)
  {
    var after := WriteShard(w, ConfigSel(t), Replace(ConfigShard(config)));
    forall other ensures other != t ==> ViewOf(after, other) == ViewOf(w, other) {
      WriteConfig(w, t, config, other);
    }
    WriteConfig(w, t, config, t);
  }

  lemma MemberWritten(w: World, t: Hash, c: Hash, m: MembershipState)
    requires WellTyped(w)
    ensures Becomes(w, WriteShard(w, MemberSel(t, c), Replace(MembershipShard(m))), t,
                    ViewOf(w, t).(members := ViewOf(w, t).members[c := m]), w.balances)
  {
    var after := WriteShard(w, MemberSel(t, c), Replace(MembershipShard(m)));
    forall other ensures other != t ==> ViewOf(after, other) == ViewOf(w, other) {
      WriteMember(w, t, c, m, other);
    }
    WriteMember(w, t, c, m, t);
    MemberTyped(w, t, c, Replace(MembershipShard(m)));
  }

  lemma MemberCleared(w: World, t: Hash, c: Hash)
    requires WellTyped(w)
    ensures Becomes(w, WriteShard(w, MemberSel(t, c), Clear), t,
                    ViewOf(w, t).(members := ViewOf(w, t).members - {c}), w.balances)
  {
    var after := WriteShard(w, MemberSel(t, c), Clear);
    forall other ensures other != t ==> ViewOf(after, other) == ViewOf(w, other) {
      ClearMember(w, t, c, other);
    }
    ClearMember(w, t, c, t);
    MemberTyped(w, t, c, Clear);
  }

  lemma TreeWritten(w: World, t: Hash, tree: Tree)
    requires WellTyped(w)
    ensures Becomes(w, WriteShard(w, MainSel(t), Replace(TreeShard(tree))), t,
                    ViewOf(w, t).(tree := Some(tree)), w.balances)
  {
    var after := WriteShard(w, MainSel(t), Replace(TreeShard(tree)));
    forall other ensures other != t ==> ViewOf(after, other) == ViewOf(w, other) {
      WriteTree(w, t, tree, other);
    }
    WriteTree(w, t, tree, t);
  }

  lemma BalancesWritten(w: World, t: Hash, balances: map<AccountId, nat>)
    requires WellTyped(w)
    ensures Becomes(w, w.(balances := balances), t, ViewOf(w, t), balances)
  {
    forall other ensures other != t ==> ViewOf(w.(balances := balances), other) == ViewOf(w, other) {
      SameShardsSameView(w, w.(balances := balances), other);
    }
    SameShardsSameView(w, w.(balances := balances), t);
  }

  // ---- short effect and call lists ----

  function Then(out: Outcome<World>, e: ShardEffect): Outcome<World> {
    var w :- out;
    RunEffect(w, e)
  }

  lemma Effects1(w: World, a: ShardEffect)
    ensures RunEffects(w, [a]) == RunEffect(w, a)
  {
    assert [a][1..] == [];
  }

  lemma Effects2(w: World, a: ShardEffect, b: ShardEffect)
    ensures RunEffects(w, [a, b]) == Then(RunEffect(w, a), b)
  {
    assert [a, b][1..] == [b];
    if RunEffect(w, a).Done? {
      Effects1(RunEffect(w, a).value, b);
    }
  }

  lemma Effects3(w: World, a: ShardEffect, b: ShardEffect, c: ShardEffect)
    ensures RunEffects(w, [a, b, c]) == Then(Then(RunEffect(w, a), b), c)
  {
    assert [a, b, c][1..] == [b, c];
    if RunEffect(w, a).Done? {
      Effects2(RunEffect(w, a).value, b, c);
    }
  }

  lemma Calls1(p: Params, w: World, auth: set<AccountId>, a: ChainedCall)
    ensures RunCalls(p, w, auth, [a]) == RunCall(p, w, auth, a)
  {
    assert [a][1..] == [];
  }

  // ---- effects, instruction by instruction ----

  const CLOCK_SEL: Selector := Selector(Clock50, ClockProgram)

  lemma ClockStep(w: World, now: u64)
    ensures RunEffect(w, ShardEffect(CLOCK_SEL, ClockIs(now))) ==
            match ClockCheck(w.clock, now) { case Done(_) => Done(w) case Exit(code) => Exit(code) case _ => Panic }
  {
  }

  lemma ConfigEffect(w: World, t: Hash, e: Effect)
    requires WellTyped(w)
    ensures RunEffect(w, ShardEffect(ConfigSel(t), e)) ==
            var config := ViewOf(w, t).config;
            var update :- Apply(e, if config.Some? then Some(ConfigShard(config.value)) else None);
            Done(WriteShard(w, ConfigSel(t), update))
  {
  }

  lemma MemberEffect(w: World, t: Hash, c: Hash, e: Effect)
    requires WellTyped(w)
    ensures RunEffect(w, ShardEffect(MemberSel(t, c), e)) ==
            var members := ViewOf(w, t).members;
            var update :- Apply(e, if c in members then Some(MembershipShard(members[c])) else None);
            Done(WriteShard(w, MemberSel(t, c), update))
  {
  }

  lemma ReleaseStep(w: World, t: Hash, merkleProgram: AccountId, rate: u64)
    requires WellTyped(w)
    ensures var v := ViewOf(w, t);
            Agrees(w, t, RunEffect(w, ShardEffect(ConfigSel(t), ReleaseConfig(t, merkleProgram, rate))),
                   if HasConfig(v, t, merkleProgram) then Done(v.(config := Some(Uncounted(v.config.value, rate))))
                   else Panic,
                   w.balances)
  {
    var v := ViewOf(w, t);
    ConfigEffect(w, t, ReleaseConfig(t, merkleProgram, rate));
    if HasConfig(v, t, merkleProgram) {
      ConfigWritten(w, t, Uncounted(v.config.value, rate));
    }
  }

  lemma RegisterConfigStep(w: World, treasury: AccountId, ix: Instruction)
    requires WellTyped(w) && ix.Register?
    ensures var v := ViewOf(w, ix.treeId);
            Agrees(w, ix.treeId,
                   RunEffect(w, ShardEffect(ConfigSel(ix.treeId),
                                            RegisterConfig(ix.treeId, ix.merkleProgram, ix.pricePerUnit, treasury,
                                                           ix.rateLimit, ix.activeSec, ix.graceSec))),
                   if !HasConfig(v, ix.treeId, ix.merkleProgram) then Panic
                   else if !TermsMatch(v.config.value, ix, treasury) then Exit(EXIT_STALE_CONFIG)
                   else if !CanRegister(v.config.value, ix.rateLimit) then Exit(EXIT_RATE_LIMIT_FULL)
                   else Done(v.(config := Some(Counted(v.config.value, ix.rateLimit)))),
                   w.balances)
  {
    var v := ViewOf(w, ix.treeId);
    ConfigEffect(w, ix.treeId, RegisterConfig(ix.treeId, ix.merkleProgram, ix.pricePerUnit, treasury,
                                              ix.rateLimit, ix.activeSec, ix.graceSec));
    if HasConfig(v, ix.treeId, ix.merkleProgram) {
      ConfigWritten(w, ix.treeId, Counted(v.config.value, ix.rateLimit));
    }
  }

  /** The effects each instruction plans, in order. */
  function EffectsOf(treasury: AccountId, ix: Instruction): seq<ShardEffect> {
    match ix
    case Initialize(_, treeId, _, _, _, _, _) => [ShardEffect(ConfigSel(treeId), InitConfig(NewConfig(ix)))]
    case InitializeMerkleTree(treeId, merkleProgram) =>
      [ShardEffect(ConfigSel(treeId), InitTreeGuard(treeId, merkleProgram))]
    case Register(treeId, commitment, rate, merkleProgram, now, price, active, grace) =>
      [ShardEffect(ConfigSel(treeId), RegisterConfig(treeId, merkleProgram, price, treasury, rate, active, grace)),
       ShardEffect(CLOCK_SEL, ClockIs(now)),
       ShardEffect(MemberSel(treeId, commitment), InitMembership(NewMember(ix)))]
    case Slash(treeId, commitment, _, merkleProgram, _, rate) =>
      [ShardEffect(ConfigSel(treeId), ReleaseConfig(treeId, merkleProgram, rate)),
       ShardEffect(MemberSel(treeId, commitment), SlashMembership(commitment, rate))]
    case Extend(treeId, commitment, now, price, rate) =>
      [ShardEffect(ConfigSel(treeId), ExtendConfig(treeId, price, treasury)),
       ShardEffect(CLOCK_SEL, ClockIs(now)),
       ShardEffect(MemberSel(treeId, commitment), ExtendMembership(now, rate))]
    case Erase(treeId, commitment, merkleProgram, _, rate, now) =>
      [ShardEffect(ConfigSel(treeId), ReleaseConfig(treeId, merkleProgram, rate)),
       ShardEffect(CLOCK_SEL, ClockIs(now)),
       ShardEffect(MemberSel(treeId, commitment), EraseMembership(now, rate))]
  }

  lemma InitializeEffects(w: World, treasury: AccountId, ix: Instruction)
    requires WellTyped(w) && ix.Initialize?
    ensures Agrees(w, ix.treeId, RunEffects(w, EffectsOf(treasury, ix)),
                   EffectsContract(ViewOf(w, ix.treeId), w.clock, treasury, ix), w.balances)
  {
    Effects1(w, EffectsOf(treasury, ix)[0]);
    ConfigEffect(w, ix.treeId, InitConfig(NewConfig(ix)));
    ConfigWritten(w, ix.treeId, NewConfig(ix));
  }

  lemma InitializeMerkleTreeEffects(w: World, treasury: AccountId, ix: Instruction)
    requires WellTyped(w) && ix.InitializeMerkleTree?
    ensures Agrees(w, ix.treeId, RunEffects(w, EffectsOf(treasury, ix)),
                   EffectsContract(ViewOf(w, ix.treeId), w.clock, treasury, ix), w.balances)
  {
    Effects1(w, EffectsOf(treasury, ix)[0]);
    ConfigEffect(w, ix.treeId, InitTreeGuard(ix.treeId, ix.merkleProgram));
    Nothing(w, ix.treeId);
  }

  lemma RegisterEffects(w: World, treasury: AccountId, ix: Instruction)
    requires WellTyped(w) && ix.Register?
    ensures Agrees(w, ix.treeId, RunEffects(w, EffectsOf(treasury, ix)),
                   EffectsContract(ViewOf(w, ix.treeId), w.clock, treasury, ix), w.balances)
  {
    var t, v, effects := ix.treeId, ViewOf(w, ix.treeId), EffectsOf(treasury, ix);
    Effects3(w, effects[0], effects[1], effects[2]);
    RegisterConfigStep(w, treasury, ix);
    var first := RunEffect(w, effects[0]);
    if first.Done? {
      var w1 := first.value;
      var v1 := v.(config := Some(Counted(v.config.value, ix.rateLimit)));
      ClockStep(w1, ix.now);
      MemberEffect(w1, t, ix.idCommitment, InitMembership(NewMember(ix)));
      if ix.idCommitment !in v.members {
        MemberWritten(w1, t, ix.idCommitment, NewMember(ix));
        Chain(w, w1, WriteShard(w1, MemberSel(t, ix.idCommitment), Replace(MembershipShard(NewMember(ix)))), t, v1,
              v1.(members := v.members[ix.idCommitment := NewMember(ix)]), w.balances, w.balances);
      }
    }
  }

  function Without(v: View, c: Hash): View {
    v.(members := v.members - {c})
  }

  lemma SlashMemberStep(w: World, t: Hash, c: Hash, rate: u64)
    requires WellTyped(w)
    ensures var v := ViewOf(w, t);
            Agrees(w, t, RunEffect(w, ShardEffect(MemberSel(t, c), SlashMembership(c, rate))),
                   if c in v.members && v.members[c].idCommitment != c then Panic
                   else var _ :- MemberCheck(v, c, rate); Done(Without(v, c)),
                   w.balances)
  {
    MemberEffect(w, t, c, SlashMembership(c, rate));
    MemberCleared(w, t, c);
  }

  lemma EraseMemberStep(w: World, t: Hash, c: Hash, now: u64, rate: u64)
    requires WellTyped(w)
    ensures var v := ViewOf(w, t);
            Agrees(w, t, RunEffect(w, ShardEffect(MemberSel(t, c), EraseMembership(now, rate))),
                   var m :- MemberCheck(v, c, rate);
                   if IsExpired(m.graceStart, SecsToMillis(m.graceSec), now) then Done(Without(v, c))
                   else Exit(EXIT_NOT_EXPIRED),
                   w.balances)
  {
    MemberEffect(w, t, c, EraseMembership(now, rate));
    MemberCleared(w, t, c);
  }

  lemma ExtendMemberStep(w: World, t: Hash, c: Hash, now: u64, rate: u64)
    requires WellTyped(w)
    ensures var v := ViewOf(w, t);
            Agrees(w, t, RunEffect(w, ShardEffect(MemberSel(t, c), ExtendMembership(now, rate))),
                   var m :- MemberCheck(v, c, rate);
                   if IsInGracePeriod(m.graceStart, SecsToMillis(m.graceSec), now)
                   then Done(v.(members := v.members[c := Renewed(m)])) else Exit(EXIT_NOT_IN_GRACE_PERIOD),
                   w.balances)
  {
    MemberEffect(w, t, c, ExtendMembership(now, rate));
    if c in ViewOf(w, t).members {
      MemberWritten(w, t, c, Renewed(ViewOf(w, t).members[c]));
    }
  }

  lemma ExtendConfigStep(w: World, treasury: AccountId, ix: Instruction)
    requires WellTyped(w) && ix.Extend?
    ensures var v := ViewOf(w, ix.treeId);
            Agrees(w, ix.treeId,
                   RunEffect(w, ShardEffect(ConfigSel(ix.treeId), ExtendConfig(ix.treeId, ix.pricePerUnit, treasury))),
                   if v.config.None? || v.config.value.treeId != ix.treeId then Panic
                   else if v.config.value.pricePerUnit != ix.pricePerUnit || v.config.value.treasury != treasury
                   then Exit(EXIT_STALE_CONFIG) else Done(v),
                   w.balances)
  {
    ConfigEffect(w, ix.treeId, ExtendConfig(ix.treeId, ix.pricePerUnit, treasury));
    Nothing(w, ix.treeId);
  }

  lemma SlashEffects(w: World, treasury: AccountId, ix: Instruction)
    requires WellTyped(w) && ix.Slash?
    ensures Agrees(w, ix.treeId, RunEffects(w, EffectsOf(treasury, ix)),
                   EffectsContract(ViewOf(w, ix.treeId), w.clock, treasury, ix), w.balances)
  {
    var t, v, effects := ix.treeId, ViewOf(w, ix.treeId), EffectsOf(treasury, ix);
    Effects2(w, effects[0], effects[1]);
    ReleaseStep(w, t, ix.merkleProgram, ix.rateLimit);
    var out := RunEffect(w, effects[0]);
    if out.Done? {
      SlashMemberStep(out.value, t, ix.idCommitment, ix.rateLimit);
    }
  }

  lemma ExtendEffects(w: World, treasury: AccountId, ix: Instruction)
    requires WellTyped(w) && ix.Extend?
    ensures Agrees(w, ix.treeId, RunEffects(w, EffectsOf(treasury, ix)),
                   EffectsContract(ViewOf(w, ix.treeId), w.clock, treasury, ix), w.balances)
  {
    var t, v, effects := ix.treeId, ViewOf(w, ix.treeId), EffectsOf(treasury, ix);
    Effects3(w, effects[0], effects[1], effects[2]);
    ExtendConfigStep(w, treasury, ix);
    var out := RunEffect(w, effects[0]);
    if out.Done? {
      ClockStep(out.value, ix.now);
      ExtendMemberStep(out.value, t, ix.idCommitment, ix.now, ix.rateLimit);
    }
  }

  lemma EraseEffects(w: World, treasury: AccountId, ix: Instruction)
    requires WellTyped(w) && ix.Erase?
    ensures Agrees(w, ix.treeId, RunEffects(w, EffectsOf(treasury, ix)),
                   EffectsContract(ViewOf(w, ix.treeId), w.clock, treasury, ix), w.balances)
  {
    var t, v, effects := ix.treeId, ViewOf(w, ix.treeId), EffectsOf(treasury, ix);
    Effects3(w, effects[0], effects[1], effects[2]);
    ReleaseStep(w, t, ix.merkleProgram, ix.rateLimit);
    var out := RunEffect(w, effects[0]);
    if out.Done? {
      ClockStep(out.value, ix.now);
      EraseMemberStep(out.value, t, ix.idCommitment, ix.now, ix.rateLimit);
    }
  }

  /** One shard at a time, in order, amounts to one check of the whole registry. */
  lemma EffectsExact(w: World, treasury: AccountId, ix: Instruction)
    requires WellTyped(w)
    ensures Agrees(w, ix.treeId, RunEffects(w, EffectsOf(treasury, ix)),
                   EffectsContract(ViewOf(w, ix.treeId), w.clock, treasury, ix), w.balances)
  {
    match ix
    case Initialize(_, _, _, _, _, _, _) => InitializeEffects(w, treasury, ix);
    case InitializeMerkleTree(_, _) => InitializeMerkleTreeEffects(w, treasury, ix);
    case Register(_, _, _, _, _, _, _, _) => RegisterEffects(w, treasury, ix);
    case Slash(_, _, _, _, _, _) => SlashEffects(w, treasury, ix);
    case Extend(_, _, _, _, _) => ExtendEffects(w, treasury, ix);
    case Erase(_, _, _, _, _, _) => EraseEffects(w, treasury, ix);
  }

  // ---- the chained calls ----

  /** Balances after moving `amount`, when it is there. */
  function Moved(w: World, from: AccountId, to: AccountId, amount: nat): map<AccountId, nat> {
    if Balance(w, from) < amount then w.balances
    else
      var debited := w.(balances := w.balances[from := Balance(w, from) - amount]);
      debited.balances[to := Balance(debited, to) + amount]
  }

  predicate Pays(ix: Instruction) {
    ix.Register? || ix.Extend?
  }

  function Payer(metas: seq<AccountMeta>): AccountId {
    if |metas| > 2 then metas[2].account else Plain(0)
  }

  function Treasury(metas: seq<AccountMeta>): AccountId {
    if |metas| > 3 then metas[3].account else Plain(0)
  }

  function PayCalls(metas: seq<AccountMeta>, ix: Instruction): seq<ChainedCall>
    requires Pays(ix) ==> |metas| > 3
  {
    if Pays(ix) then [NativePayment(metas[2], metas[3], Price(ix))] else []
  }

  function TreeCalls(p: Params, metas: seq<AccountMeta>, ix: Instruction): seq<ChainedCall>
    requires TreeRequest(p, ix).Some? ==> |metas| > 1
  {
    match TreeRequest(p, ix)
    case None => []
    case Some(request) => [MerkleCallOn(request.0, metas[1], ix.treeId, request.1)]
  }

  function Settled(w: World, metas: seq<AccountMeta>, ix: Instruction): map<AccountId, nat> {
    if Pays(ix) then Moved(w, Payer(metas), Treasury(metas), Price(ix)) else w.balances
  }

  lemma MerkleCallRuns(p: Params, w: World, auth: set<AccountId>, t: Hash, treeMain: AccountMeta, mix: MerkleIx)
    requires WellTyped(w) && IsTreeMain(treeMain, t, MerkleProgram)
    ensures RunCall(p, w, auth, MerkleCallOn(MerkleProgram, treeMain, t, mix)) ==
            var after :- TreeApply(p, mix, ViewOf(w, t).tree);
            Done(WriteShard(w, MainSel(t), Replace(TreeShard(after))))
  {
    var call := MerkleCallOn(MerkleProgram, treeMain, t, mix);
    assert call.selectors[0] == MainSel(t) && MainPda(t) in call.seeds;
    assert SelectorOf(CalleeMetas(call, auth)[0]) == MainSel(t);
  }

  lemma TreeCallExact(p: Params, w: World, auth: set<AccountId>, t: Hash, treeMain: AccountMeta,
                      merkleProgram: AccountId, mix: MerkleIx)
    requires WellTyped(w) && IsTreeMain(treeMain, t, merkleProgram)
    ensures Agrees(w, t, RunCall(p, w, auth, MerkleCallOn(merkleProgram, treeMain, t, mix)),
                   var tree :- TreeStep(p, merkleProgram, mix, ViewOf(w, t).tree);
                   Done(ViewOf(w, t).(tree := Some(tree))),
                   w.balances)
  {
    if merkleProgram == MerkleProgram {
      MerkleCallRuns(p, w, auth, t, treeMain, mix);
      var after := TreeApply(p, mix, ViewOf(w, t).tree);
      if after.Done? {
        TreeWritten(w, t, after.value);
      }
    }
  }

  lemma PaymentRuns(p: Params, w: World, auth: set<AccountId>, payer: AccountMeta, treasury: AccountMeta, amount: u128)
    requires payer.account in auth
    ensures RunCall(p, w, auth, NativePayment(payer, treasury, amount)) ==
            if Balance(w, payer.account) < amount then Refused
            else Done(w.(balances := Moved(w, payer.account, treasury.account, amount)))
  {
  }

  lemma TreeCallsExact(p: Params, w: World, auth: set<AccountId>, metas: seq<AccountMeta>, ix: Instruction)
    requires WellTyped(w)
    requires TreeRequest(p, ix).Some? ==> |metas| > 1 && IsTreeMain(metas[1], ix.treeId, TreeRequest(p, ix).value.0)
    ensures Agrees(w, ix.treeId, RunCalls(p, w, auth, TreeCalls(p, metas, ix)),
                   TreeContract(p, ViewOf(w, ix.treeId), ix), w.balances)
  {
    match TreeRequest(p, ix)
    case None => Nothing(w, ix.treeId);
    case Some(request) =>
      Calls1(p, w, auth, MerkleCallOn(request.0, metas[1], ix.treeId, request.1));
      TreeCallExact(p, w, auth, ix.treeId, metas[1], request.0, request.1);
  }

  lemma CallsExact(p: Params, w: World, auth: set<AccountId>, metas: seq<AccountMeta>, ix: Instruction)
    requires WellTyped(w)
    requires Pays(ix) ==> |metas| > 3 && metas[2].account in auth
    requires TreeRequest(p, ix).Some? ==> |metas| > 1 && IsTreeMain(metas[1], ix.treeId, TreeRequest(p, ix).value.0)
    ensures Agrees(w, ix.treeId, RunCalls(p, w, auth, PayCalls(metas, ix) + TreeCalls(p, metas, ix)),
                   if Balance(w, Payer(metas)) < Price(ix) then Refused else TreeContract(p, ViewOf(w, ix.treeId), ix),
                   Settled(w, metas, ix))
  {
    var pay, rest := PayCalls(metas, ix), TreeCalls(p, metas, ix);
    if Pays(ix) {
      assert (pay + rest)[0] == pay[0] && (pay + rest)[1..] == rest;
      PaymentRuns(p, w, auth, metas[2], metas[3], Price(ix));
      if Balance(w, Payer(metas)) >= Price(ix) {
        var paid := w.(balances := Settled(w, metas, ix));
        BalancesWritten(w, ix.treeId, paid.balances);
        TreeCallsExact(p, paid, auth, metas, ix);
      }
    } else {
      assert pay + rest == rest;
      TreeCallsExact(p, w, auth, metas, ix);
    }
  }

  // ---- whole transactions ----

  /** The accounts an instruction demands, in order. */
  predicate AccountsRight(metas: seq<AccountMeta>, ix: Instruction) {
    match ix
    case Initialize(_, treeId, _, _, _, _, _) => |metas| == 1 && OwnPda(metas[0], ConfigPda(treeId))
    case InitializeMerkleTree(treeId, merkleProgram) =>
      |metas| == 2 && OwnPda(metas[0], ConfigPda(treeId)) && IsTreeMain(metas[1], treeId, merkleProgram)
    case Register(treeId, commitment, _, merkleProgram, _, _, _, _) =>
      && |metas| == 6 && OwnPda(metas[0], ConfigPda(treeId)) && IsTreeMain(metas[1], treeId, merkleProgram)
      && metas[2].authorized && IsClock(metas[4]) && OwnPda(metas[5], MembershipPda(treeId, commitment))
    case Slash(treeId, commitment, _, merkleProgram, _, _) =>
      && |metas| == 3 && OwnPda(metas[0], ConfigPda(treeId)) && IsTreeMain(metas[1], treeId, merkleProgram)
      && OwnPda(metas[2], MembershipPda(treeId, commitment))
    case Extend(treeId, commitment, _, _, _) =>
      && |metas| == 5 && OwnPda(metas[0], ConfigPda(treeId)) && OwnPda(metas[1], MembershipPda(treeId, commitment))
      && metas[2].authorized && IsClock(metas[4])
    case Erase(treeId, commitment, merkleProgram, _, _, _) =>
      && |metas| == 4 && OwnPda(metas[0], ConfigPda(treeId)) && IsTreeMain(metas[1], treeId, merkleProgram)
      && OwnPda(metas[2], MembershipPda(treeId, commitment)) && IsClock(metas[3])
  }

  lemma PlanExact(p: Params, metas: seq<AccountMeta>, ix: Instruction)
    ensures Plan(p, metas, ix) ==
            if AccountsRight(metas, ix) && WellFormed(p, ix)
            then Done(PlanOutput(EffectsOf(Treasury(metas), ix), PayCalls(metas, ix) + TreeCalls(p, metas, ix)))
            else Panic
  {
    if AccountsRight(metas, ix) && WellFormed(p, ix) {
      assert Plan(p, metas, ix).Done?;
      assert Plan(p, metas, ix).value.effects == EffectsOf(Treasury(metas), ix);
      assert Plan(p, metas, ix).value.calls == PayCalls(metas, ix) + TreeCalls(p, metas, ix);
    }
  }

  /** What a registration transaction amounts to, said without phases, effects or calls. */
  ghost function Verdict(p: Params, w: World, metas: seq<AccountMeta>, ix: Instruction): Outcome<View> {
    if !AccountsRight(metas, ix) then Panic
    else Contract(p, ViewOf(w, ix.treeId), w.clock, Balance(w, Payer(metas)), Treasury(metas), ix)
  }

  lemma PhasesExact(p: Params, w: World, auth: set<AccountId>, metas: seq<AccountMeta>, ix: Instruction)
    requires WellTyped(w) && AccountsRight(metas, ix)
    requires Pays(ix) ==> metas[2].account in auth
    ensures Agrees(w, ix.treeId,
                   var applied :- RunEffects(w, EffectsOf(Treasury(metas), ix));
                   RunCalls(p, applied, auth, PayCalls(metas, ix) + TreeCalls(p, metas, ix)),
                   var checked :- EffectsContract(ViewOf(w, ix.treeId), w.clock, Treasury(metas), ix);
                   if Balance(w, Payer(metas)) < Price(ix) then Refused else TreeContract(p, checked, ix),
                   Settled(w, metas, ix))
  {
    EffectsExact(w, Treasury(metas), ix);
    var out := RunEffects(w, EffectsOf(Treasury(metas), ix));
    if out.Done? {
      CallsExact(p, out.value, auth, metas, ix);
      SettledSame(w, out.value, metas, ix);
      var end := RunCalls(p, out.value, auth, PayCalls(metas, ix) + TreeCalls(p, metas, ix));
      if end.Done? {
        var middle := ViewOf(out.value, ix.treeId);
        Chain(w, out.value, end.value, ix.treeId, middle, TreeContract(p, middle, ix).value,
              w.balances, Settled(w, metas, ix));
      }
    }
  }

  lemma SettledSame(w: World, w': World, metas: seq<AccountMeta>, ix: Instruction)
    requires w'.balances == w.balances
    ensures Settled(w', metas, ix) == Settled(w, metas, ix)
    ensures Balance(w', Payer(metas)) == Balance(w, Payer(metas))
  {
  }

  /** The two-phase machine is the contract: plan, per-shard effects and chained calls together check the same
      things in the same order, fail the same way, and on success change this one registry and pay its price. */
  lemma TransactionExact(p: Params, w: World, metas: seq<AccountMeta>, ix: Instruction)
    requires WellTyped(w) && Signable(RegistrationTx(metas, ix))
    ensures Agrees(w, ix.treeId, Execute(p, w, RegistrationTx(metas, ix)), Verdict(p, w, metas, ix),
                   Settled(w, metas, ix))
  {
    PlanExact(p, metas, ix);
    if AccountsRight(metas, ix) && WellFormed(p, ix) {
      assert Pays(ix) ==> metas[2].account in Authorized(metas);
      PhasesExact(p, w, Authorized(metas), metas, ix);
    }
  }
}
