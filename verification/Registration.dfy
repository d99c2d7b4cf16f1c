/** The registration program: `Plan` sees ids and claims only, `Apply` sees one shard. */
module Registration {
  import opened Bytes
  import opened Hashing
  import opened Outcomes
  import opened Tree

  const MIN_RATE_LIMIT: u64 := 100
  const MAX_RATE_LIMIT: u64 := 600
  const CLOCK_CLAIM_TOLERANCE_MS: u64 := 900_000

  /** Account ids. The PDAs are this program's, and distinct seeds give distinct accounts. */
  datatype AccountId =
    | RegistrationProgram
    | MerkleProgram
    | NativeProgram
    | ClockProgram
    | Clock50
    | ConfigPda(tree: Hash)
    | MainPda(tree: Hash)
    | MembershipPda(tree: Hash, commitment: Hash)
    | Plain(id: nat)

  /** One program's shard of one account. */
  datatype Selector = Selector(account: AccountId, program: AccountId)

  datatype AccountMeta = AccountMeta(account: AccountId, authorized: bool, program: AccountId)

  function SelectorOf(meta: AccountMeta): Selector {
    Selector(meta.account, meta.program)
  }

  datatype ConfigState = ConfigState(
    merkleProgram: AccountId,
    treeId: Hash,
    pricePerUnit: u128,
    treasury: AccountId,
    totalRegistrations: u64,
    maxTotalRateLimit: u64,
    currentTotalRateLimit: u64,
    activeSec: u32,
    graceSec: u32)

  predicate CanRegister(config: ConfigState, rate: u64) {
    SatAdd(config.currentTotalRateLimit, rate) <= config.maxTotalRateLimit
  }

  datatype MembershipState = MembershipState(
    rateLimit: u64,
    idCommitment: Hash,
    graceStart: u64,
    activeSec: u32,
    graceSec: u32)

  /** The contents of a non-empty shard. */
  datatype ShardData =
    | ConfigShard(config: ConfigState)
    | MembershipShard(membership: MembershipState)
    | TreeShard(tree: Tree)
    | ClockShard(timestamp: u64)

  datatype Instruction =
    | Initialize(merkleProgram: AccountId, treeId: Hash, pricePerUnit: u128, treasury: AccountId,
                 maxTotalRateLimit: u64, activeSec: u32, graceSec: u32)
    | InitializeMerkleTree(treeId: Hash, merkleProgram: AccountId)
    | Register(treeId: Hash, idCommitment: Hash, rateLimit: u64, merkleProgram: AccountId, now: u64,
               pricePerUnit: u128, activeSec: u32, graceSec: u32)
    | Slash(treeId: Hash, idCommitment: Hash, secret: Hash, merkleProgram: AccountId, leafIndex: u64, rateLimit: u64)
    | Extend(treeId: Hash, idCommitment: Hash, now: u64, pricePerUnit: u128, rateLimit: u64)
    | Erase(treeId: Hash, idCommitment: Hash, merkleProgram: AccountId, leafIndex: u64, rateLimit: u64, now: u64)

  datatype Effect =
    | InitConfig(config: ConfigState)
    | InitTreeGuard(treeId: Hash, merkleProgram: AccountId)
    | RegisterConfig(treeId: Hash, merkleProgram: AccountId, pricePerUnit: u128, treasury: AccountId, rateLimit: u64,
                     activeSec: u32, graceSec: u32)
    | InitMembership(membership: MembershipState)
    | ClockIs(now: u64)
    | ReleaseConfig(treeId: Hash, merkleProgram: AccountId, rateLimit: u64)
    | SlashMembership(idCommitment: Hash, rateLimit: u64)
    | ExtendConfig(treeId: Hash, pricePerUnit: u128, treasury: AccountId)
    | ExtendMembership(now: u64, rateLimit: u64)
    | EraseMembership(now: u64, rateLimit: u64)

  datatype ShardEffect = ShardEffect(selector: Selector, effect: Effect)

  datatype Payload = MerkleCall(ix: MerkleIx) | Transfer(amount: u128)

  /** A chained call; `seeds` are the PDAs whose authorization it grants the callee. */
  datatype ChainedCall = ChainedCall(callee: AccountId, selectors: seq<Selector>, seeds: seq<AccountId>,
                                     payload: Payload)

  datatype PlanOutput = PlanOutput(effects: seq<ShardEffect>, calls: seq<ChainedCall>)

  // ---- shared arithmetic ----

  function SecsToMillis(secs: u32): u64 {
    secs * 1000
  }

  predicate IsInGracePeriod(graceStart: u64, graceMs: u64, now: u64) {
    graceStart <= now < SatAdd(graceStart, graceMs)
  }

  predicate IsExpired(graceStart: u64, graceMs: u64, now: u64) {
    now >= SatAdd(graceStart, graceMs)
  }

  function PaymentAmount(rate: u64, price: u128): u128 {
    SatMul(price, rate)
  }

  /** The leaf of a member: the hash of its commitment and its rate limit. */
  function LeafOf(p: Params, commitment: Hash, rate: u64): Hash {
    p.h2(commitment, RateBytes(rate))
  }

  // ---- plan ----

  predicate OwnPda(meta: AccountMeta, pda: AccountId) {
    meta.account == pda && meta.program == RegistrationProgram
  }

  predicate IsTreeMain(meta: AccountMeta, treeId: Hash, merkleProgram: AccountId) {
    meta.account == MainPda(treeId) && meta.program == merkleProgram
  }

  predicate IsClock(meta: AccountMeta) {
    meta.account == Clock50 && meta.program == ClockProgram
  }

  function MerkleCallOn(merkleProgram: AccountId, treeMain: AccountMeta, treeId: Hash, ix: MerkleIx): ChainedCall {
    ChainedCall(merkleProgram, [Selector(treeMain.account, merkleProgram)], [MainPda(treeId)], MerkleCall(ix))
  }

  function NativePayment(payer: AccountMeta, treasury: AccountMeta, amount: u128): ChainedCall {
    ChainedCall(NativeProgram, [Selector(payer.account, NativeProgram), Selector(treasury.account, NativeProgram)], [],
                Transfer(amount))
  }

  function Plan(p: Params, metas: seq<AccountMeta>, ix: Instruction): Outcome<PlanOutput> {
    match ix
    case Initialize(merkleProgram, treeId, price, treasury, max, active, grace) =>
      if |metas| != 1 || !OwnPda(metas[0], ConfigPda(treeId)) || max == 0 || active == 0 then Panic
      else
        Done(PlanOutput([ShardEffect(SelectorOf(metas[0]),
                                     InitConfig(ConfigState(merkleProgram, treeId, price, treasury, 0, max, 0,
                                                            active, grace)))],
                        []))
    case InitializeMerkleTree(treeId, merkleProgram) =>
      if |metas| != 2 || !OwnPda(metas[0], ConfigPda(treeId)) || !IsTreeMain(metas[1], treeId, merkleProgram) then Panic
      else
        Done(PlanOutput([ShardEffect(SelectorOf(metas[0]), InitTreeGuard(treeId, merkleProgram))],
                        [MerkleCallOn(merkleProgram, metas[1], treeId, MerkleIx.Initialize)]))
    case Register(treeId, commitment, rate, merkleProgram, now, price, active, grace) =>
      if |metas| != 6 || !p.isField(commitment) || commitment == ZERO
         || rate < MIN_RATE_LIMIT || MAX_RATE_LIMIT < rate
         || !OwnPda(metas[0], ConfigPda(treeId)) || !IsTreeMain(metas[1], treeId, merkleProgram)
         || !OwnPda(metas[5], MembershipPda(treeId, commitment))
         || !IsClock(metas[4]) || !metas[2].authorized then Panic
      else
        Done(PlanOutput([ShardEffect(SelectorOf(metas[0]),
                                     RegisterConfig(treeId, merkleProgram, price, metas[3].account, rate, active, grace)),
                         ShardEffect(SelectorOf(metas[4]), ClockIs(now)),
                         ShardEffect(SelectorOf(metas[5]),
                                     InitMembership(MembershipState(rate, commitment, SatAdd(now, SecsToMillis(active)),
                                                                    active, grace)))],
                        [NativePayment(metas[2], metas[3], PaymentAmount(rate, price)),
                         MerkleCallOn(merkleProgram, metas[1], treeId, Insert(LeafOf(p, commitment, rate)))]))
    case Slash(treeId, commitment, secret, merkleProgram, leafIndex, rate) =>
      if |metas| != 3 || !p.isField(secret) || p.h1(secret) != commitment
         || !OwnPda(metas[0], ConfigPda(treeId)) || !IsTreeMain(metas[1], treeId, merkleProgram)
         || !OwnPda(metas[2], MembershipPda(treeId, commitment)) || !p.isField(commitment) then Panic
      else
        Done(PlanOutput([ShardEffect(SelectorOf(metas[0]), ReleaseConfig(treeId, merkleProgram, rate)),
                         ShardEffect(SelectorOf(metas[2]), SlashMembership(commitment, rate))],
                        [MerkleCallOn(merkleProgram, metas[1], treeId, Remove(leafIndex, LeafOf(p, commitment, rate)))]))
    case Extend(treeId, commitment, now, price, rate) =>
      if |metas| != 5 || !OwnPda(metas[0], ConfigPda(treeId)) || !OwnPda(metas[1], MembershipPda(treeId, commitment))
         || !IsClock(metas[4]) || !metas[2].authorized then Panic
      else
        Done(PlanOutput([ShardEffect(SelectorOf(metas[0]), ExtendConfig(treeId, price, metas[3].account)),
                         ShardEffect(SelectorOf(metas[4]), ClockIs(now)),
                         ShardEffect(SelectorOf(metas[1]), ExtendMembership(now, rate))],
                        [NativePayment(metas[2], metas[3], PaymentAmount(rate, price))]))
    case Erase(treeId, commitment, merkleProgram, leafIndex, rate, now) =>
      if |metas| != 4 || !OwnPda(metas[0], ConfigPda(treeId)) || !IsTreeMain(metas[1], treeId, merkleProgram)
         || !OwnPda(metas[2], MembershipPda(treeId, commitment)) || !IsClock(metas[3]) || !p.isField(commitment) then Panic
      else
        Done(PlanOutput([ShardEffect(SelectorOf(metas[0]), ReleaseConfig(treeId, merkleProgram, rate)),
                         ShardEffect(SelectorOf(metas[3]), ClockIs(now)),
                         ShardEffect(SelectorOf(metas[2]), EraseMembership(now, rate))],
                        [MerkleCallOn(merkleProgram, metas[1], treeId, Remove(leafIndex, LeafOf(p, commitment, rate)))]))
  }

  // ---- apply ----

  /** What an apply does to its shard. */
  datatype Update = Keep | Replace(data: ShardData) | Clear

  predicate ConfigIdsMatch(config: ConfigState, treeId: Hash, merkleProgram: AccountId) {
    config.treeId == treeId && config.merkleProgram == merkleProgram
  }

  /** One effect on one shard; `None` is an empty shard, and a shard of another kind does not decode. */
  function Apply(effect: Effect, pre: Option<ShardData>): Outcome<Update> {
    match effect
    case InitConfig(config) =>
      if pre.Some? then Panic else Done(Replace(ConfigShard(config)))
    case InitTreeGuard(treeId, merkleProgram) =>
      if pre.None? || !pre.value.ConfigShard? || !ConfigIdsMatch(pre.value.config, treeId, merkleProgram) then Panic
      else Done(Keep)
    case RegisterConfig(treeId, merkleProgram, price, treasury, rate, active, grace) =>
      if pre.None? || !pre.value.ConfigShard? || !ConfigIdsMatch(pre.value.config, treeId, merkleProgram) then Panic
      else
        var config := pre.value.config;
        if config.pricePerUnit != price || config.treasury != treasury || config.activeSec != active
           || config.graceSec != grace then Exit(EXIT_STALE_CONFIG)
        else if !CanRegister(config, rate) then Exit(EXIT_RATE_LIMIT_FULL)
        else Done(Replace(ConfigShard(config.(totalRegistrations := SatAdd(config.totalRegistrations, 1),
                                              currentTotalRateLimit := SatAdd(config.currentTotalRateLimit, rate)))))
    case InitMembership(membership) =>
      if pre.Some? then Exit(EXIT_MEMBERSHIP_EXISTS) else Done(Replace(MembershipShard(membership)))
    case ClockIs(now) =>
      if pre.None? || !pre.value.ClockShard? then Panic
      else if pre.value.timestamp == 0 then Exit(EXIT_CLOCK_NOT_INITIALIZED)
      else if now > pre.value.timestamp || pre.value.timestamp - now > CLOCK_CLAIM_TOLERANCE_MS then Exit(EXIT_STALE_CLOCK)
      else Done(Keep)
    case ReleaseConfig(treeId, merkleProgram, rate) =>
      if pre.None? || !pre.value.ConfigShard? || !ConfigIdsMatch(pre.value.config, treeId, merkleProgram) then Panic
      else
        var config := pre.value.config;
        Done(Replace(ConfigShard(config.(currentTotalRateLimit := SatSub(config.currentTotalRateLimit, rate),
                                         totalRegistrations := SatSub(config.totalRegistrations, 1)))))
    case SlashMembership(commitment, rate) =>
      if pre.None? then Exit(EXIT_MEMBERSHIP_MISSING)
      else if !pre.value.MembershipShard? || pre.value.membership.idCommitment != commitment then Panic
      else if pre.value.membership.rateLimit != rate then Exit(EXIT_STALE_RATE_LIMIT)
      else Done(Clear)
    case ExtendConfig(treeId, price, treasury) =>
      if pre.None? || !pre.value.ConfigShard? || pre.value.config.treeId != treeId then Panic
      else if pre.value.config.pricePerUnit != price || pre.value.config.treasury != treasury then Exit(EXIT_STALE_CONFIG)
      else Done(Keep)
    case ExtendMembership(now, rate) =>
      if pre.None? then Exit(EXIT_MEMBERSHIP_MISSING)
      else if !pre.value.MembershipShard? then Panic
      else
        var m := pre.value.membership;
        if m.rateLimit != rate then Exit(EXIT_STALE_RATE_LIMIT)
        else if !IsInGracePeriod(m.graceStart, SecsToMillis(m.graceSec), now) then Exit(EXIT_NOT_IN_GRACE_PERIOD)
        else Done(Replace(MembershipShard(Renewed(m))))
    case EraseMembership(now, rate) =>
      if pre.None? then Exit(EXIT_MEMBERSHIP_MISSING)
      else if !pre.value.MembershipShard? then Panic
      else
        var m := pre.value.membership;
        if m.rateLimit != rate then Exit(EXIT_STALE_RATE_LIMIT)
        else if !IsExpired(m.graceStart, SecsToMillis(m.graceSec), now) then Exit(EXIT_NOT_EXPIRED)
        else Done(Clear)
  }

  /** A renewal moves the grace start on by one whole period. */
  function Renewed(m: MembershipState): MembershipState {
    m.(graceStart := SatAdd(SatAdd(m.graceStart, SecsToMillis(m.graceSec)), SecsToMillis(m.activeSec)))
  }
}
