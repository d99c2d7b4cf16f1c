/** One tree's registry as a whole, and each instruction as a single check-and-update of all of it: the contract
    the two-phase program must amount to. */
module Registry {
  import opened Bytes
  import opened Hashing
  import opened Outcomes
  import opened Registration
  import opened Tree

  /** A tree's config, its live memberships and its Merkle tree. */
  datatype View = View(config: Option<ConfigState>, members: map<Hash, MembershipState>, tree: Option<Tree>)

  /** The arguments alone are acceptable. */
  predicate WellFormed(p: Params, ix: Instruction) {
    match ix
    case Initialize(_, _, _, _, max, active, _) => max > 0 && active > 0
    case InitializeMerkleTree(_, _) => true
    case Register(_, commitment, rate, _, _, _, _, _) =>
      p.isField(commitment) && commitment != ZERO && MIN_RATE_LIMIT <= rate <= MAX_RATE_LIMIT
    case Slash(_, commitment, secret, _, _, _) =>
      p.isField(secret) && p.h1(secret) == commitment && p.isField(commitment)
    case Extend(_, _, _, _, _) => true
    case Erase(_, commitment, _, _, _, _) => p.isField(commitment)
  }

  predicate ClockAccepts(clock: u64, now: u64) {
    0 < clock && now <= clock && clock - now <= CLOCK_CLAIM_TOLERANCE_MS
  }

  function ClockCheck(clock: u64, now: u64): Outcome<()> {
    if clock == 0 then Exit(EXIT_CLOCK_NOT_INITIALIZED)
    else if ClockAccepts(clock, now) then Done(()) else Exit(EXIT_STALE_CLOCK)
  }

  predicate HasConfig(v: View, treeId: Hash, merkleProgram: AccountId) {
    v.config.Some? && ConfigIdsMatch(v.config.value, treeId, merkleProgram)
  }

  function Counted(c: ConfigState, rate: u64): ConfigState {
    c.(totalRegistrations := SatAdd(c.totalRegistrations, 1),
       currentTotalRateLimit := SatAdd(c.currentTotalRateLimit, rate))
  }

  function Uncounted(c: ConfigState, rate: u64): ConfigState {
    c.(currentTotalRateLimit := SatSub(c.currentTotalRateLimit, rate),
       totalRegistrations := SatSub(c.totalRegistrations, 1))
  }

  /** The tree's own answer, for a callee this project models. */
  function TreeStep(p: Params, merkleProgram: AccountId, mix: MerkleIx, tree: Option<Tree>): Outcome<Tree> {
    if merkleProgram != MerkleProgram then Foreign else TreeApply(p, mix, tree)
  }

  function NewConfig(ix: Instruction): ConfigState
    requires ix.Initialize?
  {
    ConfigState(ix.merkleProgram, ix.treeId, ix.pricePerUnit, ix.treasury, 0, ix.maxTotalRateLimit, 0,
                ix.activeSec, ix.graceSec)
  }

  function NewMember(ix: Instruction): MembershipState
    requires ix.Register?
  {
    MembershipState(ix.rateLimit, ix.idCommitment, SatAdd(ix.now, SecsToMillis(ix.activeSec)), ix.activeSec, ix.graceSec)
  }

  predicate TermsMatch(c: ConfigState, ix: Instruction, treasury: AccountId)
    requires ix.Register?
  {
    && c.pricePerUnit == ix.pricePerUnit && c.treasury == treasury
    && c.activeSec == ix.activeSec && c.graceSec == ix.graceSec
  }

  function RegisterEffectsContract(v: View, clock: u64, treasury: AccountId, ix: Instruction): Outcome<View>
    requires ix.Register?
  {
    if !HasConfig(v, ix.treeId, ix.merkleProgram) then Panic
    else if !TermsMatch(v.config.value, ix, treasury) then Exit(EXIT_STALE_CONFIG)
    else if !CanRegister(v.config.value, ix.rateLimit) then Exit(EXIT_RATE_LIMIT_FULL)
    else
      var _ :- ClockCheck(clock, ix.now);
      if ix.idCommitment in v.members then Exit(EXIT_MEMBERSHIP_EXISTS)
      else Done(View(Some(Counted(v.config.value, ix.rateLimit)), v.members[ix.idCommitment := NewMember(ix)], v.tree))
  }

  /** The membership a slash or an erase wants to end. */
  function MemberCheck(v: View, commitment: Hash, rate: u64): Outcome<MembershipState> {
    if commitment !in v.members then Exit(EXIT_MEMBERSHIP_MISSING)
    else if v.members[commitment].rateLimit != rate then Exit(EXIT_STALE_RATE_LIMIT)
    else Done(v.members[commitment])
  }

  function SlashEffectsContract(v: View, ix: Instruction): Outcome<View>
    requires ix.Slash?
  {
    if !HasConfig(v, ix.treeId, ix.merkleProgram) then Panic
    else if ix.idCommitment in v.members && v.members[ix.idCommitment].idCommitment != ix.idCommitment then Panic
    else
      var _ :- MemberCheck(v, ix.idCommitment, ix.rateLimit);
      Done(View(Some(Uncounted(v.config.value, ix.rateLimit)), v.members - {ix.idCommitment}, v.tree))
  }

  function EraseEffectsContract(v: View, clock: u64, ix: Instruction): Outcome<View>
    requires ix.Erase?
  {
    if !HasConfig(v, ix.treeId, ix.merkleProgram) then Panic
    else
      var _ :- ClockCheck(clock, ix.now);
      var m :- MemberCheck(v, ix.idCommitment, ix.rateLimit);
      if !IsExpired(m.graceStart, SecsToMillis(m.graceSec), ix.now) then Exit(EXIT_NOT_EXPIRED)
      else Done(View(Some(Uncounted(v.config.value, ix.rateLimit)), v.members - {ix.idCommitment}, v.tree))
  }

  function ExtendEffectsContract(v: View, clock: u64, treasury: AccountId, ix: Instruction): Outcome<View>
    requires ix.Extend?
  {
    if v.config.None? || v.config.value.treeId != ix.treeId then Panic
    else if v.config.value.pricePerUnit != ix.pricePerUnit || v.config.value.treasury != treasury
    then Exit(EXIT_STALE_CONFIG)
    else
      var _ :- ClockCheck(clock, ix.now);
      var m :- MemberCheck(v, ix.idCommitment, ix.rateLimit);
      if !IsInGracePeriod(m.graceStart, SecsToMillis(m.graceSec), ix.now) then Exit(EXIT_NOT_IN_GRACE_PERIOD)
      else Done(v.(members := v.members[ix.idCommitment := Renewed(m)]))
  }

  /** What the effects of an instruction do to its registry, or how they fail. */
  function EffectsContract(v: View, clock: u64, treasury: AccountId, ix: Instruction): Outcome<View> {
    match ix
    case Initialize(_, _, _, _, _, _, _) => if v.config.Some? then Panic else Done(v.(config := Some(NewConfig(ix))))
    case InitializeMerkleTree(treeId, merkleProgram) => if !HasConfig(v, treeId, merkleProgram) then Panic else Done(v)
    case Register(_, _, _, _, _, _, _, _) => RegisterEffectsContract(v, clock, treasury, ix)
    case Slash(_, _, _, _, _, _) => SlashEffectsContract(v, ix)
    case Extend(_, _, _, _, _) => ExtendEffectsContract(v, clock, treasury, ix)
    case Erase(_, _, _, _, _, _) => EraseEffectsContract(v, clock, ix)
  }

  /** What an instruction costs its payer. */
  function Price(ix: Instruction): nat {
    match ix
    case Register(_, _, rate, _, _, price, _, _) => PaymentAmount(rate, price)
    case Extend(_, _, _, price, rate) => PaymentAmount(rate, price)
    case _ => 0
  }

  /** What an instruction asks of the tree, and of which program. */
  function TreeRequest(p: Params, ix: Instruction): Option<(AccountId, MerkleIx)> {
    match ix
    case Initialize(_, _, _, _, _, _, _) => None
    case InitializeMerkleTree(_, merkleProgram) => Some((merkleProgram, MerkleIx.Initialize))
    case Register(_, commitment, rate, merkleProgram, _, _, _, _) =>
      Some((merkleProgram, Insert(LeafOf(p, commitment, rate))))
    case Slash(_, commitment, _, merkleProgram, index, rate) =>
      Some((merkleProgram, Remove(index, LeafOf(p, commitment, rate))))
    case Extend(_, _, _, _, _) => None
    case Erase(_, commitment, merkleProgram, index, rate, _) =>
      Some((merkleProgram, Remove(index, LeafOf(p, commitment, rate))))
  }

  function TreeContract(p: Params, v: View, ix: Instruction): Outcome<View> {
    match TreeRequest(p, ix)
    case None => Done(v)
    case Some(request) =>
      var tree :- TreeStep(p, request.0, request.1, v.tree);
      Done(v.(tree := Some(tree)))
  }

  /** The whole instruction on the whole registry at once: `purse` is what the payer holds and `treasury` the
      account to be paid. */
  function Contract(p: Params, v: View, clock: u64, purse: nat, treasury: AccountId, ix: Instruction): Outcome<View> {
    if !WellFormed(p, ix) then Panic
    else
      var checked :- EffectsContract(v, clock, treasury, ix);
      if purse < Price(ix) then Refused
      else TreeContract(p, checked, ix)
  }

  // ---- when an instruction commits, and to what ----

  /** The slot named by the hint holds the leaf to be removed. */
  predicate Hits(p: Params, tree: Option<Tree>, index: nat, leaf: Hash) {
    tree.Some? && index < |tree.value.leaves| && tree.value.leaves[index] == leaf
  }

  /** Every guard of an instruction, in one conjunction. */
  predicate Enabled(p: Params, v: View, clock: u64, purse: nat, treasury: AccountId, ix: Instruction) {
    WellFormed(p, ix) &&
    match ix
    case Initialize(_, _, _, _, _, _, _) => v.config.None?
    case InitializeMerkleTree(treeId, merkleProgram) =>
      HasConfig(v, treeId, merkleProgram) && merkleProgram == MerkleProgram && v.tree.None?
    case Register(treeId, commitment, rate, merkleProgram, now, _, _, _) =>
      && HasConfig(v, treeId, merkleProgram) && TermsMatch(v.config.value, ix, treasury)
      && CanRegister(v.config.value, rate) && ClockAccepts(clock, now) && commitment !in v.members
      && Price(ix) <= purse
      && merkleProgram == MerkleProgram && v.tree.Some? && p.isField(LeafOf(p, commitment, rate))
      && |v.tree.value.leaves| < Pow2(p.depth)
    case Slash(treeId, commitment, _, merkleProgram, index, rate) =>
      && HasConfig(v, treeId, merkleProgram)
      && commitment in v.members && v.members[commitment].idCommitment == commitment
      && v.members[commitment].rateLimit == rate
      && merkleProgram == MerkleProgram && Hits(p, v.tree, index, LeafOf(p, commitment, rate))
    case Extend(treeId, commitment, now, price, rate) =>
      && v.config.Some? && v.config.value.treeId == treeId
      && v.config.value.pricePerUnit == price && v.config.value.treasury == treasury
      && ClockAccepts(clock, now)
      && commitment in v.members && v.members[commitment].rateLimit == rate
      && IsInGracePeriod(v.members[commitment].graceStart, SecsToMillis(v.members[commitment].graceSec), now)
      && Price(ix) <= purse
    case Erase(treeId, commitment, merkleProgram, index, rate, now) =>
      && HasConfig(v, treeId, merkleProgram) && ClockAccepts(clock, now)
      && commitment in v.members && v.members[commitment].rateLimit == rate
      && IsExpired(v.members[commitment].graceStart, SecsToMillis(v.members[commitment].graceSec), now)
      && merkleProgram == MerkleProgram && Hits(p, v.tree, index, LeafOf(p, commitment, rate))
  }

  function Joined(p: Params, v: View, c: Hash, m: MembershipState): View
    requires v.config.Some? && v.tree.Some?
  {
    View(Some(Counted(v.config.value, m.rateLimit)), v.members[c := m],
         Some(Write(p, v.tree.value, |v.tree.value.leaves|, LeafOf(p, c, m.rateLimit))))
  }

  function Departed(p: Params, v: View, c: Hash, rate: u64, index: nat): View
    requires v.config.Some? && v.tree.Some? && index <= |v.tree.value.leaves|
  {
    View(Some(Uncounted(v.config.value, rate)), v.members - {c}, Some(Write(p, v.tree.value, index, ZERO)))
  }

  function Prolonged(v: View, c: Hash): View
    requires c in v.members
  {
    v.(members := v.members[c := Renewed(v.members[c])])
  }

  /** The registry after an instruction that was enabled. */
  function After(p: Params, v: View, clock: u64, purse: nat, treasury: AccountId, ix: Instruction): View
    requires Enabled(p, v, clock, purse, treasury, ix)
  {
    match ix
    case Initialize(_, _, _, _, _, _, _) => v.(config := Some(NewConfig(ix)))
    case InitializeMerkleTree(_, _) => v.(tree := Some(EMPTY_TREE))
    case Register(_, commitment, _, _, _, _, _, _) => Joined(p, v, commitment, NewMember(ix))
    case Slash(_, commitment, _, _, index, rate) => Departed(p, v, commitment, rate, index)
    case Extend(_, commitment, _, _, _) => Prolonged(v, commitment)
    case Erase(_, commitment, _, index, rate, _) => Departed(p, v, commitment, rate, index)
  }

  /** The contract commits exactly when every guard holds, and then does exactly this. */
  predicate IsExact(p: Params, v: View, clock: u64, purse: nat, treasury: AccountId, ix: Instruction) {
    var out := Contract(p, v, clock, purse, treasury, ix);
    if Enabled(p, v, clock, purse, treasury, ix) then out == Done(After(p, v, clock, purse, treasury, ix))
    else out.IsFailure()
  }

  lemma RegisterExact(p: Params, v: View, clock: u64, purse: nat, treasury: AccountId, ix: Instruction)
    requires ix.Register?
    ensures IsExact(p, v, clock, purse, treasury, ix)
  {
  }

  lemma SlashExact(p: Params, v: View, clock: u64, purse: nat, treasury: AccountId, ix: Instruction)
    requires ix.Slash?
    ensures IsExact(p, v, clock, purse, treasury, ix)
  {
  }

  lemma ExtendExact(p: Params, v: View, clock: u64, purse: nat, treasury: AccountId, ix: Instruction)
    requires ix.Extend?
    ensures IsExact(p, v, clock, purse, treasury, ix)
  {
  }

  lemma EraseExact(p: Params, v: View, clock: u64, purse: nat, treasury: AccountId, ix: Instruction)
    requires ix.Erase?
    ensures IsExact(p, v, clock, purse, treasury, ix)
  {
  }

  /** For every instruction. */
  lemma ContractExact(p: Params, v: View, clock: u64, purse: nat, treasury: AccountId, ix: Instruction)
    ensures IsExact(p, v, clock, purse, treasury, ix)
  {
    match ix
    case Initialize(_, _, _, _, _, _, _) =>
    case InitializeMerkleTree(_, _) =>
    case Register(_, _, _, _, _, _, _, _) => RegisterExact(p, v, clock, purse, treasury, ix);
    case Slash(_, _, _, _, _, _) => SlashExact(p, v, clock, purse, treasury, ix);
    case Extend(_, _, _, _, _) => ExtendExact(p, v, clock, purse, treasury, ix);
    case Erase(_, _, _, _, _, _) => EraseExact(p, v, clock, purse, treasury, ix);
  }
}
