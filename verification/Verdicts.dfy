/** How every transaction ends, in the order a reader of the programs meets the guards: who fails how, with the exit
    codes, limits and account positions written out, and what a commit leaves in every field. */
module Verdicts {
  import opened Bytes
  import opened Commits
  import opened Executor
  import opened Hashing
  import opened Merkle
  import opened Outcomes
  import opened Registration
  import opened Registry
  import opened Runs
  import opened Tree
  import opened TreeLaws
  import opened Views

  /** `b` is the eight little-endian bytes of `n`, then zeros. */
  ghost predicate IsWord(b: Hash, n: nat) {
    && b[0] == n % 256 && b[1] == n / 0x100 % 256 && b[2] == n / 0x1_0000 % 256 && b[3] == n / 0x100_0000 % 256
    && b[4] == n / 0x1_0000_0000 % 256 && b[5] == n / 0x100_0000_0000 % 256
    && b[6] == n / 0x1_0000_0000_0000 % 256 && b[7] == n / 0x100_0000_0000_0000 % 256
    && (forall i: nat :: 8 <= i < 32 ==> b[i] == 0)
  }

  predicate Is(meta: AccountMeta, account: AccountId, program: AccountId) {
    meta.account == account && meta.program == program
  }

  /** Somebody signed for an account that has no key. */
  ghost predicate Forged(metas: seq<AccountMeta>) {
    exists i: nat :: i < |metas| && metas[i].authorized && !metas[i].account.Plain?
  }

  function Min(a: nat, b: nat): nat {
    if a < b then a else b
  }

  function Purse(w: World, a: AccountId): nat {
    if a in w.balances then w.balances[a] else 0
  }

  /** A price in full, or the largest u128. */
  function Cost(price: nat, rate: nat): nat {
    Min(price * rate, 0xFFFF_FFFF_FFFF_FFFF_FFFF_FFFF_FFFF_FFFF)
  }

  // ---- the guards, one after the other ----

  ghost function OfInitialize(p: Params, w: World, metas: seq<AccountMeta>, ix: Instruction): Outcome<()>
    requires ix.Initialize?
  {
    var v := ViewOf(w, ix.treeId);
    if Forged(metas) then Refused
    else if |metas| != 1 || !Is(metas[0], ConfigPda(ix.treeId), RegistrationProgram) then Panic
    else if ix.maxTotalRateLimit == 0 || ix.activeSec == 0 || v.config.Some? then Panic
    else Done(())
  }

  ghost function OfInitializeMerkleTree(p: Params, w: World, metas: seq<AccountMeta>, ix: Instruction): Outcome<()>
    requires ix.InitializeMerkleTree?
  {
    var v := ViewOf(w, ix.treeId);
    if Forged(metas) then Refused
    else if |metas| != 2 || !Is(metas[0], ConfigPda(ix.treeId), RegistrationProgram)
            || !Is(metas[1], MainPda(ix.treeId), ix.merkleProgram) then Panic
    else if v.config.None? || v.config.value.treeId != ix.treeId || v.config.value.merkleProgram != ix.merkleProgram
    then Panic
    else if ix.merkleProgram != MerkleProgram then Foreign
    else if v.tree.Some? then Panic
    else Done(())
  }

  ghost predicate RegisterAccounts(metas: seq<AccountMeta>, ix: Instruction)
    requires ix.Register?
  {
    && |metas| == 6
    && Is(metas[0], ConfigPda(ix.treeId), RegistrationProgram) && Is(metas[1], MainPda(ix.treeId), ix.merkleProgram)
    && metas[2].authorized && Is(metas[4], Clock50, ClockProgram)
    && Is(metas[5], MembershipPda(ix.treeId, ix.idCommitment), RegistrationProgram)
  }

  /** No config at the tree id's account, or one of other ids than claimed. */
  ghost predicate WrongIds(v: View, treeId: Hash, merkleProgram: AccountId) {
    v.config.None? || v.config.value.treeId != treeId || v.config.value.merkleProgram != merkleProgram
  }

  function OfClock(clock: u64, now: u64): Outcome<()> {
    if clock == 0 then Exit(11)
    else if now > clock || clock > now + 900_000 then Exit(10)
    else Done(())
  }

  ghost function OfRegisterEffects(v: View, clock: u64, treasury: AccountId, ix: Instruction): Outcome<()>
    requires ix.Register?
  {
    if WrongIds(v, ix.treeId, ix.merkleProgram) then Panic
    else if v.config.value.pricePerUnit != ix.pricePerUnit || v.config.value.treasury != treasury
            || v.config.value.activeSec != ix.activeSec || v.config.value.graceSec != ix.graceSec then Exit(12)
    else if Min(v.config.value.currentTotalRateLimit + ix.rateLimit, 0xFFFF_FFFF_FFFF_FFFF)
            > v.config.value.maxTotalRateLimit then Exit(13)
    else
      var _ :- OfClock(clock, ix.now);
      if ix.idCommitment in v.members then Exit(14) else Done(())
  }

  /** `leaf` is what the instruction hashes to. */
  ghost function OfInsert(p: Params, v: View, merkleProgram: AccountId, leaf: Hash): Outcome<()> {
    if merkleProgram != MerkleProgram then Foreign
    else if v.tree.None? || !p.isField(leaf) then Panic
    else if |v.tree.value.leaves| >= Pow2(p.depth) then Exit(20)
    else Done(())
  }

  ghost function OfRemove(v: View, merkleProgram: AccountId, index: nat, leaf: Hash): Outcome<()> {
    if merkleProgram != MerkleProgram then Foreign
    else if v.tree.None? then Panic
    else if index >= |v.tree.value.leaves| || v.tree.value.leaves[index] != leaf then Exit(19)
    else Done(())
  }

  /** `rateWord` is the rate limit as the leaf hash takes it. */
  ghost function OfRegister(p: Params, w: World, metas: seq<AccountMeta>, ix: Instruction, rateWord: Hash): Outcome<()>
    requires ix.Register?
  {
    var v := ViewOf(w, ix.treeId);
    if Forged(metas) then Refused
    else if !RegisterAccounts(metas, ix) || !p.isField(ix.idCommitment) || AllZero(ix.idCommitment)
            || ix.rateLimit < 100 || 600 < ix.rateLimit then Panic
    else
      var _ :- OfRegisterEffects(v, w.clock, metas[3].account, ix);
      if Purse(w, metas[2].account) < Cost(ix.pricePerUnit, ix.rateLimit) then Refused
      else OfInsert(p, v, ix.merkleProgram, p.h2(ix.idCommitment, rateWord))
  }

  /** The membership claims of an instruction that looks at one. */
  ghost function OfMember(v: View, c: Hash, rate: u64): Outcome<MembershipState> {
    if c !in v.members then Exit(15)
    else if v.members[c].rateLimit != rate then Exit(16)
    else Done(v.members[c])
  }

  ghost predicate SlashAccounts(metas: seq<AccountMeta>, ix: Instruction)
    requires ix.Slash?
  {
    && |metas| == 3
    && Is(metas[0], ConfigPda(ix.treeId), RegistrationProgram) && Is(metas[1], MainPda(ix.treeId), ix.merkleProgram)
    && Is(metas[2], MembershipPda(ix.treeId, ix.idCommitment), RegistrationProgram)
  }

  ghost function OfSlashEffects(v: View, ix: Instruction): Outcome<()>
    requires ix.Slash?
  {
    var c := ix.idCommitment;
    if WrongIds(v, ix.treeId, ix.merkleProgram) then Panic
    else if c in v.members && v.members[c].idCommitment != c then Panic
    else
      var _ :- OfMember(v, c, ix.rateLimit);
      Done(())
  }

  ghost function OfSlash(p: Params, w: World, metas: seq<AccountMeta>, ix: Instruction, rateWord: Hash): Outcome<()>
    requires ix.Slash?
  {
    var v, c := ViewOf(w, ix.treeId), ix.idCommitment;
    if Forged(metas) then Refused
    else if !SlashAccounts(metas, ix) || !p.isField(ix.secret) || p.h1(ix.secret) != c || !p.isField(c) then Panic
    else
      var _ :- OfSlashEffects(v, ix);
      OfRemove(v, ix.merkleProgram, ix.leafIndex, p.h2(c, rateWord))
  }

  ghost predicate ExtendAccounts(metas: seq<AccountMeta>, ix: Instruction)
    requires ix.Extend?
  {
    && |metas| == 5
    && Is(metas[0], ConfigPda(ix.treeId), RegistrationProgram)
    && Is(metas[1], MembershipPda(ix.treeId, ix.idCommitment), RegistrationProgram)
    && metas[2].authorized && Is(metas[4], Clock50, ClockProgram)
  }

  /** The first moment after a membership's grace period. */
  function GraceEnd(m: MembershipState): nat {
    Min(m.graceStart + 1000 * m.graceSec, 0xFFFF_FFFF_FFFF_FFFF)
  }

  ghost function OfExtendEffects(v: View, clock: u64, treasury: AccountId, ix: Instruction): Outcome<()>
    requires ix.Extend?
  {
    if v.config.None? || v.config.value.treeId != ix.treeId then Panic
    else if v.config.value.pricePerUnit != ix.pricePerUnit || v.config.value.treasury != treasury then Exit(12)
    else
      var _ :- OfClock(clock, ix.now);
      var m :- OfMember(v, ix.idCommitment, ix.rateLimit);
      if m.graceStart <= ix.now < GraceEnd(m) then Done(()) else Exit(17)
  }

  ghost function OfExtend(w: World, metas: seq<AccountMeta>, ix: Instruction): Outcome<()>
    requires ix.Extend?
  {
    if Forged(metas) then Refused
    else if !ExtendAccounts(metas, ix) then Panic
    else
      var _ :- OfExtendEffects(ViewOf(w, ix.treeId), w.clock, metas[3].account, ix);
      if Purse(w, metas[2].account) < Cost(ix.pricePerUnit, ix.rateLimit) then Refused else Done(())
  }

  ghost predicate EraseAccounts(metas: seq<AccountMeta>, ix: Instruction)
    requires ix.Erase?
  {
    && |metas| == 4
    && Is(metas[0], ConfigPda(ix.treeId), RegistrationProgram) && Is(metas[1], MainPda(ix.treeId), ix.merkleProgram)
    && Is(metas[2], MembershipPda(ix.treeId, ix.idCommitment), RegistrationProgram) && Is(metas[3], Clock50, ClockProgram)
  }

  ghost function OfEraseEffects(v: View, clock: u64, ix: Instruction): Outcome<()>
    requires ix.Erase?
  {
    if WrongIds(v, ix.treeId, ix.merkleProgram) then Panic
    else
      var _ :- OfClock(clock, ix.now);
      var m :- OfMember(v, ix.idCommitment, ix.rateLimit);
      if GraceEnd(m) <= ix.now then Done(()) else Exit(18)
  }

  ghost function OfErase(p: Params, w: World, metas: seq<AccountMeta>, ix: Instruction, rateWord: Hash): Outcome<()>
    requires ix.Erase?
  {
    var v := ViewOf(w, ix.treeId);
    if Forged(metas) then Refused
    else if !EraseAccounts(metas, ix) || !p.isField(ix.idCommitment) then Panic
    else
      var _ :- OfEraseEffects(v, w.clock, ix);
      OfRemove(v, ix.merkleProgram, ix.leafIndex, p.h2(ix.idCommitment, rateWord))
  }

  // ---- numbers and bytes as the programs write them ----

  /** The rate limit enters the leaf hash as one word, and the word reads back. */
  lemma RateIsWord(rate: u64)
    ensures IsWord(RateBytes(rate), rate)
    ensures FromLE(RateBytes(rate)[..8]) == rate
  {
    var b := RateBytes(rate);
    EightBytes(rate);
    forall i: nat | 8 <= i < 32 ensures b[i] == 0 {
      ZeroBytes(32, i);
      assert ZERO[8..][i - 8] == ZERO[i];
    }
    assert b[..8] == ToLE(rate, 8);
    U64RoundTrip(rate);
  }

  /** And there is only one such word. */
  lemma OneWord(b: Hash, rate: u64)
    requires IsWord(b, rate)
    ensures b == RateBytes(rate)
  {
    RateIsWord(rate);
    assert forall i: nat :: i < 32 ==> b[i] == RateBytes(rate)[i];
  }

  // ---- and the machine ends exactly so ----

  lemma ForgedIsRefused(p: Params, w: World, metas: seq<AccountMeta>, ix: Instruction)
    ensures Forged(metas) <==> !Signable(RegistrationTx(metas, ix))
    ensures Forged(metas) ==> Execute(p, w, RegistrationTx(metas, ix)).Refused?
  {
  }

  lemma MachineVerdict(p: Params, w: World, metas: seq<AccountMeta>, ix: Instruction)
    requires WellTyped(w) && !Forged(metas)
    ensures SameOutcome(Verdict(p, w, metas, ix), Execute(p, w, RegistrationTx(metas, ix)))
  {
    ForgedIsRefused(p, w, metas, ix);
    TransactionExact(p, w, metas, ix);
  }

  lemma RegisterEffectsEnd(v: View, clock: u64, treasury: AccountId, ix: Instruction)
    requires ix.Register?
    ensures SameOutcome(OfRegisterEffects(v, clock, treasury, ix), EffectsContract(v, clock, treasury, ix))
    ensures EffectsContract(v, clock, treasury, ix).Done? ==> EffectsContract(v, clock, treasury, ix).value.tree == v.tree
  {
  }

  lemma SlashEffectsEnd(v: View, clock: u64, treasury: AccountId, ix: Instruction)
    requires ix.Slash?
    ensures SameOutcome(OfSlashEffects(v, ix), EffectsContract(v, clock, treasury, ix))
    ensures EffectsContract(v, clock, treasury, ix).Done? ==> EffectsContract(v, clock, treasury, ix).value.tree == v.tree
  {
  }

  lemma ExtendEffectsEnd(v: View, clock: u64, treasury: AccountId, ix: Instruction)
    requires ix.Extend?
    ensures SameOutcome(OfExtendEffects(v, clock, treasury, ix), EffectsContract(v, clock, treasury, ix))
    ensures EffectsContract(v, clock, treasury, ix).Done? ==> EffectsContract(v, clock, treasury, ix).value.tree == v.tree
  {
  }

  lemma EraseEffectsEnd(v: View, clock: u64, treasury: AccountId, ix: Instruction)
    requires ix.Erase?
    ensures SameOutcome(OfEraseEffects(v, clock, ix), EffectsContract(v, clock, treasury, ix))
    ensures EffectsContract(v, clock, treasury, ix).Done? ==> EffectsContract(v, clock, treasury, ix).value.tree == v.tree
  {
  }

  lemma InsertEnds(p: Params, v: View, checked: View, ix: Instruction)
    requires ix.Register? && checked.tree == v.tree
    ensures SameOutcome(OfInsert(p, v, ix.merkleProgram, LeafOf(p, ix.idCommitment, ix.rateLimit)),
                        TreeContract(p, checked, ix))
  {
  }

  lemma RemoveEnds(p: Params, v: View, checked: View, ix: Instruction)
    requires (ix.Slash? || ix.Erase?) && checked.tree == v.tree
    ensures SameOutcome(OfRemove(v, ix.merkleProgram, ix.leafIndex, LeafOf(p, ix.idCommitment, ix.rateLimit)),
                        TreeContract(p, checked, ix))
  {
  }

  /** A verdict made of its stages. */
  ghost function Staged(p: Params, w: World, metas: seq<AccountMeta>, ix: Instruction): Outcome<View> {
    if !AccountsRight(metas, ix) || !WellFormed(p, ix) then Panic
    else
      var checked :- EffectsContract(ViewOf(w, ix.treeId), w.clock, Treasury(metas), ix);
      if Balance(w, Payer(metas)) < Price(ix) then Refused else TreeContract(p, checked, ix)
  }

  lemma StagedEnds(p: Params, w: World, metas: seq<AccountMeta>, ix: Instruction)
    requires WellTyped(w) && !Forged(metas)
    ensures SameOutcome(Staged(p, w, metas, ix), Execute(p, w, RegistrationTx(metas, ix)))
  {
    MachineVerdict(p, w, metas, ix);
  }

  lemma InitializeEnds(p: Params, w: World, metas: seq<AccountMeta>, ix: Instruction)
    requires WellTyped(w) && ix.Initialize?
    ensures SameOutcome(OfInitialize(p, w, metas, ix), Execute(p, w, RegistrationTx(metas, ix)))
  {
    ForgedIsRefused(p, w, metas, ix);
    if !Forged(metas) {
      MachineVerdict(p, w, metas, ix);
    }
  }

  lemma InitializeMerkleTreeEnds(p: Params, w: World, metas: seq<AccountMeta>, ix: Instruction)
    requires WellTyped(w) && ix.InitializeMerkleTree?
    ensures SameOutcome(OfInitializeMerkleTree(p, w, metas, ix), Execute(p, w, RegistrationTx(metas, ix)))
  {
    ForgedIsRefused(p, w, metas, ix);
    if !Forged(metas) {
      MachineVerdict(p, w, metas, ix);
    }
  }

  lemma RegisterEnds(p: Params, w: World, metas: seq<AccountMeta>, ix: Instruction, rateWord: Hash)
    requires WellTyped(w) && ix.Register? && IsWord(rateWord, ix.rateLimit)
    ensures SameOutcome(OfRegister(p, w, metas, ix, rateWord), Execute(p, w, RegistrationTx(metas, ix)))
  {
    ForgedIsRefused(p, w, metas, ix);
    if !Forged(metas) {
      OneWord(rateWord, ix.rateLimit);
      StagedEnds(p, w, metas, ix);
      RegisterStaged(p, w, metas, ix);
    }
  }

  lemma RegisterGuards(p: Params, metas: seq<AccountMeta>, ix: Instruction)
    requires ix.Register?
    ensures RegisterAccounts(metas, ix) <==> AccountsRight(metas, ix)
    ensures WellFormed(p, ix) <==> !(!p.isField(ix.idCommitment) || AllZero(ix.idCommitment)
                                     || ix.rateLimit < 100 || 600 < ix.rateLimit)
    ensures Price(ix) == Cost(ix.pricePerUnit, ix.rateLimit)
  {
    ZeroIsAllZero(ix.idCommitment);
  }

  lemma RegisterStaged(p: Params, w: World, metas: seq<AccountMeta>, ix: Instruction)
    requires ix.Register? && !Forged(metas)
    ensures SameOutcome(OfRegister(p, w, metas, ix, RateBytes(ix.rateLimit)), Staged(p, w, metas, ix))
  {
    RegisterGuards(p, metas, ix);
    if RegisterAccounts(metas, ix) && WellFormed(p, ix) {
      var v := ViewOf(w, ix.treeId);
      RegisterEffectsEnd(v, w.clock, metas[3].account, ix);
      var checked := EffectsContract(v, w.clock, metas[3].account, ix);
      if checked.Done? {
        InsertEnds(p, v, checked.value, ix);
      }
    }
  }

  lemma SlashEnds(p: Params, w: World, metas: seq<AccountMeta>, ix: Instruction, rateWord: Hash)
    requires WellTyped(w) && ix.Slash? && IsWord(rateWord, ix.rateLimit)
    ensures SameOutcome(OfSlash(p, w, metas, ix, rateWord), Execute(p, w, RegistrationTx(metas, ix)))
  {
    ForgedIsRefused(p, w, metas, ix);
    if !Forged(metas) {
      OneWord(rateWord, ix.rateLimit);
      StagedEnds(p, w, metas, ix);
      SlashStaged(p, w, metas, ix);
    }
  }

  lemma SlashStaged(p: Params, w: World, metas: seq<AccountMeta>, ix: Instruction)
    requires ix.Slash? && !Forged(metas)
    ensures SameOutcome(OfSlash(p, w, metas, ix, RateBytes(ix.rateLimit)), Staged(p, w, metas, ix))
  {
    assert SlashAccounts(metas, ix) <==> AccountsRight(metas, ix);
    SlashEffectsEnd(ViewOf(w, ix.treeId), w.clock, Treasury(metas), ix);
    var checked := EffectsContract(ViewOf(w, ix.treeId), w.clock, Treasury(metas), ix);
    if checked.Done? {
      RemoveEnds(p, ViewOf(w, ix.treeId), checked.value, ix);
    }
  }

  lemma ExtendEnds(p: Params, w: World, metas: seq<AccountMeta>, ix: Instruction)
    requires WellTyped(w) && ix.Extend?
    ensures SameOutcome(OfExtend(w, metas, ix), Execute(p, w, RegistrationTx(metas, ix)))
  {
    ForgedIsRefused(p, w, metas, ix);
    if !Forged(metas) {
      StagedEnds(p, w, metas, ix);
      ExtendStaged(p, w, metas, ix);
    }
  }

  lemma ExtendStaged(p: Params, w: World, metas: seq<AccountMeta>, ix: Instruction)
    requires ix.Extend? && !Forged(metas)
    ensures SameOutcome(OfExtend(w, metas, ix), Staged(p, w, metas, ix))
  {
    assert ExtendAccounts(metas, ix) <==> AccountsRight(metas, ix);
    ExtendEffectsEnd(ViewOf(w, ix.treeId), w.clock, Treasury(metas), ix);
  }

  lemma EraseEnds(p: Params, w: World, metas: seq<AccountMeta>, ix: Instruction, rateWord: Hash)
    requires WellTyped(w) && ix.Erase? && IsWord(rateWord, ix.rateLimit)
    ensures SameOutcome(OfErase(p, w, metas, ix, rateWord), Execute(p, w, RegistrationTx(metas, ix)))
  {
    ForgedIsRefused(p, w, metas, ix);
    if !Forged(metas) {
      OneWord(rateWord, ix.rateLimit);
      StagedEnds(p, w, metas, ix);
      EraseStaged(p, w, metas, ix);
    }
  }

  lemma EraseStaged(p: Params, w: World, metas: seq<AccountMeta>, ix: Instruction)
    requires ix.Erase? && !Forged(metas)
    ensures SameOutcome(OfErase(p, w, metas, ix, RateBytes(ix.rateLimit)), Staged(p, w, metas, ix))
  {
    assert EraseAccounts(metas, ix) <==> AccountsRight(metas, ix);
    EraseEffectsEnd(ViewOf(w, ix.treeId), w.clock, Treasury(metas), ix);
    var checked := EffectsContract(ViewOf(w, ix.treeId), w.clock, Treasury(metas), ix);
    if checked.Done? {
      RemoveEnds(p, ViewOf(w, ix.treeId), checked.value, ix);
    }
  }

  // ---- transactions of the other programs ----

  ghost function OfTransfer(w: World, from: AccountId, amount: nat): Outcome<()> {
    if !from.Plain? || Purse(w, from) < amount then Refused else Done(())
  }

  /** `amount` moves from one account to another, and no other balance changes. */
  ghost predicate Moves(w: World, after: World, from: AccountId, to: AccountId, amount: nat) {
    && amount <= Purse(w, from)
    && forall a :: Purse(after, a) == Purse(w, a) - (if a == from then amount else 0) + (if a == to then amount else 0)
  }

  lemma MovedMoves(w: World, after: World, from: AccountId, to: AccountId, amount: nat)
    requires amount <= Purse(w, from) && after.balances == Moved(w, from, to, amount)
    ensures Moves(w, after, from, to, amount)
  {
  }

  lemma TransferEnds(p: Params, w: World, from: AccountId, to: AccountId, amount: u128)
    ensures var out := Execute(p, w, TransferTx(from, to, amount));
            && SameOutcome(OfTransfer(w, from, amount), out)
            && (out.Done? ==> && Moves(w, out.value, from, to, amount) && out.value.shards == w.shards
                              && out.value.clock == w.clock)
  {
    var out := Execute(p, w, TransferTx(from, to, amount));
    if out.Done? {
      MovedMoves(w, out.value, from, to, amount);
    }
  }

  ghost function OfMerkle(p: Params, w: World, metas: seq<AccountMeta>, mix: MerkleIx): Outcome<()> {
    if Forged(metas) then Refused
    else if |metas| != 1 || !metas[0].authorized || metas[0].program != MerkleProgram then Panic
    else
      var s := Selector(metas[0].account, MerkleProgram);
      if s in w.shards && !w.shards[s].TreeShard? then Panic
      else OfTree(p, mix, if s in w.shards then Some(w.shards[s].tree) else None)
  }

  lemma MerkleEnds(p: Params, w: World, metas: seq<AccountMeta>, mix: MerkleIx)
    ensures SameOutcome(OfMerkle(p, w, metas, mix), Execute(p, w, MerkleTx(metas, mix)))
  {
    assert Forged(metas) <==> !Signable(MerkleTx(metas, mix));
    if !Forged(metas) && |metas| == 1 && metas[0].authorized && metas[0].program == MerkleProgram {
      var shard := ReadShard(w, SelectorOf(metas[0]));
      if shard.None? || shard.value.TreeShard? {
        TreeEnds(p, mix, if shard.None? then None else Some(shard.value.tree));
      }
    }
  }

  // ---- what a commit leaves ----

  /** Only tree `t`'s registry changed, to `v`. */
  ghost predicate Leaves(w: World, after: World, t: Hash, v: View) {
    && ViewOf(after, t) == v && after.clock == w.clock
    && forall other :: other != t ==> ViewOf(after, other) == ViewOf(w, other)
  }

  ghost predicate CommitsTo(p: Params, w: World, metas: seq<AccountMeta>, ix: Instruction, after: World) {
    Execute(p, w, RegistrationTx(metas, ix)) == Done(after)
  }

  function AtMost64(n: nat): nat {
    Min(n, 0xFFFF_FFFF_FFFF_FFFF)
  }

  function Minus(a: nat, b: nat): nat {
    if a < b then 0 else a - b
  }

  /** A committed Initialize stores its own arguments, with both counters at zero. */
  lemma InitializeLeaves(p: Params, w: World, metas: seq<AccountMeta>, ix: Instruction, after: World)
    requires WellTyped(w) && ix.Initialize? && CommitsTo(p, w, metas, ix, after)
    ensures Leaves(w, after, ix.treeId,
                   View(Some(ConfigState(ix.merkleProgram, ix.treeId, ix.pricePerUnit, ix.treasury,
                                         0, ix.maxTotalRateLimit, 0, ix.activeSec, ix.graceSec)),
                        ViewOf(w, ix.treeId).members, ViewOf(w, ix.treeId).tree))
    ensures after.balances == w.balances
  {
    CommitsExactly(p, w, metas, ix);
  }

  /** A committed InitializeMerkleTree leaves an empty tree with an all-zero window. */
  lemma InitializeMerkleTreeLeaves(p: Params, w: World, metas: seq<AccountMeta>, ix: Instruction, after: World)
    requires WellTyped(w) && ix.InitializeMerkleTree? && CommitsTo(p, w, metas, ix, after)
    ensures after.balances == w.balances
    ensures var tree := ViewOf(after, ix.treeId).tree;
            && tree.Some? && tree.value.leaves == [] && (forall i: nat :: i < 4 ==> AllZero(tree.value.history[i]))
            && Leaves(w, after, ix.treeId, ViewOf(w, ix.treeId).(tree := tree))
  {
    ZeroIsAllZero(ZERO);
    CommitsExactly(p, w, metas, ix);
  }

  /** The config with other counters. */
  function Recounted(c: ConfigState, total: u64, current: u64): ConfigState {
    ConfigState(c.merkleProgram, c.treeId, c.pricePerUnit, c.treasury, total, c.maxTotalRateLimit, current,
                c.activeSec, c.graceSec)
  }

  /** The registry with one more membership, dated `graceStart`, and one more leaf. */
  function WithMember(p: Params, v: View, ix: Instruction, leaf: Hash): View
    requires ix.Register? && v.config.Some? && v.tree.Some?
  {
    var c := v.config.value;
    View(Some(Recounted(c, AtMost64(c.totalRegistrations + 1), AtMost64(c.currentTotalRateLimit + ix.rateLimit))),
         v.members[ix.idCommitment :=
           MembershipState(ix.rateLimit, ix.idCommitment, AtMost64(ix.now + 1000 * ix.activeSec),
                           ix.activeSec, ix.graceSec)],
         Some(Tree(v.tree.value.leaves + [leaf], [Root(p, v.tree.value.leaves)] + v.tree.value.history[..3])))
  }

  lemma JoinedIsWithMember(p: Params, v: View, ix: Instruction)
    requires ix.Register? && v.config.Some? && v.tree.Some?
    ensures Joined(p, v, ix.idCommitment, NewMember(ix)) ==
            WithMember(p, v, ix, p.h2(ix.idCommitment, RateBytes(ix.rateLimit)))
  {
  }

  /** A committed Register counts one more membership, stores it with the claimed dates and rate limit, appends
      H(commitment, rate limit) to the tree, and moves the price from the third account to the fourth. */
  lemma RegisterLeaves(p: Params, w: World, metas: seq<AccountMeta>, ix: Instruction, rateWord: Hash, after: World)
    requires WellTyped(w) && ix.Register? && IsWord(rateWord, ix.rateLimit) && CommitsTo(p, w, metas, ix, after)
    ensures ViewOf(w, ix.treeId).config.Some? && ViewOf(w, ix.treeId).tree.Some? && |metas| == 6
    ensures Leaves(w, after, ix.treeId, WithMember(p, ViewOf(w, ix.treeId), ix, p.h2(ix.idCommitment, rateWord)))
    ensures Moves(w, after, metas[2].account, metas[3].account, Cost(ix.pricePerUnit, ix.rateLimit))
  {
    OneWord(rateWord, ix.rateLimit);
    CommitsExactly(p, w, metas, ix);
    JoinedIsWithMember(p, ViewOf(w, ix.treeId), ix);
    PriceMoves(w, metas, ix, after);
  }

  lemma PriceMoves(w: World, metas: seq<AccountMeta>, ix: Instruction, after: World)
    requires Pays(ix) && |metas| > 3 && Price(ix) <= Balance(w, metas[2].account)
    requires after.balances == Settled(w, metas, ix)
    ensures (ix.Register? || ix.Extend?)
            && Moves(w, after, metas[2].account, metas[3].account, Cost(ix.pricePerUnit, ix.rateLimit))
  {
    MovedMoves(w, after, metas[2].account, metas[3].account, Price(ix));
  }

  /** What an ended membership leaves: one fewer, and one slot that held its leaf all zero. */
  ghost predicate LeavesWithout(p: Params, w: World, after: World, t: Hash, c: Hash, rate: u64, index: nat, leaf: Hash) {
    var v, v' := ViewOf(w, t), ViewOf(after, t);
    && v.config.Some? && v.tree.Some? && v'.tree.Some? && after.balances == w.balances
    && Leaves(w, after, t, View(Some(Recounted(v.config.value, Minus(v.config.value.totalRegistrations, 1),
                                               Minus(v.config.value.currentTotalRateLimit, rate))),
                                v.members - {c}, v'.tree))
    && index < |v.tree.value.leaves| && v.tree.value.leaves[index] == leaf
    && Windowed(p, v.tree.value, v'.tree.value)
    && exists z :: AllZero(z) && OnlySlot(v.tree.value.leaves, v'.tree.value.leaves, index, z)
  }

  lemma DepartedLeaves(p: Params, w: World, after: World, t: Hash, c: Hash, rate: u64, index: nat)
    requires ViewOf(w, t).config.Some? && Hits(p, ViewOf(w, t).tree, index, LeafOf(p, c, rate))
    requires Becomes(w, after, t, Departed(p, ViewOf(w, t), c, rate, index), w.balances)
    ensures LeavesWithout(p, w, after, t, c, rate, index, LeafOf(p, c, rate))
  {
    ZeroIsAllZero(ZERO);
    assert OnlySlot(ViewOf(w, t).tree.value.leaves, ViewOf(after, t).tree.value.leaves, index, ZERO);
  }

  /** A committed Slash had the secret, and zeroes a slot holding H(commitment, rate limit). */
  lemma SlashLeaves(p: Params, w: World, metas: seq<AccountMeta>, ix: Instruction, rateWord: Hash, after: World)
    requires WellTyped(w) && ix.Slash? && IsWord(rateWord, ix.rateLimit) && CommitsTo(p, w, metas, ix, after)
    ensures p.h1(ix.secret) == ix.idCommitment
    ensures LeavesWithout(p, w, after, ix.treeId, ix.idCommitment, ix.rateLimit, ix.leafIndex,
                          p.h2(ix.idCommitment, rateWord))
  {
    OneWord(rateWord, ix.rateLimit);
    CommitsExactly(p, w, metas, ix);
    DepartedLeaves(p, w, after, ix.treeId, ix.idCommitment, ix.rateLimit, ix.leafIndex);
  }

  lemma EraseLeaves(p: Params, w: World, metas: seq<AccountMeta>, ix: Instruction, rateWord: Hash, after: World)
    requires WellTyped(w) && ix.Erase? && IsWord(rateWord, ix.rateLimit) && CommitsTo(p, w, metas, ix, after)
    ensures LeavesWithout(p, w, after, ix.treeId, ix.idCommitment, ix.rateLimit, ix.leafIndex,
                          p.h2(ix.idCommitment, rateWord))
  {
    OneWord(rateWord, ix.rateLimit);
    CommitsExactly(p, w, metas, ix);
    DepartedLeaves(p, w, after, ix.treeId, ix.idCommitment, ix.rateLimit, ix.leafIndex);
  }

  /** The registry with one grace start moved on by one grace and one active period. */
  function WithRenewal(v: View, c: Hash): View
    requires c in v.members
  {
    var m := v.members[c];
    View(v.config,
         v.members[c := MembershipState(m.rateLimit, m.idCommitment,
                                        AtMost64(AtMost64(m.graceStart + 1000 * m.graceSec) + 1000 * m.activeSec),
                                        m.activeSec, m.graceSec)],
         v.tree)
  }

  lemma ProlongedIsWithRenewal(v: View, c: Hash)
    requires c in v.members
    ensures Prolonged(v, c) == WithRenewal(v, c)
  {
  }

  /** A committed Extend renews one membership, and moves the price from the third account to the fourth. */
  lemma ExtendLeaves(p: Params, w: World, metas: seq<AccountMeta>, ix: Instruction, after: World)
    requires WellTyped(w) && ix.Extend? && CommitsTo(p, w, metas, ix, after)
    ensures ix.idCommitment in ViewOf(w, ix.treeId).members && |metas| == 5
    ensures Leaves(w, after, ix.treeId, WithRenewal(ViewOf(w, ix.treeId), ix.idCommitment))
    ensures Moves(w, after, metas[2].account, metas[3].account, Cost(ix.pricePerUnit, ix.rateLimit))
  {
    CommitsExactly(p, w, metas, ix);
    ProlongedIsWithRenewal(ViewOf(w, ix.treeId), ix.idCommitment);
    PriceMoves(w, metas, ix, after);
  }
}
