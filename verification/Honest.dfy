/** Honest clients: transactions whose claims are read off the chain, executed then or at any later time. */
module Honest {
  import opened Bytes
  import opened Commits
  import opened Executor
  import opened Hashing
  import opened Ledger
  import opened Merkle
  import opened Outcomes
  import opened Registration
  import opened Registry
  import opened Runs
  import opened Slots
  import opened Views

  /** What a client wants done to the registry it looks at. */
  datatype Intent =
    | ToRegister(commitment: Hash, rate: u64, payer: AccountId)
    | ToSlash(commitment: Hash, secret: Hash)
    | ToExtend(commitment: Hash, payer: AccountId)
    | ToErase(commitment: Hash)

  /** The client's own inputs are sensible. */
  predicate Sensible(p: Params, intent: Intent) {
    match intent
    case ToRegister(c, rate, payer) =>
      p.isField(c) && c != ZERO && MIN_RATE_LIMIT <= rate <= MAX_RATE_LIMIT && payer.Plain?
    case ToSlash(c, secret) => p.isField(secret) && p.h1(secret) == c
    case ToExtend(_, payer) => payer.Plain?
    case ToErase(c) => p.isField(c)
  }

  // ---- claims, as the host client fills them in ----

  function RateOf(v: View, c: Hash): u64 {
    if c in v.members then v.members[c].rateLimit else 0
  }

  /** The index hint: the newest slot holding the membership's leaf, or 0. */
  function Hint(p: Params, v: View, c: Hash): u64 {
    if c !in v.members then 0
    else
      var found := FindLeaf(LeavesOf(v), LeafOf(p, c, v.members[c].rateLimit));
      if found.Some? && found.value <= U64_MAX then found.value else 0
  }

  function ClaimsOf(p: Params, v: View, clock: u64, t: Hash, intent: Intent): Instruction
    requires v.config.Some?
  {
    var config := v.config.value;
    match intent
    case ToRegister(c, rate, _) =>
      Register(t, c, rate, config.merkleProgram, clock, config.pricePerUnit, config.activeSec, config.graceSec)
    case ToSlash(c, secret) => Slash(t, c, secret, config.merkleProgram, Hint(p, v, c), RateOf(v, c))
    case ToExtend(c, _) => Extend(t, c, clock, config.pricePerUnit, RateOf(v, c))
    case ToErase(c) => Erase(t, c, config.merkleProgram, Hint(p, v, c), RateOf(v, c), clock)
  }

  function Unsigned(account: AccountId, program: AccountId): AccountMeta {
    AccountMeta(account, false, program)
  }

  function AccountsOf(v: View, t: Hash, intent: Intent): seq<AccountMeta>
    requires v.config.Some?
  {
    var config := Unsigned(ConfigPda(t), RegistrationProgram);
    var main := Unsigned(MainPda(t), v.config.value.merkleProgram);
    var membership := Unsigned(MembershipPda(t, intent.commitment), RegistrationProgram);
    var treasury := Unsigned(v.config.value.treasury, NativeProgram);
    var clock := Unsigned(Clock50, ClockProgram);
    match intent
    case ToRegister(_, _, payer) => [config, main, AccountMeta(payer, true, NativeProgram), treasury, clock, membership]
    case ToSlash(_, _) => [config, main, membership]
    case ToExtend(_, payer) => [config, membership, AccountMeta(payer, true, NativeProgram), treasury, clock]
    case ToErase(_) => [config, main, membership, clock]
  }

  lemma AccountsOfRight(p: Params, v: View, clock: u64, t: Hash, intent: Intent)
    requires v.config.Some?
    ensures AccountsRight(AccountsOf(v, t, intent), ClaimsOf(p, v, clock, t, intent))
  {
  }

  lemma AccountsOfSignable(p: Params, v: View, t: Hash, intent: Intent, ix: Instruction)
    requires v.config.Some? && Sensible(p, intent)
    ensures Signable(RegistrationTx(AccountsOf(v, t, intent), ix))
  {
    var metas := AccountsOf(v, t, intent);
    forall i: nat | i < |metas| && metas[i].authorized ensures metas[i].account.Plain? {
      assert i == 2;
    }
  }

  /** The client's transaction, from what it sees in `w`. */
  ghost function TxOf(p: Params, w: World, t: Hash, intent: Intent): Tx
    requires ViewOf(w, t).config.Some?
  {
    RegistrationTx(AccountsOf(ViewOf(w, t), t, intent), ClaimsOf(p, ViewOf(w, t), w.clock, t, intent))
  }

  // ---- stale claims fail gracefully ----

  /** The only failures of each kind of transaction: the payment is refused, or the guest halts on a precondition of a
      busy chain, never with 12, a stale config. */
  predicate Graceful<T>(out: Outcome<T>, intent: Intent) {
    match intent
    case ToRegister(_, _, _) => out.Done? || out.Refused? || (out.Exit? && out.code in {10, 11, 13, 14, 20})
    case ToSlash(_, _) => out.Done? || (out.Exit? && out.code in {15, 16, 19})
    case ToExtend(_, _) => out.Done? || out.Refused? || (out.Exit? && out.code in {10, 11, 15, 16, 17})
    case ToErase(_) => out.Done? || (out.Exit? && out.code in {10, 11, 15, 16, 18, 19})
  }

  lemma SensibleIsWellFormed(p: Params, v: View, clock: u64, t: Hash, intent: Intent)
    requires Sound(p) && v.config.Some? && Sensible(p, intent)
    ensures WellFormed(p, ClaimsOf(p, v, clock, t, intent))
  {
  }

  /** Claims read from `v`, checked against a later state of the same registry. */
  predicate AgesWell(p: Params, v: View, clock: u64, t: Hash, intent: Intent, later: View, now: u64)
    requires v.config.Some?
  {
    var out := EffectsContract(later, now, v.config.value.treasury, ClaimsOf(p, v, clock, t, intent));
    Graceful(out, intent) && (out.Done? ==> out.value.tree == later.tree)
  }

  lemma StaleRegister(p: Params, v: View, clock: u64, t: Hash, intent: Intent, later: View, now: u64)
    requires RegistryOk(p, t, later) && Progress(v, later) && v.config.Some? && v.config.value.treeId == t
    requires intent.ToRegister?
    ensures AgesWell(p, v, clock, t, intent, later, now)
  {
  }

  lemma StaleSlash(p: Params, v: View, clock: u64, t: Hash, intent: Intent, later: View, now: u64)
    requires RegistryOk(p, t, later) && Progress(v, later) && v.config.Some? && v.config.value.treeId == t
    requires intent.ToSlash?
    ensures AgesWell(p, v, clock, t, intent, later, now)
  {
  }

  lemma StaleExtend(p: Params, v: View, clock: u64, t: Hash, intent: Intent, later: View, now: u64)
    requires RegistryOk(p, t, later) && Progress(v, later) && v.config.Some? && v.config.value.treeId == t
    requires intent.ToExtend?
    ensures AgesWell(p, v, clock, t, intent, later, now)
  {
  }

  lemma StaleErase(p: Params, v: View, clock: u64, t: Hash, intent: Intent, later: View, now: u64)
    requires RegistryOk(p, t, later) && Progress(v, later) && v.config.Some? && v.config.value.treeId == t
    requires intent.ToErase?
    ensures AgesWell(p, v, clock, t, intent, later, now)
  {
  }

  lemma StaleEffects(p: Params, v: View, clock: u64, t: Hash, intent: Intent, later: View, now: u64)
    requires RegistryOk(p, t, later) && Progress(v, later) && v.config.Some? && v.config.value.treeId == t
    ensures AgesWell(p, v, clock, t, intent, later, now)
  {
    match intent
    case ToRegister(_, _, _) => StaleRegister(p, v, clock, t, intent, later, now);
    case ToSlash(_, _) => StaleSlash(p, v, clock, t, intent, later, now);
    case ToExtend(_, _) => StaleExtend(p, v, clock, t, intent, later, now);
    case ToErase(_) => StaleErase(p, v, clock, t, intent, later, now);
  }

  lemma StaleTree(p: Params, v: View, clock: u64, t: Hash, intent: Intent, now: View)
    requires Sound(p) && Sensible(p, intent)
    requires v.config.Some? && v.config.value.merkleProgram == MerkleProgram && now.tree.Some?
    ensures Graceful(TreeContract(p, now, ClaimsOf(p, v, clock, t, intent)), intent)
  {
    if intent.ToRegister? {
      LeafIsField(p, intent.commitment, intent.rate);
    }
  }

  lemma StaleClaims(p: Params, v: View, clock: u64, t: Hash, intent: Intent, later: View, now: u64, purse: nat)
    requires Sound(p) && Sensible(p, intent) && RegistryOk(p, t, v) && RegistryOk(p, t, later) && Progress(v, later)
    requires v.config.Some? && v.tree.Some?
    ensures Graceful(Contract(p, later, now, purse, v.config.value.treasury, ClaimsOf(p, v, clock, t, intent)), intent)
  {
    var ix := ClaimsOf(p, v, clock, t, intent);
    SensibleIsWellFormed(p, v, clock, t, intent);
    StaleEffects(p, v, clock, t, intent, later, now);
    var checked := EffectsContract(later, now, v.config.value.treasury, ix);
    if checked.Done? {
      StaleTree(p, v, clock, t, intent, checked.value);
    }
  }

  /** A transaction built honestly in any reachable state and executed in any later state of the run commits, is
      refused payment, or halts with an exit code; it never panics, and its config claims are never stale. */
  lemma HonestNeverPanics(p: Params, w: World, actions: seq<Action>, t: Hash, intent: Intent)
    requires Sound(p) && Reachable(p, w) && Sensible(p, intent)
    requires ViewOf(w, t).config.Some? && ViewOf(w, t).tree.Some?
    ensures Graceful(Execute(p, Run(p, w, actions), TxOf(p, w, t, intent)), intent)
  {
    ReachableOk(p, w);
    RunKeeps(p, w, actions);
    RunProgress(p, w, actions, t);
    var later, v := Run(p, w, actions), ViewOf(w, t);
    var metas, ix := AccountsOf(v, t, intent), ClaimsOf(p, v, w.clock, t, intent);
    AccountsOfRight(p, v, w.clock, t, intent);
    AccountsOfSignable(p, v, t, intent, ix);
    TransactionExact(p, later, metas, ix);
    StaleClaims(p, v, w.clock, t, intent, ViewOf(later, t), later.clock, Balance(later, Payer(metas)));
    TreasuryClaimed(p, v, w.clock, t, intent, ViewOf(later, t), later.clock, Balance(later, Payer(metas)));
  }

  /** Only paying instructions look at who is paid. */
  lemma TreasuryClaimed(p: Params, v: View, clock: u64, t: Hash, intent: Intent, later: View, now: u64, purse: nat)
    requires v.config.Some?
    ensures var ix, treasury := ClaimsOf(p, v, clock, t, intent), Treasury(AccountsOf(v, t, intent));
            Contract(p, later, now, purse, treasury, ix) == Contract(p, later, now, purse, v.config.value.treasury, ix)
  {
  }

  /** The guards left to chance once accounts and signatures are right: claims from `seen`, judged in `w`. */
  ghost predicate Allowed(p: Params, seen: World, w: World, t: Hash, intent: Intent)
    requires ViewOf(seen, t).config.Some?
  {
    var metas := AccountsOf(ViewOf(seen, t), t, intent);
    Enabled(p, ViewOf(w, t), w.clock, Balance(w, Payer(metas)), Treasury(metas),
            ClaimsOf(p, ViewOf(seen, t), seen.clock, t, intent))
  }

  ghost function Result(p: Params, seen: World, w: World, t: Hash, intent: Intent): View
    requires ViewOf(seen, t).config.Some? && Allowed(p, seen, w, t, intent)
  {
    var metas := AccountsOf(ViewOf(seen, t), t, intent);
    After(p, ViewOf(w, t), w.clock, Balance(w, Payer(metas)), Treasury(metas),
          ClaimsOf(p, ViewOf(seen, t), seen.clock, t, intent))
  }

  /** Honest claims commit exactly when the registry's own guards hold. */
  lemma HonestCommits(p: Params, seen: World, w: World, t: Hash, intent: Intent)
    requires WellTyped(w) && ViewOf(seen, t).config.Some? && Sensible(p, intent)
    ensures var v, out := ViewOf(seen, t), Execute(p, w, TxOf(p, seen, t, intent));
            var metas, ix := AccountsOf(v, t, intent), ClaimsOf(p, v, seen.clock, t, intent);
            && (out.Done? <==> Allowed(p, seen, w, t, intent))
            && (out.Done? ==> Becomes(w, out.value, t, Result(p, seen, w, t, intent), Settled(w, metas, ix)))
  {
    var v := ViewOf(seen, t);
    var metas, ix := AccountsOf(v, t, intent), ClaimsOf(p, v, seen.clock, t, intent);
    AccountsOfRight(p, v, seen.clock, t, intent);
    AccountsOfSignable(p, v, t, intent, ix);
    CommitsExactly(p, w, metas, ix);
  }
}
