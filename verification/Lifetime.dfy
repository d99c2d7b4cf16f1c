/** Paid time: over whole runs a membership lives exactly as long as its registration and renewals paid for. */
module Lifetime {
  import opened Bytes
  import opened Commits
  import opened Executor
  import opened Hashing
  import opened Honest
  import opened Ledger
  import opened Outcomes
  import opened Registration
  import opened Registry
  import opened Removal
  import opened Runs
  import opened Slots
  import opened Sums
  import opened Views

  /** What has been paid for: the clock claimed at registration, and the renewals since. */
  datatype Lease = Lease(claim: u64, renewals: nat)

  /** The lease of commitment `c` after an instruction committed on its tree. */
  function NextLease(lease: Option<Lease>, c: Hash, ix: Instruction): Option<Lease> {
    match ix
    case Register(_, commitment, _, _, now, _, _, _) => if commitment == c then Some(Lease(now, 0)) else lease
    case Extend(_, commitment, _, _, _) =>
      if commitment == c && lease.Some? then Some(Lease(lease.value.claim, lease.value.renewals + 1)) else lease
    case Slash(_, commitment, _, _, _, _) => if commitment == c then None else lease
    case Erase(_, commitment, _, _, _, _) => if commitment == c then None else lease
    case _ => lease
  }

  /** The lease after a run that started without the membership. */
  ghost function LeaseAfter(p: Params, w: World, actions: seq<Action>, t: Hash, c: Hash): Option<Lease> {
    if actions == [] then None
    else
      var shorter, a := actions[..|actions| - 1], actions[|actions| - 1];
      var before := LeaseAfter(p, w, shorter, t, c);
      if Acts(p, Run(p, w, shorter), a, t) then NextLease(before, c, a.tx.ix) else before
  }

  /** A period is an active and a grace duration; `Paid` is when the last paid one turns into grace. */
  function Paid(lease: Lease, activeMs: nat, graceMs: nat): nat {
    lease.claim + activeMs + lease.renewals * (activeMs + graceMs)
  }

  /** The membership says exactly what was paid for, and cannot be prepaid further than one period. */
  ghost predicate LeaseHolds(v: View, clock: nat, c: Hash, lease: Option<Lease>) {
    && (lease.Some? <==> c in v.members)
    && (lease.Some? ==>
          var m := v.members[c];
          && m.graceStart == Paid(lease.value, SecsToMillis(m.activeSec), SecsToMillis(m.graceSec))
          && m.graceStart <= clock + SecsToMillis(m.activeSec) + SecsToMillis(m.graceSec))
  }

  /** No timestamp in reach of the saturating additions. */
  ghost predicate InRange(v: View, clock: nat) {
    v.config.Some? ==>
      clock + SecsToMillis(v.config.value.activeSec) + 2 * SecsToMillis(v.config.value.graceSec) <= U64_MAX
  }

  lemma JoinLease(v: View, clock: u64, ix: Instruction, joined: View)
    requires ix.Register? && v.config.Some? && InRange(v, clock) && ClockAccepts(clock, ix.now)
    requires ix.activeSec == v.config.value.activeSec && ix.graceSec == v.config.value.graceSec
    requires joined.members == v.members[ix.idCommitment := NewMember(ix)]
    ensures LeaseHolds(joined, clock, ix.idCommitment, Some(Lease(ix.now, 0)))
  {
  }

  lemma ProlongLease(v: View, clock: u64, now: u64, c: Hash, lease: Lease)
    requires LeaseHolds(v, clock, c, Some(lease)) && v.config.Some? && InRange(v, clock) && ClockAccepts(clock, now)
    requires v.members[c].activeSec == v.config.value.activeSec && v.members[c].graceSec == v.config.value.graceSec
    requires IsInGracePeriod(v.members[c].graceStart, SecsToMillis(v.members[c].graceSec), now)
    ensures LeaseHolds(Prolonged(v, c), clock, c, Some(Lease(lease.claim, lease.renewals + 1)))
  {
    var m := v.members[c];
    Distribute(SecsToMillis(m.activeSec) + SecsToMillis(m.graceSec), lease.renewals);
  }

  lemma OtherLease(v: View, after: View, clock: u64, c: Hash, lease: Option<Lease>)
    requires LeaseHolds(v, clock, c, lease)
    requires c in after.members <==> c in v.members
    requires c in v.members ==> after.members[c] == v.members[c]
    ensures LeaseHolds(after, clock, c, lease)
  {
  }

  /** The memberships after an instruction: only the one it names changes. */
  function MembersAfter(v: View, ix: Instruction): map<Hash, MembershipState> {
    match ix
    case Register(_, c, _, _, _, _, _, _) => v.members[c := NewMember(ix)]
    case Extend(_, c, _, _, _) => if c in v.members then v.members[c := Renewed(v.members[c])] else v.members
    case Slash(_, c, _, _, _, _) => v.members - {c}
    case Erase(_, c, _, _, _, _) => v.members - {c}
    case _ => v.members
  }

  lemma AfterMembers(p: Params, v: View, clock: u64, purse: nat, treasury: AccountId, ix: Instruction)
    requires Enabled(p, v, clock, purse, treasury, ix)
    ensures After(p, v, clock, purse, treasury, ix).members == MembersAfter(v, ix)
  {
  }

  /** What an enabled instruction says about dates. */
  ghost predicate Dated(v: View, clock: u64, ix: Instruction) {
    match ix
    case Register(_, _, _, _, now, _, active, grace) =>
      && v.config.Some? && ClockAccepts(clock, now)
      && active == v.config.value.activeSec && grace == v.config.value.graceSec
    case Extend(_, c, now, _, _) =>
      && v.config.Some? && ClockAccepts(clock, now) && c in v.members
      && IsInGracePeriod(v.members[c].graceStart, SecsToMillis(v.members[c].graceSec), now)
    case _ => true
  }

  lemma EnabledDated(p: Params, v: View, clock: u64, purse: nat, treasury: AccountId, ix: Instruction)
    requires Enabled(p, v, clock, purse, treasury, ix)
    ensures Dated(v, clock, ix)
  {
  }

  ghost predicate Durations(v: View) {
    forall c :: c in v.members ==>
      v.config.Some? && v.members[c].activeSec == v.config.value.activeSec
      && v.members[c].graceSec == v.config.value.graceSec
  }

  lemma DurationsOk(p: Params, t: Hash, v: View)
    requires RegistryOk(p, t, v)
    ensures Durations(v)
  {
    if v.config.Some? {
      assert forall c :: c in v.members ==> MemberOk(p, v.config.value, c, v.members[c]);
    }
  }

  lemma LeaseStep(v: View, clock: u64, ix: Instruction, c: Hash, lease: Option<Lease>, after: View)
    requires Durations(v) && Dated(v, clock, ix)
    requires InRange(v, clock) && LeaseHolds(v, clock, c, lease) && after.members == MembersAfter(v, ix)
    ensures LeaseHolds(after, clock, c, NextLease(lease, c, ix))
  {
    if ix.Register? && ix.idCommitment == c {
      JoinLease(v, clock, ix, after);
    } else if ix.Extend? && ix.idCommitment == c {
      ProlongLease(v, clock, ix.now, c, lease.value);
      OtherLease(Prolonged(v, c), after, clock, c, Some(Lease(lease.value.claim, lease.value.renewals + 1)));
    } else if !(ix.Slash? || ix.Erase?) || ix.idCommitment != c {
      OtherLease(v, after, clock, c, lease);
    }
  }

  lemma StepClock(p: Params, w: World, a: Action)
    requires WellTyped(w)
    ensures w.clock <= Step(p, w, a).clock
    ensures a.Submit? ==> Step(p, w, a).clock == w.clock
  {
    if a.Submit? && a.tx.RegistrationTx? {
      CommitsExactly(p, w, a.tx.metas, a.tx.ix);
    }
  }

  lemma RangeBefore(p: Params, w: World, a: Action, t: Hash)
    requires WellTyped(w) && InRange(ViewOf(Step(p, w, a), t), Step(p, w, a).clock)
    ensures InRange(ViewOf(w, t), w.clock)
  {
    StepClock(p, w, a);
    assert Run(p, w, [a]) == Step(p, w, a) by {
      assert [a][..0] == [];
    }
    RunProgress(p, w, [a], t);
  }

  /** Over any run that starts without the membership: it is live exactly when leased, its grace starts one active
      period plus `renewals` whole periods after the claim it registered with, and renewals cannot be stacked. */
  lemma {:induction false} LifetimeExact(p: Params, w: World, actions: seq<Action>, t: Hash, c: Hash)
    requires Sound(p) && WorldOk(p, w) && c !in ViewOf(w, t).members
    requires InRange(ViewOf(Run(p, w, actions), t), Run(p, w, actions).clock)
    ensures LeaseHolds(ViewOf(Run(p, w, actions), t), Run(p, w, actions).clock, c, LeaseAfter(p, w, actions, t, c))
  {
    if actions != [] {
      var shorter, a := actions[..|actions| - 1], actions[|actions| - 1];
      var mid := Run(p, w, shorter);
      RunKeeps(p, w, shorter);
      RangeBefore(p, mid, a, t);
      LifetimeExact(p, w, shorter, t, c);
      LeaseOverStep(p, mid, a, t, c, LeaseAfter(p, w, shorter, t, c));
    }
  }

  lemma LeaseOverStep(p: Params, w: World, a: Action, t: Hash, c: Hash, lease: Option<Lease>)
    requires WorldOk(p, w) && InRange(ViewOf(w, t), w.clock) && LeaseHolds(ViewOf(w, t), w.clock, c, lease)
    ensures LeaseHolds(ViewOf(Step(p, w, a), t), Step(p, w, a).clock, c,
                       if Acts(p, w, a, t) then NextLease(lease, c, a.tx.ix) else lease)
  {
    StepView(p, w, a, t);
    StepClock(p, w, a);
    assert RegistryOk(p, t, ViewOf(w, t));
    if Acts(p, w, a, t) {
      var purse, treasury := Balance(w, Payer(a.tx.metas)), Treasury(a.tx.metas);
      AfterMembers(p, ViewOf(w, t), w.clock, purse, treasury, a.tx.ix);
      EnabledDated(p, ViewOf(w, t), w.clock, purse, treasury, a.tx.ix);
      DurationsOk(p, t, ViewOf(w, t));
      LeaseStep(ViewOf(w, t), w.clock, a.tx.ix, c, lease, ViewOf(Step(p, w, a), t));
    }
  }

  // ---- what a lease buys ----

  /** Whatever accounts and claims a sender tries, a membership is only erased after the time paid for. */
  lemma ErasedOnlyAfterPaidTime(p: Params, w: World, actions: seq<Action>, t: Hash, metas: seq<AccountMeta>,
                                ix: Instruction)
    requires Sound(p) && WorldOk(p, w) && ix.Erase? && ix.treeId == t && ix.idCommitment !in ViewOf(w, t).members
    requires InRange(ViewOf(Run(p, w, actions), t), Run(p, w, actions).clock)
    requires Execute(p, Run(p, w, actions), RegistrationTx(metas, ix)).Done?
    ensures var now, lease := Run(p, w, actions), LeaseAfter(p, w, actions, t, ix.idCommitment);
            && lease.Some? && ViewOf(now, t).config.Some?
            && var config := ViewOf(now, t).config.value;
            Paid(lease.value, SecsToMillis(config.activeSec), SecsToMillis(config.graceSec))
            + SecsToMillis(config.graceSec) <= now.clock
  {
    var now, c := Run(p, w, actions), ix.idCommitment;
    RunKeeps(p, w, actions);
    LifetimeExact(p, w, actions, t, c);
    EraseGuards(p, now, metas, ix);
    GraceEnd(p, t, ViewOf(now, t), now.clock, c, LeaseAfter(p, w, actions, t, c));
  }

  lemma EraseGuards(p: Params, w: World, metas: seq<AccountMeta>, ix: Instruction)
    requires WellTyped(w) && ix.Erase? && Execute(p, w, RegistrationTx(metas, ix)).Done?
    ensures var v := ViewOf(w, ix.treeId);
            && v.config.Some? && ix.idCommitment in v.members
            && var m := v.members[ix.idCommitment];
            SatAdd(m.graceStart, SecsToMillis(m.graceSec)) <= w.clock
  {
    CommitsExactly(p, w, metas, ix);
  }

  /** Where the last paid period of a live membership ends. */
  lemma GraceEnd(p: Params, t: Hash, v: View, clock: nat, c: Hash, lease: Option<Lease>)
    requires RegistryOk(p, t, v) && c in v.members && LeaseHolds(v, clock, c, lease) && InRange(v, clock)
    ensures v.config.Some? && lease.Some?
    ensures var config, m := v.config.value, v.members[c];
            SatAdd(m.graceStart, SecsToMillis(m.graceSec)) ==
            Paid(lease.value, SecsToMillis(config.activeSec), SecsToMillis(config.graceSec)) + SecsToMillis(config.graceSec)
  {
    assert MemberOk(p, v.config.value, c, v.members[c]);
  }

  /** And from that moment on anyone can erase it. */
  lemma ErasableExactlyAfterPaidTime(p: Params, w: World, actions: seq<Action>, t: Hash, c: Hash)
    requires Sound(p) && Reachable(p, w) && c !in ViewOf(w, t).members
    requires InRange(ViewOf(Run(p, w, actions), t), Run(p, w, actions).clock)
    requires LeaseAfter(p, w, actions, t, c).Some?
    ensures var now, lease := Run(p, w, actions), LeaseAfter(p, w, actions, t, c).value;
            && ViewOf(now, t).config.Some?
            && var config := ViewOf(now, t).config.value;
            var graceMs := SecsToMillis(config.graceSec);
            var end := Paid(lease, SecsToMillis(config.activeSec), graceMs) + graceMs;
            Execute(p, now, TxOf(p, now, t, ToErase(c))).Done? <==> 0 < now.clock && end <= now.clock
  {
    var now := Run(p, w, actions);
    ReachableOk(p, w);
    RunKeeps(p, w, actions);
    ReachableLater(p, w, actions);
    LifetimeExact(p, w, actions, t, c);
    EraseExactlyWhenExpired(p, now, t, c);
    GraceEnd(p, t, ViewOf(now, t), now.clock, c, LeaseAfter(p, w, actions, t, c));
  }

  // ---- the tolerance ----

  ghost function ExtendTx(w: World, t: Hash, c: Hash, payer: AccountId, now: u64): Tx
    requires ViewOf(w, t).config.Some?
  {
    var v := ViewOf(w, t);
    RegistrationTx(AccountsOf(v, t, ToExtend(c, payer)), Extend(t, c, now, v.config.value.pricePerUnit, RateOf(v, c)))
  }

  /** A renewal is possible with some claim exactly while the chain's clock is past the grace start and less than the
      clock tolerance past the grace end: up to the tolerance after the membership has become erasable. */
  lemma ExtendWindow(p: Params, w: World, t: Hash, c: Hash, payer: AccountId)
    requires Sound(p) && Reachable(p, w) && c in ViewOf(w, t).members && payer.Plain?
    requires ViewOf(w, t).config.Some?
    requires PaymentAmount(ViewOf(w, t).members[c].rateLimit, ViewOf(w, t).config.value.pricePerUnit) <= Balance(w, payer)
    ensures var m := ViewOf(w, t).members[c];
            var end := SatAdd(m.graceStart, SecsToMillis(m.graceSec));
            (exists now :: Execute(p, w, ExtendTx(w, t, c, payer, now)).Done?)
            <==> 0 < w.clock && m.graceStart < end && m.graceStart <= w.clock < end + CLOCK_CLAIM_TOLERANCE_MS
  {
    ReachableOk(p, w);
    var v := ViewOf(w, t);
    var m := v.members[c];
    var end := SatAdd(m.graceStart, SecsToMillis(m.graceSec));
    assert RegistryOk(p, t, v);
    forall now: u64
      ensures Execute(p, w, ExtendTx(w, t, c, payer, now)).Done? <==>
              ClockAccepts(w.clock, now) && m.graceStart <= now < end
    {
      ExtendGuards(p, w, t, c, payer, now);
    }
    if 0 < w.clock && m.graceStart < end && m.graceStart <= w.clock < end + CLOCK_CLAIM_TOLERANCE_MS {
      var now: u64 := if w.clock < end then w.clock else end - 1;
      assert Execute(p, w, ExtendTx(w, t, c, payer, now)).Done?;
    }
  }

  lemma ExtendGuards(p: Params, w: World, t: Hash, c: Hash, payer: AccountId, now: u64)
    requires WellTyped(w) && c in ViewOf(w, t).members && payer.Plain?
    requires ViewOf(w, t).config.Some? && ViewOf(w, t).config.value.treeId == t
    requires PaymentAmount(ViewOf(w, t).members[c].rateLimit, ViewOf(w, t).config.value.pricePerUnit) <= Balance(w, payer)
    ensures var m := ViewOf(w, t).members[c];
            Execute(p, w, ExtendTx(w, t, c, payer, now)).Done? <==>
            ClockAccepts(w.clock, now) && IsInGracePeriod(m.graceStart, SecsToMillis(m.graceSec), now)
  {
    var v, intent := ViewOf(w, t), ToExtend(c, payer);
    var tx := ExtendTx(w, t, c, payer, now);
    AccountsOfSignable(p, v, t, intent, tx.ix);
    CommitsExactly(p, w, tx.metas, tx.ix);
  }

  // ---- where a renewal starts ----

  /** A renewal never dates the membership from the claimed clock: the new grace start is always later than the claim
      plus an active period. From the chain's own clock it starts exactly when that clock stands at the grace end. */
  lemma RenewalAndTheClock(p: Params, t: Hash, v: View, clock: u64, purse: nat, treasury: AccountId, ix: Instruction)
    requires RegistryOk(p, t, v) && ix.Extend? && Enabled(p, v, clock, purse, treasury, ix) && InRange(v, clock)
    ensures var c := ix.idCommitment;
            var m, m' := v.members[c], After(p, v, clock, purse, treasury, ix).members[c];
            && m'.graceStart > ix.now + SecsToMillis(m.activeSec)
            && (m'.graceStart == clock + SecsToMillis(m.activeSec) <==>
                clock == m.graceStart + SecsToMillis(m.graceSec))
  {
    assert MemberOk(p, v.config.value, ix.idCommitment, v.members[ix.idCommitment]);
  }
}
