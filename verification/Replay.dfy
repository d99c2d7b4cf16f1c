/** The replay of one registration transaction over stored shards, trees as bytes: what the programs really write. */
module Replay {
  import opened Bytes
  import opened Commits
  import opened Executor
  import opened Hashing
  import opened Outcomes
  import opened Registration
  import opened Registry
  import opened Tree
  import Shard

  /** What is stored for one account under one program; only the merkle program's shards are kept as bytes. */
  datatype Raw = Empty | Record(data: ShardData) | TreeBytes(bytes: seq<Byte>)

  /** One guest session. */
  datatype Session = PlanOf(program: AccountId) | ApplyTo(selector: Selector)

  function RawAt(shards: map<Selector, Raw>, s: Selector): Raw {
    if s in shards then shards[s] else Empty
  }

  /** Each program writes its own kind of shard. */
  ghost predicate Tidy(shards: map<Selector, Raw>) {
    forall s :: s in shards ==> TidyAt(s, shards[s])
  }

  ghost predicate TidyAt(s: Selector, raw: Raw) {
    match raw
    case Empty => true
    case Record(data) => s.program != MerkleProgram && !data.TreeShard?
    case TreeBytes(_) => s.program == MerkleProgram
  }

  /** The stored shard is the world's: records as they are, trees through their byte layout. */
  ghost predicate ShowsAt(p: Params, raw: Raw, shard: Option<ShardData>) {
    match raw
    case Empty => shard == None
    case Record(data) => shard == Some(data)
    case TreeBytes(bytes) => shard.Some? && shard.value.TreeShard? && Shard.ShardHolds(p, bytes, Some(shard.value.tree))
  }

  ghost predicate Shows(p: Params, shards: map<Selector, Raw>, w: World) {
    Tidy(shards) && forall s :: ShowsAt(p, RawAt(shards, s), ReadShard(w, s))
  }

  lemma ShowsWritten(p: Params, shards: map<Selector, Raw>, w: World, s: Selector, raw: Raw, update: Update)
    requires Shows(p, shards, w) && s != CLOCK_SEL && TidyAt(s, raw)
    requires match update
             case Keep => false
             case Replace(data) => ShowsAt(p, raw, Some(data))
             case Clear => raw == Empty
    ensures Shows(p, shards[s := raw], WriteShard(w, s, update))
  {
    var after, next := shards[s := raw], WriteShard(w, s, update);
    forall x ensures ShowsAt(p, RawAt(after, x), ReadShard(next, x)) {
      assert ShowsAt(p, RawAt(shards, x), ReadShard(w, x));
    }
  }

  lemma ShowsBalances(p: Params, shards: map<Selector, Raw>, w: World, balances: map<AccountId, nat>)
    requires Shows(p, shards, w)
    ensures Shows(p, shards, w.(balances := balances))
  {
    forall s ensures ShowsAt(p, RawAt(shards, s), ReadShard(w.(balances := balances), s)) {
      assert ShowsAt(p, RawAt(shards, s), ReadShard(w, s));
      assert ReadShard(w.(balances := balances), s) == ReadShard(w, s);
    }
  }

  // ---- what a plan of the registration program can hold ----

  /** An effect on the registration program's own shards, or a look at the clock. */
  predicate OwnEffect(e: ShardEffect) {
    e.selector.program != MerkleProgram && (e.selector == CLOCK_SEL ==> e.effect.ClockIs?)
  }

  predicate OwnEffects(effects: seq<ShardEffect>) {
    forall e :: e in effects ==> OwnEffect(e)
  }

  /** A payment, or a call that grants its callee the one account it names. */
  predicate OwnCall(call: ChainedCall) {
    match call.payload
    case Transfer(_) => call.callee == NativeProgram && IsBalances(call.selectors)
    case MerkleCall(_) => |call.selectors| == 1 && call.selectors[0].account in call.seeds
  }

  predicate OwnCalls(calls: seq<ChainedCall>) {
    forall c :: c in calls ==> OwnCall(c)
  }

  /** Not tree work asked of the native program. */
  predicate StrictCall(call: ChainedCall) {
    call.payload.MerkleCall? ==> call.callee != NativeProgram
  }

  predicate Strict(calls: seq<ChainedCall>) {
    forall c :: c in calls ==> StrictCall(c)
  }

  /** Only the first call is a payment, and its sender signed and has the money. */
  ghost predicate FundedAt(w: World, auth: set<AccountId>, calls: seq<ChainedCall>, i: nat)
    requires i < |calls|
  {
    calls[i].payload.Transfer? ==>
      && i == 0 && |calls[i].selectors| == 2 && calls[i].selectors[0].account in auth
      && calls[i].payload.amount <= Balance(w, calls[i].selectors[0].account)
  }

  ghost predicate Funded(w: World, auth: set<AccountId>, calls: seq<ChainedCall>) {
    forall i: nat :: i < |calls| ==> FundedAt(w, auth, calls, i)
  }

  function Applies(effects: seq<ShardEffect>): seq<Session> {
    seq(|effects|, i requires 0 <= i < |effects| => ApplyTo(effects[i].selector))
  }

  lemma AppliesOneMore(effects: seq<ShardEffect>, i: nat)
    requires i < |effects|
    ensures Applies(effects[..i + 1]) == Applies(effects[..i]) + [ApplyTo(effects[i].selector)]
  {
  }

  function CallSession(call: ChainedCall): seq<Session> {
    if call.payload.MerkleCall? && call.selectors != [] then [PlanOf(MerkleProgram), ApplyTo(call.selectors[0])] else []
  }

  function CallSessions(calls: seq<ChainedCall>): seq<Session> {
    if calls == [] then [] else CallSessions(calls[..|calls| - 1]) + CallSession(calls[|calls| - 1])
  }

  /** One session more for the plan, one for each effect, and two for each call of the merkle program. */
  function Logged(log: seq<Session>, plan: Outcome<PlanOutput>): seq<Session> {
    if plan.Done? then log + [PlanOf(RegistrationProgram)] + Applies(plan.value.effects) + CallSessions(plan.value.calls)
    else log + [PlanOf(RegistrationProgram)]
  }

  /** A replay ends as the executor does, except that nothing is claimed of calls into other programs. */
  ghost predicate Ends(p: Params, r: Outcome<()>, out: Outcome<World>, shards: map<Selector, Raw>, log: seq<Session>,
                       expected: seq<Session>)
  {
    out.Foreign? || (SameOutcome(r, out) && (r.Done? ==> Shows(p, shards, out.value) && log == expected))
  }

  /** The same world with a payer that can pay. */
  function Enriched(w: World, metas: seq<AccountMeta>, ix: Instruction): World {
    if Pays(ix) && Balance(w, Payer(metas)) < Price(ix) then w.(balances := w.balances[Payer(metas) := Price(ix)]) else w
  }

  lemma EnrichedPays(w: World, metas: seq<AccountMeta>, ix: Instruction)
    ensures Enriched(w, metas, ix) == w.(balances := Enriched(w, metas, ix).balances)
    ensures Pays(ix) ==> Price(ix) <= Balance(Enriched(w, metas, ix), Payer(metas))
  {
  }

  lemma PaymentRunsFirst(p: Params, w: World, mid: World, auth: set<AccountId>, calls: seq<ChainedCall>, i: nat)
    requires i < |calls| && OwnCalls(calls) && Funded(w, auth, calls) && (i == 0 ==> mid == w)
    ensures OwnCall(calls[i]) && (calls[i].payload.Transfer? ==> RunCall(p, mid, auth, calls[i]).Done?)
    ensures Strict(calls) ==> StrictCall(calls[i])
  {
    assert FundedAt(w, auth, calls, i);
  }

  lemma CallsStep(p: Params, w: World, auth: set<AccountId>, calls: seq<ChainedCall>, i: nat)
    requires i < |calls|
    ensures var first := RunCall(p, w, auth, calls[i]);
            RunCalls(p, w, auth, calls[i..]) ==
            if first.Done? then RunCalls(p, first.value, auth, calls[i + 1..]) else first
  {
    var rest := calls[i..];
    assert rest[0] == calls[i] && rest[1..] == calls[i + 1..];
  }

  lemma SessionsStep(calls: seq<ChainedCall>, i: nat)
    requires i < |calls|
    ensures CallSessions(calls[..i + 1]) == CallSessions(calls[..i]) + CallSession(calls[i])
  {
    assert calls[..i + 1][..i] == calls[..i];
  }

  lemma NativeTreeCall(p: Params, w: World, auth: set<AccountId>, treeMain: AccountMeta, t: Hash, ix: MerkleIx)
    ensures RunCalls(p, w, auth, [MerkleCallOn(NativeProgram, treeMain, t, ix)]).Foreign?
  {
    Calls1(p, w, auth, MerkleCallOn(NativeProgram, treeMain, t, ix));
  }

  /** The executor claims nothing of tree work asked of the native program. */
  lemma LaxIsForeign(p: Params, w: World, metas: seq<AccountMeta>, ix: Instruction)
    requires AccountsRight(metas, ix) && Funded(w, Authorized(metas), PayCalls(metas, ix) + TreeCalls(p, metas, ix))
    requires !Strict(PayCalls(metas, ix) + TreeCalls(p, metas, ix))
    ensures RunCalls(p, w, Authorized(metas), PayCalls(metas, ix) + TreeCalls(p, metas, ix)).Foreign?
  {
    var pay, tree, auth := PayCalls(metas, ix), TreeCalls(p, metas, ix), Authorized(metas);
    var calls := pay + tree;
    assert TreeRequest(p, ix).Some? && TreeRequest(p, ix).value.0 == NativeProgram;
    if Pays(ix) {
      assert calls[0] == pay[0] && calls[1..] == tree && FundedAt(w, auth, calls, 0);
      PaymentRuns(p, w, auth, metas[2], metas[3], Price(ix));
      NativeTreeCall(p, RunCall(p, w, auth, calls[0]).value, auth, metas[1], ix.treeId, TreeRequest(p, ix).value.1);
    } else {
      assert calls == tree;
      NativeTreeCall(p, w, auth, metas[1], ix.treeId, TreeRequest(p, ix).value.1);
    }
  }

  lemma PlannedIsOwn(p: Params, metas: seq<AccountMeta>, ix: Instruction)
    requires Plan(p, metas, ix).Done?
    ensures OwnEffects(Plan(p, metas, ix).value.effects) && OwnCalls(Plan(p, metas, ix).value.calls)
  {
    PlanExact(p, metas, ix);
    EffectsAreOwn(Treasury(metas), ix);
    CallsAreOwn(p, metas, ix);
  }

  lemma EffectsAreOwn(treasury: AccountId, ix: Instruction)
    ensures OwnEffects(EffectsOf(treasury, ix))
  {
  }

  lemma CallsAreOwn(p: Params, metas: seq<AccountMeta>, ix: Instruction)
    requires AccountsRight(metas, ix)
    ensures OwnCalls(PayCalls(metas, ix) + TreeCalls(p, metas, ix))
  {
    assert TreeRequest(p, ix).Some? ==> IsTreeMain(metas[1], ix.treeId, TreeRequest(p, ix).value.0);
  }

  lemma {:induction false} EffectsKeepBalances(w: World, effects: seq<ShardEffect>)
    requires RunEffects(w, effects).Done?
    ensures RunEffects(w, effects).value.balances == w.balances
    decreases |effects|
  {
    if effects != [] {
      EffectsKeepBalances(RunEffect(w, effects[0]).value, effects[1..]);
    }
  }

  lemma PlannedIsFunded(p: Params, w: World, mid: World, metas: seq<AccountMeta>, ix: Instruction)
    requires Plan(p, metas, ix).Done? && RunEffects(w, Plan(p, metas, ix).value.effects) == Done(mid)
    requires Pays(ix) ==> Price(ix) <= Balance(w, Payer(metas))
    ensures Funded(mid, Authorized(metas), Plan(p, metas, ix).value.calls)
  {
    PlanExact(p, metas, ix);
    EffectsKeepBalances(w, Plan(p, metas, ix).value.effects);
    var calls := PayCalls(metas, ix) + TreeCalls(p, metas, ix);
    forall i: nat | i < |calls| ensures FundedAt(mid, Authorized(metas), calls, i) {
      if calls[i].payload.Transfer? {
        assert i == 0 && calls[0] == PayCalls(metas, ix)[0];
      }
    }
  }

  lemma PlannedCalls(p: Params, w: World, mid: World, metas: seq<AccountMeta>, ix: Instruction)
    requires Plan(p, metas, ix).Done? && RunEffects(w, Plan(p, metas, ix).value.effects) == Done(mid)
    requires Pays(ix) ==> Price(ix) <= Balance(w, Payer(metas))
    ensures Funded(mid, Authorized(metas), Plan(p, metas, ix).value.calls)
    ensures !Strict(Plan(p, metas, ix).value.calls) ==>
              RunCalls(p, mid, Authorized(metas), Plan(p, metas, ix).value.calls).Foreign?
  {
    PlannedIsFunded(p, w, mid, metas, ix);
    PlanExact(p, metas, ix);
    if !Strict(Plan(p, metas, ix).value.calls) {
      LaxIsForeign(p, mid, metas, ix);
    }
  }

  class Replayer {
    var shards: map<Selector, Raw>
    var log: seq<Session>

    constructor (shards: map<Selector, Raw>)
      ensures this.shards == shards && log == []
    {
      this.shards := shards;
      log := [];
    }

    /** One effect of the registration program, one session. */
    method ApplyEffect(p: Params, e: ShardEffect, ghost w: World) returns (r: Outcome<()>)
      requires Shows(p, shards, w) && e.selector.program != MerkleProgram
      requires e.selector == CLOCK_SEL ==> e.effect.ClockIs?
      modifies this
      ensures log == old(log) + [ApplyTo(e.selector)]
      ensures SameOutcome(r, RunEffect(w, e))
      ensures r.Done? ==> Shows(p, shards, RunEffect(w, e).value)
    {
      log := log + [ApplyTo(e.selector)];
      var raw := RawAt(shards, e.selector);
      assert ShowsAt(p, raw, ReadShard(w, e.selector));
      var applied := Registration.Apply(e.effect, if raw.Record? then Some(raw.data) else None);
      if applied.IsFailure() {
        return applied.PropagateFailure();
      }
      match applied.value {
        case Keep =>
        case Replace(data) =>
          ShowsWritten(p, shards, w, e.selector, Record(data), applied.value);
          shards := shards[e.selector := Record(data)];
        case Clear =>
          ShowsWritten(p, shards, w, e.selector, Empty, applied.value);
          shards := shards[e.selector := Empty];
      }
      r := Done(());
    }

    /** A call of the merkle program: its plan's account checks, then its one effect on the shard's bytes. */
    method ReplayMerkle(p: Params, metas: seq<AccountMeta>, ix: MerkleIx, ghost w: World) returns (r: Outcome<()>)
      requires Sound(p) && Shows(p, shards, w)
      modifies this
      ensures SameOutcome(r, RunMerkle(p, w, metas, ix))
      ensures r.Done? ==> Shows(p, shards, RunMerkle(p, w, metas, ix).value)
      ensures r.Done? ==> |metas| == 1 && log == old(log) + [PlanOf(MerkleProgram), ApplyTo(SelectorOf(metas[0]))]
    {
      log := log + [PlanOf(MerkleProgram)];
      if |metas| != 1 || !metas[0].authorized || metas[0].program != MerkleProgram {
        return Panic;
      }
      var s := SelectorOf(metas[0]);
      log := log + [ApplyTo(s)];
      var raw := RawAt(shards, s);
      assert ShowsAt(p, raw, ReadShard(w, s));
      ghost var tree := if ReadShard(w, s).None? then None else Some(ReadShard(w, s).value.tree);
      var post := Shard.Apply(p, ix, if raw.TreeBytes? then raw.bytes else [], tree);
      if post.IsFailure() {
        return post.PropagateFailure();
      }
      ShowsWritten(p, shards, w, s, TreeBytes(post.value), Replace(TreeShard(TreeApply(p, ix, tree).value)));
      shards := shards[s := TreeBytes(post.value)];
      r := Done(());
    }

    method ReplayEffects(p: Params, effects: seq<ShardEffect>, ghost w: World) returns (r: Outcome<()>)
      requires Shows(p, shards, w) && OwnEffects(effects)
      modifies this
      ensures SameOutcome(r, RunEffects(w, effects))
      ensures r.Done? ==> Shows(p, shards, RunEffects(w, effects).value) && log == old(log) + Applies(effects)
    {
      ghost var mid := w;
      var i := 0;
      while i < |effects|
        invariant 0 <= i <= |effects|
        invariant Shows(p, shards, mid) && RunEffects(w, effects) == RunEffects(mid, effects[i..])
        invariant log == old(log) + Applies(effects[..i])
      {
        ghost var rest := effects[i..];
        assert rest[0] == effects[i] && rest[1..] == effects[i + 1..];
        assert OwnEffect(effects[i]);
        var out := ApplyEffect(p, effects[i], mid);
        if out.IsFailure() {
          return out;
        }
        mid := RunEffect(mid, effects[i]).value;
        AppliesOneMore(effects, i);
        i := i + 1;
      }
      assert effects[..i] == effects;
      r := Done(());
    }

    /** The chained calls in order. The native program runs outside the guests: its calls are passed over, even one that
        asks it for tree work. */
    method ReplayCalls(p: Params, calls: seq<ChainedCall>, ghost auth: set<AccountId>, ghost w: World)
      returns (r: Outcome<()>)
      requires Sound(p) && Shows(p, shards, w) && OwnCalls(calls) && Funded(w, auth, calls)
      modifies this
      ensures Strict(calls) ==> SameOutcome(r, RunCalls(p, w, auth, calls))
      ensures Strict(calls) && r.Done? ==>
                Shows(p, shards, RunCalls(p, w, auth, calls).value) && log == old(log) + CallSessions(calls)
    {
      ghost var mid := w;
      var i := 0;
      while i < |calls|
        invariant 0 <= i <= |calls|
        invariant Shows(p, shards, mid) && (i == 0 ==> mid == w)
        invariant Strict(calls) ==> RunCalls(p, w, auth, calls) == RunCalls(p, mid, auth, calls[i..])
        invariant Strict(calls) ==> log == old(log) + CallSessions(calls[..i])
      {
        CallsStep(p, mid, auth, calls, i);
        PaymentRunsFirst(p, w, mid, auth, calls, i);
        SessionsStep(calls, i);
        var out := ReplayCall(p, calls[i], auth, mid);
        if out.IsFailure() {
          return out;
        }
        mid := if RunCall(p, mid, auth, calls[i]).Done? then RunCall(p, mid, auth, calls[i]).value else mid;
        i := i + 1;
      }
      assert calls[..i] == calls;
      r := Done(());
    }

    method ReplayCall(p: Params, call: ChainedCall, ghost auth: set<AccountId>, ghost w: World) returns (r: Outcome<()>)
      requires Sound(p) && Shows(p, shards, w) && OwnCall(call)
      requires call.payload.Transfer? ==> RunCall(p, w, auth, call).Done?
      modifies this
      ensures StrictCall(call) ==> SameOutcome(r, RunCall(p, w, auth, call))
      ensures r.Done? ==> var out := RunCall(p, w, auth, call);
                          && Shows(p, shards, if out.Done? then out.value else w)
                          && (out.Done? ==> log == old(log) + CallSession(call))
    {
      if call.callee == NativeProgram {
        if RunCall(p, w, auth, call).Done? {
          ShowsBalances(p, shards, w, RunCall(p, w, auth, call).value.balances);
        }
        return Done(());
      }
      if call.callee != MerkleProgram || !call.payload.MerkleCall? {
        return Foreign;
      }
      var metas := seq(|call.selectors|, k requires 0 <= k < |call.selectors| =>
        AccountMeta(call.selectors[k].account, true, call.selectors[k].program));
      assert metas == CalleeMetas(call, auth);
      r := ReplayMerkle(p, metas, call.payload.ix, w);
    }

    /** One registration transaction: its plan, its effects, then its chained calls. The stored shards do not say who
        can pay, so it ends as the executor does in the same world with a payer that can. */
    method ReplayTransaction(p: Params, metas: seq<AccountMeta>, ix: Instruction, ghost w: World)
      returns (r: Outcome<()>)
      requires Sound(p) && Shows(p, shards, w) && Signable(RegistrationTx(metas, ix))
      modifies this
      ensures Ends(p, r, Execute(p, Enriched(w, metas, ix), RegistrationTx(metas, ix)), shards, log,
                   Logged(old(log), Plan(p, metas, ix)))
    {
      ghost var rich := Enriched(w, metas, ix);
      EnrichedPays(w, metas, ix);
      ShowsBalances(p, shards, w, rich.balances);
      r := ReplayFunded(p, metas, ix, rich);
    }

    method ReplayFunded(p: Params, metas: seq<AccountMeta>, ix: Instruction, ghost w: World) returns (r: Outcome<()>)
      requires Sound(p) && Shows(p, shards, w) && Signable(RegistrationTx(metas, ix))
      requires Pays(ix) ==> Price(ix) <= Balance(w, Payer(metas))
      modifies this
      ensures Ends(p, r, Execute(p, w, RegistrationTx(metas, ix)), shards, log, Logged(old(log), Plan(p, metas, ix)))
    {
      log := log + [PlanOf(RegistrationProgram)];
      var plan := Plan(p, metas, ix);
      if plan.IsFailure() {
        return plan.PropagateFailure();
      }
      PlannedIsOwn(p, metas, ix);
      r := ReplayEffects(p, plan.value.effects, w);
      if r.Done? {
        ghost var mid := RunEffects(w, plan.value.effects).value;
        PlannedCalls(p, w, mid, metas, ix);
        r := ReplayCalls(p, plan.value.calls, Authorized(metas), mid);
      }
    }
  }
}
