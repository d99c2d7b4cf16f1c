/** What a transaction can touch at all, and whom it can call with a tree's authority, whatever its sender supplies. */
module Pinning {
  import opened Bytes
  import opened Commits
  import opened Executor
  import opened Hashing
  import opened Registration
  import opened Registry
  import opened Views

  // ---- callee pinning ----

  lemma FirstEffectPins(w: World, treasury: AccountId, ix: Instruction, p: Params)
    requires TreeRequest(p, ix).Some? && RunEffects(w, EffectsOf(treasury, ix)).Done?
    ensures var shard := ReadShard(w, ConfigSel(ix.treeId));
            && shard.Some? && shard.value.ConfigShard?
            && ConfigIdsMatch(shard.value.config, ix.treeId, TreeRequest(p, ix).value.0)
  {
    assert RunEffect(w, EffectsOf(treasury, ix)[0]).Done?;
  }

  lemma SeededCalls(p: Params, metas: seq<AccountMeta>, ix: Instruction, i: nat, t: Hash)
    requires Plan(p, metas, ix).Done? && i < |Plan(p, metas, ix).value.calls|
    requires MainPda(t) in Plan(p, metas, ix).value.calls[i].seeds
    ensures t == ix.treeId && TreeRequest(p, ix).Some?
    ensures Plan(p, metas, ix).value.calls[i].callee == TreeRequest(p, ix).value.0
  {
    PlanExact(p, metas, ix);
  }

  /** Callee pinning: once the effects of a transaction have passed, every chained call that carries the authority of
      tree `t` goes to the program stored in `t`'s own config. */
  lemma CalleePinned(p: Params, w: World, metas: seq<AccountMeta>, ix: Instruction, i: nat, t: Hash)
    requires Plan(p, metas, ix).Done? && RunEffects(w, Plan(p, metas, ix).value.effects).Done?
    requires i < |Plan(p, metas, ix).value.calls| && MainPda(t) in Plan(p, metas, ix).value.calls[i].seeds
    ensures var shard := ReadShard(w, ConfigSel(t));
            && shard.Some? && shard.value.ConfigShard? && shard.value.config.treeId == t
            && shard.value.config.merkleProgram == Plan(p, metas, ix).value.calls[i].callee
  {
    PlanExact(p, metas, ix);
    SeededCalls(p, metas, ix, i, t);
    FirstEffectPins(w, Treasury(metas), ix, p);
  }

  // ---- footprint ----

  /** The shards an instruction may write. */
  function Footprint(ix: Instruction): set<Selector> {
    {ConfigSel(ix.treeId), MainSel(ix.treeId)} +
    match ix
    case Register(t, c, _, _, _, _, _, _) => {MemberSel(t, c)}
    case Slash(t, c, _, _, _, _) => {MemberSel(t, c)}
    case Extend(t, c, _, _, _) => {MemberSel(t, c)}
    case Erase(t, c, _, _, _, _) => {MemberSel(t, c)}
    case _ => {}
  }

  ghost predicate SameOutside(w: World, after: World, s: set<Selector>) {
    forall x :: x !in s ==> (x in after.shards <==> x in w.shards) && (x in w.shards ==> after.shards[x] == w.shards[x])
  }

  /** Effects that keep their shard aside, only the selected shards are written. */
  lemma {:induction false} EffectsFrame(w: World, effects: seq<ShardEffect>, s: set<Selector>)
    requires RunEffects(w, effects).Done?
    requires forall e :: e in effects ==> e.selector in s || e.effect.ClockIs?
    ensures SameOutside(w, RunEffects(w, effects).value, s)
    decreases |effects|
  {
    if effects != [] {
      var next := RunEffect(w, effects[0]).value;
      assert effects[0] in effects;
      assert SameOutside(w, next, s);
      assert forall e :: e in effects[1..] ==> e in effects;
      EffectsFrame(next, effects[1..], s);
    }
  }

  lemma CallFrame(p: Params, w: World, auth: set<AccountId>, call: ChainedCall, s: set<Selector>)
    requires RunCall(p, w, auth, call).Done?
    requires call.payload.MerkleCall? ==> |call.selectors| == 1 && call.selectors[0].program == call.callee
    requires call.payload.MerkleCall? && call.callee == MerkleProgram ==> call.selectors[0] in s
    ensures SameOutside(w, RunCall(p, w, auth, call).value, s)
  {
  }

  lemma {:induction false} CallsFrame(p: Params, w: World, auth: set<AccountId>, calls: seq<ChainedCall>, s: set<Selector>)
    requires RunCalls(p, w, auth, calls).Done?
    requires forall c :: c in calls && c.payload.MerkleCall? ==> |c.selectors| == 1 && c.selectors[0].program == c.callee
    requires forall c :: c in calls && c.payload.MerkleCall? && c.callee == MerkleProgram ==> c.selectors[0] in s
    ensures SameOutside(w, RunCalls(p, w, auth, calls).value, s)
    decreases |calls|
  {
    if calls != [] {
      var next := RunCall(p, w, auth, calls[0]).value;
      assert calls[0] in calls;
      CallFrame(p, w, auth, calls[0], s);
      assert forall c :: c in calls[1..] ==> c in calls;
      CallsFrame(p, next, auth, calls[1..], s);
    }
  }

  lemma EffectsInside(treasury: AccountId, ix: Instruction)
    ensures forall e :: e in EffectsOf(treasury, ix) ==> e.selector in Footprint(ix) || e.effect.ClockIs?
  {
  }

  lemma CallsInside(p: Params, metas: seq<AccountMeta>, ix: Instruction)
    requires AccountsRight(metas, ix)
    ensures forall c :: c in PayCalls(metas, ix) + TreeCalls(p, metas, ix) && c.payload.MerkleCall? ==>
                          && |c.selectors| == 1 && c.selectors[0].program == c.callee
                          && (c.callee == MerkleProgram ==> c.selectors[0] in Footprint(ix))
  {
    assert TreeRequest(p, ix).Some? ==> IsTreeMain(metas[1], ix.treeId, TreeRequest(p, ix).value.0);
  }

  /** A committed instruction on tree `t` writes at most `t`'s config, `t`'s tree and the one membership it names. */
  lemma OnlyItsOwnShards(p: Params, w: World, metas: seq<AccountMeta>, ix: Instruction)
    requires Execute(p, w, RegistrationTx(metas, ix)).Done?
    ensures SameOutside(w, Execute(p, w, RegistrationTx(metas, ix)).value, Footprint(ix))
  {
    PlanExact(p, metas, ix);
    var plan := Plan(p, metas, ix).value;
    var mid := RunEffects(w, plan.effects).value;
    EffectsInside(Treasury(metas), ix);
    CallsInside(p, metas, ix);
    EffectsFrame(w, plan.effects, Footprint(ix));
    CallsFrame(p, mid, Authorized(metas), plan.calls, Footprint(ix));
  }
}
