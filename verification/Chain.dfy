/** A chain that stores what the programs write, trees as bytes: whole transactions, all or nothing, and whole runs. */
module Chain {
  import opened Bytes
  import opened Commits
  import opened Executor
  import opened Hashing
  import opened Outcomes
  import opened Registration
  import opened Replay
  import opened Tree
  import opened Views
  import Shard

  /** The stored bytes of an account under the merkle program, empty when nothing was ever written. */
  function BytesAt(shards: map<Selector, Raw>, s: Selector): seq<Byte> {
    if RawAt(shards, s).TreeBytes? then RawAt(shards, s).bytes else []
  }

  /** What is stored for a registry's tree is the byte layout of its view. */
  lemma StoredTree(p: Params, shards: map<Selector, Raw>, w: World, t: Hash)
    requires Shows(p, shards, w)
    ensures Shard.ShardHolds(p, BytesAt(shards, MainSel(t)), ViewOf(w, t).tree)
  {
    var raw := RawAt(shards, MainSel(t));
    assert ShowsAt(p, raw, ReadShard(w, MainSel(t)));
  }

  lemma TransferMoves(w: World, from: AccountId, to: AccountId, amount: nat)
    requires Balance(w, from) >= amount
    ensures RunTransfer(w, from, to, amount, true) == Done(w.(balances := Moved(w, from, to, amount)))
  {
  }

  class Chain {
    const store: Replayer
    var balances: map<AccountId, nat>

    ghost predicate Shown(p: Params, w: World)
      reads this, store
    {
      Shows(p, store.shards, w) && balances == w.balances
    }

    /** Nothing stored but the clock. */
    constructor (ghost p: Params, balances: map<AccountId, nat>, clock: u64)
      ensures fresh(store) && Shown(p, World(map[], balances, clock))
    {
      store := new Replayer(map[CLOCK_SEL := Record(ClockShard(clock))]);
      this.balances := balances;
      new;
      ghost var w := World(map[], balances, clock);
      forall s ensures ShowsAt(p, RawAt(store.shards, s), ReadShard(w, s)) {
      }
    }

    /** The native program. */
    method Transfer(ghost p: Params, from: AccountId, to: AccountId, amount: nat, authorized: bool, ghost w: World)
      returns (r: Outcome<()>)
      requires Shown(p, w)
      modifies this
      ensures SameOutcome(r, RunTransfer(w, from, to, amount, authorized))
      ensures r.Done? ==> Shown(p, RunTransfer(w, from, to, amount, authorized).value)
    {
      var held := if from in balances then balances[from] else 0;
      if !authorized || held < amount {
        return Refused;
      }
      balances := balances[from := held - amount];
      balances := balances[to := (if to in balances then balances[to] else 0) + amount];
      TransferMoves(w, from, to, amount);
      ShowsBalances(p, store.shards, w, balances);
      r := Done(());
    }

    method Call(p: Params, call: ChainedCall, authorized: set<AccountId>, ghost w: World) returns (r: Outcome<()>)
      requires Sound(p) && Shown(p, w)
      modifies this, store
      ensures SameOutcome(r, RunCall(p, w, authorized, call))
      ensures r.Done? ==> Shown(p, RunCall(p, w, authorized, call).value)
    {
      if call.callee == NativeProgram && call.payload.Transfer? && IsBalances(call.selectors) {
        r := Transfer(p, call.selectors[0].account, call.selectors[1].account, call.payload.amount,
                      call.selectors[0].account in authorized, w);
      } else if call.callee == MerkleProgram && call.payload.MerkleCall? {
        r := store.ReplayMerkle(p, CalleeMetas(call, authorized), call.payload.ix, w);
        MerkleKeepsBalances(p, w, CalleeMetas(call, authorized), call.payload.ix);
      } else {
        r := Foreign;
      }
    }

    method Calls(p: Params, calls: seq<ChainedCall>, authorized: set<AccountId>, ghost w: World) returns (r: Outcome<()>)
      requires Sound(p) && Shown(p, w)
      modifies this, store
      ensures SameOutcome(r, RunCalls(p, w, authorized, calls))
      ensures r.Done? ==> Shown(p, RunCalls(p, w, authorized, calls).value)
    {
      ghost var mid := w;
      var i := 0;
      while i < |calls|
        invariant 0 <= i <= |calls|
        invariant Shown(p, mid) && RunCalls(p, w, authorized, calls) == RunCalls(p, mid, authorized, calls[i..])
      {
        ghost var rest := calls[i..];
        assert rest[0] == calls[i] && rest[1..] == calls[i + 1..];
        var out := Call(p, calls[i], authorized, mid);
        if out.IsFailure() {
          return out;
        }
        mid := RunCall(p, mid, authorized, calls[i]).value;
        i := i + 1;
      }
      r := Done(());
    }

    /** A registration transaction up to its first failure. */
    method RunInstruction(p: Params, metas: seq<AccountMeta>, ix: Instruction, ghost w: World) returns (r: Outcome<()>)
      requires Sound(p) && Shown(p, w) && Signable(RegistrationTx(metas, ix))
      modifies this, store
      ensures SameOutcome(r, Execute(p, w, RegistrationTx(metas, ix)))
      ensures r.Done? ==> Shown(p, Execute(p, w, RegistrationTx(metas, ix)).value)
    {
      var plan := Plan(p, metas, ix);
      if plan.IsFailure() {
        return plan.PropagateFailure();
      }
      PlannedIsOwn(p, metas, ix);
      r := store.ReplayEffects(p, plan.value.effects, w);
      if r.Done? {
        EffectsKeepBalances(w, plan.value.effects);
        r := Calls(p, plan.value.calls, Authorized(metas), RunEffects(w, plan.value.effects).value);
      }
    }

    method Attempt(p: Params, tx: Tx, ghost w: World) returns (r: Outcome<()>)
      requires Sound(p) && Shown(p, w)
      modifies this, store
      ensures SameOutcome(r, Execute(p, w, tx))
      ensures r.Done? ==> Shown(p, Execute(p, w, tx).value)
    {
      if !Signable(tx) {
        return Refused;
      }
      match tx {
        case RegistrationTx(metas, ix) => r := RunInstruction(p, metas, ix, w);
        case MerkleTx(metas, ix) =>
          r := store.ReplayMerkle(p, metas, ix, w);
          MerkleKeepsBalances(p, w, metas, ix);
        case TransferTx(from, to, amount) => r := Transfer(p, from, to, amount, true, w);
      }
    }

    /** One transaction, all or nothing: a failed one leaves everything stored as it was. */
    method Submit(p: Params, tx: Tx, ghost w: World) returns (r: Outcome<()>)
      requires Sound(p) && Shown(p, w)
      modifies this, store
      ensures SameOutcome(r, Execute(p, w, tx)) && Shown(p, Step(p, w, Action.Submit(tx)))
    {
      var shards, held := store.shards, balances;
      r := Attempt(p, tx, w);
      if r.IsFailure() {
        store.shards := shards;
        balances := held;
      }
    }

    method Tick(ghost p: Params, timestamp: u64, ghost w: World)
      requires Shown(p, w)
      modifies store
      ensures Shown(p, Step(p, w, Action.Tick(timestamp)))
    {
      assert ShowsAt(p, RawAt(store.shards, CLOCK_SEL), ReadShard(w, CLOCK_SEL));
      var clock := store.shards[CLOCK_SEL].data.timestamp;
      if clock <= timestamp {
        ShowsTick(p, store.shards, w, timestamp);
        store.shards := store.shards[CLOCK_SEL := Record(ClockShard(timestamp))];
      }
    }

    /** Any run of registrations, merkle calls, transfers and ticks, by any senders. */
    method RunAll(p: Params, actions: seq<Action>, ghost w: World)
      requires Sound(p) && Shown(p, w)
      modifies this, store
      ensures Shown(p, Run(p, w, actions))
    {
      for i := 0 to |actions|
        invariant Shown(p, Run(p, w, actions[..i]))
      {
        assert actions[..i + 1][..i] == actions[..i];
        match actions[i] {
          case Submit(tx) => var out := Submit(p, tx, Run(p, w, actions[..i]));
          case Tick(timestamp) => Tick(p, timestamp, Run(p, w, actions[..i]));
        }
      }
      assert actions[..|actions|] == actions;
    }
  }

  lemma MerkleKeepsBalances(p: Params, w: World, metas: seq<AccountMeta>, ix: MerkleIx)
    ensures RunMerkle(p, w, metas, ix).Done? ==> RunMerkle(p, w, metas, ix).value.balances == w.balances
  {
  }

  lemma ShowsTick(p: Params, shards: map<Selector, Raw>, w: World, timestamp: u64)
    requires Shows(p, shards, w)
    ensures Shows(p, shards[CLOCK_SEL := Record(ClockShard(timestamp))], w.(clock := timestamp))
  {
    var after, next := shards[CLOCK_SEL := Record(ClockShard(timestamp))], w.(clock := timestamp);
    forall s ensures ShowsAt(p, RawAt(after, s), ReadShard(next, s)) {
      assert ShowsAt(p, RawAt(shards, s), ReadShard(w, s));
    }
  }
}
