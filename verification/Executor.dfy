/** Transactions: a plan, its effects in order, then its chained calls, all or nothing; and runs of them. */
module Executor {
  import opened Bytes
  import opened Hashing
  import opened Outcomes
  import opened Registration
  import opened Tree

  /** The chain as far as the two programs can see it. */
  datatype World = World(shards: map<Selector, ShardData>, balances: map<AccountId, nat>, clock: u64)

  function ReadShard(w: World, s: Selector): Option<ShardData> {
    if s == Selector(Clock50, ClockProgram) then Some(ClockShard(w.clock))
    else if s in w.shards then Some(w.shards[s])
    else None
  }

  function WriteShard(w: World, s: Selector, update: Update): World {
    match update
    case Keep => w
    case Replace(data) => w.(shards := w.shards[s := data])
    case Clear => w.(shards := w.shards - {s})
  }

  function Balance(w: World, a: AccountId): nat {
    if a in w.balances then w.balances[a] else 0
  }

  // ---- one transaction ----

  function RunEffect(w: World, e: ShardEffect): Outcome<World> {
    var update :- Apply(e.effect, ReadShard(w, e.selector));
    Done(WriteShard(w, e.selector, update))
  }

  function RunEffects(w: World, effects: seq<ShardEffect>): Outcome<World>
    decreases |effects|
  {
    if effects == [] then Done(w)
    else
      var next :- RunEffect(w, effects[0]);
      RunEffects(next, effects[1..])
  }

  /** The native program: an authorized sender with enough balance. */
  function RunTransfer(w: World, from: AccountId, to: AccountId, amount: nat, authorized: bool): Outcome<World> {
    if !authorized || Balance(w, from) < amount then Refused
    else
      var debited := w.(balances := w.balances[from := Balance(w, from) - amount]);
      Done(debited.(balances := debited.balances[to := Balance(debited, to) + amount]))
  }

  /** The merkle program: its plan's account checks, then its one effect. */
  function RunMerkle(p: Params, w: World, metas: seq<AccountMeta>, ix: MerkleIx): Outcome<World> {
    if |metas| != 1 || !metas[0].authorized || metas[0].program != MerkleProgram then Panic
    else
      var shard := ReadShard(w, SelectorOf(metas[0]));
      if shard.Some? && !shard.value.TreeShard? then Panic
      else
        var tree :- TreeApply(p, ix, if shard.None? then None else Some(shard.value.tree));
        Done(WriteShard(w, SelectorOf(metas[0]), Replace(TreeShard(tree))))
  }

  /** The accounts a callee sees: authorized through the caller or by the granted seeds. */
  function CalleeMetas(call: ChainedCall, authorized: set<AccountId>): (metas: seq<AccountMeta>)
    ensures |metas| == |call.selectors|
  {
    seq(|call.selectors|, i requires 0 <= i < |call.selectors| =>
      var s := call.selectors[i];
      AccountMeta(s.account, s.account in authorized || s.account in call.seeds, s.program))
  }

  /** Two accounts, each through its native shard. */
  predicate IsBalances(selectors: seq<Selector>) {
    |selectors| == 2 && selectors[0].program == NativeProgram && selectors[1].program == NativeProgram
  }

  function RunCall(p: Params, w: World, authorized: set<AccountId>, call: ChainedCall): Outcome<World> {
    if call.callee == NativeProgram && call.payload.Transfer? && IsBalances(call.selectors) then
      RunTransfer(w, call.selectors[0].account, call.selectors[1].account, call.payload.amount,
                  call.selectors[0].account in authorized)
    else if call.callee == MerkleProgram && call.payload.MerkleCall? then
      RunMerkle(p, w, CalleeMetas(call, authorized), call.payload.ix)
    else Foreign
  }

  function RunCalls(p: Params, w: World, authorized: set<AccountId>, calls: seq<ChainedCall>): Outcome<World>
    decreases |calls|
  {
    if calls == [] then Done(w)
    else
      var next :- RunCall(p, w, authorized, calls[0]);
      RunCalls(p, next, authorized, calls[1..])
  }

  function Authorized(metas: seq<AccountMeta>): (s: set<AccountId>)
    ensures forall a :: a in s <==> exists i: nat :: i < |metas| && metas[i].authorized && metas[i].account == a
  {
    set i: nat | i < |metas| && metas[i].authorized :: metas[i].account
  }

  datatype Tx =
    | RegistrationTx(metas: seq<AccountMeta>, ix: Instruction)
    | MerkleTx(metas: seq<AccountMeta>, mix: MerkleIx)
    | TransferTx(from: AccountId, to: AccountId, amount: u128)

  /** Only plain accounts have a key to sign with: no PDA or system account is authorized at top level. */
  predicate Signable(tx: Tx) {
    match tx
    case RegistrationTx(metas, _) => forall i: nat :: i < |metas| && metas[i].authorized ==> metas[i].account.Plain?
    case MerkleTx(metas, _) => forall i: nat :: i < |metas| && metas[i].authorized ==> metas[i].account.Plain?
    case TransferTx(from, _, _) => from.Plain?
  }

  function Execute(p: Params, w: World, tx: Tx): Outcome<World> {
    if !Signable(tx) then Refused
    else
      match tx
      case RegistrationTx(metas, ix) =>
        var plan :- Plan(p, metas, ix);
        var applied :- RunEffects(w, plan.effects);
        RunCalls(p, applied, Authorized(metas), plan.calls)
      case MerkleTx(metas, ix) => RunMerkle(p, w, metas, ix)
      case TransferTx(from, to, amount) => RunTransfer(w, from, to, amount, true)
  }

  // ---- runs ----

  datatype Action = Submit(tx: Tx) | Tick(timestamp: u64)

  predicate Committed(p: Params, w: World, a: Action) {
    a.Submit? && Execute(p, w, a.tx).Done?
  }

  /** A failed transaction changes nothing; the clock never goes back. */
  function Step(p: Params, w: World, a: Action): World {
    match a
    case Submit(tx) =>
      var out := Execute(p, w, tx);
      if out.Done? then out.value else w
    case Tick(timestamp) => if w.clock <= timestamp then w.(clock := timestamp) else w
  }

  function Run(p: Params, w: World, actions: seq<Action>): World {
    if actions == [] then w
    else Step(p, Run(p, w, actions[..|actions| - 1]), actions[|actions| - 1])
  }

  lemma {:induction false} RunConcat(p: Params, w: World, a: seq<Action>, b: seq<Action>)
    ensures Run(p, w, a + b) == Run(p, Run(p, w, a), b)
  {
    if b == [] {
      assert a + b == a;
    } else {
      var shorter := b[..|b| - 1];
      RunConcat(p, w, a, shorter);
      assert (a + b)[..|a + b| - 1] == a + shorter;
      assert (a + b)[|a + b| - 1] == b[|b| - 1];
    }
  }

  /** Before anything happened: no shards; balances and clock are arbitrary. */
  ghost predicate Genesis(w: World) {
    w.shards == map[]
  }
}
