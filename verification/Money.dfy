/** Native payments over whole runs: every unit is accounted for, and every registry earns exactly its price. */
module Money {
  import opened Bytes
  import opened Commits
  import opened Executor
  import opened Hashing
  import opened Outcomes
  import opened Registration
  import opened Registry
  import opened Runs
  import opened Slots
  import opened Sums
  import opened Views

  /** One committed movement; `tree` and `units` say what a registry sold for it. */
  datatype Payment = Payment(from: AccountId, to: AccountId, amount: nat, tree: Option<Hash>, units: nat)

  ghost function PaymentOf(p: Params, w: World, a: Action): Option<Payment> {
    if !Committed(p, w, a) then None
    else
      match a.tx
      case RegistrationTx(metas, ix) =>
        if ix.Register? || ix.Extend?
        then Some(Payment(Payer(metas), Treasury(metas), Price(ix), Some(ix.treeId), ix.rateLimit)) else None
      case MerkleTx(_, _) => None
      case TransferTx(from, to, amount) => Some(Payment(from, to, amount, None, 0))
  }

  ghost function Payments(p: Params, w: World, actions: seq<Action>): seq<Payment> {
    if actions == [] then []
    else
      var shorter := actions[..|actions| - 1];
      var last := PaymentOf(p, Run(p, w, shorter), actions[|actions| - 1]);
      Payments(p, w, shorter) + if last.Some? then [last.value] else []
  }

  function Spent(payments: seq<Payment>, a: AccountId): nat {
    if payments == [] then 0
    else
      var last := payments[|payments| - 1];
      Spent(payments[..|payments| - 1], a) + if last.from == a then last.amount else 0
  }

  function Received(payments: seq<Payment>, a: AccountId): nat {
    if payments == [] then 0
    else
      var last := payments[|payments| - 1];
      Received(payments[..|payments| - 1], a) + if last.to == a then last.amount else 0
  }

  function Earned(payments: seq<Payment>, t: Hash): nat {
    if payments == [] then 0
    else
      var last := payments[|payments| - 1];
      Earned(payments[..|payments| - 1], t) + if last.tree == Some(t) then last.amount else 0
  }

  function UnitsSold(payments: seq<Payment>, t: Hash): nat {
    if payments == [] then 0
    else
      var last := payments[|payments| - 1];
      UnitsSold(payments[..|payments| - 1], t) + if last.tree == Some(t) then last.units else 0
  }

  ghost function Supply(w: World): nat {
    Sum(w.balances)
  }

  // ---- one step ----

  /** The balances one committed payment leaves, said per account. */
  ghost predicate Settles(w: World, after: World, pay: Option<Payment>) {
    match pay
    case None => after.balances == w.balances
    case Some(x) => x.amount <= Balance(w, x.from) && after.balances == Moved(w, x.from, x.to, x.amount)
  }

  lemma StepSettles(p: Params, w: World, a: Action)
    requires WellTyped(w)
    ensures Settles(w, Step(p, w, a), PaymentOf(p, w, a))
  {
    if Committed(p, w, a) {
      match a.tx
      case RegistrationTx(metas, ix) => CommitsExactly(p, w, metas, ix);
      case MerkleTx(metas, mix) => DirectMerkleCall(p, w, metas, mix, ZERO);
      case TransferTx(_, _, _) =>
    }
  }

  lemma SumSet<K(!new)>(m: map<K, nat>, k: K, v: nat)
    ensures Sum(m[k := v]) + (if k in m then m[k] else 0) == Sum(m) + v
  {
    SumUpdate(m, k, v);
    if k in m {
      SumWithout(m, k);
    } else {
      assert m - {k} == m;
    }
  }

  lemma SettlesKeepsSupply(w: World, after: World, pay: Option<Payment>)
    requires Settles(w, after, pay)
    ensures Supply(after) == Supply(w)
  {
    if pay.Some? {
      var x := pay.value;
      var debited := w.(balances := w.balances[x.from := Balance(w, x.from) - x.amount]);
      SumSet(w.balances, x.from, Balance(w, x.from) - x.amount);
      SumSet(debited.balances, x.to, Balance(debited, x.to) + x.amount);
    }
  }

  lemma BalanceInSupply(w: World, a: AccountId)
    ensures Balance(w, a) <= Supply(w)
  {
    if a in w.balances {
      OneOfSum(w.balances, a);
    }
  }

  // ---- whole runs ----

  /** The native supply is conserved. */
  lemma {:induction false} SupplyConserved(p: Params, w: World, actions: seq<Action>)
    requires WellTyped(w)
    ensures Supply(Run(p, w, actions)) == Supply(w)
  {
    if actions != [] {
      var shorter, a := actions[..|actions| - 1], actions[|actions| - 1];
      SupplyConserved(p, w, shorter);
      RunProgress(p, w, shorter, ZERO);
      StepSettles(p, Run(p, w, shorter), a);
      SettlesKeepsSupply(Run(p, w, shorter), Run(p, w, actions), PaymentOf(p, Run(p, w, shorter), a));
    }
  }

  lemma AppendPayment(payments: seq<Payment>, x: Payment, a: AccountId, t: Hash)
    ensures Spent(payments + [x], a) == Spent(payments, a) + if x.from == a then x.amount else 0
    ensures Received(payments + [x], a) == Received(payments, a) + if x.to == a then x.amount else 0
    ensures Earned(payments + [x], t) == Earned(payments, t) + if x.tree == Some(t) then x.amount else 0
    ensures UnitsSold(payments + [x], t) == UnitsSold(payments, t) + if x.tree == Some(t) then x.units else 0
  {
    assert (payments + [x])[..|payments + [x]| - 1] == payments;
  }

  lemma SettlesAccount(w: World, after: World, pay: Option<Payment>, a: AccountId)
    requires Settles(w, after, pay)
    ensures Balance(after, a) + (if pay.Some? && pay.value.from == a then pay.value.amount else 0)
            == Balance(w, a) + (if pay.Some? && pay.value.to == a then pay.value.amount else 0)
  {
  }

  /** Every balance is what it was, plus what it received, minus what it spent, in the committed payments. */
  lemma {:induction false} BalancesExact(p: Params, w: World, actions: seq<Action>, a: AccountId)
    requires WellTyped(w)
    ensures var payments := Payments(p, w, actions);
            Balance(Run(p, w, actions), a) + Spent(payments, a) == Balance(w, a) + Received(payments, a)
  {
    if actions != [] {
      var shorter := actions[..|actions| - 1];
      var mid, pay := Run(p, w, shorter), PaymentOf(p, Run(p, w, shorter), actions[|actions| - 1]);
      BalancesExact(p, w, shorter, a);
      RunProgress(p, w, shorter, ZERO);
      StepSettles(p, mid, actions[|actions| - 1]);
      SettlesAccount(mid, Run(p, w, actions), pay, a);
      if pay.Some? {
        AppendPayment(Payments(p, w, shorter), pay.value, a, ZERO);
      } else {
        assert Payments(p, w, shorter) + [] == Payments(p, w, shorter);
      }
    }
  }

  /** A saturated price is more than anyone can hold, so a price that was paid is the exact product. */
  lemma PaidPriceIsExact(w: World, a: AccountId, rate: u64, price: u128)
    requires Supply(w) < U128_MAX && PaymentAmount(rate, price) <= Balance(w, a)
    ensures PaymentAmount(rate, price) == price * rate
  {
    BalanceInSupply(w, a);
  }

  /** A sale on tree `t` at its configured terms. */
  ghost predicate SoldAt(x: Payment, config: ConfigState) {
    x.to == config.treasury && x.amount == config.pricePerUnit * x.units
  }

  lemma SaleIsExact(p: Params, w: World, a: Action, t: Hash)
    requires WellTyped(w) && Supply(w) < U128_MAX
    requires PaymentOf(p, w, a).Some? && PaymentOf(p, w, a).value.tree == Some(t)
    ensures ViewOf(w, t).config.Some? && SoldAt(PaymentOf(p, w, a).value, ViewOf(w, t).config.value)
  {
    CommitsExactly(p, w, a.tx.metas, a.tx.ix);
    PaidPriceIsExact(w, Payer(a.tx.metas), a.tx.ix.rateLimit, a.tx.ix.pricePerUnit);
  }

  ghost predicate AllSoldAt(payments: seq<Payment>, t: Hash, config: Option<ConfigState>) {
    forall x :: x in payments && x.tree == Some(t) ==> config.Some? && SoldAt(x, config.value)
  }

  /** Whatever any sender claimed, every payment a registry caused went to its configured treasury, for the configured
      price times the rate limit, with no saturation. */
  lemma {:induction false} SalesExact(p: Params, w: World, actions: seq<Action>, t: Hash)
    requires WellTyped(w) && Supply(w) < U128_MAX
    ensures AllSoldAt(Payments(p, w, actions), t, ViewOf(Run(p, w, actions), t).config)
  {
    if actions != [] {
      var shorter, a := actions[..|actions| - 1], actions[|actions| - 1];
      var mid := Run(p, w, shorter);
      SalesExact(p, w, shorter, t);
      SupplyConserved(p, w, shorter);
      RunProgress(p, w, shorter, t);
      RunProgress(p, mid, [a], t);
      assert Run(p, mid, [a]) == Run(p, w, actions) by {
        assert [a][..0] == [];
      }
      var pay := PaymentOf(p, mid, a);
      if pay.Some? && pay.value.tree == Some(t) {
        SaleIsExact(p, mid, a, t);
      }
    }
  }

  lemma {:induction false} EarnedIsPriceTimesUnits(payments: seq<Payment>, t: Hash, config: ConfigState)
    requires AllSoldAt(payments, t, Some(config))
    ensures Earned(payments, t) == config.pricePerUnit * UnitsSold(payments, t)
  {
    if payments != [] {
      var shorter, last := payments[..|payments| - 1], payments[|payments| - 1];
      EarnedIsPriceTimesUnits(shorter, t, config);
      assert last in payments;
      Spread(config.pricePerUnit, UnitsSold(shorter, t), last.units);
    }
  }

  lemma Spread(price: nat, a: nat, b: nat)
    ensures price * (a + b) == price * a + price * b
  {
  }

  /** Over any run a registry's income is its price times the sum of the rate limits registered and renewed. */
  lemma RevenueExact(p: Params, w: World, actions: seq<Action>, t: Hash)
    requires WellTyped(w) && Supply(w) < U128_MAX
    ensures var config, payments := ViewOf(Run(p, w, actions), t).config, Payments(p, w, actions);
            Earned(payments, t) == if config.Some? then config.value.pricePerUnit * UnitsSold(payments, t) else 0
  {
    SalesExact(p, w, actions, t);
    var config, payments := ViewOf(Run(p, w, actions), t).config, Payments(p, w, actions);
    if config.Some? {
      EarnedIsPriceTimesUnits(payments, t, config.value);
    } else {
      NothingEarned(payments, t);
    }
  }

  lemma {:induction false} NothingEarned(payments: seq<Payment>, t: Hash)
    requires AllSoldAt(payments, t, None)
    ensures Earned(payments, t) == 0
  {
    if payments != [] {
      assert payments[|payments| - 1] in payments;
      NothingEarned(payments[..|payments| - 1], t);
    }
  }

  /** From a tree id without a config: all its income over any run is the price that its Initialize named, times the
      rate limits registered and renewed, and all of it goes to the treasury that Initialize named. */
  lemma RevenueAtNamedPrice(p: Params, w: World, actions: seq<Action>, t: Hash)
    requires WellTyped(w) && Supply(w) < U128_MAX && ViewOf(w, t).config.None?
    ensures var payments := Payments(p, w, actions);
            || (ViewOf(Run(p, w, actions), t).config.None? && Earned(payments, t) == 0)
            || (exists k: nat :: k < |actions| && Acts(p, Run(p, w, actions[..k]), actions[k], t)
                                 && SoldAsNamed(payments, t, actions[k].tx.ix))
  {
    var config, payments := ViewOf(Run(p, w, actions), t).config, Payments(p, w, actions);
    RevenueExact(p, w, actions, t);
    SalesExact(p, w, actions, t);
    if config.Some? {
      TermsHaveOrigin(p, w, actions, t);
      var k: nat :| k < |actions| && Acts(p, Run(p, w, actions[..k]), actions[k], t)
                    && AsNamed(config.value, actions[k].tx.ix);
      assert SoldAsNamed(payments, t, actions[k].tx.ix);
    }
  }

  ghost predicate SoldAsNamed(payments: seq<Payment>, t: Hash, ix: Instruction) {
    && ix.Initialize? && Earned(payments, t) == ix.pricePerUnit * UnitsSold(payments, t)
    && forall x :: x in payments && x.tree == Some(t) ==> x.to == ix.treasury && x.amount == ix.pricePerUnit * x.units
  }
}
