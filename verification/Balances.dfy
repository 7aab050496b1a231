/** What operations do to balances and what they cost. */
module Balances {
  import opened Types
  import opened Ledger
  import opened Calls
  import opened CallEffects
  import opened Operations
  import opened OperationLaws
  import opened Nonces
  import opened Isolation
  import Rewards

  // ---------- Operations that only transfer ----------

  ghost predicate OnlyTransfers(actions: seq<Action>) { forall i :: 0 <= i < |actions| ==> actions[i].Transfer? }

  function Legs(actions: seq<Action>): seq<Transferral>
    requires forall i :: 0 <= i < |actions| ==> actions[i].Transfer?
  {
    seq(|actions|, i requires 0 <= i < |actions| => Transferral(actions[i].to, actions[i].amount))
  }

  lemma LegsStep(actions: seq<Action>)
    requires actions != [] && OnlyTransfers(actions)
    ensures Legs(actions) != [] && Legs(actions)[0] == Transferral(actions[0].to, actions[0].amount)
    ensures Legs(actions)[1..] == Legs(actions[1..])
  {
  }

  lemma TransferBalance(l: Ledger, from: Id, to: Id, amount: nat, id: Id)
    requires Total(l) <= MAX_U128 && TransferTo(l, from, to, amount).1
    ensures BalanceOf(TransferTo(l, from, to, amount).0, id) + (if id == from then amount else 0)
            == BalanceOf(l, id) + if id == to then amount else 0
  {
    TransferConserves(l, from, to, amount);
  }

  /** A recipient without an account gets one, which only its own key may sign for. */
  lemma TransferCreates(l: Ledger, from: Id, to: Id, amount: nat)
    requires TransferTo(l, from, to, amount).1 && to !in l.accounts && amount <= MAX_U128
    ensures var r := TransferTo(l, from, to, amount).0;
      to in r.accounts && r.accounts[to] == Account(NO_CODE, [Ed25519(to)], 0, amount)
  {
  }

  /** Running transfers moves exactly the amounts, costs 100 gas each and 25,000 for each
      account that is new. */
  lemma {:induction false} RunTransfers(env: Env, l: Ledger, sender: Id, actions: seq<Action>, pending: map<Id, nat>,
                                        height: nat, policy: Option<Policy>, id: Id)
    requires OnlyTransfers(actions) && Total(l) <= MAX_U128
    requires RunActions(env, l, sender, actions, pending, height, policy).ok
    ensures var r := RunActions(env, l, sender, actions, pending, height, policy);
      && BalanceOf(r.ledger, id) + (if id == sender then Sent(Legs(actions)) else 0)
         == BalanceOf(l, id) + SentTo(Legs(actions), id)
      && Total(r.ledger) == Total(l) && r.trace == [] && l.accounts.Keys <= r.ledger.accounts.Keys
      && r.gas == 100 * |actions| + 25_000 * (|r.ledger.accounts| - |l.accounts|)
    decreases |actions|
  {
    if actions != [] {
      var a := actions[0];
      var one := RunAction(env, l, sender, a, ValueFor(pending, a), height, policy);
      TransferConserves(l, sender, a.to, a.amount);
      TransferBalance(l, sender, a.to, a.amount, id);
      TransferCounts(l, sender, a.to, a.amount);
      LegsStep(actions);
      RunTransfers(env, one.ledger, sender, actions[1..], Track(pending, a), height, policy, id);
    }
  }

  lemma TransferCounts(l: Ledger, from: Id, to: Id, amount: nat)
    requires TransferTo(l, from, to, amount).1
    ensures var r := TransferTo(l, from, to, amount).0;
      && r.accounts.Keys == l.accounts.Keys + {to}
      && |r.accounts| == |l.accounts| + if to in l.accounts then 0 else 1
  {
    var r := TransferTo(l, from, to, amount).0;
    assert r.accounts.Keys == l.accounts.Keys + {to};
    assert |r.accounts| == |r.accounts.Keys| && |l.accounts| == |l.accounts.Keys|;
    if to in l.accounts { assert l.accounts.Keys + {to} == l.accounts.Keys; }
  }

  /** None goes to a system contract that has no account. */
  ghost predicate Addressable(l: Ledger, actions: seq<Action>)
    requires OnlyTransfers(actions)
  {
    forall i :: 0 <= i < |actions| && IsSystem(actions[i].to) ==> actions[i].to in l.accounts
  }

  /** Transfers go through exactly if the sender affords each in turn and none goes to a
      system contract that has no account. */
  lemma {:induction false} TransfersIff(env: Env, l: Ledger, sender: Id, actions: seq<Action>, pending: map<Id, nat>,
                                        height: nat, policy: Option<Policy>)
    requires OnlyTransfers(actions) && Total(l) <= MAX_U128 && sender in l.accounts
    ensures RunActions(env, l, sender, actions, pending, height, policy).ok <==>
            Affordable(Legs(actions), sender, BalanceOf(l, sender)) && Addressable(l, actions)
    decreases |actions|
  {
    if actions != [] {
      var a := actions[0];
      var one := RunAction(env, l, sender, a, ValueFor(pending, a), height, policy);
      LegsStep(actions);
      AffordableStep(Legs(actions), sender, BalanceOf(l, sender));
      if one.ok {
        AfterOne(l, sender, a, one.ledger, actions);
        TransfersIff(env, one.ledger, sender, actions[1..], Track(pending, a), height, policy);
      } else {
        OneRefused(l, sender, a, actions);
      }
    }
  }

  lemma OneRefused(l: Ledger, sender: Id, a: Action, actions: seq<Action>)
    requires actions != [] && OnlyTransfers(actions) && a == actions[0] && sender in l.accounts
    requires !TransferTo(l, sender, a.to, a.amount).1
    ensures a.amount > BalanceOf(l, sender) || !Addressable(l, actions)
  {
    TransferRefused(l, sender, a.to, a.amount);
  }

  lemma AfterOne(l: Ledger, sender: Id, a: Action, r: Ledger, actions: seq<Action>)
    requires actions != [] && OnlyTransfers(actions) && a == actions[0] && Total(l) <= MAX_U128
    requires TransferTo(l, sender, a.to, a.amount) == (r, true)
    ensures sender in l.accounts && sender in r.accounts && a.amount <= BalanceOf(l, sender) && Total(r) == Total(l)
    ensures BalanceOf(r, sender) == BalanceOf(l, sender) - a.amount + if a.to == sender then a.amount else 0
    ensures Addressable(l, actions) <==> Addressable(r, actions[1..])
  {
    TransferConserves(l, sender, a.to, a.amount);
    TransferBalance(l, sender, a.to, a.amount, sender);
    TransferCounts(l, sender, a.to, a.amount);
    TransferRefused(l, sender, a.to, a.amount);
    if Addressable(r, actions[1..]) {
      forall i | 0 <= i < |actions| && IsSystem(actions[i].to) ensures actions[i].to in l.accounts {
        if i > 0 { assert actions[1..][i - 1] == actions[i]; }
      }
    }
    if Addressable(l, actions) {
      forall i | 0 <= i < |actions[1..]| && IsSystem(actions[1..][i].to) ensures actions[1..][i].to in r.accounts {
        assert actions[i + 1] == actions[1..][i];
      }
    }
  }

  // ---------- Whole operations ----------

  /** An operation of transfers alone, to the unit: everyone gains what was sent to them, the
      sender loses the sum and the fee, and the treasury gains its share. */
  lemma TransferOperation(env: Env, l: Ledger, op: UserOperation, height: nat, id: Id)
    requires height >= env.feeFixHeight && Total(l) <= MAX_U128 && BurnRate(env, l) <= 10_000
    requires OnlyTransfers(op.actions) && ExecuteOp(env, l, op, height).success
    ensures var r := ExecuteOp(env, l, op, height);
      && BalanceOf(r.ledger, id) + (if id == op.sender then Sent(Legs(op.actions)) + r.fee else 0)
         == BalanceOf(l, id) + SentTo(Legs(op.actions), id) + (if id == env.fees.treasury then r.credit else 0)
      && r.gas == 100 * |op.actions| + 25_000 * (|r.ledger.accounts| - |l.accounts|)
  {
    ReservedTotal(env, l, op, height);
    ReservedBalance(env, l, op, height, id);
    var p := Validate(env, l, op, height).value;
    var reserved, reserve := Reserved(p.ledger, op), Reserve(p.ledger, op);
    var run := RunActions(env, reserved, op.sender, op.actions, map[], height, p.policy);
    RunTransfers(env, reserved, op.sender, op.actions, map[], height, p.policy, id);
    ActionsOk(env, reserved, op.sender, op.actions, map[], height, p.policy);
    SettleBalances(env, op, height, reserve, p.charge, run);
    SettleKeys(env, op, height, reserve, p.charge, run);
  }

  lemma ReservedBalance(env: Env, l: Ledger, op: UserOperation, height: nat, id: Id)
    requires Validate(env, l, op, height).Some?
    ensures var p := Validate(env, l, op, height).value; var reserved := Reserved(p.ledger, op);
      && BalanceOf(reserved, id) + (if id == op.sender then Reserve(p.ledger, op) else 0) == BalanceOf(l, id)
      && reserved.accounts.Keys == l.accounts.Keys && |reserved.accounts| == |l.accounts|
      && reserved.burnRate == l.burnRate
  {
    ValidateWrites(env, l, op, height);
    var reserved := Reserved(Validate(env, l, op, height).value.ledger, op);
    assert reserved.accounts.Keys == l.accounts.Keys;
    assert |reserved.accounts| == |reserved.accounts.Keys| && |l.accounts| == |l.accounts.Keys|;
  }

  lemma SettleKeys(env: Env, op: UserOperation, height: nat, reserve: nat, charge: Charge, run: Progress)
    requires run.ok
    ensures var r := Settle(env, op, height, reserve, charge, run).ledger;
      r.accounts.Keys == run.ledger.accounts.Keys && |r.accounts| == |run.ledger.accounts|
  {
    var r := Settle(env, op, height, reserve, charge, run).ledger;
    assert r.accounts.Keys == run.ledger.accounts.Keys;
    assert |r.accounts| == |r.accounts.Keys| && |run.ledger.accounts| == |run.ledger.accounts.Keys|;
  }

  // ---------- What a sender can lose ----------

  lemma ActionOutflow(env: Env, l: Ledger, sender: Id, a: Action, msgValue: nat, height: nat, policy: Option<Policy>)
    requires Total(l) <= MAX_U128 && !(a.Deploy? && DeployAddress(env, sender, a) == sender)
    requires var r := RunAction(env, l, sender, a, msgValue, height, policy); r.ok && NoSystem(r.trace) && !Ran(r.trace, sender)
    ensures BalanceOf(l, sender) <= BalanceOf(RunAction(env, l, sender, a, msgValue, height, policy).ledger, sender) + SpendOf(a)
  {
    SystemShows(env, l, sender, a, msgValue, height, policy);
    match a
    case Transfer(to, amount) => TransferBalance(l, sender, to, amount, sender);
    case Call(target, callMethod, args) =>
      DispatchOk(env, l, Invocation(sender, target, callMethod, args, msgValue), height, 0, MAX_CALL_TREE_FUEL, policy);
    case SetAuth(_) =>
    case Deploy(_, _) =>
  }

  lemma {:induction false} RunOutflow(env: Env, l: Ledger, sender: Id, actions: seq<Action>, pending: map<Id, nat>, height: nat,
                                      policy: Option<Policy>)
    requires Total(l) <= MAX_U128 && !DeploysTo(env, sender, actions, sender)
    requires var r := RunActions(env, l, sender, actions, pending, height, policy);
      r.ok && NoSystem(r.trace) && !Ran(r.trace, sender)
    ensures BalanceOf(l, sender) <=
            BalanceOf(RunActions(env, l, sender, actions, pending, height, policy).ledger, sender) + Spend(actions)
    decreases |actions|
  {
    if actions != [] {
      var a := actions[0];
      var r := RunAction(env, l, sender, a, ValueFor(pending, a), height, policy);
      var rest := RunActions(env, r.ledger, sender, actions[1..], Track(pending, a), height, policy);
      PartsPlain(r.trace, rest.trace);
      RanAppend(r.trace, rest.trace);
      DeploysToStep(env, sender, actions, sender);
      ActionOutflow(env, l, sender, a, ValueFor(pending, a), height, policy);
      ActionOk(env, l, sender, a, ValueFor(pending, a), height, policy);
      RunOutflow(env, r.ledger, sender, actions[1..], Track(pending, a), height, policy);
    }
  }

  /** Whatever contracts an operation calls, its sender loses at most what counts against a
      session's limits, and the fee; unless its own contract runs or is deployed over. */
  lemma OutflowBounded(env: Env, l: Ledger, op: UserOperation, height: nat)
    requires height >= env.feeFixHeight && Total(l) <= MAX_U128 && BurnRate(env, l) <= 10_000
    requires var r := ExecuteOp(env, l, op, height); r.success && NoSystem(r.trace) && !Ran(r.trace, op.sender)
    requires !DeploysTo(env, op.sender, op.actions, op.sender)
    ensures var r := ExecuteOp(env, l, op, height);
      BalanceOf(l, op.sender) <= BalanceOf(r.ledger, op.sender) + Spend(op.actions) + r.fee
  {
    ReservedTotal(env, l, op, height);
    ReservedBalance(env, l, op, height, op.sender);
    var p := Validate(env, l, op, height).value;
    var reserved := Reserved(p.ledger, op);
    var run := RunActions(env, reserved, op.sender, op.actions, map[], height, p.policy);
    RunOutflow(env, reserved, op.sender, op.actions, map[], height, p.policy);
    ActionsOk(env, reserved, op.sender, op.actions, map[], height, p.policy);
    SettleBalances(env, op, height, Reserve(p.ledger, op), p.charge, run);
  }

  // ---------- Gas ----------

  function BaseGas(a: Action): nat {
    match a
    case Transfer(_, _) => 100
    case SetAuth(_) => 200
    case Deploy(_, _) => 1000
    case Call(_, _, _) => 0
  }

  function BaseGasOf(actions: seq<Action>): nat {
    if actions == [] then 0 else BaseGas(actions[0]) + BaseGasOf(actions[1..])
  }

  function TransfersIn(actions: seq<Action>): nat {
    if actions == [] then 0 else (if actions[0].Transfer? then 1 else 0) + TransfersIn(actions[1..])
  }

  lemma ActionGas(env: Env, l: Ledger, sender: Id, a: Action, msgValue: nat, height: nat, policy: Option<Policy>)
    requires var r := RunAction(env, l, sender, a, msgValue, height, policy); r.ok && NoSystem(r.trace)
    ensures var r := RunAction(env, l, sender, a, msgValue, height, policy);
      r.gas == BaseGas(a) + 500 * |r.trace| + FuelUsed(r.trace)
               + if a.Transfer? && a.to !in l.accounts then 25_000 else 0
  {
    SystemShows(env, l, sender, a, msgValue, height, policy);
    if a.Call? {
      DispatchCosts(env, l, Invocation(sender, a.target, a.callMethod, a.args, msgValue), height, 0, MAX_CALL_TREE_FUEL, policy);
    }
  }

  /** What a run of actions costs: its base prices, 500 for each frame, the fuel of all
      frames, and 25,000 for each of the `newcomers`, transfers that create an account. */
  lemma {:induction false} RunGas(env: Env, l: Ledger, sender: Id, actions: seq<Action>, pending: map<Id, nat>, height: nat,
                                  policy: Option<Policy>) returns (newcomers: nat)
    requires var r := RunActions(env, l, sender, actions, pending, height, policy); r.ok && NoSystem(r.trace)
    ensures var r := RunActions(env, l, sender, actions, pending, height, policy);
      && r.gas == BaseGasOf(actions) + 500 * |r.trace| + FuelUsed(r.trace) + 25_000 * newcomers
      && newcomers <= TransfersIn(actions)
    decreases |actions|
  {
    newcomers := 0;
    if actions != [] {
      var a := actions[0];
      var r := RunAction(env, l, sender, a, ValueFor(pending, a), height, policy);
      var rest := RunActions(env, r.ledger, sender, actions[1..], Track(pending, a), height, policy);
      PartsPlain(r.trace, rest.trace);
      FuelUsedAppend(r.trace, rest.trace);
      ActionGas(env, l, sender, a, ValueFor(pending, a), height, policy);
      var more := RunGas(env, r.ledger, sender, actions[1..], Track(pending, a), height, policy);
      newcomers := more + if a.Transfer? && a.to !in l.accounts then 1 else 0;
    }
  }

  /** The gas of a successful operation. */
  lemma OperationGas(env: Env, l: Ledger, op: UserOperation, height: nat) returns (newcomers: nat)
    requires ExecuteOp(env, l, op, height).success && NoSystem(ExecuteOp(env, l, op, height).trace)
    ensures var r := ExecuteOp(env, l, op, height);
      && r.gas == BaseGasOf(op.actions) + 500 * |r.trace| + FuelUsed(r.trace) + 25_000 * newcomers
      && newcomers <= TransfersIn(op.actions)
  {
    var p := Validate(env, l, op, height).value;
    newcomers := RunGas(env, Reserved(p.ledger, op), op.sender, op.actions, map[], height, p.policy);
  }

  // ---------- Fees ----------

  /** The price of the gas, at most the signed maximum. */
  function Due(env: Env, op: UserOperation, gas: nat): nat { Min(env.fees.baseFeePerGas * gas, op.maxFee) }

  /** Settling takes exactly what is due, or everything the sender has left. */
  lemma SettleFee(env: Env, op: UserOperation, height: nat, reserve: nat, charge: Charge, run: Progress)
    requires run.ok && height >= env.feeFixHeight && op.maxFee <= MAX_U128
    requires op.sender in run.ledger.accounts && run.ledger.accounts[op.sender].balance + reserve <= MAX_U128
    ensures var r := Settle(env, op, height, reserve, charge, run);
      r.fee == Min(Due(env, op, run.gas), run.ledger.accounts[op.sender].balance + reserve)
  {
  }

  /** A successful operation costs the base fee for its gas, at most its signed maximum. A
      sender that pays less is left with nothing. */
  lemma FeeExact(env: Env, l: Ledger, op: UserOperation, height: nat)
    requires height >= env.feeFixHeight && Total(l) <= MAX_U128 && op.maxFee <= MAX_U128 && BurnRate(env, l) <= 10_000
    requires ExecuteOp(env, l, op, height).success && NoSystem(ExecuteOp(env, l, op, height).trace)
    ensures var r := ExecuteOp(env, l, op, height);
      && r.fee <= Due(env, op, r.gas)
      && (r.fee < Due(env, op, r.gas) && op.sender != env.fees.treasury ==> BalanceOf(r.ledger, op.sender) == 0)
  {
    var reserve, charge, run := SuccessRun(env, l, op, height);
    SettleFee(env, op, height, reserve, charge, run);
    SettleBalances(env, op, height, reserve, charge, run);
  }

  /** What the sender had before pays for the gas, whatever its actions did with the rest: the
      fee is at least the smaller of what is due and the balance before the operation. */
  lemma FeeSecured(env: Env, l: Ledger, op: UserOperation, height: nat)
    requires height >= env.feeFixHeight && Total(l) <= MAX_U128 && op.maxFee <= MAX_U128
    requires ExecuteOp(env, l, op, height).success && NoSystem(ExecuteOp(env, l, op, height).trace)
    ensures ExecuteOp(env, l, op, height).fee >= Min(Due(env, op, ExecuteOp(env, l, op, height).gas), BalanceOf(l, op.sender))
  {
    var reserve, charge, run := SuccessRun(env, l, op, height);
    SettleFee(env, op, height, reserve, charge, run);
  }

  /** A valid operation of transfers succeeds exactly if the sender affords them beside the
      fee it signed for, and none goes to a system contract without an account. */
  lemma TransferOperationIff(env: Env, l: Ledger, op: UserOperation, height: nat)
    requires Total(l) <= MAX_U128 && OnlyTransfers(op.actions) && ExecuteOp(env, l, op, height).valid
    ensures op.sender in l.accounts
    ensures var balance := BalanceOf(l, op.sender);
      ExecuteOp(env, l, op, height).success <==>
        Affordable(Legs(op.actions), op.sender, balance - Min(op.maxFee, balance)) && Addressable(l, op.actions)
  {
    ReservedTotal(env, l, op, height);
    ReservedBalance(env, l, op, height, op.sender);
    var p := Validate(env, l, op, height).value;
    TransfersIff(env, Reserved(p.ledger, op), op.sender, op.actions, map[], height, p.policy);
    ValidateWrites(env, l, op, height);
  }

  /** A successful operation is the settlement of its run. */
  lemma SuccessRun(env: Env, l: Ledger, op: UserOperation, height: nat) returns (reserve: nat, charge: Charge, run: Progress)
    requires Total(l) <= MAX_U128 && ExecuteOp(env, l, op, height).success && NoSystem(ExecuteOp(env, l, op, height).trace)
    ensures run.ok && ExecuteOp(env, l, op, height) == Settle(env, op, height, reserve, charge, run)
    ensures reserve == Min(op.maxFee, BalanceOf(l, op.sender))
    ensures op.sender in run.ledger.accounts && run.ledger.burnRate == l.burnRate
    ensures Total(run.ledger) + reserve <= MAX_U128 && run.ledger.accounts[op.sender].balance + reserve <= MAX_U128
  {
    ReservedTotal(env, l, op, height);
    ReservedBalance(env, l, op, height, op.sender);
    var p := Validate(env, l, op, height).value;
    var reserved := Reserved(p.ledger, op);
    run := RunActions(env, reserved, op.sender, op.actions, map[], height, p.policy);
    reserve, charge := Reserve(p.ledger, op), p.charge;
    ActionsOk(env, reserved, op.sender, op.actions, map[], height, p.policy);
    TotalPut(run.ledger, op.sender, run.ledger.accounts[op.sender]);
  }

  /** So does one that fails after validation; nothing of that reaches the treasury. */
  lemma FailureFee(env: Env, l: Ledger, op: UserOperation, height: nat)
    requires height >= env.feeFixHeight && op.maxFee <= MAX_U128 && !SystemAuthorized(op)
    requires var r := ExecuteOp(env, l, op, height); r.valid && !r.success
    ensures var r := ExecuteOp(env, l, op, height);
      && op.sender in l.accounts && r.credit == 0
      && r.fee == Min(Due(env, op, r.gas), l.accounts[op.sender].balance)
      && BalanceOf(r.ledger, op.sender) == l.accounts[op.sender].balance - r.fee
  {
    FailureFrame(env, l, op, height);
  }

  /** The burn rate in force, in hundredths of a percent: the governed one if there is one. */
  function BurnOf(env: Env, l: Ledger): nat {
    match l.burnRate
    case Some(rate) => rate
    case None => env.fees.burnRateBps
  }

  /** Of the fee of a successful operation the treasury gets the part that is not burned,
      rounded down, and nothing if it has no account. */
  lemma TreasuryExact(env: Env, l: Ledger, op: UserOperation, height: nat)
    requires height >= env.feeFixHeight && Total(l) <= MAX_U128 && BurnOf(env, l) <= 10_000
    requires op.maxFee * 10_000 <= MAX_U128
    requires ExecuteOp(env, l, op, height).success && NoSystem(ExecuteOp(env, l, op, height).trace)
    ensures var r := ExecuteOp(env, l, op, height);
      if env.fees.treasury in r.ledger.accounts
      then 10_000 * r.credit <= r.fee * (10_000 - BurnOf(env, l)) < 10_000 * (r.credit + 1)
      else r.credit == 0
  {
    FeeWithinMax(env, l, op, height);
    var reserve, charge, run := SuccessRun(env, l, op, height);
    SettleForm(env, op, height, reserve, charge, run);
    SettleKeys(env, op, height, reserve, charge, run);
    ShareIs(ExecuteOp(env, l, op, height).fee, BurnOf(env, l), op.maxFee);
  }

  /** Before the fee fix the price has no maximum, the sender pays what it can of it, and the
      treasury is credited its part of the price, paid or not. */
  lemma FeeBeforeFix(env: Env, op: UserOperation, height: nat, reserve: nat, charge: Charge, run: Progress)
    requires run.ok && height < env.feeFixHeight && BurnOf(env, run.ledger) <= 10_000
    requires env.fees.baseFeePerGas * run.gas * 10_000 <= MAX_U128
    requires op.sender in run.ledger.accounts && run.ledger.accounts[op.sender].balance + reserve <= MAX_U128
    ensures var price, r := env.fees.baseFeePerGas * run.gas, Settle(env, op, height, reserve, charge, run);
      && r.fee == Min(price, run.ledger.accounts[op.sender].balance + reserve)
      && (env.fees.treasury in run.ledger.accounts ==>
            10_000 * r.credit <= price * (10_000 - BurnOf(env, run.ledger)) < 10_000 * (r.credit + 1))
  {
    var price := env.fees.baseFeePerGas * run.gas;
    ShareIs(price, BurnOf(env, run.ledger), price);
  }

  lemma ShareIs(fee: nat, burn: nat, maxFee: nat)
    requires burn <= 10_000 && fee <= maxFee && maxFee * 10_000 <= MAX_U128
    ensures 10_000 * TreasuryShare(fee, burn) <= fee * (10_000 - burn) < 10_000 * (TreasuryShare(fee, burn) + 1)
  {
    Rewards.ScaleLe(fee, 10_000 - burn, 10_000);
    assert fee * (10_000 - burn) <= fee * 10_000 <= MAX_U128;
  }
}
