/** Who an operation can affect: only its sender and the contracts that ran lose value
    or storage, and only theirs and a deployment's own authorisation, code or nonce change. */
module Isolation {
  import opened Types
  import opened Ledger
  import opened Calls
  import opened Operations
  import opened OperationLaws
  import opened Nonces

  /** An existing account keeps everything but, possibly, its balance. */
  ghost predicate SameIdentity(l: Ledger, r: Ledger, id: Id) {
    id in l.accounts ==> id in r.accounts && r.accounts[id] == l.accounts[id].(balance := r.accounts[id].balance)
  }

  /** What a run leaves of an account other than the sender's. */
  ghost predicate Spared(l: Ledger, r: Ledger, trace: seq<Frame>, id: Id) {
    SameIdentity(l, r, id) && (!Ran(trace, id) ==> Untouched(l, r, id))
  }

  ghost predicate RunSpares(l: Ledger, r: Progress, id: Id) {
    r.ok && NoSystem(r.trace) && Total(l) <= MAX_U128 ==> Spared(l, r.ledger, r.trace, id)
  }

  lemma TransferSpares(l: Ledger, from: Id, to: Id, amount: nat, id: Id)
    requires Total(l) <= MAX_U128 && TransferTo(l, from, to, amount).1 && id != from
    ensures Spared(l, TransferTo(l, from, to, amount).0, [], id)
  {
    TransferConserves(l, from, to, amount);
  }

  lemma ActionSpares(env: Env, l: Ledger, sender: Id, a: Action, msgValue: nat, height: nat, policy: Option<Policy>, id: Id)
    requires id != sender && !(a.Deploy? && DeployAddress(env, sender, a) == id)
    ensures RunSpares(l, RunAction(env, l, sender, a, msgValue, height, policy), id)
  {
    var r := RunAction(env, l, sender, a, msgValue, height, policy);
    SystemShows(env, l, sender, a, msgValue, height, policy);
    if r.ok && NoSystem(r.trace) && Total(l) <= MAX_U128 {
      match a {
        case Transfer(to, amount) => TransferSpares(l, sender, to, amount, id);
        case Call(target, callMethod, args) =>
          DispatchOk(env, l, Invocation(sender, target, callMethod, args, msgValue), height, 0, MAX_CALL_TREE_FUEL, policy);
        case SetAuth(_) =>
        case Deploy(_, _) =>
      }
    }
  }

  lemma CombineSpares(l: Ledger, r: Progress, rest: Progress, id: Id)
    requires r.ok && RunOk(l, r) && RunSpares(l, r, id) && RunSpares(r.ledger, rest, id)
    ensures RunSpares(l, Combine(r, rest), id)
  {
    PartsPlain(r.trace, rest.trace);
    RanAppend(r.trace, rest.trace);
  }

  lemma {:induction false} ActionsSpare(env: Env, l: Ledger, sender: Id, actions: seq<Action>, pending: map<Id, nat>,
                                        height: nat, policy: Option<Policy>, id: Id)
    requires id != sender && !DeploysTo(env, sender, actions, id)
    ensures RunSpares(l, RunActions(env, l, sender, actions, pending, height, policy), id)
    decreases |actions|
  {
    if actions != [] {
      var a := actions[0];
      DeploysToStep(env, sender, actions, id);
      var r := RunAction(env, l, sender, a, ValueFor(pending, a), height, policy);
      ActionSpares(env, l, sender, a, ValueFor(pending, a), height, policy, id);
      ActionOk(env, l, sender, a, ValueFor(pending, a), height, policy);
      if r.ok {
        ActionsSpare(env, r.ledger, sender, actions[1..], Track(pending, a), height, policy, id);
        CombineSpares(l, r, RunActions(env, r.ledger, sender, actions[1..], Track(pending, a), height, policy), id);
      }
    }
  }

  /** The ledger after the sender paid, before the treasury is credited. */
  function Paid(l: Ledger, sender: Id, reserve: nat, fee: nat): Ledger
    requires sender in l.accounts && fee <= l.accounts[sender].balance + reserve
  {
    Put(l, sender, l.accounts[sender].(balance := l.accounts[sender].balance + reserve - fee))
  }

  /** With the fix active and no saturation, settlement is one debit and one credit. */
  lemma SettleForm(env: Env, op: UserOperation, height: nat, reserve: nat, charge: Charge, run: Progress)
    requires run.ok && height >= env.feeFixHeight
    requires op.sender in run.ledger.accounts && run.ledger.accounts[op.sender].balance + reserve <= MAX_U128
    ensures var r := Settle(env, op, height, reserve, charge, run);
      var share := TreasuryShare(r.fee, BurnRate(env, run.ledger));
      && r.fee <= run.ledger.accounts[op.sender].balance + reserve
      && r.ledger.accounts == CreditTreasury(env, Paid(run.ledger, op.sender, reserve, r.fee), share).accounts
      && r.credit == (if env.fees.treasury in run.ledger.accounts then share else 0)
      && r.ledger.storage == run.ledger.storage
  {
    var l := run.ledger;
    var r := Settle(env, op, height, reserve, charge, run);
    if reserve == 0 && FeeFor(env.fees, run.gas, op.maxFee, true) == 0 {
      assert Paid(l, op.sender, 0, 0).accounts == l.accounts;
    }
  }

  /** Settlement: the sender gets the reserve back and pays the fee, the treasury gains its
      share, and no other account moves. */
  lemma SettleBalances(env: Env, op: UserOperation, height: nat, reserve: nat, charge: Charge, run: Progress)
    requires run.ok && height >= env.feeFixHeight && BurnRate(env, run.ledger) <= 10_000
    requires op.sender in run.ledger.accounts && Total(run.ledger) + reserve <= MAX_U128
    ensures var r := Settle(env, op, height, reserve, charge, run); var t := env.fees.treasury;
      && (op.sender != t ==> BalanceOf(r.ledger, op.sender) == BalanceOf(run.ledger, op.sender) + reserve - r.fee)
      && (op.sender != t ==> BalanceOf(r.ledger, t) == BalanceOf(run.ledger, t) + r.credit)
      && (op.sender == t ==> BalanceOf(r.ledger, t) == BalanceOf(run.ledger, t) + reserve - r.fee + r.credit)
      && (forall id :: id != op.sender && id != t && id in run.ledger.accounts ==>
            id in r.ledger.accounts && r.ledger.accounts[id] == run.ledger.accounts[id])
  {
    var l, t := run.ledger, env.fees.treasury;
    TotalPut(l, op.sender, l.accounts[op.sender]);
    SettleForm(env, op, height, reserve, charge, run);
    var r := Settle(env, op, height, reserve, charge, run);
    ShareAtMostFee(r.fee, BurnRate(env, l));
    CreditFits(l, op.sender, reserve, r.fee, TreasuryShare(r.fee, BurnRate(env, l)), t);
  }

  lemma CreditFits(l: Ledger, sender: Id, reserve: nat, fee: nat, share: nat, t: Id)
    requires sender in l.accounts && fee <= l.accounts[sender].balance + reserve && share <= fee
    requires Total(l) + reserve <= MAX_U128
    ensures BalanceOf(Paid(l, sender, reserve, fee), t) + share <= MAX_U128
  {
    var paid := Paid(l, sender, reserve, fee);
    TotalPut(l, sender, paid.accounts[sender]);
    if t in paid.accounts { TotalPut(paid, t, paid.accounts[t]); }
  }

  lemma SettleSpares(env: Env, op: UserOperation, height: nat, reserve: nat, charge: Charge, run: Progress, id: Id)
    requires run.ok && id != op.sender && Total(run.ledger) <= MAX_U128
    ensures Spared(run.ledger, Settle(env, op, height, reserve, charge, run).ledger, [], id)
  {
    var l := run.ledger;
    if id in l.accounts { TotalPut(l, id, l.accounts[id]); }
    var due := FeeFor(env.fees, run.gas, op.maxFee, height >= env.feeFixHeight);
    if (reserve > 0 || due > 0) && op.sender in l.accounts {
      var available := SatAdd(BalanceOf(l, op.sender), reserve);
      var paid := if height >= env.feeFixHeight then Min(due, available) else due;
      var debited := Put(l, op.sender, l.accounts[op.sender].(balance := SatSub(available, paid)));
      CreditSpares(env, debited, TreasuryShare(paid, BurnRate(env, l)), id);
    }
  }

  lemma CreditSpares(env: Env, l: Ledger, share: nat, id: Id)
    requires BalanceOf(l, id) <= MAX_U128
    ensures Spared(l, CreditTreasury(env, l, share), [], id)
  {
  }

  /** Whatever an operation does without system calls, an account other than its sender
      and other than the address of a deployment that succeeds keeps its authorisation,
      code and nonce; and unless its contract ran, it keeps its storage and loses no
      balance. */
  lemma OpSpares(env: Env, l: Ledger, op: UserOperation, height: nat, id: Id)
    requires Total(l) <= MAX_U128 && id != op.sender && NoSystem(ExecuteOp(env, l, op, height).trace)
    requires ExecuteOp(env, l, op, height).success ==> !DeploysTo(env, op.sender, op.actions, id)
    ensures Spared(l, ExecuteOp(env, l, op, height).ledger, ExecuteOp(env, l, op, height).trace, id)
  {
    var r := ExecuteOp(env, l, op, height);
    if r.valid && SystemAuthorized(op) { SystemRuns(env, l, op, height); }
    if r.success {
      ValidateWrites(env, l, op, height);
      ReservedTotal(env, l, op, height);
      var p := Validate(env, l, op, height).value;
      var reserved := Reserved(p.ledger, op);
      var run := RunActions(env, reserved, op.sender, op.actions, map[], height, p.policy);
      ActionsOk(env, reserved, op.sender, op.actions, map[], height, p.policy);
      ActionsSpare(env, reserved, op.sender, op.actions, map[], height, p.policy, id);
      SettleSpares(env, op, height, Reserve(p.ledger, op), p.charge, run, id);
      SparedChain(l, reserved, run.ledger, r.ledger, run.trace, id);
    } else if r.valid {
      FailureFrame(env, l, op, height);
    }
  }

  lemma SparedChain(l: Ledger, reserved: Ledger, ran: Ledger, settled: Ledger, trace: seq<Frame>, id: Id)
    requires reserved.storage == l.storage && BalanceOf(reserved, id) == BalanceOf(l, id) && SameIdentity(l, reserved, id)
    requires Spared(reserved, ran, trace, id) && Spared(ran, settled, [], id)
    ensures Spared(l, settled, trace, id)
  {
  }
}
