/** What executing one operation keeps: supply, fees, nonces, and a session's limits. */
module OperationLaws {
  import opened Types
  import opened Ledger
  import opened Calls
  import opened Operations
  import Rewards

  // ---------- Actions ----------

  /** A run of actions without system calls: the supply changes only by what
      deployments destroyed, and governance and session records stay. */
  ghost predicate RunOk(l: Ledger, r: Progress) {
    r.ok && NoSystem(r.trace) && Total(l) <= MAX_U128 ==>
      && Total(r.ledger) + r.lost == Total(l) && l.accounts.Keys <= r.ledger.accounts.Keys
      && r.ledger.burnRate == l.burnRate && r.ledger.spent == l.spent
  }

  lemma DeployOk(env: Env, l: Ledger, sender: Id, code: Bytes, salt: Id)
    ensures RunOk(l, DeployTo(env, l, sender, code, salt))
  {
    var r := DeployTo(env, l, sender, code, salt);
    if r.ok {
      var h := env.codeHash(code);
      var stored := l.(code := l.code[h := code]);
      TotalOf(l, stored);
      TotalPut(stored, env.address(sender, salt, h), r.ledger.accounts[env.address(sender, salt, h)]);
    }
  }

  lemma ActionOk(env: Env, l: Ledger, sender: Id, a: Action, msgValue: nat, height: nat, policy: Option<Policy>)
    ensures RunOk(l, RunAction(env, l, sender, a, msgValue, height, policy))
  {
    var r := RunAction(env, l, sender, a, msgValue, height, policy);
    match a {
      case Transfer(to, amount) =>
        if r.ok && Total(l) <= MAX_U128 { TransferConserves(l, sender, to, amount); }
      case Call(target, callMethod, args) =>
        if IsSystem(target) { assert r.trace[0].system; }
        DispatchOk(env, l, Invocation(sender, target, callMethod, args, msgValue), height, 0, MAX_CALL_TREE_FUEL, policy);
      case SetAuth(_) =>
        if r.ok { TotalPut(l, sender, r.ledger.accounts[sender]); }
      case Deploy(code, salt) => DeployOk(env, l, sender, code, salt);
    }
  }

  lemma CombineOk(l: Ledger, r: Progress, rest: Progress)
    requires r.ok && RunOk(l, r) && RunOk(r.ledger, rest)
    ensures RunOk(l, Combine(r, rest))
  {
    PartsPlain(r.trace, rest.trace);
  }

  lemma PartsPlain(a: seq<Frame>, b: seq<Frame>)
    ensures NoSystem(a + b) <==> NoSystem(a) && NoSystem(b)
  {
    assert forall i :: 0 <= i < |a| ==> (a + b)[i] == a[i];
    assert forall i :: 0 <= i < |b| ==> (a + b)[|a| + i] == b[i];
  }

  /** A system call always shows in the trace. */
  lemma SystemShows(env: Env, l: Ledger, sender: Id, a: Action, msgValue: nat, height: nat, policy: Option<Policy>)
    ensures a.Call? && IsSystem(a.target) ==> !NoSystem(RunAction(env, l, sender, a, msgValue, height, policy).trace)
  {
    if a.Call? && IsSystem(a.target) {
      assert RunAction(env, l, sender, a, msgValue, height, policy).trace[0].system;
    }
  }

  lemma {:induction false} ActionsOk(env: Env, l: Ledger, sender: Id, actions: seq<Action>, pending: map<Id, nat>,
                                     height: nat, policy: Option<Policy>)
    ensures RunOk(l, RunActions(env, l, sender, actions, pending, height, policy))
    decreases |actions|
  {
    if actions != [] {
      var a := actions[0];
      var r := RunAction(env, l, sender, a, ValueFor(pending, a), height, policy);
      ActionOk(env, l, sender, a, ValueFor(pending, a), height, policy);
      if r.ok {
        ActionsOk(env, r.ledger, sender, actions[1..], Track(pending, a), height, policy);
        CombineOk(l, r, RunActions(env, r.ledger, sender, actions[1..], Track(pending, a), height, policy));
      }
    }
  }

  // ---------- Fees ----------

  /** With a burn rate of at most 100 percent the treasury never gets more than was paid. */
  lemma ShareAtMostFee(fee: nat, burn: nat)
    requires burn <= 10_000
    ensures TreasuryShare(fee, burn) <= fee
  {
    Rewards.ShareAtMost(fee, 10_000 - burn, 10_000);
  }

  /** With the fee fix active nobody pays more than the signed maximum. */
  lemma FeeWithinMax(env: Env, l: Ledger, op: UserOperation, height: nat)
    requires height >= env.feeFixHeight
    ensures ExecuteOp(env, l, op, height).fee <= op.maxFee
  {
  }

  lemma CreditTotal(env: Env, l: Ledger, share: nat)
    requires Total(l) + share <= MAX_U128
    ensures Total(CreditTreasury(env, l, share)) == Total(l) + if env.fees.treasury in l.accounts then share else 0
  {
    var t := env.fees.treasury;
    if share > 0 && t in l.accounts { TotalPut(l, t, CreditTreasury(env, l, share).accounts[t]); }
  }

  /** Settlement of a run: the reserve returns, the fee leaves, the share arrives. */
  lemma SettleTotal(env: Env, op: UserOperation, height: nat, reserve: nat, charge: Charge, run: Progress)
    requires run.ok && height >= env.feeFixHeight && BurnRate(env, run.ledger) <= 10_000
    requires op.sender in run.ledger.accounts && Total(run.ledger) + reserve <= MAX_U128
    ensures var r := Settle(env, op, height, reserve, charge, run);
      && Total(r.ledger) + r.fee == Total(run.ledger) + reserve + r.credit
      && r.credit <= r.fee && r.ledger.burnRate == run.ledger.burnRate
  {
    var l := run.ledger;
    var due := FeeFor(env.fees, run.gas, op.maxFee, true);
    var available := BalanceOf(l, op.sender) + reserve;
    TotalPut(l, op.sender, l.accounts[op.sender]);
    var paid := Min(due, available);
    var debited := Put(l, op.sender, l.accounts[op.sender].(balance := SatSub(available, paid)));
    TotalPut(l, op.sender, debited.accounts[op.sender]);
    var share := TreasuryShare(paid, BurnRate(env, l));
    ShareAtMostFee(paid, BurnRate(env, l));
    CreditTotal(env, debited, share);
    SettleParts(env, op, height, reserve, charge, run, due, debited, share);
  }

  /** The pieces of a settlement. */
  lemma SettleParts(env: Env, op: UserOperation, height: nat, reserve: nat, charge: Charge, run: Progress,
                    due: nat, debited: Ledger, share: nat)
    requires run.ok && height >= env.feeFixHeight && op.sender in run.ledger.accounts
    requires due == FeeFor(env.fees, run.gas, op.maxFee, true)
    requires var available := BalanceOf(run.ledger, op.sender) + reserve;
      && available <= MAX_U128 && share == TreasuryShare(Min(due, available), BurnRate(env, run.ledger))
      && debited == Put(run.ledger, op.sender,
                        run.ledger.accounts[op.sender].(balance := SatSub(available, Min(due, available))))
    ensures var r := Settle(env, op, height, reserve, charge, run);
      && r.ledger.burnRate == run.ledger.burnRate
      && if reserve > 0 || due > 0
         then Total(r.ledger) == Total(CreditTreasury(env, debited, share))
              && r.fee == Min(due, BalanceOf(run.ledger, op.sender) + reserve)
              && r.credit == if env.fees.treasury in debited.accounts then share else 0
         else Total(r.ledger) == Total(run.ledger) && r.fee == 0 == r.credit
  {
    var r := Settle(env, op, height, reserve, charge, run);
    if reserve > 0 || due > 0 {
      TotalOf(r.ledger, CreditTreasury(env, debited, share));
    } else {
      TotalOf(r.ledger, run.ledger);
    }
  }

  // ---------- Validation ----------

  /** Validation writes at most the nonce, and only when it succeeds. */
  lemma ValidateWrites(env: Env, l: Ledger, op: UserOperation, height: nat)
    requires Validate(env, l, op, height).Some?
    ensures op.sender in l.accounts
    ensures var p := Validate(env, l, op, height).value;
      if SystemAuthorized(op) then p.ledger == l
      else l.accounts[op.sender].nonce == op.nonce < MAX_U64
           && p.ledger == Put(l, op.sender, l.accounts[op.sender].(nonce := op.nonce + 1))
  {
  }

  lemma ValidateTotal(env: Env, l: Ledger, op: UserOperation, height: nat)
    requires Validate(env, l, op, height).Some?
    ensures Total(Validate(env, l, op, height).value.ledger) == Total(l)
    ensures Validate(env, l, op, height).value.ledger.burnRate == l.burnRate
  {
    ValidateWrites(env, l, op, height);
    var p := Validate(env, l, op, height).value;
    if !SystemAuthorized(op) { TotalPut(l, op.sender, p.ledger.accounts[op.sender]); }
  }

  /** Setting the reserve aside moves it out of the supply and nothing else. */
  lemma ReservedTotal(env: Env, l: Ledger, op: UserOperation, height: nat)
    requires Validate(env, l, op, height).Some?
    ensures op.sender in l.accounts
    ensures var p := Validate(env, l, op, height).value; var reserved := Reserved(p.ledger, op);
      && Total(reserved) + Reserve(p.ledger, op) == Total(l)
      && reserved.spent == p.ledger.spent == l.spent
  {
    ValidateWrites(env, l, op, height);
    ValidateTotal(env, l, op, height);
    var p := Validate(env, l, op, height).value;
    TotalPut(p.ledger, op.sender, Reserved(p.ledger, op).accounts[op.sender]);
  }

  // ---------- Conservation ----------

  ghost predicate Balanced(l: Ledger, r: OpResult) {
    Total(r.ledger) + r.fee + r.lost == Total(l) + r.credit
  }

  lemma RollBackTotal(env: Env, saved: Ledger, op: UserOperation, height: nat, run: Progress)
    ensures var r := RollBack(env, saved, op, height, run); Balanced(saved, r) && r.credit == 0
  {
    var l := ConsumeNonce(saved, op.sender, op.nonce).0;
    if op.sender in saved.accounts { TotalPut(saved, op.sender, l.accounts[op.sender]); }
    var r := RollBack(env, saved, op, height, run);
    if op.sender in l.accounts { TotalPut(l, op.sender, r.ledger.accounts[op.sender]); }
  }

  lemma SuccessTotal(env: Env, l: Ledger, op: UserOperation, height: nat, p: Prepared)
    requires height >= env.feeFixHeight && Total(l) <= MAX_U128 && BurnRate(env, l) <= 10_000
    requires op.sender in p.ledger.accounts && Total(p.ledger) == Total(l) && p.ledger.burnRate == l.burnRate
    requires var run := RunActions(env, Reserved(p.ledger, op), op.sender, op.actions, map[], height, p.policy);
      run.ok && NoSystem(run.trace)
    ensures var run := RunActions(env, Reserved(p.ledger, op), op.sender, op.actions, map[], height, p.policy);
      var r := Settle(env, op, height, Reserve(p.ledger, op), p.charge, run);
      Balanced(l, r) && r.credit <= r.fee && r.ledger.burnRate == l.burnRate
  {
    var reserved, reserve := Reserved(p.ledger, op), Reserve(p.ledger, op);
    TotalPut(p.ledger, op.sender, reserved.accounts[op.sender]);
    ActionsOk(env, reserved, op.sender, op.actions, map[], height, p.policy);
    var run := RunActions(env, reserved, op.sender, op.actions, map[], height, p.policy);
    SettleTotal(env, op, height, reserve, p.charge, run);
  }

  /** Conservation: through reserve, refund, transfers, contract payouts and sub-calls,
      the supply falls by exactly the fee paid and what deployments overwrote, and rises
      by the treasury's share; the fee never exceeds the signed maximum. */
  lemma OpConserves(env: Env, l: Ledger, op: UserOperation, height: nat)
    requires height >= env.feeFixHeight && Total(l) <= MAX_U128 && BurnRate(env, l) <= 10_000
    requires NoSystem(ExecuteOp(env, l, op, height).trace)
    ensures var r := ExecuteOp(env, l, op, height);
      && Total(r.ledger) + r.fee + r.lost == Total(l) + r.credit
      && r.credit <= r.fee <= op.maxFee && r.ledger.burnRate == l.burnRate
      && (!r.success ==> r.credit == 0 && r.lost == 0)
  {
    FeeWithinMax(env, l, op, height);
    if WellFormed(env, op) && Validate(env, l, op, height).Some? {
      var p := Validate(env, l, op, height).value;
      ValidateWrites(env, l, op, height);
      ValidateTotal(env, l, op, height);
      var run := RunActions(env, Reserved(p.ledger, op), op.sender, op.actions, map[], height, p.policy);
      if run.ok { SuccessTotal(env, l, op, height, p); } else { RollBackTotal(env, p.ledger, op, height, run); }
    }
  }

  function DeployAddress(env: Env, sender: Id, a: Action): Id
    requires a.Deploy?
  {
    env.address(sender, a.salt, env.codeHash(a.code))
  }

  /** Each deployment reached finds no balance at its address. */
  predicate DeploysOnEmpty(env: Env, l: Ledger, sender: Id, actions: seq<Action>, pending: map<Id, nat>, height: nat,
                           policy: Option<Policy>)
    decreases |actions|
  {
    actions == [] ||
    (var a := actions[0];
     var r := RunAction(env, l, sender, a, ValueFor(pending, a), height, policy);
     && (a.Deploy? ==> BalanceOf(l, DeployAddress(env, sender, a)) == 0)
     && (r.ok ==> DeploysOnEmpty(env, r.ledger, sender, actions[1..], Track(pending, a), height, policy)))
  }

  lemma {:induction false} LostIff(env: Env, l: Ledger, sender: Id, actions: seq<Action>, pending: map<Id, nat>, height: nat,
                                   policy: Option<Policy>)
    requires RunActions(env, l, sender, actions, pending, height, policy).ok
    ensures RunActions(env, l, sender, actions, pending, height, policy).lost == 0
            <==> DeploysOnEmpty(env, l, sender, actions, pending, height, policy)
    decreases |actions|
  {
    if actions != [] {
      var a := actions[0];
      var r := RunAction(env, l, sender, a, ValueFor(pending, a), height, policy);
      LostIff(env, r.ledger, sender, actions[1..], Track(pending, a), height, policy);
    }
  }

  /** For a successful operation, supply less fee plus credit is kept exactly if and only
      if every deployment finds its address without a balance. */
  lemma ConservesIff(env: Env, l: Ledger, op: UserOperation, height: nat)
    requires height >= env.feeFixHeight && Total(l) <= MAX_U128 && BurnRate(env, l) <= 10_000
    requires ExecuteOp(env, l, op, height).success && NoSystem(ExecuteOp(env, l, op, height).trace)
    ensures var r := ExecuteOp(env, l, op, height); var p := Validate(env, l, op, height).value;
      Total(r.ledger) == Total(l) - r.fee + r.credit
      <==> DeploysOnEmpty(env, Reserved(p.ledger, op), op.sender, op.actions, map[], height, p.policy)
  {
    OpConserves(env, l, op, height);
    var p := Validate(env, l, op, height).value;
    LostIff(env, Reserved(p.ledger, op), op.sender, op.actions, map[], height, p.policy);
  }

  /** Deploying onto a funded account without code succeeds and destroys its balance. */
  lemma DeployDestroys(env: Env, l: Ledger, op: UserOperation, height: nat)
    requires |op.actions| == 1 && op.actions[0].Deploy? && ExecuteOp(env, l, op, height).valid
    requires var id := DeployAddress(env, op.sender, op.actions[0]);
      id != op.sender && id in l.accounts && l.accounts[id].codeHash == NO_CODE
    ensures var r := ExecuteOp(env, l, op, height);
      r.success && r.lost == BalanceOf(l, DeployAddress(env, op.sender, op.actions[0]))
  {
    ValidateWrites(env, l, op, height);
    var p := Validate(env, l, op, height).value;
    var run := RunActions(env, Reserved(p.ledger, op), op.sender, op.actions, map[], height, p.policy);
    assert op.actions[1..] == [];
    var one := DeployTo(env, Reserved(p.ledger, op), op.sender, op.actions[0].code, op.actions[0].salt);
    assert run == Combine(one, RunActions(env, one.ledger, op.sender, [], map[], height, p.policy));
  }

  // ---------- Failure ----------

  /** A signed operation that passes validation and then fails leaves the ledger as it
      was, but for its nonce and the fee; one that fails validation changes nothing. */
  lemma FailureFrame(env: Env, l: Ledger, op: UserOperation, height: nat)
    requires !SystemAuthorized(op) && !ExecuteOp(env, l, op, height).success
    ensures var r := ExecuteOp(env, l, op, height);
      if !r.valid then r.ledger == l && r.fee == 0
      else
        && op.sender in l.accounts
        && r.fee == Min(l.accounts[op.sender].balance,
                        FeeFor(env.fees, r.gas, op.maxFee, height >= env.feeFixHeight))
        && r.ledger == Put(l, op.sender, l.accounts[op.sender].(nonce := op.nonce + 1,
                                                                 balance := l.accounts[op.sender].balance - r.fee))
  {
    var r := ExecuteOp(env, l, op, height);
    if r.valid {
      ValidateWrites(env, l, op, height);
      var p := Validate(env, l, op, height).value;
      var run := RunActions(env, Reserved(p.ledger, op), op.sender, op.actions, map[], height, p.policy);
      RollBackFrame(env, l, p.ledger, op, height, run);
    }
  }

  lemma RollBackFrame(env: Env, l: Ledger, saved: Ledger, op: UserOperation, height: nat, run: Progress)
    requires op.sender in l.accounts && saved == Put(l, op.sender, l.accounts[op.sender].(nonce := op.nonce + 1))
    ensures var r := RollBack(env, saved, op, height, run);
      && r.fee == Min(l.accounts[op.sender].balance, FeeFor(env.fees, run.gas, op.maxFee, height >= env.feeFixHeight))
      && r.ledger == Put(l, op.sender, l.accounts[op.sender].(nonce := op.nonce + 1,
                                                               balance := l.accounts[op.sender].balance - r.fee))
  {
    var r := RollBack(env, saved, op, height, run);
    var a := l.accounts[op.sender].(nonce := op.nonce + 1, balance := l.accounts[op.sender].balance - r.fee);
    assert r.ledger.accounts == l.accounts[op.sender := a];
  }

  /** A failing operation injected by the proposer takes a nonce if and only if the one
      it carries happens to be the account's next. */
  lemma SystemFailureNonce(env: Env, l: Ledger, op: UserOperation, height: nat)
    requires SystemAuthorized(op)
    requires ExecuteOp(env, l, op, height).valid && !ExecuteOp(env, l, op, height).success
    ensures var r := ExecuteOp(env, l, op, height);
      && op.sender in l.accounts && op.sender in r.ledger.accounts
      && (r.ledger.accounts[op.sender].nonce != l.accounts[op.sender].nonce
          <==> op.nonce == l.accounts[op.sender].nonce && op.nonce < MAX_U64)
      && (forall id :: id != op.sender && id in l.accounts ==> id in r.ledger.accounts && r.ledger.accounts[id] == l.accounts[id])
  {
  }

  /** An injected operation always makes its system call. */
  lemma SystemRuns(env: Env, l: Ledger, op: UserOperation, height: nat)
    requires SystemAuthorized(op) && ExecuteOp(env, l, op, height).valid
    ensures !NoSystem(ExecuteOp(env, l, op, height).trace)
  {
    var p := Validate(env, l, op, height).value;
    var run := RunActions(env, Reserved(p.ledger, op), op.sender, op.actions, map[], height, p.policy);
    assert run.trace[0].system;
  }
}
