/** What an operation does to every account's nonce, and exactly when one falls. */
module Nonces {
  import opened Types
  import opened Ledger
  import opened Calls
  import opened Operations
  import opened OperationLaws

  /** Some deployment among the actions has this address. */
  predicate DeploysTo(env: Env, sender: Id, actions: seq<Action>, id: Id) {
    exists i :: 0 <= i < |actions| && actions[i].Deploy? && DeployAddress(env, sender, actions[i]) == id
  }

  /** An action leaves every nonce, but a deployment starts its address at zero. */
  lemma ActionNonce(env: Env, l: Ledger, sender: Id, a: Action, msgValue: nat, height: nat, policy: Option<Policy>, id: Id)
    requires Total(l) <= MAX_U128 && !(a.Call? && IsSystem(a.target))
    requires var r := RunAction(env, l, sender, a, msgValue, height, policy); r.ok && NoSystem(r.trace)
    ensures NonceAt(RunAction(env, l, sender, a, msgValue, height, policy).ledger, id) ==
            if a.Deploy? && DeployAddress(env, sender, a) == id then 0 else NonceAt(l, id)
  {
    match a
    case Transfer(to, amount) => TransferConserves(l, sender, to, amount);
    case Call(target, callMethod, args) =>
      DispatchOk(env, l, Invocation(sender, target, callMethod, args, msgValue), height, 0, MAX_CALL_TREE_FUEL, policy);
    case SetAuth(_) =>
    case Deploy(_, _) =>
  }

  /** The nonce of any account after a run of actions without system calls. */
  lemma {:induction false} RunNonce(env: Env, l: Ledger, sender: Id, actions: seq<Action>, pending: map<Id, nat>, height: nat,
                                    policy: Option<Policy>, id: Id)
    requires Total(l) <= MAX_U128
    requires var r := RunActions(env, l, sender, actions, pending, height, policy); r.ok && NoSystem(r.trace)
    ensures NonceAt(RunActions(env, l, sender, actions, pending, height, policy).ledger, id) ==
            if DeploysTo(env, sender, actions, id) then 0 else NonceAt(l, id)
    decreases |actions|
  {
    if actions != [] {
      var a, tail := actions[0], actions[1..];
      var r := RunAction(env, l, sender, a, ValueFor(pending, a), height, policy);
      var rest := RunActions(env, r.ledger, sender, tail, Track(pending, a), height, policy);
      PartsPlain(r.trace, rest.trace);
      SystemShows(env, l, sender, a, ValueFor(pending, a), height, policy);
      ActionNonce(env, l, sender, a, ValueFor(pending, a), height, policy, id);
      ActionOk(env, l, sender, a, ValueFor(pending, a), height, policy);
      RunNonce(env, r.ledger, sender, tail, Track(pending, a), height, policy, id);
      DeploysToStep(env, sender, actions, id);
    }
  }

  lemma DeploysToStep(env: Env, sender: Id, actions: seq<Action>, id: Id)
    requires actions != []
    ensures DeploysTo(env, sender, actions, id) <==>
            (actions[0].Deploy? && DeployAddress(env, sender, actions[0]) == id) || DeploysTo(env, sender, actions[1..], id)
  {
    if i :| 0 <= i < |actions[1..]| && actions[1..][i].Deploy? && DeployAddress(env, sender, actions[1..][i]) == id {
      assert actions[i + 1] == actions[1..][i];
    }
    if i :| 0 < i < |actions| && actions[i].Deploy? && DeployAddress(env, sender, actions[i]) == id {
      assert actions[1..][i - 1] == actions[i];
    }
  }

  /** The ledger right after validation: the sender's nonce is taken. */
  function Advanced(l: Ledger, op: UserOperation): Ledger
    requires op.sender in l.accounts
  {
    Put(l, op.sender, l.accounts[op.sender].(nonce := op.nonce + 1))
  }

  lemma SettleNonces(env: Env, op: UserOperation, height: nat, reserve: nat, charge: Charge, run: Progress, id: Id)
    requires run.ok
    ensures NonceAt(Settle(env, op, height, reserve, charge, run).ledger, id) == NonceAt(run.ledger, id)
  {
  }

  lemma SuccessNonce(env: Env, l: Ledger, op: UserOperation, height: nat, id: Id)
    requires Total(l) <= MAX_U128 && !SystemAuthorized(op)
    requires ExecuteOp(env, l, op, height).success && NoSystem(ExecuteOp(env, l, op, height).trace)
    ensures op.sender in l.accounts && l.accounts[op.sender].nonce == op.nonce
    ensures NonceAt(ExecuteOp(env, l, op, height).ledger, id) ==
            if DeploysTo(env, op.sender, op.actions, id) then 0 else NonceAt(Advanced(l, op), id)
  {
    ValidateWrites(env, l, op, height);
    ReservedTotal(env, l, op, height);
    var p := Validate(env, l, op, height).value;
    var reserved := Reserved(p.ledger, op);
    RunNonce(env, reserved, op.sender, op.actions, map[], height, p.policy, id);
    SettleNonces(env, op, height, Reserve(p.ledger, op), p.charge,
                 RunActions(env, reserved, op.sender, op.actions, map[], height, p.policy), id);
  }

  /** Every nonce after an operation without system calls. Validation takes the sender's
      nonce, success or not; a deployment that succeeds starts its address at zero; no
      other nonce moves. */
  lemma OpNonces(env: Env, l: Ledger, op: UserOperation, height: nat, id: Id)
    requires Total(l) <= MAX_U128 && NoSystem(ExecuteOp(env, l, op, height).trace)
    ensures var r := ExecuteOp(env, l, op, height);
      if !r.valid then r.ledger == l
      else
        && op.sender in l.accounts && l.accounts[op.sender].nonce == op.nonce
        && NonceAt(r.ledger, id) == if r.success && DeploysTo(env, op.sender, op.actions, id) then 0
                                    else NonceAt(Advanced(l, op), id)
  {
    var r := ExecuteOp(env, l, op, height);
    if r.valid {
      if SystemAuthorized(op) { SystemRuns(env, l, op, height); }
      if r.success {
        SuccessNonce(env, l, op, height, id);
      } else {
        ValidateWrites(env, l, op, height);
        FailureFrame(env, l, op, height);
      }
    }
  }

  // ---------- When a nonce falls ----------

  /** Each deployment goes to an address other than the sender's that has no account, or
      one that has never sent anything. */
  predicate FreshTargets(env: Env, l: Ledger, op: UserOperation) {
    forall i :: 0 <= i < |op.actions| && op.actions[i].Deploy? ==>
      var id := DeployAddress(env, op.sender, op.actions[i]);
      id != op.sender && NonceAt(l, id) == 0
  }

  /** No nonce is below what validation left it at. */
  ghost predicate NoncesHold(l: Ledger, r: Ledger) {
    forall id :: NonceAt(r, id) >= NonceAt(l, id)
  }

  /** For a successful operation no nonce falls if and only if its deployments go to fresh
      targets; the condition can be read off the ledger before the call. */
  lemma NoncesHoldIff(env: Env, l: Ledger, op: UserOperation, height: nat)
    requires Total(l) <= MAX_U128
    requires ExecuteOp(env, l, op, height).success && NoSystem(ExecuteOp(env, l, op, height).trace)
    ensures op.sender in l.accounts
    ensures NoncesHold(Advanced(l, op), ExecuteOp(env, l, op, height).ledger) <==> FreshTargets(env, l, op)
  {
    var r := ExecuteOp(env, l, op, height);
    OpNonces(env, l, op, height, op.sender);
    var before := Advanced(l, op);
    forall id ensures NonceAt(r.ledger, id) == if DeploysTo(env, op.sender, op.actions, id) then 0 else NonceAt(before, id) {
      OpNonces(env, l, op, height, id);
    }
    if FreshTargets(env, l, op) {
      forall id ensures NonceAt(r.ledger, id) >= NonceAt(before, id) {
        if i :| 0 <= i < |op.actions| && op.actions[i].Deploy? && DeployAddress(env, op.sender, op.actions[i]) == id {
          assert NonceAt(before, id) == NonceAt(l, id) == 0;
        }
      }
    } else {
      var i :| 0 <= i < |op.actions| && op.actions[i].Deploy?
               && (DeployAddress(env, op.sender, op.actions[i]) == op.sender
                   || NonceAt(l, DeployAddress(env, op.sender, op.actions[i])) != 0);
      var id := DeployAddress(env, op.sender, op.actions[i]);
      assert DeploysTo(env, op.sender, op.actions, id);
      assert NonceAt(r.ledger, id) < NonceAt(before, id);
    }
  }

  /** Deploying onto an account without code succeeds, starts its nonce at zero and puts the
      deployer's authorisation and the new code in place of its own. */
  lemma DeployReplaces(env: Env, l: Ledger, op: UserOperation, height: nat)
    requires |op.actions| == 1 && op.actions[0].Deploy? && !SystemAuthorized(op) && ExecuteOp(env, l, op, height).valid
    requires var id := DeployAddress(env, op.sender, op.actions[0]);
      id != op.sender && id in l.accounts && l.accounts[id].codeHash == NO_CODE
    ensures var r := ExecuteOp(env, l, op, height); var id := DeployAddress(env, op.sender, op.actions[0]);
      && r.success && op.sender in l.accounts && id in r.ledger.accounts
      && r.ledger.accounts[id].nonce == 0
      && r.ledger.accounts[id].auth == l.accounts[op.sender].auth
      && r.ledger.accounts[id].codeHash == env.codeHash(op.actions[0].code)
  {
    DeployDestroys(env, l, op, height);
    ValidateWrites(env, l, op, height);
    var p := Validate(env, l, op, height).value;
    var one := DeployTo(env, Reserved(p.ledger, op), op.sender, op.actions[0].code, op.actions[0].salt);
    var run := RunActions(env, Reserved(p.ledger, op), op.sender, op.actions, map[], height, p.policy);
    assert op.actions[1..] == [];
    assert run == Combine(one, RunActions(env, one.ledger, op.sender, [], map[], height, p.policy));
    var id := DeployAddress(env, op.sender, op.actions[0]);
    SettledIdentity(env, op, height, Reserve(p.ledger, op), p.charge, run, id);
  }

  /** Settlement moves balances only. */
  lemma SettledIdentity(env: Env, op: UserOperation, height: nat, reserve: nat, charge: Charge, run: Progress, id: Id)
    requires run.ok && id in run.ledger.accounts
    ensures var l := Settle(env, op, height, reserve, charge, run).ledger;
      id in l.accounts && l.accounts[id] == run.ledger.accounts[id].(balance := l.accounts[id].balance)
  {
  }
}
